# Mini-wall feed: interaction, ownership and account clean-up rules

This project models the core of a social-feed backend written in Node.js with Express and Mongoose. Users register and log in. They create posts, like posts and comment on them. The model covers three things:
- the rules for who may act on which post or comment;
- how the likes and comments lists are kept;
- the cascading clean-up that runs when an account is deleted.

The database is three maps from ObjectId to document (users, posts, comments), held in the fields of one `Database` object. Each request handler is a method that takes the acting user's id explicitly, as the `user` request header. It runs the handler's checks in the code's order. It then either writes the maps or answers `Err(message)` with the code's exact message and writes nothing.

Modules:
- `FeedTypes`: the records and the replies. It also holds the library collaborators the handlers call, as one uninterpreted `Libraries` value: `isObjectId` for mongoose's ObjectId check, the four joi schemas, and bcrypt `hash` and `compare`.
- `Lists`: `$pull` on an id list, and the two `filter` callbacks.
- `Validate`: the interaction check `userInteractionValidation`.
- `Store`: the database object, the feed invariant and what a fresh ObjectId is.
- `Posts`: the post and comment handlers.
- `HandleUserData`: the clean-up `deleteAllUserData`.
- `Users`: the account handlers.

Outcomes:
- `Ok` is a success reply.
- `Err` is a 400/401 reply with a message.
- `Fault` stands for an exception the handler's own code raises before it writes anything. Examples are a TypeError on a missing post and a CastError on a malformed path id.

Every post and comment handler keeps the feed invariant `Store.FeedInvariant`:
- no post lists a like twice;
- no owner appears among their own post's likes;
- no post lists a comment id twice;
- no stored comment on a post belongs to the post's owner.

The clean-up keeps it too.

The two `filter` callbacks have block bodies without `return` (controllers/posts.js:292-294 and 433-435), so as written they keep nothing. The unlike and delete-comment handlers therefore take a `FilterReading`: `AsWritten` (the filter returns `[]`) or `Intended` (it removes exactly the id). Their contracts hold under both readings. See "## Findings".

Behaviours of the code that the model keeps:
- **Interaction check:** the owner is refused in every mode. Every mode other than `"like"` reduces to that owner check, so any non-owner is allowed in such a mode.
- **Registration duplicates:** registration rejects a new user only when one stored user has both the same (lower-cased) email and the same username. Its `$or` has a single clause. So two users may share a username, or an email. Since the `trim` setter is not modelled, the message is then always "Username already taken!"; in the code a padded username reaches "User already exists!" (see "## Left out").
- **Comment deletion order:** `deleteComment` deletes the comment before it updates the post, and never checks that the post lists the comment.
- **Logout:** `destroyToken` signs with an empty secret. `jwt.sign` therefore passes its error to the callback as the first argument and returns the callback's value: the success message. Logout answers "You have been successfully logged out!" for the user themself, and no token is revoked.
- **Login email:** the email path's `lowercase` setter also casts query values, so login matches the lower-cased email against the stored, lower-cased ones.
- **Token refresh:** the token-refresh route issues a token for any existing user id without asking for a credential.

## Model

| member | source | states |
|---|---|---|
| Validate.UserInteractionValidation | helpers/validate.js:91-101 | The post must exist. The owner is never allowed, in any mode. In "like" mode a non-owner is allowed iff not already among the likes. In any other mode, or none, the answer is exactly "not the owner". The message is "You already liked this post" exactly on the like path for a non-owner, allowed or not; otherwise there is none |
| Validate.VerdictReadsOnlyThePost | helpers/validate.js:94-100 | The verdict depends only on the stored post: two stores that agree on that post give the same verdict |
| Validate.SecondLikeRefused | helpers/validate.js:96-98 | After an allowed like is appended, the same user's next like is refused with "You already liked this post" |
| Lists.Without | helpers/handleUserData.js:16 | `$pull` of one id: the result holds exactly the elements other than the id. It is the input itself when the id is absent, and strictly shorter when it is present |
| Lists.WithoutMultiset | helpers/handleUserData.js:16 | `$pull` keeps each other id exactly as often as it occurred and drops every occurrence of the pulled one |
| Lists.WithoutAppend | helpers/handleUserData.js:16 | Pulling from a concatenation is pulling from each part, so the kept ids keep their order |
| Lists.WithoutAll | helpers/handleUserData.js:13-15 | Pulling a set of ids leaves exactly the elements outside the set |
| Lists.WithoutAllMultiset | helpers/handleUserData.js:13-15 | Pulling a set of ids keeps each id outside the set exactly as often as it occurred and none of the set |
| Lists.WithoutAllAppend | helpers/handleUserData.js:13-15 | Pulling a set of ids from a concatenation is pulling from each part, so the kept ids keep their order |
| Lists.WithoutAllStep | helpers/handleUserData.js:13-15 | Pulling one more id after a batch equals pulling the enlarged batch. This is the step of the per-comment loop |
| Lists.WithoutNoDuplicates | helpers/handleUserData.js:16 | Pulling an id keeps a duplicate-free list duplicate-free |
| Lists.WithoutAllNoDuplicates | helpers/handleUserData.js:13-15 | Pulling a set of ids keeps a duplicate-free list duplicate-free |
| Lists.AppendNoDuplicates | controllers/posts.js:264-269 | Appending an id that is not yet present keeps a list duplicate-free |
| Lists.Filtered | controllers/posts.js:292-297 | The filtered list never holds the id and only holds elements of the input. As written it is empty. Intended, it keeps every other element as often as it occurred. Its length is unchanged iff nothing was removed: the input was empty (as written) or lacked the id (intended) |
| Lists.FilteredNoDuplicates | controllers/posts.js:292-294 | Under either reading the filtered list of a duplicate-free list is duplicate-free |
| Lists.UnlikeAsWrittenDropsOtherLikes | controllers/posts.js:292-294 | As written, bob's unlike of a post liked by alice and bob leaves no likes. Intended, it leaves alice's |
| Lists.DeleteCommentAsWrittenClearsUnrelated | controllers/posts.js:433-438 | As written, deleting comment c2 against a post listing only c1 passes the "commented" check and empties the list. Intended, the list is unchanged and the check refuses |
| Posts.Edited | controllers/posts.js:186-193 | A post edit changes title, description and location to the request's and keeps owner, likes and comments |
| Posts.NewPost | controllers/posts.js:118-149 | A malformed actor id gives "Not valid userId" and a schema failure gives its message, both writing nothing. Otherwise the only write is a new post under a fresh id, owned by the actor, with the request's title, description and location and empty likes and comments |
| Posts.EditPost | controllers/posts.js:158-198 | In order: a malformed actor id, a schema failure, a malformed post id (fault), "Post not found!", "You are not the owner of the post!", none of which writes. Otherwise only that post's title, description and location change |
| Posts.DeletePost | controllers/posts.js:207-234 | The same checks as the edit except the schema. On success exactly that post is removed; comments and users are untouched |
| Posts.LikePost | controllers/posts.js:243-274 | A missing post is a fault. The owner gets "You cant like your own posts!" and a user already in the likes gets "You already liked this post", both writing nothing. Otherwise exactly the actor is appended at the end of the likes and the feed invariant is kept |
| Posts.UnlikePost | controllers/posts.js:283-315 | A missing post is a fault. If the filter removes nothing the reply is "Post not liked from the user yet" and nothing is written. Otherwise the likes become the filtered list, so the actor is no longer among them |
| Posts.AddComment | controllers/posts.js:325-365 | A missing post is a fault. The owner gets "You can't comment your own posts!" and a schema failure gives its message, both writing nothing. Otherwise a comment owned by the actor is stored under a fresh id, then that id is appended to the post's comments |
| Posts.EditComment | controllers/posts.js:374-407 | A missing comment, or one owned by someone else, gives "You are not the owner of the comment" and changes nothing. On success only that comment's description changes |
| Posts.DeleteComment | controllers/posts.js:416-459 | A missing or foreign comment gives "You are not the owner of the comment". A missing post is a fault. A filter that removes nothing gives "Post not commented from the user yet". None of these writes. On success the comment is deleted and the post's comments become the filtered list, which no longer holds its id |
| HandleUserData.OwnedComments | helpers/handleUserData.js:12 | The ids found are exactly the stored comments owned by the user |
| HandleUserData.PullComments | helpers/handleUserData.js:13-15 | Every post is kept, with the given comment ids pulled from its comments and nothing else changed; no post then lists one of those ids |
| HandleUserData.PullLike | helpers/handleUserData.js:16 | Every post is kept, with the user pulled from its likes and nothing else changed; no post then lists the user among its likes |
| HandleUserData.OthersPosts | helpers/handleUserData.js:17 | Exactly the posts of other users remain, unchanged |
| HandleUserData.CascadePosts | helpers/handleUserData.js:11-19 | Exactly the posts of other users remain. None lists the user among its likes. None lists a comment the user owned. Owner, title, description and location are unchanged, and the two lists only lose those ids |
| HandleUserData.CascadeComments | helpers/handleUserData.js:18 | Exactly the comments of other users remain, unchanged |
| HandleUserData.CascadeKeepsInvariant | helpers/handleUserData.js:11-19 | The clean-up keeps the feed invariant |
| HandleUserData.PullCommentEverywhere | helpers/handleUserData.js:14 | One bulk update pulls the comment id from every post and changes nothing else |
| HandleUserData.PullLikeEverywhere | helpers/handleUserData.js:16 | One bulk update pulls the user from every post's likes and changes nothing else |
| HandleUserData.PullOwnedComments | helpers/handleUserData.js:13-15 | The loop over the found comments leaves the posts equal to pulling all of their ids at once |
| HandleUserData.DeleteAllUserData | helpers/handleUserData.js:11-19 | The posts and comments afterwards are those of `CascadePosts` and `CascadeComments` on the state before. Users are untouched |
| Users.Lower | models/User.js:30 | ASCII lower-casing: same length, no upper-case letter left, other characters unchanged |
| Users.Fields | models/User.js:5-40 | A user as an object has exactly the five schema fields |
| Users.Record | controllers/users.js:253-263 | The selected document is the five fields plus `_id` |
| Users.MergeFields | controllers/users.js:271-273 | The field copy: every request field overwrites the stored one, every other stored field keeps its value, and no other key appears |
| Users.Updated | controllers/users.js:281-296 | The written user takes the five merged fields, with the email lower-cased. The password is hashed iff the request carried a non-empty one |
| Users.UserRegister | controllers/users.js:42-77 | A schema failure gives its message. A stored user with both the lower-cased email and the username gives "Username already taken!" (never "User already exists!" in a model without `trim`). Neither writes. Otherwise exactly one user is added, with the lower-cased email and the hash of the password, never the plaintext |
| Users.UserLogin | controllers/users.js:86-115 | A schema failure gives its message. No user with the lower-cased email gives "User not found!". Otherwise the reply is a token for a user with that email whose stored hash matches the password, or "Email or password is wrong!" for one whose hash does not |
| Users.ReAuthUser | controllers/users.js:124-136 | A token is issued exactly for an existing user id, else "User not found!"; a malformed id is a fault |
| Users.UserLogout | controllers/users.js:145-168 | A malformed id gives "Not valid userId!". The reply is "User not found!" unless the user exists and is the actor; then it is "You have been successfully logged out!" |
| Users.UpdateUser | controllers/users.js:241-301 | The target must exist and be the actor, else "User not found!". A schema failure on the merged object gives its message. Neither writes. Otherwise only that user changes, to the merged fields. Without a password in the request the stored hash is written back unchanged |
| Users.UpdateUserPass | controllers/users.js:310-361 | It needs only that the user exists. A schema failure gives its message, which includes a request without a password, since the schema requires one; neither writes. `Fault` (bcrypt given `undefined`) stands only for a schema that would accept a record without a password, and is excluded whenever the schema refuses every such record. On success only the password changes, to the hash of the new one |
| Users.DeleteUser | controllers/users.js:370-393 | "User not found!" unless the target exists and is the actor, with nothing deleted. Otherwise exactly that user is removed and the posts and comments become the clean-up's result for the same id |

## Left out

- Token signing and verification (middleware/auth.js): a token is `Token(subject)`. The secret, the signature and the one-hour expiry are not modelled. `destroyToken` is modelled only through the reply it makes logout send.
- Malformed ids: `objectIdValidation` and Mongoose's casting are the uninterpreted `isObjectId`. A missing `user` header is an id that fails it.
- Id spelling: ids are taken to arrive in the canonical lower-case hex form that `ObjectId.toString()` gives. The code stores `ObjectId(header)` but compares `.toString()` with the raw header, so a valid id spelt otherwise (upper-case hex, say) is stored in one form and compared in another. The model does not capture the refusals and the self-likes such a spelling causes.
- joi schemas: each is an uninterpreted function from the request data to pass or the first failure message. Field lengths, required fields and e-mail format are not modelled.
- bcrypt: `hash(password, salt)` and `compare` are uninterpreted. The random salt is a parameter.
- New ObjectIds: the id a save generates is a parameter required to be fresh. No document has it and no list mentions it.
- Read handlers (`getWall`, `getPostById`, `getUserPosts`, `getAll`, `getUser`) and `forgotPassword`: they are sorting, `populate` and string formatting inside the database and the environment.
- HTTP: status codes and reply payloads are not modelled. A success carries the new id, a token or nothing, instead of the saved document or the update result.
- Database errors caught by the handlers' `try` blocks (`err.toString()` replies): the store never fails.
- The `!req.body` checks of the two update handlers: the JSON body parser always supplies an object, so the branch is dead. The body is a map of string fields; non-string JSON values are not modelled.
- Concurrency: the un-awaited `forEach(async ...)` of the clean-up and the fire-and-forget call from `deleteUser` are modelled as sequential steps run to completion. Partial failures are not modelled.
- Timestamps, and the schema's `trim` setters on user fields, on saves and on query values alike.
- Users.UserRegister: the `trim` setter also casts the `findOne` filter, so a request whose username differs from a stored one only by surrounding spaces matches that user by its trimmed name, fails the raw `username` comparison and gets "User already exists!"; the model compares untrimmed names, finds no match and adds the user.
- Users.Lower: lower-cases ASCII letters only, where JavaScript's `toLowerCase` follows Unicode case mapping.
- Users.UserLogin: when several users share the email, which one `findOne` returns is left open. The contract holds for whichever is picked.

## Findings

| source | as written | input that shows it | evidently intended | confidence | as-written member | corrected member |
|---|---|---|---|---|---|---|
| controllers/posts.js:292-294 | the filter callback has a block body without `return`, so it keeps nothing and a successful unlike removes every like | a post liked by alice and bob; bob unlikes; its likes become empty | remove only the actor's like | high; not executed | Lists.UnlikeAsWrittenDropsOtherLikes | Lists.Without |
| controllers/posts.js:433-435 | the same callback shape keeps nothing, so any post with a non-empty comments list passes the check and loses all its comment links, even when the deleted comment is not on it | a post listing only c1; the owner of comment c2 deletes c2 against that post; c2 is deleted and the post lists nothing | remove only that comment's id, and refuse when the post does not list it | high; not executed | Lists.DeleteCommentAsWrittenClearsUnrelated | Lists.Without |
