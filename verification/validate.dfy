/** The interaction check of helpers/validate.js: may a user like or
    comment a post?  One read of the post, then a decision. */
module Validate {
  import opened FeedTypes

  /** The pair the check returns: whether the interaction is allowed, and a
      message that is set only on the like path. */
  datatype Verdict = Verdict(allow: bool, allowMessage: Option<string>)

  /** `mode` is the string argument of the check, `None` when the caller
      leaves it out (as the comment handler does).  The post is looked up
      and dereferenced without a null check, so it must exist. */
  function UserInteractionValidation(posts: map<Id, Post>, postId: Id, user: Id,
                                     mode: Option<string>): (v: Verdict)
    requires postId in posts
    // the owner is never allowed, whatever the mode
    ensures user == posts[postId].owner ==> !v.allow
    // like mode: a non-owner is allowed exactly when not yet among the likes
    ensures mode == Some("like") && user != posts[postId].owner ==>
              (v.allow <==> user !in posts[postId].likes)
    // any other mode: exactly "not the owner", the likes are not consulted
    ensures mode != Some("like") ==> (v.allow <==> user != posts[postId].owner)
    // the message is set on the like path for a non-owner, allowed or not
    ensures v.allowMessage.Some? <==> mode == Some("like") && user != posts[postId].owner
    ensures v.allowMessage.Some? ==> v.allowMessage.value == AlreadyLiked
  {
    var post := posts[postId];
    var allow := post.owner != user;
    if mode == Some("like") && allow then
      Verdict(user !in post.likes, Some(AlreadyLiked))
    else
      Verdict(allow, None)
  }

  /** The verdict depends on the stored post only: two stores that agree on
      that post give the same answer. */
  lemma VerdictReadsOnlyThePost(posts: map<Id, Post>, posts': map<Id, Post>, postId: Id,
                                user: Id, mode: Option<string>)
    requires postId in posts && postId in posts' && posts[postId] == posts'[postId]
    ensures UserInteractionValidation(posts, postId, user, mode)
         == UserInteractionValidation(posts', postId, user, mode)
  {
  }

  /** Liking twice: a first like that is allowed and appended makes the
      same user's second like refused with the already-liked message. */
  lemma {:induction false} SecondLikeRefused(posts: map<Id, Post>, postId: Id, user: Id)
    requires postId in posts
    requires UserInteractionValidation(posts, postId, user, Some("like")).allow
    ensures var p := posts[postId];
            var after := posts[postId := p.(likes := p.likes + [user])];
            UserInteractionValidation(after, postId, user, Some("like"))
              == Verdict(false, Some(AlreadyLiked))
  {
    var p := posts[postId];
    assert user in (p.likes + [user]);
  }
}
