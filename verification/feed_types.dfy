/** The records of the feed (users, posts, comments), the replies a handler
    sends, and the library collaborators the handlers consult (joi schemas,
    the ObjectId check, bcrypt, token signing) as uninterpreted values. */
module FeedTypes {

  /** A MongoDB ObjectId, compared through its string form.  Ids are taken
      to arrive in that canonical form. */
  type Id = string

  datatype Option<+T> = None | Some(value: T)

  /** The user document: the five fields of the schema. */
  datatype User = User(firstname: string, lastname: string, username: string,
                       email: string, password: string)

  /** A post: its owner is fixed at creation; likes and comments are lists of ids. */
  datatype Post = Post(owner: Id, title: string, description: string, location: string,
                       likes: seq<Id>, comments: seq<Id>)

  datatype Comment = Comment(owner: Id, description: string)

  /** What a handler answers.  `Err` is a 400/401 reply carrying a message;
      `Fault` is an exception raised by the handler's own code (a null
      dereference, a failed ObjectId cast, an illegal bcrypt argument),
      raised before anything is written. */
  datatype Reply<+T> = Ok(value: T) | Err(message: string) | Fault

  /** The outcome of a joi schema: the first detail message on failure. */
  datatype Check = Pass | Fail(message: string)

  /** The body of a post request, as the post schema sees it. */
  datatype PostData = PostData(owner: Option<Id>, title: string, description: string, location: string)

  /** The body of a comment request, with the owner the handler adds to it. */
  datatype CommentData = CommentData(description: string, owner: Id)

  /** A signed token: only the user id it embeds is modelled. */
  datatype Token = Token(subject: Id)

  type Salt = string

  /** The library functions the handlers call, left uninterpreted:
      mongoose.isValidObjectId, the four joi schemas, bcrypt.hash and bcrypt.compare. */
  datatype Libraries = Libraries(
    isObjectId: Id -> bool,
    postSchema: PostData -> Check,
    commentSchema: CommentData -> Check,
    userSchema: map<string, string> -> Check,
    loginSchema: (string, string) -> Check,
    hash: (string, Salt) -> string,
    compare: (string, string) -> bool)

  /** The reply messages, exactly as the handlers send them. */
  const NotValidUserId := "Not valid userId"
  const NotValidUserIdBang := "Not valid userId!"
  const PostNotFound := "Post not found!"
  const NotPostOwner := "You are not the owner of the post!"
  const AlreadyLiked := "You already liked this post"
  const CantLikeOwn := "You cant like your own posts!"
  const NotLikedYet := "Post not liked from the user yet"
  const CantCommentOwn := "You can't comment your own posts!"
  const NotCommentOwner := "You are not the owner of the comment"
  const NotCommentedYet := "Post not commented from the user yet"
  const UserNotFound := "User not found!"
  const UsernameTaken := "Username already taken!"
  const UserAlreadyExists := "User already exists!"
  const WrongCredentials := "Email or password is wrong!"
  const LoggedOut := "You have been successfully logged out!"
}
