/** The post handlers of controllers/posts.js: create, edit and delete a
    post, like and unlike it, add, edit and delete a comment.  Each handler
    takes the acting user's id (the `user` request header) explicitly,
    checks in the order the code does, and either writes the database or
    answers with an error and writes nothing. */
module Posts {
  import opened FeedTypes
  import opened Lists
  import opened Validate
  import opened Store

  /** The post a successful edit leaves: only title, description and location change. */
  function Edited(p: Post, body: PostData): (q: Post)
    ensures q.owner == p.owner && q.likes == p.likes && q.comments == p.comments
    ensures q.title == body.title && q.description == body.description && q.location == body.location
  {
    p.(title := body.title, description := body.description, location := body.location)
  }

  method NewPost(db: Database, lib: Libraries, actor: Id, body: PostData, newId: Id)
    returns (r: Reply<Id>)
    requires db.Fresh(newId)
    modifies db
    ensures db.users == old(db.users) && db.comments == old(db.comments)
    ensures var data := body.(owner := Some(actor));
      if !lib.isObjectId(actor) then
        r == Err(NotValidUserId) && db.posts == old(db.posts)
      else if lib.postSchema(data).Fail? then
        r == Err(lib.postSchema(data).message) && db.posts == old(db.posts)
      else
        r == Ok(newId) &&
        db.posts == old(db.posts)[newId := Post(actor, body.title, body.description, body.location, [], [])]
    ensures old(db.Consistent()) ==> db.Consistent()
  {
    if !lib.isObjectId(actor) {
      return Err(NotValidUserId);
    }
    var data := body.(owner := Some(actor));
    var check := lib.postSchema(data);
    if check.Fail? {
      return Err(check.message);
    }
    db.posts := db.posts[newId := Post(actor, body.title, body.description, body.location, [], [])];
    r := Ok(newId);
  }

  method EditPost(db: Database, lib: Libraries, actor: Id, postId: Id, body: PostData)
    returns (r: Reply<()>)
    modifies db
    ensures db.users == old(db.users) && db.comments == old(db.comments)
    ensures
      if !lib.isObjectId(actor) then
        r == Err(NotValidUserIdBang) && db.posts == old(db.posts)
      else if lib.postSchema(body).Fail? then
        r == Err(lib.postSchema(body).message) && db.posts == old(db.posts)
      else if !lib.isObjectId(postId) then
        r == Fault && db.posts == old(db.posts)
      else if postId !in old(db.posts) then
        r == Err(PostNotFound) && db.posts == old(db.posts)
      else if old(db.posts)[postId].owner != actor then
        r == Err(NotPostOwner) && db.posts == old(db.posts)
      else
        r == Ok(()) && db.posts == old(db.posts)[postId := Edited(old(db.posts)[postId], body)]
    ensures old(db.Consistent()) ==> db.Consistent()
  {
    if !lib.isObjectId(actor) {
      return Err(NotValidUserIdBang);
    }
    var check := lib.postSchema(body);
    if check.Fail? {
      return Err(check.message);
    }
    if !lib.isObjectId(postId) {
      return Fault;
    }
    if postId !in db.posts {
      return Err(PostNotFound);
    }
    var post := db.posts[postId];
    if actor != post.owner {
      return Err(NotPostOwner);
    }
    db.posts := db.posts[postId := Edited(post, body)];
    r := Ok(());
  }

  /** Deleting a post removes that post only; its comments stay in the store. */
  method DeletePost(db: Database, lib: Libraries, actor: Id, postId: Id)
    returns (r: Reply<()>)
    modifies db
    ensures db.users == old(db.users) && db.comments == old(db.comments)
    ensures
      if !lib.isObjectId(actor) then
        r == Err(NotValidUserIdBang) && db.posts == old(db.posts)
      else if !lib.isObjectId(postId) then
        r == Fault && db.posts == old(db.posts)
      else if postId !in old(db.posts) then
        r == Err(PostNotFound) && db.posts == old(db.posts)
      else if old(db.posts)[postId].owner != actor then
        r == Err(NotPostOwner) && db.posts == old(db.posts)
      else
        r == Ok(()) && db.posts == old(db.posts) - {postId}
    ensures old(db.Consistent()) ==> db.Consistent()
  {
    if !lib.isObjectId(actor) {
      return Err(NotValidUserIdBang);
    }
    if !lib.isObjectId(postId) {
      return Fault;
    }
    if postId !in db.posts {
      return Err(PostNotFound);
    }
    if actor != db.posts[postId].owner {
      return Err(NotPostOwner);
    }
    db.posts := db.posts - {postId};
    r := Ok(());
  }

  /** A like is refused to the owner and to a user already among the likes;
      otherwise exactly the actor is appended at the end of the likes. */
  method LikePost(db: Database, lib: Libraries, actor: Id, postId: Id)
    returns (r: Reply<()>)
    modifies db
    ensures db.users == old(db.users) && db.comments == old(db.comments)
    ensures
      if !lib.isObjectId(actor) then
        r == Err(NotValidUserId) && db.posts == old(db.posts)
      else if !lib.isObjectId(postId) || postId !in old(db.posts) then
        r == Fault && db.posts == old(db.posts)
      else
        var p := old(db.posts)[postId];
        if actor == p.owner then
          r == Err(CantLikeOwn) && db.posts == old(db.posts)
        else if actor in p.likes then
          r == Err(AlreadyLiked) && db.posts == old(db.posts)
        else
          r == Ok(()) && db.posts == old(db.posts)[postId := p.(likes := p.likes + [actor])]
    ensures old(db.Consistent()) ==> db.Consistent()
  {
    if !lib.isObjectId(actor) {
      return Err(NotValidUserId);
    }
    if !lib.isObjectId(postId) || postId !in db.posts {
      return Fault;
    }
    var verdict := UserInteractionValidation(db.posts, postId, actor, Some("like"));
    if !verdict.allow {
      return Err(if verdict.allowMessage.Some? then verdict.allowMessage.value else CantLikeOwn);
    }
    var post := db.posts[postId];
    ghost var before := db.posts;
    db.posts := db.posts[postId := post.(likes := post.likes + [actor])];
    if FeedInvariant(before, db.comments) {
      AppendNoDuplicates(post.likes, actor);
    }
    r := Ok(());
  }

  /** An unlike whose filter removes nothing is refused and writes nothing;
      otherwise the likes become the filtered list, without the actor. */
  method UnlikePost(db: Database, lib: Libraries, actor: Id, postId: Id, reading: FilterReading)
    returns (r: Reply<()>)
    modifies db
    ensures db.users == old(db.users) && db.comments == old(db.comments)
    ensures
      if !lib.isObjectId(actor) then
        r == Err(NotValidUserId) && db.posts == old(db.posts)
      else if !lib.isObjectId(postId) || postId !in old(db.posts) then
        r == Fault && db.posts == old(db.posts)
      else
        var p := old(db.posts)[postId];
        var kept := Filtered(p.likes, actor, reading);
        if |kept| == |p.likes| then
          r == Err(NotLikedYet) && db.posts == old(db.posts)
        else
          r == Ok(()) && db.posts == old(db.posts)[postId := p.(likes := kept)]
    ensures r.Ok? ==> postId in db.posts && actor !in db.posts[postId].likes
    ensures old(db.Consistent()) ==> db.Consistent()
  {
    if !lib.isObjectId(actor) {
      return Err(NotValidUserId);
    }
    if !lib.isObjectId(postId) || postId !in db.posts {
      return Fault;
    }
    var post := db.posts[postId];
    var newLikes := Filtered(post.likes, actor, reading);
    if |post.likes| == |newLikes| {
      return Err(NotLikedYet);
    }
    ghost var before := db.posts;
    db.posts := db.posts[postId := post.(likes := newLikes)];
    if FeedInvariant(before, db.comments) {
      FilteredNoDuplicates(post.likes, actor, reading);
    }
    r := Ok(());
  }

  /** A comment is refused to the post's owner; otherwise a comment owned by
      the actor is stored under a fresh id, then that id is appended to the
      post's comments. */
  method AddComment(db: Database, lib: Libraries, actor: Id, postId: Id, description: string, newId: Id)
    returns (r: Reply<Id>)
    requires db.Fresh(newId)
    modifies db
    ensures db.users == old(db.users)
    ensures
      if !lib.isObjectId(actor) then
        r == Err(NotValidUserId) && unchanged(db)
      else if !lib.isObjectId(postId) || postId !in old(db.posts) then
        r == Fault && unchanged(db)
      else
        var p := old(db.posts)[postId];
        var data := CommentData(description, actor);
        if actor == p.owner then
          r == Err(CantCommentOwn) && unchanged(db)
        else if lib.commentSchema(data).Fail? then
          r == Err(lib.commentSchema(data).message) && unchanged(db)
        else
          r == Ok(newId) &&
          db.comments == old(db.comments)[newId := Comment(actor, description)] &&
          db.posts == old(db.posts)[postId := p.(comments := p.comments + [newId])]
    ensures old(db.Consistent()) ==> db.Consistent()
  {
    if !lib.isObjectId(actor) {
      return Err(NotValidUserId);
    }
    if !lib.isObjectId(postId) || postId !in db.posts {
      return Fault;
    }
    var verdict := UserInteractionValidation(db.posts, postId, actor, None);
    if !verdict.allow {
      return Err(CantCommentOwn);
    }
    var data := CommentData(description, actor);
    var check := lib.commentSchema(data);
    if check.Fail? {
      return Err(check.message);
    }
    ghost var before := db.posts;
    ghost var storedBefore := db.comments;
    // the comment is saved first, then linked from the post
    db.comments := db.comments[newId := Comment(actor, description)];
    var post := db.posts[postId];
    db.posts := db.posts[postId := post.(comments := post.comments + [newId])];
    if FeedInvariant(before, storedBefore) {
      AppendNoDuplicates(post.comments, newId);
    }
    r := Ok(newId);
  }

  /** Only the owner of an existing comment may edit it, and only its
      description changes. */
  method EditComment(db: Database, lib: Libraries, actor: Id, commentId: Id, description: string)
    returns (r: Reply<()>)
    modifies db
    ensures db.users == old(db.users) && db.posts == old(db.posts)
    ensures
      if !lib.isObjectId(actor) then
        r == Err(NotValidUserId) && db.comments == old(db.comments)
      else if !lib.isObjectId(commentId) then
        r == Fault && db.comments == old(db.comments)
      else if commentId !in old(db.comments) || old(db.comments)[commentId].owner != actor then
        r == Err(NotCommentOwner) && db.comments == old(db.comments)
      else if lib.commentSchema(CommentData(description, actor)).Fail? then
        r == Err(lib.commentSchema(CommentData(description, actor)).message) &&
        db.comments == old(db.comments)
      else
        r == Ok(()) &&
        db.comments == old(db.comments)[commentId := Comment(actor, description)]
    ensures old(db.Consistent()) ==> db.Consistent()
  {
    if !lib.isObjectId(actor) {
      return Err(NotValidUserId);
    }
    if !lib.isObjectId(commentId) {
      return Fault;
    }
    if commentId !in db.comments || db.comments[commentId].owner != actor {
      return Err(NotCommentOwner);
    }
    var check := lib.commentSchema(CommentData(description, actor));
    if check.Fail? {
      return Err(check.message);
    }
    var comment := db.comments[commentId];
    db.comments := db.comments[commentId := comment.(description := description)];
    r := Ok(());
  }

  /** Only the owner of an existing comment may delete it.  The post is
      then read and its comments filtered; if the filter removes nothing the
      request is refused, otherwise the comment is deleted and the post's
      comments become the filtered list.  The code never checks that the
      comment belongs to that post. */
  method DeleteComment(db: Database, lib: Libraries, actor: Id, postId: Id, commentId: Id,
                       reading: FilterReading)
    returns (r: Reply<()>)
    modifies db
    ensures db.users == old(db.users)
    ensures
      if !lib.isObjectId(actor) then
        r == Err(NotValidUserId) && unchanged(db)
      else if !lib.isObjectId(commentId) then
        r == Fault && unchanged(db)
      else if commentId !in old(db.comments) || old(db.comments)[commentId].owner != actor then
        r == Err(NotCommentOwner) && unchanged(db)
      else if !lib.isObjectId(postId) || postId !in old(db.posts) then
        r == Fault && unchanged(db)
      else
        var p := old(db.posts)[postId];
        var kept := Filtered(p.comments, commentId, reading);
        if |kept| == |p.comments| then
          r == Err(NotCommentedYet) && unchanged(db)
        else
          r == Ok(()) &&
          db.comments == old(db.comments) - {commentId} &&
          db.posts == old(db.posts)[postId := p.(comments := kept)]
    ensures r.Ok? ==> commentId !in db.comments &&
                      postId in db.posts && commentId !in db.posts[postId].comments
    ensures old(db.Consistent()) ==> db.Consistent()
  {
    if !lib.isObjectId(actor) {
      return Err(NotValidUserId);
    }
    if !lib.isObjectId(commentId) {
      return Fault;
    }
    if commentId !in db.comments || db.comments[commentId].owner != actor {
      return Err(NotCommentOwner);
    }
    if !lib.isObjectId(postId) || postId !in db.posts {
      return Fault;
    }
    var post := db.posts[postId];
    var newComments := Filtered(post.comments, commentId, reading);
    if |post.comments| == |newComments| {
      return Err(NotCommentedYet);
    }
    ghost var before := db.posts;
    ghost var storedBefore := db.comments;
    // the comment is deleted first, then the post's list is replaced
    db.comments := db.comments - {commentId};
    db.posts := db.posts[postId := post.(comments := newComments)];
    if FeedInvariant(before, storedBefore) {
      FilteredNoDuplicates(post.comments, commentId, reading);
    }
    r := Ok(());
  }

  /** The like/unlike sequence on one post, derived from the handlers'
      contracts alone: the owner is refused, a second like is refused, and
      the unlike empties the likes under either reading of the filter. */
  method LikeScenario(reading: FilterReading) {
    var db := new Database();
    var lib := Libraries(_ => true, _ => Pass, _ => Pass, _ => Pass, (_, _) => Pass,
                         (pw, salt) => salt + pw, (pw, h) => false);
    db.posts := map["p1" := Post("alice", "title", "description", "location", [], [])];
    var r := LikePost(db, lib, "alice", "p1");
    assert r == Err(CantLikeOwn);
    r := LikePost(db, lib, "bob", "p1");
    assert r == Ok(()) && db.posts["p1"].likes == ["bob"];
    r := LikePost(db, lib, "bob", "p1");
    assert r == Err(AlreadyLiked);
    r := UnlikePost(db, lib, "bob", "p1", reading);
    assert r == Ok(()) && db.posts["p1"].likes == [];
  }
}
