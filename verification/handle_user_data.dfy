/** The clean-up of helpers/handleUserData.js, run when an account is
    deleted: the user's comments are unlinked from every post, the user's
    likes are pulled from every post, then the user's posts and comments are
    deleted.  The steps are modelled as running one after another, to
    completion. */
module HandleUserData {
  import opened FeedTypes
  import opened Lists
  import opened Store

  /** The ids of the comments `u` owns. */
  function OwnedComments(comments: map<Id, Comment>, u: Id): (ids: set<Id>)
    ensures forall c :: c in ids <==> c in comments && comments[c].owner == u
  {
    set c | c in comments && comments[c].owner == u
  }

  /** Every post, with the ids of `ids` pulled from its comments. */
  function PullComments(posts: map<Id, Post>, ids: set<Id>): (r: map<Id, Post>)
    ensures r.Keys == posts.Keys
    ensures forall p :: p in r ==> r[p] == posts[p].(comments := WithoutAll(posts[p].comments, ids))
    ensures forall p, c :: p in r && c in ids ==> c !in r[p].comments
  {
    map p | p in posts :: posts[p].(comments := WithoutAll(posts[p].comments, ids))
  }

  /** Every post, with `u` pulled from its likes. */
  function PullLike(posts: map<Id, Post>, u: Id): (r: map<Id, Post>)
    ensures r.Keys == posts.Keys
    ensures forall p :: p in r ==> r[p] == posts[p].(likes := Without(posts[p].likes, u))
    ensures forall p :: p in r ==> u !in r[p].likes
  {
    map p | p in posts :: posts[p].(likes := Without(posts[p].likes, u))
  }

  /** The posts of users other than `u`: what `Post.deleteMany({ owner: u })` leaves. */
  function OthersPosts(posts: map<Id, Post>, u: Id): (r: map<Id, Post>)
    ensures forall p :: p in r <==> p in posts && posts[p].owner != u
    ensures forall p :: p in r ==> r[p] == posts[p]
  {
    map p | p in posts && posts[p].owner != u :: posts[p]
  }

  /** What the cascade leaves of the posts. */
  function CascadePosts(posts: map<Id, Post>, comments: map<Id, Comment>, u: Id): (r: map<Id, Post>)
    // exactly the posts of other users survive
    ensures forall p :: p in r <==> p in posts && posts[p].owner != u
    // the user's id is in no remaining post's likes
    ensures forall p :: p in r ==> u !in r[p].likes
    // no remaining post lists a comment the user owned
    ensures forall p, c :: p in r && c in r[p].comments ==> c !in comments || comments[c].owner != u
    // only the two lists change, and only by removal
    ensures forall p :: p in r ==>
              r[p].owner == posts[p].owner && r[p].title == posts[p].title &&
              r[p].description == posts[p].description && r[p].location == posts[p].location &&
              (forall x :: x in r[p].likes <==> x in posts[p].likes && x != u) &&
              (forall c :: c in r[p].comments <==>
                 c in posts[p].comments && (c !in comments || comments[c].owner != u))
  {
    OthersPosts(PullLike(PullComments(posts, OwnedComments(comments, u)), u), u)
  }

  /** What the cascade leaves of the comments: exactly those of other users. */
  function CascadeComments(comments: map<Id, Comment>, u: Id): (r: map<Id, Comment>)
    ensures forall c :: c in r <==> c in comments && comments[c].owner != u
    ensures forall c :: c in r ==> r[c] == comments[c]
  {
    map c | c in comments && comments[c].owner != u :: comments[c]
  }

  /** The cascade keeps the feed invariant. */
  lemma {:induction false} CascadeKeepsInvariant(posts: map<Id, Post>, comments: map<Id, Comment>, u: Id)
    requires FeedInvariant(posts, comments)
    ensures FeedInvariant(CascadePosts(posts, comments, u), CascadeComments(comments, u))
  {
    var r := CascadePosts(posts, comments, u);
    var owned := OwnedComments(comments, u);
    forall p | p in r
      ensures NoDuplicates(r[p].likes) && r[p].owner !in r[p].likes && NoDuplicates(r[p].comments)
    {
      WithoutNoDuplicates(posts[p].likes, u);
      WithoutAllNoDuplicates(posts[p].comments, owned);
    }
  }

  /** One `updateMany` that pulls comment `c` from every post. */
  method PullCommentEverywhere(db: Database, c: Id)
    modifies db
    ensures db.users == old(db.users) && db.comments == old(db.comments)
    ensures db.posts.Keys == old(db.posts).Keys
    ensures forall p :: p in db.posts ==>
              db.posts[p] == old(db.posts)[p].(comments := Without(old(db.posts)[p].comments, c))
  {
    db.posts := map p | p in db.posts :: db.posts[p].(comments := Without(db.posts[p].comments, c));
  }

  /** The `forEach` over the user's comments: each id is pulled from every post. */
  method PullOwnedComments(db: Database, commentsToDelete: set<Id>)
    modifies db
    ensures db.users == old(db.users) && db.comments == old(db.comments)
    ensures db.posts == PullComments(old(db.posts), commentsToDelete)
  {
    var todo := commentsToDelete;
    ghost var done: set<Id> := {};
    forall p | p in db.posts ensures WithoutAll(db.posts[p].comments, {}) == db.posts[p].comments {
      WithoutAllEmpty(db.posts[p].comments);
    }
    while todo != {}
      invariant todo !! done && todo + done == commentsToDelete
      invariant db.users == old(db.users) && db.comments == old(db.comments)
      invariant db.posts == PullComments(old(db.posts), done)
      decreases todo
    {
      var c :| c in todo;
      PullCommentEverywhere(db, c);
      forall p | p in old(db.posts)
        ensures Without(WithoutAll(old(db.posts)[p].comments, done), c)
             == WithoutAll(old(db.posts)[p].comments, done + {c})
      {
        WithoutAllStep(old(db.posts)[p].comments, done, c);
      }
      todo, done := todo - {c}, done + {c};
    }
  }

  /** One `updateMany` that pulls user `u` from every post's likes. */
  method PullLikeEverywhere(db: Database, u: Id)
    modifies db
    ensures db.users == old(db.users) && db.comments == old(db.comments)
    ensures db.posts == PullLike(old(db.posts), u)
  {
    db.posts := map p | p in db.posts :: db.posts[p].(likes := Without(db.posts[p].likes, u));
  }

  /** The clean-up for a deleted user `userId`. */
  method DeleteAllUserData(db: Database, userId: Id)
    modifies db
    ensures db.users == old(db.users)
    ensures db.posts == CascadePosts(old(db.posts), old(db.comments), userId)
    ensures db.comments == CascadeComments(old(db.comments), userId)
    ensures old(db.Consistent()) ==> db.Consistent()
  {
    var commentsToDelete := set c | c in db.comments && db.comments[c].owner == userId;
    assert commentsToDelete == OwnedComments(old(db.comments), userId);
    PullOwnedComments(db, commentsToDelete);
    PullLikeEverywhere(db, userId);
    // delete the user's posts, then the user's comments
    db.posts := OthersPosts(db.posts, userId);
    db.comments := CascadeComments(db.comments, userId);
    if old(db.Consistent()) {
      CascadeKeepsInvariant(old(db.posts), old(db.comments), userId);
    }
  }
}
