/** The database the handlers share: three collections, each a map from
    ObjectId to document, updated in place. */
module Store {
  import opened FeedTypes
  import opened Lists

  /** What the interaction rules keep true of the feed: no user likes a
      post twice, no owner likes their own post, a post never lists a
      comment twice, and no stored comment on a post is its owner's. */
  ghost predicate FeedInvariant(posts: map<Id, Post>, comments: map<Id, Comment>) {
    (forall p :: p in posts ==>
       NoDuplicates(posts[p].likes) && posts[p].owner !in posts[p].likes &&
       NoDuplicates(posts[p].comments)) &&
    (forall p, c :: p in posts && c in comments && c in posts[p].comments ==>
       comments[c].owner != posts[p].owner)
  }

  class Database {
    var users: map<Id, User>
    var posts: map<Id, Post>
    var comments: map<Id, Comment>

    constructor ()
      ensures users == map[] && posts == map[] && comments == map[]
      ensures Consistent()
    {
      users, posts, comments := map[], map[], map[];
    }

    ghost predicate Consistent()
      reads this
    {
      FeedInvariant(posts, comments)
    }

    /** An ObjectId that no document has and no list mentions: what MongoDB
        generates for a new document. */
    ghost predicate Fresh(id: Id)
      reads this
    {
      id !in users && id !in posts && id !in comments &&
      forall p :: p in posts ==> id !in posts[p].likes && id !in posts[p].comments
    }
  }
}
