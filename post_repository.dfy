/** Posts and likes: listing, reading, creating, editing and deleting
    posts, and toggling a like. Each operation either raises a classified
    failure and leaves the tables as they were, or updates them as stated. */
module PostRepository {
  import opened Schemas
  import opened Store
  import Text

  // ---------------------------------------------------------------------
  // How a view is assembled
  // ---------------------------------------------------------------------

  /** The like rows that refer to one post. */
  function LikesOf(likes: set<Like>, postId: Uuid): set<Like> {
    set l | l in likes && l.postId == postId
  }

  /** The like count shown for a post: the number of like rows naming it. */
  function LikeCount(likes: set<Like>, postId: Uuid): nat {
    |LikesOf(likes, postId)|
  }

  /** Whether the acting user has a like row on the post. */
  predicate LikedBy(likes: set<Like>, postId: Uuid, userId: Uuid) {
    Like(postId, userId) in likes
  }

  /** The view of a stored post for the acting user `viewerId`, with its
      author looked up in the users table. */
  function View(users: map<Uuid, UserRow>, posts: map<Uuid, PostRow>, likes: set<Like>,
                postId: Uuid, viewerId: Uuid): PostView
    requires postId in posts && posts[postId].userId in users
  {
    var post := posts[postId];
    PostView(postId, post.content, ProfileOf(users, post.userId),
             LikeCount(likes, postId), LikedBy(likes, postId, viewerId), post.time)
  }

  /** A post the acting user liked shows at least one like. */
  lemma LikedIsCounted(likes: set<Like>, postId: Uuid, userId: Uuid)
    requires LikedBy(likes, postId, userId)
    ensures LikeCount(likes, postId) >= 1
  {
    assert Like(postId, userId) in LikesOf(likes, postId);
  }

  // ---------------------------------------------------------------------
  // The listing order: newest first
  // ---------------------------------------------------------------------

  /** `rows` lists every post exactly once, by creation time descending:
      what the ordered posts query returns. Posts with equal times may come
      in either order. */
  ghost predicate NewestFirst(posts: map<Uuid, PostRow>, rows: seq<Uuid>) {
    && (forall i :: 0 <= i < |rows| ==> rows[i] in posts)
    && (forall id :: id in posts ==> id in rows)
    && (forall i, j :: 0 <= i < j < |rows| ==> rows[i] != rows[j])
    && (forall i, j :: 0 <= i < j < |rows| ==> posts[rows[i]].time >= posts[rows[j]].time)
  }

  /** No two posts were created at the same time. */
  ghost predicate DistinctTimes(posts: map<Uuid, PostRow>) {
    forall a, b :: a in posts && b in posts && posts[a].time == posts[b].time ==> a == b
  }

  /** Every nonempty set of posts has an oldest member. */
  lemma {:induction false} OldestExists(posts: map<Uuid, PostRow>, ids: set<Uuid>)
    requires ids != {} && ids <= posts.Keys
    ensures exists id :: id in ids && forall o :: o in ids ==> posts[id].time <= posts[o].time
    decreases ids
  {
    var x :| x in ids;
    if ids == {x} {
      assert forall o :: o in ids ==> posts[x].time <= posts[o].time;
    } else {
      OldestExists(posts, ids - {x});
      var y :| y in ids - {x} && forall o :: o in ids - {x} ==> posts[y].time <= posts[o].time;
      if posts[x].time <= posts[y].time {
        assert forall o :: o in ids ==> posts[x].time <= posts[o].time;
      } else {
        assert forall o :: o in ids ==> posts[y].time <= posts[o].time;
      }
    }
  }

  /** Whatever the posts table holds, a newest-first listing of it exists. */
  lemma {:induction false} NewestFirstExists(posts: map<Uuid, PostRow>)
    ensures exists rows :: NewestFirst(posts, rows)
    decreases |posts|
  {
    if posts == map[] {
      assert NewestFirst(posts, []);
    } else {
      OldestExists(posts, posts.Keys);
      var last :| last in posts && forall o :: o in posts ==> posts[last].time <= posts[o].time;
      var rest := posts - {last};
      assert rest.Keys == posts.Keys - {last};
      assert |rest| < |posts|;
      NewestFirstExists(rest);
      var rows :| NewestFirst(rest, rows);
      NewestFirstAppend(posts, rows, last);
    }
  }

  /** Appending the oldest post to a newest-first listing of the others
      lists them all. */
  lemma NewestFirstAppend(posts: map<Uuid, PostRow>, rows: seq<Uuid>, last: Uuid)
    requires last in posts && forall o :: o in posts ==> posts[last].time <= posts[o].time
    requires NewestFirst(posts - {last}, rows)
    ensures NewestFirst(posts, rows + [last])
  {
  }

  /** When no two posts share a creation time the listing is determined:
      two newest-first listings of the same posts are equal. */
  lemma {:induction false} NewestFirstUnique(posts: map<Uuid, PostRow>, r1: seq<Uuid>, r2: seq<Uuid>)
    requires DistinctTimes(posts)
    requires NewestFirst(posts, r1) && NewestFirst(posts, r2)
    ensures r1 == r2
    decreases |r1|
  {
    if |r1| > 0 {
      var h := r1[0];
      assert h in posts;
      assert h in r2;
      var j :| 0 <= j < |r2| && r2[j] == h;
      assert r2[0] in r1;
      var i :| 0 <= i < |r1| && r1[i] == r2[0];
      assert posts[h].time >= posts[r2[0]].time;
      assert posts[r2[0]].time >= posts[h].time;
      assert r2[0] == h;
      var rest := posts - {h};
      NewestFirstTail(posts, r1);
      NewestFirstTail(posts, r2);
      NewestFirstUnique(rest, r1[1..], r2[1..]);
      assert r1 == [h] + r1[1..];
      assert r2 == [h] + r2[1..];
    }
  }

  /** Dropping the head of a newest-first listing lists the other posts. */
  lemma NewestFirstTail(posts: map<Uuid, PostRow>, rows: seq<Uuid>)
    requires NewestFirst(posts, rows) && |rows| > 0
    ensures NewestFirst(posts - {rows[0]}, rows[1..])
    ensures DistinctTimes(posts) ==> DistinctTimes(posts - {rows[0]})
  {
  }

  /** Three posts made at times 1, 2 and 3 are listed third, second, first. */
  lemma NewestFirstExample(author: Uuid, rows: seq<Uuid>)
    requires NewestFirst(map["p1" := PostRow(author, "one", 1),
                             "p2" := PostRow(author, "two", 2),
                             "p3" := PostRow(author, "three", 3)], rows)
    ensures rows == ["p3", "p2", "p1"]
  {
    var posts := map["p1" := PostRow(author, "one", 1),
                     "p2" := PostRow(author, "two", 2),
                     "p3" := PostRow(author, "three", 3)];
    var expected: seq<Uuid> := ["p3", "p2", "p1"];
    assert NewestFirst(posts, expected);
    NewestFirstUnique(posts, rows, expected);
  }

  // ---------------------------------------------------------------------
  // The like toggle
  // ---------------------------------------------------------------------

  /** The likes table after toggling `like`: removed if present, added
      otherwise. */
  function Toggled(likes: set<Like>, like: Like): set<Like> {
    if like in likes then likes - {like} else likes + {like}
  }

  /** Toggling twice restores the original likes. */
  lemma ToggleInvolution(likes: set<Like>, like: Like)
    ensures Toggled(Toggled(likes, like), like) == likes
  {
  }

  /** A toggle moves the post's like count by exactly one, flips whether
      the acting user liked it, and leaves every other post's count and
      every other user's like alone. */
  lemma ToggleEffect(likes: set<Like>, postId: Uuid, userId: Uuid)
    ensures var after := Toggled(likes, Like(postId, userId));
      && LikedBy(after, postId, userId) == !LikedBy(likes, postId, userId)
      && LikeCount(after, postId) == if LikedBy(likes, postId, userId)
                                     then LikeCount(likes, postId) - 1
                                     else LikeCount(likes, postId) + 1
    ensures forall p :: p != postId ==> LikeCount(Toggled(likes, Like(postId, userId)), p) == LikeCount(likes, p)
    ensures forall u :: u != userId ==>
      LikedBy(Toggled(likes, Like(postId, userId)), postId, u) == LikedBy(likes, postId, u)
    ensures forall p, u :: (p, u) != (postId, userId) ==>
      LikedBy(Toggled(likes, Like(postId, userId)), p, u) == LikedBy(likes, p, u)
  {
    var like := Like(postId, userId);
    var after := Toggled(likes, like);
    if like in likes {
      assert LikesOf(after, postId) == LikesOf(likes, postId) - {like};
    } else {
      assert LikesOf(after, postId) == LikesOf(likes, postId) + {like};
    }
    forall p | p != postId
      ensures LikeCount(after, p) == LikeCount(likes, p)
    {
      assert LikesOf(after, p) == LikesOf(likes, p);
    }
  }

  // ---------------------------------------------------------------------
  // The repository operations
  // ---------------------------------------------------------------------

  /** All posts, newest first, each as seen by `user`. `rows` is the result
      of the ordered posts query. */
  method GetAllPosts(db: Database, user: Profile, rows: seq<Uuid>) returns (views: seq<PostView>)
    requires db.Valid()
    requires NewestFirst(db.posts, rows)
    ensures |views| == |rows|
    ensures forall i :: 0 <= i < |views| ==> views[i] == View(db.users, db.posts, db.likes, rows[i], user.id)
    ensures forall id :: id in db.posts ==> exists i :: 0 <= i < |views| && views[i].id == id
    ensures forall i, j :: 0 <= i < j < |views| ==> views[i].id != views[j].id
    ensures forall i, j :: 0 <= i < j < |views| ==> views[i].time >= views[j].time
  {
    views := [];
    for i := 0 to |rows|
      invariant |views| == i
      invariant forall k :: 0 <= k < i ==> views[k] == View(db.users, db.posts, db.likes, rows[k], user.id)
    {
      var post := db.posts[rows[i]];
      var author := ProfileOf(db.users, post.userId);
      var likes := LikeCount(db.likes, rows[i]);
      var liked := Like(rows[i], user.id) in db.likes;
      views := views + [PostView(rows[i], post.content, author, likes, liked, post.time)];
    }
    forall id | id in db.posts
      ensures exists i :: 0 <= i < |views| && views[i].id == id
    {
      var k :| 0 <= k < |rows| && rows[k] == id;
      assert views[k].id == id;
    }
  }

  /** One post as seen by `user`. */
  method GetPost(db: Database, postId: Uuid, user: Profile) returns (r: Result<PostView>)
    requires db.Valid()
    ensures postId !in db.posts ==> r == Err(PostNotFound)
    ensures postId in db.posts ==> r == Ok(View(db.users, db.posts, db.likes, postId, user.id))
  {
    if postId !in db.posts {
      return Err(PostNotFound);
    }
    var post := db.posts[postId];
    var author := ProfileOf(db.users, post.userId);
    var likes := LikeCount(db.likes, postId);
    var liked := Like(postId, user.id) in db.likes;
    return Ok(PostView(postId, post.content, author, likes, liked, post.time));
  }

  /** A post id that has never been used: no post and no like row carries it. */
  predicate FreshPostId(posts: map<Uuid, PostRow>, likes: set<Like>, id: Uuid) {
    id !in posts && forall l :: l in likes ==> l.postId != id
  }

  /** Publishes `content` as a new post by `user`, with the database's fresh
      id `newId` and creation time `now`. */
  method CreatePost(db: Database, user: Profile, content: string, newId: Uuid, now: int)
    returns (r: Result<PostView>)
    requires db.Valid() && user.id in db.users
    requires FreshPostId(db.posts, db.likes, newId)
    modifies db`posts
    ensures db.Valid()
    ensures r.Err? <==> Text.IsBlank(content)
    ensures r.Err? ==> r.error == EmptyContent && db.posts == old(db.posts)
    ensures r.Ok? ==> db.posts == old(db.posts)[newId := PostRow(user.id, content, now)]
    ensures r.Ok? ==> |db.posts| == |old(db.posts)| + 1
    ensures r.Ok? ==> r.value == PostView(newId, content, user, 0, false, now)
    ensures r.Ok? ==> LikeCount(db.likes, newId) == 0 && !LikedBy(db.likes, newId, user.id)
    ensures r.Ok? && ProfileOf(db.users, user.id) == user ==>
      r.value == View(db.users, db.posts, db.likes, newId, user.id)
  {
    if |content| == 0 || Text.Strip(content) == "" {
      return Err(EmptyContent);
    }
    db.posts := db.posts[newId := PostRow(user.id, content, now)];
    assert LikesOf(db.likes, newId) == {};
    return Ok(PostView(newId, content, user, 0, false, now));
  }

  /** Replaces the content of post `postId`, which `user` must have written. */
  method EditPost(db: Database, postId: Uuid, user: Profile, content: string)
    returns (r: Result<PostView>)
    requires db.Valid()
    modifies db`posts
    ensures db.Valid()
    ensures Text.IsBlank(content) ==> r == Err(EmptyContent)
    ensures !Text.IsBlank(content) && postId !in old(db.posts) ==> r == Err(PostNotFound)
    ensures !Text.IsBlank(content) && postId in old(db.posts) && old(db.posts)[postId].userId != user.id ==>
      r == Err(NotTheAuthor)
    ensures r.Err? ==> db.posts == old(db.posts)
    ensures r.Ok? <==>
      !Text.IsBlank(content) && postId in old(db.posts) && old(db.posts)[postId].userId == user.id
    ensures r.Ok? ==>
      db.posts == old(db.posts)[postId := old(db.posts)[postId].(content := content)]
    ensures r.Ok? ==> r.value == PostView(postId, content, user, LikeCount(db.likes, postId),
                                          LikedBy(db.likes, postId, user.id), old(db.posts)[postId].time)
    ensures r.Ok? && user.id in db.users && ProfileOf(db.users, user.id) == user ==>
      r.value == View(db.users, db.posts, db.likes, postId, user.id)
  {
    if |content| == 0 || Text.Strip(content) == "" {
      return Err(EmptyContent);
    }
    if postId !in db.posts {
      return Err(PostNotFound);
    }
    var post := db.posts[postId];
    if post.userId != user.id {
      return Err(NotTheAuthor);
    }
    db.posts := db.posts[postId := post.(content := content)];
    var likes := LikeCount(db.likes, postId);
    var liked := Like(postId, user.id) in db.likes;
    return Ok(PostView(postId, content, user, likes, liked, post.time));
  }

  /** Removes post `postId`, which `user` must have written. */
  method DeletePost(db: Database, postId: Uuid, user: Profile) returns (r: Result<string>)
    requires db.Valid()
    modifies db`posts
    ensures db.Valid()
    ensures postId !in old(db.posts) ==> r == Err(PostNotFound)
    ensures postId in old(db.posts) && old(db.posts)[postId].userId != user.id ==> r == Err(NotTheAuthor)
    ensures r.Err? ==> db.posts == old(db.posts)
    ensures r.Ok? <==> postId in old(db.posts) && old(db.posts)[postId].userId == user.id
    ensures r.Ok? ==> db.posts == old(db.posts) - {postId} && r.value == "Post deleted"
  {
    if postId !in db.posts {
      return Err(PostNotFound);
    }
    var post := db.posts[postId];
    if post.userId != user.id {
      return Err(NotTheAuthor);
    }
    db.posts := db.posts - {postId};
    return Ok("Post deleted");
  }

  /** Likes post `postId` on behalf of `user`, or takes the like back if
      there already is one. Authors cannot like their own posts. */
  method ToggleLike(db: Database, postId: Uuid, user: Profile) returns (r: Result<string>)
    requires db.Valid()
    modifies db`likes
    ensures db.Valid()
    ensures postId !in db.posts ==> r == Err(PostNotFound)
    ensures postId in db.posts && db.posts[postId].userId == user.id ==> r == Err(OwnPostLike)
    ensures r.Err? ==> db.likes == old(db.likes)
    ensures r.Ok? <==> postId in db.posts && db.posts[postId].userId != user.id
    ensures r.Ok? ==> db.likes == Toggled(old(db.likes), Like(postId, user.id))
    ensures r.Ok? ==>
      r.value == if LikedBy(old(db.likes), postId, user.id) then "Like removed" else "Liked"
  {
    if postId !in db.posts {
      return Err(PostNotFound);
    }
    var post := db.posts[postId];
    if post.userId == user.id {
      return Err(OwnPostLike);
    }
    var like := Like(postId, user.id);
    if like in db.likes {
      db.likes := db.likes - {like};
      return Ok("Like removed");
    }
    db.likes := db.likes + {like};
    return Ok("Liked");
  }

  /** Two likes in a row by the same user on the same post leave the likes
      table as it was; the first reports "Liked" exactly when the second
      reports "Like removed". */
  method ToggleTwice(db: Database, postId: Uuid, user: Profile) returns (first: Result<string>, second: Result<string>)
    requires db.Valid()
    modifies db`likes
    ensures db.likes == old(db.likes)
    ensures first.Ok? <==> second.Ok?
    ensures first.Ok? ==> (first.value == "Liked" <==> second.value == "Like removed")
  {
    first := ToggleLike(db, postId, user);
    second := ToggleLike(db, postId, user);
    ToggleInvolution(old(db.likes), Like(postId, user.id));
  }
}
