/**
 * The like and save services. The `likes` and `saved_posts` tables are each an
 * abstract relation: the set of (user, post) pairs that have a row. A failed
 * insert, delete or query is a parameter of the call that meets it.
 *
 * The two read projections turn joined rows (a `likes` or `saved_posts` row
 * with its post embedded, or a missing post) into the posts the screens show.
 */
module LikesService {
  import opened Common
  import opened Types

  /** The rows of a (user, post) table. */
  type Relation = set<(UserId, PostId)>

  /** The users with a row for the post. */
  function Likers(rel: Relation, postId: PostId): (users: set<UserId>)
    ensures forall u :: u in users <==> (u, postId) in rel
  {
    set row | row in rel && row.1 == postId :: row.0
  }

  /** The exact number of rows for the post (`select count(*) ... where post_id = postId`). */
  function RowCount(rel: Relation, postId: PostId): nat {
    |Likers(rel, postId)|
  }

  /** The table after a toggle: the row is deleted if present and inserted if absent. */
  function Toggled(rel: Relation, row: (UserId, PostId)): (r: Relation)
    ensures row in r <==> row !in rel
    ensures forall other :: other != row ==> (other in r <==> other in rel)
  {
    if row in rel then rel - {row} else rel + {row}
  }

  /** Toggling the same row twice restores the table. */
  lemma ToggledTwice(rel: Relation, row: (UserId, PostId))
    ensures Toggled(Toggled(rel, row), row) == rel
  {
  }

  /** A toggle moves the post's row count by exactly one: down on unlike, up on like. */
  lemma CountAfterToggle(rel: Relation, userId: UserId, postId: PostId)
    ensures (userId, postId) in rel ==> RowCount(Toggled(rel, (userId, postId)), postId) == RowCount(rel, postId) - 1
    ensures (userId, postId) !in rel ==> RowCount(Toggled(rel, (userId, postId)), postId) == RowCount(rel, postId) + 1
  {
    var after := Toggled(rel, (userId, postId));
    if (userId, postId) in rel {
      assert Likers(after, postId) == Likers(rel, postId) - {userId};
    } else {
      assert Likers(after, postId) == Likers(rel, postId) + {userId};
    }
  }

  /** A toggle on one post does not change another post's row count. */
  lemma CountOfOtherPost(rel: Relation, userId: UserId, postId: PostId, other: PostId)
    requires other != postId
    ensures RowCount(Toggled(rel, (userId, postId)), other) == RowCount(rel, other)
  {
    assert Likers(Toggled(rel, (userId, postId)), other) == Likers(rel, other);
  }

  /** What `toggleLike` resolves with when it does not fail. */
  datatype LikeResult = LikeResult(liked: bool, count: nat)

  class Tables {
    var likes: Relation
    var saves: Relation

    constructor (likes: Relation, saves: Relation)
      ensures this.likes == likes && this.saves == saves
    {
      this.likes := likes;
      this.saves := saves;
    }

    /**
     * `likesService.toggleLike`: an existing like is deleted and `liked` is
     * false, otherwise one is inserted and `liked` is true; `count` is the
     * post's row count afterwards, 0 when the count query gives none. A failed
     * write resolves with null and leaves the table alone.
     */
    method ToggleLike(userId: UserId, postId: PostId, writeFails: bool, countFails: bool)
      returns (r: Option<LikeResult>)
      modifies this
      ensures saves == old(saves)
      ensures writeFails ==> r == None && likes == old(likes)
      ensures !writeFails ==> likes == Toggled(old(likes), (userId, postId))
      ensures !writeFails ==> r.Some? && (r.value.liked <==> (userId, postId) !in old(likes))
      ensures !writeFails && !countFails ==> r.value.count == RowCount(likes, postId)
      ensures !writeFails && countFails ==> r.value.count == 0
    {
      var existing := (userId, postId) in likes;
      if writeFails {
        return None;
      }
      var liked: bool;
      if existing {
        likes := likes - {(userId, postId)};
        liked := false;
      } else {
        likes := likes + {(userId, postId)};
        liked := true;
      }
      var count := if countFails then 0 else RowCount(likes, postId);
      return Some(LikeResult(liked, count));
    }

    /** `getLikeCount`: the post's row count, 0 when the query fails. */
    method GetLikeCount(postId: PostId, fails: bool) returns (n: nat)
      ensures fails ==> n == 0
      ensures !fails ==> n == |Likers(likes, postId)|
    {
      n := if fails then 0 else RowCount(likes, postId);
    }

    /** `hasUserLiked`: true exactly when the query succeeds and the row exists. */
    method HasUserLiked(userId: UserId, postId: PostId, fails: bool) returns (b: bool)
      ensures b <==> !fails && userId in Likers(likes, postId)
    {
      b := !fails && (userId, postId) in likes;
    }

    /**
     * `savedPostsService.toggleSave`: an existing save is deleted and the
     * result is false, otherwise one is inserted and the result is true; a
     * failed write gives null and leaves the table alone.
     */
    method ToggleSave(userId: UserId, postId: PostId, writeFails: bool) returns (r: Option<bool>)
      modifies this
      ensures likes == old(likes)
      ensures writeFails ==> r == None && saves == old(saves)
      ensures !writeFails ==> saves == Toggled(old(saves), (userId, postId))
      ensures !writeFails ==> r == Some((userId, postId) in saves)
    {
      var existing := (userId, postId) in saves;
      if writeFails {
        return None;
      }
      if existing {
        saves := saves - {(userId, postId)};
        return Some(false);
      } else {
        saves := saves + {(userId, postId)};
        return Some(true);
      }
    }

    /** `hasUserSaved`: true exactly when the query succeeds and the row exists. */
    method HasUserSaved(userId: UserId, postId: PostId, fails: bool) returns (b: bool)
      ensures b <==> !fails && userId in Likers(saves, postId)
    {
      b := !fails && (userId, postId) in saves;
    }
  }

  /** Two successful like toggles by the same user leave the table and the count as they were. */
  method ToggleLikeTwice(tables: Tables, userId: UserId, postId: PostId) returns (first: LikeResult, second: LikeResult)
    modifies tables
    ensures tables.likes == old(tables.likes) && tables.saves == old(tables.saves)
    ensures first.liked != second.liked
    ensures second.count == RowCount(old(tables.likes), postId)
  {
    var r1 := tables.ToggleLike(userId, postId, false, false);
    var r2 := tables.ToggleLike(userId, postId, false, false);
    ToggledTwice(old(tables.likes), (userId, postId));
    first, second := r1.value, r2.value;
  }

  // ---------------------------------------------------------------------------
  // Read projections
  // ---------------------------------------------------------------------------

  /** One `likes!left(user_id)` entry joined onto a post. */
  datatype LikeEntry = LikeEntry(userId: UserId)

  /** A post as the saved-posts join embeds it: the post and its left-joined likes. */
  datatype JoinedPost = JoinedPost(post: Post, likes: Option<seq<LikeEntry>>)

  /** A `likes` or `saved_posts` row with its joined post, which may be missing. */
  datatype JoinedRow<J> = JoinedRow(postId: PostId, posts: Option<J>)

  /** A `saved_posts` row: its post comes with the post's left-joined likes. */
  type SavedRow = JoinedRow<JoinedPost>

  /** A `likes` row: its post comes alone. */
  type LikedRow = JoinedRow<Post>

  /** `.map(item => item.posts)`: the joined post of each row, in row order. */
  function Joins<J>(rows: seq<JoinedRow<J>>): (r: seq<Option<J>>)
    ensures |r| == |rows| && forall i :: 0 <= i < |rows| ==> r[i] == rows[i].posts
  {
    seq(|rows|, i requires 0 <= i < |rows| => rows[i].posts)
  }

  /** `.filter(Boolean)` on joined posts: the present ones, in order. */
  function Present<T(!new)>(s: seq<Option<T>>): (r: seq<T>)
    ensures |r| <= |s|
    ensures forall x :: x in r <==> Some(x) in s
  {
    if s == [] then []
    else
      assert s == [s[0]] + s[1..];
      if s[0].Some? then [s[0].value] + Present(s[1..]) else Present(s[1..])
  }

  /** Filtering keeps the relative order: it distributes over concatenation. */
  lemma {:induction false} PresentConcat<T(!new)>(s: seq<Option<T>>, t: seq<Option<T>>)
    ensures Present(s + t) == Present(s) + Present(t)
  {
    if s == [] {
      assert s + t == t;
    } else {
      assert (s + t)[1..] == s[1..] + t;
      PresentConcat(s[1..], t);
    }
  }

  /** `likes.some(like => like.user_id === userId)`. */
  function LikedBy(likes: seq<LikeEntry>, userId: UserId): (b: bool)
    ensures b <==> exists i :: 0 <= i < |likes| && likes[i].userId == userId
  {
    if likes == [] then false
    else likes[0].userId == userId || LikedBy(likes[1..], userId)
  }

  /**
   * The computed fields of a saved post: the like count is the number of
   * joined likes (0 when there are none), the post is liked when one of them
   * is the viewer's, and it is saved; everything else is the post's own.
   */
  function Decorate(j: JoinedPost, userId: UserId): (p: Post)
    ensures j.likes.None? ==> p.likeCount == 0 && !p.isLiked
    ensures j.likes.Some? ==>
              && p.likeCount == |j.likes.value|
              && (p.isLiked <==> exists i :: 0 <= i < |j.likes.value| && j.likes.value[i].userId == userId)
    ensures p.isSaved
    ensures p.(likeCount := j.post.likeCount, isLiked := j.post.isLiked, isSaved := j.post.isSaved) == j.post
  {
    match j.likes
    case None => j.post.(likeCount := 0, isLiked := false, isSaved := true)
    case Some(likes) => j.post.(likeCount := |likes|, isLiked := LikedBy(likes, userId), isSaved := true)
  }

  /** `.map(post => ({...post, like_count, is_liked, is_saved}))`. */
  function DecorateAll(s: seq<JoinedPost>, userId: UserId): (r: seq<Post>)
    ensures |r| == |s| && forall i :: 0 <= i < |s| ==> r[i] == Decorate(s[i], userId)
  {
    seq(|s|, i requires 0 <= i < |s| => Decorate(s[i], userId))
  }

  /** Taking the joined posts keeps the row order: it distributes over concatenation. */
  lemma JoinsConcat<J>(rows: seq<JoinedRow<J>>, more: seq<JoinedRow<J>>)
    ensures Joins(rows + more) == Joins(rows) + Joins(more)
  {
  }

  /** Decorating keeps the order of the posts: it distributes over concatenation. */
  lemma DecorateAllConcat(s: seq<JoinedPost>, t: seq<JoinedPost>, userId: UserId)
    ensures DecorateAll(s + t, userId) == DecorateAll(s, userId) + DecorateAll(t, userId)
  {
  }

  /** `getUserSavedPosts`: the joined posts of the user's saved rows, decorated; `[]` on error. */
  function GetUserSavedPosts(q: Query<SavedRow>, userId: UserId): (r: seq<Post>)
    ensures q.QueryError? || q.data.None? ==> r == []
    ensures forall i :: 0 <= i < |r| ==> r[i].isSaved
  {
    match q
    case QueryError => []
    case Rows(data) =>
      var rows := if data.Some? then data.value else [];
      DecorateAll(Present(Joins(rows)), userId)
  }

  /** The saved-posts projection keeps the order of the rows: it distributes over concatenation. */
  lemma SavedPostsConcat(rows: seq<SavedRow>, more: seq<SavedRow>, userId: UserId)
    ensures GetUserSavedPosts(Rows(Some(rows + more)), userId)
         == GetUserSavedPosts(Rows(Some(rows)), userId) + GetUserSavedPosts(Rows(Some(more)), userId)
  {
    JoinsConcat(rows, more);
    PresentConcat(Joins(rows), Joins(more));
    DecorateAllConcat(Present(Joins(rows)), Present(Joins(more)), userId);
  }

  /** One row: a missing post gives nothing, a present post gives that post decorated. */
  lemma SavedPostsOfRow(row: SavedRow, userId: UserId)
    ensures row.posts.None? ==> GetUserSavedPosts(Rows(Some([row])), userId) == []
    ensures row.posts.Some? ==> GetUserSavedPosts(Rows(Some([row])), userId) == [Decorate(row.posts.value, userId)]
  {
    var joins := Joins([row]);
    assert joins == [row.posts];
    assert joins[1..] == [];
  }

  /**
   * `getUserLikedPosts`: the joined posts of the user's like rows, missing ones
   * dropped and no field computed; `[]` on error or when the data is null.
   */
  function GetUserLikedPosts(q: Query<LikedRow>): (r: seq<Post>)
    ensures q.QueryError? || q.data.None? ==> r == []
    ensures q.Rows? && q.data.Some? ==>
              forall p :: p in r <==> exists i :: 0 <= i < |q.data.value| && q.data.value[i].posts == Some(p)
  {
    match q
    case QueryError => []
    case Rows(None) => []
    case Rows(Some(rows)) =>
      var joins := Joins(rows);
      assert forall p :: Some(p) in joins <==> exists i :: 0 <= i < |rows| && rows[i].posts == Some(p);
      Present(joins)
  }
}
