/**
 * The posts provider: three views of posts (the feed, the signed-in user's own
 * posts, the user's saved posts), a loading flag and the time of the last feed
 * fetch. The per-view updaters are whole-sequence map, filter and prepend
 * expressions, defined here as functions; the provider's state is a class whose
 * methods replace the views with those functions' results.
 *
 * Remote fetches are parameters: each load takes the outcome of its fetch
 * (the posts it resolved with, or a throw), and the clock readings it needs.
 */
module PostsContext {
  import opened Common
  import opened Types
  import PostService

  /** The cooldown between two unforced feed fetches, in milliseconds (one minute). */
  const MinTimeBetweenFetches: int := 1000 * 60

  // ---------------------------------------------------------------------------
  // Per-view updaters
  // ---------------------------------------------------------------------------

  /** Some post in the view has this id (`prev.some(p => p.id === postId)`). */
  function HasId(s: seq<Post>, postId: PostId): (b: bool)
    ensures b <==> exists i :: 0 <= i < |s| && s[i].id == postId
  {
    s != [] && (s[0].id == postId || HasId(s[1..], postId))
  }

  /** The `updatePostLike` update of one post. */
  function SetLike(p: Post, postId: PostId, liked: bool, count: int): (r: Post)
    ensures r.id == p.id
    ensures p.id == postId ==> r.isLiked == liked && r.likeCount == count
                               && r.(isLiked := p.isLiked, likeCount := p.likeCount) == p
    ensures p.id != postId ==> r == p
  {
    if p.id == postId then p.(isLiked := liked, likeCount := count) else p
  }

  /**
   * `prev.map(updateFn)` for a like: every post with the id now carries the new
   * like flag and count, and nothing else about the view changes.
   */
  function MapLike(s: seq<Post>, postId: PostId, liked: bool, count: int): (r: seq<Post>)
    ensures |r| == |s|
    ensures forall i :: 0 <= i < |s| ==> r[i].id == s[i].id
    ensures forall i :: 0 <= i < |s| && s[i].id == postId ==>
              r[i].isLiked == liked && r[i].likeCount == count
              && r[i].(isLiked := s[i].isLiked, likeCount := s[i].likeCount) == s[i]
    ensures forall i :: 0 <= i < |s| && s[i].id != postId ==> r[i] == s[i]
  {
    if s == [] then [] else [SetLike(s[0], postId, liked, count)] + MapLike(s[1..], postId, liked, count)
  }

  /** After a like remap, every copy of the post in the view shows the new flag and count. */
  lemma MapLikeAgrees(s: seq<Post>, postId: PostId, liked: bool, count: int)
    ensures forall p :: p in MapLike(s, postId, liked, count) && p.id == postId ==>
              p.isLiked == liked && p.likeCount == count
  {
    var r := MapLike(s, postId, liked, count);
    forall p | p in r && p.id == postId ensures p.isLiked == liked && p.likeCount == count {
      var i :| 0 <= i < |r| && r[i] == p;
      assert s[i].id == postId;
    }
  }

  /** The `updatePostSave` update of one post. */
  function SetSaved(p: Post, postId: PostId, saved: bool): (r: Post)
    ensures r.id == p.id
    ensures p.id == postId ==> r.isSaved == saved && r.(isSaved := p.isSaved) == p
    ensures p.id != postId ==> r == p
  {
    if p.id == postId then p.(isSaved := saved) else p
  }

  /**
   * `prev.map(updateFn)` for a save: every post with the id now carries the new
   * saved flag, and nothing else about the view changes.
   */
  function MapSave(s: seq<Post>, postId: PostId, saved: bool): (r: seq<Post>)
    ensures |r| == |s|
    ensures forall i :: 0 <= i < |s| ==> r[i].id == s[i].id
    ensures forall i :: 0 <= i < |s| && s[i].id == postId ==>
              r[i].isSaved == saved && r[i].(isSaved := s[i].isSaved) == s[i]
    ensures forall i :: 0 <= i < |s| && s[i].id != postId ==> r[i] == s[i]
  {
    if s == [] then [] else [SetSaved(s[0], postId, saved)] + MapSave(s[1..], postId, saved)
  }

  /** After a save remap, every copy of the post in the view shows the new saved flag. */
  lemma MapSaveAgrees(s: seq<Post>, postId: PostId, saved: bool)
    ensures forall p :: p in MapSave(s, postId, saved) && p.id == postId ==> p.isSaved == saved
  {
    var r := MapSave(s, postId, saved);
    forall p | p in r && p.id == postId ensures p.isSaved == saved {
      var i :| 0 <= i < |r| && r[i] == p;
      assert s[i].id == postId;
    }
  }

  /**
   * `prev.filter(p => p.id !== postId)`: no post with the id is left, and every
   * other post keeps its number of occurrences.
   */
  function Without(s: seq<Post>, postId: PostId): (r: seq<Post>)
    ensures |r| <= |s|
    ensures forall i :: 0 <= i < |r| ==> r[i].id != postId
    ensures forall p: Post :: p.id != postId ==> multiset(r)[p] == multiset(s)[p]
  {
    if s == [] then []
    else
      assert s == [s[0]] + s[1..];
      if s[0].id == postId then Without(s[1..], postId)
      else [s[0]] + Without(s[1..], postId)
  }

  /** Filtering keeps the relative order: it distributes over concatenation. */
  lemma {:induction false} WithoutConcat(s: seq<Post>, t: seq<Post>, postId: PostId)
    ensures Without(s + t, postId) == Without(s, postId) + Without(t, postId)
  {
    if s == [] {
      assert s + t == t;
    } else {
      assert (s + t)[1..] == s[1..] + t;
      WithoutConcat(s[1..], t, postId);
    }
  }

  /** A view with no post of that id is left as it is. */
  lemma {:induction false} WithoutAbsent(s: seq<Post>, postId: PostId)
    requires !HasId(s, postId)
    ensures Without(s, postId) == s
  {
    if s != [] {
      WithoutAbsent(s[1..], postId);
    }
  }

  /** Removing a post twice is the same as removing it once. */
  lemma WithoutIdempotent(s: seq<Post>, postId: PostId)
    ensures Without(Without(s, postId), postId) == Without(s, postId)
  {
    WithoutAbsent(Without(s, postId), postId);
  }

  /**
   * The saved view after `updatePostSave`: saving with a post prepends it
   * (marked saved) unless a post with the id is already there; unsaving drops
   * every post with the id; saving without a post leaves the view alone.
   */
  function SavedAfterSave(prev: seq<Post>, postId: PostId, saved: bool, post: Option<Post>): (r: seq<Post>)
    ensures saved && post.Some? && !HasId(prev, postId) ==> r == [post.value.(isSaved := true)] + prev
    ensures saved && (post.None? || HasId(prev, postId)) ==> r == prev
    ensures !saved ==> !HasId(r, postId) && r == Without(prev, postId)
  {
    if saved && post.Some? then
      if HasId(prev, postId) then prev else [post.value.(isSaved := true)] + prev
    else if !saved then Without(prev, postId)
    else prev
  }

  /**
   * Saving the same post twice inserts it once, so long as the post handed in
   * carries the id being saved (the duplicate check looks at `postId`, the
   * inserted entry carries `post.id`).
   */
  lemma SavedAfterSaveIdempotent(prev: seq<Post>, postId: PostId, saved: bool, post: Option<Post>)
    requires post.Some? ==> post.value.id == postId
    ensures SavedAfterSave(SavedAfterSave(prev, postId, saved, post), postId, saved, post)
         == SavedAfterSave(prev, postId, saved, post)
  {
    var once := SavedAfterSave(prev, postId, saved, post);
    if saved && post.Some? && !HasId(prev, postId) {
      assert once[0].id == postId;
      assert HasId(once, postId);
    } else if !saved {
      WithoutIdempotent(prev, postId);
    }
  }

  /** The cooldown test of `loadAllPosts`: `!force && lastFetchedAt && now - lastFetchedAt < 60000`. */
  function SkipsFetch(force: bool, lastFetchedAt: Option<int>, now: int): (skip: bool)
    ensures force ==> !skip
    ensures lastFetchedAt == None || lastFetchedAt == Some(0) ==> !skip
    ensures lastFetchedAt.Some? && now - lastFetchedAt.value >= MinTimeBetweenFetches ==> !skip
  {
    && !force
    && lastFetchedAt.Some? && lastFetchedAt.value != 0
    && now - lastFetchedAt.value < MinTimeBetweenFetches
  }

  /**
   * After a fetch stamped at `fetchedAt`, an unforced load less than a minute
   * later skips the fetch, and a forced load never does.
   */
  lemma SecondLoadWithinCooldownSkips(fetchedAt: int, now: int)
    requires fetchedAt != 0 && now - fetchedAt < MinTimeBetweenFetches
    ensures SkipsFetch(false, Some(fetchedAt), now)
    ensures !SkipsFetch(true, Some(fetchedAt), now)
  {
  }

  // ---------------------------------------------------------------------------
  // The provider's state
  // ---------------------------------------------------------------------------

  class PostsStore {
    var allPosts: seq<Post>
    var userPosts: seq<Post>
    var savedPosts: seq<Post>
    var loading: bool
    var lastFetchedAt: Option<int>

    constructor ()
      ensures allPosts == [] && userPosts == [] && savedPosts == []
      ensures !loading && lastFetchedAt == None
    {
      allPosts, userPosts, savedPosts := [], [], [];
      loading := false;
      lastFetchedAt := None;
    }

    /**
     * `loadAllPosts(userId, force)`: `now` is the clock at the call, `fetch` the
     * outcome of the feed fetch, `fetchedAt` the clock when it resolved.
     * Returns whether the fetch was issued.
     */
    method LoadAllPosts(force: bool, now: int, fetch: Outcome<seq<Post>>, fetchedAt: int) returns (fetched: bool)
      modifies this
      ensures fetched <==> !SkipsFetch(force, old(lastFetchedAt), now)
      ensures !fetched ==> unchanged(this)
      ensures fetched ==> !loading
      ensures fetched && fetch.Resolved? ==> allPosts == fetch.value && lastFetchedAt == Some(fetchedAt)
      ensures fetch.Threw? ==> allPosts == old(allPosts) && lastFetchedAt == old(lastFetchedAt)
      ensures userPosts == old(userPosts) && savedPosts == old(savedPosts)
    {
      if SkipsFetch(force, lastFetchedAt, now) {
        return false;
      }
      loading := true;
      match fetch {
        case Resolved(posts) =>
          allPosts := posts;
          lastFetchedAt := Some(fetchedAt);
        case Threw =>
      }
      loading := false;
      return true;
    }

    /** `loadUserPosts`: the user view is replaced on success and kept on a throw. */
    method LoadUserPosts(fetch: Outcome<seq<Post>>)
      modifies this
      ensures fetch.Resolved? ==> userPosts == fetch.value
      ensures fetch.Threw? ==> userPosts == old(userPosts)
      ensures !loading
      ensures allPosts == old(allPosts) && savedPosts == old(savedPosts) && lastFetchedAt == old(lastFetchedAt)
    {
      loading := true;
      match fetch {
        case Resolved(posts) => userPosts := posts;
        case Threw =>
      }
      loading := false;
    }

    /** `loadSavedPosts`: the saved view is replaced on success and emptied on a throw. */
    method LoadSavedPosts(fetch: Outcome<seq<Post>>)
      modifies this
      ensures fetch.Resolved? ==> savedPosts == fetch.value
      ensures fetch.Threw? ==> savedPosts == []
      ensures !loading
      ensures allPosts == old(allPosts) && userPosts == old(userPosts) && lastFetchedAt == old(lastFetchedAt)
    {
      loading := true;
      match fetch {
        case Resolved(posts) => savedPosts := posts;
        case Threw => savedPosts := [];
      }
      loading := false;
    }

    /**
     * The effect run when the auth state changes: once auth has settled, every
     * view is cleared, the fetch stamp is dropped and a forced feed load follows.
     */
    method OnAuthChange(authLoading: bool, now: int, fetch: Outcome<seq<Post>>, fetchedAt: int)
      modifies this
      ensures authLoading ==> unchanged(this)
      ensures !authLoading ==> userPosts == [] && savedPosts == [] && !loading
      ensures !authLoading && fetch.Resolved? ==> allPosts == fetch.value && lastFetchedAt == Some(fetchedAt)
      ensures !authLoading && fetch.Threw? ==> allPosts == [] && lastFetchedAt == None
    {
      if !authLoading {
        allPosts, userPosts, savedPosts := [], [], [];
        lastFetchedAt := None;
        loading := true;
        var fetched := LoadAllPosts(true, now, fetch, fetchedAt);
        loading := false;
      }
    }

    /** `addPost`: the post goes in front of the feed and the user view, without a duplicate check. */
    method AddPost(post: Post)
      modifies this
      ensures allPosts == [post] + old(allPosts)
      ensures userPosts == [post] + old(userPosts)
      ensures savedPosts == old(savedPosts) && loading == old(loading) && lastFetchedAt == old(lastFetchedAt)
    {
      allPosts := [post] + allPosts;
      userPosts := [post] + userPosts;
    }

    /**
     * `updatePostLike`: the three views are remapped, so that afterwards every
     * copy of the post in any view shows the same like flag and count.
     */
    method UpdatePostLike(postId: PostId, liked: bool, count: int)
      modifies this
      ensures allPosts == MapLike(old(allPosts), postId, liked, count)
      ensures userPosts == MapLike(old(userPosts), postId, liked, count)
      ensures savedPosts == MapLike(old(savedPosts), postId, liked, count)
      ensures forall p :: p in allPosts && p.id == postId ==> p.isLiked == liked && p.likeCount == count
      ensures forall p :: p in userPosts && p.id == postId ==> p.isLiked == liked && p.likeCount == count
      ensures forall p :: p in savedPosts && p.id == postId ==> p.isLiked == liked && p.likeCount == count
      ensures loading == old(loading) && lastFetchedAt == old(lastFetchedAt)
    {
      MapLikeAgrees(allPosts, postId, liked, count);
      MapLikeAgrees(userPosts, postId, liked, count);
      MapLikeAgrees(savedPosts, postId, liked, count);
      allPosts := MapLike(allPosts, postId, liked, count);
      userPosts := MapLike(userPosts, postId, liked, count);
      savedPosts := MapLike(savedPosts, postId, liked, count);
    }

    /**
     * `updatePostSave`: the feed and user views are remapped with the new saved
     * flag; the saved view gains or loses the post but its remaining entries
     * are not remapped.
     */
    method UpdatePostSave(postId: PostId, saved: bool, post: Option<Post>)
      modifies this
      ensures allPosts == MapSave(old(allPosts), postId, saved)
      ensures userPosts == MapSave(old(userPosts), postId, saved)
      ensures savedPosts == SavedAfterSave(old(savedPosts), postId, saved, post)
      ensures forall p :: p in allPosts && p.id == postId ==> p.isSaved == saved
      ensures forall p :: p in userPosts && p.id == postId ==> p.isSaved == saved
      ensures loading == old(loading) && lastFetchedAt == old(lastFetchedAt)
    {
      MapSaveAgrees(allPosts, postId, saved);
      MapSaveAgrees(userPosts, postId, saved);
      allPosts := MapSave(allPosts, postId, saved);
      userPosts := MapSave(userPosts, postId, saved);
      savedPosts := SavedAfterSave(savedPosts, postId, saved, post);
    }

    /** `removePost`: no view keeps a post with the id; the others keep their order. */
    method RemovePost(postId: PostId)
      modifies this
      ensures allPosts == Without(old(allPosts), postId)
      ensures userPosts == Without(old(userPosts), postId)
      ensures savedPosts == Without(old(savedPosts), postId)
      ensures !HasId(allPosts, postId) && !HasId(userPosts, postId) && !HasId(savedPosts, postId)
      ensures loading == old(loading) && lastFetchedAt == old(lastFetchedAt)
    {
      allPosts := Without(allPosts, postId);
      userPosts := Without(userPosts, postId);
      savedPosts := Without(savedPosts, postId);
    }
  }

  /** Removing a post twice leaves the store as removing it once did. */
  method RemovePostTwice(store: PostsStore, postId: PostId)
    modifies store
    ensures store.allPosts == Without(old(store.allPosts), postId)
    ensures store.userPosts == Without(old(store.userPosts), postId)
    ensures store.savedPosts == Without(old(store.savedPosts), postId)
  {
    store.RemovePost(postId);
    store.RemovePost(postId);
    WithoutIdempotent(old(store.allPosts), postId);
    WithoutIdempotent(old(store.userPosts), postId);
    WithoutIdempotent(old(store.savedPosts), postId);
  }

  /**
   * Two unforced feed loads less than a minute apart: the first fetches and
   * stamps the store, the second is skipped, so the backend is asked once.
   */
  method TwoLoadsWithinCooldown(store: PostsStore, posts: seq<Post>, now: int, fetchedAt: int,
                                later: int, second: Outcome<seq<Post>>, secondFetchedAt: int)
    returns (firstFetched: bool, secondFetched: bool)
    requires store.lastFetchedAt == None
    requires fetchedAt != 0 && later - fetchedAt < MinTimeBetweenFetches
    modifies store
    ensures firstFetched && !secondFetched
    ensures store.allPosts == posts && store.lastFetchedAt == Some(fetchedAt)
  {
    firstFetched := store.LoadAllPosts(false, now, Resolved(posts), fetchedAt);
    secondFetched := store.LoadAllPosts(false, later, second, secondFetchedAt);
  }

  /**
   * A feed query that fails does not reach the throw branch: the fetcher
   * resolves with no posts, so the feed is emptied and stamped, and an
   * unforced reload within the minute is skipped.
   */
  method FailedFeedQueryBlocksReload(store: PostsStore, now: int, fetchedAt: int,
                                     later: int, second: Outcome<seq<Post>>, secondFetchedAt: int)
    returns (firstFetched: bool, secondFetched: bool)
    requires store.lastFetchedAt == None
    requires fetchedAt != 0 && later - fetchedAt < MinTimeBetweenFetches
    modifies store
    ensures firstFetched && !secondFetched
    ensures store.allPosts == [] && store.lastFetchedAt == Some(fetchedAt)
  {
    firstFetched := store.LoadAllPosts(false, now, Resolved(PostService.FetchPosts(QueryError)), fetchedAt);
    secondFetched := store.LoadAllPosts(false, later, second, secondFetchedAt);
  }

  /** A user-posts query that fails resolves with no posts, so the user view is emptied. */
  method FailedUserQueryEmptiesView(store: PostsStore)
    modifies store
    ensures store.userPosts == []
    ensures store.allPosts == old(store.allPosts) && store.savedPosts == old(store.savedPosts)
  {
    store.LoadUserPosts(Resolved(PostService.FetchPosts(QueryError)));
  }
}
