/**
 The feed screen the portal mounts (src/MainContent/MainContent.jsx): its
 post loader, the toggling like button and post deletion, on top of the
 shared handlers of module Feed.
 */
module PortalFeed {
  import opened Wrappers
  import Storage
  import opened Feed

  /** The two sample announcements shown when nothing usable is stored; `loadedAt` is the clock when the module loaded. */
  function MockPosts(loadedAt: int): seq<Post> {
    [ Post(1, "The Supreme Student Council",
           "JUST IN: Benjamin Remetilla... endorsed party for UDM SSG Elections 2025.",
           2, [Comment("Alice", "Nice!"), Comment("Bob", "Wow")],
           Some("/assets/ssgpost.png"), Millis(loadedAt - 2 * 24 * 60 * 60 * 1000)),
      Post(2, "Student Organization",
           "Exciting news: New workshop on leadership skills this Friday!",
           5, [Comment("Charlie", "Great!"), Comment("Dave", "Count me in")],
           Some("/assets/minkpost.png"), Millis(loadedAt - 39 * 60 * 1000)) ]
  }

  /** `createdAt !== undefined ? createdAt : Date.now()`: only an absent stamp is replaced. */
  function FillStamp(p: Post, now: int): Post {
    if p.createdAt == Missing then p.(createdAt := Millis(now)) else p
  }

  /**
   The posts initialiser: stored posts keep every field and every present
   `createdAt` (0 and `null` included); an absent one becomes the clock
   reading `clock(i)` taken while mapping post `i`. An absent, empty or
   unparsable slot yields the sample posts, stamped from the module-load clock.
   */
  function LoadPosts(saved: Option<Storage.Stored<Post>>, loadedAt: int, clock: nat -> int): (r: seq<Post>)
    ensures Storage.Truthy(saved) && saved.value.Serialized? ==>
              var items := saved.value.items;
              && |r| == |items|
              && forall i :: 0 <= i < |items| ==>
                   && r[i].(createdAt := Missing) == items[i].(createdAt := Missing)
                   && (items[i].createdAt != Missing ==> r[i].createdAt == items[i].createdAt)
                   && (items[i].createdAt == Missing ==> r[i].createdAt == Millis(clock(i)))
    ensures !(Storage.Truthy(saved) && saved.value.Serialized?) ==> r == MockPosts(loadedAt)
  {
    if Storage.Truthy(saved) && saved.value.Serialized? then
      var items := saved.value.items;
      var r := seq(|items|, i requires 0 <= i < |items| => FillStamp(items[i], clock(i)));
      assert forall i :: 0 <= i < |items| ==> r[i] == FillStamp(items[i], clock(i));
      r
    else
      MockPosts(loadedAt)
  }

  /** After loading, no post lacks a stamp. */
  predicate Stamped(posts: seq<Post>) {
    forall i :: 0 <= i < |posts| ==> posts[i].createdAt != Missing
  }

  /**
   Persisting the loaded posts and loading them again, with any later clock
   readings, gives back exactly the same posts.
   */
  lemma ReloadIsStable(saved: Option<Storage.Stored<Post>>, loadedAt0: int, clock0: nat -> int,
                       loadedAt1: int, clock1: nat -> int)
    ensures var loaded := LoadPosts(saved, loadedAt0, clock0);
            LoadPosts(Some(Storage.Serialized(loaded)), loadedAt1, clock1) == loaded
  {
    var loaded := LoadPosts(saved, loadedAt0, clock0);
    if Storage.Truthy(saved) && saved.value.Serialized? {
      assert Stamped(loaded);
    } else {
      assert loaded == MockPosts(loadedAt0);
      assert Stamped(loaded);
    }
    StampedReloads(loaded, loadedAt1, clock1);
  }

  /** Loading stored posts that all carry a stamp returns them unchanged. */
  lemma StampedReloads(posts: seq<Post>, loadedAt: int, clock: nat -> int)
    requires Stamped(posts)
    ensures LoadPosts(Some(Storage.Serialized(posts)), loadedAt, clock) == posts
  {
    var again := LoadPosts(Some(Storage.Serialized(posts)), loadedAt, clock);
    forall i | 0 <= i < |posts| ensures again[i] == posts[i] {
      assert again[i].(createdAt := Missing) == posts[i].(createdAt := Missing);
    }
  }

  /** Applies the like or unlike update to every post whose id is `postId`. */
  function AdjustLikes(posts: seq<Post>, postId: int, like: bool): (r: seq<Post>)
    ensures |r| == |posts|
    ensures forall i :: 0 <= i < |posts| ==> r[i].(likes := 0) == posts[i].(likes := 0)
    ensures forall i :: 0 <= i < |posts| && posts[i].id != postId ==> r[i] == posts[i]
    ensures forall i :: 0 <= i < |posts| && posts[i].id == postId && like ==>
              r[i].likes == posts[i].likes + 1
    ensures forall i :: 0 <= i < |posts| && posts[i].id == postId && !like ==>
              r[i].likes == if posts[i].likes >= 1 then posts[i].likes - 1 else 0
  {
    seq(|posts|, i requires 0 <= i < |posts| =>
      if posts[i].id != postId then posts[i]
      else if like then posts[i].(likes := posts[i].likes + 1)
      else posts[i].(likes := if posts[i].likes - 1 > 0 then posts[i].likes - 1 else 0))
  }

  /**
   `handleToggleLike`: flips the id's membership in the liked set; liking
   adds one to that post's likes, unliking lowers them to `max(likes-1, 0)`;
   other posts and all other state are untouched.
   */
  function ToggleLike(s: FeedState, postId: int): (r: FeedState)
    ensures postId in r.liked <==> postId !in s.liked
    ensures r.liked - {postId} == s.liked - {postId}
    ensures r.posts == AdjustLikes(s.posts, postId, postId !in s.liked)
    ensures r == s.(posts := r.posts, liked := r.liked)
  {
    if postId in s.liked then
      s.(liked := s.liked - {postId}, posts := AdjustLikes(s.posts, postId, false))
    else
      s.(liked := s.liked + {postId}, posts := AdjustLikes(s.posts, postId, true))
  }

  /** All posts carrying `postId` have at least `floor` likes. */
  predicate LikesAtLeast(posts: seq<Post>, postId: int, floor: int) {
    forall i :: 0 <= i < |posts| && posts[i].id == postId ==> posts[i].likes >= floor
  }

  /** Like then unlike restores the state, provided the post's count was not negative. */
  lemma LikeThenUnlike(s: FeedState, postId: int)
    requires postId !in s.liked && LikesAtLeast(s.posts, postId, 0)
    ensures ToggleLike(ToggleLike(s, postId), postId) == s
  {
    var r := ToggleLike(ToggleLike(s, postId), postId);
    assert r.liked == s.liked;
    assert forall i :: 0 <= i < |s.posts| ==> r.posts[i] == s.posts[i];
  }

  /** Unlike then like restores the state, provided the post had at least one like. */
  lemma UnlikeThenLike(s: FeedState, postId: int)
    requires postId in s.liked && LikesAtLeast(s.posts, postId, 1)
    ensures ToggleLike(ToggleLike(s, postId), postId) == s
  {
    var r := ToggleLike(ToggleLike(s, postId), postId);
    assert r.liked == s.liked;
    assert forall i :: 0 <= i < |s.posts| ==> r.posts[i] == s.posts[i];
  }

  /** Unliking a post with no likes leaves its count at 0 rather than -1. */
  lemma UnlikeClampsAtZero(s: FeedState, postId: int, i: int)
    requires postId in s.liked && 0 <= i < |s.posts| && s.posts[i].id == postId && s.posts[i].likes == 0
    ensures ToggleLike(s, postId).posts[i].likes == 0
  {
  }

  /** The posts whose id is not `postId`, in their original order. */
  function Without(posts: seq<Post>, postId: int): (r: seq<Post>)
    ensures |r| <= |posts|
    ensures forall p :: p in r <==> p in posts && p.id != postId
  {
    if posts == [] then []
    else if posts[0].id == postId then Without(posts[1..], postId)
    else [posts[0]] + Without(posts[1..], postId)
  }

  /** Removal commutes with concatenation, so survivors keep their relative order. */
  lemma {:induction false} WithoutAppend(a: seq<Post>, b: seq<Post>, postId: int)
    ensures Without(a + b, postId) == Without(a, postId) + Without(b, postId)
    decreases |a|
  {
    if a != [] {
      var ab := a + b;
      assert ab[0] == a[0] && ab[1..] == a[1..] + b;
      WithoutAppend(a[1..], b, postId);
      if a[0].id == postId {
        assert Without(ab, postId) == Without(a[1..] + b, postId);
        assert Without(a, postId) == Without(a[1..], postId);
      } else {
        assert Without(a, postId) == [a[0]] + Without(a[1..], postId);
        assert Without(ab, postId) == [a[0]] + Without(a[1..] + b, postId);
        assert [a[0]] + (Without(a[1..], postId) + Without(b, postId))
            == ([a[0]] + Without(a[1..], postId)) + Without(b, postId);
      }
    } else {
      assert a + b == b;
    }
  }

  /** Removing an id that no post carries changes nothing. */
  lemma {:induction false} WithoutAbsent(posts: seq<Post>, postId: int)
    requires forall i :: 0 <= i < |posts| ==> posts[i].id != postId
    ensures Without(posts, postId) == posts
    decreases |posts|
  {
    if posts != [] {
      WithoutAbsent(posts[1..], postId);
    }
  }

  /**
   `handleDeletePost`: unless the confirmation is declined, removes exactly
   the posts with that id (the rest keep their order) and forgets the id in
   the liked set and the comment inputs.
   */
  function DeletePost(s: FeedState, postId: int, confirmed: bool): (r: FeedState)
    ensures !confirmed ==> r == s
    ensures confirmed ==>
              && r.posts == Without(s.posts, postId)
              && r.liked == s.liked - {postId}
              && r.commentInputs == s.commentInputs - {postId}
              && r == s.(posts := r.posts, liked := r.liked, commentInputs := r.commentInputs)
  {
    if !confirmed then s
    else
      s.(posts := Without(s.posts, postId), liked := s.liked - {postId},
         commentInputs := s.commentInputs - {postId})
  }

  /** Deleting twice is deleting once. */
  lemma DeleteIdempotent(s: FeedState, postId: int)
    ensures DeletePost(DeletePost(s, postId, true), postId, true) == DeletePost(s, postId, true)
  {
    var r := DeletePost(s, postId, true);
    forall i | 0 <= i < |r.posts| ensures r.posts[i].id != postId {
      assert r.posts[i] in r.posts;
    }
    WithoutAbsent(r.posts, postId);
  }
}
