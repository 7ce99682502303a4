/**
 The earlier feed screen (src/MainContent.jsx): a loader that treats every
 falsy `createdAt` as missing, and a one-way like button, on top of the
 shared handlers of module Feed.
 */
module LegacyFeed {
  import opened Wrappers
  import Storage
  import opened Feed
  import PortalFeed

  /** The two sample announcements of this version, stamped from the module-load clock; they carry no image. */
  function MockPosts(loadedAt: int): seq<Post> {
    [ Post(1, "The Supreme Student Council",
           "JUST IN: Benjamin Remetilla... endorsed party for UDM SSG Elections 2025.",
           2, [Comment("Alice", "Nice!"), Comment("Bob", "Wow")],
           None, Millis(loadedAt - 2 * 24 * 60 * 60 * 1000)),
      Post(2, "Student Organization",
           "Exciting news: New workshop on leadership skills this Friday!",
           5, [Comment("Charlie", "Great!"), Comment("Dave", "Count me in")],
           None, Millis(loadedAt - 39 * 60 * 1000)) ]
  }

  /** `createdAt` is falsy when absent, `null` or 0. */
  predicate FalsyStamp(t: Stamp) {
    t == Missing || t == Null || t == Millis(0)
  }

  /** `createdAt || Date.now()`, with `now` the reading taken for this post. */
  function FillStamp(p: Post, now: int): Post {
    if FalsyStamp(p.createdAt) then p.(createdAt := Millis(now)) else p
  }

  /**
   The posts initialiser of this version: a stored post keeps a non-zero
   millisecond stamp and has an absent, `null` or zero stamp replaced by the
   clock reading `clock(i)` taken while mapping post `i`; an absent, empty or
   unparsable slot yields the sample posts.
   */
  function LoadPosts(saved: Option<Storage.Stored<Post>>, loadedAt: int, clock: nat -> int): (r: seq<Post>)
    ensures Storage.Truthy(saved) && saved.value.Serialized? ==>
              var items := saved.value.items;
              && |r| == |items|
              && forall i :: 0 <= i < |items| ==>
                   && r[i].(createdAt := Missing) == items[i].(createdAt := Missing)
                   && (!FalsyStamp(items[i].createdAt) ==> r[i].createdAt == items[i].createdAt)
                   && (FalsyStamp(items[i].createdAt) ==> r[i].createdAt == Millis(clock(i)))
    ensures !(Storage.Truthy(saved) && saved.value.Serialized?) ==> r == MockPosts(loadedAt)
  {
    if Storage.Truthy(saved) && saved.value.Serialized? then
      var items := saved.value.items;
      var r := seq(|items|, i requires 0 <= i < |items| => FillStamp(items[i], clock(i)));
      assert forall i :: 0 <= i < |items| ==> r[i] == FillStamp(items[i], clock(i));
      r
    else
      MockPosts(loadedAt)
  }

  /**
   Persist-then-reload is stable here too, provided the module loaded more
   than two days after the epoch and no fill reading is the epoch itself:
   otherwise a sample stamp or a filled stamp could be the falsy 0 and be
   replaced again.
   */
  lemma ReloadIsStable(saved: Option<Storage.Stored<Post>>, loadedAt0: int, clock0: nat -> int,
                       loadedAt1: int, clock1: nat -> int)
    requires loadedAt0 > 2 * 24 * 60 * 60 * 1000
    requires forall i :: clock0(i) != 0
    ensures var loaded := LoadPosts(saved, loadedAt0, clock0);
            LoadPosts(Some(Storage.Serialized(loaded)), loadedAt1, clock1) == loaded
  {
    var loaded := LoadPosts(saved, loadedAt0, clock0);
    if !(Storage.Truthy(saved) && saved.value.Serialized?) {
      assert loaded == MockPosts(loadedAt0);
      assert !FalsyStamp(loaded[0].createdAt) by {
        assert loaded[0].createdAt == Millis(loadedAt0 - 172800000);
      }
      assert !FalsyStamp(loaded[1].createdAt) by {
        assert loaded[1].createdAt == Millis(loadedAt0 - 2340000);
      }
    }
    assert forall i :: 0 <= i < |loaded| ==> !FalsyStamp(loaded[i].createdAt);
    var again := LoadPosts(Some(Storage.Serialized(loaded)), loadedAt1, clock1);
    forall i | 0 <= i < |loaded| ensures again[i] == loaded[i] {
      assert again[i] == FillStamp(loaded[i], clock1(i));
    }
  }

  /**
   The two loaders disagree on a stored stamp of 0: the portal's keeps it,
   this one replaces it by the clock reading.
   */
  lemma LoadersDisagreeOnZeroStamp(p: Post, loadedAt: int, clock: nat -> int)
    requires p.createdAt == Millis(0) && clock(0) != 0
    ensures PortalFeed.LoadPosts(Some(Storage.Serialized([p])), loadedAt, clock)[0].createdAt == Millis(0)
    ensures LoadPosts(Some(Storage.Serialized([p])), loadedAt, clock)[0].createdAt == Millis(clock(0))
  {
  }

  /**
   `handleLike`: a post already liked stays as it is; otherwise every post
   with that id gains one like and the id joins the liked set.
   */
  function Like(s: FeedState, postId: int): (r: FeedState)
    ensures postId in s.liked ==> r == s
    ensures postId !in s.liked ==>
              && r.liked == s.liked + {postId}
              && |r.posts| == |s.posts|
              && (forall i :: 0 <= i < |s.posts| && s.posts[i].id != postId ==> r.posts[i] == s.posts[i])
              && (forall i :: 0 <= i < |s.posts| && s.posts[i].id == postId ==>
                    r.posts[i] == s.posts[i].(likes := s.posts[i].likes + 1))
              && r == s.(posts := r.posts, liked := r.liked)
  {
    if postId in s.liked then s
    else s.(posts := PortalFeed.AdjustLikes(s.posts, postId, true), liked := s.liked + {postId})
  }

  /** Liking twice is liking once. */
  lemma LikeIdempotent(s: FeedState, postId: int)
    ensures Like(Like(s, postId), postId) == Like(s, postId)
  {
  }

  /** Likes never go down in this version, whatever is clicked. */
  lemma {:induction false} LikesNeverDecrease(s: FeedState, clicks: seq<int>)
    ensures var r := LikeAll(s, clicks);
            |r.posts| == |s.posts| &&
            forall i :: 0 <= i < |s.posts| ==> r.posts[i].id == s.posts[i].id && r.posts[i].likes >= s.posts[i].likes
    decreases |clicks|
  {
    if clicks != [] {
      LikesNeverDecrease(Like(s, clicks[0]), clicks[1..]);
    }
  }

  /** The state after clicking Like on each id of `clicks` in turn. */
  function LikeAll(s: FeedState, clicks: seq<int>): FeedState
    decreases |clicks|
  {
    if clicks == [] then s else LikeAll(Like(s, clicks[0]), clicks[1..])
  }
}
