/**
 The announcement feed shared by both versions of the main content screen:
 the post and comment records, the two-step posting gate (compose, then
 confirm with a passkey), per-post comment inputs and the liked-id set.
 Handlers here behave the same in src/MainContent/MainContent.jsx and
 src/MainContent.jsx when events are handled one at a time; the
 version-specific handlers live in PortalFeed and LegacyFeed.
 */
module Feed {
  import opened Wrappers
  import Strings
  import Storage

  /** The static passkey that confirms a new post; a confirmation step, not a security control. */
  const Passkey: string := "admin123"

  /** The simulated name of the signed-in user. */
  const CurrentUser: string := "You"

  datatype Comment = Comment(user: string, text: string)

  /** A stored `createdAt`: absent from the JSON object, `null`, or a millisecond count. */
  datatype Stamp = Missing | Null | Millis(ms: int)

  datatype Post = Post(
    id: int,
    user: string,
    content: string,
    likes: int,
    comments: seq<Comment>,
    image: Option<string>,   // a data URL or asset path; `None` is `null`/absent
    createdAt: Stamp)

  /** The component state of the feed screen. */
  datatype FeedState = FeedState(
    posts: seq<Post>,
    liked: set<int>,
    addPostOpen: bool,
    authOpen: bool,
    draft: string,
    authKey: string,
    image: Option<string>,
    commentInputs: map<int, string>)

  /** The state right after mounting, given the loaded posts and liked ids. */
  function Initial(posts: seq<Post>, liked: set<int>): FeedState {
    FeedState(posts, liked, false, false, "", "", None, map[])
  }

  /**
   The liked-id initialiser `new Set(JSON.parse(saved))` inside a `try`: an
   absent or empty slot, text that fails to parse, and a non-array value
   (`new Set(null)` is empty, other non-iterables throw) give the empty set;
   otherwise the set of the stored ids.
   */
  function LoadLiked(saved: Option<Storage.Stored<int>>): (r: set<int>)
    ensures Storage.Truthy(saved) && saved.value.Serialized? ==>
              forall id :: id in r <==> id in saved.value.items
    ensures !(Storage.Truthy(saved) && saved.value.Serialized?) ==> r == {}
  {
    match Storage.Read(saved)
    case Some(ids) => set id | id in ids
    case None => {}
  }

  /**
   Persist-then-reload of the liked ids: whatever order `Array.from` writes
   the set's elements in, loading that array gives back the same set.
   */
  lemma LikedReloadIsStable(ids: seq<int>, liked: set<int>)
    requires forall id :: id in liked <==> id in ids
    ensures LoadLiked(Some(Storage.Serialized(ids))) == liked
  {
    var r := LoadLiked(Some(Storage.Serialized(ids)));
    assert forall id :: id in r <==> id in liked;
  }

  // ---- the posting gate ----

  function OpenAddPost(s: FeedState): FeedState { s.(addPostOpen := true) }
  function EditDraft(s: FeedState, text: string): FeedState { s.(draft := text) }
  function PickImage(s: FeedState, dataUrl: string): FeedState { s.(image := Some(dataUrl)) }
  function EditAuthKey(s: FeedState, key: string): FeedState { s.(authKey := key) }

  /** The compose dialog's Submit button is enabled when the trimmed draft is non-empty or an image is chosen. */
  predicate CanSubmitDraft(s: FeedState) {
    Strings.Trim(s.draft) != "" || s.image.Some?
  }

  /** Submit is enabled exactly when the draft is not all white space or an image is chosen. */
  lemma SubmitEnabledIff(s: FeedState)
    ensures CanSubmitDraft(s) <==> !Strings.AllSpace(s.draft) || s.image.Some?
  {
    Strings.TrimEmptyIff(s.draft);
  }

  /** The passkey dialog's Confirm button is enabled when the trimmed key is non-empty. */
  predicate CanConfirm(s: FeedState) {
    Strings.Trim(s.authKey) != ""
  }

  /** Confirm is enabled exactly when the typed key is not all white space, so the right key always enables it. */
  lemma ConfirmEnabledIff(s: FeedState)
    ensures CanConfirm(s) <==> !Strings.AllSpace(s.authKey)
    ensures s.authKey == Passkey ==> CanConfirm(s)
  {
    Strings.TrimEmptyIff(s.authKey);
    assert !Strings.IsSpace(Passkey[0]);
  }

  /** `handlePostSubmit`: the compose dialog hands over to the passkey dialog, carrying the draft and image along. */
  function SubmitDraft(s: FeedState): (r: FeedState)
    ensures !r.addPostOpen && r.authOpen
    ensures r.(addPostOpen := s.addPostOpen, authOpen := s.authOpen) == s
  {
    s.(addPostOpen := false, authOpen := true)
  }

  /** Cancel in the compose dialog: the draft text and image are discarded, so a reopened dialog starts with Submit disabled. */
  function CancelAddPost(s: FeedState): (r: FeedState)
    ensures !r.addPostOpen && r.draft == "" && r.image == None && !CanSubmitDraft(r)
    ensures r.posts == s.posts && r.authOpen == s.authOpen && r.authKey == s.authKey
  {
    s.(addPostOpen := false, draft := "", image := None)
  }

  /** Closing the compose dialog from its overlay or Escape: the draft and image stay for the next opening. */
  function DismissAddPost(s: FeedState): (r: FeedState)
    ensures !r.addPostOpen && r.draft == s.draft && r.image == s.image
    ensures CanSubmitDraft(OpenAddPost(r)) == CanSubmitDraft(s)
  {
    s.(addPostOpen := false)
  }

  /** Cancel in the passkey dialog: the typed key is cleared, so a reopened dialog starts with Confirm disabled. */
  function CancelAuth(s: FeedState): (r: FeedState)
    ensures !r.authOpen && r.authKey == "" && !CanConfirm(r)
    ensures r.posts == s.posts && r.draft == s.draft && r.image == s.image
  {
    s.(authOpen := false, authKey := "")
  }

  /** Closing the passkey dialog from its overlay or Escape: the typed key stays. */
  function DismissAuth(s: FeedState): (r: FeedState)
    ensures !r.authOpen && r.authKey == s.authKey && CanConfirm(r) == CanConfirm(s)
    ensures r.posts == s.posts && r.draft == s.draft && r.image == s.image
  {
    s.(authOpen := false)
  }

  /** The post `handleAuthSubmit` creates; `id` and `now` are its two separate `Date.now()` readings. */
  function NewPost(s: FeedState, id: int, now: int): Post {
    Post(id, CurrentUser, s.draft, 0, [], s.image, Millis(now))
  }

  /**
   `handleAuthSubmit`. The right passkey puts exactly one new post in front
   of the unchanged existing posts and clears draft, key and image; a wrong
   one only closes the dialog: posts, draft and the typed key all stay.
   */
  function AuthSubmit(s: FeedState, id: int, now: int): (r: FeedState)
    ensures !r.authOpen
    ensures s.authKey == Passkey ==>
              && |r.posts| == |s.posts| + 1
              && r.posts[1..] == s.posts
              && r.posts[0].id == id && r.posts[0].user == CurrentUser
              && r.posts[0].content == s.draft && r.posts[0].likes == 0
              && r.posts[0].comments == [] && r.posts[0].image == s.image
              && r.posts[0].createdAt == Millis(now)
              && r.draft == "" && r.authKey == "" && r.image == None
              && r.liked == s.liked && r.commentInputs == s.commentInputs
              && r.addPostOpen == s.addPostOpen
    ensures s.authKey != Passkey ==> r == s.(authOpen := false)
  {
    if s.authKey == Passkey then
      s.(posts := [NewPost(s, id, now)] + s.posts, draft := "", authKey := "",
         image := None, authOpen := false)
    else
      s.(authOpen := false)
  }

  /** The events of the compose-and-confirm flow. */
  datatype GateEvent =
    | Open
    | Type(text: string)
    | Attach(dataUrl: string)
    | Submit
    | CancelCompose
    | DismissCompose
    | TypeKey(key: string)
    | Confirm(id: int, now: int)
    | CancelConfirm
    | DismissConfirm

  /**
   Whether an event can happen: the compose dialog's controls exist only while
   it is open, the passkey dialog's only while that one is open, and Submit
   and Confirm also need their buttons enabled. A chosen image arrives from an
   asynchronous file read, so it can land at any time.
   */
  predicate GateEnabled(s: FeedState, e: GateEvent) {
    match e
    case Open => true
    case Attach(_) => true
    case Type(_) => s.addPostOpen
    case CancelCompose => s.addPostOpen
    case DismissCompose => s.addPostOpen
    case Submit => s.addPostOpen && CanSubmitDraft(s)
    case TypeKey(_) => s.authOpen
    case CancelConfirm => s.authOpen
    case DismissConfirm => s.authOpen
    case Confirm(_, _) => s.authOpen && CanConfirm(s)
  }

  /** One event; an event whose control is absent or disabled changes nothing. */
  function GateStep(s: FeedState, e: GateEvent): FeedState {
    if !GateEnabled(s, e) then s
    else match e
      case Open => OpenAddPost(s)
      case Type(t) => EditDraft(s, t)
      case Attach(d) => PickImage(s, d)
      case Submit => SubmitDraft(s)
      case CancelCompose => CancelAddPost(s)
      case DismissCompose => DismissAddPost(s)
      case TypeKey(k) => EditAuthKey(s, k)
      case Confirm(id, now) => AuthSubmit(s, id, now)
      case CancelConfirm => CancelAuth(s)
      case DismissConfirm => DismissAuth(s)
  }

  function GateRun(s: FeedState, es: seq<GateEvent>): FeedState
    decreases |es|
  {
    if es == [] then s else GateRun(GateStep(s, es[0]), es[1..])
  }

  /** Whether an event is a confirmation that goes through with the right passkey. */
  predicate AcceptedStep(s: FeedState, e: GateEvent) {
    e.Confirm? && GateEnabled(s, e) && s.authKey == Passkey
  }

  /** How many events of a run confirm with the right passkey, tracking the key as it is typed and cleared. */
  function Accepted(s: FeedState, es: seq<GateEvent>): nat
    decreases |es|
  {
    if es == [] then 0
    else (if AcceptedStep(s, es[0]) then 1 else 0) + Accepted(GateStep(s, es[0]), es[1..])
  }

  /**
   Only a confirmation with the right passkey adds a post: along any run of
   the flow the existing posts stay, in order, at the end of the feed, and
   exactly one post is put in front per accepted confirmation.
   */
  lemma {:induction false} GateOnlyPrepends(s: FeedState, es: seq<GateEvent>)
    ensures var r := GateRun(s, es);
            |r.posts| == |s.posts| + Accepted(s, es) && r.posts[Accepted(s, es)..] == s.posts
    decreases |es|
  {
    if es != [] {
      var t := GateStep(s, es[0]);
      GateOnlyPrepends(t, es[1..]);
      var r := GateRun(t, es[1..]);
      var k := Accepted(t, es[1..]);
      if AcceptedStep(s, es[0]) {
        assert t.posts[1..] == s.posts;
        assert r.posts[k + 1..] == r.posts[k..][1..];
      } else {
        assert t.posts == s.posts;
      }
    }
  }

  /**
   Posting "hello": after a wrong passkey the feed is unchanged and the draft
   and typed key stay; after the right one the feed gains exactly one post,
   at the front, carrying "hello".
   */
  lemma PostingScenario(posts: seq<Post>, liked: set<int>, wrong: string, id: int, now: int)
    requires wrong != Passkey
    ensures var s := GateRun(Initial(posts, liked), [Open, Type("hello"), Submit, TypeKey(wrong), Confirm(id, now)]);
            && s.posts == posts && s.draft == "hello" && s.authKey == wrong
            && (!Strings.AllSpace(wrong) ==> !s.authOpen)
    ensures var s := GateRun(Initial(posts, liked), [Open, Type("hello"), Submit, TypeKey(Passkey), Confirm(id, now)]);
            && |s.posts| == |posts| + 1 && s.posts[1..] == posts
            && s.posts[0] == Post(id, CurrentUser, "hello", 0, [], None, Millis(now))
  {
    HelloWithKey(Initial(posts, liked), wrong, id, now);
    HelloWithKey(Initial(posts, liked), Passkey, id, now);
    assert !Strings.IsSpace(Passkey[0]);
  }

  /** Composing "hello", submitting, typing `key` and confirming is one confirmation on the passkey dialog holding "hello" and `key`. */
  lemma HelloWithKey(s0: FeedState, key: string, id: int, now: int)
    ensures GateRun(s0, [Open, Type("hello"), Submit, TypeKey(key), Confirm(id, now)])
         == var t := EditAuthKey(SubmitDraft(EditDraft(OpenAddPost(s0), "hello")), key);
            if Strings.AllSpace(key) then t else AuthSubmit(t, id, now)
  {
    var tail := [TypeKey(key), Confirm(id, now)];
    assert [Open, Type("hello"), Submit, TypeKey(key), Confirm(id, now)] == [Open, Type("hello"), Submit] + tail;
    ComposeHelloRun(s0, tail);
    KeyThenConfirm(SubmitDraft(EditDraft(OpenAddPost(s0), "hello")), key, id, now);
  }

  /** A run that starts by composing "hello" and submitting continues from the passkey dialog holding that draft. */
  lemma ComposeHelloRun(s0: FeedState, rest: seq<GateEvent>)
    ensures GateRun(s0, [Open, Type("hello"), Submit] + rest)
         == GateRun(SubmitDraft(EditDraft(OpenAddPost(s0), "hello")), rest)
  {
    var s1 := OpenAddPost(s0);
    assert [Open, Type("hello"), Submit] + rest == [Open] + ([Type("hello")] + ([Submit] + rest));
    RunCons(s0, Open, [Type("hello")] + ([Submit] + rest));
    assert GateStep(s0, Open) == s1;
    RunCons(s1, Type("hello"), [Submit] + rest);
    RunCons(EditDraft(s1, "hello"), Submit, rest);
    ComposeHello(s0);
  }

  /** On an open passkey dialog, typing `key` and confirming posts exactly when the key is not all white space. */
  lemma KeyThenConfirm(s: FeedState, key: string, id: int, now: int)
    requires s.authOpen
    ensures GateRun(s, [TypeKey(key), Confirm(id, now)])
         == if Strings.AllSpace(key) then EditAuthKey(s, key) else AuthSubmit(EditAuthKey(s, key), id, now)
  {
    var t := EditAuthKey(s, key);
    RunCons(s, TypeKey(key), [Confirm(id, now)]);
    assert GateStep(s, TypeKey(key)) == t;
    RunCons(t, Confirm(id, now), []);
    ConfirmStep(t, id, now);
  }

  /** Confirm goes through exactly when the passkey dialog is open and the typed key is not all white space. */
  lemma ConfirmStep(s: FeedState, id: int, now: int)
    ensures GateStep(s, Confirm(id, now))
         == if s.authOpen && !Strings.AllSpace(s.authKey) then AuthSubmit(s, id, now) else s
  {
    ConfirmEnabledIff(s);
  }

  /** Opening the compose dialog, typing "hello" and pressing Submit reaches the passkey dialog with that draft. */
  lemma ComposeHello(s: FeedState)
    ensures GateStep(GateStep(GateStep(s, Open), Type("hello")), Submit)
         == SubmitDraft(EditDraft(OpenAddPost(s), "hello"))
  {
    var s2 := EditDraft(OpenAddPost(s), "hello");
    assert GateStep(OpenAddPost(s), Type("hello")) == s2;
    assert !Strings.IsSpace(s2.draft[0]);
    SubmitEnabledIff(s2);
  }

  /** A five-event run is the five steps in order. */
  lemma RunFive(s: FeedState, a: GateEvent, b: GateEvent, c: GateEvent, d: GateEvent, e: GateEvent)
    ensures GateRun(s, [a, b, c, d, e])
         == GateStep(GateStep(GateStep(GateStep(GateStep(s, a), b), c), d), e)
  {
    RunCons(s, a, [b, c, d, e]);
    var s1 := GateStep(s, a);
    RunCons(s1, b, [c, d, e]);
    var s2 := GateStep(s1, b);
    RunCons(s2, c, [d, e]);
    var s3 := GateStep(s2, c);
    RunCons(s3, d, [e]);
    RunCons(GateStep(s3, d), e, []);
  }

  lemma RunCons(s: FeedState, e: GateEvent, rest: seq<GateEvent>)
    ensures GateRun(s, [e] + rest) == GateRun(GateStep(s, e), rest)
  {
    assert ([e] + rest)[1..] == rest;
  }

  // ---- comments ----

  /** A comment box's `onChange`: only that post's input takes the typed text. */
  function EditComment(s: FeedState, postId: int, text: string): (r: FeedState)
    ensures postId in r.commentInputs && r.commentInputs[postId] == text
    ensures r.commentInputs - {postId} == s.commentInputs - {postId}
    ensures CanComment(r, postId) <==> !Strings.AllSpace(text)
    ensures r == s.(commentInputs := r.commentInputs)
  {
    Strings.TrimEmptyIff(text);
    s.(commentInputs := s.commentInputs[postId := text])
  }

  /** The Post button of a post's comment box is enabled when its input is present and its trimmed text non-empty. */
  predicate CanComment(s: FeedState, postId: int) {
    postId in s.commentInputs && Strings.Trim(s.commentInputs[postId]) != ""
  }

  /** The Post button is enabled exactly when the post's input is present and not all white space. */
  lemma CommentEnabledIff(s: FeedState, postId: int)
    ensures CanComment(s, postId) <==> postId in s.commentInputs && !Strings.AllSpace(s.commentInputs[postId])
  {
    if postId in s.commentInputs {
      Strings.TrimEmptyIff(s.commentInputs[postId]);
    }
  }

  /** Appends `c` to the comments of every post whose id is `postId`. */
  function AppendComment(posts: seq<Post>, postId: int, c: Comment): (r: seq<Post>)
    ensures |r| == |posts|
    ensures forall i :: 0 <= i < |posts| && posts[i].id != postId ==> r[i] == posts[i]
    ensures forall i :: 0 <= i < |posts| && posts[i].id == postId ==>
              r[i] == posts[i].(comments := posts[i].comments + [c])
  {
    seq(|posts|, i requires 0 <= i < |posts| =>
      if posts[i].id == postId then posts[i].(comments := posts[i].comments + [c]) else posts[i])
  }

  /**
   `handleAddComment`: a missing or blank input changes nothing; otherwise
   the trimmed text, signed by the current user, is appended to the target
   post's comments only, and that post's input is cleared.
   */
  function AddComment(s: FeedState, postId: int): (r: FeedState)
    ensures !CanComment(s, postId) ==> r == s
    ensures CanComment(s, postId) ==>
              var c := Comment(CurrentUser, Strings.Trim(s.commentInputs[postId]));
              && |r.posts| == |s.posts|
              && (forall i :: 0 <= i < |s.posts| && s.posts[i].id != postId ==> r.posts[i] == s.posts[i])
              && (forall i :: 0 <= i < |s.posts| && s.posts[i].id == postId ==>
                    r.posts[i] == s.posts[i].(comments := s.posts[i].comments + [c]))
              && r.commentInputs == s.commentInputs[postId := ""]
              && r == s.(posts := r.posts, commentInputs := r.commentInputs)
  {
    if !CanComment(s, postId) then s
    else
      var text := Strings.Trim(s.commentInputs[postId]);
      s.(posts := AppendComment(s.posts, postId, Comment(CurrentUser, text)),
         commentInputs := s.commentInputs[postId := ""])
  }

  /** Submitting a comment twice posts it once: the cleared input makes the second call a no-op. */
  lemma AddCommentTwice(s: FeedState, postId: int)
    ensures AddComment(AddComment(s, postId), postId) == AddComment(s, postId)
  {
    var r := AddComment(s, postId);
    if CanComment(s, postId) {
      assert r.commentInputs[postId] == "";
    }
  }
}
