/**
 The single shared group chat of src/components/chat/Chat.jsx: a message
 log mirrored under one fixed storage key, synchronised across tabs by the
 `storage` event. File reading and microphone capture are outside the model;
 their encoded results arrive as opaque strings.
 */
module GroupChat {
  import opened Wrappers
  import Strings
  import Storage
  import opened ChatLog

  const ChatKey: string := "globalGroupChatMessages"

  /** The hard-coded name this screen signs messages with. */
  const Username: string := "Rojan"

  datatype View = View(messages: seq<Message>, text: string, pickerOpen: bool)

  /**
   The initial state. The stored log is parsed without a `try`, so a slot
   holding non-empty text that is not a serialized log makes mounting fail
   (`None`); an absent or empty slot gives the empty log.
   */
  function Mount(store: Store): (r: Option<View>)
    ensures ChatKey !in store ==> r == Some(View([], "", false))
    ensures r.Some? <==> Storage.Read(Storage.Get(store, ChatKey)).Some?
    ensures r.Some? ==> r.value == View(Storage.Read(Storage.Get(store, ChatKey)).value, "", false)
  {
    match Storage.Read(Storage.Get(store, ChatKey))
    case Some(log) => Some(View(log, "", false))
    case None => None
  }

  /**
   The `storage` listener. An event for another key is ignored. For this
   chat's key the new value replaces the log wholesale (a removed or empty
   value gives the empty log). Text that does not parse throws inside the
   listener, so nothing changes. JSON that parses to a non-array is stored
   as the message list, and the next render's `messages.map` fails (`None`).
   */
  function OnStorage(v: View, ev: StorageEvent): (r: Option<View>)
    ensures ev.key != ChatKey ==> r == Some(v)
    ensures ev.key == ChatKey && !Storage.Truthy(ev.newValue) ==> r == Some(v.(messages := []))
    ensures ev.key == ChatKey && Storage.Truthy(ev.newValue) && ev.newValue.value.Serialized? ==>
              r == Some(v.(messages := ev.newValue.value.items))
    ensures ev.key == ChatKey && Storage.Truthy(ev.newValue) && ev.newValue.value.Unparsable? ==> r == Some(v)
    ensures r.None? <==> ev.key == ChatKey && Storage.Truthy(ev.newValue) && ev.newValue.value.NonArray?
  {
    if ev.key != ChatKey then Some(v)
    else match Storage.Parse(ev.newValue)
      case Array(log) => Some(v.(messages := log))
      case Throws => Some(v)
      case NotArray => None
  }

  /** The message `handleSend` creates. */
  function TextMessage(text: string, now: int, iso: string): Message {
    Message(now, Text(text), ByUsername(Username), iso)
  }

  /**
   `handleSend`: blank input changes nothing; otherwise one text message
   carrying the untrimmed input is appended at the end, the whole log is
   written back under the chat key, and the input and emoji picker are reset.
   */
  function Send(v: View, store: Store, now: int, iso: string): (r: Outcome<View>)
    ensures Strings.AllSpace(v.text) ==> r == Outcome(v, store)
    ensures !Strings.AllSpace(v.text) ==>
              && r.view.messages == v.messages + [TextMessage(v.text, now, iso)]
              && r.view.text == "" && !r.view.pickerOpen
              && r.store == store[ChatKey := Storage.Serialized(r.view.messages)]
  {
    Strings.TrimEmptyIff(v.text);
    if Strings.Trim(v.text) == "" then Outcome(v, store)
    else
      var log := v.messages + [TextMessage(v.text, now, iso)];
      Outcome(View(log, "", false), store[ChatKey := Storage.Serialized(log)])
  }

  /** The message `handleSendMedia` creates for an encoded image or audio clip. */
  function MediaMessage(mediaType: string, data: string, now: int, iso: string): Message {
    Message(now, Media(mediaType, data), ByUsername(Username), iso)
  }

  /**
   `handleSendMedia`: always appends exactly one message with the given type
   and content and writes the whole log back; the text input is left alone.
   */
  function SendMedia(v: View, store: Store, mediaType: string, data: string, now: int, iso: string): (r: Outcome<View>)
    ensures r.view.messages == v.messages + [MediaMessage(mediaType, data, now, iso)]
    ensures r.view.text == v.text && r.view.pickerOpen == v.pickerOpen
    ensures r.store == store[ChatKey := Storage.Serialized(r.view.messages)]
  {
    var log := v.messages + [MediaMessage(mediaType, data, now, iso)];
    Outcome(v.(messages := log), store[ChatKey := Storage.Serialized(log)])
  }

  /** `handleEmoji`: the emoji is added to the end of the input and the picker closes. */
  function PickEmoji(v: View, emoji: string): (r: View)
    ensures r.text == v.text + emoji && !r.pickerOpen && r.messages == v.messages
  {
    v.(text := v.text + emoji, pickerOpen := false)
  }

  /**
   Right after a non-blank send, reading the chat key back yields the
   in-memory log, whose last message is the one just sent.
   */
  lemma SendThenLoad(v: View, store: Store, now: int, iso: string)
    requires !Strings.AllSpace(v.text)
    ensures var r := Send(v, store, now, iso);
            && Storage.Read(Storage.Get(r.store, ChatKey)) == Some(r.view.messages)
            && r.view.messages[|r.view.messages| - 1] == TextMessage(v.text, now, iso)
  {
  }

  /** One attachment to send: its media type, encoded content and the clock readings at send time. */
  datatype Attachment = Attachment(mediaType: string, data: string, now: int, iso: string)

  function Sent(a: Attachment): Message {
    MediaMessage(a.mediaType, a.data, a.now, a.iso)
  }

  /** What the user can do on this screen: edit the input, pick an emoji, press Send, or have an attachment sent. */
  datatype ChatEvent =
    | TypeText(text: string)
    | Emoji(emoji: string)
    | PressSend(now: int, iso: string)
    | AttachMedia(item: Attachment)

  /** One event handled by its handler, on the current view and storage. */
  function Step(o: Outcome<View>, e: ChatEvent): Outcome<View> {
    match e
    case TypeText(t) => Outcome(o.view.(text := t), o.store)
    case Emoji(em) => Outcome(PickEmoji(o.view, em), o.store)
    case PressSend(now, iso) => Send(o.view, o.store, now, iso)
    case AttachMedia(a) => SendMedia(o.view, o.store, a.mediaType, a.data, a.now, a.iso)
  }

  function Run(o: Outcome<View>, es: seq<ChatEvent>): Outcome<View>
    decreases |es|
  {
    if es == [] then o else Run(Step(o, es[0]), es[1..])
  }

  /** The input after an event, given the input before it. */
  function NextText(text: string, e: ChatEvent): string {
    match e
    case TypeText(t) => t
    case Emoji(em) => text + em
    case PressSend(_, _) => if Strings.AllSpace(text) then text else ""
    case AttachMedia(_) => text
  }

  /** The messages an event adds to the log, given the input at that moment: a send of a non-blank input adds its text, an attachment adds itself. */
  function Contribution(text: string, e: ChatEvent): seq<Message> {
    match e
    case PressSend(now, iso) => if Strings.AllSpace(text) then [] else [TextMessage(text, now, iso)]
    case AttachMedia(a) => [Sent(a)]
    case _ => []
  }

  /** The messages a run of events adds, in event order, starting from input `text`. */
  function Contributed(text: string, es: seq<ChatEvent>): seq<Message>
    decreases |es|
  {
    if es == [] then [] else Contribution(text, es[0]) + Contributed(NextText(text, es[0]), es[1..])
  }

  /** One event appends its contribution, moves the input on, and writes the log back exactly when it added something. */
  lemma StepAppends(o: Outcome<View>, e: ChatEvent)
    ensures var r := Step(o, e);
            && r.view.messages == o.view.messages + Contribution(o.view.text, e)
            && r.view.text == NextText(o.view.text, e)
            && (Contribution(o.view.text, e) == [] ==> r.store == o.store)
            && (Contribution(o.view.text, e) != [] ==>
                  r.store == o.store[ChatKey := Storage.Serialized(r.view.messages)])
  {
  }

  /**
   Any mix of typed-then-sent texts, emoji and attachments on one tab: the
   log is the earlier log, unchanged, followed by each accepted send's
   message in send order; storage is untouched when nothing was sent, and
   otherwise holds exactly the in-memory log under the chat key, with every
   other key as it was.
   */
  lemma RunAppendsInOrder(o: Outcome<View>, es: seq<ChatEvent>)
    ensures var r := Run(o, es);
            && r.view.messages == o.view.messages + Contributed(o.view.text, es)
            && (Contributed(o.view.text, es) == [] ==> r.store == o.store)
            && (Contributed(o.view.text, es) != [] ==>
                  Storage.Get(r.store, ChatKey) == Some(Storage.Serialized(r.view.messages)))
            && (forall k :: k != ChatKey ==> Storage.Get(r.store, k) == Storage.Get(o.store, k))
  {
    RunLog(o, es);
    RunStore(o, es);
  }

  /** The log after a run is the earlier log followed by the run's contributions. */
  lemma {:induction false} RunLog(o: Outcome<View>, es: seq<ChatEvent>)
    ensures Run(o, es).view.messages == o.view.messages + Contributed(o.view.text, es)
    decreases |es|
  {
    if es != [] {
      var t := Step(o, es[0]);
      StepAppends(o, es[0]);
      RunLog(t, es[1..]);
      var c := Contribution(o.view.text, es[0]);
      var rest := Contributed(t.view.text, es[1..]);
      assert Contributed(o.view.text, es) == c + rest;
      assert o.view.messages + (c + rest) == (o.view.messages + c) + rest;
    }
  }

  /** Storage after a run: unchanged without contributions, otherwise the final log under the chat key; other keys never change. */
  lemma {:induction false} RunStore(o: Outcome<View>, es: seq<ChatEvent>)
    ensures var r := Run(o, es);
            && (Contributed(o.view.text, es) == [] ==> r.store == o.store)
            && (Contributed(o.view.text, es) != [] ==>
                  Storage.Get(r.store, ChatKey) == Some(Storage.Serialized(r.view.messages)))
            && (forall k :: k != ChatKey ==> Storage.Get(r.store, k) == Storage.Get(o.store, k))
    decreases |es|
  {
    if es != [] {
      var t := Step(o, es[0]);
      StepAppends(o, es[0]);
      RunStore(t, es[1..]);
      var c := Contribution(o.view.text, es[0]);
      var rest := Contributed(t.view.text, es[1..]);
      assert Contributed(o.view.text, es) == c + rest;
      if c != [] && rest == [] {
        RunLog(t, es[1..]);
        var r := Run(o, es);
        assert r.store == t.store && r.view.messages == t.view.messages;
        assert t.store[ChatKey] == Storage.Serialized(t.view.messages);
      }
    }
  }

  /**
   The last-writer-wins race between two tabs: both hold the same log,
   tab A sends and writes, then tab B (which has not yet seen A's write)
   sends and writes. The stored log is B's view plus B's message; A's
   message is not in it.
   */
  lemma LastWriterWins(log: seq<Message>, store: Store, m1: string, m2: string,
                       t1: int, t2: int, iso1: string, iso2: string)
    requires !Strings.AllSpace(m1) && !Strings.AllSpace(m2)
    requires TextMessage(m1, t1, iso1) !in log && TextMessage(m1, t1, iso1) != TextMessage(m2, t2, iso2)
    ensures var a := Send(View(log, m1, false), store, t1, iso1);
            var b := Send(View(log, m2, false), a.store, t2, iso2);
            && Storage.Read(Storage.Get(b.store, ChatKey)) == Some(log + [TextMessage(m2, t2, iso2)])
            && TextMessage(m1, t1, iso1) !in Storage.Read(Storage.Get(b.store, ChatKey)).value
  {
  }

  /**
   Cross-tab sync: when tab A sends, the `storage` event another tab B
   receives for the chat key makes B show exactly A's new log, whatever B
   showed before; B's own input and picker are kept.
   */
  lemma SendReachesOtherTab(a: View, b: View, store: Store, now: int, iso: string)
    requires !Strings.AllSpace(a.text)
    ensures var o := Send(a, store, now, iso);
            OnStorage(b, StorageEvent(ChatKey, Storage.Get(o.store, ChatKey))) == Some(b.(messages := o.view.messages))
  {
  }

  /**
   The lost update of a media send whose callback was created before a text
   send: the recorder and file-reader callbacks call `handleSendMedia` from
   an earlier render, holding that render's `messages`. Appending to that
   stale log drops the text message from both the view and storage.
   */
  lemma StaleMediaDropsText(v: View, store: Store, now: int, iso: string,
                            mediaType: string, data: string, later: int, iso2: string)
    requires !Strings.AllSpace(v.text) && TextMessage(v.text, now, iso) !in v.messages
    ensures var a := Send(v, store, now, iso);
            var m := SendMedia(v, a.store, mediaType, data, later, iso2);
            && TextMessage(v.text, now, iso) in a.view.messages
            && TextMessage(v.text, now, iso) !in m.view.messages
            && Storage.Read(Storage.Get(m.store, ChatKey)) == Some(v.messages + [MediaMessage(mediaType, data, later, iso2)])
  {
    var a := Send(v, store, now, iso);
    assert a.view.messages[|v.messages|] == TextMessage(v.text, now, iso);
  }
}
