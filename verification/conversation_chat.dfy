/**
 The per-conversation chat of src/Chat/Chat.jsx: the selected conversation
 ("global" or a contact id) picks the storage key of its log; the log is
 reloaded when the selection changes and replaced on `storage` events for
 that key only.
 */
module ConversationChat {
  import opened Wrappers
  import Strings
  import Storage
  import opened ChatLog
  import GroupChat

  const KeySuffix: string := "GroupChatMessages"

  /** The storage key of a conversation's log: its id followed by the fixed suffix. */
  function StorageKey(chatId: string): (k: string)
    ensures |k| == |chatId| + |KeySuffix|
    ensures k[..|chatId|] == chatId && k[|chatId|..] == KeySuffix
  {
    chatId + KeySuffix
  }

  /** Distinct conversations never share a log. */
  lemma StorageKeyInjective(a: string, b: string)
    requires StorageKey(a) == StorageKey(b)
    ensures a == b
  {
    assert |a| == |b|;
    assert a == StorageKey(a)[..|a|];
  }

  /** The "global" conversation's key is the one the group chat screen uses, so the two share one log. */
  lemma GlobalKeyIsGroupChatKey()
    ensures StorageKey("global") == GroupChat.ChatKey
  {
  }

  /** The signed-in account, as far as this screen reads it. */
  datatype User = User(email: Option<string>)

  /** `currentUser?.email || "Guest"`: the email when present and non-empty, else "Guest". */
  function Username(user: Option<User>): (r: string)
    ensures user.Some? && user.value.email.Some? && user.value.email.value != "" ==> r == user.value.email.value
    ensures !(user.Some? && user.value.email.Some? && user.value.email.value != "") ==> r == "Guest"
    ensures r != ""
  {
    match user
    case Some(User(Some(e))) => if e != "" then e else "Guest"
    case _ => "Guest"
  }

  datatype Contact = Contact(id: string, name: string, role: string)

  const Contacts: seq<Contact> := [
    Contact("Contact1", "XXXXX", "GENED PROF ENGLISH"),
    Contact("Contact2", "YYYYY", "MATH COORDINATOR"),
    Contact("Contact3", "ZZZZZ", "SCIENCE PROFESSOR")
  ]

  /** The position of the first contact with that id, if any. */
  function FindIndex(cs: seq<Contact>, chatId: string): (r: Option<nat>)
    ensures r.Some? ==> r.value < |cs| && cs[r.value].id == chatId
    ensures r.Some? ==> forall j :: 0 <= j < r.value ==> cs[j].id != chatId
    ensures r.None? <==> forall i :: 0 <= i < |cs| ==> cs[i].id != chatId
  {
    if cs == [] then None
    else if cs[0].id == chatId then Some(0)
    else match FindIndex(cs[1..], chatId)
      case Some(i) => Some(i + 1)
      case None => None
  }

  /** `contacts.find(c => c.id === chatId)`: the first contact with that id. */
  function FindContact(cs: seq<Contact>, chatId: string): (r: Option<Contact>)
    ensures r.Some? ==> r.value in cs && r.value.id == chatId
    ensures r.Some? ==> exists i :: 0 <= i < |cs| && cs[i] == r.value && forall j :: 0 <= j < i ==> cs[j].id != chatId
    ensures r.None? <==> forall i :: 0 <= i < |cs| ==> cs[i].id != chatId
  {
    match FindIndex(cs, chatId)
    case Some(i) => Some(cs[i])
    case None => None
  }

  /**
   The conversation header: "Global Chat" for the shared room, otherwise
   "name - role" of the matching contact, otherwise "Unknown Contact".
   */
  function HeaderTitle(chatId: string): (r: string)
    ensures chatId == "global" ==> r == "Global Chat"
    ensures chatId != "global" && FindContact(Contacts, chatId).Some? ==>
              var c := FindContact(Contacts, chatId).value; r == c.name + " - " + c.role
    ensures chatId != "global" && FindContact(Contacts, chatId).None? ==> r == "Unknown Contact"
  {
    if chatId == "global" then "Global Chat"
    else match FindContact(Contacts, chatId)
      case Some(c) => c.name + " - " + c.role
      case None => "Unknown Contact"
  }

  /** The shared room's header. */
  lemma HeaderTitleGlobal()
    ensures HeaderTitle("global") == "Global Chat"
  {
  }

  /** A known contact's header names the contact and its role. */
  lemma HeaderTitleContact()
    ensures HeaderTitle("Contact2") == "YYYYY - MATH COORDINATOR"
  {
    assert Contacts[0].id != "Contact2";
    assert FindIndex(Contacts, "Contact2") == Some(1);
    assert Contacts[1].name + " - " + Contacts[1].role == "YYYYY - MATH COORDINATOR";
  }

  /** Every id that is neither "global" nor a contact's falls through to "Unknown Contact". */
  lemma HeaderTitleUnknown(chatId: string)
    requires chatId != "global" && forall i :: 0 <= i < |Contacts| ==> Contacts[i].id != chatId
    ensures HeaderTitle(chatId) == "Unknown Contact"
  {
  }

  /** The title of the info dialog: the room's, the contact's name, or a generic one. */
  function InfoTitle(chatId: string): (r: string)
    ensures chatId == "global" ==> r == "Global Chat Info"
    ensures chatId != "global" && FindContact(Contacts, chatId).Some? ==> r == FindContact(Contacts, chatId).value.name
    ensures chatId != "global" && FindContact(Contacts, chatId).None? ==> r == "Contact Info"
  {
    if chatId == "global" then "Global Chat Info"
    else match FindContact(Contacts, chatId)
      case Some(c) => c.name
      case None => "Contact Info"
  }

  datatype View = View(chatId: string, user: Option<User>, messages: seq<Message>, text: string, emojiOpen: bool)

  /** Mounting reads the conversation's log without a `try`: unparsable text makes it fail (`None`). */
  function Mount(chatId: string, user: Option<User>, store: Store): (r: Option<View>)
    ensures StorageKey(chatId) !in store ==> r == Some(View(chatId, user, [], "", false))
    ensures r.Some? <==> Storage.Read(Storage.Get(store, StorageKey(chatId))).Some?
    ensures r.Some? ==> r.value.messages == Storage.Read(Storage.Get(store, StorageKey(chatId))).value
  {
    match Storage.Read(Storage.Get(store, StorageKey(chatId)))
    case Some(log) => Some(View(chatId, user, log, "", false))
    case None => None
  }

  /**
   A new selection: when the derived key changes, the effect reloads the log
   from the new key (empty when absent; failing on unparsable text), keeping
   the typed input; the same selection re-runs nothing.
   */
  function SelectChat(v: View, chatId: string, store: Store): (r: Option<View>)
    ensures chatId == v.chatId ==> r == Some(v)
    ensures chatId != v.chatId && StorageKey(chatId) !in store ==> r == Some(v.(chatId := chatId, messages := []))
    ensures chatId != v.chatId ==>
              (r.Some? <==> Storage.Read(Storage.Get(store, StorageKey(chatId))).Some?)
    ensures chatId != v.chatId && r.Some? ==>
              r.value == v.(chatId := chatId, messages := Storage.Read(Storage.Get(store, StorageKey(chatId))).value)
  {
    if chatId == v.chatId then Some(v)
    else match Storage.Read(Storage.Get(store, StorageKey(chatId)))
      case Some(log) => Some(v.(chatId := chatId, messages := log))
      case None => None
  }

  /**
   The `storage` listener: only an event for the current conversation's key
   replaces the log (a removed or empty value gives the empty log). Text that
   does not parse throws inside the listener and changes nothing; JSON that
   parses to a non-array is stored and makes the next render fail (`None`).
   */
  function OnStorage(v: View, ev: StorageEvent): (r: Option<View>)
    ensures ev.key != StorageKey(v.chatId) ==> r == Some(v)
    ensures ev.key == StorageKey(v.chatId) && !Storage.Truthy(ev.newValue) ==> r == Some(v.(messages := []))
    ensures ev.key == StorageKey(v.chatId) && Storage.Truthy(ev.newValue) && ev.newValue.value.Serialized? ==>
              r == Some(v.(messages := ev.newValue.value.items))
    ensures ev.key == StorageKey(v.chatId) && Storage.Truthy(ev.newValue) && ev.newValue.value.Unparsable? ==>
              r == Some(v)
    ensures r.None? <==> ev.key == StorageKey(v.chatId) && Storage.Truthy(ev.newValue) && ev.newValue.value.NonArray?
  {
    if ev.key != StorageKey(v.chatId) then Some(v)
    else match Storage.Parse(ev.newValue)
      case Array(log) => Some(v.(messages := log))
      case Throws => Some(v)
      case NotArray => None
  }

  /** A write to another conversation's log never disturbs the open one. */
  lemma OtherConversationIgnored(v: View, other: string, value: Option<Storage.Stored<Message>>)
    requires other != v.chatId
    ensures OnStorage(v, StorageEvent(StorageKey(other), value)) == Some(v)
  {
    if StorageKey(other) == StorageKey(v.chatId) {
      StorageKeyInjective(other, v.chatId);
    }
  }

  /** The message `handleSend` creates, signed with the current user name in the `sender` field. */
  function TextMessage(v: View, now: int, iso: string): Message {
    Message(now, Text(v.text), BySender(Username(v.user)), iso)
  }

  /**
   `handleSend`: blank input changes nothing; otherwise one text message
   with the untrimmed input and the current user name is appended and the
   whole log is written under the conversation's key.
   */
  function Send(v: View, store: Store, now: int, iso: string): (r: Outcome<View>)
    ensures Strings.AllSpace(v.text) ==> r == Outcome(v, store)
    ensures !Strings.AllSpace(v.text) ==>
              && r.view.messages == v.messages + [TextMessage(v, now, iso)]
              && r.view == v.(messages := r.view.messages, text := "", emojiOpen := false)
              && r.store == store[StorageKey(v.chatId) := Storage.Serialized(r.view.messages)]
  {
    Strings.TrimEmptyIff(v.text);
    if Strings.Trim(v.text) == "" then Outcome(v, store)
    else
      var log := v.messages + [TextMessage(v, now, iso)];
      Outcome(v.(messages := log, text := "", emojiOpen := false),
              store[StorageKey(v.chatId) := Storage.Serialized(log)])
  }

  /** Sending in one conversation leaves every other conversation's stored log as it was. */
  lemma SendKeepsOtherLogs(v: View, store: Store, now: int, iso: string, other: string)
    requires other != v.chatId
    ensures Storage.Get(Send(v, store, now, iso).store, StorageKey(other)) == Storage.Get(store, StorageKey(other))
  {
    if StorageKey(other) == StorageKey(v.chatId) {
      StorageKeyInjective(other, v.chatId);
    }
  }

  /** Switching away and back to a conversation shows what was last stored for it. */
  lemma SendThenReselect(v: View, store: Store, now: int, iso: string, other: string)
    requires !Strings.AllSpace(v.text) && other != v.chatId
    ensures var o := Send(v, store, now, iso);
            var away := SelectChat(o.view, other, o.store);
            away.Some? ==> SelectChat(away.value, v.chatId, o.store) == Some(o.view.(chatId := v.chatId))
  {
  }

  /**
   Cross-tab sync: when tab A sends in a conversation, the `storage` event a
   tab B showing the same conversation receives makes B show A's new log.
   */
  lemma SendReachesOtherTab(a: View, b: View, store: Store, now: int, iso: string)
    requires !Strings.AllSpace(a.text) && b.chatId == a.chatId
    ensures var o := Send(a, store, now, iso);
            var k := StorageKey(a.chatId);
            OnStorage(b, StorageEvent(k, Storage.Get(o.store, k))) == Some(b.(messages := o.view.messages))
  {
  }
}
