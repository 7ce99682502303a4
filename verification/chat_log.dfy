/**
 The message record both chat screens persist, and the storage-change
 notification a tab receives when another tab writes to local storage.
 */
module ChatLog {
  import opened Wrappers
  import Storage

  /** A text message stores its `text` field; an image or audio message its `type` and encoded `content`. */
  datatype Payload = Text(text: string) | Media(mediaType: string, content: string)

  /**
   Which JSON field names the author: the group chat writes `username`, the
   per-conversation chat writes `sender`.
   */
  datatype Author = ByUsername(name: string) | BySender(name: string)

  datatype Message = Message(
    id: int,             // the sender's `Date.now()` when sent; not claimed unique
    payload: Payload,
    author: Author,
    timestamp: string)   // `new Date().toISOString()`, an opaque token here

  type Store = Storage.Store<Message>

  /** A `storage` event: the key another tab wrote and its new value (`None` when removed). */
  datatype StorageEvent = StorageEvent(key: string, newValue: Option<Storage.Stored<Message>>)

  /** A tab's component state after a handler, with the storage it leaves behind. */
  datatype Outcome<V> = Outcome(view: V, store: Store)
}
