/**
 The browser's local key-value storage, reduced to what the components do
 with it. A slot holds the JSON text of an array the component itself wrote
 (`Serialized`), the JSON text of some value that is not an array (`NonArray`:
 `null`, a number, a string, a boolean or an object), or text that is not
 JSON at all (`Unparsable`). JSON text is not modelled character by character.
 */
module Storage {
  import opened Wrappers

  datatype Stored<T> = Serialized(items: seq<T>) | NonArray(text: string) | Unparsable(text: string)

  /** A storage area whose slots all hold values of one record type. */
  type Store<T> = map<string, Stored<T>>

  /** `localStorage.getItem(key)`: `None` is JavaScript's `null`. */
  function Get<T>(store: Store<T>, key: string): (v: Option<Stored<T>>)
    ensures v.Some? <==> key in store
    ensures v.Some? ==> v.value == store[key]
  {
    if key in store then Some(store[key]) else None
  }

  /** `if (saved)`: the slot is present and does not hold the empty string. */
  predicate Truthy<T>(v: Option<Stored<T>>) {
    v.Some? && (v.value.Serialized? || v.value.text != "")
  }

  /** What `saved ? JSON.parse(saved) : []` evaluates to. */
  datatype Parsed<T> = Array(items: seq<T>) | NotArray | Throws

  /**
   `saved ? JSON.parse(saved) : []`: an absent or empty slot gives the empty
   array without parsing; otherwise the slot's JSON value, or an exception.
   */
  function Parse<T>(v: Option<Stored<T>>): (r: Parsed<T>)
    ensures !Truthy(v) ==> r == Array([])
    ensures r.Throws? <==> Truthy(v) && v.value.Unparsable?
    ensures r.NotArray? <==> Truthy(v) && v.value.NonArray?
    ensures Truthy(v) && v.value.Serialized? ==> r == Array(v.value.items)
  {
    if !Truthy(v) then Array([])
    else match v.value
      case Serialized(items) => Array(items)
      case NonArray(_) => NotArray
      case Unparsable(_) => Throws
  }

  /**
   The message list a chat screen ends up rendering from `saved`, with no
   `try` around the parse: `None` stands for the screen failing, either
   because `JSON.parse` throws or because the parsed value has no `map`.
   */
  function Read<T>(v: Option<Stored<T>>): (r: Option<seq<T>>)
    ensures !Truthy(v) ==> r == Some([])
    ensures r.None? <==> Truthy(v) && !v.value.Serialized?
    ensures Truthy(v) && v.value.Serialized? ==> r == Some(v.value.items)
  {
    match Parse(v)
    case Array(items) => Some(items)
    case _ => None
  }

  /** Writing a sequence and reading it back yields the sequence: the write/read round trip. */
  lemma WriteThenRead<T>(store: Store<T>, key: string, items: seq<T>)
    ensures Read(Get(store[key := Serialized(items)], key)) == Some(items)
  {
  }
}
