/** The browser's `localStorage` as seen by the data helpers: a map from key
    to stored text, where the text is either empty, not parseable, or the
    serialisation of a collection (serialisation is taken to be lossless, so
    the collection itself stands for its text). */
module LocalStorage {
  import opened Wrappers

  /** The text stored under one key. */
  datatype Stored<T> =
    | Blank               // the empty string
    | Malformed           // non-empty text that `JSON.parse` rejects
    | Json(items: seq<T>) // `JSON.stringify(items)`, never empty
  {
    /** The text counts as true in a JavaScript condition. */
    predicate Truthy() { !Blank? }
  }

  /** Where the code runs: on the server there is no `window` and no
      storage; in the browser there is a store. */
  datatype Env<T> = Server | Browser(store: map<string, Stored<T>>)

  /** Whether the storage calls of one operation throw: reading (storage
      access denied) and writing (quota exceeded and the like). */
  datatype Faults = Faults(readThrows: bool, writeThrows: bool)

  /** No storage call throws. */
  const NoFaults := Faults(false, false)

  /** `localStorage.getItem(key)`: `None` for `null`. */
  function GetItem<T>(store: map<string, Stored<T>>, key: string): (r: Option<Stored<T>>)
    ensures r.Some? <==> key in store
    ensures r.Some? ==> r.value == store[key]
  {
    if key in store then Some(store[key]) else None
  }

  /** `if (localStorage.getItem(key))`: something non-empty is stored. */
  predicate HoldsText<T>(store: map<string, Stored<T>>, key: string) {
    key in store && store[key].Truthy()
  }
}
