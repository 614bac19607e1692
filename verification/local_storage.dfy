/** The browser's `localStorage`: a string-to-string store. */
module LocalStorage {
  import opened Wrappers

  type Store = map<string, string>

  /** The key under which the session token is persisted. */
  const TokenKey: string := "token"

  /** The key under which a cached user record may be persisted. */
  const UserKey: string := "user"

  /** `localStorage.getItem(key)`: the stored value, or null. */
  function GetItem(st: Store, key: string): (r: Option<string>)
    ensures r.Some? <==> key in st
    ensures r.Some? ==> r.value == st[key]
  {
    if key in st then Some(st[key]) else None
  }

  /** `localStorage.setItem(key, value)`. */
  function SetItem(st: Store, key: string, value: string): (r: Store)
    ensures GetItem(r, key) == Some(value)
    ensures forall k :: k != key ==> GetItem(r, k) == GetItem(st, k)
  {
    st[key := value]
  }

  /** `localStorage.removeItem(key)`; removing an absent key is a no-op. */
  function RemoveItem(st: Store, key: string): (r: Store)
    ensures GetItem(r, key) == None
    ensures forall k :: k != key ==> GetItem(r, k) == GetItem(st, k)
    ensures key !in st ==> r == st
  {
    st - {key}
  }

  /** Removing a key erases any earlier write to it. */
  lemma RemoveAfterSet(st: Store, key: string, value: string)
    ensures RemoveItem(SetItem(st, key, value), key) == RemoveItem(st, key)
  {
    assert forall k :: k in RemoveItem(SetItem(st, key, value), key) <==> k in RemoveItem(st, key);
  }
}
