/** `UniqueSet` (main.go): a map used as a keyed set. Go's map is mutable;
    here each update returns the new map. */
module Unique {
  import opened Wrappers

  type UniqueSet<K, V> = map<K, V>

  function Empty<K(!new), V>(): (s: UniqueSet<K, V>)
    ensures forall k :: k !in s
  {
    map[]
  }

  /** `Add`: inserts or overwrites one entry. */
  function Add<K(!new), V>(s: UniqueSet<K, V>, key: K, value: V): (r: UniqueSet<K, V>)
    ensures key in r && r[key] == value
    ensures forall k :: k != key ==> (k in r <==> k in s)
    ensures forall k :: k != key && k in s ==> r[k] == s[k]
  {
    s[key := value]
  }

  /** `Contains`: whether the key has an entry. */
  function Contains<K, V>(s: UniqueSet<K, V>, key: K): (b: bool)
    ensures b <==> key in s
  {
    key in s
  }

  /** `Get`: the entry, or nothing; Go returns the zero value and `false`. */
  function Get<K, V>(s: UniqueSet<K, V>, key: K): (r: Option<V>)
    ensures r.Some? <==> Contains(s, key)
    ensures r.Some? ==> r.value == s[key]
  {
    if key in s then Some(s[key]) else None
  }

  /** `Remove`: deletes the entry if there is one. */
  function Remove<K(!new), V>(s: UniqueSet<K, V>, key: K): (r: UniqueSet<K, V>)
    ensures key !in r
    ensures forall k :: k != key ==> (k in r <==> k in s)
    ensures forall k :: k != key && k in s ==> r[k] == s[k]
  {
    s - {key}
  }

  /** A value just added is the one read back. */
  lemma GetAfterAdd<K(!new), V>(s: UniqueSet<K, V>, key: K, value: V)
    ensures Get(Add(s, key, value), key) == Some(value)
  {
  }

  /** Removing undoes adding a fresh key. */
  lemma RemoveAfterAdd<K(!new), V>(s: UniqueSet<K, V>, key: K, value: V)
    requires !Contains(s, key)
    ensures Remove(Add(s, key, value), key) == s
  {
  }

  /** Adding the same key twice keeps only the second value. */
  lemma AddTwice<K(!new), V>(s: UniqueSet<K, V>, key: K, a: V, b: V)
    ensures Add(Add(s, key, a), key, b) == Add(s, key, b)
  {
  }

  /** Re-adding the value already stored changes nothing. */
  lemma AddPresent<K(!new), V>(s: UniqueSet<K, V>, key: K)
    requires Contains(s, key)
    ensures Add(s, key, s[key]) == s
  {
  }
}
