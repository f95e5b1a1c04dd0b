/** The checkpoint file of src/index.ts: one JSON object mapping a key to the
    last line recorded for it, read whole and rewritten whole. */
module Checkpoints {
  import opened Wrappers

  /** The checkpoint file as the jobs see it: a parsed map, or a file that
      cannot be read or parsed. */
  datatype Store = Readable(entries: map<string, string>) | Unreadable

  /** `getLastLine(key)`: `json[key]`, or undefined when the key is missing or
      the file cannot be read or parsed (the error is logged and swallowed). */
  function GetLastLine(store: Store, key: string): (lastLine: Option<string>)
  {
    match store
    case Unreadable => None
    case Readable(entries) => if key in entries then Some(entries[key]) else None
  }

  /** The map after `json[key] = value` and a `JSON.stringify` round trip:
      a property set to undefined is not written, so the key disappears. */
  function Assign(entries: map<string, string>, key: string, value: Option<string>): map<string, string>
  {
    match value
    case None => entries - {key}
    case Some(v) => entries[key := v]
  }

  /** `updateLastLine(key, value)`: read the whole map, set one key, write the
      whole map back. A file that cannot be read or parsed is left as it is. */
  function UpdateLastLine(store: Store, key: string, value: Option<string>): (updated: Store)
    ensures updated.Readable? <==> store.Readable?
    ensures store.Readable? ==> GetLastLine(updated, key) == value
    ensures forall k :: k != key ==> GetLastLine(updated, k) == GetLastLine(store, k)
    ensures store.Readable? && value.None? ==> key !in updated.entries
  {
    match store
    case Unreadable => Unreadable
    case Readable(entries) => Readable(Assign(entries, key, value))
  }

  /** `getLastLine` after `updateLastLine`: the updated key reads back as the
      value written (when the file could be read), every other key as before. */
  lemma ReadAfterWrite(store: Store, key: string, value: Option<string>, k: string)
    ensures GetLastLine(UpdateLastLine(store, key, value), k)
            == (if k == key && store.Readable? then value else GetLastLine(store, k))
  {
  }

  /** Two updates of different keys commute: neither loses the other's value. */
  lemma UpdatesCommute(store: Store, k1: string, v1: Option<string>, k2: string, v2: Option<string>)
    requires k1 != k2
    ensures UpdateLastLine(UpdateLastLine(store, k1, v1), k2, v2)
            == UpdateLastLine(UpdateLastLine(store, k2, v2), k1, v1)
  {
  }

  /** A second update of the same key overrides the first. */
  lemma UpdateOverrides(store: Store, key: string, v1: Option<string>, v2: Option<string>)
    ensures UpdateLastLine(UpdateLastLine(store, key, v1), key, v2) == UpdateLastLine(store, key, v2)
  {
  }
}
