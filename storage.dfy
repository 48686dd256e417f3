/**
 * The browser's local storage, one key at a time, as the components use it:
 * a JSON array under a key, read with `getItem` + `JSON.parse` and written
 * with `setItem` + `JSON.stringify`, both inside a `try` that swallows every
 * failure. Serialisation itself is not modelled: a slot holds the parsed array.
 */
module Storage {
  import opened Wrappers

  /** What a key holds: nothing (or an empty string), text that does not parse, or a parsed array. */
  datatype Slot<T> = Absent | Corrupt | Holds(items: seq<T>)

  class Store<T> {
    const key: string
    var slot: Slot<T>

    constructor (key: string, slot: Slot<T>)
      ensures this.key == key && this.slot == slot
    {
      this.key := key;
      this.slot := slot;
    }

    /**
     * Fail-soft read: the stored array when storage can be read and the key
     * holds one, `None` for a missing key, a malformed value or storage that
     * throws.
     */
    function Load(readable: bool): (r: Option<seq<T>>)
      reads this
      ensures r.Some? <==> readable && slot.Holds?
      ensures r.Some? ==> r.value == slot.items
    {
      if readable && slot.Holds? then Some(slot.items) else None
    }

    /**
     * Fail-soft write: a write that storage refuses (quota, disabled storage)
     * leaves the key as it was and is not reported; one that succeeds is read
     * back unchanged.
     */
    method Save(items: seq<T>, writable: bool)
      modifies this
      ensures slot == if writable then Holds(items) else old(slot)
      ensures writable ==> Load(true) == Some(items)
    {
      if writable {
        slot := Holds(items);
      }
    }
  }
}
