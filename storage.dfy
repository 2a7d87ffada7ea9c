/**
 * The browser's `localStorage`: a process-wide store of string values under
 * string keys, updated in place by `setItem` and `removeItem`.
 */
module Storage {
  import opened Wrappers

  /** The value a store holding `items` keeps under `key`; `None` when the key is absent. */
  function Lookup(items: map<string, string>, key: string): (v: Option<string>)
    ensures v.Some? <==> key in items
    ensures v.Some? ==> v.value == items[key]
  {
    if key in items then Some(items[key]) else None
  }

  class LocalStorage {
    var items: map<string, string>

    /** A store holding exactly `initial`, as found when the page loads. */
    constructor (initial: map<string, string>)
      ensures items == initial
    {
      items := initial;
    }

    /** `getItem(key)`: the stored value, or `null` when the key is absent. */
    function GetItem(key: string): (v: Option<string>)
      reads this
      ensures v == Lookup(items, key)
    {
      Lookup(items, key)
    }

    /** `setItem(key, value)`: stores `value` under `key`, replacing any earlier value. */
    method SetItem(key: string, value: string)
      modifies this
      ensures items == old(items)[key := value]
    {
      items := items[key := value];
    }

    /** `removeItem(key)`: drops `key`; does nothing when it is absent. */
    method RemoveItem(key: string)
      modifies this
      ensures items == old(items) - {key}
    {
      items := items - {key};
    }
  }
}
