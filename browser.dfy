/** The browser's `localStorage`: a string-to-string store that several
    parts of the client read and write under the same keys. */
module Browser {
  import opened Wrappers

  /** `value` is present and not the empty string, i.e. `getItem(...)`
      is truthy (`null` and `""` are falsy). */
  predicate Truthy(value: Option<string>) {
    value.Some? && value.value != ""
  }

  class LocalStorage {
    var items: map<string, string>

    /** A fresh, empty store. */
    constructor()
      ensures items == map[]
    {
      items := map[];
    }

    /** `localStorage.getItem(key)`: `None` stands for `null`. */
    function GetItem(key: string): (r: Option<string>)
      reads this
      ensures r.Some? <==> key in items
      ensures r.Some? ==> r.value == items[key]
    {
      if key in items then Some(items[key]) else None
    }

    /** `localStorage.setItem(key, value)`. */
    method SetItem(key: string, value: string)
      modifies this
      ensures items == old(items)[key := value]
    {
      items := items[key := value];
    }

    /** `localStorage.removeItem(key)`; removing an absent key changes
        nothing. */
    method RemoveItem(key: string)
      modifies this
      ensures items == old(items) - {key}
    {
      items := items - {key};
    }
  }
}
