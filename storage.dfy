/** The browser's `localStorage`, seen through `JSON.stringify`/`JSON.parse` of arrays
    of species codes: each key ("checklist", "favs") holds a list of codes. */
module Storage {
  import opened Wrappers

  const ChecklistKey := "checklist"
  const FavsKey := "favs"

  /** One store shared by every screen of the application. */
  class LocalStorage {
    var items: map<string, seq<string>>

    constructor (initial: map<string, seq<string>>)
      ensures items == initial
    {
      items := initial;
    }

    /** `localStorage.getItem(key)`, already decoded; `None` is `null`. */
    function GetItem(key: string): (v: Option<seq<string>>)
      reads this
      ensures v.Some? <==> key in items
      ensures v.Some? ==> v.value == items[key]
    {
      if key in items then Some(items[key]) else None
    }

    /** `localStorage.setItem(key, JSON.stringify(value))`: overwrites one entry. */
    method SetItem(key: string, value: seq<string>)
      modifies this
      ensures items == old(items)[key := value]
    {
      items := items[key := value];
    }
  }

  /** The lazy initial state every screen uses: `saved ? JSON.parse(saved) : []`
      where `saved` is what `localStorage.getItem(key)` returned. */
  function LoadSaved(saved: Option<seq<string>>): (ids: seq<string>)
    ensures saved.Some? ==> ids == saved.value
    ensures saved.None? ==> ids == []
  {
    match saved
    case Some(stored) => stored
    case None => []
  }
}
