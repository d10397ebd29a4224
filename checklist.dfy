/** The checklist screen: the stored "checklist" codes, matched against the recent
    sightings, with a button per row that removes the species. */
module ChecklistScreen {
  import opened Sightings
  import opened Storage
  import opened SavedLists

  class Checklist {
    const store: LocalStorage
    /** The codes read at mount. The fetch effect runs once and filters against the
        `savedBirds` of the first render, so it always sees these codes. */
    const mountedIds: seq<string>
    var savedBirds: SavedBirds

    /** Mounting: the rows are the stored codes (none when the entry is absent). */
    constructor (store: LocalStorage)
      ensures this.store == store
      ensures mountedIds == LoadSaved(store.GetItem(ChecklistKey))
      ensures savedBirds == Ids(mountedIds)
    {
      this.store := store;
      mountedIds := LoadSaved(store.GetItem(ChecklistKey));
      savedBirds := Ids(LoadSaved(store.GetItem(ChecklistKey)));
    }

    /** The fetch effect once its request settled with `fetched`: the rows become the
        fetched records whose code was saved, in fetch order; a failure is only logged.
        Storage is not written. */
    method FetchSightings(fetched: Fetch)
      modifies this`savedBirds
      ensures fetched.Ok? ==> savedBirds == Birds(Reconcile(mountedIds, fetched.records))
      ensures fetched.Err? ==> savedBirds == old(savedBirds)
    {
      if fetched.Ok? {
        savedBirds := Birds(Reconcile(mountedIds, fetched.records));
      }
    }

    /** A click on the button of row `row`, which calls `removeFromChecklist` with the
        code shown in that row. The rows are filtered by that code and the codes of the
        remaining rows overwrite the "checklist" entry. While the rows are still the raw
        stored strings, the code passed and every row's code are `undefined`, so the
        filter keeps nothing and the stored checklist is emptied. */
    method RemoveFromChecklist(row: nat)
      requires row < savedBirds.Length()
      modifies this`savedBirds, store
      ensures old(savedBirds).Ids? ==> savedBirds == Birds([])
      ensures old(savedBirds).Ids? ==> store.items == old(store.items)[ChecklistKey := []]
      ensures old(savedBirds).Birds? ==>
                savedBirds == Birds(RemoveCode(old(savedBirds).records, CodeShownAt(old(savedBirds), row).value))
      ensures savedBirds.Birds?
      ensures store.items == old(store.items)[ChecklistKey := Codes(savedBirds.records)]
    {
      var birdID := CodeShownAt(savedBirds, row);
      var updated: seq<Record>;
      match savedBirds {
        case Ids(_) =>
          updated := [];
        case Birds(records) =>
          updated := RemoveCode(records, birdID.value);
      }
      savedBirds := Birds(updated);
      store.SetItem(ChecklistKey, Codes(updated));
    }
  }
}
