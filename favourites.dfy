/** The favourites screen: the stored "favs" codes, matched against the recent sightings.
    It only reads storage. */
module FavouritesScreen {
  import opened Sightings
  import opened Storage
  import opened SavedLists

  class Favourites {
    const store: LocalStorage
    /** The codes read at mount, which the once-only fetch effect filters against. */
    const mountedIds: seq<string>
    var savedBirds: SavedBirds

    /** Mounting: the rows are the stored favourites (none when the entry is absent). */
    constructor (store: LocalStorage)
      ensures this.store == store
      ensures mountedIds == LoadSaved(store.GetItem(FavsKey))
      ensures savedBirds == Ids(mountedIds)
    {
      this.store := store;
      mountedIds := LoadSaved(store.GetItem(FavsKey));
      savedBirds := Ids(LoadSaved(store.GetItem(FavsKey)));
    }

    /** The fetch effect once its request settled with `fetched`: the rows become the
        fetched records whose code is a favourite, in fetch order. The request has no
        rejection handler, so a failure changes nothing. Storage is never written. */
    method FetchSightings(fetched: Fetch)
      modifies this`savedBirds
      ensures fetched.Ok? ==> savedBirds == Birds(Reconcile(mountedIds, fetched.records))
      ensures fetched.Ok? ==> forall b :: b in savedBirds.records ==> b.speciesCode in mountedIds
      ensures fetched.Err? ==> savedBirds == old(savedBirds)
      ensures store.items == old(store.items)
    {
      if fetched.Ok? {
        savedBirds := Birds(Reconcile(mountedIds, fetched.records));
      }
    }
  }
}
