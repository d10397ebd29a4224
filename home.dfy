/** The home screen: recent sightings with a search box, a random "bird of the day" with
    its photo, and a favourite toggle per row stored under "favs". */
module HomeScreen {
  import opened Wrappers
  import opened Sightings
  import opened Storage
  import opened SavedIds
  import opened Images
  import opened SightingSearch

  /** `dataObj[index]` for the random `index` drawn below the length, when the list is
      not empty; no bird of the day otherwise. */
  function PickBirdOfTheDay(sightings: seq<Record>, index: nat): (chosen: Option<Record>)
    requires sightings != [] ==> index < |sightings|
    ensures chosen.Some? <==> sightings != []
    ensures chosen.Some? ==> chosen.value in sightings
    ensures |sightings| == 1 ==> chosen == Some(sightings[0])
  {
    if |sightings| > 0 then Some(sightings[index]) else None
  }

  class Home {
    const store: LocalStorage
    var sightings: seq<Record>
    var searchTerm: string
    var favs: seq<string>
    var birdOfTheDay: Option<Record>
    var birdImage: string

    /** Mounting: nothing fetched yet, favourites read from the "favs" entry (empty when
        the entry is absent). */
    constructor (store: LocalStorage)
      ensures this.store == store
      ensures sightings == [] && searchTerm == ""
      ensures favs == LoadSaved(store.GetItem(FavsKey))
      ensures birdOfTheDay == None && birdImage == ""
    {
      this.store := store;
      sightings := [];
      searchTerm := "";
      favs := LoadSaved(store.GetItem(FavsKey));
      birdOfTheDay := None;
      birdImage := "";
    }

    /** The mount effect, once the sightings request settled with `fetched`, `index` is the
        random draw and the photo request for the chosen bird settled with `image`.
        The whole list is shown unfiltered; a bird of the day and its image are set only
        when the list is not empty; a failed request is only logged. */
    method Mount(fetched: Fetch, index: nat, image: ImageFetch)
      requires fetched.Ok? && fetched.records != [] ==> index < |fetched.records|
      modifies this`sightings, this`birdOfTheDay, this`birdImage
      ensures fetched.Err? ==> sightings == old(sightings) && birdOfTheDay == old(birdOfTheDay)
                               && birdImage == old(birdImage)
      ensures fetched.Ok? ==> sightings == fetched.records
      ensures fetched.Ok? && fetched.records == [] ==>
                birdOfTheDay == old(birdOfTheDay) && birdImage == old(birdImage)
      ensures fetched.Ok? && fetched.records != [] ==>
                birdOfTheDay == PickBirdOfTheDay(fetched.records, index)
                && birdOfTheDay.value in sightings
                && birdImage == ResolveImage(image)
    {
      if fetched.Ok? {
        sightings := fetched.records;
        var chosen := PickBirdOfTheDay(fetched.records, index);
        if chosen.Some? {
          birdOfTheDay := chosen;
          birdImage := ResolveImage(image);
        }
      }
    }

    /** Typing in the search box. */
    method SetSearchTerm(term: string)
      modifies this`searchTerm
      ensures searchTerm == term
    {
      searchTerm := term;
    }

    /** `searchBirds`, once its request settled with `fetched`. The callback filters
        with `clickedTerm`, the `searchTerm` of the render whose button was clicked (its
        closure keeps that value even if the box was edited since); the matching
        records replace the list. The request has no rejection handler, so a failure
        leaves the list as it was. */
    method SearchBirds(clickedTerm: string, fetched: Fetch)
      modifies this`sightings
      ensures fetched.Ok? ==> sightings == Search(fetched.records, clickedTerm)
      ensures fetched.Err? ==> sightings == old(sightings)
    {
      if fetched.Ok? {
        sightings := Search(fetched.records, clickedTerm);
      }
    }

    /** `toggleFav(birdID)`: flip the code in the favourites and write the whole list to
        the "favs" entry, leaving every other entry alone. */
    method ToggleFav(birdID: string)
      modifies this`favs, store
      ensures favs == Toggle(old(favs), birdID)
      ensures store.items == old(store.items)[FavsKey := favs]
      ensures birdID in favs <==> birdID !in old(favs)
      ensures LoadSaved(store.GetItem(FavsKey)) == favs
    {
      var filtered := Toggle(favs, birdID);
      store.SetItem(FavsKey, filtered);
      favs := filtered;
    }
  }
}
