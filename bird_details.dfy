/** The details screen of one species: its photo and the "Seen" toggle that adds the
    species to, or removes it from, the stored checklist. */
module BirdDetailsScreen {
  import opened Wrappers
  import opened Sightings
  import opened Storage
  import opened SavedIds
  import opened Images

  class BirdDetails {
    /** The record handed over by the navigation (`location.state`); absent when the
        screen is opened directly by its URL. */
    const bird: Option<Record>
    const store: LocalStorage
    var image: string
    var checklist: seq<string>

    /** The in-memory checklist is what the screen would load from storage. */
    ghost predicate Mirrored()
      reads this, store
    {
      checklist == LoadSaved(store.GetItem(ChecklistKey))
    }

    /** Mounting: no image yet, the checklist read from the "checklist" entry
        (empty when the entry is absent). */
    constructor (bird: Option<Record>, store: LocalStorage)
      ensures this.bird == bird && this.store == store
      ensures image == ""
      ensures checklist == LoadSaved(store.GetItem(ChecklistKey))
      ensures Mirrored()
    {
      this.bird := bird;
      this.store := store;
      image := "";
      checklist := LoadSaved(store.GetItem(ChecklistKey));
    }

    /** The image effect once the search request has settled with `outcome`. Without a
        record the effect returns before requesting anything. */
    method FetchImage(outcome: ImageFetch)
      modifies this`image
      ensures bird.Some? ==> image == ResolveImage(outcome)
      ensures bird.None? ==> image == old(image)
    {
      if bird.Some? {
        image := ResolveImage(outcome);
      }
    }

    /** The `src` of the photo element: never empty. */
    function ImageSource(): (src: string)
      reads this
      ensures src != ""
      ensures image != "" ==> src == image
      ensures image == "" ==> src == NoImageAvailable
    {
      DisplayedImage(image)
    }

    /** Whether the "Seen" box is ticked: while the checklist mirrors storage, exactly
        when the species is in the stored checklist. */
    function IsSeen(): (seen: bool)
      reads this, store
      requires bird.Some?
      ensures Mirrored() ==> (seen <==> bird.value.speciesCode in LoadSaved(store.GetItem(ChecklistKey)))
    {
      bird.value.speciesCode in checklist
    }

    /** `toggleChecklist`: flip the species in the checklist and write the whole list
        back to the "checklist" entry, leaving every other entry alone. The button only
        exists when a record was handed over. */
    method ToggleChecklist()
      requires bird.Some?
      modifies this`checklist, store
      ensures checklist == Toggle(old(checklist), bird.value.speciesCode)
      ensures store.items == old(store.items)[ChecklistKey := checklist]
      ensures IsSeen() == !old(IsSeen())
      ensures Mirrored()
    {
      var updated := Toggle(checklist, bird.value.speciesCode);
      checklist := updated;
      store.SetItem(ChecklistKey, updated);
    }
  }
}
