# Birding Buddy: the saved-species lists

Birding Buddy is a browser application that lists recent bird sightings around a fixed
point, shows a species' details with a photo found by an image search, and keeps two
personal lists of species codes in the browser's local storage: the checklist ("seen",
key `"checklist"`) and the favourites (key `"favs"`).

This project models the logic of four screen components. The router
(`src/App.jsx:12-14`) mounts only the first three; the favourites screen is a component
the router never shows, modelled because it holds a second copy of the list matching:

- **Details** (`BirdDetailsScreen`): the checklist read at mount, the "Seen" toggle that
  flips the species in the checklist and writes the list back, and the photo lookup with
  its two placeholders.
- **Home** (`HomeScreen`): the case-insensitive search over common names, the favourite
  toggle written to `"favs"`, and the mount effect that shows every fetched sighting and
  picks a bird of the day with its photo.
- **Checklist** (`ChecklistScreen`): the stored codes matched against the fetched
  sightings, and the per-row removal that rewrites storage from what is displayed.
- **Favourites** (`FavouritesScreen`): the stored favourites matched against the fetched
  sightings; storage is only read. No route leads to it.

Shared logic sits in its own modules: `Seqs` (the array `filter` and the notions of
subsequence, multiplicity and distinctness), `Sightings` (the sighting record and the
outcome of a request), `Storage` (local storage as a map from key to list of codes, held
by one `LocalStorage` object that all screens share), `SavedIds` (the toggle),
`SightingSearch`, `Images` and `SavedLists` (the matching and the removal).

Network requests are not performed: each request is a parameter holding what it settled
to (`Fetch`, `ImageFetch`), and the random draw of the bird of the day is a parameter
below the list length. Each asynchronous continuation is one method call.

Behaviour the model captures that the code has and a reader might not expect:

- A removal on the checklist screen writes back the codes of the rows still displayed, so
  a saved code whose species is absent from the latest fetch is erased from storage
  (`SavedLists.RemovalErasesUnfetched`).
- The fetch effects of the checklist and favourites screens run once and filter against
  the `savedBirds` of the first render, that is, the codes read at mount (`mountedIds`).
- Until the fetch settles, the checklist rows are the raw stored strings. Their button
  passes `bird.speciesCode`, which is `undefined` for a string, and the filter then keeps
  nothing: one click empties the stored checklist
  (`ChecklistScreen.Checklist.RemoveFromChecklist`).
- A failed sighting request never empties a list: every screen only logs it or has no
  rejection handler, and its state stays as it was.

A reader might expect stored text that is not JSON to be read as an empty list; the code
instead throws at mount. A reader might expect a failed sighting request to show an
empty list; the code instead leaves the state as it was. A reader might expect the saved
codes to be unique; the code does not enforce it (the toggle preserves distinctness, but
nothing establishes it).

## Model

| member | source | states |
|---|---|---|
| `Seqs.Filter` | src/components/Checklist.jsx:22-24 | `filter` keeps an element exactly when it is in the input and passes the test, and never lengthens the list |
| `Sightings.Codes` | src/components/Checklist.jsx:37 | the mapped list has one code per record, the i-th record's code at position i |
| `Sightings.CodesMembership` | src/components/Checklist.jsx:37 | a code is in the mapped list exactly when some record carries it |
| `Storage.LocalStorage.GetItem` | src/components/BirdDetails.jsx:17 | `null` exactly when the key is absent, otherwise the stored list |
| `Storage.LocalStorage.SetItem` | src/components/BirdDetails.jsx:72 | the key is overwritten with the value and no other key changes |
| `Storage.LoadSaved` | src/components/BirdDetails.jsx:15-19 | the initial list is the stored list when `getItem` returned one, or empty when it returned `null` |
| `SavedIds.Toggle` | src/components/BirdDetails.jsx:61-69 | membership of the toggled code flips; every other code keeps its membership |
| `SavedIds.ToggleAppends` | src/components/BirdDetails.jsx:67-68 | an absent code is appended at the end; the earlier entries are unchanged and in order |
| `SavedIds.ToggleRemoves` | src/components/BirdDetails.jsx:65-66 | a present code loses every occurrence; the result is a subsequence of the list, strictly shorter, and every other code keeps its number of occurrences |
| `SavedIds.ToggleTwiceRestores` | src/components/BirdDetails.jsx:61-73 | toggling an absent code twice gives back exactly the original list |
| `SavedIds.ToggleTwiceMovesToEnd` | src/components/BirdDetails.jsx:61-73 | toggling a present code twice gives back the same codes, with that code moved to the end |
| `SavedIds.ToggleKeepsDistinct` | src/components/Home.jsx:29-36 | a list without duplicate codes stays without duplicates after a toggle |
| `Images.ResolveImage` | src/components/BirdDetails.jsx:39-55 | a truthy first-hit photo URL is the image; a response without one gives "No Image Available"; a failed request or a body whose `results` is missing or `null` (indexing it throws) gives "Error Fetching Image"; never empty |
| `Images.FirstPhotoUrl` | src/components/BirdDetails.jsx:39 | no hits give `undefined`; when the first hit has a record with a default photo, the result is that photo's `medium_url`; and a URL is found only in that case |
| `Images.FirstHitPhotoIsImage` | src/components/BirdDetails.jsx:39-42 | a first hit whose record has a default photo with a non-empty `medium_url` gives that URL as the image |
| `Images.NoHitsGivesPlaceholder` | src/components/BirdDetails.jsx:39-47 | a successful search with no hits gives the "No Image Available" placeholder |
| `Images.ResolvedIsPhotoOrPlaceholder` | src/components/BirdDetails.jsx:39-55 | an image other than the two placeholders is the first hit's photo of a well-formed response |
| `Images.DisplayedImage` | src/components/BirdDetails.jsx:131 | the rendered source is never empty: the image state when set, else "No Image Available" |
| `SightingSearch.LowerStr` | src/components/Home.jsx:23 | lowering keeps the length and lowers each character |
| `SightingSearch.Contains` | src/components/Home.jsx:23 | `includes` finds a prefix occurrence, and finds nothing in a string shorter than the term |
| `SightingSearch.ContainsIffOccurs` | src/components/Home.jsx:23 | `includes` holds exactly when the term occurs as a contiguous block of the name |
| `SightingSearch.Search` | src/components/Home.jsx:22-24 | a record is kept exactly when it was fetched and its lowered name contains the lowered term |
| `SightingSearch.SearchKeepsMatchesInOrder` | src/components/Home.jsx:22-25 | the result is a subsequence of the fetched list holding each matching record as often as fetched and no other |
| `SightingSearch.EmptyTermKeepsAll` | src/components/Home.jsx:22-24 | an empty term keeps every fetched record, in order |
| `SightingSearch.SearchIgnoresCase` | src/components/Home.jsx:23 | terms that differ only in letter case give identical results |
| `SightingSearch.RobinExample` | src/components/Home.jsx:23 | "ROBIN" and "robin" find the same records |
| `SavedLists.Reconcile` | src/components/Checklist.jsx:22-24 | a record is displayed exactly when it was fetched and its code is saved; no longer than the fetch; empty when nothing is saved |
| `SavedLists.ReconcileKeepsFetchOrder` | src/components/Favourites.jsx:18-20 | the displayed list is a subsequence of the fetch holding each saved-code record as often as fetched and no other |
| `SavedLists.UnfetchedNotShown` | src/components/Checklist.jsx:22-24 | a code is displayed exactly when it is saved and some fetched record carries it; a saved code without a fetched record is not displayed |
| `SavedLists.ReconcileExample` | src/components/Favourites.jsx:18-20 | saved "amerob", "blujay" and fetched "amerob", "cangoo" display exactly the "amerob" record |
| `SavedLists.RemoveCode` | src/components/Checklist.jsx:34 | a record stays exactly when it was displayed and does not carry the removed code |
| `SavedLists.RemoveKeepsOthersInOrder` | src/components/Checklist.jsx:34 | the removed code is gone; the rest is a subsequence with every other record as often as before |
| `SavedLists.RemoveAbsentCodeIsNoOp` | src/components/Checklist.jsx:34 | removing a code that is not displayed leaves the list unchanged |
| `SavedLists.RemovalErasesUnfetched` | src/components/Checklist.jsx:22-37 | a saved code absent from the fetch is not among the codes written back by a removal |
| `SavedLists.CodeShownAt` | src/components/Checklist.jsx:61-78 | a row's code is `undefined` exactly while the rows are the raw stored strings, and otherwise the `speciesCode` of that row's record |
| `BirdDetailsScreen.BirdDetails.constructor` | src/components/BirdDetails.jsx:10-19 | at mount the image is empty and the checklist is the stored "checklist" list or empty |
| `BirdDetailsScreen.BirdDetails.FetchImage` | src/components/BirdDetails.jsx:21-59 | with a record the image becomes the resolved image; without one nothing is requested or changed |
| `BirdDetailsScreen.BirdDetails.ImageSource` | src/components/BirdDetails.jsx:130-131 | the photo element's source is never empty: the image state once set, the "No Image Available" placeholder before |
| `BirdDetailsScreen.BirdDetails.IsSeen` | src/components/BirdDetails.jsx:121-122 | while the checklist mirrors storage, the box is ticked exactly when the species is in the stored checklist |
| `BirdDetailsScreen.BirdDetails.ToggleChecklist` | src/components/BirdDetails.jsx:61-73 | the checklist becomes the toggled list, the "checklist" entry holds the same list, no other entry changes, and the "Seen" state flips |
| `HomeScreen.PickBirdOfTheDay` | src/components/Home.jsx:51-53 | a bird exists exactly when the list is non-empty, it is an element of the list, and a one-element list gives that element |
| `HomeScreen.Home.constructor` | src/components/Home.jsx:5-12 | at mount nothing is listed or chosen, the term is empty and the favourites are the stored "favs" list or empty |
| `HomeScreen.Home.Mount` | src/components/Home.jsx:42-69 | a successful fetch shows the full list unfiltered; a bird of the day, an element of it, and its resolved image are set only when it is non-empty; a failure changes nothing |
| `HomeScreen.Home.SetSearchTerm` | src/components/Home.jsx:101 | the term becomes the typed text |
| `HomeScreen.Home.SearchBirds` | src/components/Home.jsx:14-27 | a successful fetch lists the records matching the term captured when the button was clicked; a failure leaves the list as it was |
| `HomeScreen.Home.ToggleFav` | src/components/Home.jsx:29-40 | the favourites become the toggled list, the id's membership flips, and the "favs" entry holds the same list with no other entry changed |
| `ChecklistScreen.Checklist.constructor` | src/components/Checklist.jsx:7-11 | at mount the rows are the stored "checklist" codes or none |
| `ChecklistScreen.Checklist.FetchSightings` | src/components/Checklist.jsx:13-30 | a successful fetch displays the fetched records whose code was saved at mount, in fetch order; a failure leaves the rows unchanged |
| `ChecklistScreen.Checklist.RemoveFromChecklist` | src/components/Checklist.jsx:32-38 | the row's code is filtered out of the displayed records (everything goes while the rows are raw codes) and the "checklist" entry becomes the codes of the remaining rows, in order |
| `FavouritesScreen.Favourites.constructor` | src/components/Favourites.jsx:5-8 | at mount the rows are the stored "favs" codes or none |
| `FavouritesScreen.Favourites.FetchSightings` | src/components/Favourites.jsx:10-24 | a successful fetch displays the fetched records whose code is a favourite, each one's code saved, in fetch order; a failure changes nothing; storage is untouched |

## Left out

- Network requests (the sighting and image-search services, their headers, URL encoding
  and promise chains): each request is a parameter holding what it settled to.
- `JSON.parse`/`JSON.stringify`: storage holds decoded lists of codes. Stored text that is
  not JSON throws at mount; other JSON shapes (numbers, objects) are not modelled.
- `Math.random()`: the bird of the day is chosen by an index parameter below the list
  length; its uniform distribution is not modelled.
- `SightingSearch.LowerStr`: lowers the ASCII letters only; `toLowerCase` on other
  Unicode letters is a library call not modelled.
- The coordinates `lat`/`lng`, their `toFixed(3)` formatting and the map link are
  floating point and presentation.
- Rendering, icons, CSS classes, the routing of `App.jsx` and the colour palette of
  `tailwind.config.js`; the hook called after the early return on the details screen is a
  rendering-layer defect with no effect on the state modelled here.
- Overlapping requests (a search issued while the mount request is pending, or a photo
  arriving after a later request) are not interleaved: each settlement is applied as one
  call, in the order the caller chooses.
- The bird-of-the-day photo request settles within `HomeScreen.Home.Mount` rather than as
  a separate later step, since nothing else writes `birdImage`.
- The details screen's effect re-running when a different record is navigated to: the
  record is fixed per mounted screen.
