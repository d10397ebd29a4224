/** The photo lookup through the image-search service, shared by the details screen
    (`fetchImage`) and the home screen (the bird-of-the-day image). */
module Images {
  import opened Wrappers

  const NoImageAvailable := "https://via.placeholder.com/600x400?text=No+Image+Available"
  const ErrorFetchingImage := "https://via.placeholder.com/600x400?text=Error+Fetching+Image"

  /** The parts of a search response that the lookup reads:
      `results[i].record.default_photo.medium_url`, each level possibly missing. */
  datatype Photo = Photo(mediumUrl: Option<string>)
  datatype Taxon = Taxon(defaultPhoto: Option<Photo>)
  datatype SearchHit = SearchHit(record: Option<Taxon>)

  /** What the search request settles to: a rejection (network failure, body that is not
      JSON), or a decoded body whose `results` array may itself be missing. */
  datatype ImageFetch = ImageErr | ImageOk(results: Option<seq<SearchHit>>)

  /** `results[0]?.record?.default_photo?.medium_url` on an array `results`. */
  function FirstPhotoUrl(results: seq<SearchHit>): (url: Option<string>)
    ensures results == [] ==> url.None?
    ensures results != [] && results[0].record.Some? && results[0].record.value.defaultPhoto.Some? ==>
              url == results[0].record.value.defaultPhoto.value.mediumUrl
    ensures url.Some? ==>
              results[0].record.Some? && results[0].record.value.defaultPhoto.Some?
              && results[0].record.value.defaultPhoto.value.mediumUrl == url
  {
    if results == [] then None
    else match results[0].record
      case None => None
      case Some(taxon) =>
        match taxon.defaultPhoto
        case None => None
        case Some(photo) => photo.mediumUrl
  }

  /** JavaScript truthiness of a string that may be `undefined`. */
  predicate Truthy(url: Option<string>)
  {
    url.Some? && url.value != ""
  }

  /** The image a lookup settles on: the photo when one is present, the "No Image Available"
      placeholder when the response has none, the "Error Fetching Image" placeholder when
      the request fails or the body has no `results` array (indexing it throws). */
  function ResolveImage(f: ImageFetch): (url: string)
    ensures url != ""
    ensures f.ImageErr? || f.results.None? ==> url == ErrorFetchingImage
    ensures f.ImageOk? && f.results.Some? ==>
              var photo := FirstPhotoUrl(f.results.value);
              url == if Truthy(photo) then photo.value else NoImageAvailable
  {
    match f
    case ImageErr => ErrorFetchingImage
    case ImageOk(None) => ErrorFetchingImage
    case ImageOk(Some(results)) =>
      var url := FirstPhotoUrl(results);
      if Truthy(url) then url.value else NoImageAvailable
  }

  /** A successful search with no hits gives the "No Image Available" placeholder. */
  lemma NoHitsGivesPlaceholder()
    ensures ResolveImage(ImageOk(Some([]))) == NoImageAvailable
  {
  }

  /** A first hit whose record has a default photo with a non-empty `medium_url` gives
      that URL as the image. */
  lemma FirstHitPhotoIsImage(hits: seq<SearchHit>, url: string)
    requires hits != [] && hits[0].record == Some(Taxon(Some(Photo(Some(url)))))
    requires url != ""
    ensures ResolveImage(ImageOk(Some(hits))) == url
  {
  }

  /** The caller tells the outcomes apart only by the URL: anything other than the two
      placeholders is the photo of the first hit of a well-formed response. */
  lemma ResolvedIsPhotoOrPlaceholder(f: ImageFetch)
    ensures ResolveImage(f) != NoImageAvailable && ResolveImage(f) != ErrorFetchingImage ==>
              f.ImageOk? && f.results.Some? && FirstPhotoUrl(f.results.value) == Some(ResolveImage(f))
  {
  }

  /** `image || NoImageAvailable`: the source the details screen renders. */
  function DisplayedImage(image: string): (src: string)
    ensures src != ""
    ensures image != "" ==> src == image
    ensures image == "" ==> src == NoImageAvailable
  {
    if image != "" then image else NoImageAvailable
  }
}
