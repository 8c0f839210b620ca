// The movie document of the catalogue and streaming services (collection
// "movies"): the columns an editor's request sets, the media columns only
// the importer writes, the playback servers with their episodes, and the
// collection itself with its unique slug.

module Movies {
  import opened Common

  datatype AccessType = FREE | PREMIUM | RENTAL
  datatype Source = OPHIM | MANUAL

  /** An embedded genre or country reference. */
  datatype Ref = Ref(id: Option<string>, name: Option<string>, slug: Option<string>)

  /** One episode of one playback server: its embed and HLS links. */
  datatype ServerDataItem = ServerDataItem(
    name: Option<string>,
    slug: Option<string>,
    filename: Option<string>,
    linkEmbed: Option<string>,
    linkM3u8: Option<string>)

  /** A playback server ("Vietsub #1", ...) with its episodes in order. */
  datatype Episode = Episode(
    serverName: Option<string>,
    isAi: Option<bool>,
    serverData: Option<seq<ServerDataItem>>)

  /** The descriptive columns that an editor's request overwrites as a whole.
    * The slug is the movie's unique handle; everything else may be null. */
  datatype Listing = Listing(
    name: Option<string>,
    originName: Option<string>,
    slug: string,
    content: Option<string>,
    posterUrl: Option<string>,
    thumbUrl: Option<string>,
    trailerUrl: Option<string>,
    movieType: Option<string>,
    status: Option<string>,
    quality: Option<string>,
    lang: Option<string>,
    year: Option<int>,
    time: Option<string>,
    episodeCurrent: Option<string>,
    episodeTotal: Option<string>)

  /** The columns only the importer and the admin tools write. */
  datatype Media = Media(
    externalId: Option<string>,
    langKey: Option<seq<string>>,
    category: Option<seq<Ref>>,
    country: Option<seq<Ref>>,
    alternativeNames: Option<seq<string>>,
    actor: Option<seq<string>>,
    director: Option<seq<string>>,
    subDocquyen: Option<bool>,
    chieuRap: Option<bool>,
    episodes: Option<seq<Episode>>,
    customHlsUrl: Option<string>,
    customHlsSource: Option<string>)

  /** A stored movie, without its id (the collection's key). Prices are
    * exact decimals; time is in seconds. */
  datatype Movie = Movie(
    listing: Listing,
    view: Option<nat>,
    price: Option<real>,
    accessType: Option<AccessType>,
    source: Option<Source>,
    media: Media,
    createdAt: Option<nat>,
    updatedAt: Option<nat>)

  const NoMedia: Media := Media(None, None, None, None, None, None, None, None, None, None, None, None)

  /** `new Movie()` followed by the listing columns: the builder defaults give
    * view 0, price 0, access FREE, source OPHIM and createdAt now. */
  function NewMovie(listing: Listing, now: nat): (m: Movie)
    ensures m.listing == listing && m.media == NoMedia && m.updatedAt == None
    ensures m.view == Some(0) && m.price == Some(0.0) && m.accessType == Some(FREE)
    ensures m.source == Some(OPHIM) && m.createdAt == Some(now)
  {
    Movie(listing, Some(0), Some(0.0), Some(FREE), Some(OPHIM), NoMedia, Some(now), None)
  }

  /** The episodes list, a null one read as empty. */
  function EpisodesOf(m: Movie): (r: seq<Episode>)
    ensures m.media.episodes.Some? ==> r == m.media.episodes.value
    ensures m.media.episodes.None? ==> r == []
  {
    m.media.episodes.GetOr([])
  }

  /** A not-found error naming the resource, the field looked up and the
    * value (ResourceNotFoundException). */
  datatype MovieError =
    | NotFound(resource: string, field: string, value: string)
    | BadRequest(message: string)

  function SlugTaken(slug: string): (r: string)
    ensures StartsWith(r, "Movie with slug '")
  {
    assert ("Movie with slug '" + slug + "' already exists")[..17] == "Movie with slug '";
    "Movie with slug '" + slug + "' already exists"
  }

  /** A case-insensitive literal substring test. */
  predicate ContainsIgnoreCase(t: string, k: string)
  {
    ContainsSub(ToLower(t), ToLower(k))
  }

  /** The keyword occurs in the name or in the original name. */
  predicate NameMatches(l: Listing, keyword: string)
  {
    (l.name.Some? && ContainsIgnoreCase(l.name.value, keyword))
    || (l.originName.Some? && ContainsIgnoreCase(l.originName.value, keyword))
  }

  /** Null, or empty once trimmed (`s == null || s.trim().isEmpty()`). */
  predicate NullOrTrimEmpty(keyword: Option<string>)
  {
    keyword.None? || Trim(keyword.value) == []
  }

  type Docs = map<string, Movie>

  /** The unique index on `slug`. */
  predicate SlugsUnique(docs: Docs)
  {
    forall a, b :: a in docs && b in docs && docs[a].listing.slug == docs[b].listing.slug ==> a == b
  }

  predicate ExistsBySlug(docs: Docs, slug: string)
  {
    exists k :: k in docs && docs[k].listing.slug == slug
  }

  /** `findBySlug`: the id of the one document with this slug. */
  function FindBySlug(docs: Docs, slug: string): (r: Option<string>)
    requires SlugsUnique(docs)
    ensures r.Some? <==> ExistsBySlug(docs, slug)
    ensures r.Some? ==> r.value in docs && docs[r.value].listing.slug == slug
  {
    if ExistsBySlug(docs, slug) then
      var k :| k in docs && docs[k].listing.slug == slug; Some(k)
    else None
  }

  /** Replacing a document keeps slugs unique when the new slug is its old
    * one or belongs to no document. */
  lemma ReplaceKeepsSlugsUnique(docs: Docs, id: string, m: Movie)
    requires SlugsUnique(docs)
    requires id in docs ==> m.listing.slug == docs[id].listing.slug || !ExistsBySlug(docs, m.listing.slug)
    requires id !in docs ==> !ExistsBySlug(docs, m.listing.slug)
    ensures SlugsUnique(docs[id := m])
  {
  }

  /** The movie collection. */
  class MovieCollection {
    var docs: Docs

    predicate Valid()
      reads this
    {
      SlugsUnique(docs)
    }

    constructor ()
      ensures Valid() && docs == map[]
    {
      docs := map[];
    }

    /** `save`: insert or replace the document under `id`. */
    method Save(id: string, m: Movie)
      modifies this
      ensures docs == old(docs)[id := m]
    {
      docs := docs[id := m];
    }

    /** `deleteById`. */
    method DeleteById(id: string)
      modifies this
      ensures docs == old(docs) - {id}
    {
      docs := docs - {id};
    }
  }
}
