// The one-off importer that copies movies from the OPhim catalogue into the
// movie collection: image URLs made absolute, defaults for missing values,
// detail-only fields, and an upsert rule that never lets a list import
// replace the episodes of a detail import.

module OPhimImport {
  import opened Common
  import Movies

  const CdnImage: string := "https://img.ophim.live"

  /** The JavaScript truthiness of an optional string: null, undefined and
    * "" are falsy. */
  predicate Truthy(s: Option<string>)
  {
    s.Some? && s.value != []
  }

  /** `buildFullImageUrl`. */
  function BuildFullImageUrl(path: Option<string>): (r: Option<string>)
    ensures !Truthy(path) <==> r.None?
    ensures Truthy(path) && StartsWith(path.value, "http") ==> r == path
    ensures Truthy(path) && !StartsWith(path.value, "http") ==>
      r == Some(CdnImage + "/uploads/movies/" + path.value)
  {
    if !Truthy(path) then None
    else if StartsWith(path.value, "http") then path
    else Some(CdnImage + "/uploads/movies/" + path.value)
  }

  /** An absolute URL comes back as it was, so making a URL absolute twice
    * is the same as once. */
  lemma FullImageUrlIdempotent(path: Option<string>)
    ensures BuildFullImageUrl(BuildFullImageUrl(path)) == BuildFullImageUrl(path)
  {
    if Truthy(path) && !StartsWith(path.value, "http") {
      var full := CdnImage + "/uploads/movies/" + path.value;
      assert full[..4] == "http";
    }
  }

  // ---------------------------------------------------------------------
  // The OPhim side

  datatype OPhimRef = OPhimRef(id: Option<string>, name: Option<string>, slug: Option<string>)

  datatype OPhimServerItem = OPhimServerItem(
    name: Option<string>,
    slug: Option<string>,
    filename: Option<string>,
    linkEmbed: Option<string>,
    linkM3u8: Option<string>)

  datatype OPhimEpisode = OPhimEpisode(
    serverName: Option<string>,
    isAi: Option<bool>,
    serverData: Option<seq<OPhimServerItem>>)

  /** A rating block; the vote average is only passed through. */
  datatype Rating = Rating(kind: Option<string>, id: Option<string>, season: Option<int>,
                           voteAverage: Option<real>, voteCount: Option<int>)

  /** A movie as the OPhim API returns it; the detail endpoint fills the
    * second group of fields. */
  datatype OPhimMovie = OPhimMovie(
    externalId: Option<string>,
    name: Option<string>,
    slug: string,
    originName: Option<string>,
    movieType: Option<string>,
    thumbUrl: Option<string>,
    posterUrl: Option<string>,
    year: Option<int>,
    quality: Option<string>,
    lang: Option<string>,
    langKey: Option<seq<string>>,
    time: Option<string>,
    episodeCurrent: Option<string>,
    episodeTotal: Option<string>,
    subDocquyen: Option<bool>,
    chieuRap: Option<bool>,
    category: Option<seq<OPhimRef>>,
    country: Option<seq<OPhimRef>>,
    tmdb: Option<Rating>,
    imdb: Option<Rating>,
    modifiedTime: Option<nat>,
    // detail fields
    content: Option<string>,
    status: Option<string>,
    trailerUrl: Option<string>,
    actor: Option<seq<string>>,
    director: Option<seq<string>>,
    alternativeNames: Option<seq<string>>,
    view: Option<int>,
    isCopyright: Option<bool>,
    notify: Option<string>,
    showtimes: Option<string>,
    episodes: Option<seq<OPhimEpisode>>)

  // ---------------------------------------------------------------------
  // Our side

  /** The fields every import writes. */
  datatype BasicFields = BasicFields(
    externalId: Option<string>,
    name: Option<string>,
    slug: string,
    originName: Option<string>,
    movieType: Option<string>,
    thumbUrl: Option<string>,
    posterUrl: Option<string>,
    year: Option<int>,
    quality: Option<string>,
    lang: Option<string>,
    langKey: seq<string>,
    time: Option<string>,
    episodeCurrent: Option<string>,
    episodeTotal: Option<string>,
    subDocquyen: bool,
    chieuRap: bool,
    category: seq<Movies.Ref>,
    country: seq<Movies.Ref>,
    tmdb: Option<Rating>,
    imdb: Option<Rating>,
    source: string,
    accessType: string,
    importedAt: nat,
    modifiedAt: nat)

  /** The fields only a detail import writes. */
  datatype DetailFields = DetailFields(
    content: Option<string>,
    status: Option<string>,
    trailerUrl: Option<string>,
    actor: seq<string>,
    director: seq<string>,
    alternativeNames: seq<string>,
    view: Option<int>,
    isCopyright: bool,
    notify: Option<string>,
    showtimes: Option<string>,
    episodes: seq<Movies.Episode>)

  /** A mapped movie: its basic fields and, from the detail endpoint, the
    * detail fields. */
  datatype Mapped = Mapped(basic: BasicFields, detail: Option<DetailFields>)

  /** JavaScript's `x || false` on an optional boolean. */
  function OrFalse(b: Option<bool>): (r: bool)
    ensures r <==> b == Some(true)
  {
    b.Some? && b.value
  }

  function OrEmpty<T>(s: Option<seq<T>>): (r: seq<T>)
    ensures s.None? ==> r == []
    ensures s.Some? ==> r == s.value
  {
    if s.Some? then s.value else []
  }

  function MapRef(c: OPhimRef): (r: Movies.Ref)
    ensures r.id == c.id && r.name == c.name && r.slug == c.slug
  {
    Movies.Ref(c.id, c.name, c.slug)
  }

  /** A list of references, a null one read as empty, element by element. */
  function MapRefs(cs: Option<seq<OPhimRef>>): (r: seq<Movies.Ref>)
    ensures |r| == |OrEmpty(cs)|
    ensures forall i :: 0 <= i < |r| ==> r[i] == MapRef(OrEmpty(cs)[i])
  {
    var s := OrEmpty(cs);
    seq(|s|, i requires 0 <= i < |s| => MapRef(s[i]))
  }

  function MapItem(sd: OPhimServerItem): (r: Movies.ServerDataItem)
    ensures r.linkEmbed == sd.linkEmbed && r.linkM3u8 == sd.linkM3u8
    ensures r.name == sd.name && r.slug == sd.slug && r.filename == sd.filename
  {
    Movies.ServerDataItem(sd.name, sd.slug, sd.filename, sd.linkEmbed, sd.linkM3u8)
  }

  /** One server: `isAi` defaults to false, a null episode list to empty,
    * and the episodes keep their order. */
  function MapEpisode(ep: OPhimEpisode): (r: Movies.Episode)
    ensures r.serverName == ep.serverName && r.isAi == Some(OrFalse(ep.isAi))
    ensures r.serverData.Some? && |r.serverData.value| == |OrEmpty(ep.serverData)|
    ensures forall j :: 0 <= j < |r.serverData.value| ==> r.serverData.value[j] == MapItem(OrEmpty(ep.serverData)[j])
  {
    var items := OrEmpty(ep.serverData);
    Movies.Episode(ep.serverName, Some(OrFalse(ep.isAi)),
                   Some(seq(|items|, j requires 0 <= j < |items| => MapItem(items[j]))))
  }

  function MapEpisodes(eps: Option<seq<OPhimEpisode>>): (r: seq<Movies.Episode>)
    ensures |r| == |OrEmpty(eps)|
    ensures forall i :: 0 <= i < |r| ==> r[i] == MapEpisode(OrEmpty(eps)[i])
  {
    var s := OrEmpty(eps);
    seq(|s|, i requires 0 <= i < |s| => MapEpisode(s[i]))
  }

  /** `mapMovieFromOPhim(o, isDetailView)` at time `now`. */
  function MapMovieFromOPhim(o: OPhimMovie, isDetailView: bool, now: nat): (m: Mapped)
    ensures m.basic.slug == o.slug && m.basic.name == o.name
    ensures m.basic.langKey == OrEmpty(o.langKey)
    ensures m.basic.subDocquyen == OrFalse(o.subDocquyen) && m.basic.chieuRap == OrFalse(o.chieuRap)
    ensures m.basic.category == MapRefs(o.category) && m.basic.country == MapRefs(o.country)
    ensures m.basic.tmdb == o.tmdb && m.basic.imdb == o.imdb
    ensures m.basic.source == "OPHIM" && m.basic.accessType == "FREE"
    ensures m.basic.thumbUrl == BuildFullImageUrl(o.thumbUrl) && m.basic.posterUrl == BuildFullImageUrl(o.posterUrl)
    ensures m.basic.importedAt == now && m.basic.modifiedAt == o.modifiedTime.GetOr(now)
    ensures m.detail.Some? <==> isDetailView
    ensures isDetailView ==> m.detail.value.episodes == MapEpisodes(o.episodes)
  {
    var basic := BasicFields(
      o.externalId, o.name, o.slug, o.originName, o.movieType,
      BuildFullImageUrl(o.thumbUrl), BuildFullImageUrl(o.posterUrl),
      o.year, o.quality, o.lang, OrEmpty(o.langKey), o.time, o.episodeCurrent, o.episodeTotal,
      OrFalse(o.subDocquyen), OrFalse(o.chieuRap), MapRefs(o.category), MapRefs(o.country),
      o.tmdb, o.imdb, "OPHIM", "FREE", now,
      if o.modifiedTime.Some? then o.modifiedTime.value else now);
    if isDetailView then
      Mapped(basic, Some(DetailFields(
        o.content, o.status, o.trailerUrl, OrEmpty(o.actor), OrEmpty(o.director),
        OrEmpty(o.alternativeNames), o.view, OrFalse(o.isCopyright), o.notify, o.showtimes,
        MapEpisodes(o.episodes))))
    else Mapped(basic, None)
  }

  /** The detail mapping differs from the list mapping only by adding the
    * detail fields. */
  lemma DetailExtendsBasic(o: OPhimMovie, now: nat)
    ensures MapMovieFromOPhim(o, true, now).basic == MapMovieFromOPhim(o, false, now).basic
  {
  }

  /** The imported episodes play through the streaming service in their
    * OPhim order, server by server and episode by episode. */
  lemma ImportedEpisodesKeepOrder(o: OPhimMovie, now: nat, i: nat, j: nat)
    requires i < |OrEmpty(o.episodes)| && j < |OrEmpty(OrEmpty(o.episodes)[i].serverData)|
    ensures var eps := MapMovieFromOPhim(o, true, now).detail.value.episodes;
      i < |eps| && eps[i].serverData.Some? && j < |eps[i].serverData.value|
      && eps[i].serverData.value[j].linkM3u8 == OrEmpty(OrEmpty(o.episodes)[i].serverData)[j].linkM3u8
      && eps[i].isAi == Some(OrFalse(OrEmpty(o.episodes)[i].isAi))
  {
  }

  // ---------------------------------------------------------------------
  // The collection side

  /** A stored document: the basic fields and whatever detail fields a
    * detail import wrote. */
  datatype StoredDoc = StoredDoc(basic: BasicFields, detail: Option<DetailFields>)

  /** `$set` of a mapped movie with `upsert`: the mapped fields replace the
    * stored ones, fields it does not carry are kept. */
  function SetFields(existing: Option<StoredDoc>, m: Mapped): (d: StoredDoc)
    ensures d.basic == m.basic
    ensures m.detail.Some? ==> d.detail == m.detail
    ensures m.detail.None? ==> d.detail == if existing.Some? then existing.value.detail else None
  {
    StoredDoc(m.basic, if m.detail.Some? then m.detail else if existing.Some? then existing.value.detail else None)
  }

  /** The document holds episodes (`existing.episodes.length > 0`). */
  predicate HasEpisodes(d: StoredDoc)
  {
    d.detail.Some? && |d.detail.value.episodes| > 0
  }

  /** The list import writes a movie only when there is no document yet or
    * the document holds no episodes. */
  predicate ListImportWrites(docs: map<string, StoredDoc>, slug: string)
  {
    slug !in docs || !HasEpisodes(docs[slug])
  }

  /** One step of the list import. */
  function ListStep(docs: map<string, StoredDoc>, o: OPhimMovie, now: nat): map<string, StoredDoc>
  {
    var m := MapMovieFromOPhim(o, false, now);
    if ListImportWrites(docs, m.basic.slug) then
      docs[m.basic.slug := SetFields(if m.basic.slug in docs then Some(docs[m.basic.slug]) else None, m)]
    else docs
  }

  /** The documents after importing `movies` from a list, in order. */
  function ListImport(docs: map<string, StoredDoc>, movies: seq<OPhimMovie>, now: nat): map<string, StoredDoc>
    decreases |movies|
  {
    if movies == [] then docs
    else ListImport(ListStep(docs, movies[0], now), movies[1..], now)
  }

  /** The number of movies the list import writes. */
  function ListImportCount(docs: map<string, StoredDoc>, movies: seq<OPhimMovie>, now: nat): nat
    decreases |movies|
  {
    if movies == [] then 0
    else
      (if ListImportWrites(docs, movies[0].slug) then 1 else 0)
      + ListImportCount(ListStep(docs, movies[0], now), movies[1..], now)
  }

  /** A document that holds episodes is left exactly as it was by a list
    * import, however many of the listed movies share its slug. */
  lemma {:induction false} ListImportKeepsDetailImports(docs: map<string, StoredDoc>, movies: seq<OPhimMovie>, now: nat, slug: string)
    requires slug in docs && HasEpisodes(docs[slug])
    ensures slug in ListImport(docs, movies, now) && ListImport(docs, movies, now)[slug] == docs[slug]
    decreases |movies|
  {
    if movies != [] {
      var next := ListStep(docs, movies[0], now);
      assert slug in next && next[slug] == docs[slug];
      ListImportKeepsDetailImports(next, movies[1..], now, slug);
    }
  }

  /** Every listed movie has a document afterwards, and no document is lost. */
  lemma {:induction false} ListImportCoversList(docs: map<string, StoredDoc>, movies: seq<OPhimMovie>, now: nat)
    ensures docs.Keys <= ListImport(docs, movies, now).Keys
    ensures forall i :: 0 <= i < |movies| ==> movies[i].slug in ListImport(docs, movies, now)
    decreases |movies|
  {
    if movies != [] {
      var next := ListStep(docs, movies[0], now);
      ListImportCoversList(next, movies[1..], now);
      forall i | 0 <= i < |movies|
        ensures movies[i].slug in ListImport(docs, movies, now)
      {
        if i > 0 { assert movies[i] == movies[1..][i - 1]; }
      }
    }
  }

  /** The count never exceeds the list, and it is the whole list when no
    * document holds episodes beforehand (repeated slugs included: a repeat
    * finds the earlier import, which has no episodes either). */
  lemma {:induction false} ListImportCountBounds(docs: map<string, StoredDoc>, movies: seq<OPhimMovie>, now: nat)
    ensures ListImportCount(docs, movies, now) <= |movies|
    ensures (forall s :: s in docs ==> !HasEpisodes(docs[s])) ==> ListImportCount(docs, movies, now) == |movies|
    decreases |movies|
  {
    if movies != [] {
      var next := ListStep(docs, movies[0], now);
      ListImportCountBounds(next, movies[1..], now);
      if forall s :: s in docs ==> !HasEpisodes(docs[s]) {
        forall s | s in next
          ensures !HasEpisodes(next[s])
        {
        }
      }
    }
  }

  /** The movie collection as the importer sees it, keyed by slug. */
  class MovieImporter {
    var docs: map<string, StoredDoc>

    constructor (docs: map<string, StoredDoc>)
      ensures this.docs == docs
    {
      this.docs := docs;
    }

    /** `importMoviesFromList`: upserts the movies one by one and answers how
      * many it wrote. */
    method ImportMoviesFromList(movies: seq<OPhimMovie>, now: nat) returns (imported: nat)
      modifies this
      ensures docs == ListImport(old(docs), movies, now)
      ensures imported == ListImportCount(old(docs), movies, now)
    {
      imported := 0;
      var i := 0;
      while i < |movies|
        invariant 0 <= i <= |movies|
        invariant ListImport(docs, movies[i..], now) == ListImport(old(docs), movies, now)
        invariant imported + ListImportCount(docs, movies[i..], now) == ListImportCount(old(docs), movies, now)
      {
        var m := MapMovieFromOPhim(movies[i], false, now);
        var existing: Option<StoredDoc> := if m.basic.slug in docs then Some(docs[m.basic.slug]) else None;
        assert movies[i..][0] == movies[i] && movies[i..][1..] == movies[i + 1..];
        if existing.None? || existing.value.detail.None? || |existing.value.detail.value.episodes| == 0 {
          docs := docs[m.basic.slug := SetFields(existing, m)];
          imported := imported + 1;
        }
        i := i + 1;
      }
    }

    /** `importMovieBySlug`: a failed fetch changes nothing; otherwise the
      * detail mapping is upserted under its slug. */
    method ImportMovieBySlug(fetched: Option<OPhimMovie>, now: nat) returns (r: Option<Mapped>)
      modifies this
      ensures fetched.None? ==> r.None? && docs == old(docs)
      ensures fetched.Some? ==>
        var m := MapMovieFromOPhim(fetched.value, true, now);
        r == Some(m) && docs == old(docs)[m.basic.slug := StoredDoc(m.basic, m.detail)]
    {
      if fetched.None? {
        return None;
      }
      var m := MapMovieFromOPhim(fetched.value, true, now);
      var existing: Option<StoredDoc> := if m.basic.slug in docs then Some(docs[m.basic.slug]) else None;
      docs := docs[m.basic.slug := SetFields(existing, m)];
      r := Some(m);
    }
  }
}
