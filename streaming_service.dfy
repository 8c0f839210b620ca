// The streaming side of the movie service: which link a player gets for a
// requested server and episode, the per-server episode lists, and the view
// counter.

module StreamingServices {
  import opened Common
  import opened Movies

  /** The answer to a play request. */
  datatype PlayUrl = PlayUrl(
    movieId: string,
    movieName: Option<string>,
    serverName: Option<string>,
    episodeName: Option<string>,
    episodeSlug: Option<string>,
    m3u8Url: Option<string>,
    embedUrl: Option<string>,
    customHls: bool)

  /** A requested index, with anything outside `[0, n)` replaced by 0. */
  function Clamp(i: int, n: nat): (r: nat)
    requires n > 0
    ensures r < n
    ensures 0 <= i < n ==> r == i
    ensures !(0 <= i < n) ==> r == 0
  {
    if i < 0 || i >= n then 0 else i
  }

  /** The movie carries a usable custom HLS stream. */
  predicate HasCustomHls(m: Movie)
  {
    !NullOrBlank(m.media.customHlsUrl)
  }

  /** The custom stream wins only when neither index was chosen. */
  predicate UsesCustom(m: Movie, serverIndex: int, episodeIndex: int)
  {
    serverIndex == 0 && episodeIndex == 0 && HasCustomHls(m)
  }

  function ServerDataOf(ep: Episode): seq<ServerDataItem>
  {
    ep.serverData.GetOr([])
  }

  /** `buildPlayUrl`: the custom stream when asked for server 0 episode 0,
    * otherwise the clamped server and episode, degrading to a response with
    * null links when the movie has no servers or the server no episodes. */
  function BuildPlayUrl(id: string, m: Movie, serverIndex: int, episodeIndex: int): (r: PlayUrl)
    ensures r.movieId == id && r.movieName == m.listing.name
    ensures r.customHls <==> UsesCustom(m, serverIndex, episodeIndex)
    ensures r.embedUrl.Some? ==> !r.customHls
  {
    if UsesCustom(m, serverIndex, episodeIndex) then
      PlayUrl(id, m.listing.name, Some("Custom"), Some("Full"), Some("full"), m.media.customHlsUrl, None, true)
    else
      var eps := EpisodesOf(m);
      if eps == [] then
        PlayUrl(id, m.listing.name, None, None, None, None, None, false)
      else
        var ep := eps[Clamp(serverIndex, |eps|)];
        var items := ServerDataOf(ep);
        if items == [] then
          PlayUrl(id, m.listing.name, ep.serverName, None, None, None, None, false)
        else
          var item := items[Clamp(episodeIndex, |items|)];
          PlayUrl(id, m.listing.name, ep.serverName, item.name, item.slug, item.linkM3u8, item.linkEmbed, false)
  }

  /** The fields a response takes from one episode of one server. */
  predicate FromItem(r: PlayUrl, ep: Episode, item: ServerDataItem)
  {
    r.serverName == ep.serverName && r.episodeName == item.name && r.episodeSlug == item.slug
    && r.m3u8Url == item.linkM3u8 && r.embedUrl == item.linkEmbed && !r.customHls
  }

  // ---------------------------------------------------------------------
  // Properties of the selection

  /** Server 0, episode 0 and a non-blank custom URL: the custom answer. */
  lemma CustomFirst(id: string, m: Movie)
    requires HasCustomHls(m)
    ensures BuildPlayUrl(id, m, 0, 0)
      == PlayUrl(id, m.listing.name, Some("Custom"), Some("Full"), Some("full"), m.media.customHlsUrl, None, true)
  {
  }

  /** An out-of-range server index falls back to server 0, but not to the
    * custom stream: the clamped request plays the first server's episode. */
  lemma ClampedIndexSkipsCustom(id: string, m: Movie, serverIndex: int)
    requires HasCustomHls(m) && !(0 <= serverIndex < |EpisodesOf(m)|)
    requires EpisodesOf(m) != [] && ServerDataOf(EpisodesOf(m)[0]) != []
    ensures var r := BuildPlayUrl(id, m, serverIndex, 0);
      !r.customHls && FromItem(r, EpisodesOf(m)[0], ServerDataOf(EpisodesOf(m)[0])[0])
  {
    assert serverIndex != 0;
  }

  /** Without episodes every play field is null (when the custom stream is
    * not chosen). */
  lemma NoEpisodesGivesNullLinks(id: string, m: Movie, serverIndex: int, episodeIndex: int)
    requires !UsesCustom(m, serverIndex, episodeIndex) && EpisodesOf(m) == []
    ensures BuildPlayUrl(id, m, serverIndex, episodeIndex)
      == PlayUrl(id, m.listing.name, None, None, None, None, None, false)
  {
  }

  /** A server without episodes yields its name and nothing else. */
  lemma EmptyServerGivesItsName(id: string, m: Movie, serverIndex: int, episodeIndex: int)
    requires !UsesCustom(m, serverIndex, episodeIndex) && EpisodesOf(m) != []
    requires ServerDataOf(EpisodesOf(m)[Clamp(serverIndex, |EpisodesOf(m)|)]) == []
    ensures BuildPlayUrl(id, m, serverIndex, episodeIndex)
      == PlayUrl(id, m.listing.name, EpisodesOf(m)[Clamp(serverIndex, |EpisodesOf(m)|)].serverName,
                 None, None, None, None, false)
  {
  }

  /** In-range indices select exactly that server's episode. */
  lemma InRangeSelectsItem(id: string, m: Movie, s: nat, e: nat)
    requires !UsesCustom(m, s, e)
    requires s < |EpisodesOf(m)| && e < |ServerDataOf(EpisodesOf(m)[s])|
    ensures FromItem(BuildPlayUrl(id, m, s, e), EpisodesOf(m)[s], ServerDataOf(EpisodesOf(m)[s])[e])
  {
  }

  /** Out-of-range indices play what index 0 plays on that axis. */
  lemma OutOfRangeIsClamped(id: string, m: Movie, s: int, e: int)
    requires !UsesCustom(m, s, e) && EpisodesOf(m) != []
    requires ServerDataOf(EpisodesOf(m)[Clamp(s, |EpisodesOf(m)|)]) != []
    ensures var ep := EpisodesOf(m)[Clamp(s, |EpisodesOf(m)|)];
      FromItem(BuildPlayUrl(id, m, s, e), ep, ServerDataOf(ep)[Clamp(e, |ServerDataOf(ep)|)])
  {
  }

  /** Every link handed out is the custom stream or belongs to one of the
    * movie's episodes. */
  lemma LinksComeFromMovie(id: string, m: Movie, s: int, e: int)
    ensures var r := BuildPlayUrl(id, m, s, e);
      r.m3u8Url.Some? ==>
        (r.customHls && r.m3u8Url == m.media.customHlsUrl)
        || exists i, j :: 0 <= i < |EpisodesOf(m)| && 0 <= j < |ServerDataOf(EpisodesOf(m)[i])|
             && r.m3u8Url == ServerDataOf(EpisodesOf(m)[i])[j].linkM3u8
  {
    var r := BuildPlayUrl(id, m, s, e);
    if r.m3u8Url.Some? && !r.customHls {
      var eps := EpisodesOf(m);
      var i := Clamp(s, |eps|);
      var j := Clamp(e, |ServerDataOf(eps[i])|);
      assert r.m3u8Url == ServerDataOf(eps[i])[j].linkM3u8;
    }
  }

  // ---------------------------------------------------------------------
  // Episode lists

  datatype EpisodePlayInfo = EpisodePlayInfo(
    name: Option<string>,
    slug: Option<string>,
    m3u8Url: Option<string>,
    embedUrl: Option<string>)

  datatype ServerEpisodes = ServerEpisodes(serverName: Option<string>, isAi: bool, episodes: seq<EpisodePlayInfo>)

  datatype EpisodesResponse = EpisodesResponse(
    movieId: string,
    movieName: Option<string>,
    customHlsUrl: Option<string>,
    servers: seq<ServerEpisodes>)

  function PlayInfo(item: ServerDataItem): (r: EpisodePlayInfo)
    ensures r.m3u8Url == item.linkM3u8 && r.embedUrl == item.linkEmbed
    ensures r.name == item.name && r.slug == item.slug
  {
    EpisodePlayInfo(item.name, item.slug, item.linkM3u8, item.linkEmbed)
  }

  /** One server's entry: a null `isAi` counts as false, a null episode list
    * as empty, and the episodes keep their order. */
  function ServerEntry(ep: Episode): (r: ServerEpisodes)
    ensures r.serverName == ep.serverName
    ensures r.isAi <==> ep.isAi == Some(true)
    ensures |r.episodes| == |ServerDataOf(ep)|
    ensures forall j :: 0 <= j < |r.episodes| ==> r.episodes[j] == PlayInfo(ServerDataOf(ep)[j])
  {
    var items := ServerDataOf(ep);
    ServerEpisodes(ep.serverName, ep.isAi == Some(true), seq(|items|, j requires 0 <= j < |items| => PlayInfo(items[j])))
  }

  /** `buildEpisodesResponse`: one entry per server, in the stored order. */
  method BuildEpisodesResponse(id: string, m: Movie) returns (r: EpisodesResponse)
    ensures r.movieId == id && r.movieName == m.listing.name && r.customHlsUrl == m.media.customHlsUrl
    ensures |r.servers| == |EpisodesOf(m)|
    ensures forall i :: 0 <= i < |r.servers| ==> r.servers[i] == ServerEntry(EpisodesOf(m)[i])
  {
    var servers: seq<ServerEpisodes> := [];
    if m.media.episodes.Some? {
      var eps := m.media.episodes.value;
      var i := 0;
      while i < |eps|
        invariant 0 <= i <= |eps|
        invariant |servers| == i
        invariant forall k :: 0 <= k < i ==> servers[k] == ServerEntry(eps[k])
      {
        var ep := eps[i];
        var infos: seq<EpisodePlayInfo> := [];
        if ep.serverData.Some? {
          var items := ep.serverData.value;
          var j := 0;
          while j < |items|
            invariant 0 <= j <= |items|
            invariant |infos| == j
            invariant forall k :: 0 <= k < j ==> infos[k] == PlayInfo(items[k])
          {
            infos := infos + [EpisodePlayInfo(items[j].name, items[j].slug, items[j].linkM3u8, items[j].linkEmbed)];
            j := j + 1;
          }
        }
        servers := servers + [ServerEpisodes(ep.serverName, ep.isAi.Some? && ep.isAi.value, infos)];
        i := i + 1;
      }
    }
    r := EpisodesResponse(id, m.listing.name, m.media.customHlsUrl, servers);
  }

  // ---------------------------------------------------------------------
  // View counter

  /** The counter after one more view: a null counter counts as 0. */
  function Viewed(m: Movie): (r: Movie)
    ensures r.view.Some? && r.view.value == m.view.GetOr(0) + 1
    ensures r.(view := m.view) == m
  {
    m.(view := Some(if m.view.Some? then m.view.value + 1 else 1))
  }

  /** The first view of a document without a counter counts 1; every later
    * one adds exactly 1. */
  lemma ViewsCount(m: Movie, n: nat)
    requires m.view.None?
    ensures Repeat(m, n + 1).view == Some(n + 1)
  {
    ViewsAccumulate(Viewed(m), n);
  }

  /** The movie after `n` views. */
  function Repeat(m: Movie, n: nat): Movie
    decreases n
  {
    if n == 0 then m else Repeat(Viewed(m), n - 1)
  }

  lemma {:induction false} ViewsAccumulate(m: Movie, n: nat)
    requires m.view.Some?
    ensures Repeat(m, n).view == Some(m.view.value + n)
    ensures Repeat(m, n).(view := m.view) == m
    decreases n
  {
    if n > 0 {
      ViewsAccumulate(Viewed(m), n - 1);
    }
  }

  class StreamingService {
    const movies: MovieCollection

    constructor (movies: MovieCollection)
      ensures this.movies == movies
    {
      this.movies := movies;
    }

    /** `incrementViewCount(id)`. */
    method IncrementViewCount(id: string) returns (r: Result<(), MovieError>)
      requires movies.Valid()
      modifies movies
      ensures movies.Valid()
      ensures id !in old(movies.docs) ==>
        r == Err(NotFound("Movie", "id", id)) && movies.docs == old(movies.docs)
      ensures id in old(movies.docs) ==>
        r == Ok(()) && movies.docs == old(movies.docs)[id := Viewed(old(movies.docs)[id])]
    {
      if id !in movies.docs {
        return Err(NotFound("Movie", "id", id));
      }
      var m := movies.docs[id];
      movies.Save(id, m.(view := Some(if m.view.Some? then m.view.value + 1 else 1)));
      ReplaceKeepsSlugsUnique(old(movies.docs), id, Viewed(m));
      r := Ok(());
    }

    /** `incrementViewCountBySlug(slug)`. */
    method IncrementViewCountBySlug(slug: string) returns (r: Result<(), MovieError>)
      requires movies.Valid()
      modifies movies
      ensures movies.Valid()
      ensures !ExistsBySlug(old(movies.docs), slug) ==>
        r == Err(NotFound("Movie", "slug", slug)) && movies.docs == old(movies.docs)
      ensures ExistsBySlug(old(movies.docs), slug) ==>
        var id := FindBySlug(old(movies.docs), slug).value;
        r == Ok(()) && movies.docs == old(movies.docs)[id := Viewed(old(movies.docs)[id])]
    {
      var found := FindBySlug(movies.docs, slug);
      if found.None? {
        return Err(NotFound("Movie", "slug", slug));
      }
      var id := found.value;
      var m := movies.docs[id];
      movies.Save(id, Viewed(m));
      ReplaceKeepsSlugsUnique(old(movies.docs), id, Viewed(m));
      r := Ok(());
    }
  }

  // ---------------------------------------------------------------------
  // Lookups in front of the selection

  /** `getPlayUrl(movieId, server, episode)` (server and episode 0 for the
    * default play URL). */
  function GetPlayUrl(docs: Docs, id: string, serverIndex: int, episodeIndex: int): (r: Result<PlayUrl, MovieError>)
    ensures id !in docs <==> r == Err(NotFound("Movie", "id", id))
    ensures r.Ok? ==> r.value.movieId == id && r.value.movieName == docs[id].listing.name
  {
    if id !in docs then Err(NotFound("Movie", "id", id))
    else Ok(BuildPlayUrl(id, docs[id], serverIndex, episodeIndex))
  }

  /** `getPlayUrlBySlug(slug, server, episode)`. */
  function GetPlayUrlBySlug(docs: Docs, slug: string, serverIndex: int, episodeIndex: int): (r: Result<PlayUrl, MovieError>)
    requires SlugsUnique(docs)
    ensures !ExistsBySlug(docs, slug) <==> r == Err(NotFound("Movie", "slug", slug))
    ensures r.Ok? ==> r.value.movieId in docs && docs[r.value.movieId].listing.slug == slug
  {
    match FindBySlug(docs, slug)
    case None => Err(NotFound("Movie", "slug", slug))
    case Some(id) => Ok(BuildPlayUrl(id, docs[id], serverIndex, episodeIndex))
  }
}
