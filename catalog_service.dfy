// The catalogue service: editors create, update and delete movies, and
// viewers browse them by keyword, by filter and page, and by release year.

module CatalogServices {
  import opened Common
  import opened Movies
  import MovieRepository

  /** An editor's movie request: the listing columns, an optional price and
    * an optional access type. */
  datatype MovieRequest = MovieRequest(listing: Listing, price: Option<real>, accessType: Option<AccessType>)

  /** `mapToEntity`: the request's listing and price (a null price stored as
    * 0) replace the movie's; its access type only when the request has one;
    * everything else is kept. */
  function MapToEntity(req: MovieRequest, m: Movie): (r: Movie)
    ensures r.listing == req.listing
    ensures r.price == Some(req.price.GetOr(0.0))
    ensures r.accessType == if req.accessType.Some? then req.accessType else m.accessType
    ensures r.(listing := m.listing, price := m.price, accessType := m.accessType) == m
  {
    m.(listing := req.listing,
       price := Some(if req.price.Some? then req.price.value else 0.0),
       accessType := if req.accessType.Some? then req.accessType else m.accessType)
  }

  /** The access type a price calls for: RENTAL when positive, else FREE. */
  function PricedAccess(price: Option<real>): (a: AccessType)
    ensures a == RENTAL <==> price.Some? && price.value > 0.0
    ensures a != PREMIUM
  {
    if price.Some? && price.value > 0.0 then RENTAL else FREE
  }

  /** The movie `createMovie` stores. As written the blank entity already
    * carries the FREE default, so the derivation from the price never runs;
    * the corrected reading starts without an access type. */
  function CreatedMovie(req: MovieRequest, now: nat, asWritten: bool): (m: Movie)
    ensures m.listing == req.listing && m.price == Some(req.price.GetOr(0.0))
    ensures m.view == Some(0) && m.media == NoMedia && m.source == Some(OPHIM)
    ensures m.createdAt == Some(now) && m.updatedAt == None
    ensures m.accessType.Some?
  {
    var blank := NewMovie(req.listing, now);
    var mapped := MapToEntity(req, if asWritten then blank else blank.(accessType := None));
    if mapped.accessType.None? then mapped.(accessType := Some(PricedAccess(mapped.price)))
    else mapped
  }

  /** Corrected: an explicit access type is kept, otherwise it follows the
    * price (RENTAL when positive, a missing price being 0). */
  lemma CreatedAccessFollowsPrice(req: MovieRequest, now: nat)
    ensures CreatedMovie(req, now, false).accessType ==
      Some(if req.accessType.Some? then req.accessType.value else PricedAccess(req.price))
  {
  }

  /** As written: a priced request without an access type is stored FREE. */
  lemma PricedMovieStaysFreeAsWritten(req: MovieRequest, now: nat)
    requires req.accessType.None? && req.price.Some? && req.price.value > 0.0
    ensures CreatedMovie(req, now, true).accessType == Some(FREE)
    ensures CreatedMovie(req, now, false).accessType == Some(RENTAL)
  {
  }

  /** As written the access type is the request's or FREE, whatever the
    * price. */
  lemma AsWrittenAccessIgnoresPrice(req: MovieRequest, now: nat, price: Option<real>)
    ensures CreatedMovie(req, now, true).accessType == CreatedMovie(req.(price := price), now, true).accessType
  {
  }

  // ---------------------------------------------------------------------
  // Writes

  class CatalogService {
    const movies: MovieCollection

    constructor (movies: MovieCollection)
      ensures this.movies == movies
    {
      this.movies := movies;
    }

    /** `createMovie`: a taken slug is refused; otherwise the new document is
      * stored under a fresh id. */
    method CreateMovie(req: MovieRequest, freshId: string, now: nat, asWritten: bool)
      returns (r: Result<string, MovieError>)
      requires movies.Valid() && freshId !in movies.docs
      modifies movies
      ensures movies.Valid()
      ensures ExistsBySlug(old(movies.docs), req.listing.slug) ==>
        r == Err(BadRequest(SlugTaken(req.listing.slug))) && movies.docs == old(movies.docs)
      ensures !ExistsBySlug(old(movies.docs), req.listing.slug) ==>
        r == Ok(freshId) && movies.docs == old(movies.docs)[freshId := CreatedMovie(req, now, asWritten)]
    {
      if ExistsBySlug(movies.docs, req.listing.slug) {
        return Err(BadRequest(SlugTaken(req.listing.slug)));
      }
      var m := CreatedMovie(req, now, asWritten);
      ReplaceKeepsSlugsUnique(movies.docs, freshId, m);
      movies.Save(freshId, m);
      r := Ok(freshId);
    }

    /** `updateMovie`: an unknown id is not found; moving onto another
      * movie's slug is refused; otherwise the request is mapped onto the
      * stored movie, the access type is not derived again. */
    method UpdateMovie(id: string, req: MovieRequest) returns (r: Result<Movie, MovieError>)
      requires movies.Valid()
      modifies movies
      ensures movies.Valid()
      ensures r == UpdateOutcome(old(movies.docs), id, req)
      ensures r.Ok? ==> movies.docs == old(movies.docs)[id := r.value]
      ensures r.Err? ==> movies.docs == old(movies.docs)
    {
      if id !in movies.docs {
        return Err(NotFound("Movie", "id", id));
      }
      var existing := movies.docs[id];
      if existing.listing.slug != req.listing.slug && ExistsBySlug(movies.docs, req.listing.slug) {
        return Err(BadRequest(SlugTaken(req.listing.slug)));
      }
      var updated := MapToEntity(req, existing);
      ReplaceKeepsSlugsUnique(movies.docs, id, updated);
      movies.Save(id, updated);
      r := Ok(updated);
    }

    /** `deleteMovie`: an unknown id is not found. */
    method DeleteMovie(id: string) returns (r: Result<(), MovieError>)
      requires movies.Valid()
      modifies movies
      ensures movies.Valid()
      ensures id !in old(movies.docs) ==> r == Err(NotFound("Movie", "id", id)) && movies.docs == old(movies.docs)
      ensures id in old(movies.docs) ==> r == Ok(()) && movies.docs == old(movies.docs) - {id}
    {
      if id !in movies.docs {
        return Err(NotFound("Movie", "id", id));
      }
      movies.DeleteById(id);
      r := Ok(());
    }
  }

  /** The answer of `updateMovie` over the documents before it. */
  function UpdateOutcome(docs: Docs, id: string, req: MovieRequest): (r: Result<Movie, MovieError>)
    ensures id !in docs <==> r == Err(NotFound("Movie", "id", id))
    ensures r.Ok? ==> id in docs && r.value == MapToEntity(req, docs[id])
    ensures r.Err? && id in docs ==>
      r == Err(BadRequest(SlugTaken(req.listing.slug)))
      && docs[id].listing.slug != req.listing.slug && ExistsBySlug(docs, req.listing.slug)
  {
    if id !in docs then Err(NotFound("Movie", "id", id))
    else if docs[id].listing.slug != req.listing.slug && ExistsBySlug(docs, req.listing.slug) then
      Err(BadRequest(SlugTaken(req.listing.slug)))
    else Ok(MapToEntity(req, docs[id]))
  }

  /** Keeping the slug never conflicts, and an update without an access type
    * keeps the stored one whatever the new price. */
  lemma UpdateKeepsSlugAndAccess(docs: Docs, id: string, req: MovieRequest)
    requires id in docs && req.listing.slug == docs[id].listing.slug && req.accessType.None?
    ensures UpdateOutcome(docs, id, req).Ok?
    ensures UpdateOutcome(docs, id, req).value.accessType == docs[id].accessType
  {
  }

  // ---------------------------------------------------------------------
  // Reads

  /** `getMovieById`. */
  function GetMovieById(docs: Docs, id: string): (r: Result<Movie, MovieError>)
    ensures r.Ok? <==> id in docs
    ensures r.Ok? ==> r.value == docs[id]
    ensures r.Err? ==> r.error == NotFound("Movie", "id", id)
  {
    if id in docs then Ok(docs[id]) else Err(NotFound("Movie", "id", id))
  }

  /** `getMovieBySlug`. */
  function GetMovieBySlug(docs: Docs, slug: string): (r: Result<Movie, MovieError>)
    requires SlugsUnique(docs)
    ensures r.Ok? <==> ExistsBySlug(docs, slug)
    ensures r.Ok? ==> r.value.listing.slug == slug && exists id :: id in docs && docs[id] == r.value
    ensures r.Err? ==> r.error == NotFound("Movie", "slug", slug)
  {
    match FindBySlug(docs, slug)
    case Some(id) => Ok(docs[id])
    case None => Err(NotFound("Movie", "slug", slug))
  }

  /** `searchMovies`: all ids for a null or empty keyword, otherwise those
    * whose name or original name holds the trimmed keyword. */
  function SearchMovies(docs: Docs, keyword: Option<string>): (r: set<string>)
    ensures r <= docs.Keys
    ensures NullOrTrimEmpty(keyword) ==> r == docs.Keys
    ensures !NullOrTrimEmpty(keyword) ==> forall id :: id in docs ==>
      (id in r <==> NameMatches(docs[id].listing, Trim(keyword.value)))
  {
    if NullOrTrimEmpty(keyword) then docs.Keys
    else set id | id in docs && NameMatches(docs[id].listing, Trim(keyword.value))
  }

  /** Padding the keyword with spaces changes nothing. */
  lemma SearchIgnoresPadding(docs: Docs, keyword: string)
    ensures SearchMovies(docs, Some(" " + keyword + " ")) == SearchMovies(docs, Some(keyword))
  {
    TrimPadded(keyword);
  }

  lemma TrimPadded(s: string)
    ensures Trim(" " + s + " ") == Trim(s)
  {
    assert (" " + s + " ")[1..] == s + " ";
    assert TrimStart(" " + s + " ") == TrimStart(s + " ");
    TrimStartAppendSpace(s);
    TrimEndSpace(TrimStart(s));
  }

  lemma {:induction false} TrimStartAppendSpace(s: string)
    ensures TrimStart(s + " ") == if TrimStart(s) == [] then [] else TrimStart(s) + " "
    decreases |s|
  {
    if s == [] {
      assert TrimStart(" ") == TrimStart([]);
    } else if s[0] <= ' ' {
      assert (s + " ")[1..] == s[1..] + " ";
      TrimStartAppendSpace(s[1..]);
    } else {
      assert (s + " ")[0] == s[0];
    }
  }

  lemma TrimEndSpace(s: string)
    ensures TrimEnd(if s == [] then [] else s + " ") == TrimEnd(s)
  {
    if s != [] {
      assert (s + " ")[..|s + " "| - 1] == s;
    }
  }

  // ---------------------------------------------------------------------
  // Paging

  /** The zero-based page index a one-based page number asks for. */
  function PageIndex(page: int): (r: nat)
    ensures page >= 1 ==> r == page - 1
    ensures page < 1 ==> r == 0
  {
    if page - 1 > 0 then page - 1 else 0
  }

  /** The page size, clamped to `[1, 50]`. */
  function PageSize(size: int): (r: nat)
    ensures 1 <= r <= 50
    ensures 1 <= size <= 50 ==> r == size
    ensures size < 1 ==> r == 1
    ensures size > 50 ==> r == 50
  {
    if size < 1 then 1 else if size > 50 then 50 else size
  }

  datatype PageResponse = PageResponse(items: seq<Movie>, page: nat, size: nat, totalItems: nat, totalPages: nat)

  /** The page count of `total` items in pages of `size`. */
  function TotalPages(total: nat, size: nat): (r: nat)
    requires size >= 1
    ensures r * size >= total && (r == 0 || (r - 1) * size < total)
  {
    (total + size - 1) / size
  }

  function Respond(p: MovieRepository.Page): PageResponse
    requires p.size >= 1
  {
    PageResponse(p.items, p.number + 1, p.size, p.total, TotalPages(p.total, p.size))
  }

  /** `getMoviesWithFilter` over the movies in `updatedAt` order. */
  function GetMoviesWithFilter(ordered: seq<Movie>, f: MovieRepository.MovieFilter, page: int, size: int): (r: PageResponse)
    ensures r.page == PageIndex(page) + 1 && r.size == PageSize(size)
    ensures r.totalItems == |MovieRepository.Matching(ordered, f)|
    ensures |r.items| <= r.size
    ensures forall i :: 0 <= i < |r.items| ==> MovieRepository.Matches(r.items[i], f)
  {
    Respond(MovieRepository.FindWithFilter(ordered, f, PageIndex(page), PageSize(size)))
  }

  /** `getLatestMovies` over the movies in descending id order: a page of
    * all of them. */
  function GetLatestMovies(ordered: seq<Movie>, page: int, size: int): (r: PageResponse)
    ensures r.page == PageIndex(page) + 1 && r.size == PageSize(size) && r.totalItems == |ordered|
    ensures |r.items| <= r.size
  {
    Respond(MovieRepository.Page(MovieRepository.Slice(ordered, PageIndex(page) * PageSize(size), PageSize(size)),
                                 PageIndex(page), PageSize(size), |ordered|))
  }

  /** A page number below 1 reads as page 1, and the page reported back is
    * the one served. */
  lemma PageNumbersFromOne(ordered: seq<Movie>, f: MovieRepository.MovieFilter, page: int, size: int)
    requires page < 1
    ensures GetMoviesWithFilter(ordered, f, page, size) == GetMoviesWithFilter(ordered, f, 1, size)
    ensures GetMoviesWithFilter(ordered, f, page, size).page == 1
  {
  }

  // ---------------------------------------------------------------------
  // Release years

  predicate Descending(s: seq<int>)
  {
    forall i, j :: 0 <= i < j < |s| ==> s[i] >= s[j]
  }

  /** The non-null years, in their order. */
  function NonNull(ys: seq<Option<int>>): (r: seq<int>)
    ensures forall y :: y in r <==> Some(y) in ys
    ensures |r| <= |ys|
  {
    if ys == [] then []
    else (if ys[0].Some? then [ys[0].value] else []) + NonNull(ys[1..])
  }

  function Insert(x: int, s: seq<int>): (r: seq<int>)
    requires Descending(s)
    ensures Descending(r) && multiset(r) == multiset(s) + multiset{x}
  {
    if s == [] then [x]
    else if x >= s[0] then [x] + s
    else
      var rest := Insert(x, s[1..]);
      assert multiset(s) == multiset{s[0]} + multiset(s[1..]) by { assert s == [s[0]] + s[1..]; }
      InsertedBelow(x, s[1..], rest, s[0]);
      [s[0]] + rest
  }

  /** Every element of an insertion into `t` is at most `top`, when `x` and
    * every element of `t` are. */
  lemma InsertedBelow(x: int, t: seq<int>, rest: seq<int>, top: int)
    requires x <= top && (forall i :: 0 <= i < |t| ==> t[i] <= top)
    requires multiset(rest) == multiset(t) + multiset{x}
    ensures forall i :: 0 <= i < |rest| ==> rest[i] <= top
  {
    forall i | 0 <= i < |rest|
      ensures rest[i] <= top
    {
      assert rest[i] in multiset(rest);
      if rest[i] != x {
        assert rest[i] in multiset(t);
        var j :| 0 <= j < |t| && t[j] == rest[i];
      }
    }
  }

  /** Sorting into descending order. */
  function SortDescending(s: seq<int>): (r: seq<int>)
    ensures Descending(r) && multiset(r) == multiset(s)
  {
    if s == [] then []
    else
      assert s == [s[0]] + s[1..];
      Insert(s[0], SortDescending(s[1..]))
  }

  /** `getDistinctYears`: a null answer gives an empty list; otherwise the
    * non-null years, largest first. */
  function GetDistinctYears(years: Option<seq<Option<int>>>): (r: seq<int>)
    ensures years.None? ==> r == []
    ensures years.Some? ==> multiset(r) == multiset(NonNull(years.value))
    ensures Descending(r)
  {
    if years.None? then [] else SortDescending(NonNull(years.value))
  }

  /** Over the distinct values the repository returns, the list is every
    * non-null year exactly once, strictly descending. */
  lemma DistinctYearsStrictlyDescending(ys: seq<Option<int>>)
    requires forall i, j :: 0 <= i < j < |ys| ==> ys[i] != ys[j]
    ensures var r := GetDistinctYears(Some(ys));
      (forall i, j :: 0 <= i < j < |r| ==> r[i] > r[j])
      && (forall y :: y in r <==> Some(y) in ys)
  {
    var r := GetDistinctYears(Some(ys));
    NonNullDistinct(ys);
    assert forall y :: y in r <==> y in multiset(NonNull(ys));
    StrictWhenDistinct(r);
  }

  /** A descending list without repeated values is strictly descending. */
  lemma {:induction false} StrictWhenDistinct(r: seq<int>)
    requires Descending(r) && forall y :: multiset(r)[y] <= 1
    ensures forall i, j :: 0 <= i < j < |r| ==> r[i] > r[j]
  {
    if r != [] {
      var t := r[1..];
      TailDistinct(r);
      HeadNotInTail(r);
      StrictWhenDistinct(t);
      forall i, j | 0 <= i < j < |r|
        ensures r[i] > r[j]
      {
        assert r[j] == t[j - 1];
        if i > 0 {
          assert r[i] == t[i - 1];
        }
      }
    }
  }

  /** With no value repeated, the first one does not occur again. */
  lemma HeadNotInTail(r: seq<int>)
    requires r != [] && multiset(r)[r[0]] <= 1
    ensures r[0] !in r[1..]
  {
    assert r == [r[0]] + r[1..];
    assert multiset(r) == multiset{r[0]} + multiset(r[1..]);
  }

  /** A sequence with no value repeated has a tail with none repeated. */
  lemma TailDistinct(r: seq<int>)
    requires r != [] && forall y :: multiset(r)[y] <= 1
    ensures forall y :: multiset(r[1..])[y] <= 1
  {
    assert r == [r[0]] + r[1..];
    assert multiset(r) == multiset{r[0]} + multiset(r[1..]);
    forall y
      ensures multiset(r[1..])[y] <= 1
    {
      assert multiset(r)[y] == multiset{r[0]}[y] + multiset(r[1..])[y];
    }
  }

  lemma {:induction false} NonNullDistinct(ys: seq<Option<int>>)
    requires forall i, j :: 0 <= i < j < |ys| ==> ys[i] != ys[j]
    ensures forall y :: multiset(NonNull(ys))[y] <= 1
  {
    if ys != [] {
      NonNullDistinct(ys[1..]);
      if ys[0].Some? {
        assert Some(ys[0].value) !in ys[1..];
        assert ys[0].value !in NonNull(ys[1..]);
      }
    }
  }
}
