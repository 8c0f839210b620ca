// The older movie service of the server tree: its own movie document with
// an `isFree` flag derived from the price, and a view counter that does not
// guard against a missing count.

module ServerMovieServices {
  import opened Common
  import Movies

  /** The document of this service (collection "movies", snake_case
    * fields). */
  datatype Movie = Movie(
    listing: Movies.Listing,
    view: Option<nat>,
    price: Option<real>,
    isFree: Option<bool>,
    createdAt: Option<nat>,
    updatedAt: Option<nat>)

  datatype MovieRequest = MovieRequest(listing: Movies.Listing, price: Option<real>)

  datatype MovieError =
    | NotFound(resource: string, field: string, value: string)
    | BadRequest(message: string)
    | NullPointer

  /** `new Movie()`: view 0, price 0, free, created now. */
  function NewMovie(now: nat, listing: Movies.Listing): (m: Movie)
    ensures m.view == Some(0) && m.price == Some(0.0) && m.isFree == Some(true)
    ensures m.createdAt == Some(now) && m.updatedAt == None && m.listing == listing
  {
    Movie(listing, Some(0), Some(0.0), Some(true), Some(now), None)
  }

  /** A movie is free when it has no price or a price of at most 0. */
  predicate FreeAt(price: Option<real>)
  {
    price.None? || price.value <= 0.0
  }

  /** `mapToEntity` followed by the `isFree` rule: the request's listing and
    * price (null stored as 0), and the flag recomputed from that price. */
  function Mapped(req: MovieRequest, m: Movie): (r: Movie)
    ensures r.listing == req.listing && r.price == Some(req.price.GetOr(0.0))
    ensures r.isFree == Some(FreeAt(req.price))
    ensures r.(listing := m.listing, price := m.price, isFree := m.isFree) == m
  {
    var p := if req.price.Some? then req.price.value else 0.0;
    m.(listing := req.listing, price := Some(p), isFree := Some(p <= 0.0))
  }

  /** An omitted price gives a free movie; a positive one a paid movie. */
  lemma FreeFollowsPrice(req: MovieRequest, m: Movie)
    ensures req.price.None? ==> Mapped(req, m).isFree == Some(true)
    ensures req.price.Some? && req.price.value > 0.0 ==> Mapped(req, m).isFree == Some(false)
  {
  }

  type Docs = map<string, Movie>

  predicate SlugsUnique(docs: Docs)
  {
    forall a, b :: a in docs && b in docs && docs[a].listing.slug == docs[b].listing.slug ==> a == b
  }

  predicate ExistsBySlug(docs: Docs, slug: string)
  {
    exists k :: k in docs && docs[k].listing.slug == slug
  }

  lemma ReplaceKeepsSlugsUnique(docs: Docs, id: string, m: Movie)
    requires SlugsUnique(docs)
    requires id in docs ==> m.listing.slug == docs[id].listing.slug || !ExistsBySlug(docs, m.listing.slug)
    requires id !in docs ==> !ExistsBySlug(docs, m.listing.slug)
    ensures SlugsUnique(docs[id := m])
  {
  }

  /** The answer of `updateMovie` over the documents before it. */
  function UpdateOutcome(docs: Docs, id: string, req: MovieRequest): (r: Result<Movie, MovieError>)
    ensures id !in docs <==> r == Err(NotFound("Movie", "id", id))
    ensures r.Ok? ==> id in docs && r.value == Mapped(req, docs[id])
    ensures r.Err? && id in docs ==>
      r == Err(BadRequest(Movies.SlugTaken(req.listing.slug)))
      && docs[id].listing.slug != req.listing.slug && ExistsBySlug(docs, req.listing.slug)
  {
    if id !in docs then Err(NotFound("Movie", "id", id))
    else if docs[id].listing.slug != req.listing.slug && ExistsBySlug(docs, req.listing.slug) then
      Err(BadRequest(Movies.SlugTaken(req.listing.slug)))
    else Ok(Mapped(req, docs[id]))
  }

  /** The view counter after `incrementViewCount`: exactly one more, and a
    * document without a counter fails on the unboxing. */
  function Incremented(m: Movie): (r: Result<Movie, MovieError>)
    ensures m.view.None? <==> r == Err(NullPointer)
    ensures r.Ok? ==> r.value.view == Some(m.view.value + 1) && r.value.(view := m.view) == m
  {
    if m.view.None? then Err(NullPointer) else Ok(m.(view := Some(m.view.value + 1)))
  }

  /** `searchMovies`: every id for a null or empty keyword, otherwise those
    * whose name or original name holds the trimmed keyword. */
  function SearchMovies(docs: Docs, keyword: Option<string>): (r: set<string>)
    ensures r <= docs.Keys
    ensures Movies.NullOrTrimEmpty(keyword) ==> r == docs.Keys
    ensures !Movies.NullOrTrimEmpty(keyword) ==> forall id :: id in docs ==>
      (id in r <==> Movies.NameMatches(docs[id].listing, Trim(keyword.value)))
  {
    if Movies.NullOrTrimEmpty(keyword) then docs.Keys
    else set id | id in docs && Movies.NameMatches(docs[id].listing, Trim(keyword.value))
  }

  class MovieService {
    var docs: Docs

    predicate Valid()
      reads this
    {
      SlugsUnique(docs)
    }

    constructor ()
      ensures Valid() && docs == map[]
    {
      docs := map[];
    }

    /** `createMovie`: a taken slug is refused; otherwise the mapped movie is
      * stored under a fresh id. */
    method CreateMovie(req: MovieRequest, freshId: string, now: nat) returns (r: Result<string, MovieError>)
      requires Valid() && freshId !in docs
      modifies this
      ensures Valid()
      ensures ExistsBySlug(old(docs), req.listing.slug) ==>
        r == Err(BadRequest(Movies.SlugTaken(req.listing.slug))) && docs == old(docs)
      ensures !ExistsBySlug(old(docs), req.listing.slug) ==>
        r == Ok(freshId) && docs == old(docs)[freshId := Mapped(req, NewMovie(now, req.listing))]
    {
      if ExistsBySlug(docs, req.listing.slug) {
        return Err(BadRequest(Movies.SlugTaken(req.listing.slug)));
      }
      var m := Mapped(req, NewMovie(now, req.listing));
      ReplaceKeepsSlugsUnique(docs, freshId, m);
      docs := docs[freshId := m];
      r := Ok(freshId);
    }

    /** `updateMovie`: slug uniqueness only on a change, `isFree` computed
      * again. */
    method UpdateMovie(id: string, req: MovieRequest) returns (r: Result<Movie, MovieError>)
      requires Valid()
      modifies this
      ensures Valid()
      ensures r == UpdateOutcome(old(docs), id, req)
      ensures r.Ok? ==> docs == old(docs)[id := r.value]
      ensures r.Err? ==> docs == old(docs)
    {
      if id !in docs {
        return Err(NotFound("Movie", "id", id));
      }
      var existing := docs[id];
      if existing.listing.slug != req.listing.slug && ExistsBySlug(docs, req.listing.slug) {
        return Err(BadRequest(Movies.SlugTaken(req.listing.slug)));
      }
      var updated := Mapped(req, existing);
      ReplaceKeepsSlugsUnique(docs, id, updated);
      docs := docs[id := updated];
      r := Ok(updated);
    }

    /** `deleteMovie`: an unknown id is not found. */
    method DeleteMovie(id: string) returns (r: Result<(), MovieError>)
      requires Valid()
      modifies this
      ensures Valid()
      ensures id !in old(docs) ==> r == Err(NotFound("Movie", "id", id)) && docs == old(docs)
      ensures id in old(docs) ==> r == Ok(()) && docs == old(docs) - {id}
    {
      if id !in docs {
        return Err(NotFound("Movie", "id", id));
      }
      docs := docs - {id};
      r := Ok(());
    }

    /** `incrementViewCount`: not found, the unboxing failure, or exactly one
      * more view. */
    method IncrementViewCount(id: string) returns (r: Result<(), MovieError>)
      requires Valid()
      modifies this
      ensures Valid()
      ensures id !in old(docs) ==> r == Err(NotFound("Movie", "id", id)) && docs == old(docs)
      ensures id in old(docs) && Incremented(old(docs)[id]).Err? ==> r == Err(NullPointer) && docs == old(docs)
      ensures id in old(docs) && Incremented(old(docs)[id]).Ok? ==>
        r == Ok(()) && docs == old(docs)[id := Incremented(old(docs)[id]).value]
    {
      if id !in docs {
        return Err(NotFound("Movie", "id", id));
      }
      var m := docs[id];
      if m.view.None? {
        return Err(NullPointer);
      }
      var counted := m.(view := Some(m.view.value + 1));
      ReplaceKeepsSlugsUnique(docs, id, counted);
      docs := docs[id := counted];
      r := Ok(());
    }
  }

  /** A movie created by this service always has a counter, so counting its
    * views never fails, and `n` views add exactly `n`. */
  lemma {:induction false} CreatedMoviesCount(m: Movie, n: nat)
    requires m.view.Some?
    ensures Counted(m, n).Ok? && Counted(m, n).value.view == Some(m.view.value + n)
    decreases n
  {
    if n > 0 {
      CreatedMoviesCount(m, n - 1);
    }
  }

  /** The result of `n` successive increments. */
  function Counted(m: Movie, n: nat): Result<Movie, MovieError>
    decreases n
  {
    if n == 0 then Ok(m)
    else match Counted(m, n - 1)
      case Err(e) => Err(e)
      case Ok(c) => Incremented(c)
  }
}
