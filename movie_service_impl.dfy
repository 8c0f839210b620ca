// The relational movie service of the backend tree: movies with generated
// numeric ids, a name check ahead of the slug check, `isFree` derived from
// the price, and the new-release window.

module BackendMovieServices {
  import opened Common
  import Movies

  /** A row of the `movies` table. */
  datatype Movie = Movie(
    listing: Movies.Listing,
    view: int,
    price: Option<real>,
    isFree: Option<bool>,
    createdAt: Option<nat>,
    updatedAt: Option<nat>)

  /** The request body; its `isFree` is ignored by the service. */
  datatype MovieDto = MovieDto(listing: Movies.Listing, view: Option<int>, price: Option<real>)

  datatype MovieError =
    | IllegalArgument(message: string)
    | DuplicateSlug(slug: string)
    | NotFoundById(id: nat)
    | NotFoundBySlug(slug: string)

  const EmptyName: string := "Movie name cannot be empty"

  /** The exception messages. */
  function Message(e: MovieError): string
  {
    match e
    case IllegalArgument(m) => m
    case DuplicateSlug(s) => Movies.SlugTaken(s)
    case NotFoundById(id) => "Movie not found with id: " + NatText(id)
    case NotFoundBySlug(s) => "Movie not found with slug: " + s
  }

  /** `new Movie()`: builder defaults view 0, price 0, free, created now. */
  function NewMovie(listing: Movies.Listing, now: nat): (m: Movie)
    ensures m.view == 0 && m.price == Some(0.0) && m.isFree == Some(true) && m.createdAt == Some(now)
  {
    Movie(listing, 0, Some(0.0), Some(true), Some(now), None)
  }

  predicate FreeAt(price: Option<real>)
  {
    price.None? || price.value <= 0.0
  }

  /** `mapDtoToEntity`: listing and price (null stored as 0) overwrite, the
    * view only when the DTO carries one. */
  function MapDtoToEntity(dto: MovieDto, m: Movie): (r: Movie)
    ensures r.listing == dto.listing && r.price == Some(dto.price.GetOr(0.0))
    ensures r.view == dto.view.GetOr(m.view)
    ensures r.(listing := m.listing, price := m.price, view := m.view) == m
  {
    m.(listing := dto.listing,
       price := Some(if dto.price.Some? then dto.price.value else 0.0),
       view := if dto.view.Some? then dto.view.value else m.view)
  }

  /** The `isFree` rule applied after mapping. */
  function WithFreeFlag(m: Movie): (r: Movie)
    ensures r.isFree == Some(FreeAt(m.price)) && r.(isFree := m.isFree) == m
  {
    m.(isFree := Some(m.price.None? || m.price.value <= 0.0))
  }

  function Created(dto: MovieDto, now: nat): (m: Movie)
    ensures m.listing == dto.listing && m.isFree == Some(FreeAt(dto.price))
    ensures m.view == dto.view.GetOr(0) && m.createdAt == Some(now) && m.updatedAt == None
  {
    WithFreeFlag(MapDtoToEntity(dto, NewMovie(dto.listing, now)))
  }

  type Rows = map<nat, Movie>

  predicate SlugsUnique(rows: Rows)
  {
    forall a, b :: a in rows && b in rows && rows[a].listing.slug == rows[b].listing.slug ==> a == b
  }

  predicate ExistsBySlug(rows: Rows, slug: string)
  {
    exists k :: k in rows && rows[k].listing.slug == slug
  }

  lemma ReplaceKeepsSlugsUnique(rows: Rows, id: nat, m: Movie)
    requires SlugsUnique(rows)
    requires id in rows ==> m.listing.slug == rows[id].listing.slug || !ExistsBySlug(rows, m.listing.slug)
    requires id !in rows ==> !ExistsBySlug(rows, m.listing.slug)
    ensures SlugsUnique(rows[id := m])
  {
  }

  /** The answer of `createMovie`: the name check comes first, then the
    * slug check. */
  function CreateOutcome(rows: Rows, dto: MovieDto, now: nat): (r: Result<Movie, MovieError>)
    ensures Movies.NullOrTrimEmpty(dto.listing.name) <==> r == Err(IllegalArgument(EmptyName))
    ensures r == Err(DuplicateSlug(dto.listing.slug)) <==>
      !Movies.NullOrTrimEmpty(dto.listing.name) && ExistsBySlug(rows, dto.listing.slug)
    ensures r.Ok? ==> r.value == Created(dto, now)
  {
    if Movies.NullOrTrimEmpty(dto.listing.name) then Err(IllegalArgument(EmptyName))
    else if ExistsBySlug(rows, dto.listing.slug) then Err(DuplicateSlug(dto.listing.slug))
    else Ok(Created(dto, now))
  }

  /** The answer of `updateMovie`: not found, a slug change onto a taken
    * slug, or the mapped row stamped `updatedAt` with `isFree` recomputed. */
  function UpdateOutcome(rows: Rows, id: nat, dto: MovieDto, now: nat): (r: Result<Movie, MovieError>)
    ensures id !in rows <==> r == Err(NotFoundById(id))
    ensures r.Ok? ==> id in rows && r.value == WithFreeFlag(MapDtoToEntity(dto, rows[id]).(updatedAt := Some(now)))
    ensures r.Err? && id in rows ==>
      r == Err(DuplicateSlug(dto.listing.slug)) && rows[id].listing.slug != dto.listing.slug
      && ExistsBySlug(rows, dto.listing.slug)
  {
    if id !in rows then Err(NotFoundById(id))
    else if rows[id].listing.slug != dto.listing.slug && ExistsBySlug(rows, dto.listing.slug) then
      Err(DuplicateSlug(dto.listing.slug))
    else Ok(WithFreeFlag(MapDtoToEntity(dto, rows[id]).(updatedAt := Some(now))))
  }

  /** A blank name is refused even when the slug is taken as well. */
  lemma NameCheckedBeforeSlug(rows: Rows, dto: MovieDto, now: nat)
    requires Movies.NullOrTrimEmpty(dto.listing.name) && ExistsBySlug(rows, dto.listing.slug)
    ensures CreateOutcome(rows, dto, now) == Err(IllegalArgument(EmptyName))
  {
  }

  /** `getMovieById`. */
  function GetMovieById(rows: Rows, id: nat): (r: Result<Movie, MovieError>)
    ensures r.Ok? <==> id in rows
    ensures r.Ok? ==> r.value == rows[id]
    ensures r.Err? ==> r.error == NotFoundById(id)
  {
    if id in rows then Ok(rows[id]) else Err(NotFoundById(id))
  }

  /** `getMovieBySlug`. */
  function GetMovieBySlug(rows: Rows, slug: string): (r: Result<Movie, MovieError>)
    requires SlugsUnique(rows)
    ensures r.Ok? <==> ExistsBySlug(rows, slug)
    ensures r.Ok? ==> r.value.listing.slug == slug && exists id :: id in rows && rows[id] == r.value
    ensures r.Err? ==> r.error == NotFoundBySlug(slug)
  {
    if ExistsBySlug(rows, slug) then
      var k :| k in rows && rows[k].listing.slug == slug; Ok(rows[k])
    else Err(NotFoundBySlug(slug))
  }

  /** `searchMovies`: all rows for a null or empty keyword, otherwise the
    * rows whose lower-cased name or original name contains the lower-cased,
    * trimmed keyword. */
  function SearchMovies(rows: Rows, keyword: Option<string>): (r: set<nat>)
    ensures r <= rows.Keys
    ensures Movies.NullOrTrimEmpty(keyword) ==> r == rows.Keys
    ensures !Movies.NullOrTrimEmpty(keyword) ==> forall id :: id in rows ==>
      (id in r <==> Movies.NameMatches(rows[id].listing, Trim(keyword.value)))
  {
    if Movies.NullOrTrimEmpty(keyword) then rows.Keys
    else set id | id in rows && Movies.NameMatches(rows[id].listing, Trim(keyword.value))
  }

  /** `findNewReleases(minYear)`: the rows with a year of at least
    * `minYear`. */
  function FindNewReleases(rows: Rows, minYear: int): (r: set<nat>)
    ensures forall id :: id in r <==> id in rows && rows[id].listing.year.Some? && rows[id].listing.year.value >= minYear
  {
    set id | id in rows && rows[id].listing.year.Some? && rows[id].listing.year.value >= minYear
  }

  /** `getNewReleases`: the window is the current year and the two before
    * it, and later years. */
  function GetNewReleases(rows: Rows, currentYear: int): (r: set<nat>)
    ensures forall id :: id in rows && rows[id].listing.year == Some(currentYear - 2) ==> id in r
    ensures forall id :: id in rows && rows[id].listing.year == Some(currentYear - 3) ==> id !in r
    ensures forall id :: id in rows && rows[id].listing.year.None? ==> id !in r
  {
    FindNewReleases(rows, currentYear - 2)
  }

  class MovieServiceImpl {
    var rows: Rows
    var nextId: nat

    predicate Valid()
      reads this
    {
      SlugsUnique(rows) && forall k :: k in rows ==> k < nextId
    }

    constructor ()
      ensures Valid() && rows == map[] && nextId == 0
    {
      rows := map[];
      nextId := 0;
    }

    /** `createMovie`, the identity column handing out the next id. */
    method CreateMovie(dto: MovieDto, now: nat) returns (r: Result<nat, MovieError>)
      requires Valid()
      modifies this
      ensures Valid()
      ensures CreateOutcome(old(rows), dto, now).Err? ==>
        r == Err(CreateOutcome(old(rows), dto, now).error) && rows == old(rows) && nextId == old(nextId)
      ensures CreateOutcome(old(rows), dto, now).Ok? ==>
        r == Ok(old(nextId)) && nextId == old(nextId) + 1
        && rows == old(rows)[old(nextId) := CreateOutcome(old(rows), dto, now).value]
    {
      if dto.listing.name.None? || Trim(dto.listing.name.value) == [] {
        return Err(IllegalArgument(EmptyName));
      }
      if ExistsBySlug(rows, dto.listing.slug) {
        return Err(DuplicateSlug(dto.listing.slug));
      }
      var m := MapDtoToEntity(dto, NewMovie(dto.listing, now));
      m := m.(isFree := Some(m.price.None? || m.price.value <= 0.0));
      ReplaceKeepsSlugsUnique(rows, nextId, m);
      rows := rows[nextId := m];
      r := Ok(nextId);
      nextId := nextId + 1;
    }

    /** `updateMovie`. */
    method UpdateMovie(id: nat, dto: MovieDto, now: nat) returns (r: Result<Movie, MovieError>)
      requires Valid()
      modifies this
      ensures Valid() && nextId == old(nextId)
      ensures r == UpdateOutcome(old(rows), id, dto, now)
      ensures r.Ok? ==> rows == old(rows)[id := r.value]
      ensures r.Err? ==> rows == old(rows)
    {
      if id !in rows {
        return Err(NotFoundById(id));
      }
      var existing := rows[id];
      if existing.listing.slug != dto.listing.slug {
        if ExistsBySlug(rows, dto.listing.slug) {
          return Err(DuplicateSlug(dto.listing.slug));
        }
      }
      var updated := MapDtoToEntity(dto, existing).(updatedAt := Some(now));
      updated := WithFreeFlag(updated);
      ReplaceKeepsSlugsUnique(rows, id, updated);
      rows := rows[id := updated];
      r := Ok(updated);
    }

    /** `deleteMovie`. */
    method DeleteMovie(id: nat) returns (r: Result<(), MovieError>)
      requires Valid()
      modifies this
      ensures Valid() && nextId == old(nextId)
      ensures id !in old(rows) ==> r == Err(NotFoundById(id)) && rows == old(rows)
      ensures id in old(rows) ==> r == Ok(()) && rows == old(rows) - {id}
    {
      if id !in rows {
        return Err(NotFoundById(id));
      }
      rows := rows - {id};
      r := Ok(());
    }

    /** `incrementViewCount`: one more view; the changed row is flushed, so
      * `@PreUpdate` stamps `updatedAt`. */
    method IncrementViewCount(id: nat, now: nat) returns (r: Result<(), MovieError>)
      requires Valid()
      modifies this
      ensures Valid() && nextId == old(nextId)
      ensures id !in old(rows) ==> r == Err(NotFoundById(id)) && rows == old(rows)
      ensures id in old(rows) ==>
        r == Ok(()) && rows == old(rows)[id := old(rows)[id].(view := old(rows)[id].view + 1, updatedAt := Some(now))]
    {
      if id !in rows {
        return Err(NotFoundById(id));
      }
      var m := rows[id];
      var counted := m.(view := m.view + 1, updatedAt := Some(now));
      ReplaceKeepsSlugsUnique(rows, id, counted);
      rows := rows[id := counted];
      r := Ok(());
    }
  }

  /** `isFree` follows the price on every create and update. */
  lemma FreeFlagFollowsPrice(rows: Rows, id: nat, dto: MovieDto, now: nat)
    ensures CreateOutcome(rows, dto, now).Ok? ==> CreateOutcome(rows, dto, now).value.isFree == Some(FreeAt(dto.price))
    ensures UpdateOutcome(rows, id, dto, now).Ok? ==> UpdateOutcome(rows, id, dto, now).value.isFree == Some(FreeAt(dto.price))
  {
  }
}
