// The hand-written catalogue queries: the filtered, paged listing and the
// distinct release years.

module MovieRepository {
  import opened Common
  import opened Movies

  /** The optional filters of a catalogue listing. */
  datatype MovieFilter = MovieFilter(
    movieType: Option<string>,
    genreSlug: Option<string>,
    countrySlug: Option<string>,
    year: Option<int>,
    keyword: Option<string>)

  const NoFilter: MovieFilter := MovieFilter(None, None, None, None, None)

  /** One criterion of the query. */
  datatype Criterion =
    | TypeIs(movieType: string)
    | GenreIs(slug: string)
    | CountryIs(slug: string)
    | YearIs(year: int)
    | NameOrOriginContains(keyword: string)

  /** Some embedded reference carries this slug. */
  predicate HasRefSlug(refs: Option<seq<Ref>>, slug: string)
  {
    refs.Some? && exists i :: 0 <= i < |refs.value| && refs.value[i].slug == Some(slug)
  }

  predicate Satisfies(m: Movie, c: Criterion)
  {
    match c
    case TypeIs(t) => m.listing.movieType == Some(t)
    case GenreIs(s) => HasRefSlug(m.media.category, s)
    case CountryIs(s) => HasRefSlug(m.media.country, s)
    case YearIs(y) => m.listing.year == Some(y)
    case NameOrOriginContains(k) => NameMatches(m.listing, k)
  }

  /** The criteria `findWithFilter` adds, in order: a string filter only when
    * it is neither null nor blank, the year whenever it is given. */
  function Criteria(f: MovieFilter): (cs: seq<Criterion>)
    ensures |cs| <= 5
  {
    (if NullOrBlank(f.movieType) then [] else [TypeIs(f.movieType.value)])
    + (if NullOrBlank(f.genreSlug) then [] else [GenreIs(f.genreSlug.value)])
    + (if NullOrBlank(f.countrySlug) then [] else [CountryIs(f.countrySlug.value)])
    + (if f.year.None? then [] else [YearIs(f.year.value)])
    + (if NullOrBlank(f.keyword) then [] else [NameOrOriginContains(f.keyword.value)])
  }

  predicate AllSatisfied(m: Movie, cs: seq<Criterion>)
  {
    forall i :: 0 <= i < |cs| ==> Satisfies(m, cs[i])
  }

  /** A document matches the query when it satisfies every criterion. */
  predicate Matches(m: Movie, f: MovieFilter)
  {
    AllSatisfied(m, Criteria(f))
  }

  /** The same predicate written as a conjunction over the filters. */
  predicate MatchesEach(m: Movie, f: MovieFilter)
  {
    && (NullOrBlank(f.movieType) || m.listing.movieType == f.movieType)
    && (NullOrBlank(f.genreSlug) || HasRefSlug(m.media.category, f.genreSlug.value))
    && (NullOrBlank(f.countrySlug) || HasRefSlug(m.media.country, f.countrySlug.value))
    && (f.year.None? || m.listing.year == f.year)
    && (NullOrBlank(f.keyword) || NameMatches(m.listing, f.keyword.value))
  }

  lemma AllSatisfiedAppend(m: Movie, a: seq<Criterion>, b: seq<Criterion>)
    ensures AllSatisfied(m, a + b) <==> AllSatisfied(m, a) && AllSatisfied(m, b)
  {
    if AllSatisfied(m, a) && AllSatisfied(m, b) {
      forall i | 0 <= i < |a + b|
        ensures Satisfies(m, (a + b)[i])
      {
        if i >= |a| { assert (a + b)[i] == b[i - |a|]; }
      }
    }
    if AllSatisfied(m, a + b) {
      forall i | 0 <= i < |a|
        ensures Satisfies(m, a[i])
      {
        assert (a + b)[i] == a[i];
      }
      forall i | 0 <= i < |b|
        ensures Satisfies(m, b[i])
      {
        assert (a + b)[|a| + i] == b[i];
      }
    }
  }

  lemma AllSatisfiedOne(m: Movie, c: Criterion)
    ensures AllSatisfied(m, [c]) <==> Satisfies(m, c)
  {
    assert [c][0] == c;
  }

  /** The criteria are combined conjunctively: the query matches exactly the
    * documents that pass every filter that was given. */
  lemma MatchesIsConjunction(m: Movie, f: MovieFilter)
    ensures Matches(m, f) <==> MatchesEach(m, f)
  {
    var t := if NullOrBlank(f.movieType) then [] else [TypeIs(f.movieType.value)];
    var g := if NullOrBlank(f.genreSlug) then [] else [GenreIs(f.genreSlug.value)];
    var c := if NullOrBlank(f.countrySlug) then [] else [CountryIs(f.countrySlug.value)];
    var y := if f.year.None? then [] else [YearIs(f.year.value)];
    var k := if NullOrBlank(f.keyword) then [] else [NameOrOriginContains(f.keyword.value)];
    assert Criteria(f) == t + g + c + y + k;
    AllSatisfiedAppend(m, t + g + c + y, k);
    AllSatisfiedAppend(m, t + g + c, y);
    AllSatisfiedAppend(m, t + g, c);
    AllSatisfiedAppend(m, t, g);
    if t != [] { AllSatisfiedOne(m, t[0]); }
    if g != [] { AllSatisfiedOne(m, g[0]); }
    if c != [] { AllSatisfiedOne(m, c[0]); }
    if y != [] { AllSatisfiedOne(m, y[0]); }
    if k != [] { AllSatisfiedOne(m, k[0]); }
    assert AllSatisfied(m, t) <==> (NullOrBlank(f.movieType) || m.listing.movieType == f.movieType);
    assert AllSatisfied(m, g) <==> (NullOrBlank(f.genreSlug) || HasRefSlug(m.media.category, f.genreSlug.value));
    assert AllSatisfied(m, c) <==> (NullOrBlank(f.countrySlug) || HasRefSlug(m.media.country, f.countrySlug.value));
    assert AllSatisfied(m, y) <==> (f.year.None? || m.listing.year == f.year);
    assert AllSatisfied(m, k) <==> (NullOrBlank(f.keyword) || NameMatches(m.listing, f.keyword.value));
  }

  /** With no filters (or only blank ones) every document matches. */
  lemma NoFilterMatchesAll(m: Movie, f: MovieFilter)
    requires NullOrBlank(f.movieType) && NullOrBlank(f.genreSlug) && NullOrBlank(f.countrySlug)
    requires f.year.None? && NullOrBlank(f.keyword)
    ensures Matches(m, f)
  {
    assert Criteria(f) == [];
  }

  /** The matching documents, in the order of the collection's sort. */
  function Matching(ordered: seq<Movie>, f: MovieFilter): (r: seq<Movie>)
    ensures |r| <= |ordered|
    ensures forall i :: 0 <= i < |r| ==> Matches(r[i], f)
    ensures forall m :: m in ordered && Matches(m, f) ==> m in r
    ensures forall m :: m in r ==> m in ordered
  {
    if ordered == [] then []
    else
      var rest := Matching(ordered[1..], f);
      if Matches(ordered[0], f) then [ordered[0]] + rest else rest
  }

  /** One page of `findWithFilter`: the page's documents and the count of
    * all matches. */
  datatype Page = Page(items: seq<Movie>, number: nat, size: nat, total: nat)

  /** The documents at positions `[offset, offset + size)`, as far as
    * there are any. */
  function Slice(all: seq<Movie>, offset: nat, size: nat): (r: seq<Movie>)
    ensures |r| == if offset >= |all| then 0 else if offset + size <= |all| then size else |all| - offset
    ensures forall i :: 0 <= i < |r| ==> r[i] == all[offset + i]
  {
    if offset >= |all| then []
    else if offset + size <= |all| then all[offset .. offset + size]
    else all[offset..]
  }

  /** `findWithFilter`: the page's offset is `index * size`; the total is
    * counted before the page is applied. */
  function FindWithFilter(ordered: seq<Movie>, f: MovieFilter, index: nat, size: nat): (p: Page)
    requires size >= 1
    ensures p.total == |Matching(ordered, f)| && p.number == index && p.size == size
    ensures forall i :: 0 <= i < |p.items| ==> Matches(p.items[i], f)
    ensures |p.items| <= size
  {
    var all := Matching(ordered, f);
    Page(Slice(all, index * size, size), index, size, |all|)
  }

  /** The total does not depend on the page asked for. */
  lemma TotalIgnoresPage(ordered: seq<Movie>, f: MovieFilter, i: nat, j: nat, s: nat, t: nat)
    requires s >= 1 && t >= 1
    ensures FindWithFilter(ordered, f, i, s).total == FindWithFilter(ordered, f, j, t).total
  {
  }

  /** Consecutive pages of one size cover the matches in order: the page
    * after `index` continues exactly where it stopped. */
  lemma {:induction false} PagesCover(all: seq<Movie>, n: nat, size: nat)
    requires size >= 1
    ensures Pages(all, n, size) == all[..if n * size <= |all| then n * size else |all|]
  {
    if n > 0 {
      PagesCover(all, n - 1, size);
      var lo := (n - 1) * size;
      assert lo + size == n * size;
      if lo < |all| {
        if n * size <= |all| {
          assert Slice(all, lo, size) == all[lo .. n * size];
          assert all[..lo] + all[lo .. n * size] == all[..n * size];
        } else {
          assert Slice(all, lo, size) == all[lo..];
          assert all[..lo] + all[lo..] == all;
        }
      }
    }
  }

  /** The first `n` pages one after another. */
  function Pages(all: seq<Movie>, n: nat, size: nat): seq<Movie>
  {
    if n == 0 then [] else Pages(all, n - 1, size) + Slice(all, (n - 1) * size, size)
  }

  /** `findDistinctYears`: every year value that occurs (null included). */
  function DistinctYears(docs: Docs): (r: set<Option<int>>)
    ensures forall id :: id in docs ==> docs[id].listing.year in r
    ensures forall y :: y in r ==> exists id :: id in docs && docs[id].listing.year == y
  {
    set id | id in docs :: docs[id].listing.year
  }
}
