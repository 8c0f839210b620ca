// Shared vocabulary: optional values, results, and the few java.lang.String
// operations whose exact behaviour the services depend on.

module Common {

  datatype Option<T> = None | Some(value: T)
  {
    function GetOr(default: T): (r: T)
      ensures this.Some? ==> r == value
      ensures this.None? ==> r == default
    {
      match this
      case None => default
      case Some(v) => v
    }
  }

  /** An operation that either returns a value or fails with an error, standing
    * in for a Java method that returns normally or throws. */
  datatype Result<T, E> = Ok(value: T) | Err(error: E)
  {
    predicate IsFailure() { Err? }
  }

  predicate StartsWith(s: string, prefix: string)
  {
    |prefix| <= |s| && s[..|prefix|] == prefix
  }

  predicate EndsWith(s: string, suffix: string)
  {
    |suffix| <= |s| && s[|s| - |suffix|..] == suffix
  }

  /** `s` occurs somewhere inside `t` (String.contains / a literal regex). */
  predicate ContainsSub(t: string, s: string)
    decreases |t|
  {
    StartsWith(t, s) || (t != [] && ContainsSub(t[1..], s))
  }

  lemma StartsWithAppend(p: string, s: string, prefix: string)
    requires StartsWith(p, prefix)
    ensures StartsWith(p + s, prefix)
  {
    assert (p + s)[..|prefix|] == p[..|prefix|];
  }

  /** Two strings that differ at a position inside both: no prefix relation. */
  lemma NotStartsWithAt(s: string, prefix: string, k: nat)
    requires k < |s| && k < |prefix| && s[k] != prefix[k]
    ensures !StartsWith(s, prefix)
  {
  }

  /** Character.isWhitespace, which String.isBlank uses. */
  predicate IsJavaWhitespace(c: char)
  {
    ('\t' <= c <= '\r') || ('\U{1C}' <= c <= ' ')
    || c == '\U{1680}' || ('\U{2000}' <= c <= '\U{2006}') || ('\U{2008}' <= c <= '\U{200A}')
    || c == '\U{2028}' || c == '\U{2029}' || c == '\U{205F}' || c == '\U{3000}'
  }

  /** String.isBlank: empty or only white space. */
  predicate IsBlank(s: string)
  {
    forall i :: 0 <= i < |s| ==> IsJavaWhitespace(s[i])
  }

  /** An Optional string that is null or blank (`s == null || s.isBlank()`). */
  predicate NullOrBlank(s: Option<string>)
  {
    s.None? || IsBlank(s.value)
  }

  /** String.trim: drop every leading and trailing character up to U+0020. */
  function TrimStart(s: string): (r: string)
    ensures |r| <= |s| && r == s[|s| - |r|..]
    ensures r == [] || r[0] > ' '
    ensures forall i :: 0 <= i < |s| - |r| ==> s[i] <= ' '
  {
    if s != [] && s[0] <= ' ' then TrimStart(s[1..]) else s
  }

  function TrimEnd(s: string): (r: string)
    ensures |r| <= |s| && r == s[..|r|]
    ensures r == [] || r[|r| - 1] > ' '
    ensures forall i :: |r| <= i < |s| ==> s[i] <= ' '
  {
    if s != [] && s[|s| - 1] <= ' ' then TrimEnd(s[..|s| - 1]) else s
  }

  function Trim(s: string): (r: string)
    ensures r == [] || (r[0] > ' ' && r[|r| - 1] > ' ')
  {
    TrimEnd(TrimStart(s))
  }

  /** Upper-casing of ASCII letters; other characters are left alone. */
  function UpperChar(c: char): char
  {
    if 'a' <= c <= 'z' then (c as int - 32) as char else c
  }

  function LowerChar(c: char): char
  {
    if 'A' <= c <= 'Z' then (c as int + 32) as char else c
  }

  function ToUpper(s: string): (r: string)
    ensures |r| == |s| && forall i :: 0 <= i < |s| ==> r[i] == UpperChar(s[i])
  {
    if s == [] then [] else [UpperChar(s[0])] + ToUpper(s[1..])
  }

  function ToLower(s: string): (r: string)
    ensures |r| == |s| && forall i :: 0 <= i < |s| ==> r[i] == LowerChar(s[i])
  {
    if s == [] then [] else [LowerChar(s[0])] + ToLower(s[1..])
  }

  lemma ToUpperIdempotent(s: string)
    ensures ToUpper(ToUpper(s)) == ToUpper(s)
  {
  }

  /** A string without lower-case ASCII letters is its own upper case. */
  lemma UpperFixed(s: string)
    requires forall i :: 0 <= i < |s| ==> !('a' <= s[i] <= 'z')
    ensures ToUpper(s) == s
  {
    assert forall i :: 0 <= i < |s| ==> ToUpper(s)[i] == s[i];
  }

  /** `s` split at every occurrence of `d`, keeping every piece, empty ones
    * included: the pieces joined with `d` give back `s`. */
  function Pieces(s: string, d: char): (r: seq<string>)
    ensures |r| >= 1
    ensures forall k :: 0 <= k < |r| ==> d !in r[k]
    decreases |s|
  {
    if s == [] then [[]]
    else if s[0] == d then [[]] + Pieces(s[1..], d)
    else
      var rest := Pieces(s[1..], d);
      [[s[0]] + rest[0]] + rest[1..]
  }

  /** String.join with a one-character separator. */
  function Join(parts: seq<string>, d: char): string
  {
    if parts == [] then []
    else if |parts| == 1 then parts[0]
    else parts[0] + [d] + Join(parts[1..], d)
  }

  lemma {:induction false} JoinPieces(s: string, d: char)
    ensures Join(Pieces(s, d), d) == s
    decreases |s|
  {
    if s == [] {
    } else if s[0] == d {
      JoinPieces(s[1..], d);
      assert Pieces(s, d) == [[]] + Pieces(s[1..], d);
      assert s == [d] + s[1..];
    } else {
      JoinPieces(s[1..], d);
      var rest := Pieces(s[1..], d);
      assert s == [s[0]] + s[1..];
      if |rest| == 1 {
      } else {
        assert Pieces(s, d)[1..] == rest[1..];
      }
    }
  }

  function DropTrailingEmpty(parts: seq<string>): (r: seq<string>)
    ensures |r| <= |parts| && r == parts[..|r|]
    ensures r == [] || r[|r| - 1] != []
    ensures forall k :: |r| <= k < |parts| ==> parts[k] == []
  {
    if parts == [] then []
    else if parts[|parts| - 1] == [] then DropTrailingEmpty(parts[..|parts| - 1])
    else parts
  }

  /** String.split on a one-character literal delimiter: with no delimiter in
    * `s` the result is `[s]`; otherwise the pieces with the trailing empty
    * ones removed. */
  function Split(s: string, d: char): (r: seq<string>)
  {
    if d !in s then [s] else DropTrailingEmpty(Pieces(s, d))
  }

  lemma {:induction false} PiecesOfDelimiterFree(s: string, d: char)
    requires d !in s
    ensures Pieces(s, d) == [s]
    decreases |s|
  {
    if s != [] {
      PiecesOfDelimiterFree(s[1..], d);
      assert s == [s[0]] + s[1..];
    }
  }

  /** A split never yields a piece containing the delimiter, and a string
    * without the delimiter splits to itself. */
  lemma SplitFacts(s: string, d: char)
    ensures forall k :: 0 <= k < |Split(s, d)| ==> d !in Split(s, d)[k]
    ensures d !in s ==> Split(s, d) == [s]
  {
  }

  /** A string made only of delimiters splits to nothing at all. */
  lemma {:induction false} SplitOfDelimitersOnly(s: string, d: char)
    requires s != [] && forall i :: 0 <= i < |s| ==> s[i] == d
    ensures Split(s, d) == []
  {
    assert s[0] == d;
    AllPiecesEmpty(s, d);
  }

  lemma {:induction false} AllPiecesEmpty(s: string, d: char)
    requires forall i :: 0 <= i < |s| ==> s[i] == d
    ensures forall k :: 0 <= k < |Pieces(s, d)| ==> Pieces(s, d)[k] == []
    ensures DropTrailingEmpty(Pieces(s, d)) == []
    decreases |s|
  {
    if s != [] {
      AllPiecesEmpty(s[1..], d);
      DropAllEmpty(Pieces(s, d));
    }
  }

  lemma {:induction false} DropAllEmpty(parts: seq<string>)
    requires forall k :: 0 <= k < |parts| ==> parts[k] == []
    ensures DropTrailingEmpty(parts) == []
    decreases |parts|
  {
    if parts != [] {
      DropAllEmpty(parts[..|parts| - 1]);
    }
  }

  lemma {:induction false} PiecesAfterDelimiterFree(a: string, rest: string, d: char)
    requires d !in a
    ensures Pieces(a + [d] + rest, d) == [a] + Pieces(rest, d)
    decreases |a|
  {
    if a == [] {
      assert a + [d] + rest == [d] + rest;
    } else {
      PiecesAfterDelimiterFree(a[1..], rest, d);
      assert (a + [d] + rest)[1..] == a[1..] + [d] + rest;
      assert [a[0]] + a[1..] == a;
    }
  }

  lemma {:induction false} PiecesOfJoin(parts: seq<string>, d: char)
    requires |parts| >= 1
    requires forall k :: 0 <= k < |parts| ==> d !in parts[k]
    ensures Pieces(Join(parts, d), d) == parts
    decreases |parts|
  {
    if |parts| == 1 {
      PiecesOfDelimiterFree(parts[0], d);
    } else {
      PiecesOfJoin(parts[1..], d);
      PiecesAfterDelimiterFree(parts[0], Join(parts[1..], d), d);
      assert [parts[0]] + parts[1..] == parts;
    }
  }

  /** Splitting a joined list gives the list back, provided no item contains
    * the separator and none is empty (String.split would drop a trailing
    * empty item). */
  lemma {:induction false} SplitJoin(parts: seq<string>, d: char)
    requires |parts| >= 1
    requires forall k :: 0 <= k < |parts| ==> d !in parts[k] && parts[k] != []
    ensures Split(Join(parts, d), d) == parts
  {
    PiecesOfJoin(parts, d);
    if |parts| > 1 {
      assert Join(parts, d) == parts[0] + [d] + Join(parts[1..], d);
      assert Join(parts, d)[|parts[0]|] == d;
    }
  }

  /** Decimal digits of a number (String.valueOf of a non-negative long). */
  function NatText(n: nat): (r: string)
    ensures |r| >= 1 && forall k :: 0 <= k < |r| ==> '0' <= r[k] <= '9'
    decreases n
  {
    if n < 10 then [(('0' as int) + n) as char] else NatText(n / 10) + [(('0' as int) + n % 10) as char]
  }

  /** String.valueOf of a long: a minus sign before a negative number. */
  function IntText(i: int): (r: string)
    ensures |r| >= 1 && (r[0] == '-' <==> i < 0)
  {
    if i < 0 then "-" + NatText(-i) else NatText(i)
  }

  /** A string is found inside any string that has it in the middle. */
  lemma {:induction false} ContainsInfix(a: string, b: string, c: string)
    ensures ContainsSub(a + b + c, b)
    decreases |a|
  {
    if a == [] {
      assert (a + b + c)[..|b|] == b;
    } else {
      ContainsInfix(a[1..], b, c);
      assert (a + b + c)[1..] == a[1..] + b + c;
    }
  }
}
