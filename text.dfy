/**
 * The string operations the event pipeline relies on: splitting on a
 * delimiter, extracting the first Paris postal code, removing spaces and
 * case-insensitive substring search.
 */
module Text {
  import opened Options
  import opened Sequences

  // ---------------------------------------------------------------- split

  /** Splits `s` on every occurrence of `sep`; empty segments are kept. */
  function Split(s: string, sep: char): (parts: seq<string>)
    ensures |parts| >= 1
    ensures forall p <- parts :: sep !in p
    decreases |s|
  {
    if s == [] then [""]
    else
      var rest := Split(s[1..], sep);
      if s[0] == sep then [""] + rest
      else [[s[0]] + rest[0]] + rest[1..]
  }

  /** Glues segments back together with `sep` between consecutive ones. */
  function Join(parts: seq<string>, sep: char): string
    requires |parts| >= 1
    decreases |parts|
  {
    if |parts| == 1 then parts[0] else parts[0] + [sep] + Join(parts[1..], sep)
  }

  /** Splitting loses nothing: joining the segments gives back the input. */
  lemma {:induction false} JoinSplit(s: string, sep: char)
    ensures Join(Split(s, sep), sep) == s
    decreases |s|
  {
    if s != [] {
      JoinSplit(s[1..], sep);
      var rest := Split(s[1..], sep);
      if s[0] == sep {
        assert Split(s, sep) == [""] + rest;
        assert Split(s, sep)[1..] == rest;
      } else {
        var parts := Split(s, sep);
        assert parts == [[s[0]] + rest[0]] + rest[1..];
        if |rest| == 1 {
          assert s == [s[0]] + s[1..];
        } else {
          assert parts[1..] == rest[1..];
          assert s == [s[0]] + s[1..];
        }
      }
    }
  }

  lemma {:induction false} SplitNoSep(a: string, sep: char)
    requires sep !in a
    ensures Split(a, sep) == [a]
    decreases |a|
  {
    if a != [] {
      SplitNoSep(a[1..], sep);
      assert [a[0]] + a[1..] == a;
    }
  }

  lemma {:induction false} SplitAtSep(a: string, sep: char, t: string)
    requires sep !in a
    ensures Split(a + [sep] + t, sep) == [a] + Split(t, sep)
    decreases |a|
  {
    var s := a + [sep] + t;
    if a == [] {
      assert s[0] == sep && s[1..] == t;
    } else {
      assert s[1..] == a[1..] + [sep] + t;
      SplitAtSep(a[1..], sep, t);
      assert [a[0]] + a[1..] == a;
    }
  }

  /** Segments free of the delimiter survive a join followed by a split. */
  lemma {:induction false} SplitJoin(parts: seq<string>, sep: char)
    requires |parts| >= 1
    requires forall p <- parts :: sep !in p
    ensures Split(Join(parts, sep), sep) == parts
    decreases |parts|
  {
    if |parts| == 1 {
      SplitNoSep(parts[0], sep);
    } else {
      SplitJoin(parts[1..], sep);
      SplitAtSep(parts[0], sep, Join(parts[1..], sep));
      assert [parts[0]] + parts[1..] == parts;
    }
  }

  /** Segment `i` (counting from 0) of `s` split on `sep`, or None when there are fewer segments. */
  function Segment(s: Option<string>, sep: char, i: nat): Option<string>
  {
    match s
    case None => None
    case Some(text) =>
      var parts := Split(text, sep);
      if i < |parts| then Some(parts[i]) else None
  }

  // ------------------------------------------------------ postal codes

  predicate IsDigit(c: char) { '0' <= c <= '9' }

  /** The pattern `75[0-9]{3}` matched against a whole string. */
  predicate IsParisCode(z: string)
  {
    |z| == 5 && z[0] == '7' && z[1] == '5' && IsDigit(z[2]) && IsDigit(z[3]) && IsDigit(z[4])
  }

  predicate MatchesAt(s: string, i: nat)
  {
    i + 5 <= |s| && IsParisCode(s[i..i + 5])
  }

  /** The leftmost position at or after `i` where the postal-code pattern matches. */
  function FirstMatchFrom(s: string, i: nat): (r: Option<nat>)
    requires i <= |s|
    ensures r.Some? ==> i <= r.value && MatchesAt(s, r.value)
    ensures r.Some? ==> forall j :: i <= j < r.value ==> !MatchesAt(s, j)
    ensures r.None? ==> forall j :: i <= j ==> !MatchesAt(s, j)
    decreases |s| - i
  {
    if i + 5 > |s| then None
    else if MatchesAt(s, i) then Some(i)
    else FirstMatchFrom(s, i + 1)
  }

  /**
   * The first substring of `s` matching `75[0-9]{3}`, as a regular
   * expression search with one capturing group returns it.
   */
  function ExtractParisCode(s: string): (r: Option<string>)
    ensures r.Some? <==> exists i: nat :: MatchesAt(s, i)
    ensures r.Some? ==> IsParisCode(r.value)
    ensures r.Some? ==> exists i: nat :: MatchesAt(s, i) && r.value == s[i..i + 5]
                                    && forall j :: 0 <= j < i ==> !MatchesAt(s, j)
  {
    match FirstMatchFrom(s, 0)
    case None => None
    case Some(i) => Some(s[i..i + 5])
  }

  predicate NotSpace(c: char) { c != ' ' }

  /** `s` with every space character removed. */
  function RemoveSpaces(s: string): (r: string)
  {
    Filter(NotSpace, s)
  }

  // ------------------------------------------- case-insensitive search

  function LowerChar(c: char): char
  {
    if 'A' <= c <= 'Z' then (c as int + 32) as char else c
  }

  function Lower(s: string): (r: string)
  {
    seq(|s|, i requires 0 <= i < |s| => LowerChar(s[i]))
  }

  predicate OccursAt(hay: string, needle: string, i: nat)
  {
    i + |needle| <= |hay| && hay[i..i + |needle|] == needle
  }

  /** Whether `needle` occurs in `hay` at some position at or after `i`. */
  function ContainsFrom(hay: string, needle: string, i: nat): (b: bool)
    requires i <= |hay|
    ensures b <==> exists j :: i <= j && OccursAt(hay, needle, j)
    decreases |hay| - i
  {
    if OccursAt(hay, needle, i) then true
    else if i == |hay| then false
    else ContainsFrom(hay, needle, i + 1)
  }

  /** Literal substring search, ignoring the case of ASCII letters. */
  function ContainsIgnoreCase(hay: string, needle: string): (b: bool)
    ensures b <==> exists j :: OccursAt(Lower(hay), Lower(needle), j)
  {
    ContainsFrom(Lower(hay), Lower(needle), 0)
  }
}
