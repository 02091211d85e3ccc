/**
 * The string operations the request handler relies on: `startsWith`,
 * substring search, `split` with a non-empty separator, `join`, and
 * lower-casing restricted to the ASCII letters.
 */
module Strings {
  import opened Wrappers

  /** `s` begins with `prefix` (String.prototype.startsWith). */
  predicate StartsWith(s: string, prefix: string) {
    |prefix| <= |s| && s[..|prefix|] == prefix
  }

  /** An occurrence of `sep` in `s` starts at index `i`. */
  predicate OccursAt(s: string, sep: string, i: int) {
    0 <= i && i + |sep| <= |s| && s[i..i + |sep|] == sep
  }

  /** No occurrence of `sep` in `s` starts at an index in `[lo, hi)`. */
  predicate NoneBetween(s: string, sep: string, lo: int, hi: int) {
    forall j :: lo <= j < hi ==> !OccursAt(s, sep, j)
  }

  /** No occurrence of `sep` in `s` starts before index `n`. */
  predicate NoneBefore(s: string, sep: string, n: int) {
    NoneBetween(s, sep, 0, n)
  }

  /** `sep` does not occur in `s` at all. */
  predicate Free(s: string, sep: string) {
    NoneBetween(s, sep, 0, |s| + 1)
  }

  /** `t` is a substring of `s`. */
  predicate Contains(s: string, t: string) {
    exists i | 0 <= i <= |s| :: OccursAt(s, t, i)
  }

  /** Leftmost occurrence of `sep` in `s` at or after index `from`. */
  function IndexFrom(s: string, sep: string, from: nat): (r: Option<nat>)
    requires |sep| > 0
    ensures r.Some? ==> from <= r.value && OccursAt(s, sep, r.value) && NoneBetween(s, sep, from, r.value)
    ensures r.None? ==> NoneBetween(s, sep, from, |s| + 1)
    decreases |s| - from
  {
    if from + |sep| > |s| then None
    else if s[from..from + |sep|] == sep then Some(from)
    else IndexFrom(s, sep, from + 1)
  }

  /** String.prototype.indexOf for a non-empty needle, `None` for -1. */
  function IndexOf(s: string, sep: string): (r: Option<nat>)
    requires |sep| > 0
    ensures r.Some? ==> OccursAt(s, sep, r.value) && NoneBefore(s, sep, r.value)
    ensures r.None? <==> Free(s, sep)
  {
    IndexFrom(s, sep, 0)
  }

  /** An occurrence with none before it is the one `IndexOf` finds. */
  lemma IndexOfUnique(s: string, sep: string, i: int)
    requires |sep| > 0
    requires OccursAt(s, sep, i) && NoneBefore(s, sep, i)
    ensures IndexOf(s, sep) == Some(i)
  {
  }

  /**
   * String.prototype.split for a non-empty separator: the pieces between
   * successive non-overlapping occurrences of `sep`, scanning from the left.
   */
  function Split(s: string, sep: string): (parts: seq<string>)
    requires |sep| > 0
    ensures |parts| >= 1
    decreases |s|
  {
    match IndexOf(s, sep)
    case None => [s]
    case Some(i) => [s[..i]] + Split(s[i + |sep|..], sep)
  }

  /** One step of the split: the piece before the first separator, then the split of the rest. */
  lemma SplitStep(s: string, sep: string, i: nat)
    requires |sep| > 0 && IndexOf(s, sep) == Some(i)
    ensures Split(s, sep) == [s[..i]] + Split(s[i + |sep|..], sep)
  {
  }

  /** Without a separator the split is the whole string. */
  lemma SplitWhole(s: string, sep: string)
    requires |sep| > 0 && Free(s, sep)
    ensures Split(s, sep) == [s]
  {
  }

  /** One mismatching character rules an occurrence out. */
  lemma NotAt(s: string, sep: string, j: nat, k: nat)
    requires k < |sep| && j + k < |s| && s[j + k] != sep[k]
    ensures !OccursAt(s, sep, j)
  {
  }

  /** No occurrence can start where the separator's first character is missing. */
  lemma NoStartChar(s: string, sep: string, lo: nat, hi: nat)
    requires |sep| > 0 && lo <= hi <= |s| && sep[0] !in s[lo..hi]
    ensures NoneBetween(s, sep, lo, hi)
  {
    forall j | lo <= j < hi
      ensures !OccursAt(s, sep, j)
    {
      assert s[lo..hi][j - lo] == s[j];
    }
  }

  /** Array.prototype.join. */
  function Join(parts: seq<string>, sep: string): string
    decreases |parts|
  {
    if |parts| == 0 then ""
    else if |parts| == 1 then parts[0]
    else parts[0] + sep + Join(parts[1..], sep)
  }

  /** Splitting loses nothing: joining the pieces back gives the input. */
  lemma {:induction false} SplitJoin(s: string, sep: string)
    requires |sep| > 0
    ensures Join(Split(s, sep), sep) == s
    decreases |s|
  {
    match IndexOf(s, sep)
    case None =>
    case Some(i) =>
      var rest := s[i + |sep|..];
      SplitJoin(rest, sep);
      SplitStep(s, sep, i);
      JoinCons(s[..i], Split(rest, sep), sep);
      CutAt(s, sep, i);
  }

  /** Joining a head onto a non-empty list puts the separator between them. */
  lemma JoinCons(head: string, tail: seq<string>, sep: string)
    requires |tail| >= 1
    ensures Join([head] + tail, sep) == head + sep + Join(tail, sep)
  {
    assert ([head] + tail)[1..] == tail;
  }

  /** An occurrence cuts the string into what comes before, the separator, and what comes after. */
  lemma CutAt(s: string, sep: string, i: int)
    requires OccursAt(s, sep, i)
    ensures s == s[..i] + sep + s[i + |sep|..]
  {
    assert s == s[..i] + s[i..i + |sep|] + s[i + |sep|..];
  }

  /** No piece of a split contains the separator. */
  lemma {:induction false} SplitPiecesFree(s: string, sep: string)
    requires |sep| > 0
    ensures forall k :: 0 <= k < |Split(s, sep)| ==> Free(Split(s, sep)[k], sep)
    decreases |s|
  {
    match IndexOf(s, sep)
    case None =>
    case Some(i) =>
      var rest := s[i + |sep|..];
      SplitPiecesFree(rest, sep);
      var head := s[..i];
      forall j | 0 <= j < |head| + 1
        ensures !OccursAt(head, sep, j)
      {
        if OccursAt(head, sep, j) {
          assert head[j..j + |sep|] == s[j..j + |sep|];
          assert OccursAt(s, sep, j);
        }
      }
      assert Split(s, sep) == [head] + Split(rest, sep);
  }

  // ASCII lower-casing

  predicate IsUpper(ch: char) {
    'A' <= ch <= 'Z'
  }

  function LowerChar(ch: char): char {
    if IsUpper(ch) then (ch as int + 32) as char else ch
  }

  /** No ASCII capital letter occurs in `s`. */
  predicate IsLowered(s: string) {
    forall i :: 0 <= i < |s| ==> !IsUpper(s[i])
  }

  /**
   * String.prototype.toLowerCase on the ASCII letters: every capital A-Z
   * becomes its small letter, every other character is kept.
   */
  function Lower(s: string): (r: string)
    ensures |r| == |s|
    ensures IsLowered(r)
    ensures forall i :: 0 <= i < |s| && !IsUpper(s[i]) ==> r[i] == s[i]
    ensures forall i :: 0 <= i < |s| && IsUpper(s[i]) ==> r[i] as int == s[i] as int + 32
  {
    seq(|s|, i requires 0 <= i < |s| => LowerChar(s[i]))
  }

  /** A string with no capitals is its own lower-case form. */
  lemma LowerOfLowered(s: string)
    requires IsLowered(s)
    ensures Lower(s) == s
  {
  }

  /** Lower-casing twice is lower-casing once. */
  lemma LowerIdempotent(s: string)
    ensures Lower(Lower(s)) == Lower(s)
  {
    LowerOfLowered(Lower(s));
  }
}
