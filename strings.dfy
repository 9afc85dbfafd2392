/** The Python `str` operations the assistant relies on: `isspace`, `strip`,
    `in`, `rfind`, `startswith` and `endswith`, over strings of code points. */
module Strings {

  /** Python's `str.isspace()` for one code point: the 29 whitespace code
      points that `str.strip()` with no argument removes. */
  predicate IsSpace(c: char) {
    c == '\t' || c == '\n' || c == '\U{B}' || c == '\U{C}' || c == '\r' || c == '\U{1C}'
    || c == '\U{1D}' || c == '\U{1E}' || c == '\U{1F}' || c == ' ' || c == '\U{85}' || c == '\U{A0}'
    || c == '\U{1680}' || c == '\U{2000}' || c == '\U{2001}' || c == '\U{2002}' || c == '\U{2003}'
    || c == '\U{2004}' || c == '\U{2005}' || c == '\U{2006}' || c == '\U{2007}' || c == '\U{2008}'
    || c == '\U{2009}' || c == '\U{200A}' || c == '\U{2028}' || c == '\U{2029}' || c == '\U{202F}'
    || c == '\U{205F}' || c == '\U{3000}'
  }

  /** `s` neither begins nor ends with whitespace. */
  predicate Trimmed(s: string) {
    s == [] || (!IsSpace(s[0]) && !IsSpace(s[|s| - 1]))
  }

  /** `r` is the slice `s[i..j]`, and everything of `s` outside it is whitespace. */
  predicate SliceInSpace(r: string, s: string, i: int, j: int) {
    0 <= i <= j <= |s| && r == s[i..j]
    && (forall k | 0 <= k < i :: IsSpace(s[k]))
    && (forall k | j <= k < |s| :: IsSpace(s[k]))
  }

  /** `r` is a slice of `s` whose outside consists of whitespace only. */
  ghost predicate StrippedFrom(r: string, s: string) {
    exists i, j :: SliceInSpace(r, s, i, j)
  }

  /** `r` is a contiguous slice of `s`. */
  ghost predicate Substring(r: string, s: string) {
    exists i, j | 0 <= i <= j <= |s| :: r == s[i..j]
  }

  /** The first index at or after `from` that does not hold whitespace
      (`|s|` when there is none). */
  function FirstNonSpace(s: string, from: nat): (n: nat)
    requires from <= |s|
    ensures from <= n <= |s|
    ensures n < |s| ==> !IsSpace(s[n])
    decreases |s| - from
  {
    if from == |s| || !IsSpace(s[from]) then from else FirstNonSpace(s, from + 1)
  }

  /** Everything `FirstNonSpace` skips is whitespace. */
  lemma {:induction false} FirstNonSpaceSkipsSpace(s: string, from: nat)
    requires from <= |s|
    ensures forall k | from <= k < FirstNonSpace(s, from) :: IsSpace(s[k])
    decreases |s| - from
  {
    if from < |s| && IsSpace(s[from]) {
      FirstNonSpaceSkipsSpace(s, from + 1);
    }
  }

  /** The smallest `n <= to` such that `s[n..to]` is all whitespace. */
  function EndOfNonSpace(s: string, to: nat): (n: nat)
    requires to <= |s|
    ensures n <= to
    ensures n > 0 ==> !IsSpace(s[n - 1])
  {
    if to == 0 || !IsSpace(s[to - 1]) then to else EndOfNonSpace(s, to - 1)
  }

  /** Everything `EndOfNonSpace` drops is whitespace. */
  lemma {:induction false} EndOfNonSpaceDropsSpace(s: string, to: nat)
    requires to <= |s|
    ensures forall k | EndOfNonSpace(s, to) <= k < to :: IsSpace(s[k])
  {
    if to > 0 && IsSpace(s[to - 1]) {
      EndOfNonSpaceDropsSpace(s, to - 1);
    }
  }

  /** Python's `s.strip()`. Its properties are the lemmas below. */
  function Strip(s: string): string {
    var lo := FirstNonSpace(s, 0);
    var hi := EndOfNonSpace(s, |s|);
    EndOfNonSpaceDropsSpace(s, |s|);
    if lo == |s| then "" else s[lo..hi]
  }

  /** `strip()` leaves no whitespace at either end and never lengthens. */
  lemma StripIsTrimmed(s: string)
    ensures Trimmed(Strip(s)) && |Strip(s)| <= |s|
  {
    EndOfNonSpaceDropsSpace(s, |s|);
  }

  /** `strip()` removes whitespace only, and only at the two ends. */
  lemma StripIsSlice(s: string)
    ensures StrippedFrom(Strip(s), s)
  {
    var lo := FirstNonSpace(s, 0);
    var hi := EndOfNonSpace(s, |s|);
    FirstNonSpaceSkipsSpace(s, 0);
    EndOfNonSpaceDropsSpace(s, |s|);
    if lo == |s| {
      assert SliceInSpace("", s, 0, 0);
    } else {
      assert lo < hi;
      assert SliceInSpace(s[lo..hi], s, lo, hi);
    }
  }

  /** `sub` occurs in `s` starting at index `i`. */
  predicate OccursAt(s: string, sub: string, i: int) {
    0 <= i && i + |sub| <= |s| && s[i..i + |sub|] == sub
  }

  /** `sub` occurs somewhere in `s`. */
  ghost predicate OccursIn(s: string, sub: string) {
    exists i | 0 <= i <= |s| :: OccursAt(s, sub, i)
  }

  /** Python's `s.rfind(sub)`: the highest index at which `sub` occurs in
      `s`, or -1 when it does not occur. */
  function RFind(s: string, sub: string): (r: int)
    ensures -1 <= r <= |s|
    ensures r >= 0 ==> OccursAt(s, sub, r)
  {
    RFindAtOrBelow(s, sub, |s|)
  }

  /** The highest index `i <= from` at which `sub` occurs in `s`, or -1. */
  function RFindAtOrBelow(s: string, sub: string, from: int): (r: int)
    requires -1 <= from <= |s|
    ensures -1 <= r <= from
    ensures r >= 0 ==> OccursAt(s, sub, r)
    decreases from + 1
  {
    if from < 0 then -1
    else if OccursAt(s, sub, from) then from
    else RFindAtOrBelow(s, sub, from - 1)
  }

  lemma {:induction false} RFindAtOrBelowIsLast(s: string, sub: string, from: int)
    requires -1 <= from <= |s|
    ensures forall i | RFindAtOrBelow(s, sub, from) < i <= from :: !OccursAt(s, sub, i)
    decreases from + 1
  {
    if from >= 0 && !OccursAt(s, sub, from) {
      RFindAtOrBelowIsLast(s, sub, from - 1);
    }
  }

  /** `rfind` answers the last occurrence: there is none above it, and it
      is -1 exactly when `sub` does not occur at all. */
  lemma RFindIsLast(s: string, sub: string)
    ensures forall i | RFind(s, sub) < i <= |s| :: !OccursAt(s, sub, i)
    ensures RFind(s, sub) >= 0 <==> OccursIn(s, sub)
  {
    RFindAtOrBelowIsLast(s, sub, |s|);
  }

  /** Python's `sub in s`. */
  predicate Contains(s: string, sub: string) {
    RFind(s, sub) >= 0
  }

  /** Python's `s.startswith(prefix)`. */
  predicate StartsWith(s: string, prefix: string) {
    |prefix| <= |s| && s[..|prefix|] == prefix
  }

  /** Python's `s.endswith(suffix)`. */
  predicate EndsWith(s: string, suffix: string) {
    |suffix| <= |s| && s[|s| - |suffix|..] == suffix
  }

  /** A concatenation starts with its first part and ends with its last. */
  lemma ConcatEnds(a: string, b: string, c: string)
    ensures StartsWith(a + b + c, a) && EndsWith(a + b + c, c)
  {
    assert (a + b + c)[..|a|] == a;
    assert (a + b + c)[|a + b|..] == c;
  }

  /** A string without whitespace at either end is its own strip. */
  lemma StripTrimmed(s: string)
    requires Trimmed(s)
    ensures Strip(s) == s
  {
  }

  /** Stripping twice is stripping once. */
  lemma StripIdempotent(s: string)
    ensures Strip(Strip(s)) == Strip(s)
  {
    StripIsTrimmed(s);
    StripTrimmed(Strip(s));
  }

  /** A string of whitespace only strips to the empty string. */
  lemma StripAllSpace(s: string)
    requires forall k | 0 <= k < |s| :: IsSpace(s[k])
    ensures Strip(s) == ""
  {
  }

  /** `strip()` is determined by its two properties: a slice without
      whitespace at its ends, with only whitespace outside it, is the strip. */
  lemma StripUnique(r: string, s: string)
    requires Trimmed(r) && StrippedFrom(r, s)
    ensures r == Strip(s)
  {
    var i, j :| SliceInSpace(r, s, i, j);
    if r == [] {
      StripAllSpace(s);
    } else {
      var lo := FirstNonSpace(s, 0);
      var hi := EndOfNonSpace(s, |s|);
      FirstNonSpaceSkipsSpace(s, 0);
      EndOfNonSpaceDropsSpace(s, |s|);
      assert !IsSpace(s[i]) && !IsSpace(s[j - 1]);
      assert lo == i;
      assert hi == j;
    }
  }

  /** Whitespace appended to a string does not change its strip. */
  lemma StripTrailingSpace(s: string, tail: string)
    requires forall k | 0 <= k < |tail| :: IsSpace(tail[k])
    ensures Strip(s + tail) == Strip(s)
  {
    var r := Strip(s);
    StripIsTrimmed(s);
    StripIsSlice(s);
    var i, j :| SliceInSpace(r, s, i, j);
    var st := s + tail;
    assert st[i..j] == s[i..j];
    forall k | j <= k < |st|
      ensures IsSpace(st[k])
    {
      if k < |s| { assert st[k] == s[k]; } else { assert st[k] == tail[k - |s|]; }
    }
    assert SliceInSpace(r, st, i, j);
    StripUnique(r, st);
  }

  /** A suffix that begins and ends with non-whitespace survives `strip()`. */
  lemma StripKeepsSuffix(s: string, suffix: string)
    requires EndsWith(s, suffix) && suffix != []
    requires !IsSpace(suffix[0]) && !IsSpace(suffix[|suffix| - 1])
    ensures EndsWith(Strip(s), suffix)
  {
    var n := |s| - |suffix|;
    assert s[n] == suffix[0] && s[|s| - 1] == suffix[|suffix| - 1];
    var lo := FirstNonSpace(s, 0);
    FirstNonSpaceSkipsSpace(s, 0);
    assert EndOfNonSpace(s, |s|) == |s|;
    assert lo <= n;
    assert Strip(s) == s[lo..];
    assert s[lo..][|s[lo..]| - |suffix|..] == s[n..];
  }
}
