/** ASCII models of the three JavaScript string built-ins the session
    controller relies on: `trim`, `toLowerCase` and `includes`. */
module Strings {

  // ---------------------------------------------------------------------
  // trim
  // ---------------------------------------------------------------------

  /** The ASCII characters `trim` removes: space, tab, line feed, vertical
      tab, form feed and carriage return. */
  predicate IsWhitespace(c: char) {
    c == ' ' || c == '\t' || c == '\n' || c == '\U{000B}' || c == '\U{000C}' || c == '\r'
  }

  /** Every character of `s` from index `lo` up to `hi` is whitespace. */
  predicate BlankBetween(s: string, lo: int, hi: int) {
    forall k :: lo <= k < hi && 0 <= k < |s| ==> IsWhitespace(s[k])
  }

  /** Every character of `s` is whitespace (so "" is blank too). */
  predicate IsBlank(s: string) {
    BlankBetween(s, 0, |s|)
  }

  /** Neither end of `s` is whitespace. */
  predicate IsTrimmed(s: string) {
    s == [] || (!IsWhitespace(s[0]) && !IsWhitespace(s[|s| - 1]))
  }

  /** `r` sits inside `s` starting at index `lo`. */
  predicate SitsAt(s: string, r: string, lo: int) {
    0 <= lo && lo + |r| <= |s| &&
    forall j {:trigger r[j]} :: 0 <= j < |r| ==> s[lo + j] == r[j]
  }

  /** `s` is `r` padded on both sides by whitespace, `r` starting at `lo`. */
  predicate PaddedAt(s: string, r: string, lo: int) {
    SitsAt(s, r, lo) && BlankBetween(s, 0, lo) && BlankBetween(s, lo + |r|, |s|)
  }

  /** `s` without its leading whitespace: a suffix of `s` that does not
      start with whitespace, everything before it being whitespace. */
  function TrimStart(s: string): (r: string)
    ensures |r| <= |s| && SitsAt(s, r, |s| - |r|)
    ensures BlankBetween(s, 0, |s| - |r|)
    ensures r == [] || !IsWhitespace(r[0])
  {
    if s != [] && IsWhitespace(s[0]) then
      var r := TrimStart(s[1..]);
      assert forall k :: 1 <= k < |s| ==> s[k] == s[1..][k - 1];
      r
    else
      s
  }

  /** `s` without its trailing whitespace: a prefix of `s` that does not
      end with whitespace, everything after it being whitespace. */
  function TrimEnd(s: string): (r: string)
    ensures |r| <= |s| && SitsAt(s, r, 0)
    ensures BlankBetween(s, |r|, |s|)
    ensures r == [] || !IsWhitespace(r[|r| - 1])
  {
    if s != [] && IsWhitespace(s[|s| - 1]) then
      TrimEnd(s[..|s| - 1])
    else
      s
  }

  /** `String.prototype.trim`, restricted to ASCII whitespace: what is
      left has no whitespace at either end. */
  function Trim(s: string): (r: string)
    ensures IsTrimmed(r)
  {
    TrimEnd(TrimStart(s))
  }

  /** The trimmed text is empty exactly when `s` is blank. */
  lemma TrimEmptyIffBlank(s: string)
    ensures Trim(s) == [] <==> IsBlank(s)
  {
    TrimEndEmpty(s, TrimStart(s));
  }

  /** `s` is its trimmed text padded by whitespace on both sides. */
  lemma TrimPadded(s: string)
    ensures exists lo :: PaddedAt(s, Trim(s), lo)
  {
    var t := TrimStart(s);
    TrimEndPadded(s, t);
    assert PaddedAt(s, Trim(s), |s| - |t|);
  }

  /** `s` is the trimmed text padded by whitespace, for the suffix `t` left
      by `TrimStart`. */
  lemma TrimEndPadded(s: string, t: string)
    requires |t| <= |s| && SitsAt(s, t, |s| - |t|) && BlankBetween(s, 0, |s| - |t|)
    ensures PaddedAt(s, TrimEnd(t), |s| - |t|)
  {
    SuffixBlank(s, t, |TrimEnd(t)|);
  }

  /** Whitespace at the tail of `t`, which ends `s`, is whitespace at the
      tail of `s`. */
  lemma SuffixBlank(s: string, t: string, m: int)
    requires |t| <= |s| && SitsAt(s, t, |s| - |t|) && 0 <= m && BlankBetween(t, m, |t|)
    ensures BlankBetween(s, |s| - |t| + m, |s|)
  {
    var lo := |s| - |t|;
    forall k | lo + m <= k < |s|
      ensures IsWhitespace(s[k])
    {
      assert s[lo + (k - lo)] == t[k - lo];
    }
  }

  /** The trimmed text is empty exactly when `s` is blank, for the suffix
      `t` left by `TrimStart`. */
  lemma TrimEndEmpty(s: string, t: string)
    requires |t| <= |s| && SitsAt(s, t, |s| - |t|) && BlankBetween(s, 0, |s| - |t|)
    requires t == [] || !IsWhitespace(t[0])
    ensures TrimEnd(t) == [] <==> IsBlank(s)
  {
    var lo := |s| - |t|;
    if TrimEnd(t) == [] {
      assert t == [];
    } else {
      assert t[0] == s[lo];
    }
  }

  /** Trimming a string that is already trimmed changes nothing; in
      particular `Trim` is idempotent. */
  lemma {:induction false} TrimmedIsFixed(s: string)
    requires IsTrimmed(s)
    ensures Trim(s) == s
  {
    assert TrimStart(s) == s;
    assert TrimEnd(s) == s;
  }

  lemma TrimIdempotent(s: string)
    ensures Trim(Trim(s)) == Trim(s)
  {
    TrimmedIsFixed(Trim(s));
  }

  // ---------------------------------------------------------------------
  // toLowerCase
  // ---------------------------------------------------------------------

  predicate IsUpper(c: char) {
    'A' <= c <= 'Z'
  }

  function LowerChar(c: char): char {
    if IsUpper(c) then (c as int + 32) as char else c
  }

  /** `String.prototype.toLowerCase`, restricted to ASCII letters: the same
      length, no capital letter left, each capital replaced by its small
      letter and every other character kept. */
  function ToLower(s: string): (r: string)
    ensures |r| == |s|
    ensures forall i :: 0 <= i < |r| ==> !IsUpper(r[i])
    ensures forall i :: 0 <= i < |s| && !IsUpper(s[i]) ==> r[i] == s[i]
    ensures forall i :: 0 <= i < |s| && IsUpper(s[i]) ==> r[i] as int == s[i] as int + 32
  {
    seq(|s|, i requires 0 <= i < |s| => LowerChar(s[i]))
  }

  /** Lowering twice is lowering once. */
  lemma ToLowerIdempotent(s: string)
    ensures ToLower(ToLower(s)) == ToLower(s)
  {
  }

  /** No character of `s` lowers to `c`: `s` holds the letter `c` in
      neither case. */
  predicate LacksLetter(s: string, c: char) {
    forall i :: 0 <= i < |s| ==> LowerChar(s[i]) != c
  }

  /** A letter missing from `s` in both cases is missing from its lowered
      form. */
  lemma AbsentAfterLowering(s: string, c: char)
    requires LacksLetter(s, c)
    ensures c !in ToLower(s)
  {
  }

  /** No two neighbouring characters of `s` lower to `a` followed by
      `b`. */
  predicate LacksPair(s: string, a: char, b: char) {
    forall i :: 0 <= i < |s| - 1 ==> LowerChar(s[i]) != a || LowerChar(s[i + 1]) != b
  }

  // ---------------------------------------------------------------------
  // includes
  // ---------------------------------------------------------------------

  /** `w` occurs in `s` starting at index `i`. */
  predicate OccursAt(s: string, w: string, i: int) {
    0 <= i && i + |w| <= |s| && s[i..i + |w|] == w
  }

  /** `String.prototype.includes`: a left-to-right scan that compares `w`
      with each position of `s` in turn. It succeeds exactly when `w`
      occurs somewhere in `s`; the empty word occurs everywhere. */
  function Includes(s: string, w: string): (r: bool)
    ensures r <==> exists i :: OccursAt(s, w, i)
    decreases |s|
  {
    if |w| > |s| then
      assert forall i :: !OccursAt(s, w, i);
      false
    else if s[..|w|] == w then
      assert OccursAt(s, w, 0);
      true
    else
      ShiftOccurrence(s, w);
      Includes(s[1..], w)
  }

  /** When `w` does not start `s`, it occurs in `s` exactly when it occurs
      in `s` without its first character. */
  lemma ShiftOccurrence(s: string, w: string)
    requires |w| <= |s| && s[..|w|] != w
    ensures (exists i :: OccursAt(s[1..], w, i)) <==> (exists i :: OccursAt(s, w, i))
  {
    if i :| OccursAt(s[1..], w, i) {
      assert s[i + 1..i + 1 + |w|] == s[1..][i..i + |w|];
      assert OccursAt(s, w, i + 1);
    }
    if i :| OccursAt(s, w, i) {
      assert i != 0;
      assert s[1..][i - 1..i - 1 + |w|] == s[i..i + |w|];
      assert OccursAt(s[1..], w, i - 1);
    }
  }

  /** A word with a character that `s` lacks occurs nowhere in `s`. */
  lemma NoOccurrenceWithoutChar(s: string, w: string, c: char)
    requires c in w && c !in s
    ensures forall i :: !OccursAt(s, w, i)
  {
  }

  /** A word whose letters at `k` and `k + 1` never stand side by side in
      the lowered `s` occurs nowhere in it. */
  lemma NoOccurrenceWithoutPair(s: string, w: string, k: int)
    requires 0 <= k && k + 1 < |w| && LacksPair(s, w[k], w[k + 1])
    ensures forall i :: !OccursAt(ToLower(s), w, i)
  {
    var l := ToLower(s);
    forall i
      ensures !OccursAt(l, w, i)
    {
      if 0 <= i && i + |w| <= |l| {
        assert l[i..i + |w|][k] == LowerChar(s[i + k]);
        assert l[i..i + |w|][k + 1] == LowerChar(s[i + k + 1]);
      }
    }
  }
}
