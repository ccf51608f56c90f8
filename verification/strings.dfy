/**
 The string primitives the console relies on, as JavaScript defines them:
 `String.prototype.trim`, `toLowerCase` (ASCII letters only), `includes`,
 `replace` with a string pattern (first occurrence only) and `Array.prototype.join`.
 */
module Strings {
  import opened Wrappers

  /** The code points `trim` strips: ECMAScript WhiteSpace (tab, vertical tab, form
      feed, space, no-break space, byte order mark and the Unicode space separators)
      and LineTerminator (line feed, carriage return, U+2028, U+2029). */
  predicate IsSpace(c: char) {
    || c == ' '
    || '\t' <= c <= '\r'
    || c == '\U{00A0}' || c == '\U{1680}'
    || '\U{2000}' <= c <= '\U{200A}'
    || c == '\U{2028}' || c == '\U{2029}' || c == '\U{202F}' || c == '\U{205F}'
    || c == '\U{3000}' || c == '\U{FEFF}'
  }

  /** The end of the whitespace run of `s` that starts at `i`. */
  function SpanFrom(s: string, i: nat): (k: nat)
    requires i <= |s|
    ensures i <= k <= |s|
    ensures forall j | i <= j < k :: IsSpace(s[j])
    ensures k < |s| ==> !IsSpace(s[k])
    decreases |s| - i
  {
    if i < |s| && IsSpace(s[i]) then SpanFrom(s, i + 1) else i
  }

  /** The start of the whitespace run of `s` that ends just before `e`, looking no
      further back than `lo`. */
  function SpanBack(s: string, lo: nat, e: nat): (f: nat)
    requires lo <= e <= |s|
    ensures lo <= f <= e
    ensures forall j | f <= j < e :: IsSpace(s[j])
    ensures f > lo ==> !IsSpace(s[f - 1])
    decreases e
  {
    if e > lo && IsSpace(s[e - 1]) then SpanBack(s, lo, e - 1) else e
  }

  /** `r` is `s` with exactly `k` whitespace characters cut in front and only
      whitespace cut behind. */
  predicate TrimmedAt(s: string, r: string, k: nat) {
    && k + |r| <= |s|
    && r == s[k .. k + |r|]
    && (forall i :: 0 <= i < k ==> IsSpace(s[i]))
    && (forall i :: k + |r| <= i < |s| ==> IsSpace(s[i]))
  }

  /** `r` neither starts nor ends with whitespace. */
  predicate TightEdges(r: string) {
    r != [] ==> !IsSpace(r[0]) && !IsSpace(r[|r| - 1])
  }

  /** `s.trim()`: the leading whitespace is skipped, then the trailing whitespace of
      what is left. */
  function Trim(s: string): (r: string)
    ensures |r| <= |s|
  {
    var k := SpanFrom(s, 0);
    s[k .. SpanBack(s, k, |s|)]
  }

  /** `trim` cuts the leading whitespace run in front and only whitespace behind. */
  lemma TrimCuts(s: string)
    ensures TrimmedAt(s, Trim(s), SpanFrom(s, 0))
  {
    var k := SpanFrom(s, 0);
    var e := SpanBack(s, k, |s|);
    assert Trim(s) == s[k..e];
  }

  /** What `trim` leaves neither starts nor ends with whitespace. */
  lemma TrimTight(s: string)
    ensures TightEdges(Trim(s))
  {
    var k := SpanFrom(s, 0);
    var e := SpanBack(s, k, |s|);
    var r := s[k..e];
    assert Trim(s) == r;
    if k < e {
      assert r[0] == s[k];
      assert r[|r| - 1] == s[e - 1];
    }
  }

  /** `trim` leaves nothing exactly when every character is whitespace. */
  lemma TrimEmptyIff(s: string)
    ensures Trim(s) == [] <==> forall i :: 0 <= i < |s| ==> IsSpace(s[i])
  {
    TrimCuts(s);
    if forall i :: 0 <= i < |s| ==> IsSpace(s[i]) {
      assert SpanFrom(s, 0) == |s|;
    }
  }

  /** What `trim` leaves: an infix of `s` cut only at whitespace, neither starting nor
      ending with whitespace, and empty exactly when `s` is all whitespace. */
  lemma TrimSpec(s: string)
    ensures TrimmedAt(s, Trim(s), SpanFrom(s, 0))
    ensures TightEdges(Trim(s))
    ensures Trim(s) == [] <==> forall i :: 0 <= i < |s| ==> IsSpace(s[i])
  {
    TrimCuts(s);
    TrimTight(s);
    TrimEmptyIff(s);
  }

  /** Conversely, any whitespace-cut infix with tight edges is the trim: the two
      properties of `TrimSpec` determine `trim` completely. */
  lemma TrimUnique(s: string, r: string, k: nat)
    requires TrimmedAt(s, r, k) && TightEdges(r)
    ensures r == Trim(s)
  {
    var k0 := SpanFrom(s, 0);
    var e0 := SpanBack(s, k0, |s|);
    if r == [] {
      assert forall i :: 0 <= i < |s| ==> IsSpace(s[i]);
      assert k0 == |s|;
    } else {
      assert s[k] == r[0];
      assert s[k + |r| - 1] == r[|r| - 1];
      assert k0 == k;
      assert e0 == k + |r|;
    }
  }

  /** A string without whitespace at either end is its own trim. */
  lemma TrimOfTrimmed(s: string)
    requires TightEdges(s)
    ensures Trim(s) == s
  {
    assert s[0..|s|] == s;
    TrimUnique(s, s, 0);
  }

  /** `s` consists of whitespace only, so that `!s.trim()` holds. */
  predicate IsBlank(s: string) {
    s == [] || (IsSpace(s[0]) && IsBlank(s[1..]))
  }

  /** Blank means every character is whitespace. */
  lemma {:induction false} BlankMeansAllSpace(s: string)
    ensures IsBlank(s) <==> forall i :: 0 <= i < |s| ==> IsSpace(s[i])
  {
    if s != [] {
      BlankMeansAllSpace(s[1..]);
      assert forall i :: 1 <= i < |s| ==> s[i] == s[1..][i - 1];
    }
  }

  /** The blank test is JavaScript's `!s.trim()`: trimming leaves the empty string. */
  lemma BlankIffTrimEmpty(s: string)
    ensures IsBlank(s) <==> Trim(s) == ""
  {
    BlankMeansAllSpace(s);
    TrimSpec(s);
  }

  lemma TrimIdempotent(s: string)
    ensures Trim(Trim(s)) == Trim(s)
  {
    TrimSpec(s);
    TrimOfTrimmed(Trim(s));
  }

  /** Whitespace in front of a string never survives `trim`. */
  lemma TrimSkipsLeadingSpace(c: char, s: string)
    requires IsSpace(c)
    ensures Trim([c] + s) == Trim(s)
  {
    var r := Trim(s);
    var k := SpanFrom(s, 0);
    var cs := [c] + s;
    assert TrimmedAt(cs, r, k + 1) by {
      TrimCuts(s);
      assert cs[k + 1 .. k + 1 + |r|] == s[k .. k + |r|];
      forall i | 0 <= i < k + 1
        ensures IsSpace(cs[i])
      {
        if i > 0 { assert cs[i] == s[i - 1]; }
      }
      forall i | k + 1 + |r| <= i < |cs|
        ensures IsSpace(cs[i])
      {
        assert cs[i] == s[i - 1];
      }
    }
    TrimTight(s);
    TrimUnique(cs, r, k + 1);
  }

  /** ASCII `toLowerCase`. */
  function LowerChar(c: char): (d: char)
    ensures 'A' <= c <= 'Z' ==> d as int == c as int + 32 && 'a' <= d <= 'z'
    ensures !('A' <= c <= 'Z') ==> d == c
  {
    if 'A' <= c <= 'Z' then (c as int + 32) as char else c
  }

  /** `s.toLowerCase()` on ASCII letters: same length, each character lowered in place. */
  function Lower(s: string): (r: string)
    ensures |r| == |s|
    ensures forall i :: 0 <= i < |s| ==> r[i] == LowerChar(s[i])
  {
    seq(|s|, i requires 0 <= i < |s| => LowerChar(s[i]))
  }

  /** `s` holds no upper-case ASCII letter. */
  predicate NoUpper(s: string) {
    forall i | 0 <= i < |s| :: !('A' <= s[i] <= 'Z')
  }

  /** A string without ASCII capitals is already lower case. */
  lemma LowerOfLower(s: string)
    requires NoUpper(s)
    ensures Lower(s) == s
  {
  }

  lemma LowerIdempotent(s: string)
    ensures Lower(Lower(s)) == Lower(s)
  {
    LowerOfLower(Lower(s));
  }

  /** `p` occurs in `s` starting at index `i`. */
  predicate OccursAt(s: string, p: string, i: nat) {
    i + |p| <= |s| && s[i .. i + |p|] == p
  }

  /** `s.indexOf(p)`, searching from position `k` on. */
  function IndexFrom(s: string, p: string, k: nat): (r: Option<nat>)
    requires k <= |s|
    ensures r.Some? ==> k <= r.value && OccursAt(s, p, r.value)
    ensures r.Some? ==> forall j :: k <= j < r.value ==> !OccursAt(s, p, j)
    ensures r.None? ==> forall j: nat :: k <= j ==> !OccursAt(s, p, j)
    decreases |s| - k
  {
    if OccursAt(s, p, k) then Some(k)
    else if k == |s| then None
    else IndexFrom(s, p, k + 1)
  }

  /** `s.indexOf(p)`: the first position where `p` occurs, if any. */
  function IndexOf(s: string, p: string): (r: Option<nat>)
    ensures r.Some? ==> OccursAt(s, p, r.value)
    ensures r.Some? ==> forall j :: 0 <= j < r.value ==> !OccursAt(s, p, j)
    ensures r.None? ==> forall j: nat :: !OccursAt(s, p, j)
  {
    IndexFrom(s, p, 0)
  }

  /** `s.includes(p)`: `p` occurs somewhere in `s`. */
  predicate Contains(s: string, p: string) {
    exists i: nat | i <= |s| :: OccursAt(s, p, i)
  }

  /** `includes` agrees with `indexOf`: a pattern occurs exactly when it has a first
      position. */
  lemma ContainsIffIndexOf(s: string, p: string)
    ensures Contains(s, p) <==> IndexOf(s, p).Some?
  {
  }

  /** `c` occurs nowhere in `s`. */
  predicate Lacks(s: string, c: char) {
    forall i | 0 <= i < |s| :: s[i] != c
  }

  /** A character of the pattern that the text lacks rules the pattern out. */
  lemma NotContainsByChar(s: string, p: string, k: nat)
    requires k < |p| && Lacks(s, p[k])
    ensures !Contains(s, p)
  {
    forall i: nat
      ensures !OccursAt(s, p, i)
    {
      if i + |p| <= |s| {
        assert s[i .. i + |p|][k] == s[i + k];
      }
    }
  }

  /** A pattern whose first character occurs in the text only once, at a place where
      the rest of the pattern does not follow, does not occur. */
  lemma NotContainsAtSoleAnchor(pre: string, c: char, post: string, p: string, j: nat)
    requires p != [] && Lacks(pre, p[0]) && Lacks(post, p[0])
    requires j < |p| && j <= |post| && ([c] + post)[j] != p[j]
    ensures !Contains(pre + [c] + post, p)
  {
    var s := pre + [c] + post;
    forall i: nat
      ensures !OccursAt(s, p, i)
    {
      if i + |p| <= |s| {
        var w := s[i .. i + |p|];
        if i < |pre| {
          assert w[0] == pre[i];
        } else if i == |pre| {
          assert w[j] == ([c] + post)[j];
        } else {
          assert w[0] == post[i - |pre| - 1];
        }
      }
    }
  }

  /** A letter absent from `s` in either case is absent from its lower-cased form. */
  lemma LowerAvoids(s: string, c: char)
    requires 'a' <= c <= 'z' && Lacks(s, c) && Lacks(s, (c as int - 32) as char)
    ensures Lacks(Lower(s), c)
  {
  }

  /** Every string contains itself, and the empty string occurs everywhere. */
  lemma ContainsSelf(s: string)
    ensures Contains(s, s)
    ensures Contains(s, "")
  {
    assert OccursAt(s, s, 0);
    assert OccursAt(s, "", 0);
  }

  /** `s.replace(p, rep)` with a string pattern: only the first occurrence is replaced. */
  function ReplaceFirst(s: string, p: string, rep: string): (r: string)
    ensures !Contains(s, p) ==> r == s
    ensures Contains(s, p) ==> |r| == |s| - |p| + |rep|
    ensures Contains(s, p) ==>
              exists i: nat :: && OccursAt(s, p, i)
                               && (forall j :: 0 <= j < i ==> !OccursAt(s, p, j))
                               && r == s[..i] + rep + s[i + |p|..]
  {
    match IndexOf(s, p)
    case None => s
    case Some(i) => s[..i] + rep + s[i + |p|..]
  }

  /** A string that starts with the pattern loses exactly that prefix. */
  lemma ReplaceFirstAtStart(p: string, rest: string)
    ensures ReplaceFirst(p + rest, p, "") == rest
  {
    assert OccursAt(p + rest, p, 0);
    assert IndexOf(p + rest, p) == Some(0);
    assert (p + rest)[|p|..] == rest;
  }

  /** An occurrence in the tail of a concatenation is an occurrence in the whole. */
  lemma ContainsAppendLeft(a: string, b: string, p: string)
    requires Contains(b, p)
    ensures Contains(a + b, p)
  {
    var i: nat :| i <= |b| && OccursAt(b, p, i);
    assert (a + b)[|a| + i .. |a| + i + |p|] == b[i .. i + |p|];
    assert OccursAt(a + b, p, |a| + i);
  }

  /** An occurrence in the head of a concatenation is an occurrence in the whole. */
  lemma ContainsAppendRight(a: string, b: string, p: string)
    requires Contains(a, p)
    ensures Contains(a + b, p)
  {
    var i: nat :| i <= |a| && OccursAt(a, p, i);
    assert (a + b)[i .. i + |p|] == a[i .. i + |p|];
    assert OccursAt(a + b, p, i);
  }

  /** `xs.join(sep)`. */
  function Join(xs: seq<string>, sep: string): string {
    if xs == [] then ""
    else if |xs| == 1 then xs[0]
    else xs[0] + sep + Join(xs[1..], sep)
  }

  /** Every joined item appears in the joined string. */
  lemma {:induction false} JoinContains(xs: seq<string>, sep: string, i: nat)
    requires i < |xs|
    ensures Contains(Join(xs, sep), xs[i])
  {
    ContainsSelf(xs[i]);
    if |xs| > 1 {
      if i == 0 {
        ContainsAppendRight(xs[0], sep, xs[0]);
        ContainsAppendRight(xs[0] + sep, Join(xs[1..], sep), xs[0]);
      } else {
        JoinContains(xs[1..], sep, i - 1);
        ContainsAppendLeft(xs[0] + sep, Join(xs[1..], sep), xs[i]);
      }
    }
  }

  /** The order in which ECMAScript builds a join: the first item, then for each further
      item the separator and that item, appended on the right. */
  lemma {:induction false} JoinSnoc(xs: seq<string>, x: string, sep: string)
    requires xs != []
    ensures Join(xs + [x], sep) == Join(xs, sep) + sep + x
  {
    if |xs| == 1 {
      assert (xs + [x])[1..] == [x];
    } else {
      assert (xs + [x])[1..] == xs[1..] + [x];
      JoinSnoc(xs[1..], x, sep);
    }
  }
}
