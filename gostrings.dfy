/**
 * The part of Go's `strings` package that the config renderer uses:
 * `strings.Index`, `strings.Replace(s, old, new, 1)` and
 * `strings.Replace(s, old, new, -1)`.
 */
module GoStrings {

  /** `pat` occurs in `s` starting at index `i`. */
  predicate OccursAt(s: string, pat: string, i: int)
  {
    0 <= i && i + |pat| <= |s| && s[i..i + |pat|] == pat
  }

  /** `i` is the leftmost occurrence of `pat` in `s`. */
  ghost predicate FirstAt(s: string, pat: string, i: int)
  {
    OccursAt(s, pat, i) && forall j :: 0 <= j < i ==> !OccursAt(s, pat, j)
  }

  /**
   * The leftmost occurrence of `pat` in `s` at or after `from`, or -1; the
   * scan Go's `strings.Index` performs.
   */
  function IndexFrom(s: string, pat: string, from: nat): (i: int)
    ensures i == -1 || from <= i <= |s| - |pat|
    decreases |s| - from
  {
    if from + |pat| > |s| then -1
    else if s[from..from + |pat|] == pat then from
    else IndexFrom(s, pat, from + 1)
  }

  /**
   * `strings.Index`: the position of the leftmost occurrence of `pat` in `s`,
   * or -1 when there is none. What it finds is stated by IndexFindsFirst.
   */
  function Index(s: string, pat: string): (i: int)
    ensures i == -1 || 0 <= i <= |s| - |pat|
  {
    IndexFrom(s, pat, 0)
  }

  /** The scan from `from` finds the leftmost occurrence at or after `from`. */
  lemma {:induction false} IndexFromFindsFirst(s: string, pat: string, from: nat)
    ensures IndexFrom(s, pat, from) == -1 <==> forall j :: from <= j ==> !OccursAt(s, pat, j)
    ensures IndexFrom(s, pat, from) != -1 ==>
      OccursAt(s, pat, IndexFrom(s, pat, from)) &&
      forall j :: from <= j < IndexFrom(s, pat, from) ==> !OccursAt(s, pat, j)
    decreases |s| - from
  {
    if from + |pat| > |s| {
    } else if s[from..from + |pat|] == pat {
      assert OccursAt(s, pat, from);
    } else {
      assert !OccursAt(s, pat, from);
      IndexFromFindsFirst(s, pat, from + 1);
    }
  }

  /** Index returns -1 exactly when `pat` does not occur, and otherwise its leftmost occurrence. */
  lemma IndexFindsFirst(s: string, pat: string)
    ensures Index(s, pat) == -1 <==> forall j :: !OccursAt(s, pat, j)
    ensures Index(s, pat) != -1 ==> FirstAt(s, pat, Index(s, pat))
  {
    IndexFromFindsFirst(s, pat, 0);
  }

  /** The leftmost occurrence, when there is one, is what Index returns. */
  lemma IndexOfFirst(s: string, pat: string, i: int)
    requires FirstAt(s, pat, i)
    ensures Index(s, pat) == i
  {
    IndexFindsFirst(s, pat);
    var k := Index(s, pat);
    assert k != -1;
  }

  /** Without an occurrence, Index returns -1. */
  lemma IndexOfNone(s: string, pat: string)
    requires forall j :: !OccursAt(s, pat, j)
    ensures Index(s, pat) == -1
  {
    IndexFindsFirst(s, pat);
  }

  /**
   * `strings.Replace(s, pat, rep, 1)`: the leftmost occurrence of `pat` is
   * replaced by `rep`; without an occurrence `s` is returned as it is.
   */
  function ReplaceFirst(s: string, pat: string, rep: string): (r: string)
  {
    var i := Index(s, pat);
    if i == -1 then s else s[..i] + rep + s[i + |pat|..]
  }

  /**
   * `strings.Replace(s, pat, rep, -1)`: every non-overlapping occurrence of
   * `pat`, scanning left to right, is replaced by `rep`; the scan resumes
   * after the replaced occurrence, so `rep` itself is never rescanned.
   * Go treats an empty `pat` specially (insert between runes); it is excluded.
   */
  function ReplaceAll(s: string, pat: string, rep: string): (r: string)
    requires |pat| > 0
    decreases |s|
  {
    var i := Index(s, pat);
    if i == -1 then s else s[..i] + rep + ReplaceAll(s[i + |pat|..], pat, rep)
  }

  /**
   * ReplaceFirst by the leftmost occurrence: unchanged without one, otherwise
   * the occurrence at the first position where `pat` occurs is replaced.
   */
  lemma ReplaceFirstReplacesLeftmost(s: string, pat: string, rep: string)
    ensures (forall j :: !OccursAt(s, pat, j)) ==> ReplaceFirst(s, pat, rep) == s
    ensures forall i :: FirstAt(s, pat, i) ==> ReplaceFirst(s, pat, rep) == s[..i] + rep + s[i + |pat|..]
  {
    if forall j :: !OccursAt(s, pat, j) {
      IndexOfNone(s, pat);
    }
    forall i | FirstAt(s, pat, i)
      ensures ReplaceFirst(s, pat, rep) == s[..i] + rep + s[i + |pat|..]
    {
      IndexOfFirst(s, pat, i);
    }
  }

  lemma ReplaceAllAtFirst(s: string, pat: string, rep: string, i: int)
    requires |pat| > 0 && FirstAt(s, pat, i)
    ensures ReplaceAll(s, pat, rep) == s[..i] + rep + ReplaceAll(s[i + |pat|..], pat, rep)
  {
    IndexOfFirst(s, pat, i);
    ReplaceAllAt(s, pat, rep, i, s[i + |pat|..]);
  }

  lemma ReplaceAllNoOccurrence(s: string, pat: string, rep: string)
    requires |pat| > 0 && forall j :: !OccursAt(s, pat, j)
    ensures ReplaceAll(s, pat, rep) == s
  {
    IndexOfNone(s, pat);
  }

  /**
   * ReplaceAll by the leftmost occurrence: unchanged without one, otherwise
   * that occurrence is replaced and the scan goes on after it.
   */
  lemma ReplaceAllReplacesLeftmost(s: string, pat: string, rep: string)
    requires |pat| > 0
    ensures (forall j :: !OccursAt(s, pat, j)) ==> ReplaceAll(s, pat, rep) == s
    ensures forall i :: FirstAt(s, pat, i) ==>
      ReplaceAll(s, pat, rep) == s[..i] + rep + ReplaceAll(s[i + |pat|..], pat, rep)
  {
    if forall j :: !OccursAt(s, pat, j) {
      ReplaceAllNoOccurrence(s, pat, rep);
    }
    forall i | FirstAt(s, pat, i)
      ensures ReplaceAll(s, pat, rep) == s[..i] + rep + ReplaceAll(s[i + |pat|..], pat, rep)
    {
      ReplaceAllAtFirst(s, pat, rep, i);
    }
  }

  // ---------------------------------------------------------------------
  // Replacement laws
  // ---------------------------------------------------------------------

  /** No occurrence of `pat` in `x + y` starts inside `x`. */
  ghost predicate NoMatchBefore(x: string, y: string, pat: string)
  {
    forall j :: 0 <= j < |x| ==> !OccursAt(x + y, pat, j)
  }

  lemma IndexSkip(x: string, y: string, pat: string)
    requires NoMatchBefore(x, y, pat)
    ensures Index(x + y, pat) == if Index(y, pat) == -1 then -1 else |x| + Index(y, pat)
  {
    var s := x + y;
    forall j | 0 <= j
      ensures OccursAt(s, pat, |x| + j) <==> OccursAt(y, pat, j)
    {
      if j + |pat| <= |y| {
        assert s[|x| + j..|x| + j + |pat|] == y[j..j + |pat|];
      }
    }
    IndexFindsFirst(y, pat);
    var k := Index(y, pat);
    if k == -1 {
      forall j ensures !OccursAt(s, pat, j) {
        if 0 <= j && j >= |x| {
          assert OccursAt(s, pat, |x| + (j - |x|)) <==> OccursAt(y, pat, j - |x|);
        }
      }
      IndexOfNone(s, pat);
    } else {
      assert OccursAt(s, pat, |x| + k);
      forall j | 0 <= j < |x| + k ensures !OccursAt(s, pat, j) {
        if j >= |x| {
          assert OccursAt(s, pat, |x| + (j - |x|)) <==> OccursAt(y, pat, j - |x|);
        }
      }
      IndexOfFirst(s, pat, |x| + k);
    }
  }

  /** Splicing `rep` into `x + y` at a position inside `y`. */
  lemma SpliceAfter(x: string, y: string, rep: string, tail: string, k: nat)
    requires k <= |y|
    ensures (x + y)[..|x| + k] + rep + tail == x + (y[..k] + rep + tail)
  {
    assert (x + y)[..|x| + k] == x + y[..k];
  }

  lemma ReplaceFirstAt(s: string, pat: string, rep: string, i: int)
    requires Index(s, pat) == i
    ensures ReplaceFirst(s, pat, rep) == if i == -1 then s else s[..i] + rep + s[i + |pat|..]
  {
  }

  lemma ReplaceAllAt(s: string, pat: string, rep: string, i: nat, rest: string)
    requires |pat| > 0 && Index(s, pat) == i && rest == s[i + |pat|..]
    ensures ReplaceAll(s, pat, rep) == s[..i] + rep + ReplaceAll(rest, pat, rep)
  {
  }

  /** Replacing the first occurrence skips a prefix in which no occurrence starts. */
  lemma ReplaceFirstSkip(x: string, y: string, pat: string, rep: string)
    requires NoMatchBefore(x, y, pat)
    ensures ReplaceFirst(x + y, pat, rep) == x + ReplaceFirst(y, pat, rep)
  {
    IndexSkip(x, y, pat);
    var k := Index(y, pat);
    ReplaceFirstAt(x + y, pat, rep, if k == -1 then -1 else |x| + k);
    ReplaceFirstAt(y, pat, rep, k);
    if k != -1 {
      assert (x + y)[|x| + k + |pat|..] == y[k + |pat|..];
      SpliceAfter(x, y, rep, y[k + |pat|..], k);
    }
  }

  /** An input that starts with `pat` has its head replaced. */
  lemma ReplaceFirstHead(pat: string, y: string, rep: string)
    ensures ReplaceFirst(pat + y, pat, rep) == rep + y
  {
    assert OccursAt(pat + y, pat, 0);
    IndexOfFirst(pat + y, pat, 0);
    assert (pat + y)[|pat|..] == y;
  }

  lemma ReplaceAllNone(s: string, pat: string, rep: string)
    requires |pat| > 0 && Index(s, pat) == -1
    ensures ReplaceAll(s, pat, rep) == s
  {
  }

  /** Replacing all occurrences skips a prefix in which no occurrence starts. */
  lemma ReplaceAllSkip(x: string, y: string, pat: string, rep: string)
    requires |pat| > 0
    requires NoMatchBefore(x, y, pat)
    ensures ReplaceAll(x + y, pat, rep) == x + ReplaceAll(y, pat, rep)
  {
    IndexSkip(x, y, pat);
    if Index(y, pat) == -1 {
      ReplaceAllNone(x + y, pat, rep);
      ReplaceAllNone(y, pat, rep);
    } else {
      ReplaceAllSkipFound(x, y, pat, rep);
    }
  }

  lemma ReplaceAllSkipFound(x: string, y: string, pat: string, rep: string)
    requires |pat| > 0
    requires Index(y, pat) != -1 && Index(x + y, pat) == |x| + Index(y, pat)
    ensures ReplaceAll(x + y, pat, rep) == x + ReplaceAll(y, pat, rep)
  {
    var k := Index(y, pat);
    var rest := y[k + |pat|..];
    assert (x + y)[|x| + k + |pat|..] == rest;
    ReplaceAllAt(x + y, pat, rep, |x| + k, rest);
    ReplaceAllAt(y, pat, rep, k, rest);
    Combine(x, y, rep, k, ReplaceAll(x + y, pat, rep), ReplaceAll(y, pat, rep), ReplaceAll(rest, pat, rep));
  }

  lemma Combine(x: string, y: string, rep: string, k: nat, a: string, b: string, tail: string)
    requires k <= |y|
    requires a == (x + y)[..|x| + k] + rep + tail
    requires b == y[..k] + rep + tail
    ensures a == x + b
  {
    assert (x + y)[..|x| + k] == x + y[..k];
  }

  /** An input that starts with `pat` has its head replaced, and the scan goes on behind it. */
  lemma ReplaceAllHead(pat: string, y: string, rep: string)
    requires |pat| > 0
    ensures ReplaceAll(pat + y, pat, rep) == rep + ReplaceAll(y, pat, rep)
  {
    assert OccursAt(pat + y, pat, 0);
    IndexOfFirst(pat + y, pat, 0);
    assert (pat + y)[|pat|..] == y;
  }

  /** No occurrence can start inside a prefix that lacks the pattern's first character. */
  lemma NoMatchInFree(x: string, y: string, pat: string)
    requires |pat| > 0 && pat[0] !in x
    ensures NoMatchBefore(x, y, pat)
  {
    forall j | 0 <= j < |x|
      ensures !OccursAt(x + y, pat, j)
    {
      assert (x + y)[j] == x[j];
      if j + |pat| <= |x + y| {
        assert (x + y)[j..j + |pat|][0] == x[j];
      }
    }
  }

  lemma ReplaceFirstFree(x: string, y: string, pat: string, rep: string)
    requires |pat| > 0 && pat[0] !in x
    ensures ReplaceFirst(x + y, pat, rep) == x + ReplaceFirst(y, pat, rep)
  {
    NoMatchInFree(x, y, pat);
    ReplaceFirstSkip(x, y, pat, rep);
  }

  lemma ReplaceAllFree(x: string, y: string, pat: string, rep: string)
    requires |pat| > 0 && pat[0] !in x
    ensures ReplaceAll(x + y, pat, rep) == x + ReplaceAll(y, pat, rep)
  {
    NoMatchInFree(x, y, pat);
    ReplaceAllSkip(x, y, pat, rep);
  }

  lemma ReplaceAllEmpty(pat: string, rep: string)
    requires |pat| > 0
    ensures ReplaceAll([], pat, rep) == []
  {
  }
}
