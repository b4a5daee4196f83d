/**
 * Text as a sequence of newline-separated lines, which is how the
 * configuration that replaceValues produces divides into lines.
 */
module TextLines {
  import opened GoStrings

  /** The lines of `ls` joined by single '\n' characters (no trailing newline). */
  function JoinLines(ls: seq<string>): (s: string)
    decreases |ls|
  {
    if |ls| == 0 then "" else if |ls| == 1 then ls[0] else ls[0] + "\n" + JoinLines(ls[1..])
  }

  /** The text cut at every '\n': one more line than there are newlines. */
  function SplitLines(s: string): (ls: seq<string>)
    ensures |ls| > 0
    decreases |s|
  {
    var i := Index(s, "\n");
    if i == -1 then [s] else [s[..i]] + SplitLines(s[i + 1..])
  }

  predicate NoNewline(l: string)
  {
    '\n' !in l
  }

  lemma NoNewlineIndex(l: string)
    requires NoNewline(l)
    ensures Index(l, "\n") == -1
  {
    forall j
      ensures !OccursAt(l, "\n", j)
    {
      if 0 <= j < |l| {
        assert l[j..j + 1] == [l[j]];
      }
    }
    IndexOfNone(l, "\n");
  }

  lemma FirstNewline(l: string, t: string)
    requires NoNewline(l)
    ensures Index(l + "\n" + t, "\n") == |l|
  {
    var s := l + "\n" + t;
    assert s[|l|..|l| + 1] == "\n";
    forall j | 0 <= j < |l|
      ensures !OccursAt(s, "\n", j)
    {
      assert s[j..j + 1][0] == l[j];
    }
    IndexOfFirst(s, "\n", |l|);
  }

  /** One line off the front of a suffix. */
  lemma JoinStep(ls: seq<string>, k: nat)
    requires k + 1 < |ls|
    ensures JoinLines(ls[k..]) == ls[k] + "\n" + JoinLines(ls[k + 1..])
  {
    assert ls[k..][1..] == ls[k + 1..];
  }

  /** Splitting undoes joining, provided no line holds a newline of its own. */
  lemma {:induction false} SplitJoin(ls: seq<string>)
    requires |ls| > 0
    requires forall k :: 0 <= k < |ls| ==> NoNewline(ls[k])
    ensures SplitLines(JoinLines(ls)) == ls
    decreases |ls|
  {
    if |ls| == 1 {
      NoNewlineIndex(ls[0]);
    } else {
      var t := JoinLines(ls[1..]);
      var s := ls[0] + "\n" + t;
      FirstNewline(ls[0], t);
      assert s[..|ls[0]|] == ls[0];
      assert s[|ls[0]| + 1..] == t;
      SplitJoin(ls[1..]);
      assert [ls[0]] + ls[1..] == ls;
    }
  }
}
