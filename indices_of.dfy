/** The client's occurrence finder `getIndicesOf` (search.js:41-58): the
    start positions of the leftmost non-overlapping occurrences of a
    pattern, optionally ignoring case. */
module IndicesOf {

  /** `p` occurs in `s` starting at position `i`. */
  predicate MatchAt(s: string, p: string, i: int) {
    0 <= i && i + |p| <= |s| && s[i..i + |p|] == p
  }

  /** `s.indexOf(p, from)`: the first position at or after `from` where `p`
      occurs, or -1 when there is none. */
  function IndexOf(s: string, p: string, from: nat): (r: int)
    ensures r == -1 || (from <= r && r + |p| <= |s|)
    decreases |s| - from
  {
    if from + |p| > |s| then -1
    else if s[from..from + |p|] == p then from
    else IndexOf(s, p, from + 1)
  }

  /** What `indexOf` answers is -1 or an occurrence at or after `from`. */
  lemma {:induction false} IndexOfFound(s: string, p: string, from: nat)
    ensures IndexOf(s, p, from) == -1 || (from <= IndexOf(s, p, from) && MatchAt(s, p, IndexOf(s, p, from)))
    decreases |s| - from
  {
    if from + |p| <= |s| && s[from..from + |p|] != p {
      IndexOfFound(s, p, from + 1);
    }
  }

  /** No occurrence starts between `from` and the position `indexOf` finds,
      and none at all from `from` on when it answers -1. */
  lemma {:induction false} IndexOfFirst(s: string, p: string, from: nat)
    ensures IndexOf(s, p, from) != -1 ==> forall k :: from <= k < IndexOf(s, p, from) ==> !MatchAt(s, p, k)
    ensures IndexOf(s, p, from) == -1 ==> forall k :: from <= k ==> !MatchAt(s, p, k)
    decreases |s| - from
  {
    if from + |p| <= |s| && s[from..from + |p|] != p {
      IndexOfFirst(s, p, from + 1);
    }
  }

  /** The leftmost-greedy occurrences of a non-empty `p` from `from` on:
      the first occurrence, then the leftmost ones after its end. */
  function Occurrences(s: string, p: string, from: nat): seq<nat>
    requires |p| > 0
    decreases |s| + 1 - from
  {
    var i := IndexOf(s, p, from);
    if i == -1 then [] else [i] + Occurrences(s, p, i + |p|)
  }

  /** `s.toLowerCase()`, one character at a time. */
  function Lower(s: string, lower: char -> char): (r: string)
    ensures |r| == |s|
  {
    seq(|s|, i requires 0 <= i < |s| => lower(s[i]))
  }

  /** The text both strings are compared in. */
  function Fold(s: string, caseSensitive: bool, lower: char -> char): (r: string)
    ensures |r| == |s|
  {
    if caseSensitive then s else Lower(s, lower)
  }

  /** `getIndicesOf(searchStr, str, caseSensitive)`. */
  method GetIndicesOf(searchStr: string, str: string, caseSensitive: bool, lower: char -> char)
    returns (indices: seq<nat>)
    ensures |searchStr| == 0 ==> indices == []
    ensures |searchStr| > 0 ==>
      indices == Occurrences(Fold(str, caseSensitive, lower), Fold(searchStr, caseSensitive, lower), 0)
  {
    if |searchStr| == 0 {
      return [];
    }
    var s := str;
    var p := searchStr;
    if !caseSensitive {
      s := Lower(str, lower);
      p := Lower(searchStr, lower);
    }
    indices := FindAll(s, p);
  }

  /** The search loop of `getIndicesOf`: find the next occurrence from
      `startIndex`, record it, and resume after its end. */
  method FindAll(s: string, p: string) returns (indices: seq<nat>)
    requires |p| > 0
    ensures indices == Occurrences(s, p, 0)
  {
    var startIndex := 0;
    indices := [];
    var index := IndexOf(s, p, startIndex);
    while index > -1
      invariant startIndex <= |s|
      invariant index == IndexOf(s, p, startIndex)
      invariant Occurrences(s, p, 0) == indices + Occurrences(s, p, startIndex)
      decreases |s| - startIndex
    {
      OccurrencesAdvance(s, p, indices, startIndex);
      indices := indices + [index];
      startIndex := index + |p|;
      index := IndexOf(s, p, startIndex);
    }
    assert Occurrences(s, p, startIndex) == [] by {
      OccurrencesStep(s, p, startIndex);
    }
    assert indices + [] == indices;
  }

  /** One round of the search loop: the occurrence found is recorded and
      the search resumes after its end. */
  lemma OccurrencesAdvance(s: string, p: string, found: seq<nat>, from: nat)
    requires |p| > 0 && IndexOf(s, p, from) != -1
    requires Occurrences(s, p, 0) == found + Occurrences(s, p, from)
    ensures from <= IndexOf(s, p, from) && IndexOf(s, p, from) + |p| <= |s|
    ensures Occurrences(s, p, 0) == (found + [IndexOf(s, p, from)]) + Occurrences(s, p, IndexOf(s, p, from) + |p|)
  {
    var i := IndexOf(s, p, from);
    IndexOfFound(s, p, from);
    OccurrencesStep(s, p, from);
    assert found + ([i] + Occurrences(s, p, i + |p|)) == (found + [i]) + Occurrences(s, p, i + |p|);
  }

  /** The first position found is the first occurrence at or after `from`;
      there is none exactly when `indexOf` answers -1. */
  lemma OccurrencesStep(s: string, p: string, from: nat)
    requires |p| > 0
    ensures IndexOf(s, p, from) == -1 ==> Occurrences(s, p, from) == []
    ensures IndexOf(s, p, from) != -1 ==>
      Occurrences(s, p, from) == [IndexOf(s, p, from)] + Occurrences(s, p, IndexOf(s, p, from) + |p|)
  {
  }

  /** Every position found is an occurrence at or after `from`. */
  lemma {:induction false} OccurrencesAreMatches(s: string, p: string, from: nat)
    requires |p| > 0
    ensures forall k :: 0 <= k < |Occurrences(s, p, from)| ==>
      from <= Occurrences(s, p, from)[k] && MatchAt(s, p, Occurrences(s, p, from)[k])
    decreases |s| + 1 - from
  {
    var i := IndexOf(s, p, from);
    IndexOfFound(s, p, from);
    if i != -1 {
      OccurrencesAreMatches(s, p, i + |p|);
    }
  }

  /** The positions found increase, each at least `|p|` past the previous
      one: the occurrences do not overlap. */
  lemma {:induction false} OccurrencesSpaced(s: string, p: string, from: nat)
    requires |p| > 0
    ensures forall j, k :: 0 <= j < k < |Occurrences(s, p, from)| ==>
      Occurrences(s, p, from)[j] + |p| <= Occurrences(s, p, from)[k]
    decreases |s| + 1 - from
  {
    var i := IndexOf(s, p, from);
    IndexOfFound(s, p, from);
    if i != -1 {
      var rest := Occurrences(s, p, i + |p|);
      OccurrencesSpaced(s, p, i + |p|);
      OccurrencesAreMatches(s, p, i + |p|);
      var r := Occurrences(s, p, from);
      assert r == [i] + rest;
      forall j, k | 0 <= j < k < |r|
        ensures r[j] + |p| <= r[k]
      {
        assert r[k] == rest[k - 1];
        if j > 0 {
          assert r[j] == rest[j - 1];
        }
      }
    }
  }

  /** No occurrence is skipped: every occurrence at or after `from` is
      either found or overlaps a found one that starts before it. */
  lemma {:induction false} OccurrencesLeftmost(s: string, p: string, from: nat, m: nat)
    requires |p| > 0
    requires from <= m && MatchAt(s, p, m)
    ensures m in Occurrences(s, p, from)
      || exists k :: 0 <= k < |Occurrences(s, p, from)|
           && Occurrences(s, p, from)[k] < m < Occurrences(s, p, from)[k] + |p|
    decreases |s| + 1 - from
  {
    var i := IndexOf(s, p, from);
    var r := Occurrences(s, p, from);
    IndexOfFirst(s, p, from);
    IndexOfFound(s, p, from);
    assert i != -1;
    var rest := Occurrences(s, p, i + |p|);
    assert r == [i] + rest;
    if m == i {
      assert r[0] == m;
    } else if m < i + |p| {
      assert r[0] < m < r[0] + |p|;
    } else {
      OccurrencesLeftmost(s, p, i + |p|, m);
      if m in rest {
        assert m in r;
      } else {
        var k :| 0 <= k < |rest| && rest[k] < m < rest[k] + |p|;
        assert r[k + 1] == rest[k];
      }
    }
  }
}
