/**
  Ascending key order. The source keeps its flows and histograms in
  `std::map`, whose iteration visits keys in ascending order; every report
  the filters produce follows that order.
*/
module Ordered {

  ghost predicate Increasing(s: seq<nat>) {
    forall i, j :: 0 <= i < j < |s| ==> s[i] < s[j]
  }

  predicate IsMin(x: nat, s: set<nat>) {
    x in s && forall y :: y in s ==> x <= y
  }

  lemma {:induction false} MinExists(s: set<nat>)
    requires s != {}
    ensures exists x :: IsMin(x, s)
    decreases |s|
  {
    var y :| y in s;
    assert forall z :: z in s ==> z == y || z in s - {y};
    if s != {y} {
      MinExists(s - {y});
      var x :| IsMin(x, s - {y});
      if y < x {
        assert IsMin(y, s);
      } else {
        assert IsMin(x, s);
      }
    } else {
      assert IsMin(y, s);
    }
  }

  ghost function Min(s: set<nat>): (x: nat)
    requires s != {}
    ensures IsMin(x, s)
  {
    MinExists(s);
    var x :| IsMin(x, s); x
  }

  /** The elements of `s` in ascending order, each once. */
  ghost function SortedKeys(s: set<nat>): (r: seq<nat>)
    ensures |r| == |s|
    ensures forall i :: 0 <= i < |r| ==> r[i] in s
    decreases |s|
  {
    if s == {} then []
    else
      var m := Min(s);
      var rest := SortedKeys(s - {m});
      assert forall i :: 0 < i <= |rest| ==> ([m] + rest)[i] == rest[i - 1];
      [m] + rest
  }

  /** Every element of `s` is listed. */
  lemma {:induction false} SortedKeysComplete(s: set<nat>)
    ensures forall x :: x in s ==> x in SortedKeys(s)
    decreases |s|
  {
    if s != {} {
      var m := Min(s);
      SortedKeysComplete(s - {m});
      assert SortedKeys(s) == [m] + SortedKeys(s - {m});
    }
  }

  lemma {:induction false} SortedKeysIncreasing(s: set<nat>)
    ensures Increasing(SortedKeys(s))
    decreases |s|
  {
    if s != {} {
      var m := Min(s);
      var rest := SortedKeys(s - {m});
      SortedKeysIncreasing(s - {m});
      var r := SortedKeys(s);
      assert r == [m] + rest;
      forall i, j | 0 <= i < j < |r| ensures r[i] < r[j] {
        assert r[j] == rest[j - 1] && rest[j - 1] in s - {m};
        if i > 0 {
          assert r[i] == rest[i - 1];
        }
      }
    }
  }

  /** The least element comes first; a minimum is unique, so any way of finding it agrees. */
  lemma SortedKeysUnfold(s: set<nat>, m: nat)
    requires IsMin(m, s)
    ensures SortedKeys(s) == [m] + SortedKeys(s - {m})
  {
    assert Min(s) == m;
  }

  /** Natural numbers from `lo` up to but excluding `hi`. */
  function Range(lo: nat, hi: nat): (s: set<nat>)
    ensures forall x :: x in s <==> lo <= x < hi
  {
    var r := RangeSeq(lo, hi);
    assert forall x :: lo <= x < hi ==> x in r by {
      forall x | lo <= x < hi ensures x in r {
        assert r[x - lo] == x;
      }
    }
    set x | x in r
  }

  /** `lo`, `lo + 1`, ..., `hi - 1`. */
  function RangeSeq(lo: nat, hi: nat): (s: seq<nat>)
    ensures |s| == if lo <= hi then hi - lo else 0
    ensures forall i :: 0 <= i < |s| ==> s[i] == lo + i
    decreases hi - lo
  {
    if hi <= lo then [] else [lo] + RangeSeq(lo + 1, hi)
  }

  lemma {:induction false} SortedRange(lo: nat, hi: nat)
    ensures SortedKeys(Range(lo, hi)) == RangeSeq(lo, hi)
    decreases hi - lo
  {
    if lo < hi {
      assert IsMin(lo, Range(lo, hi));
      SortedKeysUnfold(Range(lo, hi), lo);
      assert Range(lo, hi) - {lo} == Range(lo + 1, hi);
      SortedRange(lo + 1, hi);
    } else {
      assert Range(lo, hi) == {};
    }
  }

  /**
    Visits the keys of `s` the way a `std::map` iterator does: repeatedly the
    least key not yet visited.
  */
  method AscendingKeys(s: set<nat>) returns (ids: seq<nat>)
    ensures ids == SortedKeys(s)
  {
    ids := [];
    var rest := s;
    while rest != {}
      invariant SortedKeys(s) == ids + SortedKeys(rest)
      decreases |rest|
    {
      MinExists(rest);
      var m :| IsMin(m, rest);
      SortedKeysUnfold(rest, m);
      assert ids + SortedKeys(rest) == (ids + [m]) + SortedKeys(rest - {m});
      ids := ids + [m];
      rest := rest - {m};
    }
  }
}
