/**
 * Picking the object a ray sees (winningObjectIndex in main.cpp): the
 * index of the smallest strictly positive intersection distance, or -1
 * when every distance is a miss (zero or negative).
 */
module Resolver {

  /**
   * The index of the least positive entry, taking the LAST one when several
   * entries tie for least; -1 when no entry is positive.
   */
  function Winner(s: seq<real>): (r: int)
    ensures -1 <= r < |s|
  {
    if |s| == 0 then -1
    else
      var r := Winner(s[..|s| - 1]);
      var last := s[|s| - 1];
      if last > 0.0 && (r == -1 || last <= s[r]) then |s| - 1 else r
  }

  /**
   * What `Winner` picks: -1 exactly when no entry is positive; otherwise a
   * positive entry no larger than any positive entry, and every later
   * entry is a miss or strictly larger (so ties go to the last index).
   */
  lemma {:induction false} WinnerIsNearest(s: seq<real>)
    ensures var r := Winner(s);
            (r == -1 <==> forall i :: 0 <= i < |s| ==> s[i] <= 0.0) &&
            (r != -1 ==> s[r] > 0.0) &&
            (r != -1 ==> forall i :: 0 <= i < |s| && s[i] > 0.0 ==> s[r] <= s[i]) &&
            (r != -1 ==> forall i :: r < i < |s| ==> s[i] <= 0.0 || s[r] < s[i])
  {
    if |s| > 0 {
      var front := s[..|s| - 1];
      WinnerIsNearest(front);
      assert forall i :: 0 <= i < |front| ==> s[i] == front[i];
    }
  }

  /** The largest entry, or 0 when no entry exceeds 0: the first pass of the source. */
  function MaxOrZero(s: seq<real>): (m: real)
    ensures 0.0 <= m
    ensures forall i :: 0 <= i < |s| ==> s[i] <= m
    ensures m == 0.0 || exists i :: 0 <= i < |s| && s[i] == m
  {
    if |s| == 0 then 0.0
    else
      var m := MaxOrZero(s[..|s| - 1]);
      if m < s[|s| - 1] then s[|s| - 1] else m
  }

  /**
   * The two-pass scan of the source: for two or more entries, first the
   * maximum (starting from 0), then, if it is positive, a pass that keeps
   * the last entry that is positive and no larger than the best so far.
   */
  method WinningObjectIndex(objInt: seq<real>) returns (index: int)
    ensures index == Winner(objInt)
  {
    var size := |objInt|;
    if size == 0 {
      return -1;
    } else if size == 1 {
      if objInt[0] > 0.0 {
        return 0;
      } else {
        return -1;
      }
    }
    var max := MaxPass(objInt);
    if max > 0.0 {
      index := NearestPass(objInt, max);
    } else {
      WinnerIsNearest(objInt);
      index := -1;
    }
  }

  /** The first loop of the source: the largest distance, starting from 0. */
  method MaxPass(objInt: seq<real>) returns (max: real)
    ensures max == MaxOrZero(objInt)
  {
    max := 0.0;
    var i := 0;
    while i < |objInt|
      invariant 0 <= i <= |objInt|
      invariant max == MaxOrZero(objInt[..i])
    {
      assert objInt[..i + 1][..i] == objInt[..i];
      if max < objInt[i] {
        max := objInt[i];
      }
      i := i + 1;
    }
    assert objInt[..i] == objInt;
  }

  /**
   * The second loop of the source: with `top` at least every distance, it
   * keeps the last positive distance no larger than the best so far.
   */
  method NearestPass(objInt: seq<real>, top: real) returns (iMinVal: int)
    requires forall j :: 0 <= j < |objInt| ==> objInt[j] <= top
    ensures iMinVal == Winner(objInt)
  {
    var max := top;
    iMinVal := -1;
    var i := 0;
    while i < |objInt|
      invariant 0 <= i <= |objInt|
      invariant iMinVal == Winner(objInt[..i])
      invariant iMinVal == -1 ==> max == top
      invariant iMinVal != -1 ==> max == objInt[iMinVal]
    {
      assert objInt[..i + 1][..i] == objInt[..i];
      if objInt[i] > 0.0 && objInt[i] <= max {
        max := objInt[i];
        iMinVal := i;
      }
      i := i + 1;
    }
    assert objInt[..i] == objInt;
  }

  /** A sample of distances: a miss, two hits, and an object just behind the origin. */
  lemma WinnerExamples()
    ensures Winner([-1.0, 3.2, 0.5, -0.001]) == 2
    ensures Winner([-1.0, -2.0, 0.0]) == -1
    ensures Winner([]) == -1
    ensures Winner([1.0, 1.0]) == 1
  {
    assert [-1.0, 3.2, 0.5, -0.001][..3] == [-1.0, 3.2, 0.5];
    assert [-1.0, 3.2, 0.5][..2] == [-1.0, 3.2];
    assert [-1.0, 3.2][..1] == [-1.0];
    assert [-1.0, -2.0, 0.0][..2] == [-1.0, -2.0];
    assert [1.0, 1.0][..1] == [1.0];
  }

  /**
   * Appending a hit nearer than every earlier positive distance makes it
   * the winner; appending a miss changes nothing.
   */
  lemma {:induction false} WinnerAppend(s: seq<real>, x: real)
    ensures x <= 0.0 ==> Winner(s + [x]) == Winner(s)
    ensures x > 0.0 && (forall i :: 0 <= i < |s| && s[i] > 0.0 ==> x <= s[i]) ==> Winner(s + [x]) == |s|
  {
    assert (s + [x])[..|s|] == s;
    WinnerIsNearest(s);
  }
}
