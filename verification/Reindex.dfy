/**
 * Index bookkeeping of a polygon detail in ViewCreateDetails.swift: the
 * loops that move point keys up (to make room after a virtual point) or
 * down (to close the gap left by an undone point), and the adjustments of
 * the undo log `polygonPointsOrder` that accompany them.
 */
module Reindex {
  import opened Geometry

  /** `points[to] = points[from]`, where storing a missing point removes the key. */
  function MoveKey(pts: map<int, Point>, from: int, to: int): (r: map<int, Point>)
    ensures forall k :: k != to ==> (k in r <==> k in pts) && (k in r ==> r[k] == pts[k])
    ensures to in r <==> from in pts
    ensures to in r ==> r[to] == pts[from]
  {
    if from in pts then pts[to := pts[from]] else pts - {to}
  }

  /**
   * The point map after the loop that, for i from hi down to lo, stores the
   * point at i under i + 1.
   */
  function ShiftedUp(pts: map<int, Point>, lo: int, hi: int): map<int, Point>
    decreases hi - lo + 1
  {
    if hi < lo then pts else ShiftedUp(MoveKey(pts, hi, hi + 1), lo, hi - 1)
  }

  /** After the upward shift, keys lo+1..hi+1 hold what lo..hi held and every other key is untouched. */
  lemma {:induction false} ShiftedUpAt(pts: map<int, Point>, lo: int, hi: int, k: int)
    ensures k in ShiftedUp(pts, lo, hi) <==> (if lo + 1 <= k <= hi + 1 then k - 1 in pts else k in pts)
    ensures k in ShiftedUp(pts, lo, hi) ==>
      ShiftedUp(pts, lo, hi)[k] == (if lo + 1 <= k <= hi + 1 then pts[k - 1] else pts[k])
    decreases hi - lo + 1
  {
    if hi >= lo {
      ShiftedUpAt(MoveKey(pts, hi, hi + 1), lo, hi - 1, k);
    }
  }

  /**
   * The point map after the loop that, for i from lo up to hi, stores the
   * point at i + 1 under i.
   */
  function ShiftedDown(pts: map<int, Point>, lo: int, hi: int): map<int, Point>
    decreases hi - lo + 1
  {
    if hi < lo then pts else ShiftedDown(MoveKey(pts, lo + 1, lo), lo + 1, hi)
  }

  /** After the downward shift, keys lo..hi hold what lo+1..hi+1 held and every other key is untouched. */
  lemma {:induction false} ShiftedDownAt(pts: map<int, Point>, lo: int, hi: int, k: int)
    ensures k in ShiftedDown(pts, lo, hi) <==> (if lo <= k <= hi then k + 1 in pts else k in pts)
    ensures k in ShiftedDown(pts, lo, hi) ==>
      ShiftedDown(pts, lo, hi)[k] == (if lo <= k <= hi then pts[k + 1] else pts[k])
    decreases hi - lo + 1
  {
    if hi >= lo {
      ShiftedDownAt(MoveKey(pts, lo + 1, lo), lo + 1, hi, k);
    }
  }

  /**
   * Inserting after virtual point t of a detail with n contiguous points:
   * the shift from n down to t followed by creating the new point at t + 1
   * leaves keys 0..t alone, puts the new point at t + 1, moves the old
   * t+1..n-1 to t+2..n, and the keys are again contiguous.
   */
  lemma InsertAfter(pts: map<int, Point>, n: nat, t: int, loc: Point)
    requires Keyed(pts, n) && 0 <= t < n
    ensures var r := ShiftedUp(pts, t, n)[t + 1 := loc];
      Keyed(r, n + 1) && r[t + 1] == loc &&
      (forall k :: 0 <= k <= t ==> r[k] == pts[k]) &&
      (forall k :: t + 2 <= k <= n ==> r[k] == pts[k - 1])
  {
    var s := ShiftedUp(pts, t, n);
    var r := s[t + 1 := loc];
    forall k ensures k in s <==> 0 <= k <= n {
      ShiftedUpAt(pts, t, n, k);
    }
    forall k | 0 <= k <= t ensures r[k] == pts[k] {
      ShiftedUpAt(pts, t, n, k);
    }
    forall k | t + 2 <= k <= n ensures r[k] == pts[k - 1] {
      ShiftedUpAt(pts, t, n, k);
    }
  }

  /**
   * Undoing point `last` of a detail with n contiguous points: removing it
   * and shifting last+1..n-1 down leaves n - 1 contiguous keys, the points
   * before `last` in place and the later ones one key lower.
   */
  lemma RemoveAt(pts: map<int, Point>, n: nat, last: int)
    requires Keyed(pts, n) && 0 <= last < n
    ensures var r := ShiftedDown(pts - {last}, last, n - 1);
      Keyed(r, n - 1) &&
      (forall k :: 0 <= k < last ==> r[k] == pts[k]) &&
      (forall k :: last <= k < n - 1 ==> r[k] == pts[k + 1])
  {
    var p := pts - {last};
    var r := ShiftedDown(p, last, n - 1);
    forall k ensures k in r <==> 0 <= k < n - 1 {
      ShiftedDownAt(p, last, n - 1, k);
    }
    forall k | 0 <= k < last ensures r[k] == pts[k] {
      ShiftedDownAt(p, last, n - 1, k);
    }
    forall k | last <= k < n - 1 ensures r[k] == pts[k + 1] {
      ShiftedDownAt(p, last, n - 1, k);
    }
  }

  /**
   * Creating a point keeps the keys contiguous: at the next free key n, or
   * after virtual point t (0 <= t < n) with the later points shifted up.
   */
  lemma AddKeepsKeyed(pts: map<int, Point>, n: nat, t: int, loc: Point)
    requires Keyed(pts, n) && (t == -1 || 0 <= t < n)
    ensures var r := (if t == -1 then pts else ShiftedUp(pts, t, n))[(if t == -1 then n else t + 1) := loc];
      Keyed(r, n + 1) && |r| == n + 1
  {
    if t != -1 {
      InsertAfter(pts, n, t, loc);
    }
    KeyedCard((if t == -1 then pts else ShiftedUp(pts, t, n))[(if t == -1 then n else t + 1) := loc], n + 1);
  }

  /** Inserting and then undoing the inserted point gives the original points back. */
  lemma InsertThenRemove(pts: map<int, Point>, n: nat, t: int, loc: Point)
    requires Keyed(pts, n) && 0 <= t < n
    ensures ShiftedDown(ShiftedUp(pts, t, n)[t + 1 := loc] - {t + 1}, t + 1, n) == pts
  {
    InsertAfter(pts, n, t, loc);
    var r := ShiftedUp(pts, t, n)[t + 1 := loc];
    RemoveAt(r, n + 1, t + 1);
  }

  /**
   * `polygonUndo` can run on the log: it has a last entry, and every entry
   * at or above that last entry, which the undo uses as a position in the
   * log, is a position of the log.
   */
  ghost predicate Undoable(order: seq<int>)
  {
    order != [] &&
    forall i :: 0 <= i < |order| && order[i] >= order[|order| - 1] ==> 0 <= order[i] < |order|
  }

  /**
   * The log after the creation-mode shift loop: the entries at POSITIONS
   * t+1..nb-1 go up by one (rather than the entries whose VALUE is a moved
   * key); the new key is appended afterwards.
   */
  function InsertLog(order: seq<int>, t: int, nb: int): (r: seq<int>)
    requires nb <= t + 1 || (0 <= t + 1 && nb <= |order|)
    ensures |r| == |order|
    ensures forall j :: 0 <= j < |order| ==> r[j] - order[j] == (if t < j < nb then 1 else 0)
  {
    seq(|order|, j requires 0 <= j < |order| => if t < j < nb then order[j] + 1 else order[j])
  }

  /**
   * The log after `polygonUndo`: for every entry id >= last the entry at
   * POSITION id goes down by one (so position j drops by the number of
   * times j is logged, when j >= last), then the last entry is dropped.
   */
  function UndoLog(order: seq<int>): (r: seq<int>)
    requires Undoable(order)
    ensures |r| == |order| - 1
    ensures forall j :: 0 <= j < |r| ==>
      order[j] - r[j] == (if j >= order[|order| - 1] then multiset(order)[j] else 0)
  {
    var last := order[|order| - 1];
    seq(|order| - 1, j requires 0 <= j < |order| - 1 =>
      if j >= last then order[j] - multiset(order)[j] else order[j])
  }

  /** Every key 0..n-1 logged exactly once. */
  ghost predicate IsPermutation(order: seq<int>)
  {
    (forall i :: 0 <= i < |order| ==> 0 <= order[i] < |order|) &&
    (forall i, j :: 0 <= i < j < |order| ==> order[i] != order[j])
  }

  /**
   * The log does not stay a permutation. Three points logged [0, 1, 2],
   * then the virtual points after key 0 and after key 1 are used: the
   * first insertion logs [0, 2, 3, 1], the second [0, 2, 4, 2, 2], where
   * key 2 appears three times and key 1 (the first inserted point, which
   * the second insertion does not move) is no longer logged; renumbering by
   * value would have given [0, 3, 4, 1, 2].
   */
  lemma InsertLogLosesPermutation()
    ensures IsPermutation([0, 1, 2])
    ensures InsertLog([0, 1, 2], 0, 3) + [1] == [0, 2, 3, 1]
    ensures InsertLog([0, 2, 3, 1], 1, 4) + [2] == [0, 2, 4, 2, 2]
    ensures !IsPermutation([0, 2, 4, 2, 2])
  {
    assert [0, 2, 4, 2, 2][1] == [0, 2, 4, 2, 2][3];
  }

  /**
   * Undo breaks a log that is a permutation: for [0, 3, 4, 1, 2] the undo
   * of key 2 leaves [0, 3, 3, 0] instead of [0, 2, 3, 1].
   */
  lemma UndoLogLosesPermutation()
    ensures IsPermutation([0, 3, 4, 1, 2])
    ensures UndoLog([0, 3, 4, 1, 2]) == [0, 3, 3, 0]
    ensures !IsPermutation([0, 3, 3, 0])
  {
    var order := [0, 3, 4, 1, 2];
    assert multiset(order)[2] == 1 && multiset(order)[3] == 1;
    assert [0, 3, 3, 0][1] == [0, 3, 3, 0][2];
  }
}
