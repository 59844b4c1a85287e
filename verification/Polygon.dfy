/**
 * The even-odd ray-casting hit test `pointInPolygon` of Util.swift, over an
 * index-keyed point map.
 */
module Polygon {
  import opened Geometry

  /** The edge (pi, pj) straddles the horizontal line through t: one end strictly below, the other at or above. */
  predicate Straddles(pi: Point, pj: Point, t: Point)
  {
    (pi.y < t.y && pj.y >= t.y) || (pj.y < t.y && pi.y >= t.y)
  }

  /**
   * Whether edge (pi, pj) flips the parity for test point t. The straddle
   * test guards the division, so the divisor pj.y - pi.y is never zero.
   */
  predicate Toggles(pi: Point, pj: Point, t: Point)
    ensures Toggles(pi, pj, t) ==> pi.y != pj.y && (pi.x <= t.x || pj.x <= t.x)
  {
    Straddles(pi, pj, t) && (pi.x <= t.x || pj.x <= t.x) &&
    pi.x + (t.y - pi.y) / (pj.y - pi.y) * (pj.x - pi.x) < t.x
  }

  /** The vertex before i in the cyclic order 0 .. n-1 (the loop's `j`). */
  function Prev(i: int, n: int): int
  {
    if i == 0 then n - 1 else i - 1
  }

  /** The parity flag after the edges ending at vertices 0 .. k-1 have been processed. */
  ghost function Parity(pts: map<int, Point>, k: nat, t: Point): bool
    requires Keyed(pts, |pts|) && k <= |pts|
  {
    if k == 0 then false
    else Parity(pts, k - 1, t) != Toggles(pts[k - 1], pts[Prev(k - 1, |pts|)], t)
  }

  /**
   * The verdict of the test: odd parity over all edges of a point map
   * keyed 0 .. n-1 (the only maps the app passes to the test).
   */
  ghost predicate Inside(pts: map<int, Point>, t: Point)
    ensures Inside(pts, t) ==> |pts| >= 3
  {
    Keyed(pts, |pts|) && (FewCornersEven(pts, t); Parity(pts, |pts|, t))
  }

  /** The crossing test does not depend on the direction of the edge. */
  lemma TogglesSymmetric(pi: Point, pj: Point, t: Point)
    ensures Toggles(pi, pj, t) == Toggles(pj, pi, t)
  {
    if Straddles(pi, pj, t) {
      var dy := pj.y - pi.y;
      var a := (t.y - pi.y) / dy;
      var b := (t.y - pj.y) / (pi.y - pj.y);
      assert b == (pj.y - t.y) / dy;
      assert a + b == ((t.y - pi.y) + (pj.y - t.y)) / dy;
      assert a + b == 1.0;
      assert pj.x + b * (pi.x - pj.x) == pi.x + a * (pj.x - pi.x);
    }
  }

  /** With fewer than three corners every edge is crossed an even number of times, so no point is inside. */
  lemma FewCornersEven(pts: map<int, Point>, t: Point)
    requires Keyed(pts, |pts|)
    ensures |pts| < 3 ==> !Parity(pts, |pts|, t)
  {
    if |pts| == 2 {
      TogglesSymmetric(pts[0], pts[1], t);
      assert Parity(pts, 1, t) == Toggles(pts[0], pts[1], t);
      assert Parity(pts, 2, t) == (Parity(pts, 1, t) != Toggles(pts[1], pts[0], t));
    }
  }

  /** The number of edges among those ending at 0 .. k-1 that cross the ray. */
  ghost function Crossings(pts: map<int, Point>, k: nat, t: Point): nat
    requires Keyed(pts, |pts|) && k <= |pts|
  {
    if k == 0 then 0
    else Crossings(pts, k - 1, t) + (if Toggles(pts[k - 1], pts[Prev(k - 1, |pts|)], t) then 1 else 0)
  }

  /** `pointInPolygon(points, touchPoint)`: the loop walks i = 0 .. n-1 with j trailing behind. */
  method PointInPolygon(points: map<int, Point>, touch: Point) returns (oddNodes: bool)
    requires Keyed(points, |points|)
    ensures oddNodes == Inside(points, touch)
    ensures |points| == 0 ==> !oddNodes
  {
    var polyCorners := |points|;
    var j := polyCorners - 1;
    oddNodes := false;
    var i := 0;
    while i < polyCorners
      invariant 0 <= i <= polyCorners
      invariant j == Prev(i, polyCorners)
      invariant oddNodes == Parity(points, i, touch)
    {
      var pi, pj := points[i], points[j];
      if ((pi.y < touch.y && pj.y >= touch.y) || (pj.y < touch.y && pi.y >= touch.y))
        && (pi.x <= touch.x || pj.x <= touch.x)
      {
        if pi.x + (touch.y - pi.y) / (pj.y - pi.y) * (pj.x - pi.x) < touch.x {
          oddNodes := !oddNodes;
        }
      }
      j := i;
      i := i + 1;
    }
  }

  /** The parity is odd exactly when an odd number of edges cross the ray. */
  lemma {:induction false} ParityCountsCrossings(pts: map<int, Point>, k: nat, t: Point)
    requires Keyed(pts, |pts|) && k <= |pts|
    ensures Parity(pts, k, t) <==> Crossings(pts, k, t) % 2 == 1
  {
    if k > 0 {
      ParityCountsCrossings(pts, k - 1, t);
    }
  }

  /** A test point strictly left of every vertex is outside: no edge has an end at or left of it. */
  lemma {:induction false} LeftOfAllIsOutside(pts: map<int, Point>, k: nat, t: Point)
    requires Keyed(pts, |pts|) && k <= |pts|
    requires forall i :: 0 <= i < |pts| ==> t.x < pts[i].x
    ensures !Parity(pts, k, t)
  {
    if k > 0 {
      LeftOfAllIsOutside(pts, k - 1, t);
      assert !Toggles(pts[k - 1], pts[Prev(k - 1, |pts|)], t);
    }
  }

  /** A test point strictly below every vertex (smaller y) is outside: no edge straddles its line. */
  lemma {:induction false} BelowAllIsOutside(pts: map<int, Point>, k: nat, t: Point)
    requires Keyed(pts, |pts|) && k <= |pts|
    requires forall i :: 0 <= i < |pts| ==> t.y <= pts[i].y
    ensures !Parity(pts, k, t)
  {
    if k > 0 {
      BelowAllIsOutside(pts, k - 1, t);
      assert !Toggles(pts[k - 1], pts[Prev(k - 1, |pts|)], t);
    }
  }

  /** A test point strictly above every vertex (larger y) is outside. */
  lemma {:induction false} AboveAllIsOutside(pts: map<int, Point>, k: nat, t: Point)
    requires Keyed(pts, |pts|) && k <= |pts|
    requires forall i :: 0 <= i < |pts| ==> pts[i].y < t.y
    ensures !Parity(pts, k, t)
  {
    if k > 0 {
      AboveAllIsOutside(pts, k - 1, t);
      assert !Toggles(pts[k - 1], pts[Prev(k - 1, |pts|)], t);
    }
  }

  /** The square (0,0), (10,0), (10,10), (0,10). */
  function Square(): (m: map<int, Point>)
    ensures Keyed(m, 4) && |m| == 4
  {
    var m := map[0 := Point(0.0, 0.0), 1 := Point(10.0, 0.0), 2 := Point(10.0, 10.0), 3 := Point(0.0, 10.0)];
    assert m.Keys == Range(4);
    m
  }

  /** The square classifies (5,5) inside and (15,5), (-5,5) outside. */
  lemma SquareExamples()
    ensures Inside(Square(), Point(5.0, 5.0))
    ensures !Inside(Square(), Point(15.0, 5.0))
    ensures !Inside(Square(), Point(-5.0, 5.0))
  {
    var sq := Square();
    var t := Point(5.0, 5.0);
    assert Toggles(sq[0], sq[3], t);
    assert !Toggles(sq[1], sq[0], t);
    assert !Toggles(sq[2], sq[1], t);
    assert !Toggles(sq[3], sq[2], t);
    assert Parity(sq, 4, t);
    var u := Point(15.0, 5.0);
    assert Toggles(sq[0], sq[3], u);
    assert !Toggles(sq[1], sq[0], u);
    assert Toggles(sq[2], sq[1], u);
    assert !Toggles(sq[3], sq[2], u);
    assert !Parity(sq, 4, u);
    LeftOfAllIsOutside(sq, 4, Point(-5.0, 5.0));
  }
}
