/**
 * A detail of the image (`xiaDetail`) as the editor of ViewCreateDetails.swift
 * changes it: its corner points keyed by index, its constraint and its lock.
 * The point views of the app are reduced to their centres.
 */
module Details {
  import opened Geometry
  import opened Shapes
  import opened Reindex
  import opened Text
  import opened DetailXml

  class Detail {
    const tag: int
    var points: map<int, Point>
    var constraint: Constraint
    var locked: bool

    /**
     * `xiaDetail(tag:scale:)`: the detail carries the tag and has no point
     * views yet. The initializer is not part of this model; its empty
     * constraint text and unlocked state are assumed initial values.
     */
    constructor (tag: int)
      ensures this.tag == tag && points == map[] && constraint == Other("") && !locked
    {
      this.tag := tag;
      points := map[];
      constraint := Other("");
      locked := false;
    }

    /** `createPoint(location, index)`, which stores the new point at its index, or setting an existing point's centre. */
    method SetPoint(index: int, location: Point)
      modifies this
      ensures points == old(points)[index := location]
      ensures constraint == old(constraint) && locked == old(locked)
    {
      points := points[index := location];
    }

    /** `points[index] = nil`. */
    method RemovePoint(index: int)
      modifies this
      ensures points == old(points) - {index}
      ensures constraint == old(constraint) && locked == old(locked)
    {
      points := points - {index};
    }

    /**
     * The constrained drag of point m to location in `touchesMoved`, point
     * by point in the order the app updates them.
     */
    method DragPoint(m: int, location: Point)
      requires CornersPresent(points, constraint, m)
      modifies this
      ensures points == Drag(old(points), old(constraint), m, location)
      ensures constraint == old(constraint) && locked == old(locked)
    {
      var prev, next, opp := (m + 3) % 4, (m + 1) % 4, (m + 2) % 4;
      var ploc := points[m];
      match constraint
      case Rectangle =>
        if m % 2 == 0 {
          points := points[prev := Point(location.x, points[prev].y)];
          points := points[next := Point(points[next].x, location.y)];
        } else {
          points := points[prev := Point(points[prev].x, location.y)];
          points := points[next := Point(location.x, points[next].y)];
        }
        points := points[m := location];
      case Ellipse =>
        if m % 2 == 0 {
          var middleHeight := (points[opp].y - location.y) / 2.0 + location.y;
          points := points[m := Point(ploc.x, location.y)];
          points := points[prev := Point(points[prev].x, middleHeight)];
          points := points[next := Point(points[next].x, middleHeight)];
        } else {
          var middleWidth := (points[opp].x - location.x) / 2.0 + location.x;
          points := points[m := Point(location.x, ploc.y)];
          points := points[prev := Point(middleWidth, points[prev].y)];
          points := points[next := Point(middleWidth, points[next].y)];
        }
      case _ =>
        points := points[m := location];
    }

    /**
     * Moving the whole detail: every point view of the detail is shifted by
     * (dx, dy), one after the other in the dictionary's iteration order keys.
     */
    method MoveBy(keys: seq<int>, dx: real, dy: real)
      requires Enumerates(points, keys)
      modifies this
      ensures points == Translate(old(points), dx, dy)
      ensures constraint == old(constraint) && locked == old(locked)
    {
      for n := 0 to |keys|
        invariant points.Keys == old(points).Keys
        invariant constraint == old(constraint) && locked == old(locked)
        invariant forall k :: k in points ==>
          points[k] == if k in keys[..n] then Point(old(points)[k].x + dx, old(points)[k].y + dy) else old(points)[k]
      {
        var k := keys[n];
        assert k !in keys[..n];
        points := points[k := Point(points[k].x + dx, points[k].y + dy)];
        assert keys[..n + 1] == keys[..n] + [k];
      }
      assert keys[..|keys|] == keys;
      TranslatedPointwise(old(points), points, dx, dy);
    }

    /**
     * The loop `while i > t - 1 { points[i + 1] = points[i]; i = i - 1 }`
     * from i = nb, which makes room at key t + 1.
     */
    method ShiftUp(t: int, nb: int)
      modifies this
      ensures points == ShiftedUp(old(points), t, nb)
      ensures constraint == old(constraint) && locked == old(locked)
    {
      var i := nb;
      while i > t - 1
        invariant ShiftedUp(points, t, i) == ShiftedUp(old(points), t, nb)
        invariant constraint == old(constraint) && locked == old(locked)
        decreases i - t + 1
      {
        if i in points {
          points := points[i + 1 := points[i]];
        } else {
          points := points - {i + 1};
        }
        i := i - 1;
      }
    }

    /** The loop `for i in lo...hi { points[i] = points[i + 1] }`, which closes the gap at key lo. */
    method ShiftDown(lo: int, hi: int)
      requires lo <= hi
      modifies this
      ensures points == ShiftedDown(old(points), lo, hi)
      ensures constraint == old(constraint) && locked == old(locked)
    {
      for i := lo to hi + 1
        invariant ShiftedDown(points, i, hi) == ShiftedDown(old(points), lo, hi)
        invariant constraint == old(constraint) && locked == old(locked)
      {
        if i + 1 in points {
          points := points[i := points[i + 1]];
        } else {
          points := points - {i};
        }
      }
    }

    /**
     * The point loop of `viewWillAppear` for a fresh detail: when the
     * `path` splits into more than two tokens, every token with exactly two
     * ';'-parts becomes the point at the next index.
     */
    method LoadPath(path: string, scale: real)
      requires points == map[]
      modifies this
      ensures points == PathToPoints(path, scale)
      ensures constraint == old(constraint) && locked == old(locked)
    {
      var pointsArray := Split(path, ' ');
      FromSeqSnoc<Point>([], Point(0.0, 0.0));
      if |pointsArray| > 2 {
        var pointIndex := 0;
        for k := 0 to |pointsArray|
          invariant pointIndex == |PathPoints(pointsArray[..k], scale)|
          invariant points == FromSeq(PathPoints(pointsArray[..k], scale))
          invariant constraint == old(constraint) && locked == old(locked)
        {
          PathPointsStep(pointsArray, k, scale);
          var coords := Split(pointsArray[k], ';');
          if |coords| == 2 {
            var p := Point(Coord(coords[0], scale), Coord(coords[1], scale));
            FromSeqSnoc(PathPoints(pointsArray[..k], scale), p);
            points := points[pointIndex := p];
            pointIndex := pointIndex + 1;
          }
        }
        assert pointsArray[..|pointsArray|] == pointsArray;
      }
    }
  }
}
