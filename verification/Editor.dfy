/**
 * The detail editor of ViewCreateDetails.swift: the state the touch
 * handlers and toolbar actions update (the `details` dictionary, the point
 * being moved, the detail being edited or created, the undo log of a
 * polygon being drawn) and the XML document it keeps in step.
 *
 * Swift dictionaries are iterated in an order the language leaves open; the
 * methods that walk one take that order as a parameter (`Enumerates`), so
 * every property holds for every order.
 */
module CreateDetails {
  import opened Wrappers
  import opened Geometry
  import opened Shapes
  import opened Reindex
  import opened Polygon
  import opened Xml
  import opened Text
  import opened DetailXml
  import opened Details

  /**
   * The position in keys of the first key whose point lies within r of
   * loc, or |keys| when there is none: where `for (id, point) in points`
   * with `dist < r ... break` stops.
   */
  function FirstNear(pts: map<int, Point>, keys: seq<int>, loc: Point, r: real): (i: nat)
    requires forall j :: 0 <= j < |keys| ==> keys[j] in pts
    ensures i <= |keys|
    ensures i < |keys| ==> Near(loc, pts[keys[i]], r)
    ensures forall j :: 0 <= j < i ==> !Near(loc, pts[keys[j]], r)
  {
    if keys == [] then 0
    else if Near(loc, pts[keys[0]], r) then 0
    else 1 + FirstNear(pts, keys[1..], loc, r)
  }

  /** When the walk finds no point, no point of the map is within r: the choice does not depend on the order. */
  lemma NoneNear(pts: map<int, Point>, keys: seq<int>, loc: Point, r: real)
    requires Enumerates(pts, keys)
    requires FirstNear(pts, keys, loc, r) == |keys|
    ensures forall k :: k in pts ==> !Near(loc, pts[k], r)
  {
    forall k | k in pts ensures !Near(loc, pts[k], r) {
      var j :| 0 <= j < |keys| && keys[j] == k;
    }
  }

  /** The walk itself: visit the keys in order and stop at the first point within r. */
  method FindNear(pts: map<int, Point>, keys: seq<int>, loc: Point, r: real) returns (n: nat)
    requires forall j :: 0 <= j < |keys| ==> keys[j] in pts
    ensures n == FirstNear(pts, keys, loc, r)
  {
    n := 0;
    while n < |keys|
      invariant n <= |keys|
      invariant forall j :: 0 <= j < n ==> !Near(loc, pts[keys[j]], r)
    {
      if Near(loc, pts[keys[n]], r) {
        break;
      }
      n := n + 1;
    }
    FirstNearIs(pts, keys, loc, r, n);
  }

  /**
   * The key of the point the walk over pts (in the order keys) stops at,
   * if any: a point within r of loc, and only when no point at all is.
   */
  function NearKey(pts: map<int, Point>, keys: seq<int>, loc: Point, r: real): (k: Option<int>)
    requires Enumerates(pts, keys)
    ensures k.Some? ==> k.value in pts && Near(loc, pts[k.value], r)
    ensures k.None? ==> forall p :: p in pts ==> !Near(loc, pts[p], r)
  {
    var i := FirstNear(pts, keys, loc, r);
    if i < |keys| then Some(keys[i])
    else NoneNear(pts, keys, loc, r); None
  }

  /**
   * The points of a detail after the edit-mode grab: the point found
   * within 20 of loc jumps to loc, except on an ellipse, whose grabbed
   * point stays where it is.
   */
  function Grabbed(pts: map<int, Point>, keys: seq<int>, c: Constraint, loc: Point): (r: map<int, Point>)
    requires Enumerates(pts, keys)
    ensures r.Keys == pts.Keys
    ensures forall k :: k in pts && r[k] != pts[k] ==> r[k] == loc && c != Ellipse && Near(loc, pts[k], TouchRadius)
    ensures forall k :: k in pts && NearKey(pts, keys, loc, TouchRadius) != Some(k) ==> r[k] == pts[k]
    ensures c != Ellipse && NearKey(pts, keys, loc, TouchRadius).Some? ==> r[NearKey(pts, keys, loc, TouchRadius).value] == loc
  {
    match NearKey(pts, keys, loc, TouchRadius)
    case Some(k) => if c != Ellipse then pts[k := loc] else pts
    case None => pts
  }

  /** Every detail's points are keyed 0 .. n-1, as `pointInPolygon` needs. */
  ghost predicate AllKeyed(ds: map<int, Detail>)
    reads ds.Values
  {
    forall t :: t in ds ==> Keyed(ds[t].points, |ds[t].points|)
  }

  lemma AllKeyedAt(ds: map<int, Detail>, t: int)
    requires AllKeyed(ds) && t in ds
    ensures Keyed(ds[t].points, |ds[t].points|)
  {
  }

  /**
   * The position in keys of the first detail whose polygon contains loc,
   * or |keys|: where the edit-mode walk over `details` stops.
   */
  ghost function FirstInside(ds: map<int, Detail>, keys: seq<int>, loc: Point): (h: nat)
    requires forall j :: 0 <= j < |keys| ==> keys[j] in ds
    reads ds.Values
    ensures h <= |keys|
    ensures h < |keys| ==> Inside(ds[keys[h]].points, loc)
    ensures forall j :: 0 <= j < h ==> !Inside(ds[keys[j]].points, loc)
  {
    if keys == [] then 0
    else if Inside(ds[keys[0]].points, loc) then 0
    else 1 + FirstInside(ds, keys[1..], loc)
  }

  lemma {:induction false} FirstInsideIs(ds: map<int, Detail>, keys: seq<int>, loc: Point, n: nat)
    requires forall j :: 0 <= j < |keys| ==> keys[j] in ds
    requires n <= |keys|
    requires forall j :: 0 <= j < n ==> !Inside(ds[keys[j]].points, loc)
    requires n < |keys| ==> Inside(ds[keys[n]].points, loc)
    ensures FirstInside(ds, keys, loc) == n
  {
    if n > 0 {
      FirstInsideIs(ds, keys[1..], loc, n - 1);
    }
  }

  /** The walk over the details with `pointInPolygon`, stopping at the first hit. */
  method FindHit(ds: map<int, Detail>, keys: seq<int>, loc: Point) returns (n: nat)
    requires AllKeyed(ds) && forall j :: 0 <= j < |keys| ==> keys[j] in ds
    ensures n == FirstInside(ds, keys, loc)
  {
    n := 0;
    while n < |keys|
      invariant n <= |keys|
      invariant forall j :: 0 <= j < n ==> !Inside(ds[keys[j]].points, loc)
    {
      AllKeyedAt(ds, keys[n]);
      var inside := PointInPolygon(ds[keys[n]].points, loc);
      if inside {
        break;
      }
      n := n + 1;
    }
    FirstInsideIs(ds, keys, loc, n);
  }

  /** The entries of the menu `addDetail` presents. */
  datatype Action = RectangleAction | EllipseAction | PolygonAction

  /** The constraint of the detail an entry creates. */
  function ActionConstraint(a: Action): (c: Constraint)
    ensures c != Other("") && ParseConstraint(ConstraintText(c)) == c
  {
    match a
    case RectangleAction => Rectangle
    case EllipseAction => Ellipse
    case PolygonAction => Polygon
  }

  /** The points an entry starts its detail with: a rectangle, an ellipse, or none for a polygon drawn by touches. */
  function InitialPoints(a: Action): map<int, Point>
  {
    match a
    case RectangleAction => InitialRectangle()
    case EllipseAction => InitialEllipse()
    case PolygonAction => map[]
  }

  /** A rectangle entry starts with a rectangle, an ellipse entry with an ellipse, both of four points; a polygon with none. */
  lemma InitialShapes(a: Action)
    ensures a == RectangleAction ==> IsRectangle(InitialPoints(a))
    ensures a == EllipseAction ==> IsEllipse(InitialPoints(a))
    ensures a == PolygonAction ==> InitialPoints(a) == map[]
    ensures a != PolygonAction ==> |InitialPoints(a)| == 4
  {
    if a != PolygonAction {
      KeyedCard(InitialPoints(a), 4);
    }
  }

  /** The document after a menu entry: the new element, with the constraint saved for a rectangle or ellipse. */
  function Created(doc: Element, tag: int, a: Action): Element
  {
    var added := AddDetailElement(doc, NewDetailElement(tag));
    if a == PolygonAction then added else SetTagged(added, ShowInt(tag), "constraint", ConstraintText(ActionConstraint(a)))
  }

  class Editor {
    var details: map<int, Detail>
    var currentDetailTag: int
    var movingPoint: int
    var movingCoords: Point
    var beginTouchLocation: Point
    var editDetail: int
    var moveDetail: bool
    var createDetail: bool
    var virtPoints: map<int, Point>
    var polygonPointsOrder: seq<int>
    var xml: Element
    var scale: real

    /**
     * Every detail is stored under its own tag (so two tags never share a
     * detail object), and the document is a real element, not a lookup
     * placeholder.
     */
    ghost predicate Valid()
      reads this, details.Values
    {
      (forall t :: t in details ==> details[t].tag == t) &&
      xml.name != ErrorName
    }

    /** The editor opened on a document: nothing selected, nothing moving, scale 1. */
    constructor (xml: Element)
      requires xml.name != ErrorName
      ensures Valid()
      ensures details == map[] && currentDetailTag == 0 && movingPoint == -1 && editDetail == -1
      ensures !moveDetail && !createDetail && virtPoints == map[] && polygonPointsOrder == []
      ensures movingCoords == Point(0.0, 0.0) && beginTouchLocation == Point(0.0, 0.0)
      ensures this.xml == xml && scale == 1.0
    {
      details := map[];
      currentDetailTag := 0;
      movingPoint := -1;
      movingCoords := Point(0.0, 0.0);
      beginTouchLocation := Point(0.0, 0.0);
      editDetail := -1;
      moveDetail := false;
      createDetail := false;
      virtPoints := map[];
      polygonPointsOrder := [];
      this.xml := xml;
      scale := 1.0;
    }

    /** The virtual point a touch at location selects in the order keys, or -1 for none. */
    function TouchedVirt(location: Point, keys: seq<int>): (touched: int)
      requires Enumerates(virtPoints, keys)
      reads this
      ensures touched != -1 ==> touched in virtPoints && Near(location, virtPoints[touched], TouchRadius)
      ensures (forall k :: k in virtPoints ==> !Near(location, virtPoints[k], TouchRadius)) ==> touched == -1
    {
      var i := FirstNear(virtPoints, keys, location, TouchRadius);
      if i < |keys| then keys[i] else -1
    }

    /**
     * `touchesVirtPoint`: the key of the first virtual point, in the
     * iteration order keys, within 20 of the touch, or -1.
     */
    method TouchesVirtPoint(location: Point, keys: seq<int>) returns (touched: int)
      requires Enumerates(virtPoints, keys)
      ensures touched == TouchedVirt(location, keys)
    {
      touched := -1;
      var n := FindNear(virtPoints, keys, location, TouchRadius);
      if n < |keys| {
        touched := keys[n];
      }
    }

    /**
     * `touchesBegan` while a detail is being created (the current one): a
     * touch inside its polygon (more than 2 points) starts moving the whole
     * detail; a touch within 20 of one of its points grabs that point, which
     * jumps to the touch; otherwise, and always on a virtual point, a point
     * is created at the touch, after the virtual point's key (the later
     * keys moving up) or at the next free key, and its key is logged. The
     * shift loop also bumps the log entries at positions t+1 .. n-1.
     */
    method TouchesBeganCreating(location: Point, touchedVirtPoint: int, keys: seq<int>)
      requires Valid() && currentDetailTag in details
      requires Enumerates(details[currentDetailTag].points, keys)
      requires var n := |details[currentDetailTag].points|;
        (n > 2 && touchedVirtPoint == -1 ==> Keyed(details[currentDetailTag].points, n)) &&
        (touchedVirtPoint != -1 ==>
          var o := if n == 0 then [] else polygonPointsOrder;
          n <= touchedVirtPoint + 1 || (0 <= touchedVirtPoint + 1 && n <= |o|))
      modifies this, Current()
      ensures Valid()
      ensures details == old(details) && currentDetailTag == old(currentDetailTag)
      ensures var d := details[currentDetailTag];
        var p0 := old(details[currentDetailTag].points);
        var n := |p0|;
        var t := touchedVirtPoint;
        var inside := n > 2 && t == -1 && Inside(p0, location);
        var i := if n != 0 && t == -1 then FirstNear(p0, keys, location, TouchRadius) else |keys|;
        var grabbed := i < |keys|;
        var md := if t != -1 || grabbed then false else if inside then true else old(moveDetail);
        var creates := ((t == -1 && n != 0 && !grabbed) || n == 0 || t != -1) && !md;
        var mp := if t == -1 then n else t + 1;
        var o := if n == 0 then [] else old(polygonPointsOrder);
        d.constraint == old(details[currentDetailTag].constraint) && d.locked == old(details[currentDetailTag].locked) &&
        moveDetail == md &&
        beginTouchLocation == (if inside then location else old(beginTouchLocation)) &&
        movingCoords == (if inside then location else old(movingCoords)) &&
        (grabbed ==>
          d.points == p0[keys[i] := location] && movingPoint == keys[i] &&
          polygonPointsOrder == old(polygonPointsOrder)) &&
        (creates ==>
          d.points == (if t == -1 then p0 else ShiftedUp(p0, t, n))[mp := location] &&
          movingPoint == mp &&
          polygonPointsOrder == (if t == -1 then o else InsertLog(o, t, n)) + [mp]) &&
        (!grabbed && !creates ==>
          d.points == p0 && movingPoint == (if inside then -1 else old(movingPoint)) &&
          polygonPointsOrder == old(polygonPointsOrder))
      ensures var d := details[currentDetailTag];
        var p0 := old(details[currentDetailTag].points);
        var n := |p0|;
        var t := touchedVirtPoint;
        Keyed(p0, n) && (t == -1 || 0 <= t < n) ==>
          Keyed(d.points, |d.points|) && n <= |d.points| <= n + 1
      ensures editDetail == old(editDetail) && createDetail == old(createDetail) && xml == old(xml)
      ensures virtPoints == old(virtPoints) && scale == old(scale)
    {
      var d := details[currentDetailTag];
      var detailPoints := |d.points|;
      var addPoint := false;
      if detailPoints != 0 && touchedVirtPoint == -1 {
        addPoint := GrabPoint(location, keys);
      }
      if touchedVirtPoint != -1 {
        moveDetail := false;
        addPoint := false;
      }
      if (addPoint || detailPoints == 0 || touchedVirtPoint != -1) && !moveDetail {
        CreatePoint(location, touchedVirtPoint);
      }
    }

    /**
     * The second block of `touchesBegan` in creation mode: a point is
     * created at the touch, at the next free key or after the touched
     * virtual point t (the later keys and their log entries moving up), and
     * its key is logged; a detail without points starts a fresh log.
     */
    method CreatePoint(location: Point, t: int)
      requires currentDetailTag in details
      requires var n := |details[currentDetailTag].points|;
        t != -1 ==>
          var o := if n == 0 then [] else polygonPointsOrder;
          n <= t + 1 || (0 <= t + 1 && n <= |o|)
      modifies this, Current()
      ensures details == old(details) && currentDetailTag == old(currentDetailTag)
      ensures var d := details[currentDetailTag];
        var p0 := old(details[currentDetailTag].points);
        var n := |p0|;
        var mp := if t == -1 then n else t + 1;
        var o := if n == 0 then [] else old(polygonPointsOrder);
        d.constraint == old(details[currentDetailTag].constraint) && d.locked == old(details[currentDetailTag].locked) &&
        d.points == (if t == -1 then p0 else ShiftedUp(p0, t, n))[mp := location] &&
        movingPoint == mp &&
        polygonPointsOrder == (if t == -1 then o else InsertLog(o, t, n)) + [mp]
      ensures var p0 := old(details[currentDetailTag].points);
        var n := |p0|;
        Keyed(p0, n) && (t == -1 || 0 <= t < n) ==>
          Keyed(details[currentDetailTag].points, n + 1) && |details[currentDetailTag].points| == n + 1
      ensures moveDetail == old(moveDetail) && editDetail == old(editDetail) && createDetail == old(createDetail)
      ensures xml == old(xml) && virtPoints == old(virtPoints) && scale == old(scale)
      ensures movingCoords == old(movingCoords) && beginTouchLocation == old(beginTouchLocation)
    {
      var d := details[currentDetailTag];
      var detailPoints := |d.points|;
      if detailPoints == 0 {
        polygonPointsOrder := [];
      }
      movingPoint := if t == -1 then detailPoints else t + 1;
      if t != -1 {
        ShiftWithLog(t, detailPoints);
      }
      d.SetPoint(movingPoint, location);
      polygonPointsOrder := polygonPointsOrder + [movingPoint];
      if Keyed(old(d.points), detailPoints) && (t == -1 || 0 <= t < detailPoints) {
        AddKeepsKeyed(old(d.points), detailPoints, t, location);
      }
    }

    /**
     * The first block of `touchesBegan` in creation mode, for a detail with
     * points and no virtual point touched: the polygon test, then the walk
     * over the points in the order keys. Answers `addPoint`.
     */
    method GrabPoint(location: Point, keys: seq<int>) returns (addPoint: bool)
      requires Valid() && currentDetailTag in details
      requires Enumerates(details[currentDetailTag].points, keys)
      requires var n := |details[currentDetailTag].points|;
        n != 0 && (n > 2 ==> Keyed(details[currentDetailTag].points, n))
      modifies this, Current()
      ensures Valid()
      ensures details == old(details) && currentDetailTag == old(currentDetailTag)
      ensures var d := details[currentDetailTag];
        var p0 := old(details[currentDetailTag].points);
        var inside := |p0| > 2 && Inside(p0, location);
        var i := FirstNear(p0, keys, location, TouchRadius);
        d.constraint == old(details[currentDetailTag].constraint) && d.locked == old(details[currentDetailTag].locked) &&
        addPoint == (i == |keys|) &&
        moveDetail == (if i < |keys| then false else if inside then true else old(moveDetail)) &&
        beginTouchLocation == (if inside then location else old(beginTouchLocation)) &&
        movingCoords == (if inside then location else old(movingCoords)) &&
        (i < |keys| ==> d.points == p0[keys[i] := location] && movingPoint == keys[i]) &&
        (i == |keys| ==> d.points == p0 && movingPoint == (if inside then -1 else old(movingPoint)))
      ensures polygonPointsOrder == old(polygonPointsOrder) && editDetail == old(editDetail)
      ensures createDetail == old(createDetail) && xml == old(xml)
      ensures virtPoints == old(virtPoints) && scale == old(scale)
    {
      var d := details[currentDetailTag];
      var pts := d.points;
      EnumeratesLength(pts, keys);
      if |pts| > 2 {
        var inside := PointInPolygon(pts, location);
        if inside {
          beginTouchLocation := location;
          movingCoords := location;
          moveDetail := true;
          movingPoint := -1;
        }
      }
      var n := FindNear(pts, keys, location, TouchRadius);
      addPoint := n == |keys|;
      if n < |keys| {
        movingPoint := keys[n];
        moveDetail := false;
        d.SetPoint(keys[n], location);
      }
    }

    /**
     * The shift loop of `touchesBegan` in creation mode: keys t .. nb move
     * up by one (making room at t + 1) and, as the loop goes, the log
     * entries at POSITIONS t+1 .. nb-1 go up by one.
     */
    method ShiftWithLog(t: int, nb: int)
      requires currentDetailTag in details
      requires nb <= t + 1 || (0 <= t + 1 && nb <= |polygonPointsOrder|)
      modifies this, Current()
      ensures details == old(details) && currentDetailTag == old(currentDetailTag)
      ensures var d := details[currentDetailTag];
        d.points == ShiftedUp(old(d.points), t, nb) &&
        d.constraint == old(d.constraint) && d.locked == old(d.locked)
      ensures polygonPointsOrder == InsertLog(old(polygonPointsOrder), t, nb)
      ensures movingPoint == old(movingPoint) && moveDetail == old(moveDetail) && editDetail == old(editDetail)
      ensures createDetail == old(createDetail) && xml == old(xml) && virtPoints == old(virtPoints)
      ensures movingCoords == old(movingCoords) && beginTouchLocation == old(beginTouchLocation) && scale == old(scale)
    {
      var d := details[currentDetailTag];
      var o := polygonPointsOrder;
      var order := polygonPointsOrder;
      var i := nb;
      while i > t - 1
        invariant i <= nb
        invariant ShiftedUp(d.points, t, i) == ShiftedUp(old(d.points), t, nb)
        invariant d.constraint == old(d.constraint) && d.locked == old(d.locked)
        invariant |order| == |o|
        invariant forall j :: 0 <= j < |o| ==> order[j] == o[j] + (if i <= j < nb && j > t then 1 else 0)
        decreases i - t + 1
        modifies d
      {
        if i in d.points {
          d.points := d.points[i + 1 := d.points[i]];
        } else {
          d.points := d.points - {i + 1};
        }
        i := i - 1;
        if i > t {
          order := order[i := order[i] + 1];
        }
      }
      polygonPointsOrder := order;
    }

    /**
     * The detail `touchesBegan` outside creation works on: the first one (in
     * the order detailKeys) whose polygon contains the touch, or else the
     * current one.
     */
    ghost function HitTag(detailKeys: seq<int>, location: Point): int
      requires forall j :: 0 <= j < |detailKeys| ==> detailKeys[j] in details
      reads this, details.Values
    {
      var h := FirstInside(details, detailKeys, location);
      if h < |detailKeys| then detailKeys[h] else currentDetailTag
    }

    /**
     * `touchesBegan` outside creation: the first detail (position h in the
     * order detailKeys) whose polygon contains the touch becomes the current
     * and edited detail, and is set to move unless locked. Then, for a
     * current unlocked detail, the first point within 20 of the touch (in
     * the order of its keys) is grabbed; with no such point the detail is
     * set to move. A touched virtual point t finally inserts a point at the
     * touch with key t + 1, the later keys moving up.
     */
    method TouchesBeganEditing(location: Point, touchedVirtPoint: int, detailKeys: seq<int>, pointOrders: map<int, seq<int>>)
      returns (ghost h: nat)
      requires Valid() && AllKeyed(details) && Enumerates(details, detailKeys)
      requires forall t :: t in details ==> t in pointOrders && Enumerates(details[t].points, pointOrders[t])
      requires var c := HitTag(detailKeys, location);
        (c != 0 || touchedVirtPoint != -1) ==> c in details
      modifies this, if HitTag(detailKeys, location) in details then {details[HitTag(detailKeys, location)]} else {}
      ensures h == old(FirstInside(details, detailKeys, location))
      ensures Valid() && details == old(details)
      ensures currentDetailTag == (if h < |detailKeys| then detailKeys[h] else old(currentDetailTag))
      ensures editDetail == (if h < |detailKeys| then detailKeys[h] else old(editDetail))
      ensures beginTouchLocation == (if h < |detailKeys| then location else old(beginTouchLocation))
      ensures movingCoords == (if h < |detailKeys| then location else old(movingCoords))
      ensures var c := currentDetailTag;
        c in details ==> details[c].constraint == old(details[c].constraint) && details[c].locked == old(details[c].locked)
      ensures var c := currentDetailTag;
        c in details ==>
          var p0 := old(details[c].points);
          var grabs := c != 0 && !details[c].locked;
          var keys := if grabs then pointOrders[c] else [];
          var p1 := if grabs then old(Grabbed(details[c].points, keys, details[c].constraint, location)) else p0;
          details[c].points == if touchedVirtPoint == -1 then p1 else ShiftedUp(p1, touchedVirtPoint, |p1|)[touchedVirtPoint + 1 := location]
      ensures var c := currentDetailTag;
        var grabs := c != 0 && c in details && !details[c].locked;
        var keys := if grabs then pointOrders[c] else [];
        var grab := if grabs then old(NearKey(details[c].points, keys, location, TouchRadius)) else None;
        var md := if h < |detailKeys| then !details[c].locked else old(moveDetail);
        if touchedVirtPoint != -1 then movingPoint == touchedVirtPoint + 1 && !moveDetail
        else if grab.Some? then movingPoint == grab.value && !moveDetail
        else if grabs then movingPoint == -1 && moveDetail == (keys != [] || md)
        else movingPoint == old(movingPoint) && moveDetail == md
      ensures var c := currentDetailTag;
        c in details ==>
          var n := |old(details[c].points)|;
          touchedVirtPoint == -1 || 0 <= touchedVirtPoint < n ==>
            Keyed(details[c].points, if touchedVirtPoint == -1 then n else n + 1)
      ensures createDetail == old(createDetail) && polygonPointsOrder == old(polygonPointsOrder)
      ensures xml == old(xml) && virtPoints == old(virtPoints) && scale == old(scale)
    {
      var n := FindHit(details, detailKeys, location);
      h := n;
      if n < |detailKeys| {
        SelectDetail(detailKeys[n], location);
      }
      if currentDetailTag in details {
        EditCurrent(location, touchedVirtPoint, pointOrders[currentDetailTag]);
      }
    }

    /**
     * The part of `touchesBegan` outside creation that works on the current
     * detail once it is chosen: the grab of a point of an unlocked detail
     * other than tag 0, then the insertion at a touched virtual point.
     */
    method EditCurrent(location: Point, touchedVirtPoint: int, keys: seq<int>)
      requires Valid() && currentDetailTag in details
      requires Enumerates(details[currentDetailTag].points, keys)
      modifies this, details[currentDetailTag]
      ensures Valid() && details == old(details) && currentDetailTag == old(currentDetailTag)
      ensures details[currentDetailTag].constraint == old(details[currentDetailTag].constraint)
      ensures details[currentDetailTag].locked == old(details[currentDetailTag].locked)
      ensures var d := details[currentDetailTag];
        var p0 := old(d.points);
        var grabs := currentDetailTag != 0 && !d.locked;
        var p1 := if grabs then Grabbed(p0, keys, d.constraint, location) else p0;
        d.points == if touchedVirtPoint == -1 then p1 else ShiftedUp(p1, touchedVirtPoint, |p1|)[touchedVirtPoint + 1 := location]
      ensures var d := details[currentDetailTag];
        var grabs := currentDetailTag != 0 && !d.locked;
        var grab := if grabs then NearKey(old(d.points), keys, location, TouchRadius) else None;
        if touchedVirtPoint != -1 then movingPoint == touchedVirtPoint + 1 && !moveDetail
        else if grab.Some? then movingPoint == grab.value && !moveDetail
        else if grabs then movingPoint == -1 && moveDetail == (keys != [] || old(moveDetail))
        else movingPoint == old(movingPoint) && moveDetail == old(moveDetail)
      ensures var n := |old(details[currentDetailTag].points)|;
        Keyed(old(details[currentDetailTag].points), n) && (touchedVirtPoint == -1 || 0 <= touchedVirtPoint < n) ==>
          Keyed(details[currentDetailTag].points, if touchedVirtPoint == -1 then n else n + 1)
      ensures editDetail == old(editDetail) && createDetail == old(createDetail)
      ensures polygonPointsOrder == old(polygonPointsOrder) && xml == old(xml) && virtPoints == old(virtPoints)
      ensures movingCoords == old(movingCoords) && beginTouchLocation == old(beginTouchLocation) && scale == old(scale)
    {
      if currentDetailTag != 0 && !details[currentDetailTag].locked {
        GrabInEdit(location, keys);
      }
      if touchedVirtPoint != -1 {
        InsertVirtPoint(touchedVirtPoint, location);
      }
    }

    /**
     * A touched virtual point t in `touchesBegan` outside creation: the
     * current detail's keys above t move up by one and the new point at
     * the touch takes key t + 1, which becomes the moving point.
     */
    method InsertVirtPoint(t: int, location: Point)
      requires Valid() && currentDetailTag in details
      modifies this, details[currentDetailTag]
      ensures Valid() && details == old(details) && currentDetailTag == old(currentDetailTag)
      ensures details[currentDetailTag].constraint == old(details[currentDetailTag].constraint)
      ensures details[currentDetailTag].locked == old(details[currentDetailTag].locked)
      ensures var p := old(details[currentDetailTag].points);
        details[currentDetailTag].points == ShiftedUp(p, t, |p|)[t + 1 := location]
      ensures var p := old(details[currentDetailTag].points);
        Keyed(p, |p|) && 0 <= t < |p| ==> Keyed(details[currentDetailTag].points, |p| + 1)
      ensures movingPoint == t + 1 && !moveDetail
      ensures editDetail == old(editDetail) && createDetail == old(createDetail)
      ensures polygonPointsOrder == old(polygonPointsOrder) && xml == old(xml) && virtPoints == old(virtPoints)
      ensures movingCoords == old(movingCoords) && beginTouchLocation == old(beginTouchLocation) && scale == old(scale)
    {
      moveDetail := false;
      var d := details[currentDetailTag];
      var nbPoints := |d.points|;
      movingPoint := t + 1;
      ghost var p := d.points;
      d.ShiftUp(t, nbPoints);
      d.SetPoint(movingPoint, location);
      if Keyed(p, nbPoints) && 0 <= t < nbPoints {
        InsertAfter(p, nbPoints, t, location);
      }
    }

    /** The edit-mode walk over `details` stopping at detail tag, whose polygon contains the touch. */
    method SelectDetail(tag: int, location: Point)
      requires tag in details
      modifies this
      ensures details == old(details) && movingPoint == old(movingPoint) && createDetail == old(createDetail)
      ensures currentDetailTag == tag && editDetail == tag
      ensures beginTouchLocation == location && movingCoords == location
      ensures moveDetail == !details[tag].locked
      ensures polygonPointsOrder == old(polygonPointsOrder) && xml == old(xml)
      ensures virtPoints == old(virtPoints) && scale == old(scale)
    {
      beginTouchLocation := location;
      editDetail := tag;
      currentDetailTag := tag;
      movingCoords := location;
      moveDetail := !details[tag].locked;
    }

    /** The walk over the current detail's points (in the order keys) in `touchesBegan` outside creation. */
    method GrabInEdit(location: Point, keys: seq<int>)
      requires Valid() && currentDetailTag in details
      requires Enumerates(details[currentDetailTag].points, keys)
      modifies this, details[currentDetailTag]
      ensures Valid() && details == old(details) && currentDetailTag == old(currentDetailTag)
      ensures details[currentDetailTag].constraint == old(details[currentDetailTag].constraint)
      ensures details[currentDetailTag].locked == old(details[currentDetailTag].locked)
      ensures details[currentDetailTag].points ==
        Grabbed(old(details[currentDetailTag].points), keys, details[currentDetailTag].constraint, location)
      ensures var grab := NearKey(old(details[currentDetailTag].points), keys, location, TouchRadius);
        movingPoint == (if grab.Some? then grab.value else -1) &&
        moveDetail == (if grab.Some? then false else if keys != [] then !details[currentDetailTag].locked else old(moveDetail))
      ensures editDetail == old(editDetail) && createDetail == old(createDetail)
      ensures polygonPointsOrder == old(polygonPointsOrder) && xml == old(xml) && virtPoints == old(virtPoints)
      ensures movingCoords == old(movingCoords) && beginTouchLocation == old(beginTouchLocation) && scale == old(scale)
    {
      var d := details[currentDetailTag];
      movingPoint := -1;
      var i := FindNear(d.points, keys, location, TouchRadius);
      if i < |keys| {
        if d.constraint != Ellipse {
          d.SetPoint(keys[i], location);
        }
        movingPoint := keys[i];
        moveDetail := false;
      } else if keys != [] {
        moveDetail := !d.locked;
      }
    }

    /**
     * `performFullDetailRemove(tag, force)`: unless the detail has 3 points
     * or more and force is off, the detail is dropped, every `detail`
     * element carrying the tag's text leaves the document and nothing is
     * selected any more. A tag without a detail counts as fewer than 3
     * points (Swift compares the missing count as smaller).
     */
    method PerformFullDetailRemove(tag: int, force: bool)
      requires Valid()
      modifies this
      ensures Valid()
      ensures var removes := tag !in old(details) || |old(details)[tag].points| < 3 || force;
        (removes ==> details == old(details) - {tag} && xml == RemoveDetails(old(xml), {ShowInt(tag)}) && currentDetailTag == 0) &&
        (!removes ==> details == old(details) && xml == old(xml) && currentDetailTag == old(currentDetailTag))
      ensures movingPoint == old(movingPoint) && moveDetail == old(moveDetail) && editDetail == old(editDetail)
      ensures createDetail == old(createDetail) && polygonPointsOrder == old(polygonPointsOrder)
      ensures virtPoints == old(virtPoints) && movingCoords == old(movingCoords)
      ensures beginTouchLocation == old(beginTouchLocation) && scale == old(scale)
    {
      if tag !in details || |details[tag].points| < 3 || force {
        details := details - {tag};
        xml := RemoveDetails(xml, {ShowInt(tag)});
        currentDetailTag := 0;
      }
    }

    /**
     * `addDetail`: the tag after the last detail element's (100 without
     * one) becomes the current tag; then, when an entry of the menu is
     * chosen, a fresh detail with that constraint is stored under the tag,
     * its element is added to `xia/details`, and creation starts. A
     * rectangle or ellipse gets its four initial points, creation stops at
     * once, and the constraint is saved into the new element.
     */
    method AddDetail(choice: Option<Action>)
      requires Valid()
      requires var ds := DetailList(xml); ds != [] ==> TagOf(ds[|ds| - 1]).Some?
      modifies this
      ensures Valid()
      ensures currentDetailTag == old(NextTag(xml))
      ensures choice.None? ==> details == old(details) && xml == old(xml) && createDetail == old(createDetail)
      ensures choice.Some? ==>
        var tag := currentDetailTag;
        var a := choice.value;
        tag in details && details == old(details)[tag := details[tag]] &&
        fresh(details[tag]) &&
        details[tag].constraint == ActionConstraint(a) && !details[tag].locked &&
        details[tag].points == InitialPoints(a) &&
        createDetail == (a == PolygonAction) &&
        xml == Created(old(xml), tag, a)
      ensures movingPoint == old(movingPoint) && moveDetail == old(moveDetail) && editDetail == old(editDetail)
      ensures polygonPointsOrder == old(polygonPointsOrder) && virtPoints == old(virtPoints)
      ensures movingCoords == old(movingCoords) && beginTouchLocation == old(beginTouchLocation) && scale == old(scale)
    {
      currentDetailTag := NextTag(xml);
      if choice.Some? {
        CreateFromMenu(choice.value);
      }
    }

    /** A menu entry chosen: the detail is created under the current tag; a rectangle or ellipse is completed at once. */
    method CreateFromMenu(a: Action)
      requires Valid()
      modifies this
      ensures Valid()
      ensures var tag := currentDetailTag;
        tag in details && details == old(details)[tag := details[tag]] &&
        fresh(details[tag]) &&
        details[tag].constraint == ActionConstraint(a) && !details[tag].locked &&
        details[tag].points == InitialPoints(a)
      ensures createDetail == (a == PolygonAction) && xml == Created(old(xml), currentDetailTag, a)
      ensures currentDetailTag == old(currentDetailTag)
      ensures movingPoint == old(movingPoint) && moveDetail == old(moveDetail) && editDetail == old(editDetail)
      ensures polygonPointsOrder == old(polygonPointsOrder) && virtPoints == old(virtPoints)
      ensures movingCoords == old(movingCoords) && beginTouchLocation == old(beginTouchLocation) && scale == old(scale)
    {
      StartDetail(a);
      if a != PolygonAction {
        InitialShapes(a);
        CompleteShape(a);
      }
    }

    /**
     * The end of the rectangle and ellipse entries: creation stops (the
     * four-point detail stays and stays current) and the constraint is
     * saved into the detail's element.
     */
    method CompleteShape(a: Action)
      requires Valid() && currentDetailTag in details && a != PolygonAction
      requires details[currentDetailTag].constraint == ActionConstraint(a) && |details[currentDetailTag].points| == 4
      modifies this
      ensures Valid() && details == old(details) && !createDetail
      ensures xml == SetTagged(old(xml), ShowInt(currentDetailTag), "constraint", ConstraintText(ActionConstraint(a)))
      ensures currentDetailTag == old(currentDetailTag)
      ensures movingPoint == old(movingPoint) && moveDetail == old(moveDetail) && editDetail == old(editDetail)
      ensures polygonPointsOrder == old(polygonPointsOrder) && virtPoints == old(virtPoints)
      ensures movingCoords == old(movingCoords) && beginTouchLocation == old(beginTouchLocation) && scale == old(scale)
    {
      StopCreation();
      xml := SetTagged(xml, ShowInt(currentDetailTag), "constraint", ConstraintText(ActionConstraint(a)));
    }

    /** The start of every menu entry: the new detail is stored under the current tag, its element added, and creation begins. */
    method StartDetail(a: Action)
      requires Valid()
      modifies this
      ensures Valid()
      ensures var tag := currentDetailTag;
        tag in details && details == old(details)[tag := details[tag]] &&
        fresh(details[tag]) &&
        details[tag].constraint == ActionConstraint(a) && !details[tag].locked &&
        details[tag].points == InitialPoints(a)
      ensures xml == AddDetailElement(old(xml), NewDetailElement(currentDetailTag)) && createDetail
      ensures currentDetailTag == old(currentDetailTag)
      ensures movingPoint == old(movingPoint) && moveDetail == old(moveDetail) && editDetail == old(editDetail)
      ensures polygonPointsOrder == old(polygonPointsOrder) && virtPoints == old(virtPoints)
      ensures movingCoords == old(movingCoords) && beginTouchLocation == old(beginTouchLocation) && scale == old(scale)
    {
      var newDetail := NewDetail(currentDetailTag, a);
      details := details[currentDetailTag := newDetail];
      xml := AddDetailElement(xml, NewDetailElement(currentDetailTag));
      createDetail := true;
    }

    /**
     * The detail loop of `viewWillAppear`: each detail element under the
     * root's `details` that has a `path` becomes a fresh detail stored under
     * its tag, replacing any detail already there, with the points, the
     * constraint and the lock LoadedFrom reads.
     */
    method LoadDetails()
      requires Valid() && LoadableTags(LoadList(xml))
      modifies this
      ensures Valid()
      ensures xml == old(xml) && scale == old(scale)
      ensures HoldsLoaded(old(details), old(LoadAll(LoadList(xml), scale)))
      ensures currentDetailTag == old(currentDetailTag) && createDetail == old(createDetail)
      ensures movingPoint == old(movingPoint) && moveDetail == old(moveDetail) && editDetail == old(editDetail)
      ensures polygonPointsOrder == old(polygonPointsOrder) && virtPoints == old(virtPoints)
      ensures movingCoords == old(movingCoords) && beginTouchLocation == old(beginTouchLocation)
    {
      var xmlDetails := LoadList(xml);
      ghost var base := details;
      ghost var sc := scale;
      ghost var loaded: map<int, LoadedDetail> := map[];
      LoadAllStep(xmlDetails, sc, 0);
      for k := 0 to |xmlDetails|
        invariant Valid() && scale == sc && xml == old(xml)
        invariant LoadableTags(xmlDetails[..k]) && loaded == LoadAll(xmlDetails[..k], sc)
        invariant HoldsLoaded(base, loaded)
        invariant currentDetailTag == old(currentDetailTag) && createDetail == old(createDetail)
        invariant movingPoint == old(movingPoint) && moveDetail == old(moveDetail) && editDetail == old(editDetail)
        invariant polygonPointsOrder == old(polygonPointsOrder) && virtPoints == old(virtPoints)
        invariant movingCoords == old(movingCoords) && beginTouchLocation == old(beginTouchLocation)
      {
        LoadAllStep(xmlDetails, sc, k);
        var detail := xmlDetails[k];
        if "path" in detail.attributes {
          var newDetail := LoadDetail(detail, scale);
          Store(newDetail, base, loaded, LoadedFrom(detail, sc));
          loaded := loaded[newDetail.tag := LoadedFrom(detail, sc)];
        }
      }
      assert xmlDetails[..|xmlDetails|] == xmlDetails;
    }

    /**
     * The details are those of base, with every loaded tag holding a detail
     * with the loaded points, constraint and lock.
     */
    ghost predicate HoldsLoaded(base: map<int, Detail>, loaded: map<int, LoadedDetail>)
      reads this, details.Values
    {
      details.Keys == base.Keys + loaded.Keys &&
      (forall t :: t in base && t !in loaded ==> details[t] == base[t]) &&
      forall t :: t in loaded ==>
        details[t].points == loaded[t].points && details[t].constraint == loaded[t].constraint && details[t].locked == loaded[t].locked
    }

    /** A detail d stored under its tag. */
    method Store(d: Detail, ghost base: map<int, Detail>, ghost loaded: map<int, LoadedDetail>, ghost l: LoadedDetail)
      requires Valid() && HoldsLoaded(base, loaded) && d !in details.Values
      requires LoadedDetail(d.points, d.constraint, d.locked) == l
      modifies this
      ensures Valid()
      ensures HoldsLoaded(base, loaded[d.tag := l])
      ensures xml == old(xml) && currentDetailTag == old(currentDetailTag) && createDetail == old(createDetail)
      ensures movingPoint == old(movingPoint) && moveDetail == old(moveDetail) && editDetail == old(editDetail)
      ensures polygonPointsOrder == old(polygonPointsOrder) && virtPoints == old(virtPoints)
      ensures movingCoords == old(movingCoords) && beginTouchLocation == old(beginTouchLocation) && scale == old(scale)
    {
      details := details[d.tag := d];
    }

    /**
     * The detail a menu entry creates, with its initial points set one by
     * one as `createPoint` does.
     */
    static method NewDetail(tag: int, a: Action) returns (d: Detail)
      ensures fresh(d) && d.tag == tag
      ensures d.constraint == ActionConstraint(a) && !d.locked && d.points == InitialPoints(a)
    {
      d := new Detail(tag);
      d.constraint := ActionConstraint(a);
      if a != PolygonAction {
        var ps := if a == RectangleAction then
            [Point(100.0, 30.0), Point(300.0, 30.0), Point(300.0, 150.0), Point(100.0, 150.0)]
          else [Point(300.0, 50.0), Point(400.0, 110.0), Point(300.0, 170.0), Point(200.0, 110.0)];
        d.SetPoint(0, ps[0]);
        d.SetPoint(1, ps[1]);
        d.SetPoint(2, ps[2]);
        d.SetPoint(3, ps[3]);
        assert d.points == FromSeq(ps);
      }
    }

    /** One detail element with a `path`, read into a fresh detail under its tag. */
    static method LoadDetail(detail: Element, scale: real) returns (d: Detail)
      requires "path" in detail.attributes && TagOf(detail).Some?
      ensures fresh(d) && d.tag == TagOf(detail).value
      ensures LoadedDetail(d.points, d.constraint, d.locked) == LoadedFrom(detail, scale)
    {
      var path := detail.attributes["path"];
      d := new Detail(TagOf(detail).value);
      d.LoadPath(path, scale);
      if |Split(path, ' ')| > 2 {
        if "constraint" in detail.attributes {
          d.constraint := ParseConstraint(detail.attributes["constraint"]);
        } else {
          d.constraint := Polygon;
        }
        d.locked := "locked" in detail.attributes && detail.attributes["locked"] == "true";
      }
    }

    /**
     * `stopCreation`: creation ends, the current detail is removed if it has
     * fewer than 3 points, and a polygon that stays is deselected.
     */
    method StopCreation()
      requires Valid()
      modifies this
      ensures Valid() && !createDetail
      ensures var cur := old(currentDetailTag);
        var removes := cur !in old(details) || |old(details)[cur].points| < 3;
        (removes ==> details == old(details) - {cur} && xml == RemoveDetails(old(xml), {ShowInt(cur)}) && currentDetailTag == 0) &&
        (!removes ==> (details == old(details) && xml == old(xml) &&
          currentDetailTag == if old(details)[cur].constraint == Polygon then 0 else cur))
      ensures movingPoint == old(movingPoint) && moveDetail == old(moveDetail) && editDetail == old(editDetail)
      ensures polygonPointsOrder == old(polygonPointsOrder) && virtPoints == old(virtPoints)
      ensures movingCoords == old(movingCoords) && beginTouchLocation == old(beginTouchLocation) && scale == old(scale)
    {
      createDetail := false;
      PerformFullDetailRemove(currentDetailTag, false);
      if currentDetailTag in details && details[currentDetailTag].constraint == Polygon {
        currentDetailTag := 0;
      }
    }

    /**
     * `cleaningDetails`, walking the details in the iteration order keys:
     * every detail with a non-zero tag and fewer than 3 points is removed
     * from the dictionary and from the document, the others stay, and the
     * selection is cleared when anything was removed.
     */
    method CleaningDetails(keys: seq<int>)
      requires Valid() && Enumerates(details, keys)
      modifies this
      ensures Valid()
      ensures details == old(details) - old(SparseTags(details))
      ensures xml == RemoveDetails(old(xml), TagTexts(old(SparseTags(details))))
      ensures currentDetailTag == if old(SparseTags(details)) == {} then old(currentDetailTag) else 0
      ensures movingPoint == old(movingPoint) && moveDetail == old(moveDetail) && editDetail == old(editDetail)
      ensures polygonPointsOrder == old(polygonPointsOrder) && virtPoints == old(virtPoints)
      ensures createDetail == old(createDetail) && scale == old(scale)
      ensures movingCoords == old(movingCoords) && beginTouchLocation == old(beginTouchLocation)
    {
      var snapshot := details;
      ghost var x0, c0 := xml, currentDetailTag;
      ghost var sparse := SparseTags(snapshot);
      ghost var gone: set<int> := {};
      RemoveNothing(xml);
      TagTextsAdd({}, 0);
      for n := 0 to |keys|
        invariant Valid() && Cleaned(snapshot, x0, c0, gone)
        invariant gone == Among(sparse, keys[..n])
        invariant Gestures() == old(Gestures())
      {
        var detailTag := keys[n];
        CleanOne(detailTag, snapshot, x0, c0, gone);
        AmongStep(sparse, keys, n);
        if detailTag != 0 && |snapshot[detailTag].points| < 3 {
          gone := gone + {detailTag};
        }
      }
      AmongAll(snapshot, keys);
    }

    /** The fields the clean-up leaves alone: the touch gesture, the creation state, the undo log and the scale. */
    ghost function Gestures(): (int, bool, int, seq<int>, map<int, Point>, bool, real, Point, Point)
      reads this
    {
      (movingPoint, moveDetail, editDetail, polygonPointsOrder, virtPoints, createDetail, scale, movingCoords, beginTouchLocation)
    }

    /** The state after removing the tags gone from the details snapshot and the document x0, with c0 the selection before. */
    ghost predicate Cleaned(snapshot: map<int, Detail>, x0: Element, c0: int, gone: set<int>)
      reads this
    {
      details == snapshot - gone &&
      xml == RemoveDetails(x0, TagTexts(gone)) &&
      currentDetailTag == if gone == {} then c0 else 0
    }

    /** One pass of the `cleaningDetails` loop, on the detail under detailTag in the snapshot taken before the loop. */
    method CleanOne(detailTag: int, snapshot: map<int, Detail>, ghost x0: Element, ghost c0: int, ghost gone: set<int>)
      requires Valid() && Cleaned(snapshot, x0, c0, gone) && detailTag in snapshot
      modifies this
      ensures Valid()
      ensures Cleaned(snapshot, x0, c0, if detailTag != 0 && |snapshot[detailTag].points| < 3 then gone + {detailTag} else gone)
      ensures Gestures() == old(Gestures())
    {
      if detailTag != 0 && |snapshot[detailTag].points| < 3 {
        RemoveDetailsList(x0, TagTexts(gone), {ShowInt(detailTag)});
        TagTextsAdd(gone, detailTag);
        PerformFullDetailRemove(detailTag, false);
      }
    }

    /** The detail being created or edited, as a frame: empty when the current tag has no detail. */
    ghost function Current(): set<object>
      reads this
    {
      if currentDetailTag in details then {details[currentDetailTag]} else {}
    }

    /**
     * `touchesMoved`: the selected point of the current unlocked detail is
     * dragged (with its constraint) when the touch is less than 200 from it;
     * then, when the whole detail is being moved (in creation, or in edit
     * mode with a detail being edited), every point of the detail moves by
     * the touch's offset from the last touch position (keys is the order the
     * point views are visited), nothing is selected any more and the touch
     * becomes the last position.
     */
    method TouchesMoved(location: Point, keys: seq<int>)
      requires Valid()
      requires movingPoint != -1 && currentDetailTag != 0 ==> currentDetailTag in details
      requires movingPoint != -1 && currentDetailTag != 0 && currentDetailTag in details && !details[currentDetailTag].locked ==>
        var d := details[currentDetailTag];
        movingPoint in d.points &&
        (Near(location, d.points[movingPoint], DragLimit) ==> CornersPresent(d.points, d.constraint, movingPoint))
      requires currentDetailTag in details ==> Enumerates(details[currentDetailTag].points, keys)
      modifies this, Current()
      ensures Valid()
      ensures details == old(details) && currentDetailTag == old(currentDetailTag)
      ensures var cur := currentDetailTag;
        var moves := old(moveDetail) && (old(createDetail) || old(editDetail) != -1);
        cur in details ==>
          var d := details[cur];
          var dragged := old(movingPoint) != -1 && cur != 0 && !old(d.locked) &&
            Near(location, old(d.points)[old(movingPoint)], DragLimit);
          var p1 := if dragged then Drag(old(d.points), old(d.constraint), old(movingPoint), location) else old(d.points);
          d.points == (if moves then Translate(p1, location.x - old(movingCoords).x, location.y - old(movingCoords).y) else p1) &&
          d.constraint == old(d.constraint) && d.locked == old(d.locked)
      ensures var moves := old(moveDetail) && (old(createDetail) || old(editDetail) != -1);
        movingPoint == (if moves then -1 else old(movingPoint)) &&
        movingCoords == (if moves then location else old(movingCoords))
      ensures moveDetail == old(moveDetail) && editDetail == old(editDetail) && createDetail == old(createDetail)
      ensures polygonPointsOrder == old(polygonPointsOrder) && virtPoints == old(virtPoints) && xml == old(xml)
      ensures beginTouchLocation == old(beginTouchLocation) && scale == old(scale)
    {
      var detailTag := currentDetailTag;
      if movingPoint != -1 && detailTag != 0 && !details[detailTag].locked {
        var d := details[detailTag];
        var ploc := d.points[movingPoint];
        if Near(location, ploc, DragLimit) {
          d.DragPoint(movingPoint, location);
        }
      }
      if createDetail {
        if moveDetail {
          MoveDetail(location, keys);
        }
      } else {
        if editDetail != -1 {
          if moveDetail {
            MoveDetail(location, keys);
          }
        }
      }
    }

    /** The move of a whole detail inside `touchesMoved`. */
    method MoveDetail(location: Point, keys: seq<int>)
      requires Valid()
      requires currentDetailTag in details ==> Enumerates(details[currentDetailTag].points, keys)
      modifies this, Current()
      ensures Valid()
      ensures details == old(details) && currentDetailTag == old(currentDetailTag)
      ensures currentDetailTag in details ==>
        var d := details[currentDetailTag];
        d.points == Translate(old(d.points), location.x - old(movingCoords).x, location.y - old(movingCoords).y) &&
        d.constraint == old(d.constraint) && d.locked == old(d.locked)
      ensures movingPoint == -1 && movingCoords == location
      ensures moveDetail == old(moveDetail) && editDetail == old(editDetail) && createDetail == old(createDetail)
      ensures polygonPointsOrder == old(polygonPointsOrder) && virtPoints == old(virtPoints) && xml == old(xml)
      ensures beginTouchLocation == old(beginTouchLocation) && scale == old(scale)
    {
      movingPoint := -1;
      var deltaX := location.x - movingCoords.x;
      var deltaY := location.y - movingCoords.y;
      if currentDetailTag in details {
        details[currentDetailTag].MoveBy(keys, deltaX, deltaY);
      }
      movingCoords := location;
    }

    /**
     * `polygonUndo`: when the current detail has more than 3 points, the
     * point at the last logged key is removed, the log is adjusted (position
     * id goes down by one for each logged id at or above that key), the
     * later keys move down by one, and the last log entry is dropped.
     */
    method PolygonUndo()
      requires Valid()
      requires currentDetailTag in details && |details[currentDetailTag].points| > 3 ==> Undoable(polygonPointsOrder)
      modifies this, Current()
      ensures Valid()
      ensures details == old(details) && currentDetailTag == old(currentDetailTag)
      ensures var cur := currentDetailTag;
        var acts := cur in details && |old(details[cur].points)| > 3;
        (acts ==>
          var order := old(polygonPointsOrder);
          var last := order[|order| - 1];
          polygonPointsOrder == UndoLog(order) &&
          details[cur].points == ShiftedDown(old(details[cur].points) - {last}, last, |order| - 1) &&
          (Keyed(old(details[cur].points), |order|) && 0 <= last ==> Keyed(details[cur].points, |order| - 1))) &&
        (!acts ==> polygonPointsOrder == old(polygonPointsOrder)) &&
        (cur in details ==> (
          (!acts ==> details[cur].points == old(details[cur].points)) &&
          details[cur].constraint == old(details[cur].constraint) && details[cur].locked == old(details[cur].locked)))
      ensures movingPoint == old(movingPoint) && moveDetail == old(moveDetail) && editDetail == old(editDetail)
      ensures createDetail == old(createDetail) && virtPoints == old(virtPoints) && xml == old(xml)
      ensures movingCoords == old(movingCoords) && beginTouchLocation == old(beginTouchLocation) && scale == old(scale)
    {
      var detailTag := currentDetailTag;
      if detailTag in details && |details[detailTag].points| > 3 {
        var d := details[detailTag];
        ghost var before := d.points;
        var snapshot := polygonPointsOrder;
        var lastPoint := snapshot[|snapshot| - 1];
        assert Undoable(snapshot);
        if Keyed(before, |snapshot|) && 0 <= lastPoint {
          RemoveAt(before, |snapshot|, lastPoint);
        }
        d.RemovePoint(lastPoint);
        UndoOrder();
        d.ShiftDown(lastPoint, |snapshot| - 1);
      }
    }

    /**
     * The log part of `polygonUndo`: for each logged id at or above the last
     * entry, the entry at position id goes down by one; then the last entry
     * is dropped (in the app after the points are shifted, which touches no
     * log entry).
     */
    method UndoOrder()
      requires Undoable(polygonPointsOrder)
      modifies this
      ensures polygonPointsOrder == UndoLog(old(polygonPointsOrder))
      ensures details == old(details) && currentDetailTag == old(currentDetailTag) && xml == old(xml)
      ensures movingPoint == old(movingPoint) && moveDetail == old(moveDetail) && editDetail == old(editDetail)
      ensures createDetail == old(createDetail) && virtPoints == old(virtPoints)
      ensures movingCoords == old(movingCoords) && beginTouchLocation == old(beginTouchLocation) && scale == old(scale)
    {
      var order := UndoneLog(polygonPointsOrder);
      polygonPointsOrder := order;
    }

    /** The loop of `polygonUndo` over a copy of the log, then the removal of its last entry. */
    static method UndoneLog(snapshot: seq<int>) returns (r: seq<int>)
      requires Undoable(snapshot)
      ensures r == UndoLog(snapshot)
    {
      var order := snapshot;
      var lastPoint := snapshot[|snapshot| - 1];
      for k := 0 to |snapshot|
        invariant |order| == |snapshot|
        invariant forall j :: 0 <= j < |snapshot| ==>
          order[j] == snapshot[j] - (if j >= lastPoint then multiset(snapshot[..k])[j] else 0)
      {
        var id := snapshot[k];
        CountStep(snapshot, k);
        if id > lastPoint - 1 {
          order := order[id := order[id] - 1];
        }
      }
      assert snapshot[..|snapshot|] == snapshot;
      r := order[..|order| - 1];
      assert forall j :: 0 <= j < |r| ==> r[j] == UndoLog(snapshot)[j];
    }
  }

  /** The tags `cleaningDetails` removes: non-zero, with fewer than 3 points. */
  ghost function SparseTags(ds: map<int, Detail>): (tags: set<int>)
    reads ds.Values
    ensures forall t :: t in tags <==> t in ds && t != 0 && |ds[t].points| < 3
  {
    set t | t in ds && t != 0 && |ds[t].points| < 3
  }

  /** The tags of s met in keys. */
  function Among(s: set<int>, keys: seq<int>): (tags: set<int>)
  {
    set t | t in keys && t in s
  }

  lemma AmongStep(s: set<int>, keys: seq<int>, n: nat)
    requires n < |keys|
    ensures Among(s, keys[..n + 1]) == Among(s, keys[..n]) + if keys[n] in s then {keys[n]} else {}
  {
    assert keys[..n + 1] == keys[..n] + [keys[n]];
  }

  /** Walking every key of ds meets every tag `cleaningDetails` removes. */
  lemma AmongAll(ds: map<int, Detail>, keys: seq<int>)
    requires Enumerates(ds, keys)
    ensures Among(SparseTags(ds), keys[..|keys|]) == SparseTags(ds)
  {
    assert keys[..|keys|] == keys;
  }

  /** The `tag` attribute texts of a set of tags. */
  function TagTexts(tags: set<int>): (texts: set<string>)
    ensures forall t :: t in tags ==> ShowInt(t) in texts
  {
    set t | t in tags :: ShowInt(t)
  }

  lemma TagTextsAdd(tags: set<int>, t: int)
    ensures TagTexts(tags + {t}) == TagTexts(tags) + {ShowInt(t)}
    ensures TagTexts({}) == {}
  {
  }

  lemma CountStep(s: seq<int>, k: nat)
    requires k < |s|
    ensures forall v :: multiset(s[..k + 1])[v] == multiset(s[..k])[v] + (if v == s[k] then 1 else 0)
  {
    assert s[..k + 1] == s[..k] + [s[k]];
  }

  lemma {:induction false} FirstNearIs(pts: map<int, Point>, keys: seq<int>, loc: Point, r: real, n: nat)
    requires forall j :: 0 <= j < |keys| ==> keys[j] in pts
    requires n <= |keys|
    requires forall j :: 0 <= j < n ==> !Near(loc, pts[keys[j]], r)
    requires n < |keys| ==> Near(loc, pts[keys[n]], r)
    ensures FirstNear(pts, keys, loc, r) == n
  {
    if n > 0 {
      FirstNearIs(pts, keys[1..], loc, r, n - 1);
    }
  }
}
