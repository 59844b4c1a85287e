/**
 * The geometry of a detail's points in ViewCreateDetails.swift: the
 * constrained drag of a corner, the translation of a whole detail, the index
 * shifts that insert a point after a virtual point or close the gap left by
 * an undone point, and the undo log adjustments.
 */
module Shapes {
  import opened Geometry

  /** A detail's `constraint` attribute; any other text behaves like a polygon when dragged. */
  datatype Constraint = Rectangle | Ellipse | Polygon | Other(text: string)

  function ParseConstraint(s: string): (c: Constraint)
    ensures ConstraintText(c) == s
  {
    if s == "rectangle" then Rectangle
    else if s == "ellipse" then Ellipse
    else if s == "polygon" then Polygon
    else Other(s)
  }

  function ConstraintText(c: Constraint): string
  {
    match c
    case Rectangle => "rectangle"
    case Ellipse => "ellipse"
    case Polygon => "polygon"
    case Other(s) => s
  }

  /** The constraint written into a detail's XML is read back unchanged. */
  lemma ConstraintRoundTrip(c: Constraint)
    requires !c.Other? || (c.text != "rectangle" && c.text != "ellipse" && c.text != "polygon")
    ensures ParseConstraint(ConstraintText(c)) == c
  {
  }

  /** `distance(location, ploc) < 200`: a drag further than this in one step is ignored. */
  const DragLimit: real := 200.0
  /** `dist < 20`: how close a touch must be to grab a point or a virtual point. */
  const TouchRadius: real := 20.0

  /** The corners a drag of corner m reads besides m itself. */
  ghost predicate CornersPresent(pts: map<int, Point>, c: Constraint, m: int)
  {
    m >= 0 && m in pts &&
    (c == Rectangle || c == Ellipse ==> (m + 3) % 4 in pts && (m + 1) % 4 in pts) &&
    (c == Ellipse ==> (m + 2) % 4 in pts)
  }

  /**
   * The point map after `touchesMoved` drags point m of a detail to loc:
   * a rectangle keeps its edges axis-aligned, an ellipse keeps its four
   * extreme points symmetric, any other shape moves the one point.
   */
  function Drag(pts: map<int, Point>, c: Constraint, m: int, loc: Point): (r: map<int, Point>)
    requires CornersPresent(pts, c, m)
    ensures r.Keys == pts.Keys
    ensures c != Ellipse ==> r[m] == loc
    ensures forall k :: k in pts && k != m && k != (m + 3) % 4 && k != (m + 1) % 4 ==> r[k] == pts[k]
    ensures c != Rectangle && c != Ellipse ==> forall k :: k in pts && k != m ==> r[k] == pts[k]
  {
    var prev, next, opp := (m + 3) % 4, (m + 1) % 4, (m + 2) % 4;
    match c
    case Rectangle =>
      if m % 2 == 0 then
        pts[prev := Point(loc.x, pts[prev].y)][next := Point(pts[next].x, loc.y)][m := loc]
      else
        pts[prev := Point(pts[prev].x, loc.y)][next := Point(loc.x, pts[next].y)][m := loc]
    case Ellipse =>
      if m % 2 == 0 then
        var middleHeight := (pts[opp].y - loc.y) / 2.0 + loc.y;
        pts[m := Point(pts[m].x, loc.y)][prev := Point(pts[prev].x, middleHeight)][next := Point(pts[next].x, middleHeight)]
      else
        var middleWidth := (pts[opp].x - loc.x) / 2.0 + loc.x;
        pts[m := Point(loc.x, pts[m].y)][prev := Point(middleWidth, pts[prev].y)][next := Point(middleWidth, pts[next].y)]
    case _ => pts[m := loc]
  }

  /** Four corners in rotational order whose consecutive edges alternate horizontal and vertical. */
  ghost predicate IsRectangle(pts: map<int, Point>)
  {
    Keyed(pts, 4) &&
    pts[0].y == pts[1].y && pts[1].x == pts[2].x && pts[2].y == pts[3].y && pts[3].x == pts[0].x
  }

  /** Four extreme points of an ellipse: 0 and 2 on the vertical axis, 1 and 3 on the horizontal one. */
  ghost predicate IsEllipse(pts: map<int, Point>)
  {
    Keyed(pts, 4) &&
    pts[0].x == pts[2].x && 2.0 * pts[0].x == pts[1].x + pts[3].x &&
    pts[1].y == pts[3].y && 2.0 * pts[1].y == pts[0].y + pts[2].y
  }

  /** The rectangle `addDetail` creates: (100,30), (300,30), (300,150), (100,150). */
  function InitialRectangle(): (m: map<int, Point>)
    ensures IsRectangle(m)
  {
    FromSeq([Point(100.0, 30.0), Point(300.0, 30.0), Point(300.0, 150.0), Point(100.0, 150.0)])
  }

  /** The ellipse `addDetail` creates: (300,50), (400,110), (300,170), (200,110). */
  function InitialEllipse(): (m: map<int, Point>)
    ensures IsEllipse(m)
  {
    FromSeq([Point(300.0, 50.0), Point(400.0, 110.0), Point(300.0, 170.0), Point(200.0, 110.0)])
  }

  /**
   * Dragging corner m of a rectangle to loc: m takes loc; for even m the
   * previous corner takes loc's x and the next one loc's y (for odd m the
   * other way round); the opposite corner does not move; and the four
   * corners still form an axis-aligned rectangle.
   */
  lemma RectangleDrag(pts: map<int, Point>, m: int, loc: Point)
    requires IsRectangle(pts) && 0 <= m < 4
    ensures var r := Drag(pts, Rectangle, m, loc);
      var prev, next, opp := (m + 3) % 4, (m + 1) % 4, (m + 2) % 4;
      IsRectangle(r) && r[m] == loc && r[opp] == pts[opp] &&
      (m % 2 == 0 ==> r[prev] == Point(loc.x, pts[prev].y) && r[next] == Point(pts[next].x, loc.y)) &&
      (m % 2 == 1 ==> r[prev] == Point(pts[prev].x, loc.y) && r[next] == Point(loc.x, pts[next].y))
  {
  }

  /**
   * Dragging extreme point m of an ellipse: an even m changes only its y,
   * its neighbours' y become the midpoint of the new y and the opposite
   * point's y (odd m mirrors this on x), the opposite point does not move,
   * and the symmetry of the four points is kept.
   */
  lemma EllipseDrag(pts: map<int, Point>, m: int, loc: Point)
    requires IsEllipse(pts) && 0 <= m < 4
    ensures var r := Drag(pts, Ellipse, m, loc);
      var prev, next, opp := (m + 3) % 4, (m + 1) % 4, (m + 2) % 4;
      IsEllipse(r) && r[opp] == pts[opp] &&
      (m % 2 == 0 ==>
         r[m] == Point(pts[m].x, loc.y) &&
         r[prev] == Point(pts[prev].x, (loc.y + pts[opp].y) / 2.0) &&
         r[next] == Point(pts[next].x, (loc.y + pts[opp].y) / 2.0)) &&
      (m % 2 == 1 ==>
         r[m] == Point(loc.x, pts[m].y) &&
         r[prev] == Point((loc.x + pts[opp].x) / 2.0, pts[prev].y) &&
         r[next] == Point((loc.x + pts[opp].x) / 2.0, pts[next].y))
  {
  }

  /** A polygon drag moves the dragged point only and keeps the keys. */
  lemma PolygonDrag(pts: map<int, Point>, c: Constraint, m: int, loc: Point)
    requires c != Rectangle && c != Ellipse && m >= 0 && m in pts
    ensures var r := Drag(pts, c, m, loc);
      r.Keys == pts.Keys && r[m] == loc && forall k :: k in pts && k != m ==> r[k] == pts[k]
  {
  }

  /** The points of a detail shifted by (dx, dy), as when the whole detail is moved. */
  function Translate(pts: map<int, Point>, dx: real, dy: real): (r: map<int, Point>)
    ensures r.Keys == pts.Keys
    ensures forall k :: k in pts ==> r[k] == Point(pts[k].x + dx, pts[k].y + dy)
  {
    map k | k in pts :: Point(pts[k].x + dx, pts[k].y + dy)
  }

  /** A map that moves every point of pts by (dx, dy), and has no other key, is the translation. */
  lemma TranslatedPointwise(pts: map<int, Point>, r: map<int, Point>, dx: real, dy: real)
    requires r.Keys == pts.Keys
    requires forall k :: k in r ==> r[k] == Point(pts[k].x + dx, pts[k].y + dy)
    ensures r == Translate(pts, dx, dy)
  {
    var t := Translate(pts, dx, dy);
    assert r.Keys == t.Keys;
    assert forall k :: k in r ==> r[k] == t[k];
  }

  /** Moving a whole detail keeps a rectangle a rectangle and an ellipse an ellipse. */
  lemma TranslateKeepsShape(pts: map<int, Point>, dx: real, dy: real)
    ensures IsRectangle(pts) ==> IsRectangle(Translate(pts, dx, dy))
    ensures IsEllipse(pts) ==> IsEllipse(Translate(pts, dx, dy))
  {
  }

  /** One step of a gesture on a detail: a drag of a corner or a move of the whole detail. */
  datatype Step = DragStep(m: int, loc: Point) | MoveStep(dx: real, dy: real)

  /** The points after a sequence of gesture steps on a detail with constraint c; out-of-range corners are skipped. */
  ghost function Gesture(pts: map<int, Point>, c: Constraint, steps: seq<Step>): map<int, Point>
    decreases |steps|
  {
    if steps == [] then pts
    else
      var next := match steps[0]
        case DragStep(m, loc) => if CornersPresent(pts, c, m) then Drag(pts, c, m, loc) else pts
        case MoveStep(dx, dy) => Translate(pts, dx, dy);
      Gesture(next, c, steps[1..])
  }

  /** However long the gesture, a rectangle stays an axis-aligned rectangle. */
  lemma {:induction false} RectangleGesture(pts: map<int, Point>, steps: seq<Step>)
    requires IsRectangle(pts)
    ensures IsRectangle(Gesture(pts, Rectangle, steps))
    decreases |steps|
  {
    if steps != [] {
      match steps[0]
      case DragStep(m, loc) =>
        if CornersPresent(pts, Rectangle, m) { RectangleDrag(pts, m, loc); }
        RectangleGesture(if CornersPresent(pts, Rectangle, m) then Drag(pts, Rectangle, m, loc) else pts, steps[1..]);
      case MoveStep(dx, dy) =>
        TranslateKeepsShape(pts, dx, dy);
        RectangleGesture(Translate(pts, dx, dy), steps[1..]);
    }
  }

  /** However long the gesture, an ellipse keeps its symmetry. */
  lemma {:induction false} EllipseGesture(pts: map<int, Point>, steps: seq<Step>)
    requires IsEllipse(pts)
    ensures IsEllipse(Gesture(pts, Ellipse, steps))
    decreases |steps|
  {
    if steps != [] {
      match steps[0]
      case DragStep(m, loc) =>
        if CornersPresent(pts, Ellipse, m) { EllipseDrag(pts, m, loc); }
        EllipseGesture(if CornersPresent(pts, Ellipse, m) then Drag(pts, Ellipse, m, loc) else pts, steps[1..]);
      case MoveStep(dx, dy) =>
        TranslateKeepsShape(pts, dx, dy);
        EllipseGesture(Translate(pts, dx, dy), steps[1..]);
    }
  }
}
