# xia4ipad detail editor — a Dafny model

xia4ipad annotates images with "details". A detail is a region given by
corner points keyed 0, 1, 2, …, under a shape constraint:
- a free polygon;
- a rectangle whose edges stay axis-aligned;
- an ellipse given by four symmetric extreme points.

The details live in an XML document next to the image. This project models
the logic of the app that does not depend on UIKit:

- **`Polygon`**: the even-odd ray-casting hit test `pointInPolygon`. It is
  proved to compute the parity of the edges crossing the ray.
- **`Numbers`, `Text`**: `convertStringToCGFloat` and its decimal-comma
  fallback; the splitting of a `path` attribute; the rendering and parsing
  of integer tags.
- **`Xml`, `Repair`**: AEXML's lookup semantics, including the placeholder
  element for a missing child, and the repair pass `checkXML`. Properties:
  - every `detail` ends up `locked`;
  - on a document with one `xia` element, values the pass filled in from
    absence are not filled again by a second run;
  - the `author` → `creator` migration;
  - the pass is not idempotent.
- **`Shapes`, `Reindex`, `Details`**: the constrained drag of a corner, the
  translation of a whole detail, and the key shifts that insert a point after
  a virtual point or close the gap of an undone point. Properties:
  - rectangles and ellipses keep their shape over any gesture;
  - keys stay contiguous;
  - insert-then-undo restores the points.

  `Details.Detail` is a class whose point map is updated in place.
- **`DetailXml`**: the `details` part of the document. It covers tag
  allocation, the element added for a new detail, the removal of every
  element carrying a tag, and reading a `path` into points and loading the
  details.
- **`CreateDetails.Editor`**: the state of the editing screen of
  ViewCreateDetails.swift. It is a class with the screen's fields:
  - the `details` dictionary, `currentDetailTag`, `movingPoint` and
    `moveDetail`;
  - the undo log `polygonPointsOrder`, the virtual points, and the document.

  Its methods are the touch handlers (`touchesBegan` in creation and edit
  mode, `touchesMoved`) and the toolbar actions (`addDetail`, `polygonUndo`,
  `stopCreation`). The clean-up methods `cleaningDetails` and
  `performFullDetailRemove` are included, as is the detail loop of
  `viewWillAppear`.

Swift dictionaries iterate in an order the language leaves open. Every walk
over a dictionary takes that order as a parameter (`Geometry.Enumerates`), so
each property holds for every order. The model states which results do not
depend on the order (`CreateDetails.NoneNear`, `CreateDetails.AmongAll`).

The model follows the code as written, including these behaviours a reader
might not expect:
- **New tags.** A new detail's tag is one more than the tag of the LAST
  detail element, not the largest tag (`DetailXml.NextTagReuses`). It is
  fresh only when the tags ascend (`DetailXml.NextTagFresh`).
- **Repair pass.** `checkXML` is not idempotent. An invalid `readonly` gains
  one more default element per run (`Repair.InvalidReadonlyGrows`).
- **Undo log.** The log of a polygon being drawn is renumbered by POSITION,
  not by value, when points are inserted or undone. It does not stay a
  permutation of the point keys (`Reindex.InsertLogLosesPermutation`,
  `Reindex.UndoLogLosesPermutation`).
- **Loading a path.** A detail read from a `path` with two tokens or fewer
  gets no points (`DetailXml.LoadedFrom`). The constraint and lock it then
  has are those of a fresh `xiaDetail`, whose initializer is not part of this
  model: they are assumed to be the empty constraint text and unlocked.

## Model

| member | source | states |
|---|---|---|
| Geometry.SqDist | xia4ipad/ViewCreateDetails.swift:766-770 | the squared distance behind `distance` is never negative, so a touch radius compares squares |
| Polygon.Toggles | xia4ipad/Util.swift:175-179 | an edge toggles the parity only if it is not horizontal and has an end at or left of the point |
| Polygon.TogglesSymmetric | xia4ipad/Util.swift:175-179 | whether an edge toggles does not depend on the order of its ends |
| Polygon.Inside | xia4ipad/Util.swift:168-186 | a point can be inside only a polygon of at least three corners |
| Polygon.FewCornersEven | xia4ipad/Util.swift:168-186 | with fewer than three corners the parity stays even |
| Polygon.PointInPolygon | xia4ipad/Util.swift:168-186 | the loop with j trailing i returns exactly the odd-parity verdict Inside over all edges; no points means outside |
| Polygon.ParityCountsCrossings | xia4ipad/Util.swift:174-183 | the parity flag is odd iff an odd number of edges cross the ray to the left of the point |
| Polygon.LeftOfAllIsOutside | xia4ipad/Util.swift:175-178 | a point strictly left of every vertex is outside |
| Polygon.BelowAllIsOutside | xia4ipad/Util.swift:175-177 | a point at or below every vertex's y is outside (no edge straddles its line) |
| Polygon.AboveAllIsOutside | xia4ipad/Util.swift:175-177 | a point strictly above every vertex is outside |
| Polygon.SquareExamples | xia4ipad/Util.swift:168-186 | on a 10×10 square, (5,5) is inside and (15,5), (-5,5) are outside |
| Text.Split | xia4ipad/ViewCreateDetails.swift:130 | every piece of the split is non-empty and free of the separator |
| Text.SplitAtSeparator | xia4ipad/ViewCreateDetails.swift:130 | a separator cuts the text in two: the pieces of s,c,t are the pieces of s followed by those of t, so pieces keep the text's order |
| Text.SplitRun | xia4ipad/ViewCreateDetails.swift:130 | a non-empty run without the separator is exactly one piece |
| Text.SplitJoin | xia4ipad/ViewCreateDetails.swift:130-135 | splitting undoes joining for non-empty, separator-free pieces |
| Text.Replace | xia4ipad/Util.swift:125 | same length; each comma becomes a dot, every other character is kept |
| Text.ParseShowInt | xia4ipad/ViewCreateDetails.swift:120 | a tag written as "\(tag)" parses back to the same integer |
| Text.ShowIntInjective | xia4ipad/ViewCreateDetails.swift:805 | distinct tags have distinct `tag` attribute texts |
| Numbers.ConvertStringToFloat | xia4ipad/Util.swift:119-129 | a text without a comma converts to its Double reading, or to the sentinel when it has none |
| Numbers.NumberHasNoComma | xia4ipad/Util.swift:121 | any text that reads as a Double contains no comma |
| Numbers.CommaIsNotANumber | xia4ipad/Util.swift:121-126 | a text with a comma never parses directly, so the comma pass decides its value |
| Numbers.CommaToDot | xia4ipad/Util.swift:125 | the comma pass turns a,b into a.b for digit strings |
| Numbers.DotValue | xia4ipad/Util.swift:121-122 | a.b parses to the value of the integer part plus the fraction |
| Numbers.DecimalComma | xia4ipad/Util.swift:119-129 | a,b converts to a + b/10^|b| |
| Numbers.WholeNumber | xia4ipad/Util.swift:121-122 | a digit string converts to its decimal value |
| Numbers.NoDigitsSentinel | xia4ipad/Util.swift:126 | a text without digits converts to the sentinel -12345.6789 |
| Xml.FirstIndex | xia4ipad/Util.swift:81 | the position of the first child with the name, with no earlier match; the length when none |
| Xml.Lookup | xia4ipad/Util.swift:105 | `e[key]` is the first child named key; a missing child is the placeholder whose value reads "element <key> not found" |
| Xml.AddChild | xia4ipad/Util.swift:83 | the child is appended last and nothing else changes |
| Xml.UpdateFirst | xia4ipad/Util.swift:92 | only the first child named key is replaced; with none, the write is lost |
| Xml.RemoveFirst | xia4ipad/Util.swift:110 | exactly the first child named key is removed, the rest keep their order |
| Xml.Named | xia4ipad/Util.swift:79 | `.all` yields exactly the children with that name: an element is in the result iff it is a child with that name |
| Xml.NamedAppend | xia4ipad/Util.swift:79 | the selection from two runs of children is the selection from each, in order, so `.all` keeps document order |
| Xml.LookupAfterUpdateSame | xia4ipad/Util.swift:92 | after replacing the first child named k, looking k up finds the replacement |
| Repair.CheckXml | xia4ipad/Util.swift:78-117 | `checkXML` returns Repaired: the `xia` loop, the `locked` loop, then the `xmlElements` loop |
| Repair.ApplyDefaults | xia4ipad/Util.swift:79-95 | the loop over the top-level elements applies one inspection per `xia` element, in order |
| Repair.AllDefaultsStep | xia4ipad/Util.swift:79-95 | inspecting one element is one step of the loop for `xia` and none otherwise |
| Repair.LockDetails | xia4ipad/Util.swift:96-102 | the loop gives `locked="false"` to each detail lacking it |
| Repair.FillElements | xia4ipad/Util.swift:104-114 | the loop over `xmlElements` applies one fill per name, in order |
| Repair.LookupAfterAdd | xia4ipad/Util.swift:83 | appending a child does not change the first child of an existing name |
| Repair.LookupAfterAddNew | xia4ipad/Util.swift:106 | an appended child with a fresh name is what a later lookup finds |
| Repair.LookupAfterUpdate | xia4ipad/Util.swift:92 | replacing the first `details` leaves lookups of other names unchanged |
| Repair.LookupAfterRemove | xia4ipad/Util.swift:110 | removing `author` leaves the first child of other existing names unchanged |
| Repair.SiblingDefaultsKeepDetails | xia4ipad/Util.swift:81-93 | one inspection never changes the children of the first `details` |
| Repair.SetShowKeepsChildren | xia4ipad/Util.swift:92 | setting `show` changes attributes only, not the detail list |
| Repair.AllDefaultsKeepDetails | xia4ipad/Util.swift:79-95 | the whole `xia` loop keeps the detail list |
| Repair.FillOneKeeps | xia4ipad/Util.swift:105-113 | one `xmlElements` step keeps the first child of any name other than `author` and `creator` (such as `details`) |
| Repair.FillAllKeeps | xia4ipad/Util.swift:104-114 | the whole `xmlElements` loop keeps that child |
| Repair.RepairLocksDetails | xia4ipad/Util.swift:96-102 | after the pass every `detail` has `locked`, existing `locked` values are kept, nothing else in the list changes; child k of the list becomes LockDetail of child k (`locked="false"` added when absent) |
| Repair.Repaired | xia4ipad/Util.swift:78-117 | the pass keeps the document's name and its number of top-level elements, and changes only the first `xia` |
| Repair.SiblingDefaults | xia4ipad/Util.swift:79-95 | one inspection keeps the name, value and attributes, and adds one child per default owed (`readonly` if invalid, `image` if untitled) |
| Repair.LockAll | xia4ipad/Util.swift:96-102 | the `locked` loop keeps the name, value, attributes and number of children |
| Repair.FillOne | xia4ipad/Util.swift:105-113 | one `xmlElements` step keeps the name, value and attributes, never drops children, and changes nothing when the element is present |
| Repair.SecondRunKeepsDefaults | xia4ipad/Util.swift:78-117 | on a single-`xia` document, after one run a `readonly` that was missing is valid, an `image` that was missing is present, and `show` is present when `details` is, so a second run appends none of them |
| Repair.SecondRunKeepsFills | xia4ipad/Util.swift:78-117 | on a single-`xia` document, a listed element (other than `author`) that was missing is present after one run, and the second run's step for it changes nothing |
| Repair.FillAllKeepsFill | xia4ipad/Util.swift:104-114 | the `xmlElements` loop keeps a filled element filled and fills the listed ones that were missing |
| Repair.FillOneKeepsFill | xia4ipad/Util.swift:105-113 | one step keeps an element filled (other than `author`) and fills the element it is about |
| Repair.MigrationKeepsFill | xia4ipad/Util.swift:107-112 | the `author` → `creator` migration keeps every other element filled |
| Repair.SiblingKeepsFill | xia4ipad/Util.swift:79-95 | the inspection keeps filled elements filled |
| Repair.LockAllKeepsFill | xia4ipad/Util.swift:96-102 | the `locked` loop keeps filled elements filled |
| Repair.LockAllKeeps | xia4ipad/Util.swift:96-102 | the `locked` loop changes no lookup of a name other than `details` |
| Repair.MissingReadonlyIsInvalid | xia4ipad/Util.swift:81-85 | a missing `readonly` reads as the placeholder text and so triggers the default |
| Repair.SelfDefaults | xia4ipad/Util.swift:79-95 | the inspection of `xia` appends `readonly` iff invalid, `image` iff untitled, sets `show` only when absent; nothing else changes |
| Repair.SelfShow | xia4ipad/Util.swift:91-93 | `show` is added to the first `details` after the appends exactly when it is absent |
| Repair.SetShowAt | xia4ipad/Util.swift:92 | setting `show` rewrites only the child at the first `details` position |
| Repair.AppendDefaults | xia4ipad/Util.swift:81-89 | the two appends add `readonly` iff invalid and `image` iff untitled, in that order |
| Repair.AppendDefaultsKeepsDetails | xia4ipad/Util.swift:83-92 | the appended children do not move the first `details` |
| Repair.FilledFromAbsence | xia4ipad/Util.swift:81-93 | a missing `readonly`, `image` or `show` is valid on the next inspection |
| Repair.SetShowKeeps | xia4ipad/Util.swift:92 | setting `show` leaves lookups of other names unchanged |
| Repair.MigrateAuthor | xia4ipad/Util.swift:107-112 | with no `creator` and a real `author`, the author is removed and a `creator` with its text appended |
| Repair.AuthorCopied | xia4ipad/Util.swift:106-110 | the step is the append of `creator` holding the author text, then the removal of `author` |
| Repair.MigrateMissingAuthor | xia4ipad/Util.swift:105-109 | with neither, `creator` is appended holding the text "element <author> not found" |
| Repair.PresentElementKept | xia4ipad/Util.swift:105 | a listed element that exists (not holding its placeholder text) is left alone |
| Repair.FillOneSettles | xia4ipad/Util.swift:105-113 | an element filled from absence is not filled again by a second step |
| Repair.RepairedSingle | xia4ipad/Util.swift:78-117 | for a single-`xia` document the pass is inspect, lock, fill of that element |
| Repair.FillAllNamePreserved | xia4ipad/Util.swift:104-114 | the `xmlElements` loop keeps the element's name, value and attributes |
| Repair.InvalidReadonlyGrows | xia4ipad/Util.swift:81-85 | running the pass twice differs from once: an invalid `readonly` gets another default |
| Repair.InvalidReadonlyOnce | xia4ipad/Util.swift:79-95 | one run on `readonly`="yes" appends a default `readonly` and an `image` |
| Repair.EmptyDocumentSettles | xia4ipad/Util.swift:78-117 | an empty `xia` is settled after one run (listing `title`) |
| Repair.EmptyDocumentOnce | xia4ipad/Util.swift:78-117 | one run on an empty `xia` adds `readonly`, `image` and `title` |
| Shapes.ParseConstraint | xia4ipad/ViewCreateDetails.swift:149-154 | the parsed constraint renders back to the attribute text |
| Shapes.ConstraintRoundTrip | xia4ipad/ViewCreateDetails.swift:577 | a saved constraint reads back as the same constraint |
| Shapes.InitialRectangle | xia4ipad/ViewCreateDetails.swift:557-568 | the four points of the rectangle entry form an axis-aligned rectangle keyed 0..3 |
| Shapes.InitialEllipse | xia4ipad/ViewCreateDetails.swift:592-603 | the four points of the ellipse entry are symmetric extreme points keyed 0..3 |
| Shapes.Drag | xia4ipad/ViewCreateDetails.swift:340-373 | the keys are kept; the dragged point goes to the touch except on an ellipse; only it and its two neighbours can move, and only it under a free polygon |
| Shapes.RectangleDrag | xia4ipad/ViewCreateDetails.swift:341-352 | dragging a corner sets it and the neighbours' shared coordinates, keeps the opposite corner, and keeps a rectangle |
| Shapes.EllipseDrag | xia4ipad/ViewCreateDetails.swift:353-368 | dragging an extreme point moves it on its axis, re-centres its neighbours, keeps the opposite point and the symmetry |
| Shapes.PolygonDrag | xia4ipad/ViewCreateDetails.swift:369-372 | any other constraint moves only the dragged point |
| Shapes.Translate | xia4ipad/ViewCreateDetails.swift:380-389 | every point moves by the same offset and no key is added or lost |
| Shapes.TranslateKeepsShape | xia4ipad/ViewCreateDetails.swift:378-406 | moving a whole detail keeps a rectangle a rectangle and an ellipse an ellipse |
| Shapes.RectangleGesture | xia4ipad/ViewCreateDetails.swift:324-408 | any sequence of drags and moves keeps a rectangle axis-aligned |
| Shapes.EllipseGesture | xia4ipad/ViewCreateDetails.swift:324-408 | any sequence of drags and moves keeps an ellipse symmetric |
| Reindex.MoveKey | xia4ipad/ViewCreateDetails.swift:227 | `points[to] = points[from]` copies the point, or removes `to` when `from` is absent; other keys are untouched |
| Reindex.ShiftedUp | xia4ipad/ViewCreateDetails.swift:225-228 | the upward shift; what it holds at each key is stated by ShiftedUpAt |
| Reindex.ShiftedUpAt | xia4ipad/ViewCreateDetails.swift:225-232 | after the upward loop keys lo+1..hi+1 hold what lo..hi held, others are untouched |
| Reindex.ShiftedDown | xia4ipad/ViewCreateDetails.swift:831-833 | the downward shift; what it holds at each key is stated by ShiftedDownAt |
| Reindex.ShiftedDownAt | xia4ipad/ViewCreateDetails.swift:831-833 | after the downward loop keys lo..hi hold what lo+1..hi+1 held, others are untouched |
| Reindex.InsertAfter | xia4ipad/ViewCreateDetails.swift:299-309 | inserting after virtual point t keeps keys contiguous, puts the new point at t+1 and moves later points up one |
| Reindex.RemoveAt | xia4ipad/ViewCreateDetails.swift:819-833 | undoing a point keeps keys contiguous, earlier points in place, later ones one lower |
| Reindex.AddKeepsKeyed | xia4ipad/ViewCreateDetails.swift:221-236 | creating a point at the next key or after a virtual point keeps n+1 contiguous keys |
| Reindex.InsertThenRemove | xia4ipad/ViewCreateDetails.swift:819-833 | undoing the point just inserted after a virtual point restores the original points |
| Reindex.InsertLog | xia4ipad/ViewCreateDetails.swift:225-232 | the shift loop raises the log entries at positions t+1..nb-1 by one and leaves the others |
| Reindex.UndoLog | xia4ipad/ViewCreateDetails.swift:823-835 | each position j ≥ last drops by the number of times j is logged; the last entry goes |
| Reindex.InsertLogLosesPermutation | xia4ipad/ViewCreateDetails.swift:225-239 | two insertions after virtual points turn the log [0,1,2] into one that is no permutation |
| Reindex.UndoLogLosesPermutation | xia4ipad/ViewCreateDetails.swift:823-835 | undo turns the permutation [0,3,4,1,2] into [0,3,3,0] |
| DetailXml.DetailList | xia4ipad/ViewCreateDetails.swift:532 | `xml["xia"]["details"]["detail"]` yields exactly the `detail` children of the first `details` of the first `xia` |
| DetailXml.NextTag | xia4ipad/ViewCreateDetails.swift:532-538 | the tag is 100 without details, and otherwise above the last detail's tag |
| DetailXml.NextTagFresh | xia4ipad/ViewCreateDetails.swift:532-538 | with ascending tags the allocated tag exceeds every tag and matches no `tag` text |
| DetailXml.NextTagReuses | xia4ipad/ViewCreateDetails.swift:532-538 | tags 101 then 100 allocate 101 again |
| DetailXml.NewDetailTagged | xia4ipad/ViewCreateDetails.swift:539-543 | the new element is a childless `detail` with exactly `tag`, `zoom`="true", `title`="" and `path`; its tag reads back as the tag, and its path "0;0" loads no points |
| DetailXml.AddDetailAppends | xia4ipad/ViewCreateDetails.swift:552 | the element is appended to the detail list (lost without `xia/details`), and the next allocation is tag + 1 |
| DetailXml.SetEach | xia4ipad/ViewCreateDetails.swift:574-579 | each detail tagged with the text gets the attribute; the others are unchanged |
| DetailXml.SetTagged | xia4ipad/ViewCreateDetails.swift:574-579 | the save keeps the document's name and its top-level elements other than the first `xia` |
| DetailXml.SetTaggedList | xia4ipad/ViewCreateDetails.swift:574-579 | saving an attribute other than `tag` keeps the detail list's order and tags |
| DetailXml.DropTagged | xia4ipad/ViewCreateDetails.swift:805-809 | no element carrying one of the tags survives the removal |
| DetailXml.DropTaggedKeeps | xia4ipad/ViewCreateDetails.swift:805-809 | an element not carrying the tags survives |
| DetailXml.DropTaggedTwice | xia4ipad/ViewCreateDetails.swift:805-809 | two removals equal one removal of both tag sets |
| DetailXml.RemoveNothing | xia4ipad/ViewCreateDetails.swift:805-809 | removing no tag leaves the document unchanged |
| DetailXml.RemoveDetails | xia4ipad/ViewCreateDetails.swift:805-809 | the removal keeps the document's name and its top-level elements other than the first `xia` |
| DetailXml.RemoveDetailsList | xia4ipad/ViewCreateDetails.swift:805-809 | the document's detail list loses exactly the tagged elements, and removals compose |
| DetailXml.LoadList | xia4ipad/ViewCreateDetails.swift:116 | the load reads exactly the `detail` children of the root's first `details` |
| DetailXml.TokenPoint | xia4ipad/ViewCreateDetails.swift:135-147 | a path token yields at most one point |
| DetailXml.PathPoints | xia4ipad/ViewCreateDetails.swift:134-148 | the tokens yield at most one point each |
| DetailXml.PathToPoints | xia4ipad/ViewCreateDetails.swift:130-148 | the points read are keyed 0..n-1, and a path of two tokens or fewer gives none |
| DetailXml.PathPointsAppend | xia4ipad/ViewCreateDetails.swift:134-148 | tokens contribute their points in order |
| DetailXml.PathPointsStep | xia4ipad/ViewCreateDetails.swift:134-148 | one more token adds its point, if any, after the others |
| DetailXml.TokenPointOf | xia4ipad/ViewCreateDetails.swift:135-138 | a token x;y gives the point of the scaled coordinates |
| DetailXml.SkippedToken | xia4ipad/ViewCreateDetails.swift:136 | a token without exactly two parts gives no point |
| DetailXml.CoordTokensPoints | xia4ipad/ViewCreateDetails.swift:134-147 | tokens x_i;y_i give the points (x_i, y_i) in order |
| DetailXml.ReadPath | xia4ipad/ViewCreateDetails.swift:130-148 | a path of more than two x;y tokens loads point i at key i; two or fewer load nothing |
| DetailXml.LoadedFrom | xia4ipad/ViewCreateDetails.swift:118-156 | the loaded points are the path's; with more than two tokens the constraint (polygon by default) and the lock ("true" only) are read |
| DetailXml.LoadAllStep | xia4ipad/ViewCreateDetails.swift:117-128 | each element with a path stores its detail under its tag; the others change nothing |
| DetailXml.LoadAllHas | xia4ipad/ViewCreateDetails.swift:117-128 | every element with a path has a detail under its tag |
| DetailXml.LoadAllOnly | xia4ipad/ViewCreateDetails.swift:117-128 | every loaded tag comes from an element with a path |
| DetailXml.LoadAllLast | xia4ipad/ViewCreateDetails.swift:127-128 | a tag holds what its last element with a path describes |
| Details.Detail.constructor | xia4ipad/ViewCreateDetails.swift:127 | `xiaDetail(tag:scale:)` gives a detail with the tag and no points; the empty constraint text and the unlocked state are assumed initial values of an initializer that is not part of this model |
| Details.Detail.SetPoint | xia4ipad/ViewCreateDetails.swift:199-202 | the point at the index is set and nothing else changes |
| Details.Detail.RemovePoint | xia4ipad/ViewCreateDetails.swift:821 | the key is removed and nothing else changes |
| Details.Detail.DragPoint | xia4ipad/ViewCreateDetails.swift:340-373 | the step-by-step updates give the constrained Drag of the old points |
| Details.Detail.MoveBy | xia4ipad/ViewCreateDetails.swift:382-389 | visiting the points in any order gives the translation of the old points |
| Details.Detail.ShiftUp | xia4ipad/ViewCreateDetails.swift:225-228 | the downward-counting loop gives ShiftedUp of the old points |
| Details.Detail.ShiftDown | xia4ipad/ViewCreateDetails.swift:831-833 | the loop gives ShiftedDown of the old points |
| Details.Detail.LoadPath | xia4ipad/ViewCreateDetails.swift:130-148 | the point loop stores exactly PathToPoints of the path |
| CreateDetails.FirstNear | xia4ipad/ViewCreateDetails.swift:195-211 | the walk stops at the first point within 20, after only points that are not |
| CreateDetails.NoneNear | xia4ipad/ViewCreateDetails.swift:195-211 | when the walk finds none, no point of the detail is within the radius, whatever the order |
| CreateDetails.FindNear | xia4ipad/ViewCreateDetails.swift:195-211 | the loop with `break` returns the position FirstNear describes |
| CreateDetails.NearKey | xia4ipad/ViewCreateDetails.swift:271-293 | the key found is within the radius, and none is found only when no point is |
| CreateDetails.Grabbed | xia4ipad/ViewCreateDetails.swift:271-289 | the edit grab keeps every point except the near one; on a constraint other than an ellipse the near point goes to the touch |
| CreateDetails.FirstInside | xia4ipad/ViewCreateDetails.swift:254-266 | the walk stops at the first detail whose polygon contains the touch |
| CreateDetails.FindHit | xia4ipad/ViewCreateDetails.swift:254-266 | the loop with `pointInPolygon` and `break` returns that position |
| CreateDetails.ActionConstraint | xia4ipad/ViewCreateDetails.swift:550 | each menu entry's constraint is a real one that survives saving and reloading |
| CreateDetails.InitialShapes | xia4ipad/ViewCreateDetails.swift:556-603 | the rectangle entry starts with a rectangle, the ellipse entry an ellipse (four points each), a polygon with none |
| CreateDetails.SparseTags | xia4ipad/ViewCreateDetails.swift:703 | a tag is cleaned iff it is non-zero and its detail has fewer than 3 points |
| CreateDetails.AmongAll | xia4ipad/ViewCreateDetails.swift:700-707 | walking all keys in any order meets exactly the tags to clean |
| CreateDetails.TagTexts | xia4ipad/ViewCreateDetails.swift:805 | each removed tag's `tag` text is among the texts removed from the document |
| CreateDetails.Editor.constructor | xia4ipad/ViewCreateDetails.swift:27-50 | the screen starts with no details, nothing selected or moving, an empty undo log and scale 1 |
| CreateDetails.Editor.TouchedVirt | xia4ipad/ViewCreateDetails.swift:718-729 | the key returned is a virtual point within 20 of the touch, and -1 is returned when none is |
| CreateDetails.Editor.TouchesVirtPoint | xia4ipad/ViewCreateDetails.swift:718-729 | returns the first virtual point within 20 in the iteration order, or -1 |
| CreateDetails.Editor.TouchesBeganCreating | xia4ipad/ViewCreateDetails.swift:176-249 | in creation: inside the polygon, the detail starts moving; a near point is grabbed and jumps to the touch; otherwise (always on a virtual point) a point is created and logged. Keys stay contiguous |
| CreateDetails.Editor.GrabPoint | xia4ipad/ViewCreateDetails.swift:181-212 | polygon test then point walk: the first near point jumps to the touch, and `addPoint` holds iff no point is near |
| CreateDetails.Editor.CreatePoint | xia4ipad/ViewCreateDetails.swift:217-240 | the new point goes to the next key or after the virtual point (later keys shifted); the key is appended to the log and becomes the moving point |
| CreateDetails.Editor.ShiftWithLog | xia4ipad/ViewCreateDetails.swift:221-232 | the shift loop moves keys up and raises the log entries at positions t+1..nb-1 |
| CreateDetails.Editor.TouchesBeganEditing | xia4ipad/ViewCreateDetails.swift:250-321 | the first detail hit becomes current and edited; a near point of an unlocked detail is grabbed (kept in place on an ellipse); else the detail moves; a virtual point inserts a point at t+1 |
| CreateDetails.Editor.SelectDetail | xia4ipad/ViewCreateDetails.swift:254-265 | the hit detail becomes current and edited, and moves unless locked |
| CreateDetails.Editor.EditCurrent | xia4ipad/ViewCreateDetails.swift:268-320 | the grab, then the virtual-point insertion, on the current detail |
| CreateDetails.Editor.GrabInEdit | xia4ipad/ViewCreateDetails.swift:268-294 | the points become Grabbed; the moving point is the key found, else the detail moves |
| CreateDetails.Editor.InsertVirtPoint | xia4ipad/ViewCreateDetails.swift:296-320 | keys above t move up, the touch becomes point t+1 and the moving point |
| CreateDetails.Editor.PerformFullDetailRemove | xia4ipad/ViewCreateDetails.swift:792-813 | with fewer than 3 points (or none), or forced: the detail and every element with its tag go, and nothing is selected; otherwise nothing changes |
| CreateDetails.Editor.AddDetail | xia4ipad/ViewCreateDetails.swift:530-652 | the tag after the last is current; a chosen entry stores a fresh detail with its constraint and initial points, adds its element, and starts creation only for a polygon |
| CreateDetails.Editor.CreateFromMenu | xia4ipad/ViewCreateDetails.swift:547-632 | a menu entry creates the detail under the current tag; a rectangle or ellipse is completed at once |
| CreateDetails.Editor.StartDetail | xia4ipad/ViewCreateDetails.swift:547-553 | the detail is stored under the tag, its element added, and creation begins |
| CreateDetails.Editor.CompleteShape | xia4ipad/ViewCreateDetails.swift:569-579 | creation stops, the four-point detail stays, and its constraint is saved into its element |
| CreateDetails.Editor.NewDetail | xia4ipad/ViewCreateDetails.swift:556-568 | a fresh detail with the entry's constraint and initial points |
| CreateDetails.Editor.LoadDetail | xia4ipad/ViewCreateDetails.swift:118-156 | a fresh detail under the element's tag holding what LoadedFrom reads |
| CreateDetails.Editor.LoadDetails | xia4ipad/ViewCreateDetails.swift:116-165 | every detail element with a path replaces the detail under its tag with the loaded one; other details stay |
| CreateDetails.Editor.Store | xia4ipad/ViewCreateDetails.swift:128 | storing a detail under its tag adds it to what is loaded |
| CreateDetails.Editor.StopCreation | xia4ipad/ViewCreateDetails.swift:913-928 | creation ends; a current detail with fewer than 3 points is removed; a polygon that stays is deselected |
| CreateDetails.Editor.CleaningDetails | xia4ipad/ViewCreateDetails.swift:700-707 | exactly the sparse details leave the dictionary and the document, whatever the order, and the current tag is cleared if any did; every other field (moving point and detail, edited detail, undo log, virtual points, creation mode, scale, moving coordinates, last touch) is unchanged |
| CreateDetails.Editor.CleanOne | xia4ipad/ViewCreateDetails.swift:701-705 | one pass removes the detail iff it is sparse, keeping the loop's invariant; every field other than the details, the document and the current tag is unchanged |
| CreateDetails.Editor.TouchesMoved | xia4ipad/ViewCreateDetails.swift:324-408 | the moving point is dragged with its constraint when closer than 200; a moving detail is translated by the touch offset and deselected |
| CreateDetails.Editor.MoveDetail | xia4ipad/ViewCreateDetails.swift:377-408 | the current detail's points are translated by the offset from the last touch, which becomes the touch |
| CreateDetails.Editor.PolygonUndo | xia4ipad/ViewCreateDetails.swift:815-846 | with more than 3 points: the last logged point goes, later keys shift down (contiguous keys stay contiguous), and the log becomes UndoLog |
| CreateDetails.Editor.UndoOrder | xia4ipad/ViewCreateDetails.swift:823-835 | the log becomes UndoLog of the old log; nothing else changes |
| CreateDetails.Editor.UndoneLog | xia4ipad/ViewCreateDetails.swift:824-835 | the loop over a copy of the log, then removeLast, computes UndoLog |

## Left out

- Drawing is not modelled. The detail's point views are reduced to their
  centres, and the following are left out:
  - subviews, `buildShape`, `changeDetailColor`, `setBtnsIcons`,
    `cleanOldViews`;
  - the toolbar, gesture recognisers, segues, `touchesEnded`;
  - the computation of virtual points (`virtPoints` is state that the
    modelled methods only read).
- Floating point is not modelled. Coordinates are reals, and `distance(a, b)
  < r` becomes a comparison of squared distances. `sqrt` and rounding are
  left out.
- Only part of `Double(String)` is modelled: an optional sign, digits and at
  most one '.'. Exponents, hexadecimal, `inf` and `nan` are left out. The tag
  parse `NSNumberFormatter` is modelled as an optional '-' and decimal digits.
- Writing the document to disk (`writeXML`), `getXML`, `getCenter` and
  `delay` are I/O or UI and are left out. Serialising a detail's points back
  into `path` (`createPath`) is not part of this model, so the `path` saved
  after a rectangle or ellipse is left out. `DetailXml.SetTagged` models the
  save of `constraint` only.
- The screen's size and scale computation in `viewWillAppear` is left out:
  `scale` is a field and is not recomputed. The `attainablePoints` count is
  not modelled because its only use is commented out. Reading `fileTitle` is
  left out.
- CreateDetails.Editor.LoadDetails: does not state that the loaded details
  are fresh objects, only what they hold. `Store` is the step that keeps the
  tags distinct.
- The AEXML library is not part of this model. Its lookup, `addChild`,
  `removeFromParent` and `allWithAttributes` are modelled on an immutable
  element tree, not on shared node objects. An `xmlElements` list stands in
  for the app's global constant.
- The code after a rectangle or ellipse entry is modelled in its effect on
  the document and the editor. The menu presentation (an asynchronous UIKit
  callback) is the `choice` parameter of `AddDetail`.
- Force-unwraps and out-of-range subscripts that stop the app are modelled
  as preconditions. The trap itself is not modelled:
  - Repair.CheckXml: requires an `xia` element, because `.all!` traps
    without one (xia4ipad/Util.swift:79).
  - DetailXml.NextTag: requires the last detail's `tag` to read as an
    integer, because the unwraps at xia4ipad/ViewCreateDetails.swift:534 trap
    otherwise.
  - CreateDetails.Editor.AddDetail: requires the same readable last tag
    (xia4ipad/ViewCreateDetails.swift:534).
  - CreateDetails.Editor.LoadDetails: requires `LoadableTags`, a readable
    `tag` on every detail element with a `path`
    (xia4ipad/ViewCreateDetails.swift:120).
  - Polygon.PointInPolygon: requires the points keyed 0..n-1, because
    `points[j]!` traps on a missing key (xia4ipad/Util.swift:175).
  - CreateDetails.Editor.GrabPoint: requires keys 0..n-1 when the polygon
    test runs (xia4ipad/Util.swift:175). It is called only on a detail with
    points.
  - CreateDetails.Editor.TouchesBeganCreating: requires keys 0..n-1 for the
    polygon test (xia4ipad/Util.swift:175) and an undo log long enough for
    the shift after a virtual point (xia4ipad/ViewCreateDetails.swift:230).
  - CreateDetails.Editor.ShiftWithLog: requires the undo log to be long
    enough for the positions it raises
    (xia4ipad/ViewCreateDetails.swift:230).
  - CreateDetails.Editor.TouchesBeganEditing: requires keys 0..n-1 on every
    detail (`AllKeyed`), although the app traps only on the details the hit
    test visits before the hit. It also requires the hit or current detail
    to exist (xia4ipad/ViewCreateDetails.swift:269 and 299).
  - CreateDetails.Editor.TouchesMoved: requires the moving point and the
    corners the drag reads to exist
    (xia4ipad/ViewCreateDetails.swift:330-366).
  - CreateDetails.Editor.PolygonUndo: requires `Undoable`, an undo log whose
    entries index the points it shifts
    (xia4ipad/ViewCreateDetails.swift:819-833).
- Some behaviour rests on code that is not part of this model and is
  assumed:
  - `xiaDetail`'s initializer (xiaDetail.swift is not part of this model):
    a new detail is assumed to start with the empty constraint text and
    unlocked (Details.Detail.constructor).
  - The constants `constraintRectangle`, `constraintEllipse` and
    `constraintPolygon` are assumed to be "rectangle", "ellipse" and
    "polygon". The drag compares with the literal "rectangle"
    (xia4ipad/ViewCreateDetails.swift:341), while `addDetail` stores
    `constraintRectangle` (xia4ipad/ViewCreateDetails.swift:550).
  - `createPoint` is assumed to store the new point at its index
    (Details.Detail.SetPoint).
- Repair.SecondRunKeepsFills: does not cover `author`, because the
  `creator` migration of the second run may remove it. For `creator` it
  assumes no `author` already holds the text "element <creator> not found".
- Repair.SecondRunKeepsDefaults: covers documents with one `xia` element
  only. With several, the claim is false: a later `xia` without `readonly`
  makes every run append one more `readonly` to the first `xia`, because the
  appends go to `xml["xia"]`, the first one.
