/**
 * The `details` part of the document as the detail editor of
 * ViewCreateDetails.swift reads and writes it: the list of `detail`
 * elements, the tag given to a new detail, the element created for it, the
 * removal of every element carrying a tag, and the reading of a `path`
 * attribute into points.
 */
module DetailXml {
  import opened Wrappers
  import opened Geometry
  import opened Xml
  import opened Text
  import opened Numbers
  import opened Shapes

  /** `xml["xia"]["details"]`. */
  function DetailsOf(doc: Element): Element
  {
    Lookup(Lookup(doc, "xia"), "details")
  }

  /**
   * `xml["xia"]["details"]["detail"].all`: every `detail` child of the first
   * `details`, in document order (Xml.NamedAppend); none when any level is missing.
   */
  function DetailList(doc: Element): (ds: seq<Element>)
    ensures forall i :: 0 <= i < |ds| ==> ds[i].name == "detail"
    ensures forall e :: e in ds <==> e in DetailsOf(doc).children && e.name == "detail"
  {
    Named(DetailsOf(doc).children, "detail")
  }

  /** The integer in a detail element's `tag` attribute, when there is one that reads as an integer. */
  function TagOf(e: Element): Option<int>
  {
    if "tag" in e.attributes then ParseInt(e.attributes["tag"]) else None
  }

  /** The tag `addDetail` allocates: one more than the LAST detail element's tag, or 100 without details. */
  function NextTag(doc: Element): (t: int)
    requires DetailList(doc) != [] ==> TagOf(DetailList(doc)[|DetailList(doc)| - 1]).Some?
    ensures DetailList(doc) == [] ==> t == 100
    ensures DetailList(doc) != [] ==> t > TagOf(DetailList(doc)[|DetailList(doc)| - 1]).value
  {
    var ds := DetailList(doc);
    if ds == [] then 100 else TagOf(ds[|ds| - 1]).value + 1
  }

  /** Every detail element carries a readable tag, and the tags increase in document order. */
  ghost predicate TagsAscending(ds: seq<Element>)
  {
    (forall i :: 0 <= i < |ds| ==> TagOf(ds[i]).Some?) &&
    (forall i, j :: 0 <= i < j < |ds| ==> TagOf(ds[i]).value < TagOf(ds[j]).value)
  }

  /**
   * With ascending tags the allocated tag is above every existing one, so
   * no existing detail element carries its text.
   */
  lemma NextTagFresh(doc: Element)
    requires TagsAscending(DetailList(doc))
    ensures forall i :: 0 <= i < |DetailList(doc)| ==> TagOf(DetailList(doc)[i]).value < NextTag(doc)
    ensures forall i :: 0 <= i < |DetailList(doc)| ==> DetailList(doc)[i].attributes["tag"] != ShowInt(NextTag(doc))
  {
    ParseShowInt(NextTag(doc));
  }

  /** Without ascending tags the allocated tag can be one already in use: tags 101 then 100 give 101 again. */
  lemma NextTagReuses()
    ensures var d101 := Element("detail", Some(""), map["tag" := "101"], []);
      var d100 := Element("detail", Some(""), map["tag" := "100"], []);
      var doc := Element("document", None, map[], [Element("xia", None, map[], [Element("details", None, map[], [d101, d100])])]);
      DetailList(doc) == [d101, d100] && TagOf(d100) == Some(100) && TagOf(d101) == Some(101) && NextTag(doc) == 101
  {
    var d101 := Element("detail", Some(""), map["tag" := "101"], []);
    var d100 := Element("detail", Some(""), map["tag" := "100"], []);
    var details := Element("details", None, map[], [d101, d100]);
    var xia := Element("xia", None, map[], [details]);
    var doc := Element("document", None, map[], [xia]);
    assert FirstIndex(doc.children, "xia") == 0;
    assert FirstIndex(xia.children, "details") == 0;
    assert DetailsOf(doc) == details;
    assert [d101, d100][1..] == [d100];
    assert Named([d100], "detail") == [d100];
    assert Named([d101, d100], "detail") == [d101] + Named([d100], "detail");
    ParseShowInt(100);
    ParseShowInt(101);
    assert ShowInt(100) == "100" && ShowInt(101) == "101";
  }

  /** The element `addDetail` adds for a new detail: zoomed, untitled, with the path "0;0". */
  function NewDetailElement(tag: int): Element
  {
    Element("detail", Some(""), map["tag" := ShowInt(tag), "zoom" := "true", "title" := "", "path" := "0;0"], [])
  }

  /**
   * The new element is a childless `detail` whose `tag` attribute reads back
   * as the tag it was made for, zoomed and untitled; its placeholder path
   * "0;0" is a single token, so reading it back gives no points.
   */
  lemma NewDetailTagged(tag: int, scale: real)
    ensures var e := NewDetailElement(tag);
      e.name == "detail" && TagOf(e) == Some(tag) && e.children == [] &&
      e.attributes.Keys == {"tag", "zoom", "title", "path"} &&
      e.attributes["zoom"] == "true" && e.attributes["title"] == "" &&
      PathToPoints(e.attributes["path"], scale) == map[]
  {
    ParseShowInt(tag);
    SplitJoin(["0;0"], ' ');
  }

  /** `xml["xia"]["details"].addChild(e)`; when `xia` or `details` is missing the child is added to a placeholder and lost. */
  function AddDetailElement(doc: Element, e: Element): Element
  {
    UpdateFirst(doc, "xia", UpdateFirst(Lookup(doc, "xia"), "details", AddChild(DetailsOf(doc), e)))
  }

  /** The document has a `xia` element with a `details` element. */
  predicate HasDetails(doc: Element)
  {
    doc.name != ErrorName && Has(doc, "xia") && Has(Lookup(doc, "xia"), "details")
  }

  /** The `xia` and `details` elements of a document after one of them is replaced by an element of the same name. */
  lemma DetailsAfterUpdate(doc: Element, d: Element)
    requires HasDetails(doc) && d.name == "details"
    ensures var doc' := UpdateFirst(doc, "xia", UpdateFirst(Lookup(doc, "xia"), "details", d));
      HasDetails(doc') && DetailsOf(doc') == d
  {
    var x := Lookup(doc, "xia");
    assert x.name == "xia";
    LookupAfterUpdateSame(x, "details", d);
    LookupAfterUpdateSame(doc, "xia", UpdateFirst(x, "details", d));
  }

  /**
   * Adding a detail element appends it to the detail list (and is lost
   * without `xia/details`); allocating after adding the newly tagged
   * element yields the next integer.
   */
  lemma AddDetailAppends(doc: Element, tag: int)
    ensures HasDetails(doc) ==> DetailList(AddDetailElement(doc, NewDetailElement(tag))) == DetailList(doc) + [NewDetailElement(tag)]
    ensures HasDetails(doc) ==> NextTag(AddDetailElement(doc, NewDetailElement(tag))) == tag + 1
    ensures doc.name != ErrorName && !HasDetails(doc) ==> AddDetailElement(doc, NewDetailElement(tag)) == doc
  {
    var e := NewDetailElement(tag);
    NewDetailTagged(tag, 1.0);
    if HasDetails(doc) {
      var d := AddChild(DetailsOf(doc), e);
      assert DetailsOf(doc).name == "details";
      DetailsAfterUpdate(doc, d);
      NamedAppend(DetailsOf(doc).children, [e], "detail");
      assert [e][1..] == [];
      assert Named([e], "detail") == [e];
    } else if doc.name != ErrorName && Has(doc, "xia") {
      var x := Lookup(doc, "xia");
      assert doc.children[FirstIndex(doc.children, "xia")] == x;
      assert doc.children[FirstIndex(doc.children, "xia") := x] == doc.children;
    }
  }

  /** Every detail element tagged text gets key := value; the others are left alone. */
  function SetEach(cs: seq<Element>, text: string, key: string, value: string): (r: seq<Element>)
    ensures |r| == |cs|
    ensures forall i :: 0 <= i < |cs| ==>
      r[i] == if Tagged(cs[i], {text}) then cs[i].(attributes := cs[i].attributes[key := value]) else cs[i]
    decreases |cs|
  {
    if cs == [] then []
    else
      var e := cs[0];
      [if Tagged(e, {text}) then e.(attributes := e.attributes[key := value]) else e] + SetEach(cs[1..], text, key, value)
  }

  /**
   * The save after a rectangle or ellipse is built: the attribute key of
   * every detail element of `xia/details` tagged text is set to value.
   */
  function SetTagged(doc: Element, text: string, key: string, value: string): (r: Element)
    ensures r.name == doc.name && |r.children| == |doc.children|
    ensures forall i :: 0 <= i < |doc.children| && i != FirstIndex(doc.children, "xia") ==> r.children[i] == doc.children[i]
  {
    var d := DetailsOf(doc);
    UpdateFirst(doc, "xia", UpdateFirst(Lookup(doc, "xia"), "details", d.(children := SetEach(d.children, text, key, value))))
  }

  lemma {:induction false} NamedSetEach(cs: seq<Element>, text: string, key: string, value: string)
    ensures Named(SetEach(cs, text, key, value), "detail") == SetEach(Named(cs, "detail"), text, key, value)
    decreases |cs|
  {
    if cs != [] {
      var r := SetEach(cs, text, key, value);
      NamedSetEach(cs[1..], text, key, value);
      assert r[0].name == cs[0].name && r[1..] == SetEach(cs[1..], text, key, value);
      var n := Named(cs, "detail");
      if cs[0].name == "detail" {
        assert n == [cs[0]] + Named(cs[1..], "detail");
        assert n[0] == cs[0] && n[1..] == Named(cs[1..], "detail");
      } else {
        assert n == Named(cs[1..], "detail");
      }
    }
  }

  /**
   * Saving an attribute other than `tag` on the detail elements tagged text
   * changes those elements' attribute and nothing else: the detail list
   * keeps its order and its tags, so the next allocated tag is unchanged.
   */
  lemma SetTaggedList(doc: Element, text: string, key: string, value: string)
    requires HasDetails(doc) && key != "tag"
    ensures HasDetails(SetTagged(doc, text, key, value))
    ensures DetailList(SetTagged(doc, text, key, value)) == SetEach(DetailList(doc), text, key, value)
    ensures var ds, ds' := DetailList(doc), DetailList(SetTagged(doc, text, key, value));
      forall i :: 0 <= i < |ds| ==> TagOf(ds'[i]) == TagOf(ds[i])
  {
    var d := DetailsOf(doc);
    assert d.name == "details";
    DetailsAfterUpdate(doc, d.(children := SetEach(d.children, text, key, value)));
    NamedSetEach(d.children, text, key, value);
    SetEachTags(DetailList(doc), text, key, value);
  }

  lemma SetEachTags(cs: seq<Element>, text: string, key: string, value: string)
    requires key != "tag"
    ensures var r := SetEach(cs, text, key, value);
      forall i :: 0 <= i < |cs| ==> TagOf(r[i]) == TagOf(cs[i])
  {
    var r := SetEach(cs, text, key, value);
    forall i | 0 <= i < |cs| ensures TagOf(r[i]) == TagOf(cs[i]) {
      assert r[i].attributes == cs[i].attributes || r[i].attributes == cs[i].attributes[key := value];
    }
  }

  /** A `detail` element whose `tag` attribute is one of the given texts (`allWithAttributes(["tag": ...])`). */
  predicate Tagged(e: Element, texts: set<string>)
  {
    e.name == "detail" && "tag" in e.attributes && e.attributes["tag"] in texts
  }

  /** The children left after every tagged detail element removes itself from its parent. */
  function DropTagged(cs: seq<Element>, texts: set<string>): (r: seq<Element>)
    ensures |r| <= |cs|
    ensures forall i :: 0 <= i < |r| ==> !Tagged(r[i], texts)
  {
    if cs == [] then []
    else (if Tagged(cs[0], texts) then [] else [cs[0]]) + DropTagged(cs[1..], texts)
  }

  /** An element that is not tagged survives the removal. */
  lemma {:induction false} DropTaggedKeeps(cs: seq<Element>, texts: set<string>, e: Element)
    requires e in cs && !Tagged(e, texts)
    ensures e in DropTagged(cs, texts)
  {
    if cs[0] != e {
      DropTaggedKeeps(cs[1..], texts, e);
    }
  }

  lemma {:induction false} DropTaggedTwice(cs: seq<Element>, s: set<string>, t: set<string>)
    ensures DropTagged(DropTagged(cs, s), t) == DropTagged(cs, s + t)
  {
    if cs != [] {
      var r := DropTagged(cs, s);
      DropTaggedTwice(cs[1..], s, t);
      if Tagged(cs[0], s) {
        assert r == DropTagged(cs[1..], s);
      } else {
        assert r == [cs[0]] + DropTagged(cs[1..], s);
        assert r[0] == cs[0] && r[1..] == DropTagged(cs[1..], s);
      }
    }
  }

  lemma {:induction false} DropTaggedNamed(cs: seq<Element>, s: set<string>)
    ensures Named(DropTagged(cs, s), "detail") == DropTagged(Named(cs, "detail"), s)
  {
    if cs != [] {
      var r := DropTagged(cs, s);
      var n := Named(cs, "detail");
      DropTaggedNamed(cs[1..], s);
      if Tagged(cs[0], s) {
        assert r == DropTagged(cs[1..], s);
        assert n == [cs[0]] + Named(cs[1..], "detail");
        assert n[0] == cs[0] && n[1..] == Named(cs[1..], "detail");
      } else {
        assert r == [cs[0]] + DropTagged(cs[1..], s);
        assert r[0] == cs[0] && r[1..] == DropTagged(cs[1..], s);
        if cs[0].name == "detail" {
          assert n == [cs[0]] + Named(cs[1..], "detail");
          assert n[0] == cs[0] && n[1..] == Named(cs[1..], "detail");
        } else {
          assert n == Named(cs[1..], "detail");
        }
      }
    }
  }

  /** `performFullDetailRemove` on the document: every detail element tagged with one of the texts is removed. */
  function RemoveDetails(doc: Element, texts: set<string>): (r: Element)
    ensures r.name == doc.name && |r.children| == |doc.children|
    ensures forall i :: 0 <= i < |doc.children| && i != FirstIndex(doc.children, "xia") ==> r.children[i] == doc.children[i]
  {
    var d := DetailsOf(doc);
    UpdateFirst(doc, "xia", UpdateFirst(Lookup(doc, "xia"), "details", d.(children := DropTagged(d.children, texts))))
  }

  lemma {:induction false} DropNothing(cs: seq<Element>)
    ensures DropTagged(cs, {}) == cs
  {
    if cs != [] {
      DropNothing(cs[1..]);
      assert cs == [cs[0]] + cs[1..];
    }
  }

  /** Removing no tag leaves the document as it is. */
  lemma RemoveNothing(doc: Element)
    requires doc.name != ErrorName
    ensures RemoveDetails(doc, {}) == doc
  {
    var d := DetailsOf(doc);
    DropNothing(d.children);
    assert d.(children := DropTagged(d.children, {})) == d;
    if HasDetails(doc) {
      var x := Lookup(doc, "xia");
      assert x.children[FirstIndex(x.children, "details") := d] == x.children;
      assert doc.children[FirstIndex(doc.children, "xia") := x] == doc.children;
    } else if Has(doc, "xia") {
      var x := Lookup(doc, "xia");
      assert doc.children[FirstIndex(doc.children, "xia") := x] == doc.children;
    }
  }

  /**
   * Removal drops exactly the tagged elements from the detail list, keeping
   * the others in order, and two removals amount to one removal of both
   * sets of tags.
   */
  lemma RemoveDetailsList(doc: Element, s: set<string>, t: set<string>)
    requires doc.name != ErrorName
    ensures DetailList(RemoveDetails(doc, s)) == DropTagged(DetailList(doc), s)
    ensures RemoveDetails(RemoveDetails(doc, s), t) == RemoveDetails(doc, s + t)
  {
    var d := DetailsOf(doc);
    if HasDetails(doc) {
      assert d.name == "details";
      DetailsAfterUpdate(doc, d.(children := DropTagged(d.children, s)));
      DropTaggedNamed(d.children, s);
      RemoveDetailsTwice(doc, s, t);
    } else if Has(doc, "xia") {
      var x := Lookup(doc, "xia");
      assert doc.children[FirstIndex(doc.children, "xia") := x] == doc.children;
      assert RemoveDetails(doc, s) == doc;
    }
  }

  lemma RemoveDetailsTwice(doc: Element, s: set<string>, t: set<string>)
    requires HasDetails(doc)
    ensures RemoveDetails(RemoveDetails(doc, s), t) == RemoveDetails(doc, s + t)
  {
    var d := DetailsOf(doc);
    var x := Lookup(doc, "xia");
    assert d.name == "details" && x.name == "xia";
    var d1 := d.(children := DropTagged(d.children, s));
    DetailsAfterUpdate(doc, d1);
    var doc1 := RemoveDetails(doc, s);
    var d2 := d1.(children := DropTagged(d1.children, t));
    DropTaggedTwice(d.children, s, t);
    var x1 := Lookup(doc1, "xia");
    LookupAfterUpdateSame(doc, "xia", UpdateFirst(x, "details", d1));
    assert x1 == UpdateFirst(x, "details", d1);
    assert UpdateFirst(x1, "details", d2) == UpdateFirst(x, "details", d2) by {
      FirstIndexReplace(x.children, FirstIndex(x.children, "details"), d1, "details");
    }
    FirstIndexReplace(doc.children, FirstIndex(doc.children, "xia"), UpdateFirst(x, "details", d1), "xia");
  }

  /** `xml.root`: the document's first child, or a placeholder. */
  function Root(doc: Element): Element
  {
    if doc.children == [] then Element(ErrorName, None, map[], []) else doc.children[0]
  }

  /** `xml.root["details"]["detail"].all`, the detail elements read on load. */
  function LoadList(doc: Element): (ds: seq<Element>)
    ensures forall i :: 0 <= i < |ds| ==> ds[i].name == "detail"
    ensures forall e :: e in ds <==> e in Lookup(Root(doc), "details").children && e.name == "detail"
  {
    Named(Lookup(Root(doc), "details").children, "detail")
  }

  /** One coordinate of a `path` token, read as a number and scaled. */
  function Coord(text: string, scale: real): real
  {
    ConvertStringToFloat(text) * scale
  }

  /** The point of one `path` token: one when it has exactly two ';'-parts, none otherwise. */
  function TokenPoint(token: string, scale: real): (ps: seq<Point>)
    ensures |ps| <= 1
  {
    var coords := Split(token, ';');
    if |coords| == 2 then [Point(Coord(coords[0], scale), Coord(coords[1], scale))] else []
  }

  /** The points of a split `path`, in token order. */
  function PathPoints(tokens: seq<string>, scale: real): (ps: seq<Point>)
    ensures |ps| <= |tokens|
    decreases |tokens|
  {
    if tokens == [] then [] else TokenPoint(tokens[0], scale) + PathPoints(tokens[1..], scale)
  }

  /** The points `viewWillAppear` creates from a `path`: nothing unless it has more than two tokens. */
  function PathToPoints(path: string, scale: real): (pts: map<int, Point>)
    ensures Keyed(pts, |pts|)
    ensures |Split(path, ' ')| <= 2 ==> pts == map[]
  {
    var tokens := Split(path, ' ');
    var ps := if |tokens| > 2 then PathPoints(tokens, scale) else [];
    KeyedCard(FromSeq(ps), |ps|);
    FromSeq(ps)
  }

  /** Tokens contribute their points in order. */
  lemma {:induction false} PathPointsAppend(a: seq<string>, b: seq<string>, scale: real)
    ensures PathPoints(a + b, scale) == PathPoints(a, scale) + PathPoints(b, scale)
    decreases |a|
  {
    if a != [] {
      assert (a + b)[0] == a[0] && (a + b)[1..] == a[1..] + b;
      PathPointsAppend(a[1..], b, scale);
      assert PathPoints(a + b, scale) == TokenPoint(a[0], scale) + PathPoints(a[1..] + b, scale);
    } else {
      assert a + b == b;
    }
  }

  /** The points of the first k + 1 tokens: those of the first k, then those of token k. */
  lemma PathPointsStep(tokens: seq<string>, k: nat, scale: real)
    requires k < |tokens|
    ensures PathPoints(tokens[..k + 1], scale) == PathPoints(tokens[..k], scale) + TokenPoint(tokens[k], scale)
  {
    assert tokens[..k + 1] == tokens[..k] + [tokens[k]];
    PathPointsAppend(tokens[..k], [tokens[k]], scale);
    assert PathPoints([tokens[k]], scale) == TokenPoint(tokens[k], scale) + PathPoints([], scale);
  }

  /** A coordinate text: non-empty, without the separators of a path. */
  predicate Plain(s: string)
  {
    s != [] && ' ' !in s && ';' !in s
  }

  /** A token of two coordinates separated by ';' gives one point; one without exactly two parts gives none. */
  lemma TokenPointOf(x: string, y: string, scale: real)
    requires Plain(x) && Plain(y)
    ensures TokenPoint(x + ";" + y, scale) == [Point(Coord(x, scale), Coord(y, scale))]
  {
    SplitJoin([x, y], ';');
    assert Join([x, y], ';') == x + ";" + y by {
      assert Join([y], ';') == y;
    }
  }

  lemma SkippedToken(t: string, scale: real)
    requires |Split(t, ';')| != 2
    ensures PathPoints([t], scale) == []
  {
    assert PathPoints([t], scale) == TokenPoint(t, scale) + PathPoints([], scale);
  }

  /** The tokens x;y of a path for the given coordinate texts. */
  function CoordTokens(xs: seq<string>, ys: seq<string>): (ts: seq<string>)
    requires |xs| == |ys|
    ensures |ts| == |xs|
  {
    seq(|xs|, i requires 0 <= i < |xs| => xs[i] + ";" + ys[i])
  }

  lemma {:induction false} CoordTokensPoints(xs: seq<string>, ys: seq<string>, scale: real)
    requires |xs| == |ys| && forall i :: 0 <= i < |xs| ==> Plain(xs[i]) && Plain(ys[i])
    ensures var ps := PathPoints(CoordTokens(xs, ys), scale);
      |ps| == |xs| && forall i :: 0 <= i < |xs| ==> ps[i] == Point(Coord(xs[i], scale), Coord(ys[i], scale))
    decreases |xs|
  {
    if xs != [] {
      var ts := CoordTokens(xs, ys);
      assert ts[0] == xs[0] + ";" + ys[0];
      assert ts[1..] == CoordTokens(xs[1..], ys[1..]);
      TokenPointOf(xs[0], ys[0], scale);
      CoordTokensPoints(xs[1..], ys[1..], scale);
    }
  }

  /**
   * Reading a path written as space-separated "x;y" tokens: with more than
   * two tokens, point i is (x_i, y_i) read and scaled, at key i; with two or
   * fewer the detail gets no points.
   */
  lemma ReadPath(xs: seq<string>, ys: seq<string>, scale: real)
    requires |xs| == |ys| && forall i :: 0 <= i < |xs| ==> Plain(xs[i]) && Plain(ys[i])
    ensures var pts := PathToPoints(Join(CoordTokens(xs, ys), ' '), scale);
      (|xs| > 2 ==>
         Keyed(pts, |xs|) &&
         forall i :: 0 <= i < |xs| ==> pts[i] == Point(Coord(xs[i], scale), Coord(ys[i], scale))) &&
      (|xs| <= 2 ==> pts == map[])
  {
    var ts := CoordTokens(xs, ys);
    forall i | 0 <= i < |ts| ensures ts[i] != [] && ' ' !in ts[i] {
      assert ts[i] == xs[i] + ";" + ys[i];
    }
    SplitJoin(ts, ' ');
    CoordTokensPoints(xs, ys, scale);
  }

  // ---------------------------------------------------------------------
  // Loading the details when the editor appears.

  /** What a loaded detail holds: its points, its constraint and its lock. */
  datatype LoadedDetail = LoadedDetail(points: map<int, Point>, constraint: Constraint, locked: bool)

  /**
   * The detail read from an element with a `path`: the points of the path;
   * with more than two tokens also the `constraint` attribute (polygon when
   * absent) and the lock (set only by the text "true"); with two tokens or
   * fewer the fresh detail's empty constraint text and no lock.
   */
  function LoadedFrom(e: Element, scale: real): (l: LoadedDetail)
    requires "path" in e.attributes
    ensures l.points == PathToPoints(e.attributes["path"], scale)
    ensures |Split(e.attributes["path"], ' ')| <= 2 ==> l == LoadedDetail(map[], Other(""), false)
    ensures |Split(e.attributes["path"], ' ')| > 2 ==>
      ConstraintText(l.constraint) == (if "constraint" in e.attributes then e.attributes["constraint"] else "polygon") &&
      (l.locked <==> "locked" in e.attributes && e.attributes["locked"] == "true")
  {
    var path := e.attributes["path"];
    if |Split(path, ' ')| > 2 then
      LoadedDetail(PathToPoints(path, scale),
        if "constraint" in e.attributes then ParseConstraint(e.attributes["constraint"]) else Polygon,
        "locked" in e.attributes && e.attributes["locked"] == "true")
    else LoadedDetail(PathToPoints(path, scale), Other(""), false)
  }

  /** Every element with a `path` has a `tag` that reads as an integer (the load force-unwraps it). */
  predicate LoadableTags(ds: seq<Element>)
  {
    forall i :: 0 <= i < |ds| ==> "path" in ds[i].attributes ==> TagOf(ds[i]).Some?
  }

  /** The details the load creates from the elements ds, in order: a later element with the same tag replaces an earlier one. */
  function LoadAll(ds: seq<Element>, scale: real): map<int, LoadedDetail>
    requires LoadableTags(ds)
    decreases |ds|
  {
    if ds == [] then map[]
    else
      var m := LoadAll(ds[..|ds| - 1], scale);
      var e := ds[|ds| - 1];
      if "path" in e.attributes then m[TagOf(e).value := LoadedFrom(e, scale)] else m
  }

  lemma LoadablePrefix(ds: seq<Element>)
    requires LoadableTags(ds) && ds != []
    ensures LoadableTags(ds[..|ds| - 1])
  {
    var p := ds[..|ds| - 1];
    forall i | 0 <= i < |p| ensures "path" in p[i].attributes ==> TagOf(p[i]).Some? { assert p[i] == ds[i]; }
  }

  /** The load of the first k + 1 elements is that of the first k followed by element k. */
  lemma LoadAllStep(ds: seq<Element>, scale: real, k: int)
    requires LoadableTags(ds) && 0 <= k <= |ds|
    ensures LoadableTags(ds[..k])
    ensures k < |ds| ==> LoadableTags(ds[..k + 1])
    ensures k < |ds| && "path" in ds[k].attributes ==>
      LoadAll(ds[..k + 1], scale) == LoadAll(ds[..k], scale)[TagOf(ds[k]).value := LoadedFrom(ds[k], scale)]
    ensures k < |ds| && "path" !in ds[k].attributes ==> LoadAll(ds[..k + 1], scale) == LoadAll(ds[..k], scale)
  {
    forall i | 0 <= i < k ensures "path" in ds[..k][i].attributes ==> TagOf(ds[..k][i]).Some? { assert ds[..k][i] == ds[i]; }
    if k < |ds| {
      var p := ds[..k + 1];
      forall i | 0 <= i <= k ensures "path" in p[i].attributes ==> TagOf(p[i]).Some? { assert p[i] == ds[i]; }
      assert p[..k] == ds[..k] && p[k] == ds[k];
    }
  }

  /** Every element with a path loads a detail under its tag. */
  lemma {:induction false} LoadAllHas(ds: seq<Element>, scale: real, i: int)
    requires LoadableTags(ds) && 0 <= i < |ds| && "path" in ds[i].attributes
    ensures TagOf(ds[i]).value in LoadAll(ds, scale)
    decreases |ds|
  {
    LoadablePrefix(ds);
    var p := ds[..|ds| - 1];
    if i < |p| {
      assert p[i] == ds[i];
      LoadAllHas(p, scale, i);
    }
  }

  /** Every loaded tag comes from an element with a path. */
  lemma {:induction false} LoadAllOnly(ds: seq<Element>, scale: real, t: int)
    requires LoadableTags(ds) && t in LoadAll(ds, scale)
    ensures exists i :: 0 <= i < |ds| && "path" in ds[i].attributes && TagOf(ds[i]) == Some(t)
    decreases |ds|
  {
    LoadablePrefix(ds);
    var p := ds[..|ds| - 1];
    var e := ds[|ds| - 1];
    if !("path" in e.attributes && TagOf(e) == Some(t)) {
      LoadAllOnly(p, scale, t);
      var i :| 0 <= i < |p| && "path" in p[i].attributes && TagOf(p[i]) == Some(t);
      assert ds[i] == p[i];
    }
  }

  /** A tag holds what the last element with a path and that tag describes. */
  lemma {:induction false} LoadAllLast(ds: seq<Element>, scale: real, i: int)
    requires LoadableTags(ds) && 0 <= i < |ds| && "path" in ds[i].attributes
    requires forall j :: i < j < |ds| ==> !("path" in ds[j].attributes && TagOf(ds[j]) == TagOf(ds[i]))
    ensures TagOf(ds[i]).value in LoadAll(ds, scale)
    ensures LoadAll(ds, scale)[TagOf(ds[i]).value] == LoadedFrom(ds[i], scale)
    decreases |ds|
  {
    LoadablePrefix(ds);
    var p := ds[..|ds| - 1];
    if i < |p| {
      assert p[i] == ds[i];
      forall j | i < j < |p| ensures !("path" in p[j].attributes && TagOf(p[j]) == TagOf(p[i])) { assert p[j] == ds[j]; }
      LoadAllLast(p, scale, i);
    }
  }
}
