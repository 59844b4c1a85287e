/**
 * `checkXML` of Util.swift: the repair pass run on every document when it is
 * loaded. It backfills `readonly`, `image`, `details/@show`, per-detail
 * `locked` and the listed top-level elements, and migrates `author` to
 * `creator`. The list of top-level element names (`xmlElements`) is a
 * parameter.
 */
module Repair {
  import opened Wrappers
  import opened Xml

  /** `addChild(name: "readonly", value: "false", attributes: ["code" : "1234"])`. */
  function ReadonlyDefault(): Element
  {
    Element("readonly", Some("false"), map["code" := "1234"], [])
  }

  /** `addChild(name: "image", value: "", attributes: ["title" : "", "desctription" : ""])`. */
  function ImageDefault(): Element
  {
    Element("image", Some(""), map["title" := "", "desctription" := ""], [])
  }

  /** The first `readonly` of c has a value other than "true" and "false" (a missing one reads as the placeholder text). */
  predicate InvalidReadonly(c: Element)
  {
    var v := Lookup(c, "readonly").value;
    v.Some? && v.value != "true" && v.value != "false"
  }

  /** The first `image` of c has no `title` attribute. */
  predicate Untitled(c: Element)
  {
    "title" !in Lookup(c, "image").attributes
  }

  /** The first `details` of c has no `show` attribute. */
  predicate ShowMissing(c: Element)
  {
    "show" !in Lookup(c, "details").attributes
  }

  /** `xml["xia"]["details"].attributes["show"] = "true"`. */
  function SetShow(x: Element): Element
  {
    var d := Lookup(x, "details");
    UpdateFirst(x, "details", d.(attributes := d.attributes["show" := "true"]))
  }

  /** One iteration of the loop over the top-level `xia` elements: c is inspected, x (the first `xia`) is changed. */
  function SiblingDefaults(x: Element, c: Element): (r: Element)
    ensures r.name == x.name && r.value == x.value && r.attributes == x.attributes
    ensures |r.children| == |x.children| + (if InvalidReadonly(c) then 1 else 0) + (if Untitled(c) then 1 else 0)
  {
    var x1 := if InvalidReadonly(c) then AddChild(x, ReadonlyDefault()) else x;
    var x2 := if Untitled(c) then AddChild(x1, ImageDefault()) else x1;
    if ShowMissing(c) then SetShow(x2) else x2
  }

  /** The loop over all top-level `xia` elements cs, in order. */
  function AllDefaults(x: Element, cs: seq<Element>): Element
    decreases |cs|
  {
    if cs == [] then x else AllDefaults(SiblingDefaults(x, cs[0]), cs[1..])
  }

  /** A `detail` without `locked` gets `locked="false"`; anything else is left alone. */
  function LockDetail(d: Element): Element
  {
    if d.name == "detail" && "locked" !in d.attributes then d.(attributes := d.attributes["locked" := "false"]) else d
  }

  /** `locked` defaults for every `detail` child of the first `details` of x. */
  function LockAll(x: Element): (r: Element)
    ensures r.name == x.name && r.value == x.value && r.attributes == x.attributes
    ensures |r.children| == |x.children|
  {
    var d := Lookup(x, "details");
    UpdateFirst(x, "details", d.(children := seq(|d.children|, k requires 0 <= k < |d.children| => LockDetail(d.children[k]))))
  }

  /** One iteration of the loop over `xmlElements`. */
  function FillOne(x: Element, e: string): (r: Element)
    ensures r.name == x.name && r.value == x.value && r.attributes == x.attributes
    ensures |r.children| >= |x.children|
    ensures Lookup(x, e).value != Some(NotFound(e)) ==> r == x
  {
    if Lookup(x, e).value == Some(NotFound(e)) then
      var x1 := AddChild(x, Element(e, None, map[], []));
      var author := Lookup(x1, "author").value;
      if e == "creator" && author.Some? then
        var x2 := UpdateFirst(x1, e, Lookup(x1, e).(value := author));
        if author.value != NotFound("author") then RemoveFirst(x2, "author") else x2
      else x1
    else x
  }

  /** The loop over `xmlElements`, in order. */
  function FillAll(x: Element, es: seq<string>): Element
    decreases |es|
  {
    if es == [] then x else FillAll(FillOne(x, es[0]), es[1..])
  }

  /** The first top-level `xia` element of a document. */
  function Xia(doc: Element): Element
  {
    Lookup(doc, "xia")
  }

  /** The document `checkXML` returns. */
  function Repaired(doc: Element, es: seq<string>): (r: Element)
    ensures r.name == doc.name && |r.children| == |doc.children|
    ensures forall i :: 0 <= i < |doc.children| && i != FirstIndex(doc.children, "xia") ==> r.children[i] == doc.children[i]
  {
    var x := FillAll(LockAll(AllDefaults(Xia(doc), Named(doc.children, "xia"))), es);
    UpdateFirst(doc, "xia", x)
  }

  /**
   * `checkXML(xml)`. The source force-unwraps `xml["xia"].all`, which exists
   * only when the document has a top-level `xia` element.
   */
  method CheckXml(xml: Element, xmlElements: seq<string>) returns (out: Element)
    requires xml.name != ErrorName && Has(xml, "xia")
    ensures out == Repaired(xml, xmlElements)
  {
    var x := xml.children[FirstIndex(xml.children, "xia")];
    x := ApplyDefaults(x, xml.children);
    x := LockDetails(x);
    x := FillElements(x, xmlElements);
    out := UpdateFirst(xml, "xia", x);
  }

  /** The loop over the top-level elements: every `xia` among them is inspected and x is updated. */
  method ApplyDefaults(x0: Element, top: seq<Element>) returns (x: Element)
    ensures x == AllDefaults(x0, Named(top, "xia"))
  {
    x := x0;
    var i := 0;
    while i < |top|
      invariant 0 <= i <= |top|
      invariant AllDefaults(x, Named(top[i..], "xia")) == AllDefaults(x0, Named(top, "xia"))
    {
      AllDefaultsStep(x, top, i);
      var child := top[i];
      if child.name == "xia" {
        ghost var before := x;
        var readonly := Lookup(child, "readonly").value;
        if readonly.Some? && readonly.value != "true" && readonly.value != "false" {
          x := AddChild(x, ReadonlyDefault());
        }
        if "title" !in Lookup(child, "image").attributes {
          x := AddChild(x, ImageDefault());
        }
        if "show" !in Lookup(child, "details").attributes {
          x := SetShow(x);
        }
        assert x == SiblingDefaults(before, child);
      }
      i := i + 1;
    }
    assert top[|top|..] == [];
  }

  /** Inspecting top[i] is one step of AllDefaults when it is an `xia` element and none otherwise. */
  lemma AllDefaultsStep(x: Element, top: seq<Element>, i: int)
    requires 0 <= i < |top|
    ensures AllDefaults(x, Named(top[i..], "xia")) ==
      AllDefaults(if top[i].name == "xia" then SiblingDefaults(x, top[i]) else x, Named(top[i + 1..], "xia"))
  {
    assert top[i..][1..] == top[i + 1..];
    var rest := Named(top[i + 1..], "xia");
    if top[i].name == "xia" {
      assert Named(top[i..], "xia") == [top[i]] + rest;
      assert ([top[i]] + rest)[1..] == rest;
    } else {
      assert Named(top[i..], "xia") == rest;
    }
  }

  /** The loop over `xml["xia"]["details"]["detail"].all`. */
  method LockDetails(x0: Element) returns (x: Element)
    ensures x == LockAll(x0)
  {
    var details := Lookup(x0, "details");
    var newDetails := details;
    var k := 0;
    while k < |details.children|
      invariant 0 <= k <= |details.children|
      invariant newDetails.name == details.name && newDetails.value == details.value
      invariant newDetails.attributes == details.attributes
      invariant |newDetails.children| == |details.children|
      invariant forall j :: 0 <= j < k ==> newDetails.children[j] == LockDetail(details.children[j])
      invariant forall j :: k <= j < |details.children| ==> newDetails.children[j] == details.children[j]
    {
      var detail := details.children[k];
      if detail.name == "detail" && "locked" !in detail.attributes {
        newDetails := newDetails.(children := newDetails.children[k := detail.(attributes := detail.attributes["locked" := "false"])]);
      }
      k := k + 1;
    }
    assert newDetails.children == seq(|details.children|, j requires 0 <= j < |details.children| => LockDetail(details.children[j]));
    x := UpdateFirst(x0, "details", newDetails);
  }

  /** The loop over `xmlElements`. */
  method FillElements(x0: Element, xmlElements: seq<string>) returns (x: Element)
    ensures x == FillAll(x0, xmlElements)
  {
    x := x0;
    var n := 0;
    while n < |xmlElements|
      invariant 0 <= n <= |xmlElements|
      invariant FillAll(x, xmlElements[n..]) == FillAll(x0, xmlElements)
    {
      assert xmlElements[n..][1..] == xmlElements[n + 1..];
      var element := xmlElements[n];
      if Lookup(x, element).value == Some(NotFound(element)) {
        x := AddChild(x, Element(element, None, map[], []));
        var author := Lookup(x, "author").value;
        if element == "creator" && author.Some? {
          x := UpdateFirst(x, element, Lookup(x, element).(value := author));
          if author.value != NotFound("author") {
            x := RemoveFirst(x, "author");
          }
        }
      }
      n := n + 1;
    }
    assert xmlElements[|xmlElements|..] == [];
  }

  // ---------------------------------------------------------------------
  // How the edits of the pass affect later lookups.

  lemma {:induction false} FirstIndexAppend(cs: seq<Element>, c: Element, key: string)
    requires FirstIndex(cs, key) < |cs|
    ensures FirstIndex(cs + [c], key) == FirstIndex(cs, key)
  {
    if cs[0].name != key {
      assert (cs + [c])[1..] == cs[1..] + [c];
      FirstIndexAppend(cs[1..], c, key);
    }
  }

  lemma {:induction false} FirstIndexAppendNew(cs: seq<Element>, c: Element)
    requires FirstIndex(cs, c.name) == |cs|
    ensures FirstIndex(cs + [c], c.name) == |cs|
  {
    if cs != [] {
      assert (cs + [c])[1..] == cs[1..] + [c];
      FirstIndexAppendNew(cs[1..], c);
    }
  }

  lemma {:induction false} FirstIndexRemove(cs: seq<Element>, j: int, key: string)
    requires 0 <= j < |cs| && cs[j].name != key && FirstIndex(cs, key) < |cs|
    ensures var cs' := cs[..j] + cs[j + 1..];
      FirstIndex(cs', key) < |cs'| && cs'[FirstIndex(cs', key)] == cs[FirstIndex(cs, key)]
  {
    var cs' := cs[..j] + cs[j + 1..];
    if j == 0 {
      assert cs' == cs[1..];
    } else if cs[0].name != key {
      assert cs'[1..] == cs[1..][..j - 1] + cs[1..][j..];
      FirstIndexRemove(cs[1..], j - 1, key);
    }
  }

  /** Appending a child leaves the first child of any name that already existed unchanged. */
  lemma LookupAfterAdd(x: Element, c: Element, key: string)
    requires x.name != ErrorName && Has(x, key)
    ensures Has(AddChild(x, c), key) && Lookup(AddChild(x, c), key) == Lookup(x, key)
  {
    FirstIndexAppend(x.children, c, key);
  }

  /** Appending a child with a fresh name makes it the first of that name. */
  lemma LookupAfterAddNew(x: Element, c: Element)
    requires x.name != ErrorName && !Has(x, c.name)
    ensures Has(AddChild(x, c), c.name) && Lookup(AddChild(x, c), c.name) == c
  {
    FirstIndexAppendNew(x.children, c);
  }

  /** Replacing the first child called k by one of the same name leaves lookups of any other name unchanged. */
  lemma LookupAfterUpdate(x: Element, k: string, c: Element, key: string)
    requires x.name != ErrorName && c.name == k && k != key
    ensures Has(UpdateFirst(x, k, c), key) == Has(x, key)
    ensures Lookup(UpdateFirst(x, k, c), key) == Lookup(x, key)
  {
    if Has(x, k) {
      FirstIndexReplace(x.children, FirstIndex(x.children, k), c, key);
    }
  }

  /** Removing the first child called k leaves the first child of any other existing name unchanged. */
  lemma LookupAfterRemove(x: Element, k: string, key: string)
    requires x.name != ErrorName && k != key && Has(x, key)
    ensures Has(RemoveFirst(x, k), key) && Lookup(RemoveFirst(x, k), key) == Lookup(x, key)
  {
    if Has(x, k) {
      FirstIndexRemove(x.children, FirstIndex(x.children, k), key);
    }
  }

  // ---------------------------------------------------------------------
  // The `locked` defaults survive the whole pass.

  lemma SiblingDefaultsKeepDetails(x: Element, c: Element)
    requires x.name != ErrorName
    ensures SiblingDefaults(x, c).name == x.name
    ensures Has(SiblingDefaults(x, c), "details") == Has(x, "details")
    ensures Lookup(SiblingDefaults(x, c), "details").children == Lookup(x, "details").children
  {
    var x2 := AppendDefaults(x, c);
    AppendDefaultsKeepsDetails(x, c);
    if Has(x, "details") {
      assert Lookup(x2, "details") == Lookup(x, "details");
    }
    SetShowKeepsChildren(x2);
  }

  /** Setting `show` changes the attributes of the first `details` only, not its children. */
  lemma SetShowKeepsChildren(x: Element)
    requires x.name != ErrorName
    ensures SetShow(x).name == x.name
    ensures Has(SetShow(x), "details") == Has(x, "details")
    ensures Lookup(SetShow(x), "details").children == Lookup(x, "details").children
  {
    if Has(x, "details") {
      var d := Lookup(x, "details");
      LookupAfterUpdateSame(x, "details", d.(attributes := d.attributes["show" := "true"]));
    }
  }

  lemma {:induction false} FirstIndexAppendFresh(cs: seq<Element>, c: Element, key: string)
    requires FirstIndex(cs, key) == |cs| && c.name != key
    ensures FirstIndex(cs + [c], key) == |cs| + 1
  {
    if cs != [] {
      assert (cs + [c])[1..] == cs[1..] + [c];
      FirstIndexAppendFresh(cs[1..], c, key);
    }
  }

  lemma {:induction false} AllDefaultsKeepDetails(x: Element, cs: seq<Element>)
    requires x.name != ErrorName
    ensures AllDefaults(x, cs).name == x.name
    ensures Has(AllDefaults(x, cs), "details") == Has(x, "details")
    ensures Lookup(AllDefaults(x, cs), "details").children == Lookup(x, "details").children
    decreases |cs|
  {
    if cs != [] {
      SiblingDefaultsKeepDetails(x, cs[0]);
      AllDefaultsKeepDetails(SiblingDefaults(x, cs[0]), cs[1..]);
    }
  }

  /**
   * One `xmlElements` step leaves the first child of an existing name other
   * than `author` (which the migration removes) and `creator` (which it
   * rewrites) where it was.
   */
  lemma FillOneKeeps(x: Element, e: string, key: string)
    requires x.name != ErrorName && Has(x, key) && key != "author" && key != "creator"
    ensures FillOne(x, e).name == x.name
    ensures Has(FillOne(x, e), key) && Lookup(FillOne(x, e), key) == Lookup(x, key)
  {
    if Lookup(x, e).value == Some(NotFound(e)) {
      var x1 := AddChild(x, Element(e, None, map[], []));
      LookupAfterAdd(x, Element(e, None, map[], []), key);
      var author := Lookup(x1, "author").value;
      if e == "creator" && author.Some? {
        if Has(x, e) {
          LookupAfterAdd(x, Element(e, None, map[], []), e);
        } else {
          LookupAfterAddNew(x, Element(e, None, map[], []));
        }
        var x2 := UpdateFirst(x1, e, Lookup(x1, e).(value := author));
        LookupAfterUpdate(x1, e, Lookup(x1, e).(value := author), key);
        if author.value != NotFound("author") {
          LookupAfterRemove(x2, "author", key);
        }
      }
    }
  }

  lemma {:induction false} FillAllKeeps(x: Element, es: seq<string>, key: string)
    requires x.name != ErrorName && Has(x, key) && key != "author" && key != "creator"
    ensures FillAll(x, es).name == x.name
    ensures Has(FillAll(x, es), key) && Lookup(FillAll(x, es), key) == Lookup(x, key)
    decreases |es|
  {
    if es != [] {
      FillOneKeeps(x, es[0], key);
      FillAllKeeps(FillOne(x, es[0]), es[1..], key);
    }
  }

  /**
   * After the pass, every `detail` under the first `details` carries a
   * `locked` attribute, a `locked` value it already had is kept, and the
   * children are the same elements in the same order otherwise.
   */
  lemma RepairLocksDetails(doc: Element, es: seq<string>)
    requires doc.name != ErrorName && Has(doc, "xia") && Has(Xia(doc), "details")
    ensures var d := Lookup(Xia(doc), "details");
      var d' := Lookup(Xia(Repaired(doc, es)), "details");
      |d'.children| == |d.children| &&
      forall k :: 0 <= k < |d.children| ==>
        d'.children[k].name == d.children[k].name &&
        d'.children[k].value == d.children[k].value &&
        d'.children[k].children == d.children[k].children &&
        (d.children[k].name == "detail" ==> "locked" in d'.children[k].attributes) &&
        ("locked" in d.children[k].attributes ==> d'.children[k].attributes == d.children[k].attributes)
    ensures var d := Lookup(Xia(doc), "details");
      var d' := Lookup(Xia(Repaired(doc, es)), "details");
      forall k :: 0 <= k < |d.children| ==> d'.children[k] == LockDetail(d.children[k])
  {
    var x := Xia(doc);
    assert x.name == "xia";
    var x1 := AllDefaults(x, Named(doc.children, "xia"));
    AllDefaultsKeepDetails(x, Named(doc.children, "xia"));
    var x2 := LockAll(x1);
    var d1 := Lookup(x1, "details");
    var d2 := d1.(children := seq(|d1.children|, k requires 0 <= k < |d1.children| => LockDetail(d1.children[k])));
    LookupAfterUpdateSame(x1, "details", d2);
    var x3 := FillAll(x2, es);
    FillAllKeeps(x2, es, "details");
    var out := Repaired(doc, es);
    LookupAfterUpdateSame(doc, "xia", x3);
  }

  // ---------------------------------------------------------------------
  // The top-level defaults.

  /** A missing `readonly` reads as the placeholder text, which is neither "true" nor "false". */
  lemma MissingReadonlyIsInvalid(x: Element)
    requires x.name != ErrorName && !Has(x, "readonly")
    ensures InvalidReadonly(x)
  {
    assert NotFound("readonly")[0] == 'e';
  }

  /**
   * One inspection of the first `xia` by itself: `readonly` is appended
   * exactly when the first one is invalid or missing, `image` exactly when
   * the first one is untitled or missing, and `show` is added to the first
   * `details` only when absent; nothing else changes.
   */
  lemma SelfDefaults(x: Element)
    requires x.name != ErrorName
    ensures var r := SiblingDefaults(x, x);
      var n := |x.children|;
      var dk := FirstIndex(x.children, "details");
      r.name == x.name && r.value == x.value && r.attributes == x.attributes &&
      |r.children| >= n &&
      r.children[n..] == (if InvalidReadonly(x) then [ReadonlyDefault()] else []) + (if Untitled(x) then [ImageDefault()] else []) &&
      (forall i :: 0 <= i < n && i != dk ==> r.children[i] == x.children[i]) &&
      (dk < n ==> r.children[dk] == x.children[dk].(attributes :=
          if "show" in x.children[dk].attributes then x.children[dk].attributes
          else x.children[dk].attributes["show" := "true"]))
  {
    SelfShow(x);
    var x2, r := AppendDefaults(x, x), SiblingDefaults(x, x);
    var n, dk := |x.children|, FirstIndex(x.children, "details");
    var a := if InvalidReadonly(x) then [ReadonlyDefault()] else [];
    var b := if Untitled(x) then [ImageDefault()] else [];
    if dk < n && "show" !in x.children[dk].attributes {
      PatchedAppend(x.children, a, b, dk, x.children[dk].(attributes := x.children[dk].attributes["show" := "true"]));
    } else {
      PatchedAppend(x.children, a, b, -1, x);
    }
  }

  /** Children xs with extras appended and the child at dk (when in range) replaced by v. */
  lemma PatchedAppend(xs: seq<Element>, a: seq<Element>, b: seq<Element>, dk: int, v: Element)
    ensures var ys := xs + a + b;
      var rs := if 0 <= dk < |xs| then ys[dk := v] else ys;
      |rs| >= |xs| && rs[|xs|..] == a + b &&
      (forall i :: 0 <= i < |xs| && i != dk ==> rs[i] == xs[i]) &&
      (0 <= dk < |xs| ==> rs[dk] == v)
  {
    var ys := xs + a + b;
    assert ys[|xs|..] == a + b;
    if 0 <= dk < |xs| {
      assert ys[dk := v][|xs|..] == ys[|xs|..];
    }
  }

  /** The `show` step of SelfDefaults, on top of the appended children. */
  lemma SelfShow(x: Element)
    requires x.name != ErrorName
    ensures var x2 := AppendDefaults(x, x);
      var r := SiblingDefaults(x, x);
      var dk := FirstIndex(x.children, "details");
      var adds := dk < |x.children| && "show" !in x.children[dk].attributes;
      r.name == x.name && r.value == x.value && r.attributes == x.attributes &&
      (adds ==> r.children == x2.children[dk := x.children[dk].(attributes := x.children[dk].attributes["show" := "true"])]) &&
      (!adds ==> r == x2)
  {
    var x2 := AppendDefaults(x, x);
    AppendDefaultsKeepsDetails(x, x);
    var n := |x.children|;
    var dk := FirstIndex(x.children, "details");
    if dk < n {
      var d := x.children[dk];
      assert Lookup(x, "details") == d;
      assert x2.children[dk] == d;
      if "show" !in d.attributes {
        SetShowAt(x2, dk);
      }
    } else {
      assert !Has(x2, "details");
    }
  }

  /** Setting `show` on the first `details`, found at position dk, rewrites that child only. */
  lemma SetShowAt(x: Element, dk: int)
    requires x.name != ErrorName && 0 <= dk < |x.children| && FirstIndex(x.children, "details") == dk
    ensures var d := x.children[dk];
      SetShow(x).children == x.children[dk := d.(attributes := d.attributes["show" := "true"])]
    ensures SetShow(x).name == x.name && SetShow(x).value == x.value && SetShow(x).attributes == x.attributes
  {
  }

  /** The first two steps of an inspection of c: the `readonly` and `image` children appended to x. */
  function AppendDefaults(x: Element, c: Element): (x2: Element)
    ensures x2.name == x.name && x2.value == x.value && x2.attributes == x.attributes
    ensures x2.children == x.children + (if InvalidReadonly(c) then [ReadonlyDefault()] else []) + (if Untitled(c) then [ImageDefault()] else [])
  {
    var x1 := if InvalidReadonly(c) then AddChild(x, ReadonlyDefault()) else x;
    if Untitled(c) then AddChild(x1, ImageDefault()) else x1
  }

  /** The appended children are not called `details`, so the first `details` is where it was. */
  lemma AppendDefaultsKeepsDetails(x: Element, c: Element)
    ensures var x2 := AppendDefaults(x, c);
      FirstIndex(x.children, "details") < |x.children| ==> FirstIndex(x2.children, "details") == FirstIndex(x.children, "details")
    ensures !Has(x, "details") ==> !Has(AppendDefaults(x, c), "details")
    ensures SiblingDefaults(x, c) == if ShowMissing(c) then SetShow(AppendDefaults(x, c)) else AppendDefaults(x, c)
  {
    var x1 := if InvalidReadonly(c) then AddChild(x, ReadonlyDefault()) else x;
    if FirstIndex(x.children, "details") < |x.children| {
      if InvalidReadonly(c) { FirstIndexAppend(x.children, ReadonlyDefault(), "details"); }
      if Untitled(c) { FirstIndexAppend(x1.children, ImageDefault(), "details"); }
    } else {
      if InvalidReadonly(c) { FirstIndexAppendFresh(x.children, ReadonlyDefault(), "details"); }
      if Untitled(c) { FirstIndexAppendFresh(x1.children, ImageDefault(), "details"); }
    }
  }


  /**
   * Fields the pass filled in from absence stay filled: a second inspection
   * finds a valid `readonly`, a titled `image` and a `show` attribute.
   */
  lemma FilledFromAbsence(x: Element)
    requires x.name != ErrorName
    ensures !Has(x, "readonly") ==> !InvalidReadonly(SiblingDefaults(x, x))
    ensures !Has(x, "image") ==> !Untitled(SiblingDefaults(x, x))
    ensures Has(x, "details") ==> !ShowMissing(SiblingDefaults(x, x))
  {
    var x1 := if InvalidReadonly(x) then AddChild(x, ReadonlyDefault()) else x;
    var x2 := if Untitled(x) then AddChild(x1, ImageDefault()) else x1;
    var r := SiblingDefaults(x, x);
    if !Has(x, "readonly") {
      MissingReadonlyIsInvalid(x);
      LookupAfterAddNew(x, ReadonlyDefault());
      if Untitled(x) { LookupAfterAdd(x1, ImageDefault(), "readonly"); }
      if ShowMissing(x) { SetShowKeeps(x2, "readonly"); }
    }
    if !Has(x, "image") {
      if InvalidReadonly(x) { FirstIndexAppendFresh(x.children, ReadonlyDefault(), "image"); }
      assert !Has(x1, "image");
      LookupAfterAddNew(x1, ImageDefault());
      if ShowMissing(x) { SetShowKeeps(x2, "image"); }
    }
    if Has(x, "details") {
      LookupAfterAdd(x, ReadonlyDefault(), "details");
      LookupAfterAdd(x1, ImageDefault(), "details");
      var d := Lookup(x2, "details");
      LookupAfterUpdateSame(x2, "details", d.(attributes := d.attributes["show" := "true"]));
    }
  }

  lemma SetShowKeeps(x: Element, key: string)
    requires x.name != ErrorName && key != "details"
    ensures Has(SetShow(x), key) == Has(x, key) && Lookup(SetShow(x), key) == Lookup(x, key)
  {
    var d := Lookup(x, "details");
    if Has(x, "details") {
      LookupAfterUpdate(x, "details", d.(attributes := d.attributes["show" := "true"]), key);
    }
  }

  // ---------------------------------------------------------------------
  // The listed top-level elements and the `author` migration.

  /** A missing `creator` with a real `author`: the author is removed and a `creator` holding its text is appended. */
  lemma MigrateAuthor(x: Element, a: string)
    requires x.name != ErrorName && !Has(x, "creator") && Has(x, "author")
    requires Lookup(x, "author").value == Some(a) && a != NotFound("author")
    ensures var i := FirstIndex(x.children, "author");
      FillOne(x, "creator").children == x.children[..i] + x.children[i + 1..] + [Element("creator", Some(a), map[], [])]
  {
    var c := Element("creator", Some(a), map[], []);
    AuthorCopied(x, a);
    var i := FirstIndex(x.children, "author");
    FirstIndexAppend(x.children, c, "author");
    var cs := x.children + [c];
    assert cs[..i] == x.children[..i];
    assert cs[i + 1..] == x.children[i + 1..] + [c];
  }

  /** Before the author is removed: the appended `creator` holds the author's text. */
  lemma AuthorCopied(x: Element, a: string)
    requires x.name != ErrorName && !Has(x, "creator") && Has(x, "author")
    requires Lookup(x, "author").value == Some(a) && a != NotFound("author")
    ensures FillOne(x, "creator") == RemoveFirst(x.(children := x.children + [Element("creator", Some(a), map[], [])]), "author")
  {
    var c0 := Element("creator", None, map[], []);
    var x1 := AddChild(x, c0);
    LookupAfterAddNew(x, c0);
    LookupAfterAdd(x, c0, "author");
    assert FirstIndex(x1.children, "creator") == |x.children|;
    var x2 := UpdateFirst(x1, "creator", c0.(value := Some(a)));
    assert x2.children == x.children + [Element("creator", Some(a), map[], [])];
  }

  /** Neither `creator` nor `author`: the new `creator` holds the placeholder text "element <author> not found". */
  lemma MigrateMissingAuthor(x: Element)
    requires x.name != ErrorName && !Has(x, "creator") && !Has(x, "author")
    ensures FillOne(x, "creator").children == x.children + [Element("creator", Some(NotFound("author")), map[], [])]
  {
    var c0 := Element("creator", None, map[], []);
    var x1 := AddChild(x, c0);
    LookupAfterAddNew(x, c0);
    FirstIndexAppendFresh(x.children, c0, "author");
    assert Lookup(x1, "author").value == Some(NotFound("author"));
  }

  /** A listed element that exists is left alone, whatever its value, unless that value is the placeholder text itself. */
  lemma PresentElementKept(x: Element, e: string)
    requires x.name != ErrorName && Has(x, e) && Lookup(x, e).value != Some(NotFound(e))
    ensures FillOne(x, e) == x
  {
  }

  /**
   * A listed element filled in from absence is not filled again: a second
   * inspection of the same name changes nothing (for `creator`, as long as
   * the copied author text is not the creator placeholder text itself).
   */
  lemma FillOneSettles(x: Element, e: string)
    requires x.name != ErrorName && !Has(x, e)
    requires e == "creator" ==> Lookup(x, "author").value != Some(NotFound("creator"))
    ensures FillOne(FillOne(x, e), e) == FillOne(x, e)
  {
    var c0 := Element(e, None, map[], []);
    var x1 := AddChild(x, c0);
    LookupAfterAddNew(x, c0);
    var author := Lookup(x1, "author").value;
    if e == "creator" && author.Some? {
      if Has(x, "author") {
        LookupAfterAdd(x, c0, "author");
      } else {
        FirstIndexAppendFresh(x.children, c0, "author");
      }
      var c := c0.(value := author);
      var x2 := UpdateFirst(x1, e, c);
      LookupAfterUpdateSame(x1, e, c);
      if author.value != NotFound("author") {
        LookupAfterRemove(x2, "author", e);
      }
      assert Lookup(FillOne(x, e), e) == c;
    } else {
      assert Lookup(FillOne(x, e), e) == c0;
    }
  }

  // ---------------------------------------------------------------------
  // Running the pass twice.

  /** A document whose root holds a single `xia` element with the given children. */
  function SingleXia(cs: seq<Element>): Element
  {
    Element("AEXMLDocument", None, map[], [Element("xia", None, map[], cs)])
  }

  /** The repaired `xia` of a single-`xia` document. */
  lemma RepairedSingle(cs: seq<Element>, es: seq<string>)
    ensures var x := Element("xia", None, map[], cs);
      Repaired(SingleXia(cs), es) == SingleXia(FillAll(LockAll(SiblingDefaults(x, x)), es).children)
  {
    var x := Element("xia", None, map[], cs);
    var d := SingleXia(cs);
    assert Named(d.children, "xia") == [x] by {
      assert d.children[1..] == [];
    }
    assert AllDefaults(x, [x]) == SiblingDefaults(x, x);
    var y := FillAll(LockAll(SiblingDefaults(x, x)), es);
    AllDefaultsKeepDetails(x, [x]);
    var z := LockAll(SiblingDefaults(x, x));
    FillAllNamePreserved(z, es);
    assert y.name == "xia";
  }

  // ---------------------------------------------------------------------
  // What a second run of the pass finds on a single-`xia` document.

  /** A child whose value the fill of e reads: an e itself or, for `creator`, the `author` it copies. */
  predicate ReadByFill(c: Element, e: string)
  {
    c.name == e || (e == "creator" && c.name == "author")
  }

  /** No child the fill of e reads holds e's placeholder text. */
  predicate NoPlaceholder(cs: seq<Element>, e: string)
  {
    forall i :: 0 <= i < |cs| && ReadByFill(cs[i], e) ==> cs[i].value != Some(NotFound(e))
  }

  /** The first e exists with a real value, so a fill of e leaves the element alone. */
  predicate Filled(x: Element, e: string)
  {
    Has(x, e) && Lookup(x, e).value != Some(NotFound(e))
  }

  lemma PlaceholdersDiffer(a: string, b: string)
    requires a != [] && b != [] && a[0] != b[0]
    ensures NotFound(a) != NotFound(b)
  {
    assert NotFound(a)[9] == a[0] && NotFound(b)[9] == b[0];
  }

  lemma AppendKeepsFill(cs: seq<Element>, c: Element, e: string)
    requires NoPlaceholder(cs, e) && (ReadByFill(c, e) ==> c.value != Some(NotFound(e)))
    ensures NoPlaceholder(cs + [c], e)
    ensures FirstIndex(cs, e) < |cs| ==> FirstIndex(cs + [c], e) == FirstIndex(cs, e)
    ensures c.name == e ==> FirstIndex(cs + [c], e) < |cs + [c]|
  {
    if FirstIndex(cs, e) < |cs| {
      FirstIndexAppend(cs, c, e);
    } else if c.name == e {
      FirstIndexAppendNew(cs, c);
    }
  }

  lemma ReplaceKeepsFill(cs: seq<Element>, j: int, c: Element, e: string)
    requires 0 <= j < |cs| && c.name == cs[j].name
    requires NoPlaceholder(cs, e) && (ReadByFill(c, e) ==> c.value != Some(NotFound(e)))
    ensures NoPlaceholder(cs[j := c], e)
    ensures FirstIndex(cs[j := c], e) == FirstIndex(cs, e)
  {
    FirstIndexReplace(cs, j, c, e);
  }

  lemma RemoveKeepsFill(cs: seq<Element>, j: int, e: string)
    requires 0 <= j < |cs| && cs[j].name != e && NoPlaceholder(cs, e)
    ensures NoPlaceholder(cs[..j] + cs[j + 1..], e)
    ensures FirstIndex(cs, e) < |cs| ==> FirstIndex(cs[..j] + cs[j + 1..], e) < |cs| - 1
  {
    var rs := cs[..j] + cs[j + 1..];
    forall i | 0 <= i < |rs| && ReadByFill(rs[i], e) ensures rs[i].value != Some(NotFound(e)) {
      if i < j { assert rs[i] == cs[i]; } else { assert rs[i] == cs[i + 1]; }
    }
    if FirstIndex(cs, e) < |cs| {
      FirstIndexRemove(cs, j, e);
    }
  }

  /** Replacing the first `details` by one with the same value keeps the fill facts of e. */
  lemma DetailsUpdateKeepsFill(x: Element, d: Element, e: string)
    requires x.name != ErrorName && NoPlaceholder(x.children, e)
    requires Has(x, "details") ==> d.name == "details" && d.value == Lookup(x, "details").value
    ensures NoPlaceholder(UpdateFirst(x, "details", d).children, e)
    ensures Has(x, e) ==> Has(UpdateFirst(x, "details", d), e)
  {
    if Has(x, "details") {
      ReplaceKeepsFill(x.children, FirstIndex(x.children, "details"), d, e);
    }
  }

  lemma SiblingKeepsFill(x: Element, c: Element, e: string)
    requires x.name != ErrorName && NoPlaceholder(x.children, e)
    ensures NoPlaceholder(SiblingDefaults(x, c).children, e)
    ensures Has(x, e) ==> Has(SiblingDefaults(x, c), e)
  {
    var x1 := if InvalidReadonly(c) then AddChild(x, ReadonlyDefault()) else x;
    var x2 := if Untitled(c) then AddChild(x1, ImageDefault()) else x1;
    if InvalidReadonly(c) {
      assert ReadonlyDefault().value.value[0] == 'f';
      AppendKeepsFill(x.children, ReadonlyDefault(), e);
    }
    if Untitled(c) {
      AppendKeepsFill(x1.children, ImageDefault(), e);
    }
    if ShowMissing(c) {
      var d := Lookup(x2, "details");
      DetailsUpdateKeepsFill(x2, d.(attributes := d.attributes["show" := "true"]), e);
    }
  }

  lemma LockAllKeepsFill(x: Element, e: string)
    requires x.name != ErrorName && NoPlaceholder(x.children, e)
    ensures NoPlaceholder(LockAll(x).children, e)
    ensures Has(x, e) ==> Has(LockAll(x), e)
  {
    var d := Lookup(x, "details");
    DetailsUpdateKeepsFill(x, d.(children := seq(|d.children|, k requires 0 <= k < |d.children| => LockDetail(d.children[k]))), e);
  }

  /** One `xmlElements` step keeps the fill facts of e, and the step for e itself leaves an e behind. */
  lemma FillOneKeepsFill(x: Element, f: string, e: string)
    requires x.name != ErrorName && NoPlaceholder(x.children, e) && e != "author"
    ensures FillOne(x, f).name == x.name
    ensures NoPlaceholder(FillOne(x, f).children, e)
    ensures Has(x, e) || f == e ==> Has(FillOne(x, f), e)
  {
    if Lookup(x, f).value == Some(NotFound(f)) {
      var c0 := Element(f, None, map[], []);
      var x1 := AddChild(x, c0);
      AppendKeepsFill(x.children, c0, e);
      if Has(x, f) { FirstIndexAppend(x.children, c0, f); } else { FirstIndexAppendNew(x.children, c0); }
      if f == "creator" && Lookup(x1, "author").value.Some? {
        MigrationKeepsFill(x1, e);
      }
    } else if f == e {
      assert Has(x, e);
    }
  }

  /** The `author` to `creator` copy, and the removal of a real `author`, keep the fill facts of e. */
  lemma MigrationKeepsFill(x1: Element, e: string)
    requires x1.name != ErrorName && NoPlaceholder(x1.children, e) && e != "author"
    requires Has(x1, "creator") && Lookup(x1, "author").value.Some?
    ensures var author := Lookup(x1, "author").value;
      var x2 := UpdateFirst(x1, "creator", Lookup(x1, "creator").(value := author));
      var r := if author.value != NotFound("author") then RemoveFirst(x2, "author") else x2;
      r.name == x1.name && NoPlaceholder(r.children, e) && (Has(x1, e) ==> Has(r, e))
  {
    var author := Lookup(x1, "author").value;
    var k := FirstIndex(x1.children, "creator");
    var c := Lookup(x1, "creator").(value := author);
    if e == "creator" {
      if Has(x1, "author") {
        assert x1.children[FirstIndex(x1.children, "author")].name == "author";
      } else {
        PlaceholdersDiffer("author", "creator");
      }
    }
    ReplaceKeepsFill(x1.children, k, c, e);
    var x2 := UpdateFirst(x1, "creator", c);
    if author.value != NotFound("author") {
      FirstIndexReplace(x1.children, k, c, "author");
      RemoveKeepsFill(x2.children, FirstIndex(x2.children, "author"), e);
    }
  }

  lemma {:induction false} FillAllKeepsFill(x: Element, es: seq<string>, e: string)
    requires x.name != ErrorName && NoPlaceholder(x.children, e) && e != "author"
    ensures FillAll(x, es).name == x.name
    ensures NoPlaceholder(FillAll(x, es).children, e)
    ensures Has(x, e) || e in es ==> Has(FillAll(x, es), e)
    decreases |es|
  {
    if es != [] {
      FillOneKeepsFill(x, es[0], e);
      FillAllKeepsFill(FillOne(x, es[0]), es[1..], e);
      assert e in es ==> e == es[0] || e in es[1..];
    }
  }

  /** With no placeholder text to read, an existing e is filled. */
  lemma FilledOf(x: Element, e: string)
    requires x.name != ErrorName && NoPlaceholder(x.children, e) && Has(x, e)
    ensures Filled(x, e)
  {
    assert ReadByFill(x.children[FirstIndex(x.children, e)], e);
  }

  /**
   * On a document with one `xia` element, what the first run fills in from
   * absence the second run leaves alone: it finds a valid `readonly`, a
   * titled `image` and a `show` attribute where the first run added them.
   */
  lemma SecondRunKeepsDefaults(cs: seq<Element>, es: seq<string>)
    ensures var x := Element("xia", None, map[], cs);
      var x1 := FillAll(LockAll(SiblingDefaults(x, x)), es);
      Repaired(SingleXia(cs), es) == SingleXia(x1.children) &&
      (!Has(x, "readonly") ==> !InvalidReadonly(x1)) &&
      (!Has(x, "image") ==> !Untitled(x1)) &&
      (Has(x, "details") ==> !ShowMissing(x1))
  {
    var x := Element("xia", None, map[], cs);
    RepairedSingle(cs, es);
    FilledFromAbsence(x);
    var y := SiblingDefaults(x, x);
    SiblingDefaultsKeepDetails(x, x);
    var z := LockAll(y);
    if !Has(x, "readonly") {
      if !Has(y, "readonly") { MissingReadonlyIsInvalid(y); }
      LockAllKeeps(y, "readonly");
      FillAllKeeps(z, es, "readonly");
    }
    if !Has(x, "image") {
      LockAllKeeps(y, "image");
      FillAllKeeps(z, es, "image");
    }
    if Has(x, "details") {
      var d := Lookup(y, "details");
      LookupAfterUpdateSame(y, "details", d.(children := seq(|d.children|, k requires 0 <= k < |d.children| => LockDetail(d.children[k]))));
      FillAllKeeps(z, es, "details");
    }
  }

  /** Locking the details leaves the first child of any other existing name unchanged. */
  lemma LockAllKeeps(x: Element, key: string)
    requires x.name != ErrorName && Has(x, key) && key != "details"
    ensures LockAll(x).name == x.name
    ensures Has(LockAll(x), key) && Lookup(LockAll(x), key) == Lookup(x, key)
  {
    if Has(x, "details") {
      var d := Lookup(x, "details");
      LookupAfterUpdate(x, "details", d.(children := seq(|d.children|, k requires 0 <= k < |d.children| => LockDetail(d.children[k]))), key);
    }
  }

  /**
   * On a document with one `xia` element, a listed element the first run
   * adds is not added again: when the second run reaches it, the element is
   * there with a real value and its step changes nothing. This holds for
   * every listed name but `author`, which the `creator` migration may remove,
   * and, for `creator`, as long as no `author` holds the text
   * "element <creator> not found".
   */
  lemma SecondRunKeepsFills(cs: seq<Element>, es: seq<string>, i: int)
    requires 0 <= i < |es| && !Has(Element("xia", None, map[], cs), es[i]) && es[i] != "author"
    requires NoPlaceholder(cs, es[i])
    ensures var x := Element("xia", None, map[], cs);
      var x1 := FillAll(LockAll(SiblingDefaults(x, x)), es);
      var before := FillAll(LockAll(SiblingDefaults(x1, x1)), es[..i]);
      Repaired(SingleXia(cs), es) == SingleXia(x1.children) &&
      Filled(x1, es[i]) && FillOne(before, es[i]) == before
  {
    var e := es[i];
    var x := Element("xia", None, map[], cs);
    RepairedSingle(cs, es);
    SiblingKeepsFill(x, x, e);
    var y := SiblingDefaults(x, x);
    AllDefaultsKeepDetails(x, [x]);
    assert AllDefaults(x, [x]) == y;
    LockAllKeepsFill(y, e);
    assert e in es;
    FillAllKeepsFill(LockAll(y), es, e);
    var x1 := FillAll(LockAll(y), es);
    FilledOf(x1, e);
    SiblingKeepsFill(x1, x1, e);
    var y1 := SiblingDefaults(x1, x1);
    AllDefaultsKeepDetails(x1, [x1]);
    assert AllDefaults(x1, [x1]) == y1;
    LockAllKeepsFill(y1, e);
    FillAllKeepsFill(LockAll(y1), es[..i], e);
    FilledOf(FillAll(LockAll(y1), es[..i]), e);
  }

  lemma {:induction false} FillAllNamePreserved(x: Element, es: seq<string>)
    ensures FillAll(x, es).name == x.name && FillAll(x, es).value == x.value && FillAll(x, es).attributes == x.attributes
    decreases |es|
  {
    if es != [] {
      FillAllNamePreserved(FillOne(x, es[0]), es[1..]);
    }
  }

  lemma FirstIndexOf2(a: Element, b: Element, key: string)
    ensures FirstIndex([a, b], key) == if a.name == key then 0 else if b.name == key then 1 else 2
  {
    assert [a, b][1..] == [b];
    assert [b][1..] == [];
  }

  lemma FirstIndexOf3(a: Element, b: Element, c: Element, key: string)
    ensures FirstIndex([a, b, c], key) == if a.name == key then 0 else if b.name == key then 1 else if c.name == key then 2 else 3
  {
    assert [a, b, c][1..] == [b, c];
    FirstIndexOf2(b, c, key);
  }

  lemma FirstIndexOf4(a: Element, b: Element, c: Element, d: Element, key: string)
    ensures FirstIndex([a, b, c, d], key) ==
      if a.name == key then 0 else if b.name == key then 1 else if c.name == key then 2 else if d.name == key then 3 else 4
  {
    assert [a, b, c, d][1..] == [b, c, d];
    FirstIndexOf3(b, c, d, key);
  }

  /**
   * The pass is not idempotent: with an invalid first `readonly`, every run
   * appends one more `readonly` element.
   */
  lemma InvalidReadonlyGrows()
    ensures var d := SingleXia([Element("readonly", Some("yes"), map[], [])]);
      Repaired(Repaired(d, []), []) != Repaired(d, [])
  {
    var ro := Element("readonly", Some("yes"), map[], []);
    var once := [ro, ReadonlyDefault(), ImageDefault()];
    InvalidReadonlyOnce();
    var x1 := Element("xia", None, map[], once);
    FirstIndexOf3(ro, ReadonlyDefault(), ImageDefault(), "readonly");
    FirstIndexOf3(ro, ReadonlyDefault(), ImageDefault(), "image");
    FirstIndexOf3(ro, ReadonlyDefault(), ImageDefault(), "details");
    FirstIndexOf4(ro, ReadonlyDefault(), ImageDefault(), ReadonlyDefault(), "details");
    assert InvalidReadonly(x1);
    assert !Untitled(x1);
    assert once + [ReadonlyDefault()] == [ro, ReadonlyDefault(), ImageDefault(), ReadonlyDefault()];
    assert SiblingDefaults(x1, x1).children == once + [ReadonlyDefault()];
    assert LockAll(SiblingDefaults(x1, x1)) == SiblingDefaults(x1, x1);
    RepairedSingle(once, []);
  }

  lemma InvalidReadonlyOnce()
    ensures var ro := Element("readonly", Some("yes"), map[], []);
      Repaired(SingleXia([ro]), []) == SingleXia([ro, ReadonlyDefault(), ImageDefault()])
  {
    var ro := Element("readonly", Some("yes"), map[], []);
    var x := Element("xia", None, map[], [ro]);
    assert [ro][1..] == [];
    FirstIndexOf2(ro, ReadonlyDefault(), "details");
    FirstIndexOf3(ro, ReadonlyDefault(), ImageDefault(), "details");
    assert InvalidReadonly(x);
    assert Untitled(x);
    assert SiblingDefaults(x, x).children == [ro, ReadonlyDefault(), ImageDefault()];
    assert LockAll(SiblingDefaults(x, x)) == SiblingDefaults(x, x);
    RepairedSingle([ro], []);
  }

  /** A document holding nothing but an empty `xia` is settled after one run when `title` is the listed element. */
  lemma EmptyDocumentSettles()
    ensures var d := SingleXia([]);
      Repaired(Repaired(d, ["title"]), ["title"]) == Repaired(d, ["title"])
  {
    EmptyDocumentOnce();
    var t := Element("title", None, map[], []);
    var twice := [ReadonlyDefault(), ImageDefault(), t];
    var x1 := Element("xia", None, map[], twice);
    FirstIndexOf3(ReadonlyDefault(), ImageDefault(), t, "readonly");
    FirstIndexOf3(ReadonlyDefault(), ImageDefault(), t, "image");
    FirstIndexOf3(ReadonlyDefault(), ImageDefault(), t, "details");
    FirstIndexOf3(ReadonlyDefault(), ImageDefault(), t, "title");
    assert !InvalidReadonly(x1);
    assert !Untitled(x1);
    assert SiblingDefaults(x1, x1) == x1;
    assert LockAll(x1) == x1;
    assert FillOne(x1, "title") == x1;
    assert FillAll(x1, ["title"]) == x1 by {
      assert ["title"][1..] == [];
    }
    RepairedSingle(twice, ["title"]);
  }

  lemma EmptyDocumentOnce()
    ensures Repaired(SingleXia([]), ["title"]) == SingleXia([ReadonlyDefault(), ImageDefault(), Element("title", None, map[], [])])
  {
    var x := Element("xia", None, map[], []);
    var t := Element("title", None, map[], []);
    var once := [ReadonlyDefault(), ImageDefault()];
    assert [ReadonlyDefault()][1..] == [];
    FirstIndexOf2(ReadonlyDefault(), ImageDefault(), "details");
    FirstIndexOf2(ReadonlyDefault(), ImageDefault(), "title");
    FirstIndexOf3(ReadonlyDefault(), ImageDefault(), t, "author");
    assert InvalidReadonly(x);
    assert SiblingDefaults(x, x).children == once;
    var y := SiblingDefaults(x, x);
    assert LockAll(y) == y;
    assert FillOne(y, "title").children == once + [t];
    assert FillAll(y, ["title"]) == FillOne(y, "title") by {
      assert ["title"][1..] == [];
    }
    assert once + [t] == [ReadonlyDefault(), ImageDefault(), t];
    RepairedSingle([], ["title"]);
  }
}
