/**
 * The XML tree of a document as the AEXML library presents it: a name, an
 * optional text value, an attribute dictionary and ordered children. Looking
 * up a child by name yields the first match, or a placeholder element whose
 * value reads "element <name> not found".
 */
module Xml {
  import opened Wrappers

  datatype Element = Element(name: string, value: Option<string>, attributes: map<string, string>, children: seq<Element>)

  /** The name AEXML gives its placeholder; looking into a placeholder yields the placeholder again. */
  const ErrorName: string := "AEXMLError"

  function NotFound(key: string): string
  {
    "element <" + key + "> not found"
  }

  /** The position of the first child called key, or |cs| when there is none. */
  function FirstIndex(cs: seq<Element>, key: string): (k: nat)
    ensures k <= |cs|
    ensures forall i :: 0 <= i < k ==> cs[i].name != key
    ensures k < |cs| ==> cs[k].name == key
  {
    if cs == [] then 0 else if cs[0].name == key then 0 else 1 + FirstIndex(cs[1..], key)
  }

  predicate Has(e: Element, key: string)
  {
    FirstIndex(e.children, key) < |e.children|
  }

  /** `e[key]`. */
  function Lookup(e: Element, key: string): (r: Element)
    ensures e.name != ErrorName && Has(e, key) ==> r == e.children[FirstIndex(e.children, key)]
    ensures e.name != ErrorName && !Has(e, key) ==> r.name == ErrorName && r.value == Some(NotFound(key)) && r.attributes == map[]
  {
    if e.name == ErrorName then e
    else
      var k := FirstIndex(e.children, key);
      if k < |e.children| then e.children[k] else Element(ErrorName, Some(NotFound(key)), map[], [])
  }

  /** `e.addChild(c)`: c becomes the last child. */
  function AddChild(e: Element, c: Element): (r: Element)
    ensures r.children == e.children + [c]
    ensures r.name == e.name && r.value == e.value && r.attributes == e.attributes
  {
    e.(children := e.children + [c])
  }

  /** Replaces the first child called key by c; without such a child nothing changes (the write lands on the placeholder). */
  function UpdateFirst(e: Element, key: string, c: Element): (r: Element)
    ensures r.name == e.name && r.value == e.value && r.attributes == e.attributes
    ensures |r.children| == |e.children|
    ensures Has(e, key) ==> r.children == e.children[FirstIndex(e.children, key) := c]
    ensures !Has(e, key) ==> r == e
  {
    var k := FirstIndex(e.children, key);
    if k < |e.children| then e.(children := e.children[k := c]) else e
  }

  /** `e[key].removeFromParent()` for a child that exists. */
  function RemoveFirst(e: Element, key: string): (r: Element)
    ensures r.name == e.name && r.value == e.value && r.attributes == e.attributes
    ensures Has(e, key) ==> r.children == e.children[..FirstIndex(e.children, key)] + e.children[FirstIndex(e.children, key) + 1..]
    ensures !Has(e, key) ==> r == e
  {
    var k := FirstIndex(e.children, key);
    if k < |e.children| then e.(children := e.children[..k] + e.children[k + 1..]) else e
  }

  /** The children called key, in order (`e[key].all`). */
  function Named(cs: seq<Element>, key: string): (r: seq<Element>)
    ensures |r| <= |cs|
    ensures forall i :: 0 <= i < |r| ==> r[i].name == key
    ensures forall e :: e in r <==> e in cs && e.name == key
  {
    if cs == [] then []
    else (if cs[0].name == key then [cs[0]] else []) + Named(cs[1..], key)
  }

  /** Selecting from two runs of children selects from each in turn, so the selection keeps the document order. */
  lemma {:induction false} NamedAppend(a: seq<Element>, b: seq<Element>, key: string)
    ensures Named(a + b, key) == Named(a, key) + Named(b, key)
  {
    if a == [] {
      assert a + b == b;
    } else {
      assert (a + b)[1..] == a[1..] + b;
      NamedAppend(a[1..], b, key);
    }
  }

  lemma {:induction false} NamedFirst(cs: seq<Element>, key: string)
    requires FirstIndex(cs, key) < |cs|
    ensures Named(cs, key) != [] && Named(cs, key)[0] == cs[FirstIndex(cs, key)]
  {
    if cs[0].name != key {
      NamedFirst(cs[1..], key);
    }
  }


  lemma {:induction false} FirstIndexReplace(cs: seq<Element>, j: int, c: Element, key: string)
    requires 0 <= j < |cs| && c.name == cs[j].name
    ensures FirstIndex(cs[j := c], key) == FirstIndex(cs, key)
  {
    if j > 0 && cs[0].name != key {
      assert cs[j := c][1..] == cs[1..][j - 1 := c];
      FirstIndexReplace(cs[1..], j - 1, c, key);
    }
  }


  /** Replacing the first child called k by one of the same name makes the replacement the first of that name. */
  lemma LookupAfterUpdateSame(x: Element, k: string, c: Element)
    requires x.name != ErrorName && c.name == k && Has(x, k)
    ensures Has(UpdateFirst(x, k, c), k) && Lookup(UpdateFirst(x, k, c), k) == c
  {
    FirstIndexReplace(x.children, FirstIndex(x.children, k), c, k);
  }
}
