/** Points in view space and the distance tests used by the touch handlers. */
module Geometry {

  /** A point centre (`CGPoint`), with `CGFloat` coordinates taken as reals. */
  datatype Point = Point(x: real, y: real)

  /** The square of the Euclidean distance; `distance(a, b) < r` is `SqDist(a, b) < r * r`. */
  function SqDist(a: Point, b: Point): (d: real)
    ensures d >= 0.0
  {
    var dx := a.x - b.x;
    var dy := a.y - b.y;
    SquareNonNegative(dx);
    SquareNonNegative(dy);
    dx * dx + dy * dy
  }

  lemma SquareNonNegative(v: real)
    ensures v * v >= 0.0
  {
    if v < 0.0 { assert v * v == (-v) * (-v); }
  }

  /** `distance(a, b) < r` for a non-negative radius `r`. */
  predicate Near(a: Point, b: Point, r: real)
  {
    SqDist(a, b) < r * r
  }

  /** A point map whose keys are exactly 0 .. n-1 (the index-keyed `points` of a detail). */
  ghost predicate Keyed<V>(m: map<int, V>, n: int)
  {
    forall k :: k in m <==> 0 <= k < n
  }

  /** Contiguous keys determine the size of the map. */
  lemma KeyedCard<V>(m: map<int, V>, n: nat)
    requires Keyed(m, n)
    ensures |m| == n
  {
    assert m.Keys == Range(n);
  }

  /** The set {0, .., n-1}. */
  function Range(n: nat): (r: set<int>)
    ensures |r| == n
    ensures forall k :: k in r <==> 0 <= k < n
  {
    if n == 0 then {} else Range(n - 1) + {n - 1}
  }

  /** The map view of a sequence of points, keyed by position. */
  function FromSeq<V>(s: seq<V>): (m: map<int, V>)
    ensures Keyed(m, |s|)
    ensures forall k :: 0 <= k < |s| ==> m[k] == s[k]
  {
    map k | 0 <= k < |s| :: s[k]
  }

  /** Appending to the sequence adds the next key. */
  lemma FromSeqSnoc<V>(s: seq<V>, v: V)
    ensures FromSeq(s + [v]) == FromSeq(s)[|s| := v]
    ensures FromSeq<V>([]) == map[]
  {
    var a, b := FromSeq(s + [v]), FromSeq(s)[|s| := v];
    assert a.Keys == b.Keys;
  }

  /**
   * keys lists every key of m exactly once: one iteration order of a Swift
   * dictionary, whose order the language leaves unspecified.
   */
  ghost predicate Enumerates<V>(m: map<int, V>, keys: seq<int>)
  {
    (forall i :: 0 <= i < |keys| ==> keys[i] in m) &&
    (forall k :: k in m ==> k in keys) &&
    forall i, j :: 0 <= i < j < |keys| ==> keys[i] != keys[j]
  }

  /** The keys 0 .. n-1 in increasing order. */
  function Indices(n: nat): (keys: seq<int>)
    ensures |keys| == n
    ensures forall i :: 0 <= i < n ==> keys[i] == i
  {
    seq(n, i => i)
  }

  /** A map keyed 0 .. n-1 is enumerated by its indices. */
  lemma IndicesEnumerate<V>(m: map<int, V>, n: nat)
    requires Keyed(m, n)
    ensures Enumerates(m, Indices(n))
  {
    var keys := Indices(n);
    forall k | k in m ensures k in keys { assert keys[k] == k; }
  }

  /** Distinct entries: the sequence is as long as the set of its entries. */
  lemma {:induction false} DistinctCard(keys: seq<int>)
    requires forall i, j :: 0 <= i < j < |keys| ==> keys[i] != keys[j]
    ensures |set k | k in keys| == |keys|
  {
    if keys != [] {
      DistinctCard(keys[1..]);
      assert (set k | k in keys) == {keys[0]} + (set k | k in keys[1..]);
      assert keys[0] !in (set k | k in keys[1..]);
    } else {
      assert (set k | k in keys) == {};
    }
  }

  /** An iteration order visits as many keys as the map holds. */
  lemma EnumeratesLength<V>(m: map<int, V>, keys: seq<int>)
    requires Enumerates(m, keys)
    ensures |keys| == |m|
  {
    var ks := set k | k in keys;
    forall k | k in ks ensures k in m.Keys {
      var i :| 0 <= i < |keys| && keys[i] == k;
    }
    forall k | k in m.Keys ensures k in ks {
      assert k in keys;
    }
    assert m.Keys == ks;
    DistinctCard(keys);
  }
}
