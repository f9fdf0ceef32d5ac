/** The point map of the canvas editor: a JavaScript object used as an
    insertion-ordered dictionary from a one-character label to coordinates,
    and the proximity scan that a press runs over it. */
module Points {
  import opened Wrappers

  /** A UTF-16 code unit, the one character of a label as produced by
      `String.fromCharCode`. */
  type Label = c: int | 0 <= c < 0x1_0000

  /** Number of distinct labels: `String.fromCharCode` reduces its argument modulo 2^16. */
  const LabelCount: nat := 0x1_0000

  /** Code unit of 'A', the label of the first point. */
  const FirstLabel: Label := 65

  /** The label given to a point created while `count` points exist:
      `String.fromCharCode(65 + count)`, truncated to 16 bits. */
  function LabelFor(count: nat): Label
  {
    (FirstLabel + count) % LabelCount
  }

  /** Surface coordinates of a point (pixels, origin top-left). */
  datatype Point = Point(x: real, y: real)

  /** One key/value pair of the point map. */
  datatype Entry = Entry(key: Label, at: Point)

  /** The keys of the map in enumeration (insertion) order, `Object.keys(points)`. */
  function Labels(ps: seq<Entry>): (ls: seq<Label>)
    ensures |ls| == |ps|
    ensures forall i :: 0 <= i < |ps| ==> ls[i] == ps[i].key
  {
    if ps == [] then [] else [ps[0].key] + Labels(ps[1..])
  }

  /** An object never holds a key twice. */
  predicate Distinct(ls: seq<Label>)
  {
    forall i, j :: 0 <= i < j < |ls| ==> ls[i] != ls[j]
  }

  /** `points[k]`: the coordinates stored under `k`, if any. */
  function Lookup(ps: seq<Entry>, k: Label): (r: Option<Point>)
    ensures r.Some? <==> k in Labels(ps)
    ensures r.Some? ==> Entry(k, r.value) in ps
  {
    if ps == [] then None
    else if ps[0].key == k then Some(ps[0].at)
    else Lookup(ps[1..], k)
  }

  /** In a map without repeated keys, looking up the i-th key gives the i-th coordinates. */
  lemma {:induction false} LookupAt(ps: seq<Entry>, i: nat)
    requires Distinct(Labels(ps))
    requires i < |ps|
    ensures Lookup(ps, ps[i].key) == Some(ps[i].at)
  {
    if i > 0 {
      assert Labels(ps)[0] != Labels(ps)[i];
      assert Distinct(Labels(ps[1..])) by {
        forall a, b | 0 <= a < b < |ps| - 1 ensures Labels(ps[1..])[a] != Labels(ps[1..])[b] {
          assert Labels(ps)[a + 1] != Labels(ps)[b + 1];
        }
      }
      LookupAt(ps[1..], i - 1);
    }
  }

  /** `newPoints = { ...points }; newPoints[k] = p`: an existing key keeps its
      place and gets the new coordinates, a new key is appended last. */
  function Put(ps: seq<Entry>, k: Label, p: Point): (r: seq<Entry>)
    ensures k !in Labels(ps) ==> r == ps + [Entry(k, p)]
    ensures k in Labels(ps) ==> |r| == |ps| && Labels(r) == Labels(ps)
    ensures Lookup(r, k) == Some(p)
    ensures forall j :: j != k ==> Lookup(r, j) == Lookup(ps, j)
  {
    if ps == [] then [Entry(k, p)]
    else if ps[0].key == k then [Entry(k, p)] + ps[1..]
    else [ps[0]] + Put(ps[1..], k, p)
  }

  /** Assigning a key never removes a key. */
  lemma PutKeepsKeys(ps: seq<Entry>, k: Label, p: Point, j: Label)
    requires j in Labels(ps)
    ensures j in Labels(Put(ps, k, p))
  {
    if j != k {
      assert Lookup(Put(ps, k, p), j) == Lookup(ps, j);
    }
  }

  /** Assigning a key never makes a key appear twice. */
  lemma PutKeepsDistinct(ps: seq<Entry>, k: Label, p: Point)
    requires Distinct(Labels(ps))
    ensures Distinct(Labels(Put(ps, k, p)))
  {
    var r := Put(ps, k, p);
    if k !in Labels(ps) {
      forall i, j | 0 <= i < j < |r| ensures Labels(r)[i] != Labels(r)[j] {
        if j == |ps| {
          assert Labels(ps)[i] == Labels(r)[i];
        } else {
          assert Labels(ps)[i] == Labels(r)[i] && Labels(ps)[j] == Labels(r)[j];
        }
      }
    }
  }

  /** Squared Euclidean distance between two points. */
  function SquaredDistance(a: Point, b: Point): real
  {
    (a.x - b.x) * (a.x - b.x) + (a.y - b.y) * (a.y - b.y)
  }

  /** The proximity test of a press, `Math.sqrt(d2) < 20`, stated on the square. */
  predicate Near(p: Point, q: Point)
  {
    SquaredDistance(p, q) < 400.0
  }

  /** The position, in enumeration order, of the first point within reach of `q`. */
  function FirstNear(ps: seq<Entry>, q: Point): (r: Option<nat>)
    ensures r.Some? ==> r.value < |ps| && Near(ps[r.value].at, q)
    ensures r.Some? ==> forall j :: 0 <= j < r.value ==> !Near(ps[j].at, q)
    ensures r.None? ==> forall j :: 0 <= j < |ps| ==> !Near(ps[j].at, q)
  {
    if ps == [] then None
    else if Near(ps[0].at, q) then Some(0)
    else match FirstNear(ps[1..], q)
      case None => None
      case Some(i) => Some(i + 1)
  }

  /** The scan loop of a press: walk the points in enumeration order and stop
      at the first one closer than 20 pixels. */
  method FindNear(ps: seq<Entry>, q: Point) returns (found: Option<nat>)
    ensures found == FirstNear(ps, q)
  {
    var i := 0;
    while i < |ps|
      invariant 0 <= i <= |ps|
      invariant forall j :: 0 <= j < i ==> !Near(ps[j].at, q)
    {
      if Near(ps[i].at, q) {
        return Some(i);
      }
      i := i + 1;
    }
    return None;
  }

  /** The keys are exactly the labels of a run of presses from the empty map:
      'A', 'B', 'C', ... in that order. */
  predicate Sequential(ps: seq<Entry>)
  {
    forall i :: 0 <= i < |ps| ==> ps[i].key == LabelFor(i)
  }

  /** Below the 2^16 wrap-around, different counts give different labels. */
  lemma LabelForInjective(i: nat, j: nat)
    requires i < LabelCount && j < LabelCount
    requires LabelFor(i) == LabelFor(j)
    ensures i == j
  {
    if FirstLabel + i < LabelCount && FirstLabel + j < LabelCount {
    } else if FirstLabel + i >= LabelCount && FirstLabel + j >= LabelCount {
      assert LabelFor(i) == FirstLabel + i - LabelCount;
      assert LabelFor(j) == FirstLabel + j - LabelCount;
    }
  }

  /** In a sequentially labelled map the label for the next count is still free,
      as long as the 2^16 labels are not used up. */
  lemma {:induction false} NextLabelFresh(ps: seq<Entry>)
    requires Sequential(ps)
    requires |ps| < LabelCount
    ensures LabelFor(|ps|) !in Labels(ps)
    ensures Distinct(Labels(ps))
  {
    forall i | 0 <= i < |ps| ensures Labels(ps)[i] != LabelFor(|ps|) {
      if Labels(ps)[i] == LabelFor(|ps|) {
        LabelForInjective(i, |ps|);
      }
    }
    forall i, j | 0 <= i < j < |ps| ensures Labels(ps)[i] != Labels(ps)[j] {
      if Labels(ps)[i] == Labels(ps)[j] {
        LabelForInjective(i, j);
      }
    }
  }
}
