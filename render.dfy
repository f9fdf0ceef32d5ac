/** The structural part of the render effect: the segments between consecutive
    points, the running total of their lengths, and the angle triples whose
    middle point gets an angle label, with the dot-product part of
    `calculateAngle`. */
module Render {
  import opened Points

  /** A segment drawn between two consecutive points. */
  type Segment = (Entry, Entry)

  /** Three consecutive points; the angle is measured at the middle one. */
  type Corner = (Entry, Entry, Entry)

  /** The segments `(keys[i], keys[i+1])` in enumeration order. */
  function Segments(ps: seq<Entry>): (r: seq<Segment>)
    ensures |r| == if |ps| < 2 then 0 else |ps| - 1
    ensures forall i :: 0 <= i < |r| ==> r[i] == (ps[i], ps[i + 1])
    decreases |ps|
  {
    if |ps| < 2 then [] else [(ps[0], ps[1])] + Segments(ps[1..])
  }

  /** The triples `(keys[i-1], keys[i], keys[i+1])`, centred on every point but
      the first and the last. */
  function Corners(ps: seq<Entry>): (r: seq<Corner>)
    ensures |r| == if |ps| < 3 then 0 else |ps| - 2
    ensures forall i :: 0 <= i < |r| ==> r[i] == (ps[i], ps[i + 1], ps[i + 2])
    decreases |ps|
  {
    if |ps| < 3 then [] else [(ps[0], ps[1], ps[2])] + Corners(ps[1..])
  }

  /** Sum of the lengths of the segments; `len` is the source's length in
      centimetres, `Math.sqrt(dx ** 2 + dy ** 2) / 20`. */
  function TotalLength(segs: seq<Segment>, len: (Point, Point) -> real): real
  {
    if segs == [] then 0.0 else len(segs[0].0.at, segs[0].1.at) + TotalLength(segs[1..], len)
  }

  /** Adding a segment at the end adds its length to the total. */
  lemma {:induction false} TotalLengthAppend(segs: seq<Segment>, s: Segment, len: (Point, Point) -> real)
    ensures TotalLength(segs + [s], len) == TotalLength(segs, len) + len(s.0.at, s.1.at)
  {
    if segs != [] {
      assert (segs + [s])[1..] == segs[1..] + [s];
      TotalLengthAppend(segs[1..], s, len);
    }
  }

  /** `len(a, b)` is a length in centimetres at 20 pixels per centimetre. */
  predicate IsCentimetres(len: (Point, Point) -> real, a: Point, b: Point)
  {
    len(a, b) >= 0.0 && len(a, b) * len(a, b) == SquaredDistance(a, b) / 400.0
  }

  /** The two factors of the cosine in `calculateAngle`: the dot product of
      A - B and C - B, and the square of the product of their magnitudes. */
  datatype CosineTerms = CosineTerms(dot: real, magnitudesSquared: real)

  /** The cosine terms of the angle at `b`: `cosTheta` is `dot` divided by the
      square root of `magnitudesSquared`. */
  function Cosine(a: Point, b: Point, c: Point): CosineTerms
  {
    var v1x, v1y := a.x - b.x, a.y - b.y;
    var v2x, v2y := c.x - b.x, c.y - b.y;
    CosineTerms(v1x * v2x + v1y * v2y, (v1x * v1x + v1y * v1y) * (v2x * v2x + v2y * v2y))
  }

  /** The cosine is in [-1, 1] whenever it is defined, and it is undefined
      (0 / 0, NaN in the source) exactly when `b` coincides with `a` or `c`. */
  lemma CosineRange(a: Point, b: Point, c: Point)
    ensures Cosine(a, b, c).dot * Cosine(a, b, c).dot <= Cosine(a, b, c).magnitudesSquared
    ensures Cosine(a, b, c).magnitudesSquared == 0.0 <==> a == b || c == b
  {
    var v1x, v1y := a.x - b.x, a.y - b.y;
    var v2x, v2y := c.x - b.x, c.y - b.y;
    Lagrange(v1x, v1y, v2x, v2y);
    SquaredDistanceZero(a, b);
    SquaredDistanceZero(c, b);
    assert v1x * v1x + v1y * v1y == SquaredDistance(a, b);
    assert v2x * v2x + v2y * v2y == SquaredDistance(c, b);
  }

  /** Lagrange's identity in the plane: the product of the squared magnitudes
      is the squared dot product plus the squared cross product, so it is never
      smaller than the squared dot product. */
  lemma Lagrange(ux: real, uy: real, vx: real, vy: real)
    ensures (ux * ux + uy * uy) * (vx * vx + vy * vy)
      == (ux * vx + uy * vy) * (ux * vx + uy * vy) + (ux * vy - uy * vx) * (ux * vy - uy * vx)
    ensures (ux * vx + uy * vy) * (ux * vx + uy * vy) <= (ux * ux + uy * uy) * (vx * vx + vy * vy)
  {
    var cross := ux * vy - uy * vx;
    SquareNonNegative(cross);
    calc {
      (ux * vx + uy * vy) * (ux * vx + uy * vy);
      <= (ux * vx + uy * vy) * (ux * vx + uy * vy) + cross * cross;
      == (ux * ux + uy * uy) * (vx * vx + vy * vy);
    }
  }

  /** Two points are at distance zero exactly when they coincide. */
  lemma SquaredDistanceZero(a: Point, b: Point)
    ensures SquaredDistance(a, b) >= 0.0
    ensures SquaredDistance(a, b) == 0.0 <==> a == b
  {
    var dx, dy := a.x - b.x, a.y - b.y;
    SquareNonNegative(dx);
    SquareNonNegative(dy);
    if dx != 0.0 {
      SquarePositive(dx);
      calc { 0.0; < dx * dx; <= dx * dx + dy * dy; == SquaredDistance(a, b); }
    } else if dy != 0.0 {
      SquarePositive(dy);
      calc { 0.0; < dy * dy; <= dx * dx + dy * dy; == SquaredDistance(a, b); }
    } else {
      assert a == Point(b.x, b.y);
    }
  }

  lemma SquareNonNegative(r: real)
    ensures r * r >= 0.0
  {
    if r != 0.0 {
      SquarePositive(r);
    }
  }

  lemma SquarePositive(r: real)
    requires r != 0.0
    ensures r * r > 0.0
  {
    if r < 0.0 {
      assert r * r == (-r) * (-r);
    }
  }

  /** The segment loop of the render pass: one segment per pair of consecutive
      points, with the running `totalLength`. The source reads each position by
      key, `points[pointKeys[i]]`; reading `ps[i].at` is the same because keys
      never repeat (`LookupAt`, `Editor.StepsKeepDistinct`). */
  method SegmentPass(ps: seq<Entry>, len: (Point, Point) -> real)
    returns (segments: seq<Segment>, totalLength: real)
    ensures segments == Segments(ps)
    ensures totalLength == TotalLength(segments, len)
  {
    segments, totalLength := [], 0.0;
    var i := 0;
    while i < |ps| - 1
      invariant 0 <= i <= (if |ps| == 0 then 0 else |ps| - 1)
      invariant |segments| == i
      invariant forall k :: 0 <= k < i ==> segments[k] == (ps[k], ps[k + 1])
      invariant totalLength == TotalLength(segments, len)
    {
      var start, end := ps[i], ps[i + 1];
      TotalLengthAppend(segments, (start, end), len);
      segments := segments + [(start, end)];
      totalLength := totalLength + len(start.at, end.at);
      i := i + 1;
    }
    assert |segments| == |Segments(ps)|;
    forall k | 0 <= k < |segments| ensures segments[k] == Segments(ps)[k] {
      assert Segments(ps)[k] == (ps[k], ps[k + 1]);
      assert segments[k] == (ps[k], ps[k + 1]);
    }
  }

  /** The angle loop of the render pass: `calculateAngle` at every point from the
      second to the second-to-last, with its two neighbours, read by position as
      in `SegmentPass`. */
  method AnglePass(ps: seq<Entry>) returns (corners: seq<Corner>, angles: seq<CosineTerms>)
    ensures corners == Corners(ps)
    ensures |angles| == |corners|
    ensures forall i :: 0 <= i < |angles| ==> angles[i] == Cosine(corners[i].0.at, corners[i].1.at, corners[i].2.at)
  {
    corners, angles := [], [];
    var i := 1;
    while i < |ps| - 1
      invariant 1 <= i && (|ps| >= 2 ==> i <= |ps| - 1)
      invariant |ps| >= 2 ==> corners == Corners(ps[..i + 1])
      invariant |ps| < 2 ==> corners == []
      invariant |angles| == |corners|
      invariant forall k :: 0 <= k < |angles| ==> angles[k] == Cosine(corners[k].0.at, corners[k].1.at, corners[k].2.at)
    {
      var a, b, c := ps[i - 1], ps[i], ps[i + 1];
      CornersAppend(ps[..i + 1], ps[i + 1]);
      assert ps[..i + 1] + [ps[i + 1]] == ps[..i + 2];
      corners := corners + [(a, b, c)];
      angles := angles + [Cosine(a.at, b.at, c.at)];
      i := i + 1;
    }
    if |ps| >= 2 {
      assert ps[..i + 1] == ps;
    }
  }

  /** Appending a point adds exactly one corner, centred on the previous last point. */
  lemma CornersAppend(ps: seq<Entry>, e: Entry)
    requires |ps| >= 2
    ensures Corners(ps + [e]) == Corners(ps) + [(ps[|ps| - 2], ps[|ps| - 1], e)]
  {
    var qs := ps + [e];
    var cs, last := Corners(ps), (ps[|ps| - 2], ps[|ps| - 1], e);
    assert |Corners(qs)| == |cs| + 1;
    forall k | 0 <= k < |cs| + 1 ensures Corners(qs)[k] == (cs + [last])[k] {
      assert Corners(qs)[k] == (qs[k], qs[k + 1], qs[k + 2]);
      if k < |cs| {
        assert cs[k] == (ps[k], ps[k + 1], ps[k + 2]);
        assert (cs + [last])[k] == cs[k];
        assert qs[k] == ps[k] && qs[k + 1] == ps[k + 1] && qs[k + 2] == ps[k + 2];
      } else {
        assert qs[k] == ps[|ps| - 2] && qs[k + 1] == ps[|ps| - 1] && qs[k + 2] == e;
      }
    }
  }

  /** Swapping the outer points leaves both cosine terms unchanged, so the
      angle A-B-C equals the angle C-B-A. */
  lemma CosineSymmetric(a: Point, b: Point, c: Point)
    ensures Cosine(a, b, c) == Cosine(c, b, a)
  {
  }

  /** The total length is never negative, and it is zero exactly when every
      segment has length zero, that is when consecutive points coincide. */
  lemma {:induction false} TotalLengthZero(ps: seq<Entry>, len: (Point, Point) -> real)
    requires forall i :: 0 <= i < |ps| - 1 ==> IsCentimetres(len, ps[i].at, ps[i + 1].at)
    ensures TotalLength(Segments(ps), len) >= 0.0
    ensures TotalLength(Segments(ps), len) == 0.0 <==> forall i :: 0 <= i < |ps| - 1 ==> ps[i].at == ps[i + 1].at
  {
    if |ps| >= 2 {
      assert Segments(ps)[1..] == Segments(ps[1..]);
      assert forall i :: 0 <= i < |ps[1..]| - 1 ==> IsCentimetres(len, ps[1..][i].at, ps[1..][i + 1].at) by {
        forall i | 0 <= i < |ps[1..]| - 1 ensures IsCentimetres(len, ps[1..][i].at, ps[1..][i + 1].at) {
          assert IsCentimetres(len, ps[i + 1].at, ps[i + 2].at);
        }
      }
      TotalLengthZero(ps[1..], len);
      CentimetresZero(len, ps[0].at, ps[1].at);
      assert TotalLength(Segments(ps), len) == len(ps[0].at, ps[1].at) + TotalLength(Segments(ps[1..]), len);
      if forall i :: 0 <= i < |ps| - 1 ==> ps[i].at == ps[i + 1].at {
        assert forall i :: 0 <= i < |ps[1..]| - 1 ==> ps[1..][i].at == ps[1..][i + 1].at by {
          forall i | 0 <= i < |ps[1..]| - 1 ensures ps[1..][i].at == ps[1..][i + 1].at {
            assert ps[i + 1].at == ps[i + 2].at;
          }
        }
      }
      if TotalLength(Segments(ps), len) == 0.0 {
        forall i | 0 <= i < |ps| - 1 ensures ps[i].at == ps[i + 1].at {
          if i > 0 {
            assert ps[1..][i - 1].at == ps[1..][i].at;
          }
        }
      }
    }
  }

  /** Appending a point adds exactly one segment, from the previous last point
      to the new one, and adds its length to the total. */
  lemma {:induction false} SegmentsAppend(ps: seq<Entry>, e: Entry, len: (Point, Point) -> real)
    requires |ps| >= 1
    ensures Segments(ps + [e]) == Segments(ps) + [(ps[|ps| - 1], e)]
    ensures TotalLength(Segments(ps + [e]), len) == TotalLength(Segments(ps), len) + len(ps[|ps| - 1].at, e.at)
  {
    var qs := ps + [e];
    assert |Segments(qs)| == |Segments(ps) + [(ps[|ps| - 1], e)]|;
    forall k | 0 <= k < |Segments(qs)| ensures Segments(qs)[k] == (Segments(ps) + [(ps[|ps| - 1], e)])[k] {
      assert Segments(qs)[k] == (qs[k], qs[k + 1]);
      if k < |ps| - 1 {
        assert Segments(ps)[k] == (ps[k], ps[k + 1]);
      }
    }
    TotalLengthAppend(Segments(ps), (ps[|ps| - 1], e), len);
  }

  /** Points A(0, 0), B(100, 0), C(100, 100): two segments of 5 cm each, a
      total of 10 cm, and a right angle at B (zero dot product, both arms of
      non-zero length). */
  lemma RightAngleExample(len: (Point, Point) -> real)
    requires IsCentimetres(len, Point(0.0, 0.0), Point(100.0, 0.0))
    requires IsCentimetres(len, Point(100.0, 0.0), Point(100.0, 100.0))
    ensures var ps := [Entry(65, Point(0.0, 0.0)), Entry(66, Point(100.0, 0.0)), Entry(67, Point(100.0, 100.0))];
      len(ps[0].at, ps[1].at) == 5.0 && len(ps[1].at, ps[2].at) == 5.0
      && TotalLength(Segments(ps), len) == 10.0
      && Corners(ps) == [(ps[0], ps[1], ps[2])]
      && Cosine(ps[0].at, ps[1].at, ps[2].at).dot == 0.0
      && Cosine(ps[0].at, ps[1].at, ps[2].at).magnitudesSquared > 0.0
  {
    var ps := [Entry(65, Point(0.0, 0.0)), Entry(66, Point(100.0, 0.0)), Entry(67, Point(100.0, 100.0))];
    FiveCentimetres(len, ps[0].at, ps[1].at);
    FiveCentimetres(len, ps[1].at, ps[2].at);
    assert Segments(ps) == [(ps[0], ps[1]), (ps[1], ps[2])];
    var segs := Segments(ps);
    assert segs[1..] == [(ps[1], ps[2])] && segs[1..][1..] == [];
    assert TotalLength(segs[1..], len) == len(ps[1].at, ps[2].at) + TotalLength([], len);
    assert Corners(ps)[0] == (ps[0], ps[1], ps[2]);
  }

  /** A segment has length zero exactly when its end points coincide. */
  lemma CentimetresZero(len: (Point, Point) -> real, a: Point, b: Point)
    requires IsCentimetres(len, a, b)
    ensures len(a, b) == 0.0 <==> a == b
  {
    var l, d := len(a, b), SquaredDistance(a, b);
    SquaredDistanceZero(a, b);
    if l != 0.0 {
      SquarePositive(l);
      calc { 0.0; < l * l; == d / 400.0; }
    } else {
      calc { d / 400.0; == l * l; == 0.0; }
    }
  }

  /** A segment 100 pixels long measures 5 cm. */
  lemma FiveCentimetres(len: (Point, Point) -> real, a: Point, b: Point)
    requires IsCentimetres(len, a, b) && SquaredDistance(a, b) == 10000.0
    ensures len(a, b) == 5.0
  {
    calc { len(a, b) * len(a, b); == SquaredDistance(a, b) / 400.0; == 25.0; }
    SquareRootOf25(len(a, b));
  }

  /** The non-negative square root of 25 is 5. */
  lemma SquareRootOf25(l: real)
    requires l >= 0.0 && l * l == 25.0
    ensures l == 5.0
  {
    if l < 5.0 {
      calc { l * l; <= 5.0 * l; < 25.0; }
    } else if l > 5.0 {
      calc { l * l; >= 5.0 * l; > 25.0; }
    }
  }
}
