/**
 * County clipping: the ray-casting ring test, the "inside any ring" county
 * test and the per-geometry filter that keeps a feature, trims it or drops it.
 */
module GeometryService {
  import opened Geo

  /** `Number.EPSILON`, the divisor JavaScript falls back to when an edge is horizontal. */
  const Epsilon: real := 1.0 / 4503599627370496.0

  /** `(y2 - y1) || Number.EPSILON`: a zero rise is replaced by `Epsilon`. */
  function Divisor(a: Position, b: Position): (d: real)
    ensures d != 0.0
  {
    if b.y - a.y != 0.0 then b.y - a.y else Epsilon
  }

  /** The position before `index` in the ring walk: the last one for index 0. */
  function Prev(index: nat, n: nat): nat
    requires index < n
  {
    if index == 0 then n - 1 else index - 1
  }

  /**
   * One step of the ring walk, with `a = ring[index]` and `b = ring[previous]`:
   * the edge straddles the horizontal line through `p` and crosses it strictly
   * to the right of `p`.
   */
  predicate EdgeCrosses(p: Position, a: Position, b: Position)
  {
    (a.y > p.y) != (b.y > p.y) && p.x < Crossing(p, a, b)
  }

  /** The longitude where the edge from `a` to `b` meets the horizontal line through `p`. */
  function Crossing(p: Position, a: Position, b: Position): real
  {
    (b.x - a.x) * (p.y - a.y) / Divisor(a, b) + a.x
  }

  /** The inside flag after the first `k` steps of the ring walk. */
  function CrossingParity(p: Position, ring: Ring, k: nat): bool
    requires k <= |ring|
  {
    if k == 0 then false
    else CrossingParity(p, ring, k - 1) != EdgeCrosses(p, ring[k - 1], ring[Prev(k - 1, |ring|)])
  }

  /** What `pointInRing` answers: the parity of the crossing edges. */
  predicate InRing(p: Position, ring: Ring)
  {
    CrossingParity(p, ring, |ring|)
  }

  /** `pointInRing`: the for loop with `index` and `previous` cursors toggling `inside`. */
  method PointInRing(point: Position, ring: Ring) returns (inside: bool)
    ensures inside == InRing(point, ring)
  {
    inside := false;
    var index := 0;
    var previous := |ring| - 1;
    while index < |ring|
      invariant 0 <= index <= |ring|
      invariant index > 0 ==> previous == index - 1
      invariant index == 0 ==> previous == |ring| - 1
      invariant inside == CrossingParity(point, ring, index)
    {
      var intersects := EdgeCrosses(point, ring[index], ring[previous]);
      if intersects {
        inside := !inside;
      }
      previous := index;
      index := index + 1;
    }
  }

  /** The `Number.EPSILON` fallback never takes effect: a straddling edge is never horizontal. */
  lemma StraddlingEdgeRise(p: Position, a: Position, b: Position)
    requires (a.y > p.y) != (b.y > p.y)
    ensures b.y - a.y != 0.0 && Divisor(a, b) == b.y - a.y
  {
  }

  /** A ring none of whose edges crosses the ray from `p` does not contain `p`. */
  lemma {:induction false} NoCrossingNotInRing(p: Position, ring: Ring, k: nat)
    requires k <= |ring|
    requires forall i :: 0 <= i < k ==> !EdgeCrosses(p, ring[i], ring[Prev(i, |ring|)])
    ensures !CrossingParity(p, ring, k)
  {
    if k > 0 {
      NoCrossingNotInRing(p, ring, k - 1);
    }
  }

  lemma MulPos(a: real, b: real)
    ensures 0.0 < a && 0.0 < b ==> 0.0 < a * b
  {
  }

  /** A quotient of a part by the whole lies in [0, 1]. */
  lemma QuotientInUnit(n: real, d: real)
    requires (d < 0.0 && d <= n <= 0.0) || (0.0 < d && 0.0 <= n <= d)
    ensures 0.0 <= n / d <= 1.0
  {
    var q := n / d;
    assert q * d == n;
    assert (q - 1.0) * (-d) == d - q * d;
    assert (q - 1.0) * d == q * d - d;
    MulPos(-q, -d);
    MulPos(q - 1.0, -d);
    MulPos(-q, d);
    MulPos(q - 1.0, d);
  }

  lemma ScaledBetween(t: real, w: real)
    requires 0.0 <= t <= 1.0
    ensures (0.0 <= t * w <= w) || (w <= t * w <= 0.0)
  {
    if 0.0 < t && t < 1.0 && w != 0.0 {
      if w > 0.0 {
        MulPos(t, w);
        MulPos(1.0 - t, w);
        assert (1.0 - t) * w == w - t * w;
      } else {
        MulPos(t, -w);
        MulPos(1.0 - t, -w);
        assert (1.0 - t) * (-w) == t * w - w;
        assert t * (-w) == -(t * w);
      }
    }
  }

  lemma ProductOverQuotient(w: real, n: real, d: real)
    requires d != 0.0
    ensures w * n / d == (n / d) * w
  {
  }

  /** On a straddling edge the crossing lies between the edge's two longitudes. */
  lemma CrossingWithinEdge(p: Position, a: Position, b: Position)
    requires (a.y > p.y) != (b.y > p.y)
    ensures var c := Crossing(p, a, b);
      (a.x <= c || b.x <= c) && (c <= a.x || c <= b.x)
  {
    var d := b.y - a.y;
    var n := p.y - a.y;
    var w := b.x - a.x;
    assert Divisor(a, b) == d;
    QuotientInUnit(n, d);
    var t := n / d;
    ProductOverQuotient(w, n, d);
    assert Crossing(p, a, b) == t * w + a.x;
    ScaledBetween(t, w);
    assert b.x == a.x + w;
  }

  /**
   * A point outside a ring's bounding box is outside the ring: below every
   * vertex, at or above every vertex, or at or right of every vertex.
   */
  lemma OutsideBoxNotInRing(p: Position, ring: Ring)
    requires (forall i :: 0 <= i < |ring| ==> ring[i].y > p.y) ||
             (forall i :: 0 <= i < |ring| ==> ring[i].y <= p.y) ||
             (forall i :: 0 <= i < |ring| ==> ring[i].x <= p.x)
    ensures !InRing(p, ring)
  {
    forall i | 0 <= i < |ring| ensures !EdgeCrosses(p, ring[i], ring[Prev(i, |ring|)]) {
      var a, b := ring[i], ring[Prev(i, |ring|)];
      if (a.y > p.y) != (b.y > p.y) {
        CrossingWithinEdge(p, a, b);
        assert a.x <= p.x && b.x <= p.x;
      }
    }
    NoCrossingNotInRing(p, ring, |ring|);
  }

  /** The closed unit square. */
  const UnitSquare: Ring := [Position(0.0, 0.0), Position(1.0, 0.0), Position(1.0, 1.0), Position(0.0, 1.0), Position(0.0, 0.0)]

  lemma UnitSquareExamples()
    ensures InRing(Position(0.5, 0.5), UnitSquare)
    ensures !InRing(Position(1.5, 0.5), UnitSquare)
  {
    var p := Position(0.5, 0.5);
    assert !EdgeCrosses(p, UnitSquare[0], UnitSquare[4]);
    assert !EdgeCrosses(p, UnitSquare[1], UnitSquare[0]);
    assert EdgeCrosses(p, UnitSquare[2], UnitSquare[1]);
    assert !EdgeCrosses(p, UnitSquare[3], UnitSquare[2]);
    assert !EdgeCrosses(p, UnitSquare[4], UnitSquare[3]);
    OutsideBoxNotInRing(Position(1.5, 0.5), UnitSquare);
  }

  /**
   * The rings of the county boundary as `countyFeature?.geometry?.coordinates`
   * yields them: a Polygon's rings, and the lines of a MultiLineString, which
   * the ring walk reads the same way. Every other shape yields no ring that
   * can contain a point.
   */
  function CountyRings(county: Option<Feature>): seq<Ring>
  {
    match county
    case Some(Feature(Some(Polygon(rings)), _)) => rings
    case Some(Feature(Some(MultiLineString(lines)), _)) => lines
    case _ => []
  }

  function AnyRingContains(p: Position, rings: seq<Ring>): (r: bool)
    ensures r <==> exists i :: 0 <= i < |rings| && InRing(p, rings[i])
  {
    if |rings| == 0 then false
    else if InRing(p, rings[0]) then true
    else
      var r := AnyRingContains(p, rings[1..]);
      assert r ==> exists i :: 1 <= i < |rings| && InRing(p, rings[i]) by {
        if r {
          var i :| 0 <= i < |rings[1..]| && InRing(p, rings[1..][i]);
          assert InRing(p, rings[i + 1]);
        }
      }
      r
  }

  /**
   * `pointInCounty`: inside at least one ring. Holes are not subtracted, and
   * a county without geometry contains nothing.
   */
  predicate PointInCounty(p: Position, county: Option<Feature>)
  {
    AnyRingContains(p, CountyRings(county))
  }

  /** `line.filter((point) => pointInCounty(point, countyFeature))`. */
  function InsidePoints(line: seq<Position>, county: Option<Feature>): (r: seq<Position>)
    ensures |r| <= |line|
  {
    if |line| == 0 then []
    else (if PointInCounty(line[0], county) then [line[0]] else []) + InsidePoints(line[1..], county)
  }

  /** Each sub-line filtered to its inside vertices; sub-lines left with fewer than 2 points dropped. */
  function ClipLines(lines: seq<seq<Position>>, county: Option<Feature>): (r: seq<seq<Position>>)
    ensures |r| <= |lines|
  {
    if |lines| == 0 then []
    else
      var kept := InsidePoints(lines[0], county);
      (if |kept| >= 2 then [kept] else []) + ClipLines(lines[1..], county)
  }

  /** `polygonTouchesCounty`: some vertex of some ring is inside the county. */
  predicate PolygonTouchesCounty(rings: seq<Ring>, county: Option<Feature>)
  {
    exists i, j :: 0 <= i < |rings| && 0 <= j < |rings[i]| && PointInCounty(rings[i][j], county)
  }

  predicate AllInside(line: seq<Position>, county: Option<Feature>)
  {
    forall i :: 0 <= i < |line| ==> PointInCounty(line[i], county)
  }

  /** The shape of every geometry the clip lets through. */
  predicate WithinCounty(g: Geometry, county: Option<Feature>)
  {
    match g
    case Point(c) => PointInCounty(c, county)
    case LineString(line) => |line| >= 2 && AllInside(line, county)
    case MultiLineString(lines) =>
      |lines| > 0 && forall i :: 0 <= i < |lines| ==> |lines[i]| >= 2 && AllInside(lines[i], county)
    case Polygon(rings) => PolygonTouchesCounty(rings, county)
    case MultiPolygon(polygons) => PolygonTouchesCounty(Flatten(polygons), county)
    case OtherGeometry(_) => true
  }

  /** Two geometries of the same GeoJSON type. */
  predicate SameKind(g: Geometry, h: Geometry)
  {
    (g.Point? && h.Point?) || (g.LineString? && h.LineString?) ||
    (g.MultiLineString? && h.MultiLineString?) || (g.Polygon? && h.Polygon?) ||
    (g.MultiPolygon? && h.MultiPolygon?) || (g.OtherGeometry? && h.OtherGeometry?)
  }

  /**
   * `constrainFeatureToCounty`: a feature without geometry is dropped; a
   * Point, Polygon or MultiPolygon is kept whole or dropped whole; a line
   * keeps its inside vertices; any other type passes through.
   */
  function ConstrainFeatureToCounty(f: Feature, county: Option<Feature>): (r: Option<Feature>)
    ensures f.geometry.None? ==> r.None?
    ensures r.Some? ==> r.value.properties == f.properties && r.value.geometry.Some? &&
                        SameKind(r.value.geometry.value, f.geometry.value) &&
                        WithinCounty(r.value.geometry.value, county)
    ensures r.Some? && !f.geometry.value.LineString? && !f.geometry.value.MultiLineString? ==> r.value == f
  {
    match f.geometry
    case None => None
    case Some(g) =>
      match g
      case Point(c) => if PointInCounty(c, county) then Some(f) else None
      case LineString(line) =>
        var kept := InsidePoints(line, county);
        InsidePointsAllInside(line, county);
        if |kept| < 2 then None else Some(f.(geometry := Some(LineString(kept))))
      case MultiLineString(lines) =>
        var kept := ClipLines(lines, county);
        ClipLinesShape(lines, county);
        if |kept| == 0 then None else Some(f.(geometry := Some(MultiLineString(kept))))
      case Polygon(rings) => if PolygonTouchesCounty(rings, county) then Some(f) else None
      case MultiPolygon(polygons) => if PolygonTouchesCounty(Flatten(polygons), county) then Some(f) else None
      case OtherGeometry(_) => Some(f)
  }

  lemma {:induction false} InsidePointsAllInside(line: seq<Position>, county: Option<Feature>)
    ensures AllInside(InsidePoints(line, county), county)
  {
    if |line| > 0 {
      InsidePointsAllInside(line[1..], county);
    }
  }

  /** Filtering a line whose points are all inside gives the line back. */
  lemma {:induction false} InsidePointsOfInside(line: seq<Position>, county: Option<Feature>)
    requires AllInside(line, county)
    ensures InsidePoints(line, county) == line
  {
    if |line| > 0 {
      InsidePointsOfInside(line[1..], county);
      assert line == [line[0]] + line[1..];
    }
  }

  lemma {:induction false} ClipLinesShape(lines: seq<seq<Position>>, county: Option<Feature>)
    ensures forall i :: 0 <= i < |ClipLines(lines, county)| ==>
      |ClipLines(lines, county)[i]| >= 2 && AllInside(ClipLines(lines, county)[i], county)
  {
    if |lines| > 0 {
      ClipLinesShape(lines[1..], county);
      InsidePointsAllInside(lines[0], county);
    }
  }

  lemma {:induction false} ClipLinesOfClipped(lines: seq<seq<Position>>, county: Option<Feature>)
    requires forall i :: 0 <= i < |lines| ==> |lines[i]| >= 2 && AllInside(lines[i], county)
    ensures ClipLines(lines, county) == lines
  {
    if |lines| > 0 {
      InsidePointsOfInside(lines[0], county);
      ClipLinesOfClipped(lines[1..], county);
      assert lines == [lines[0]] + lines[1..];
    }
  }

  /** A geometry already within the county passes the clip unchanged. */
  lemma WithinCountyIsFixed(f: Feature, county: Option<Feature>)
    requires f.geometry.Some? && WithinCounty(f.geometry.value, county)
    ensures ConstrainFeatureToCounty(f, county) == Some(f)
  {
    match f.geometry.value
    case LineString(line) => InsidePointsOfInside(line, county);
    case MultiLineString(lines) => ClipLinesOfClipped(lines, county);
    case _ =>
  }

  /** Clipping a clipped feature changes nothing. */
  lemma ConstrainFeatureIdempotent(f: Feature, county: Option<Feature>)
    requires ConstrainFeatureToCounty(f, county).Some?
    ensures ConstrainFeatureToCounty(ConstrainFeatureToCounty(f, county).value, county) == ConstrainFeatureToCounty(f, county)
  {
    WithinCountyIsFixed(ConstrainFeatureToCounty(f, county).value, county);
  }

  /** A Point is kept unchanged exactly when it is inside. */
  lemma PointKeptIffInside(f: Feature, c: Position, county: Option<Feature>)
    requires f.geometry == Some(Point(c))
    ensures ConstrainFeatureToCounty(f, county) == (if PointInCounty(c, county) then Some(f) else None)
  {
  }

  /** A LineString is kept exactly when at least two of its vertices are inside, and then keeps exactly those. */
  lemma LineKeptIffTwoInside(f: Feature, line: seq<Position>, county: Option<Feature>)
    requires f.geometry == Some(LineString(line))
    ensures ConstrainFeatureToCounty(f, county) ==
      (if |InsidePoints(line, county)| >= 2 then Some(f.(geometry := Some(LineString(InsidePoints(line, county))))) else None)
  {
  }

  /** `constrainCollectionToCounty`: the features that survive, each clipped, in their order. */
  function ConstrainCollectionToCounty(features: seq<Feature>, county: Option<Feature>): (r: seq<Feature>)
    ensures |r| <= |features|
    ensures forall i :: 0 <= i < |r| ==> r[i].geometry.Some? && WithinCounty(r[i].geometry.value, county)
  {
    if |features| == 0 then []
    else
      var head := ConstrainFeatureToCounty(features[0], county);
      (if head.Some? then [head.value] else []) + ConstrainCollectionToCounty(features[1..], county)
  }

  /** The clip works feature by feature, so it keeps the order of the collection. */
  lemma {:induction false} ConstrainCollectionAppend(a: seq<Feature>, b: seq<Feature>, county: Option<Feature>)
    ensures ConstrainCollectionToCounty(a + b, county) ==
            ConstrainCollectionToCounty(a, county) + ConstrainCollectionToCounty(b, county)
  {
    if |a| > 0 {
      assert (a + b)[1..] == a[1..] + b;
      ConstrainCollectionAppend(a[1..], b, county);
    } else {
      assert a + b == b;
    }
  }

  /** Every surviving feature keeps the properties of the feature it came from, at or after its own position. */
  lemma {:induction false} ConstrainCollectionKeepsProperties(features: seq<Feature>, county: Option<Feature>, i: nat)
    requires i < |ConstrainCollectionToCounty(features, county)|
    ensures exists j :: i <= j < |features| && ConstrainFeatureToCounty(features[j], county) == Some(ConstrainCollectionToCounty(features, county)[i]) &&
                        features[j].properties == ConstrainCollectionToCounty(features, county)[i].properties
  {
    var head := ConstrainFeatureToCounty(features[0], county);
    var rest := ConstrainCollectionToCounty(features[1..], county);
    if head.Some? && i == 0 {
      assert ConstrainCollectionToCounty(features, county)[0] == head.value;
    } else {
      var i' := if head.Some? then i - 1 else i;
      assert ConstrainCollectionToCounty(features, county)[i] == rest[i'];
      ConstrainCollectionKeepsProperties(features[1..], county, i');
      var j :| i' <= j < |features[1..]| && ConstrainFeatureToCounty(features[1..][j], county) == Some(rest[i']) &&
               features[1..][j].properties == rest[i'].properties;
      assert features[j + 1] == features[1..][j];
    }
  }

  /** Clipping a clipped collection changes nothing. */
  lemma {:induction false} ConstrainCollectionIdempotent(features: seq<Feature>, county: Option<Feature>)
    ensures ConstrainCollectionToCounty(ConstrainCollectionToCounty(features, county), county) ==
            ConstrainCollectionToCounty(features, county)
  {
    if |features| > 0 {
      var head := ConstrainFeatureToCounty(features[0], county);
      var rest := ConstrainCollectionToCounty(features[1..], county);
      ConstrainCollectionIdempotent(features[1..], county);
      if head.Some? {
        ConstrainCollectionAppend([head.value], rest, county);
        ConstrainFeatureIdempotent(features[0], county);
        assert ([head.value] + rest)[1..] == rest;
        assert ConstrainCollectionToCounty([head.value], county) == [head.value] by {
          assert [head.value][1..] == [];
        }
      } else {
        assert ConstrainCollectionToCounty(features, county) == rest;
      }
    }
  }
}
