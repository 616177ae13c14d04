/**
 * The ArcGIS helpers: conversion of ArcGIS REST features to GeoJSON, the
 * bounding envelope and the simplified polygon used as spatial filters in
 * feature queries.
 */
module ArcGis {
  import opened Geo
  import opened Text

  /**
   * An ArcGIS geometry as far as the conversion looks at it: `rings` and
   * `paths` when they are arrays, `x` and `y` when they are numbers.
   */
  datatype EsriGeometry = EsriGeometry(rings: Option<seq<Ring>>, paths: Option<seq<seq<Position>>>, x: Option<real>, y: Option<real>)

  /** An ArcGIS feature; a missing geometry or a `null`/missing `attributes` is `None`. */
  datatype EsriFeature = EsriFeature(geometry: Option<EsriGeometry>, attributes: Option<Properties>)

  /** `convertGeometry`: rings first, then paths, then a numeric point, else `null`. */
  function ConvertGeometry(geometry: Option<EsriGeometry>): (r: Option<Geometry>)
    ensures geometry.None? ==> r.None?
    ensures geometry.Some? && geometry.value.rings.Some? ==> r == Some(Polygon(geometry.value.rings.value))
    ensures geometry.Some? && geometry.value.rings.None? && geometry.value.paths.Some? ==>
      var paths := geometry.value.paths.value;
      r == Some(if |paths| == 1 then LineString(paths[0]) else MultiLineString(paths))
    ensures r.Some? && r.value.Point? ==>
      geometry.Some? && geometry.value.rings.None? && geometry.value.paths.None? &&
      geometry.value.x.Some? && geometry.value.y.Some? &&
      r.value.coordinates == Position(geometry.value.x.value, geometry.value.y.value)
    ensures (geometry.Some? && geometry.value.rings.None? && geometry.value.paths.None? &&
             geometry.value.x.Some? && geometry.value.y.Some?) ==>
      r == Some(Point(Position(geometry.value.x.value, geometry.value.y.value)))
    ensures r.None? <==>
      geometry.None? ||
      (geometry.value.rings.None? && geometry.value.paths.None? && (geometry.value.x.None? || geometry.value.y.None?))
  {
    match geometry
    case None => None
    case Some(g) =>
      if g.rings.Some? then Some(Polygon(g.rings.value))
      else if g.paths.Some? then
        (if |g.paths.value| == 1 then Some(LineString(g.paths.value[0])) else Some(MultiLineString(g.paths.value)))
      else if g.x.Some? && g.y.Some? then Some(Point(Position(g.x.value, g.y.value)))
      else None
  }

  /** `convertFeature`: `null` when the geometry does not convert; the attributes, or `{}`, as properties. */
  function ConvertFeature(feature: EsriFeature): (r: Option<Feature>)
    ensures r.None? <==> ConvertGeometry(feature.geometry).None?
    ensures r.Some? ==>
      (r.value.geometry == ConvertGeometry(feature.geometry) &&
       r.value.properties == (if feature.attributes.Some? then feature.attributes.value else []))
  {
    var geometry := ConvertGeometry(feature.geometry);
    if geometry.None? then None
    else Some(Feature(geometry, if feature.attributes.Some? then feature.attributes.value else []))
  }

  /** `arcgisToGeoJson`: the converted features, in order, with the unconvertible ones dropped. */
  function ArcgisToGeoJson(features: seq<EsriFeature>): (r: seq<Feature>)
    ensures |r| <= |features|
    ensures forall f :: f in r ==> f.geometry.Some? && exists i :: 0 <= i < |features| && ConvertFeature(features[i]) == Some(f)
  {
    if |features| == 0 then []
    else
      var init := ArcgisToGeoJson(features[..|features| - 1]);
      var last := ConvertFeature(features[|features| - 1]);
      assert forall i :: 0 <= i < |features| - 1 ==> features[..|features| - 1][i] == features[i];
      init + (if last.Some? then [last.value] else [])
  }

  /** The conversion goes feature by feature: converting two pages one after the other is converting them together. */
  lemma {:induction false} ArcgisToGeoJsonAppend(a: seq<EsriFeature>, b: seq<EsriFeature>)
    ensures ArcgisToGeoJson(a + b) == ArcgisToGeoJson(a) + ArcgisToGeoJson(b)
  {
    if |b| == 0 {
      assert a + b == a;
    } else {
      var init := b[..|b| - 1];
      assert (a + b)[..|a + b| - 1] == a + init;
      ArcgisToGeoJsonAppend(a, init);
    }
  }

  predicate Converts(feature: EsriFeature)
  {
    ConvertGeometry(feature.geometry).Some?
  }

  /** Exactly the features with a convertible geometry survive. */
  lemma {:induction false} ArcgisToGeoJsonCount(features: seq<EsriFeature>)
    ensures |ArcgisToGeoJson(features)| == |Filter(features, Converts)|
  {
    if |features| > 0 {
      var rest := features[1..];
      assert features == [features[0]] + rest;
      ArcgisToGeoJsonAppend([features[0]], rest);
      assert [features[0]][..0] == [];
      ArcgisToGeoJsonCount(rest);
    }
  }

  // ---------------------------------------------------------------------
  // The envelope
  // ---------------------------------------------------------------------

  /** The running minima and maxima of the coordinate `reduce`. */
  datatype Box = Box(xmin: real, ymin: real, xmax: real, ymax: real)

  /** The envelope query geometry: the bounds spread into an object with `spatialReference.wkid`. */
  datatype Envelope = Envelope(xmin: real, ymin: real, xmax: real, ymax: real, wkid: int)

  /** `flattenGeometryPoints`: the vertices of a Polygon or MultiPolygon; nothing for any other type. */
  function FlattenGeometryPoints(geometry: Geometry): (r: seq<Position>)
    ensures !geometry.Polygon? && !geometry.MultiPolygon? ==> r == []
    ensures geometry.Polygon? ==> forall p :: p in r <==> exists i :: 0 <= i < |geometry.rings| && p in geometry.rings[i]
    ensures geometry.MultiPolygon? ==> forall p :: p in r <==>
      exists i, j :: 0 <= i < |geometry.polygons| && 0 <= j < |geometry.polygons[i]| && p in geometry.polygons[i][j]
  {
    match geometry
    case Polygon(rings) =>
      forall p ensures p in Flatten(rings) <==> exists i :: 0 <= i < |rings| && p in rings[i] {
        FlattenMember(rings, p);
      }
      Flatten(rings)
    case MultiPolygon(polygons) =>
      forall p ensures p in Flatten(Flatten(polygons)) <==>
          exists i, j :: 0 <= i < |polygons| && 0 <= j < |polygons[i]| && p in polygons[i][j] {
        FlattenTwiceMember(polygons, p);
      }
      Flatten(Flatten(polygons))
    case _ => []
  }

  /**
   * The `reduce` over the points: `None` stands for the initial bounds of
   * positive and negative infinity, which the first point replaces.
   */
  function Bounds(points: seq<Position>): (r: Option<Box>)
    ensures r.None? <==> |points| == 0
    ensures r.Some? ==> forall p :: p in points ==> r.value.xmin <= p.x <= r.value.xmax && r.value.ymin <= p.y <= r.value.ymax
    ensures r.Some? ==>
      (exists p :: p in points && p.x == r.value.xmin) && (exists p :: p in points && p.x == r.value.xmax) &&
      (exists p :: p in points && p.y == r.value.ymin) && (exists p :: p in points && p.y == r.value.ymax)
  {
    if |points| == 0 then None
    else
      var init := points[..|points| - 1];
      var p := points[|points| - 1];
      assert points == init + [p];
      var before := Bounds(init);
      if before.None? then Some(Box(p.x, p.y, p.x, p.y))
      else
        var b := before.value;
        Some(Box(if b.xmin <= p.x then b.xmin else p.x, if b.ymin <= p.y then b.ymin else p.y,
          if b.xmax >= p.x then b.xmax else p.x, if b.ymax >= p.y then b.ymax else p.y))
  }

  const MissingBoundary := "A county boundary is required to build an ArcGIS envelope query."
  const NoCoordinates := "County boundary geometry did not include coordinates."

  /**
   * `buildEnvelopeQueryGeometry`: an error without a geometry or without
   * points, otherwise the bounds of the points (spatial reference 4326).
   */
  function BuildEnvelopeQueryGeometry(feature: Option<Feature>): (r: Result<Envelope>)
    ensures (feature.None? || feature.value.geometry.None?) ==> r == Failure(MissingBoundary)
    ensures feature.Some? && feature.value.geometry.Some? ==>
      (r == Failure(NoCoordinates) <==> |FlattenGeometryPoints(feature.value.geometry.value)| == 0)
    ensures r.Success? ==>
      var e := r.value;
      var points := FlattenGeometryPoints(feature.value.geometry.value);
      e.wkid == 4326 &&
      (forall p :: p in points ==> e.xmin <= p.x <= e.xmax && e.ymin <= p.y <= e.ymax) &&
      (exists p :: p in points && p.x == e.xmin) && (exists p :: p in points && p.x == e.xmax) &&
      (exists p :: p in points && p.y == e.ymin) && (exists p :: p in points && p.y == e.ymax)
  {
    if feature.None? || feature.value.geometry.None? then Failure(MissingBoundary)
    else
      var points := FlattenGeometryPoints(feature.value.geometry.value);
      if |points| == 0 then Failure(NoCoordinates)
      else
        var b := Bounds(points).value;
        Success(Envelope(b.xmin, b.ymin, b.xmax, b.ymax, 4326))
  }

  /** For a Polygon boundary, the envelope holds every vertex of every ring. */
  lemma EnvelopeHoldsPolygon(feature: Feature, i: int, j: int)
    requires feature.geometry.Some? && feature.geometry.value.Polygon?
    requires 0 <= i < |feature.geometry.value.rings| && 0 <= j < |feature.geometry.value.rings[i]|
    ensures var r := BuildEnvelopeQueryGeometry(Some(feature));
      var p := feature.geometry.value.rings[i][j];
      r.Success? && r.value.xmin <= p.x <= r.value.xmax && r.value.ymin <= p.y <= r.value.ymax
  {
    var p := feature.geometry.value.rings[i][j];
    assert p in feature.geometry.value.rings[i];
    assert p in FlattenGeometryPoints(feature.geometry.value);
  }

  // ---------------------------------------------------------------------
  // The simplified query polygon
  // ---------------------------------------------------------------------

  /** `roundCoordinate`: to five decimal places, halves rounded up. */
  function RoundCoordinate(value: real): real
  {
    Round(value * 100000.0) as real / 100000.0
  }

  /** Rounding moves a coordinate by at most half of the fifth decimal place. */
  lemma RoundCoordinateClose(value: real)
    ensures -1.0 / 200000.0 < RoundCoordinate(value) - value <= 1.0 / 200000.0
  {
    var k := Round(value * 100000.0);
    assert value * 100000.0 - 0.5 < k as real <= value * 100000.0 + 0.5;
  }

  /** A rounded coordinate is already rounded. */
  lemma RoundCoordinateIdempotent(value: real)
    ensures RoundCoordinate(RoundCoordinate(value)) == RoundCoordinate(value)
  {
    var k := Round(value * 100000.0);
    var c := k as real / 100000.0;
    assert RoundCoordinate(value) == c;
    assert c * 100000.0 == k as real;
    RoundInteger(k);
    assert RoundCoordinate(c) == Round(k as real) as real / 100000.0;
  }

  lemma RoundInteger(k: int)
    ensures Round(k as real) == k
  {
    var j := Round(k as real);
    assert k as real - 0.5 < j as real <= k as real + 0.5;
  }

  function RoundPoint(p: Position): Position
  {
    Position(RoundCoordinate(p.x), RoundCoordinate(p.y))
  }

  /** `ring.map(roundPoint)`. */
  function RoundRing(ring: Ring): (r: Ring)
    ensures |r| == |ring| && forall i :: 0 <= i < |ring| ==> r[i] == RoundPoint(ring[i])
  {
    seq(|ring|, i requires 0 <= i < |ring| => RoundPoint(ring[i]))
  }

  /** `pointsEqual`: both coordinates are equal. */
  predicate PointsEqual(left: Position, right: Position)
  {
    left.x == right.x && left.y == right.y
  }

  lemma PointsEqualIsEquality(left: Position, right: Position)
    ensures PointsEqual(left, right) <==> left == right
  {
  }

  /** `dropClosingPoint`: the last point removed when there are at least two and it repeats the first. */
  function DropClosingPoint(ring: Ring): (r: Ring)
    ensures |r| <= |ring| && r == ring[..|r|]
    ensures |r| == |ring| - 1 <==> |ring| >= 2 && ring[0] == ring[|ring| - 1]
    ensures |r| != |ring| - 1 ==> r == ring
  {
    if |ring| < 2 then ring
    else if PointsEqual(ring[0], ring[|ring| - 1]) then ring[..|ring| - 1] else ring
  }

  /** `ring.filter((_, index) => index % step === 0)`. */
  function IndexFilter(ring: Ring, step: nat): Ring
    requires step > 0
  {
    if |ring| == 0 then []
    else IndexFilter(ring[..|ring| - 1], step) + (if (|ring| - 1) % step == 0 then [ring[|ring| - 1]] else [])
  }

  lemma MulMonotone(a: int, b: int, c: int)
    requires c >= 0
    ensures a <= b ==> a * c <= b * c
  {
    assert b * c - a * c == (b - a) * c;
  }

  lemma MulCancel(a: int, b: int, c: int)
    requires c > 0
    ensures a * c < b * c ==> a < b
    ensures a * c <= b * c ==> a <= b
  {
    MulMonotone(b, a, c);
    MulMonotone(b + 1, a, c);
    assert (b + 1) * c == b * c + c;
  }

  /** Between the multiples `(c - 1) * step` and `c * step`, only the upper one is divisible by `step`. */
  lemma ModZeroAt(x: nat, c: int, step: nat)
    requires step > 0 && (c - 1) * step < x <= c * step
    ensures x % step == 0 <==> x == c * step
  {
    var q := x / step;
    var r := x % step;
    assert x == q * step + r;
    if r == 0 {
      MulCancel(c - 1, q, step);
      MulCancel(q, c, step);
    }
    if x == c * step {
      MulCancel(q, c, step);
      assert (q + 1) * step == q * step + step;
      MulCancel(c, q + 1, step);
    }
  }

  /**
   * The filter keeps every `step`-th point, starting with the first: as
   * many as `ceil(n / step)`, the least count whose multiple of `step`
   * reaches the length.
   */
  lemma {:induction false} IndexFilterSpaced(ring: Ring, step: nat)
    requires step > 0
    ensures var kept := IndexFilter(ring, step);
      (|kept| - 1) * step < |ring| <= |kept| * step &&
      forall i :: 0 <= i < |kept| ==> 0 <= i * step < |ring| && kept[i] == ring[i * step]
  {
    var n := |ring|;
    if n > 0 {
      var init := ring[..n - 1];
      IndexFilterSpaced(init, step);
      IndexFilterStep(ring, step);
    }
  }

  /** The first point is always kept. */
  lemma {:induction false} IndexFilterFirst(ring: Ring, step: nat)
    requires step > 0 && |ring| > 0
    ensures |IndexFilter(ring, step)| > 0 && IndexFilter(ring, step)[0] == ring[0]
  {
    var init := ring[..|ring| - 1];
    if |init| > 0 {
      IndexFilterFirst(init, step);
      assert init[0] == ring[0];
    }
  }

  lemma MulSucc(c: int, step: int)
    ensures (c + 1) * step == c * step + step && (c - 1) * step == c * step - step
  {
  }

  /** One more point: it is kept exactly when its index is the next multiple of `step`. */
  lemma IndexFilterLast(ring: Ring, step: nat)
    requires step > 0 && |ring| > 0
    requires var c := |IndexFilter(ring[..|ring| - 1], step)|; (c - 1) * step < |ring| - 1 <= c * step
    ensures var before := IndexFilter(ring[..|ring| - 1], step);
      IndexFilter(ring, step) == before + (if |before| * step == |ring| - 1 then [ring[|ring| - 1]] else [])
  {
    ModZeroAt(|ring| - 1, |IndexFilter(ring[..|ring| - 1], step)|, step);
  }

  /** So the spacing carries over from a ring to the ring with one more point. */
  lemma IndexFilterStep(ring: Ring, step: nat)
    requires step > 0 && |ring| > 0
    requires var kept := IndexFilter(ring[..|ring| - 1], step);
      (|kept| - 1) * step < |ring| - 1 <= |kept| * step &&
      forall i :: 0 <= i < |kept| ==> 0 <= i * step < |ring| - 1 && kept[i] == ring[..|ring| - 1][i * step]
    ensures var kept := IndexFilter(ring, step);
      (|kept| - 1) * step < |ring| <= |kept| * step &&
      forall i :: 0 <= i < |kept| ==> 0 <= i * step < |ring| && kept[i] == ring[i * step]
  {
    var n := |ring|;
    var init := ring[..n - 1];
    var before := IndexFilter(init, step);
    var c := |before|;
    IndexFilterLast(ring, step);
    MulSucc(c, step);
    var kept := IndexFilter(ring, step);
    if c * step == n - 1 {
      assert kept == before + [ring[n - 1]];
      forall i | 0 <= i < |kept| ensures 0 <= i * step < n && kept[i] == ring[i * step] {
        if i < c {
          var point := before[i];
          assert 0 <= i * step < n - 1 && point == init[i * step];
        } else {
          assert i == c;
        }
      }
    } else {
      assert kept == before;
      forall i | 0 <= i < |kept| ensures 0 <= i * step < n && kept[i] == ring[i * step] {
        var point := before[i];
        assert 0 <= i * step < n - 1 && point == init[i * step];
      }
    }
  }

  /** `Math.max(1, Math.ceil(m / 220))`. */
  function QueryStep(m: nat): (r: nat)
    ensures r >= 1
  {
    var ceiling := (m + 219) / 220;
    if ceiling > 1 then ceiling else 1
  }

  /** The step is the least that keeps at most 220 points: `m <= 220 * step`, and `3 * step <= m` once `m >= 240`. */
  lemma QueryStepBounds(m: nat)
    ensures m <= 220 * QueryStep(m)
    ensures m >= 240 ==> 3 * QueryStep(m) <= m
  {
    var ceiling := (m + 219) / 220;
    assert ceiling * 220 + (m + 219) % 220 == m + 219;
  }

  /** So the filter keeps at most 220 points of such a ring, and at least 3 once it has 240. */
  lemma KeptCount(without: Ring)
    ensures var kept := IndexFilter(without, QueryStep(|without|));
      |kept| <= 220 && (|without| >= 240 ==> |kept| >= 3)
  {
    var step := QueryStep(|without|);
    var count := |IndexFilter(without, step)|;
    IndexFilterSpaced(without, step);
    QueryStepBounds(|without|);
    MulCancel(count - 1, 220, step);
    MulCancel(3, count, step);
  }

  /**
   * The query ring `simplifyRingForQuery` builds: a ring of at most 240
   * points rounded point by point; a longer one without its closing point,
   * every `step`-th point kept, the last point added when it was not kept,
   * rounded and closed with the first point (the first four points instead,
   * should that give fewer than four).
   */
  function SimplifiedRing(ring: Ring): Ring
  {
    if |ring| <= 240 then RoundRing(ring)
    else
      var without := DropClosingPoint(ring);
      var kept := IndexFilter(without, QueryStep(|without|));
      var last := without[|without| - 1];
      var simplified := if |kept| > 0 && PointsEqual(kept[|kept| - 1], last) then kept else kept + [last];
      var closed := RoundRing(simplified) + [RoundPoint(without[0])];
      if |closed| >= 4 then closed else RoundRing(Take(ring, 4))
  }

  /** `simplifyRingForQuery`: the filter, then the conditional push, then the closing point. */
  method SimplifyRingForQuery(ring: Ring) returns (r: Ring)
    ensures r == SimplifiedRing(ring)
    ensures |ring| <= 240 ==> |r| == |ring| && forall i :: 0 <= i < |ring| ==> r[i] == RoundPoint(ring[i])
    ensures |ring| > 240 ==> 4 <= |r| <= 222 && r[0] == r[|r| - 1] == RoundPoint(ring[0])
  {
    if |ring| <= 240 {
      ShortRingRounded(ring);
      return RoundRing(ring);
    }
    var withoutClosingPoint := DropClosingPoint(ring);
    var step := QueryStep(|withoutClosingPoint|);
    var simplified := IndexFilter(withoutClosingPoint, step);
    var lastPoint := withoutClosingPoint[|withoutClosingPoint| - 1];
    var firstPoint := withoutClosingPoint[0];
    if !(|simplified| > 0 && PointsEqual(simplified[|simplified| - 1], lastPoint)) {
      simplified := simplified + [lastPoint];
    }
    var closedRing := RoundRing(simplified) + [RoundPoint(firstPoint)];
    r := if |closedRing| >= 4 then closedRing else RoundRing(Take(ring, 4));
    LongRingSimplified(ring);
  }

  /** A ring of at most 240 points keeps its length and is rounded point by point. */
  lemma ShortRingRounded(ring: Ring)
    requires |ring| <= 240
    ensures |SimplifiedRing(ring)| == |ring|
    ensures forall i :: 0 <= i < |ring| ==> SimplifiedRing(ring)[i] == RoundPoint(ring[i])
  {
  }

  /**
   * A longer ring becomes a closed ring of 4 to 222 points: the rounded
   * points the filter kept (every `step`-th one, by `IndexFilterSpaced`),
   * the last non-closing point when it was not the last kept, and the
   * first point again.
   */
  lemma LongRingSimplified(ring: Ring)
    requires |ring| > 240
    ensures var r := SimplifiedRing(ring);
      var without := DropClosingPoint(ring);
      var kept := IndexFilter(without, QueryStep(|without|));
      var count := |kept|;
      3 <= count <= 220 && 4 <= |r| <= 222 &&
      r[0] == r[|r| - 1] && r[|r| - 1] == RoundPoint(ring[0]) &&
      (forall i :: 0 <= i < count ==> r[i] == RoundPoint(kept[i])) &&
      (|r| == count + 1 || |r| == count + 2) &&
      (|r| == count + 1 <==> kept[count - 1] == without[|without| - 1]) &&
      (|r| == count + 2 ==> r[count] == RoundPoint(without[|without| - 1]))
  {
    var without := DropClosingPoint(ring);
    var kept := IndexFilter(without, QueryStep(|without|));
    var count := |kept|;
    var last := without[|without| - 1];
    assert |without| >= 240;
    KeptCount(without);
    IndexFilterFirst(without, QueryStep(|without|));
    assert kept[0] == without[0] == ring[0];
    var simplified := if PointsEqual(kept[count - 1], last) then kept else kept + [last];
    var closed := RoundRing(simplified) + [RoundPoint(without[0])];
    assert |closed| >= 4;
    assert SimplifiedRing(ring) == closed;
    forall i | 0 <= i < count ensures closed[i] == RoundPoint(kept[i]) {
      assert simplified[i] == kept[i];
    }
  }

  /** The query geometry: the simplified rings in spatial reference 4326. */
  datatype PolygonQuery = PolygonQuery(rings: seq<Ring>, wkid: int)

  const NoPolygon := "A polygon boundary is required to build an ArcGIS geometry query."
  const NotPolygon := "Only Polygon county boundaries are supported for ArcGIS geometry queries."

  /** `buildPolygonQueryGeometry`: an error unless the boundary is a Polygon, else one simplified ring per ring. */
  function BuildPolygonQueryGeometry(feature: Option<Feature>): (r: Result<PolygonQuery>)
    ensures (feature.None? || feature.value.geometry.None?) ==> r == Failure(NoPolygon)
    ensures feature.Some? && feature.value.geometry.Some? && !feature.value.geometry.value.Polygon? ==> r == Failure(NotPolygon)
    ensures r.Success? <==> feature.Some? && feature.value.geometry.Some? && feature.value.geometry.value.Polygon?
    ensures r.Success? ==>
      var rings := feature.value.geometry.value.rings;
      r.value.wkid == 4326 && |r.value.rings| == |rings| &&
      forall i :: 0 <= i < |rings| ==> r.value.rings[i] == SimplifiedRing(rings[i])
  {
    if feature.None? || feature.value.geometry.None? then Failure(NoPolygon)
    else if !feature.value.geometry.value.Polygon? then Failure(NotPolygon)
    else
      var rings := feature.value.geometry.value.rings;
      Success(PolygonQuery(seq(|rings|, i requires 0 <= i < |rings| => SimplifiedRing(rings[i])), 4326))
  }
}
