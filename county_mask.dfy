/**
 * The geometry helpers of the map module: the shoelace signed area, ring
 * orientation, the world-plus-county mask polygon and the flattening of a
 * geometry into its vertices.
 */
module CountyMask {
  import opened Geo

  function Cross(a: Position, b: Position): real
  {
    a.x * b.y - b.x * a.y
  }

  /** The sum of `x_i * y_{i+1} - x_{i+1} * y_i` over consecutive pairs, with no wrap-around. */
  function ShoelaceSum(ring: Ring): real
  {
    if |ring| < 2 then 0.0 else Cross(ring[0], ring[1]) + ShoelaceSum(ring[1..])
  }

  /** Half the shoelace sum: negative for a clockwise ring. */
  function SignedArea(ring: Ring): real
  {
    ShoelaceSum(ring) / 2.0
  }

  /** `calculateSignedArea`: the index loop accumulating `area`, halved at the end. */
  method CalculateSignedArea(ring: Ring) returns (area: real)
    ensures area == SignedArea(ring)
  {
    var sum := 0.0;
    var index := 0;
    while index < |ring| - 1
      invariant 0 <= index <= |ring|
      invariant |ring| > 0 ==> index <= |ring| - 1
      invariant sum + ShoelaceSum(ring[index..]) == ShoelaceSum(ring)
    {
      assert ring[index..][1..] == ring[index + 1..];
      sum := sum + (ring[index].x * ring[index + 1].y - ring[index + 1].x * ring[index].y);
      index := index + 1;
    }
    area := sum / 2.0;
  }

  /** `[...ring].reverse()`. */
  function Reverse(ring: Ring): (r: Ring)
    ensures |r| == |ring|
    ensures forall i :: 0 <= i < |ring| ==> r[i] == ring[|ring| - 1 - i]
  {
    seq(|ring|, i requires 0 <= i < |ring| => ring[|ring| - 1 - i])
  }

  lemma ReverseReverse(ring: Ring)
    ensures Reverse(Reverse(ring)) == ring
  {
  }

  lemma {:induction false} ShoelaceSnoc(s: Ring, p: Position)
    requires |s| >= 1
    ensures ShoelaceSum(s + [p]) == ShoelaceSum(s) + Cross(s[|s| - 1], p)
  {
    if |s| >= 2 {
      assert (s + [p])[1..] == s[1..] + [p];
      ShoelaceSnoc(s[1..], p);
    }
  }

  /** Reversing a ring negates its signed area. */
  lemma {:induction false} ShoelaceReverse(ring: Ring)
    ensures ShoelaceSum(Reverse(ring)) == -ShoelaceSum(ring)
  {
    if |ring| >= 2 {
      var tail := ring[1..];
      assert Reverse(ring) == Reverse(tail) + [ring[0]];
      ShoelaceReverse(tail);
      ShoelaceSnoc(Reverse(tail), ring[0]);
      assert Reverse(tail)[|tail| - 1] == ring[1];
    }
  }

  datatype Direction = Clockwise | Counterclockwise

  /** `normalizeRingOrientation`: clockwise means a negative signed area; a ring of the other sense is reversed. */
  function NormalizeRingOrientation(ring: Ring, target: Direction): (r: Ring)
    ensures r == ring || r == Reverse(ring)
  {
    var isClockwise := SignedArea(ring) < 0.0;
    var wantsClockwise := target == Clockwise;
    if isClockwise == wantsClockwise then ring else Reverse(ring)
  }

  /** A ring with a nonzero area comes out in the requested direction, still with a nonzero area. */
  lemma NormalizeReachesDirection(ring: Ring, target: Direction)
    requires SignedArea(ring) != 0.0
    ensures var r := NormalizeRingOrientation(ring, target);
      SignedArea(r) != 0.0 && (SignedArea(r) < 0.0 <==> target == Clockwise)
  {
    ShoelaceReverse(ring);
  }

  /** For a ring with a nonzero area, normalising twice is normalising once. */
  lemma NormalizeIdempotent(ring: Ring, target: Direction)
    requires SignedArea(ring) != 0.0
    ensures NormalizeRingOrientation(NormalizeRingOrientation(ring, target), target) == NormalizeRingOrientation(ring, target)
  {
    NormalizeReachesDirection(ring, target);
  }

  /**
   * A ring with zero area counts as counterclockwise: asking for
   * counterclockwise keeps it, asking for clockwise reverses it on every call.
   */
  lemma NormalizeZeroArea(ring: Ring)
    requires SignedArea(ring) == 0.0
    ensures NormalizeRingOrientation(ring, Counterclockwise) == ring
    ensures NormalizeRingOrientation(ring, Clockwise) == Reverse(ring)
    ensures NormalizeRingOrientation(NormalizeRingOrientation(ring, Clockwise), Clockwise) == ring
  {
    ShoelaceReverse(ring);
    ReverseReverse(ring);
  }

  /** The world ring the mask is cut from. */
  const WorldRing: Ring := [Position(-180.0, -85.0), Position(180.0, -85.0), Position(180.0, 85.0), Position(-180.0, 85.0), Position(-180.0, -85.0)]

  lemma WorldRingArea()
    ensures SignedArea(WorldRing) == 61200.0
  {
    var w := WorldRing;
    assert w[1..][1..][1..][1..] == [w[4]];
    assert ShoelaceSum(w[1..][1..][1..]) == Cross(w[3], w[4]);
    assert ShoelaceSum(w[1..][1..]) == Cross(w[2], w[3]) + Cross(w[3], w[4]);
    assert ShoelaceSum(w[1..]) == Cross(w[1], w[2]) + Cross(w[2], w[3]) + Cross(w[3], w[4]);
  }

  /** The county rings as the mask uses them: the first counterclockwise, the others clockwise. */
  function MaskCountyRings(rings: seq<Ring>): (r: seq<Ring>)
    ensures |r| == |rings|
    ensures forall i :: 0 <= i < |rings| ==>
      r[i] == NormalizeRingOrientation(rings[i], if i == 0 then Counterclockwise else Clockwise)
    ensures forall i :: 0 <= i < |rings| ==> r[i] == rings[i] || r[i] == Reverse(rings[i])
  {
    seq(|rings|, i requires 0 <= i < |rings| =>
      NormalizeRingOrientation(rings[i], if i == 0 then Counterclockwise else Clockwise))
  }

  /**
   * `buildCountyMask`: the empty collection unless the first feature has a
   * Polygon geometry; otherwise one Polygon feature with empty properties
   * whose rings are the clockwise world ring and then the county's rings.
   */
  function BuildCountyMask(collection: seq<Feature>): (r: seq<Feature>)
    ensures |r| <= 1
    ensures r == [] <==> (|collection| == 0 || !collection[0].geometry.Some? || !collection[0].geometry.value.Polygon?)
    ensures r != [] ==>
      (r[0].properties == [] && r[0].geometry.Some? && r[0].geometry.value.Polygon? &&
       |r[0].geometry.value.rings| == 1 + |collection[0].geometry.value.rings|)
    ensures r != [] ==>
      var county := collection[0].geometry.value.rings;
      var rings := r[0].geometry.value.rings;
      rings == [NormalizeRingOrientation(WorldRing, Clockwise)] + MaskCountyRings(county) &&
      (rings[0] == WorldRing || rings[0] == Reverse(WorldRing)) &&
      forall i :: 1 <= i < |rings| ==> rings[i] == county[i - 1] || rings[i] == Reverse(county[i - 1])
  {
    if |collection| == 0 then []
    else
      match collection[0].geometry
      case Some(Polygon(rings)) =>
        [Feature(Some(Polygon([NormalizeRingOrientation(WorldRing, Clockwise)] + MaskCountyRings(rings))), [])]
      case _ => []
  }

  /** The world ring comes out clockwise. */
  lemma MaskWorldRing()
    ensures SignedArea(NormalizeRingOrientation(WorldRing, Clockwise)) == -61200.0
  {
    WorldRingArea();
    ShoelaceReverse(WorldRing);
  }

  /** The county ring at `i` comes out counterclockwise when it is the first, clockwise otherwise. */
  lemma MaskCountyRingAt(rings: seq<Ring>, i: nat)
    requires i < |rings| && SignedArea(rings[i]) != 0.0
    ensures var r := MaskCountyRings(rings)[i];
      SignedArea(r) != 0.0 && (SignedArea(r) < 0.0 <==> i > 0)
  {
    NormalizeReachesDirection(rings[i], if i == 0 then Counterclockwise else Clockwise);
  }

  /**
   * The mask is a donut: its world ring is clockwise, and when the county's
   * rings have nonzero areas the outer county ring is counterclockwise and
   * every later ring clockwise.
   */
  lemma MaskOrientation(collection: seq<Feature>)
    requires BuildCountyMask(collection) != []
    requires forall i :: 0 <= i < |collection[0].geometry.value.rings| ==> SignedArea(collection[0].geometry.value.rings[i]) != 0.0
    ensures var rings := BuildCountyMask(collection)[0].geometry.value.rings;
      SignedArea(rings[0]) == -61200.0 &&
      forall i :: 1 <= i < |rings| ==> (SignedArea(rings[i]) < 0.0 <==> i > 1) && SignedArea(rings[i]) != 0.0
  {
    var county := collection[0].geometry.value.rings;
    var mask := MaskCountyRings(county);
    var rings := [NormalizeRingOrientation(WorldRing, Clockwise)] + mask;
    assert BuildCountyMask(collection)[0].geometry.value.rings == rings;
    MaskWorldRing();
    forall i | 1 <= i < |rings| ensures (SignedArea(rings[i]) < 0.0 <==> i > 1) && SignedArea(rings[i]) != 0.0 {
      assert rings[i] == mask[i - 1];
      MaskCountyRingAt(county, i - 1);
    }
  }

  /** A vertex of a geometry, by its GeoJSON type. */
  ghost predicate IsVertex(g: Geometry, p: Position)
  {
    match g
    case Point(c) => p == c
    case LineString(line) => p in line
    case MultiLineString(lines) => exists i :: 0 <= i < |lines| && p in lines[i]
    case Polygon(rings) => exists i :: 0 <= i < |rings| && p in rings[i]
    case MultiPolygon(polygons) => exists i, j :: 0 <= i < |polygons| && 0 <= j < |polygons[i]| && p in polygons[i][j]
    case OtherGeometry(_) => false
  }

  /**
   * `flattenCoordinates`: a Point gives `[coords]`, a LineString itself,
   * a Polygon or MultiLineString one level flattened, a MultiPolygon two,
   * anything else nothing.
   */
  function FlattenCoordinates(g: Geometry): (r: seq<Position>)
    ensures forall p :: p in r <==> IsVertex(g, p)
  {
    match g
    case Point(c) => [c]
    case LineString(line) => line
    case MultiLineString(lines) => FlattenVertices(lines)
    case Polygon(rings) => FlattenVertices(rings)
    case MultiPolygon(polygons) =>
      forall p ensures p in Flatten(Flatten(polygons)) <==> IsVertex(g, p) {
        FlattenTwiceMember(polygons, p);
      }
      Flatten(Flatten(polygons))
    case OtherGeometry(_) => []
  }

  function FlattenVertices(lines: seq<seq<Position>>): (r: seq<Position>)
    ensures forall p :: p in r <==> exists i :: 0 <= i < |lines| && p in lines[i]
  {
    forall p ensures p in Flatten(lines) <==> exists i :: 0 <= i < |lines| && p in lines[i] {
      FlattenMember(lines, p);
    }
    Flatten(lines)
  }
}
