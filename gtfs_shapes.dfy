/**
 * The two GTFS passes that turn trips and shape points into route lines:
 * the choice of one representative shape per route (the shape most trips
 * of that route use) and the grouping of `shapes.txt` points by shape,
 * each group ordered by its point sequence numbers.
 */
module GtfsShapes {
  import opened Geo
  import opened Text
  import opened Sorting
  import opened Gtfs

  // ---------------------------------------------------------------------
  // Routes by id
  // ---------------------------------------------------------------------

  /** The `route_id` of each route row, in file order. */
  function RouteIds(routes: seq<Row>): (r: seq<Option<string>>)
    ensures |r| == |routes|
    ensures forall k :: 0 <= k < |routes| ==> r[k] == Field(routes[k], "route_id")
  {
    seq(|routes|, k requires 0 <= k < |routes| => Field(routes[k], "route_id"))
  }

  /** `new Map(routes.map((route) => [route.route_id, route]))`: a later row with the same id replaces an earlier one. */
  function RouteMap(routes: seq<Row>): (r: map<Option<string>, Row>)
    ensures forall id :: id in r <==> id in RouteIds(routes)
  {
    if |routes| == 0 then map[]
    else
      var init := routes[..|routes| - 1];
      assert RouteIds(routes) == RouteIds(init) + [Field(routes[|routes| - 1], "route_id")];
      RouteMap(init)[Field(routes[|routes| - 1], "route_id") := routes[|routes| - 1]]
  }

  /** The map is empty exactly when there are no route rows, the case `main` rejects. */
  lemma RouteMapEmpty(routes: seq<Row>)
    ensures |RouteMap(routes)| == 0 <==> |routes| == 0
  {
    if |routes| > 0 {
      assert RouteIds(routes)[0] in RouteMap(routes);
    }
  }

  /** The row a route id maps to is the last row with that id. */
  lemma {:induction false} RouteMapLastRow(routes: seq<Row>, id: Option<string>) returns (k: nat)
    requires id in RouteMap(routes)
    ensures k < |routes| && routes[k] == RouteMap(routes)[id] && Field(routes[k], "route_id") == id
    ensures forall j :: k < j < |routes| ==> Field(routes[j], "route_id") != id
  {
    var n := |routes|;
    var init := routes[..n - 1];
    var last := Field(routes[n - 1], "route_id");
    assert RouteMap(routes) == RouteMap(init)[last := routes[n - 1]];
    if last == id {
      k := n - 1;
    } else {
      k := RouteMapLastRow(init, id);
      assert routes[k] == init[k];
      forall j | k < j < n ensures Field(routes[j], "route_id") != id {
        if j < n - 1 {
          assert routes[j] == init[j];
        }
      }
    }
  }

  // ---------------------------------------------------------------------
  // Trip tallies
  // ---------------------------------------------------------------------

  datatype ShapeCount = ShapeCount(shapeId: string, count: nat)

  /** The shape tallies of one route, in the order the shapes were first met. */
  datatype RouteShapes = RouteShapes(routeId: Option<string>, shapes: seq<ShapeCount>)

  /** A trip is tallied when its route is a known route and it names a non-empty shape. */
  predicate Counted(trip: Row, selected: map<Option<string>, Row>)
  {
    Field(trip, "route_id") in selected && Field(trip, "shape_id").Some? && Field(trip, "shape_id").value != ""
  }

  /** The reference count: tallied trips of route `routeId` that use shape `shapeId`. */
  function TripCount(trips: seq<Row>, selected: map<Option<string>, Row>, routeId: Option<string>, shapeId: string): nat
  {
    if |trips| == 0 then 0
    else
      var last := trips[|trips| - 1];
      TripCount(trips[..|trips| - 1], selected, routeId, shapeId) +
        (if Counted(last, selected) && Field(last, "route_id") == routeId && Field(last, "shape_id") == Some(shapeId) then 1 else 0)
  }

  /** A trip of an unknown route, or one with a blank shape id, is never tallied. */
  lemma {:induction false} UncountedTripsIgnored(trips: seq<Row>, selected: map<Option<string>, Row>, routeId: Option<string>)
    ensures routeId !in selected ==> forall s :: TripCount(trips, selected, routeId, s) == 0
    ensures TripCount(trips, selected, routeId, "") == 0
  {
    if |trips| > 0 {
      UncountedTripsIgnored(trips[..|trips| - 1], selected, routeId);
    }
  }

  function CountOf(shapes: seq<ShapeCount>, shapeId: string): nat
  {
    if |shapes| == 0 then 0
    else if shapes[0].shapeId == shapeId then shapes[0].count
    else CountOf(shapes[1..], shapeId)
  }

  predicate HasShape(shapes: seq<ShapeCount>, shapeId: string)
  {
    |shapes| > 0 && (shapes[0].shapeId == shapeId || HasShape(shapes[1..], shapeId))
  }

  predicate DistinctShapes(shapes: seq<ShapeCount>)
  {
    |shapes| == 0 || (!HasShape(shapes[1..], shapes[0].shapeId) && DistinctShapes(shapes[1..]))
  }

  predicate PositiveCounts(shapes: seq<ShapeCount>)
  {
    |shapes| == 0 || (shapes[0].count >= 1 && PositiveCounts(shapes[1..]))
  }

  lemma {:induction false} HasShapeAt(shapes: seq<ShapeCount>, k: nat)
    requires k < |shapes|
    ensures HasShape(shapes, shapes[k].shapeId)
  {
    if k > 0 {
      HasShapeAt(shapes[1..], k - 1);
    }
  }

  lemma {:induction false} PositiveAt(shapes: seq<ShapeCount>, k: nat)
    requires PositiveCounts(shapes) && k < |shapes|
    ensures shapes[k].count >= 1
  {
    if k > 0 {
      PositiveAt(shapes[1..], k - 1);
    }
  }

  /** `routeShapes.set(shapeId, (routeShapes.get(shapeId) ?? 0) + 1)`: a known shape's tally goes up by one, a new shape is appended with 1. */
  function BumpShape(shapes: seq<ShapeCount>, shapeId: string): (r: seq<ShapeCount>)
    ensures |r| > 0
    ensures forall s :: CountOf(r, s) == CountOf(shapes, s) + (if s == shapeId then 1 else 0)
    ensures forall s :: HasShape(r, s) <==> HasShape(shapes, s) || s == shapeId
    ensures PositiveCounts(shapes) ==> PositiveCounts(r)
    ensures DistinctShapes(shapes) ==> DistinctShapes(r)
    ensures HasShape(shapes, shapeId) ==> |r| == |shapes| && forall k :: 0 <= k < |r| ==> r[k].shapeId == shapes[k].shapeId
    ensures !HasShape(shapes, shapeId) ==> r == shapes + [ShapeCount(shapeId, 1)]
  {
    if |shapes| == 0 then
      var r := [ShapeCount(shapeId, 1)];
      assert r[1..] == [];
      r
    else if shapes[0].shapeId == shapeId then
      var r := [shapes[0].(count := shapes[0].count + 1)] + shapes[1..];
      assert r[1..] == shapes[1..];
      r
    else
      var tail := BumpShape(shapes[1..], shapeId);
      var r := [shapes[0]] + tail;
      assert r[1..] == tail;
      r
  }

  /** With distinct ids, every listed tally is the count of its shape. */
  lemma {:induction false} CountOfListed(shapes: seq<ShapeCount>, k: nat)
    requires DistinctShapes(shapes) && k < |shapes|
    ensures CountOf(shapes, shapes[k].shapeId) == shapes[k].count
  {
    if k > 0 {
      HasShapeAt(shapes[1..], k - 1);
      CountOfListed(shapes[1..], k - 1);
    }
  }

  /** An unlisted shape has count 0; a listed one has one of the listed tallies. */
  lemma {:induction false} CountOfSomeEntry(shapes: seq<ShapeCount>, shapeId: string)
    ensures CountOf(shapes, shapeId) == 0 || exists k :: 0 <= k < |shapes| && shapes[k].count == CountOf(shapes, shapeId)
  {
    if |shapes| > 0 && shapes[0].shapeId != shapeId {
      CountOfSomeEntry(shapes[1..], shapeId);
      if CountOf(shapes, shapeId) != 0 {
        var k :| 0 <= k < |shapes[1..]| && shapes[1..][k].count == CountOf(shapes, shapeId);
        assert shapes[k + 1].count == CountOf(shapes, shapeId);
      }
    }
  }

  /** The shape tallies of `routeId`, or none. */
  function RouteShapesOf(table: seq<RouteShapes>, routeId: Option<string>): seq<ShapeCount>
  {
    if |table| == 0 then []
    else if table[0].routeId == routeId then table[0].shapes
    else RouteShapesOf(table[1..], routeId)
  }

  predicate HasRoute(table: seq<RouteShapes>, routeId: Option<string>)
  {
    |table| > 0 && (table[0].routeId == routeId || HasRoute(table[1..], routeId))
  }

  /** One entry per route, each listing distinct shapes with positive tallies. */
  predicate WellFormedTable(table: seq<RouteShapes>)
  {
    |table| == 0 ||
    (!HasRoute(table[1..], table[0].routeId) &&
     |table[0].shapes| > 0 && PositiveCounts(table[0].shapes) && DistinctShapes(table[0].shapes) &&
     WellFormedTable(table[1..]))
  }

  lemma {:induction false} HasRouteAt(table: seq<RouteShapes>, k: nat)
    requires k < |table|
    ensures HasRoute(table, table[k].routeId)
  {
    if k > 0 {
      HasRouteAt(table[1..], k - 1);
    }
  }

  /** In a well-formed table every entry is well formed and no two entries share a route. */
  lemma {:induction false} WellFormedAt(table: seq<RouteShapes>, i: nat, j: nat)
    requires WellFormedTable(table) && i < j < |table|
    ensures table[i].routeId != table[j].routeId
  {
    if i > 0 {
      WellFormedAt(table[1..], i - 1, j - 1);
    } else {
      HasRouteAt(table[1..], j - 1);
    }
  }

  lemma {:induction false} EntryWellFormed(table: seq<RouteShapes>, k: nat)
    requires WellFormedTable(table) && k < |table|
    ensures |table[k].shapes| > 0 && PositiveCounts(table[k].shapes) && DistinctShapes(table[k].shapes)
  {
    if k > 0 {
      EntryWellFormed(table[1..], k - 1);
    }
  }

  /** The tally update of one trip, in the route's entry, a new route appended at the end. */
  function BumpRoute(table: seq<RouteShapes>, routeId: Option<string>, shapeId: string): (r: seq<RouteShapes>)
    requires WellFormedTable(table)
    ensures WellFormedTable(r)
    ensures forall id :: RouteShapesOf(r, id) == if id == routeId then BumpShape(RouteShapesOf(table, routeId), shapeId) else RouteShapesOf(table, id)
    ensures forall id :: HasRoute(r, id) <==> HasRoute(table, id) || id == routeId
    ensures HasRoute(table, routeId) ==> |r| == |table| && forall k :: 0 <= k < |r| ==> r[k].routeId == table[k].routeId
    ensures !HasRoute(table, routeId) ==> r == table + [RouteShapes(routeId, [ShapeCount(shapeId, 1)])]
  {
    if |table| == 0 then
      var r := [RouteShapes(routeId, [ShapeCount(shapeId, 1)])];
      assert r[1..] == [];
      assert [ShapeCount(shapeId, 1)][1..] == [];
      assert PositiveCounts([ShapeCount(shapeId, 1)]);
      assert DistinctShapes([ShapeCount(shapeId, 1)]);
      r
    else if table[0].routeId == routeId then
      var r := [table[0].(shapes := BumpShape(table[0].shapes, shapeId))] + table[1..];
      assert r[1..] == table[1..];
      r
    else
      var tail := BumpRoute(table[1..], routeId, shapeId);
      var r := [table[0]] + tail;
      assert r[1..] == tail;
      r
  }

  /** In a well-formed table a route's entry is its shape list. */
  lemma {:induction false} RouteShapesOfEntry(table: seq<RouteShapes>, k: nat)
    requires WellFormedTable(table) && k < |table|
    ensures RouteShapesOf(table, table[k].routeId) == table[k].shapes
  {
    if k > 0 {
      HasRouteAt(table[1..], k - 1);
      RouteShapesOfEntry(table[1..], k - 1);
    }
  }

  /** An absent route has no tallies. */
  lemma {:induction false} RouteShapesOfAbsent(table: seq<RouteShapes>, routeId: Option<string>)
    requires !HasRoute(table, routeId)
    ensures RouteShapesOf(table, routeId) == []
  {
    if |table| > 0 {
      RouteShapesOfAbsent(table[1..], routeId);
    }
  }

  /** A listed route has an entry with that id. */
  lemma {:induction false} HasRouteIndex(table: seq<RouteShapes>, routeId: Option<string>) returns (k: nat)
    requires HasRoute(table, routeId)
    ensures k < |table| && table[k].routeId == routeId
  {
    if table[0].routeId == routeId {
      k := 0;
    } else {
      k := HasRouteIndex(table[1..], routeId);
      k := k + 1;
    }
  }

  /**
   * The `shapeCountsByRoute` pass over the trips: one entry per route with a
   * tallied trip, in first-seen order, and every tally equal to the
   * reference count.
   */
  function ShapeCountsByRoute(trips: seq<Row>, selected: map<Option<string>, Row>): (table: seq<RouteShapes>)
    ensures WellFormedTable(table)
    ensures forall id :: HasRoute(table, id) ==> id in selected
    ensures forall id, s :: CountOf(RouteShapesOf(table, id), s) == TripCount(trips, selected, id, s)
  {
    if |trips| == 0 then []
    else
      var init := trips[..|trips| - 1];
      var trip := trips[|trips| - 1];
      var table := ShapeCountsByRoute(init, selected);
      if Counted(trip, selected) then BumpRoute(table, Field(trip, "route_id"), Field(trip, "shape_id").value)
      else table
  }

  /** A route has an entry exactly when some tallied trip uses it. */
  lemma RouteListedIffTripped(trips: seq<Row>, selected: map<Option<string>, Row>, routeId: Option<string>)
    ensures var table := ShapeCountsByRoute(trips, selected);
      HasRoute(table, routeId) <==> exists s :: TripCount(trips, selected, routeId, s) > 0
  {
    var table := ShapeCountsByRoute(trips, selected);
    if HasRoute(table, routeId) {
      var k := HasRouteIndex(table, routeId);
      RouteShapesOfEntry(table, k);
      EntryWellFormed(table, k);
      var first := table[k].shapes[0];
      CountOfListed(table[k].shapes, 0);
      PositiveAt(table[k].shapes, 0);
      assert RouteShapesOf(table, routeId) == table[k].shapes;
      assert CountOf(RouteShapesOf(table, routeId), first.shapeId) >= 1;
      assert TripCount(trips, selected, routeId, first.shapeId) > 0;
    } else {
      RouteShapesOfAbsent(table, routeId);
      forall s ensures TripCount(trips, selected, routeId, s) == 0 {
        assert CountOf(RouteShapesOf(table, routeId), s) == 0;
      }
    }
  }

  /** The trip is tallied for `routeId`. */
  predicate RouteTrip(trip: Row, selected: map<Option<string>, Row>, routeId: Option<string>)
  {
    Counted(trip, selected) && Field(trip, "route_id") == routeId
  }

  /** The position of the first tallied trip of `routeId`, or `|trips|` when there is none. */
  function FirstRouteTrip(trips: seq<Row>, selected: map<Option<string>, Row>, routeId: Option<string>): (r: nat)
    ensures r <= |trips|
    ensures r < |trips| ==> RouteTrip(trips[r], selected, routeId)
    ensures forall t :: 0 <= t < r && t < |trips| ==> !RouteTrip(trips[t], selected, routeId)
  {
    if |trips| == 0 then 0
    else
      var init := trips[..|trips| - 1];
      var f := FirstRouteTrip(init, selected, routeId);
      assert forall t :: 0 <= t < |init| ==> init[t] == trips[t];
      if f < |init| then f
      else if RouteTrip(trips[|init|], selected, routeId) then |init|
      else |trips|
  }

  /** The trip is tallied for `routeId` and uses `shapeId`. */
  predicate ShapeTrip(trip: Row, selected: map<Option<string>, Row>, routeId: Option<string>, shapeId: string)
  {
    RouteTrip(trip, selected, routeId) && Field(trip, "shape_id") == Some(shapeId)
  }

  /** The position of the first tallied trip of `routeId` using `shapeId`, or `|trips|` when there is none. */
  function FirstShapeTrip(trips: seq<Row>, selected: map<Option<string>, Row>, routeId: Option<string>, shapeId: string): (r: nat)
    ensures r <= |trips|
    ensures r < |trips| ==> ShapeTrip(trips[r], selected, routeId, shapeId)
    ensures forall t :: 0 <= t < r && t < |trips| ==> !ShapeTrip(trips[t], selected, routeId, shapeId)
  {
    if |trips| == 0 then 0
    else
      var init := trips[..|trips| - 1];
      var f := FirstShapeTrip(init, selected, routeId, shapeId);
      assert forall t :: 0 <= t < |init| ==> init[t] == trips[t];
      if f < |init| then f
      else if ShapeTrip(trips[|init|], selected, routeId, shapeId) then |init|
      else |trips|
  }

  /**
   * Routes listed exactly when they have a tallied trip, in the order of
   * their first tallied trip.
   */
  ghost predicate RoutesInFirstSeenOrder(table: seq<RouteShapes>, trips: seq<Row>, selected: map<Option<string>, Row>)
  {
    (forall id :: HasRoute(table, id) <==> FirstRouteTrip(trips, selected, id) < |trips|) &&
    (forall i, j :: 0 <= i < j < |table| ==>
      FirstRouteTrip(trips, selected, table[i].routeId) < FirstRouteTrip(trips, selected, table[j].routeId))
  }

  /**
   * Shapes listed exactly when a tallied trip of `routeId` uses them, in the
   * order of the first such trip.
   */
  ghost predicate ShapesInFirstSeenOrder(shapes: seq<ShapeCount>, trips: seq<Row>, selected: map<Option<string>, Row>, routeId: Option<string>)
  {
    (forall s :: HasShape(shapes, s) <==> FirstShapeTrip(trips, selected, routeId, s) < |trips|) &&
    (forall a, b :: 0 <= a < b < |shapes| ==>
      FirstShapeTrip(trips, selected, routeId, shapes[a].shapeId) < FirstShapeTrip(trips, selected, routeId, shapes[b].shapeId))
  }

  /** The first tallied trip of a route after one trip more. */
  lemma FirstRouteTripSnoc(trips: seq<Row>, selected: map<Option<string>, Row>, id: Option<string>)
    requires |trips| > 0
    ensures var n := |trips| - 1;
      var f := FirstRouteTrip(trips[..n], selected, id);
      FirstRouteTrip(trips, selected, id) == if f < n then f else if RouteTrip(trips[n], selected, id) then n else n + 1
  {
  }

  /** The first trip of a route using a shape after one trip more. */
  lemma FirstShapeTripSnoc(trips: seq<Row>, selected: map<Option<string>, Row>, routeId: Option<string>, s: string)
    requires |trips| > 0
    ensures var n := |trips| - 1;
      var f := FirstShapeTrip(trips[..n], selected, routeId, s);
      FirstShapeTrip(trips, selected, routeId, s) == if f < n then f else if ShapeTrip(trips[n], selected, routeId, s) then n else n + 1
  {
  }

  /**
   * One trip more keeps the routes in first-seen order, given how the bump
   * changed the table: a new route goes last, otherwise every place keeps
   * its route.
   */
  lemma RoutesFirstSeenStep(before: seq<RouteShapes>, after: seq<RouteShapes>, trips: seq<Row>, selected: map<Option<string>, Row>)
    requires |trips| > 0
    requires RoutesInFirstSeenOrder(before, trips[..|trips| - 1], selected)
    requires var trip := trips[|trips| - 1];
      forall x :: HasRoute(after, x) <==> HasRoute(before, x) || RouteTrip(trip, selected, x)
    requires var trip := trips[|trips| - 1];
      Counted(trip, selected) && !HasRoute(before, Field(trip, "route_id")) ==>
        after == before + [RouteShapes(Field(trip, "route_id"), [ShapeCount(Field(trip, "shape_id").value, 1)])]
    requires var trip := trips[|trips| - 1];
      !(Counted(trip, selected) && !HasRoute(before, Field(trip, "route_id"))) ==>
        |after| == |before| && forall k :: 0 <= k < |after| ==> after[k].routeId == before[k].routeId
    ensures RoutesInFirstSeenOrder(after, trips, selected)
  {
    var n := |trips| - 1;
    var init := trips[..n];
    var trip := trips[n];
    var id := Field(trip, "route_id");
    forall i | 0 <= i < |before| ensures FirstRouteTrip(trips, selected, before[i].routeId) == FirstRouteTrip(init, selected, before[i].routeId) < n {
      HasRouteAt(before, i);
      FirstRouteTripSnoc(trips, selected, before[i].routeId);
    }
    forall x ensures HasRoute(after, x) <==> FirstRouteTrip(trips, selected, x) < |trips| {
      FirstRouteTripSnoc(trips, selected, x);
    }
    if Counted(trip, selected) && !HasRoute(before, id) {
      FirstRouteTripSnoc(trips, selected, id);
      forall i, j | 0 <= i < j < |after|
        ensures FirstRouteTrip(trips, selected, after[i].routeId) < FirstRouteTrip(trips, selected, after[j].routeId)
      {
        assert after[i] == before[i];
        if j < |before| {
          assert after[j] == before[j];
        }
      }
    }
  }

  /**
   * One trip more keeps a route's shapes in first-seen order, given how the
   * bump changed them: a new shape goes last, otherwise every place keeps
   * its shape.
   */
  lemma ShapesFirstSeenStep(before: seq<ShapeCount>, after: seq<ShapeCount>, trips: seq<Row>, selected: map<Option<string>, Row>,
                            routeId: Option<string>, shapeId: string)
    requires |trips| > 0
    requires ShapesInFirstSeenOrder(before, trips[..|trips| - 1], selected, routeId)
    requires var trip := trips[|trips| - 1];
      RouteTrip(trip, selected, routeId) ==> Field(trip, "shape_id") == Some(shapeId)
    requires var trip := trips[|trips| - 1];
      forall x :: HasShape(after, x) <==> HasShape(before, x) || ShapeTrip(trip, selected, routeId, x)
    requires var trip := trips[|trips| - 1];
      RouteTrip(trip, selected, routeId) && !HasShape(before, shapeId) ==> after == before + [ShapeCount(shapeId, 1)]
    requires var trip := trips[|trips| - 1];
      !(RouteTrip(trip, selected, routeId) && !HasShape(before, shapeId)) ==>
        |after| == |before| && forall k :: 0 <= k < |after| ==> after[k].shapeId == before[k].shapeId
    ensures ShapesInFirstSeenOrder(after, trips, selected, routeId)
  {
    var n := |trips| - 1;
    var init := trips[..n];
    var trip := trips[n];
    forall a | 0 <= a < |before|
      ensures FirstShapeTrip(trips, selected, routeId, before[a].shapeId) == FirstShapeTrip(init, selected, routeId, before[a].shapeId) < n
    {
      HasShapeAt(before, a);
      FirstShapeTripSnoc(trips, selected, routeId, before[a].shapeId);
    }
    forall x ensures HasShape(after, x) <==> FirstShapeTrip(trips, selected, routeId, x) < |trips| {
      FirstShapeTripSnoc(trips, selected, routeId, x);
    }
    if RouteTrip(trip, selected, routeId) && !HasShape(before, shapeId) {
      FirstShapeTripSnoc(trips, selected, routeId, shapeId);
      forall a, b | 0 <= a < b < |after|
        ensures FirstShapeTrip(trips, selected, routeId, after[a].shapeId) < FirstShapeTrip(trips, selected, routeId, after[b].shapeId)
      {
        assert after[a] == before[a];
        if b < |before| {
          assert after[b] == before[b];
        }
      }
    }
  }

  /**
   * The routes of the tally are the routes with a tallied trip, listed in
   * the order of their first tallied trip, as a `Map` keeps insertion order.
   */
  lemma {:induction false} TallyRoutesFirstSeen(trips: seq<Row>, selected: map<Option<string>, Row>)
    ensures RoutesInFirstSeenOrder(ShapeCountsByRoute(trips, selected), trips, selected)
  {
    if |trips| > 0 {
      var init := trips[..|trips| - 1];
      var trip := trips[|trips| - 1];
      var before := ShapeCountsByRoute(init, selected);
      TallyRoutesFirstSeen(init, selected);
      RoutesFirstSeenStep(before, ShapeCountsByRoute(trips, selected), trips, selected);
    }
  }

  /**
   * Within each route, the shapes of the tally are the shapes its tallied
   * trips use, listed in the order of the first trip using each.
   */
  lemma {:induction false} TallyShapesFirstSeen(trips: seq<Row>, selected: map<Option<string>, Row>, routeId: Option<string>)
    ensures ShapesInFirstSeenOrder(RouteShapesOf(ShapeCountsByRoute(trips, selected), routeId), trips, selected, routeId)
  {
    if |trips| > 0 {
      var init := trips[..|trips| - 1];
      var trip := trips[|trips| - 1];
      var table := ShapeCountsByRoute(init, selected);
      var before := RouteShapesOf(table, routeId);
      var after := RouteShapesOf(ShapeCountsByRoute(trips, selected), routeId);
      var shapeId := if Field(trip, "shape_id").Some? then Field(trip, "shape_id").value else "";
      TallyShapesFirstSeen(init, selected, routeId);
      if RouteTrip(trip, selected, routeId) {
        assert after == BumpShape(before, shapeId);
      } else {
        assert after == before;
      }
      ShapesFirstSeenStep(before, after, trips, selected, routeId, shapeId);
    }
  }

  /** In shapes kept in first-seen order, a shape first used before the shape at `k` is listed before it. */
  lemma EarlierFirstTripListedBefore(shapes: seq<ShapeCount>, trips: seq<Row>, selected: map<Option<string>, Row>,
                                     routeId: Option<string>, k: nat, s: string) returns (m: nat)
    requires ShapesInFirstSeenOrder(shapes, trips, selected, routeId) && k < |shapes|
    requires FirstShapeTrip(trips, selected, routeId, s) < FirstShapeTrip(trips, selected, routeId, shapes[k].shapeId)
    ensures m < k && shapes[m].shapeId == s
  {
    m := HasShapeIndex(shapes, s);
    assert FirstShapeTrip(trips, selected, routeId, shapes[m].shapeId) < FirstShapeTrip(trips, selected, routeId, shapes[k].shapeId);
  }

  // ---------------------------------------------------------------------
  // The representative shape
  // ---------------------------------------------------------------------

  /** The comparator `right[1] - left[1]`: the tally with more trips goes first. */
  predicate MoreTrips(left: ShapeCount, right: ShapeCount)
  {
    left.count > right.count
  }

  lemma MoreTripsIsStrictWeakOrder(shapes: seq<ShapeCount>)
    ensures StrictWeakOrder(shapes, MoreTrips)
  {
  }

  /** `[...shapeCounts.entries()].sort(...)[0]`. */
  function ChooseShape(shapes: seq<ShapeCount>): ShapeCount
    requires |shapes| > 0
  {
    assert |multiset(SortBy(shapes, MoreTrips))| == |shapes|;
    SortBy(shapes, MoreTrips)[0]
  }

  /** The shape chosen for a route, and how many of the route's trips use it. */
  datatype Choice = Choice(routeId: Option<string>, shapeId: string, tripsUsingShape: nat)

  /** Every tallied route has at least one shape. */
  ghost predicate ShapesListed(table: seq<RouteShapes>)
  {
    forall i :: 0 <= i < |table| ==> |table[i].shapes| > 0
  }

  /** The first shape of each route's sorted tallies, route by route. */
  function ChooseShapes(table: seq<RouteShapes>): (r: seq<Choice>)
    requires ShapesListed(table)
    ensures |r| == |table|
    ensures forall i :: 0 <= i < |r| ==> r[i].routeId == table[i].routeId
  {
    seq(|table|, i requires 0 <= i < |table| =>
      var c := ChooseShape(table[i].shapes);
      Choice(table[i].routeId, c.shapeId, c.count))
  }

  lemma WellFormedShapesListed(table: seq<RouteShapes>)
    requires WellFormedTable(table)
    ensures ShapesListed(table)
  {
    forall i | 0 <= i < |table| ensures |table[i].shapes| > 0 {
      EntryWellFormed(table, i);
    }
  }

  /** `pickRepresentativeShapes` as a value: one choice per tallied route, in first-seen route order. */
  function RepresentativeShapes(trips: seq<Row>, selected: map<Option<string>, Row>): (r: seq<Choice>)
    ensures |r| == |ShapeCountsByRoute(trips, selected)|
    ensures forall i :: 0 <= i < |r| ==> r[i].routeId == ShapeCountsByRoute(trips, selected)[i].routeId
  {
    var table := ShapeCountsByRoute(trips, selected);
    WellFormedShapesListed(table);
    ChooseShapes(table)
  }

  /** The choice at `i` is the head of the sorted tallies of the route at `i`. */
  lemma RepresentativeAt(trips: seq<Row>, selected: map<Option<string>, Row>, i: nat)
    requires i < |ShapeCountsByRoute(trips, selected)|
    ensures var entry := ShapeCountsByRoute(trips, selected)[i];
      |entry.shapes| > 0 &&
      RepresentativeShapes(trips, selected)[i] ==
        Choice(entry.routeId, ChooseShape(entry.shapes).shapeId, ChooseShape(entry.shapes).count)
  {
    EntryWellFormed(ShapeCountsByRoute(trips, selected), i);
  }

  /**
   * Each choice is a known route and the shape its trips use most: the
   * reported tally is that shape's trip count, no shape of the route is used
   * by more trips, and every shape tallied before it has strictly fewer, so
   * a tie goes to the shape met first; `k` is its place in the route's tallies.
   */
  lemma ChoiceIsMostUsed(trips: seq<Row>, selected: map<Option<string>, Row>, i: nat) returns (k: nat)
    requires i < |RepresentativeShapes(trips, selected)|
    ensures var c := RepresentativeShapes(trips, selected)[i];
      var shapes := ShapeCountsByRoute(trips, selected)[i].shapes;
      c.routeId in selected &&
      c.tripsUsingShape >= 1 &&
      TripCount(trips, selected, c.routeId, c.shapeId) == c.tripsUsingShape &&
      (forall s :: TripCount(trips, selected, c.routeId, s) <= c.tripsUsingShape) &&
      k < |shapes| && shapes[k].shapeId == c.shapeId &&
      forall j :: 0 <= j < k ==> TripCount(trips, selected, c.routeId, shapes[j].shapeId) < c.tripsUsingShape
  {
    var table := ShapeCountsByRoute(trips, selected);
    var c := RepresentativeShapes(trips, selected)[i];
    var shapes := table[i].shapes;
    HasRouteAt(table, i);
    RouteShapesOfEntry(table, i);
    EntryWellFormed(table, i);
    MoreTripsIsStrictWeakOrder(shapes);
    k := SortByHead(shapes, MoreTrips);
    assert c.shapeId == shapes[k].shapeId && c.tripsUsingShape == shapes[k].count;
    CountOfListed(shapes, k);
    PositiveAt(shapes, k);
    forall s ensures TripCount(trips, selected, c.routeId, s) <= c.tripsUsingShape {
      CountOfSomeEntry(shapes, s);
      if CountOf(shapes, s) != 0 {
        var m :| 0 <= m < |shapes| && shapes[m].count == CountOf(shapes, s);
        assert shapes[m] in shapes;
      }
    }
    forall j | 0 <= j < k ensures TripCount(trips, selected, c.routeId, shapes[j].shapeId) < c.tripsUsingShape {
      CountOfListed(shapes, j);
      EntryWellFormed(table, i);
    }
  }

  /** A listed shape has an entry with that id. */
  lemma {:induction false} HasShapeIndex(shapes: seq<ShapeCount>, shapeId: string) returns (k: nat)
    requires HasShape(shapes, shapeId)
    ensures k < |shapes| && shapes[k].shapeId == shapeId
  {
    if shapes[0].shapeId == shapeId {
      k := 0;
    } else {
      k := HasShapeIndex(shapes[1..], shapeId);
      k := k + 1;
    }
  }

  /**
   * The tie-break in terms of the trips: a shape of the route whose first
   * trip comes before the first trip of the chosen shape is used by strictly
   * fewer trips, so among equally used shapes the one met first wins.
   */
  lemma TieGoesToFirstUsed(trips: seq<Row>, selected: map<Option<string>, Row>, i: nat, s: string)
    requires i < |RepresentativeShapes(trips, selected)|
    ensures var c := RepresentativeShapes(trips, selected)[i];
      FirstShapeTrip(trips, selected, c.routeId, s) < FirstShapeTrip(trips, selected, c.routeId, c.shapeId) ==>
        TripCount(trips, selected, c.routeId, s) < c.tripsUsingShape
  {
    var table := ShapeCountsByRoute(trips, selected);
    var c := RepresentativeShapes(trips, selected)[i];
    var k := ChoiceIsMostUsed(trips, selected, i);
    var shapes := table[i].shapes;
    RouteShapesOfEntry(table, i);
    TallyShapesFirstSeen(trips, selected, c.routeId);
    if FirstShapeTrip(trips, selected, c.routeId, s) < FirstShapeTrip(trips, selected, c.routeId, c.shapeId) {
      var m := EarlierFirstTripListedBefore(shapes, trips, selected, c.routeId, k, s);
    }
  }

  /** The choices come route by route, in the order of each route's first tallied trip. */
  lemma ChoicesInFirstSeenOrder(trips: seq<Row>, selected: map<Option<string>, Row>)
    ensures var r := RepresentativeShapes(trips, selected);
      forall i, j :: 0 <= i < j < |r| ==>
        FirstRouteTrip(trips, selected, r[i].routeId) < FirstRouteTrip(trips, selected, r[j].routeId)
  {
    TallyRoutesFirstSeen(trips, selected);
  }

  /** Every known route with a tallied trip gets a choice. */
  lemma ChoicesCoverRoutes(trips: seq<Row>, selected: map<Option<string>, Row>, routeId: Option<string>, shapeId: string)
    requires TripCount(trips, selected, routeId, shapeId) > 0
    ensures exists i :: 0 <= i < |RepresentativeShapes(trips, selected)| && RepresentativeShapes(trips, selected)[i].routeId == routeId
  {
    var table := ShapeCountsByRoute(trips, selected);
    RouteListedIffTripped(trips, selected, routeId);
    var k := HasRouteIndex(table, routeId);
    assert RepresentativeShapes(trips, selected)[k].routeId == routeId;
  }

  /** No route gets two choices. */
  lemma ChoicesDistinctRoutes(trips: seq<Row>, selected: map<Option<string>, Row>, i: nat, j: nat)
    requires i < j < |RepresentativeShapes(trips, selected)|
    ensures RepresentativeShapes(trips, selected)[i].routeId != RepresentativeShapes(trips, selected)[j].routeId
  {
    WellFormedAt(ShapeCountsByRoute(trips, selected), i, j);
  }

  /** The first pass of `pickRepresentativeShapes`: every trip tallied in file order. */
  method TallyShapes(trips: seq<Row>, selected: map<Option<string>, Row>) returns (shapeCountsByRoute: seq<RouteShapes>)
    ensures shapeCountsByRoute == ShapeCountsByRoute(trips, selected)
  {
    shapeCountsByRoute := [];
    for index := 0 to |trips|
      invariant shapeCountsByRoute == ShapeCountsByRoute(trips[..index], selected)
    {
      assert trips[..index + 1][..index] == trips[..index];
      var trip := trips[index];
      if Counted(trip, selected) {
        shapeCountsByRoute := BumpRoute(shapeCountsByRoute, Field(trip, "route_id"), Field(trip, "shape_id").value);
      }
    }
    assert trips[..|trips|] == trips;
  }

  /** The second pass of `pickRepresentativeShapes`: each route's tallies sorted and the first kept. */
  method ChooseEachRoute(table: seq<RouteShapes>) returns (chosen: seq<Choice>)
    requires ShapesListed(table)
    ensures chosen == ChooseShapes(table)
  {
    chosen := [];
    for index := 0 to |table|
      invariant |chosen| == index
      invariant forall j :: 0 <= j < index ==> chosen[j] == ChooseShapes(table)[j]
    {
      var entry := table[index];
      var first := ChooseShape(entry.shapes);
      chosen := chosen + [Choice(entry.routeId, first.shapeId, first.count)];
    }
  }

  /** `pickRepresentativeShapes`: tally every trip, then sort each route's tallies and keep the first. */
  method PickRepresentativeShapes(trips: seq<Row>, selected: map<Option<string>, Row>) returns (chosen: seq<Choice>)
    ensures chosen == RepresentativeShapes(trips, selected)
  {
    var shapeCountsByRoute := TallyShapes(trips, selected);
    WellFormedShapesListed(shapeCountsByRoute);
    chosen := ChooseEachRoute(shapeCountsByRoute);
  }

  // ---------------------------------------------------------------------
  // Shape points
  // ---------------------------------------------------------------------

  /** One row of `shapes.txt`; `None` is the NaN that `Number` gives for a missing or malformed field. */
  datatype ShapePoint = ShapePoint(lat: Option<real>, lon: Option<real>, sequence: Option<real>)

  /** `values[columns[name]]`: `undefined` when the header lacks the column or the line is short. */
  function ColumnValue(values: seq<string>, columns: map<string, nat>, name: string): Option<string>
  {
    if name in columns && columns[name] < |values| then Some(values[columns[name]]) else None
  }

  function PointOf(values: seq<string>, columns: map<string, nat>): ShapePoint
  {
    ShapePoint(NumberOf(ColumnValue(values, columns, "shape_pt_lat")),
               NumberOf(ColumnValue(values, columns, "shape_pt_lon")),
               NumberOf(ColumnValue(values, columns, "shape_pt_sequence")))
  }

  function LineShapeId(line: string, columns: map<string, nat>): Option<string>
  {
    ColumnValue(Fields(line, false), columns, "shape_id")
  }

  /** The reference: the points of the non-blank lines naming `shapeId`, in file order. */
  function PointsOfShape(lines: seq<string>, columns: map<string, nat>, shapeId: string): seq<ShapePoint>
  {
    if |lines| == 0 then []
    else
      var last := lines[|lines| - 1];
      PointsOfShape(lines[..|lines| - 1], columns, shapeId) +
        (if last != "" && LineShapeId(last, columns) == Some(shapeId) then [PointOf(Fields(last, false), columns)] else [])
  }

  /** One data line added to the groups: blank lines and unselected or missing shape ids change nothing. */
  function AddLine(m: map<string, seq<ShapePoint>>, line: string, columns: map<string, nat>, selected: set<string>): map<string, seq<ShapePoint>>
  {
    var shapeId := LineShapeId(line, columns);
    if line == "" || shapeId.None? || shapeId.value !in selected then m
    else m[shapeId.value := (if shapeId.value in m then m[shapeId.value] else []) + [PointOf(Fields(line, false), columns)]]
  }

  /** The first pass of `collectShapePoints`: each point appended to its shape's list, unselected shapes skipped. */
  function GroupPoints(lines: seq<string>, columns: map<string, nat>, selected: set<string>): (m: map<string, seq<ShapePoint>>)
    ensures forall s :: s in m <==> s in selected && |PointsOfShape(lines, columns, s)| > 0
    ensures forall s :: s in m ==> m[s] == PointsOfShape(lines, columns, s)
  {
    if |lines| == 0 then map[]
    else AddLine(GroupPoints(lines[..|lines| - 1], columns, selected), lines[|lines| - 1], columns, selected)
  }

  /** The comparator `left.sequence - right.sequence`; a NaN difference counts as a tie. */
  predicate SequenceBefore(left: ShapePoint, right: ShapePoint)
  {
    left.sequence.Some? && right.sequence.Some? && left.sequence.value < right.sequence.value
  }

  function SequenceKey(p: ShapePoint): real
  {
    if p.sequence.Some? then p.sequence.value else 0.0
  }

  /** `collectShapePoints` as a value: the grouped points of every selected shape, each group sorted by sequence. */
  function ShapePointsByShape(shapesText: string, selected: set<string>): (r: map<string, seq<ShapePoint>>)
    ensures r.Keys <= selected
  {
    var lines := CsvLines(shapesText);
    var columns := ColumnLookup(Fields(lines[0], false));
    var grouped := GroupPoints(lines[1..], columns, selected);
    map s | s in grouped :: SortBy(grouped[s], SequenceBefore)
  }

  /** A selected shape has a group exactly when some data line names it, and the group holds exactly that shape's points. */
  lemma ShapePointsGrouped(shapesText: string, selected: set<string>, shapeId: string)
    ensures var lines := CsvLines(shapesText);
      var columns := ColumnLookup(Fields(lines[0], false));
      var points := PointsOfShape(lines[1..], columns, shapeId);
      var r := ShapePointsByShape(shapesText, selected);
      (shapeId in r <==> shapeId in selected && |points| > 0) &&
      (shapeId in r ==> multiset(r[shapeId]) == multiset(points))
  {
  }

  /** A group is in sequence order when every point of the shape has a numeric sequence. */
  lemma ShapePointsSorted(shapesText: string, selected: set<string>, shapeId: string)
    requires shapeId in ShapePointsByShape(shapesText, selected)
    requires var lines := CsvLines(shapesText);
      AllSequenced(PointsOfShape(lines[1..], ColumnLookup(Fields(lines[0], false)), shapeId))
    ensures SortedBy(ShapePointsByShape(shapesText, selected)[shapeId], SequenceKey)
  {
    var lines := CsvLines(shapesText);
    var columns := ColumnLookup(Fields(lines[0], false));
    var points := PointsOfShape(lines[1..], columns, shapeId);
    var grouped := GroupPoints(lines[1..], columns, selected);
    assert ShapePointsByShape(shapesText, selected)[shapeId] == SortBy(grouped[shapeId], SequenceBefore);
    assert grouped[shapeId] == points;
    SequencedKeyOrder(points);
    SortBySorted(points, SequenceBefore, SequenceKey);
  }

  predicate AllSequenced(points: seq<ShapePoint>)
  {
    forall k :: 0 <= k < |points| ==> points[k].sequence.Some?
  }

  lemma SequencedKeyOrder(points: seq<ShapePoint>)
    requires AllSequenced(points)
    ensures LessIsKeyOrder(points, SequenceBefore, SequenceKey)
  {
    forall x, y | x in points && y in points ensures SequenceBefore(x, y) <==> SequenceKey(x) < SequenceKey(y) {
      var i :| 0 <= i < |points| && points[i] == x;
      var j :| 0 <= j < |points| && points[j] == y;
    }
  }

  /** The `lines.forEach` pass of `collectShapePoints`. */
  method GroupShapePoints(lines: seq<string>, columns: map<string, nat>, selectedShapeIds: set<string>) returns (grouped: map<string, seq<ShapePoint>>)
    ensures grouped == GroupPoints(lines, columns, selectedShapeIds)
  {
    grouped := map[];
    for index := 0 to |lines|
      invariant grouped == GroupPoints(lines[..index], columns, selectedShapeIds)
    {
      assert lines[..index + 1][..index] == lines[..index];
      ghost var expected := AddLine(grouped, lines[index], columns, selectedShapeIds);
      var line := lines[index];
      if line != "" {
        var values := SplitCsvLine(line);
        var shapeId := ColumnValue(values, columns, "shape_id");
        if shapeId.Some? && shapeId.value in selectedShapeIds {
          var point := PointOf(values, columns);
          var points := if shapeId.value in grouped then grouped[shapeId.value] else [];
          grouped := grouped[shapeId.value := points + [point]];
        }
      }
      assert grouped == expected;
    }
    assert lines[..|lines|] == lines;
  }

  /** The `pointsByShape.forEach` pass: every group sorted by sequence. */
  method SortShapeGroups(grouped: map<string, seq<ShapePoint>>) returns (pointsByShape: map<string, seq<ShapePoint>>)
    ensures pointsByShape == map s | s in grouped :: SortBy(grouped[s], SequenceBefore)
  {
    pointsByShape := map[];
    var pending := grouped.Keys;
    while pending != {}
      invariant pending <= grouped.Keys
      invariant pointsByShape.Keys == grouped.Keys - pending
      invariant forall s :: s in pointsByShape ==> pointsByShape[s] == SortBy(grouped[s], SequenceBefore)
      decreases pending
    {
      var shapeId :| shapeId in pending;
      pointsByShape := pointsByShape[shapeId := SortBy(grouped[shapeId], SequenceBefore)];
      pending := pending - {shapeId};
    }
  }

  /** `collectShapePoints`: header lookup, grouping pass, sorting pass. */
  method CollectShapePoints(shapesText: string, selectedShapeIds: set<string>) returns (pointsByShape: map<string, seq<ShapePoint>>)
    ensures pointsByShape == ShapePointsByShape(shapesText, selectedShapeIds)
  {
    var lines := CsvLines(shapesText);
    var header := SplitCsvLine(lines[0]);
    var columns := BuildColumnLookup(header);
    var grouped := GroupShapePoints(lines[1..], columns, selectedShapeIds);
    pointsByShape := SortShapeGroups(grouped);
  }
}
