/**
 * Transit route lines: the fallback sketches drawn from the reference
 * streets, the assembly of one LineString per route from the GTFS passes,
 * the deploy-time snapshot build, and the choice between the snapshot,
 * the live feed and the fallback.
 */
module Transit {
  import opened Geo
  import opened Text
  import opened Gtfs
  import opened GtfsShapes
  import opened FocusAreas
  import opened GeometryService

  // ---------------------------------------------------------------------
  // The fallback collection
  // ---------------------------------------------------------------------

  predicate HasTransitRoutes(street: StreetSegment)
  {
    |street.transitRoutes| > 0
  }

  function FallbackId(index: nat): string
  {
    "fallback-route-" + NatToString(index + 1)
  }

  function FallbackProperties(street: StreetSegment, index: nat): Properties
  {
    [Entry("id", Str(FallbackId(index))), Entry("routeShortName", Str(Join(street.transitRoutes, ", "))),
     Entry("routeLongName", Str(street.name)), Entry("stroke", Str("#2a62c9")), Entry("sourceType", Str("fallback"))]
  }

  lemma FallbackPropertiesFacts(street: StreetSegment, index: nat)
    ensures var p := FallbackProperties(street, index);
      Get(p, "id") == Some(Str(FallbackId(index))) &&
      Get(p, "routeShortName") == Some(Str(Join(street.transitRoutes, ", "))) &&
      Get(p, "routeLongName") == Some(Str(street.name)) &&
      Get(p, "sourceType") == Some(Str("fallback"))
  {
    var p := FallbackProperties(street, index);
    GetAt(p, 1);
    GetAt(p, 2);
    GetAt(p, 4);
  }

  /**
   * `transitFallbackGeoJson` over any street list: one LineString per street
   * with transit routes, numbered from 1 in order, naming the street and its
   * routes joined with ", ".
   */
  function FallbackFeatures(streets: seq<StreetSegment>): (r: seq<Feature>)
    ensures var served := Filter(streets, HasTransitRoutes);
      |r| == |served| &&
      forall i :: 0 <= i < |r| ==>
        r[i].geometry == Some(LineString(served[i].geometry)) &&
        Get(r[i].properties, "id") == Some(Str(FallbackId(i))) &&
        Get(r[i].properties, "routeShortName") == Some(Str(Join(served[i].transitRoutes, ", "))) &&
        Get(r[i].properties, "routeLongName") == Some(Str(served[i].name)) &&
        Get(r[i].properties, "sourceType") == Some(Str("fallback"))
  {
    var served := Filter(streets, HasTransitRoutes);
    var r := seq(|served|, i requires 0 <= i < |served| =>
      Feature(Some(LineString(served[i].geometry)), FallbackProperties(served[i], i)));
    forall i | 0 <= i < |r| ensures
        Get(r[i].properties, "id") == Some(Str(FallbackId(i))) &&
        Get(r[i].properties, "routeShortName") == Some(Str(Join(served[i].transitRoutes, ", "))) &&
        Get(r[i].properties, "routeLongName") == Some(Str(served[i].name)) &&
        Get(r[i].properties, "sourceType") == Some(Str("fallback")) {
      FallbackPropertiesFacts(served[i], i);
    }
    r
  }

  /** `NatToString` never gives the same text for two numbers, so fallback ids are distinct. */
  lemma FallbackIdsDistinct(i: nat, j: nat)
    requires i != j
    ensures FallbackId(i) != FallbackId(j)
  {
    IntToStringRoundTrip(i + 1);
    IntToStringRoundTrip(j + 1);
    assert IntToString(i + 1) == NatToString(i + 1) by { assert "" + NatToString(i + 1) == NatToString(i + 1); }
    assert IntToString(j + 1) == NatToString(j + 1) by { assert "" + NatToString(j + 1) == NatToString(j + 1); }
    var prefix := "fallback-route-";
    assert FallbackId(i)[|prefix|..] == NatToString(i + 1);
    assert FallbackId(j)[|prefix|..] == NatToString(j + 1);
  }

  /** `transitFallbackGeoJson`: every reference street has a route, so all five become sketches. */
  function TransitFallback(): seq<Feature>
  {
    FallbackFeatures(OfficialStreetSegments)
  }

  lemma TransitFallbackCoversReferenceStreets()
    ensures |TransitFallback()| == |OfficialStreetSegments|
  {
    ReferenceStreetsWellFormed();
    FilterAllKept(OfficialStreetSegments, HasTransitRoutes);
  }

  lemma {:induction false} FilterAllKept<T(!new)>(s: seq<T>, p: T -> bool)
    requires forall i :: 0 <= i < |s| ==> p(s[i])
    ensures Filter(s, p) == s
  {
    if |s| > 0 {
      FilterAllKept(s[1..], p);
      assert s == [s[0]] + s[1..];
    }
  }

  // ---------------------------------------------------------------------
  // Route features from the GTFS passes
  // ---------------------------------------------------------------------

  /** A template literal's text for a field: `undefined` when missing. */
  function TemplateText(v: Option<string>): string
  {
    if v.Some? then v.value else "undefined"
  }

  /** A property whose value may be `undefined`; such a key is left out, as JSON drops it. */
  function OptionalEntry(key: string, v: Option<string>): Properties
  {
    if v.Some? then [Entry(key, Str(v.value))] else []
  }

  function RouteProperties(route: Row, shapeId: string, sourceType: string): Properties
  {
    [Entry("id", Str(TemplateText(Field(route, "route_short_name")) + "-" + shapeId))] +
    OptionalEntry("routeShortName", Field(route, "route_short_name")) +
    OptionalEntry("routeLongName", Field(route, "route_long_name")) +
    [Entry("stroke", Str(NormalizeColor(Field(route, "route_color")))), Entry("sourceType", Str(sourceType))]
  }

  lemma RoutePropertiesFacts(route: Row, shapeId: string, sourceType: string)
    ensures var p := RouteProperties(route, shapeId, sourceType);
      Get(p, "id") == Some(Str(TemplateText(Field(route, "route_short_name")) + "-" + shapeId)) &&
      Get(p, "stroke") == Some(Str(NormalizeColor(Field(route, "route_color")))) &&
      Get(p, "sourceType") == Some(Str(sourceType))
  {
    var p := RouteProperties(route, shapeId, sourceType);
    GetAt(p, 0);
    GetAt(p, |p| - 2);
    GetAt(p, |p| - 1);
  }

  /** `[point.lon, point.lat]` for every point; a point with a NaN coordinate is left out (see README). */
  function Positions(points: seq<ShapePoint>): (r: seq<Position>)
    ensures |r| <= |points|
    ensures (forall k :: 0 <= k < |points| ==> points[k].lat.Some? && points[k].lon.Some?) ==>
      |r| == |points| && forall k :: 0 <= k < |points| ==> r[k] == Position(points[k].lon.value, points[k].lat.value)
  {
    if |points| == 0 then []
    else
      var rest := Positions(points[1..]);
      if points[0].lat.Some? && points[0].lon.Some? then [Position(points[0].lon.value, points[0].lat.value)] + rest
      else rest
  }

  /** A choice becomes a feature when its route is known and its shape has at least two points. */
  predicate Assembles(c: Choice, selected: map<Option<string>, Row>, pointsByShape: map<string, seq<ShapePoint>>)
  {
    c.routeId in selected && c.shapeId in pointsByShape && |pointsByShape[c.shapeId]| >= 2
  }

  function RouteFeature(route: Row, c: Choice, points: seq<ShapePoint>, sourceType: string): Feature
  {
    Feature(Some(LineString(Positions(points))), RouteProperties(route, c.shapeId, sourceType))
  }

  /** The `shapesByRoute.forEach` push: one feature per assembling choice, in choice order. */
  function RouteFeatures(chosen: seq<Choice>, selected: map<Option<string>, Row>,
                         pointsByShape: map<string, seq<ShapePoint>>, sourceType: string): (r: seq<Feature>)
    ensures |r| <= |chosen|
    ensures |r| == 0 <==> forall i :: 0 <= i < |chosen| ==> !Assembles(chosen[i], selected, pointsByShape)
    ensures forall i :: 0 <= i < |r| ==>
      r[i].geometry.Some? && r[i].geometry.value.LineString? && Get(r[i].properties, "sourceType") == Some(Str(sourceType))
  {
    if |chosen| == 0 then []
    else
      var init := chosen[..|chosen| - 1];
      var c := chosen[|chosen| - 1];
      var r := RouteFeatures(init, selected, pointsByShape, sourceType);
      assert forall i :: 0 <= i < |init| ==> init[i] == chosen[i];
      if Assembles(c, selected, pointsByShape) then
        RoutePropertiesFacts(selected[c.routeId], c.shapeId, sourceType);
        r + [RouteFeature(selected[c.routeId], c, pointsByShape[c.shapeId], sourceType)]
      else r
  }

  /** The choices that assemble, in choice order. */
  function AssemblingChoices(chosen: seq<Choice>, selected: map<Option<string>, Row>,
                             pointsByShape: map<string, seq<ShapePoint>>): (r: seq<Choice>)
    ensures forall c :: c in r <==> c in chosen && Assembles(c, selected, pointsByShape)
  {
    Filter(chosen, c => Assembles(c, selected, pointsByShape))
  }

  /** Appending a choice appends it to the assembling ones exactly when it assembles. */
  lemma {:induction false} AssemblingSnoc(init: seq<Choice>, c: Choice, selected: map<Option<string>, Row>,
                                          pointsByShape: map<string, seq<ShapePoint>>)
    ensures AssemblingChoices(init + [c], selected, pointsByShape) ==
      AssemblingChoices(init, selected, pointsByShape) + (if Assembles(c, selected, pointsByShape) then [c] else [])
  {
    if |init| > 0 {
      assert (init + [c])[1..] == init[1..] + [c];
      AssemblingSnoc(init[1..], c, selected, pointsByShape);
    }
  }

  /**
   * The features are exactly the assembling choices, each turned into its
   * route line, in choice order: a choice that does not assemble is skipped
   * and nothing else is dropped or moved.
   */
  lemma {:induction false} RouteFeaturesOfAssembling(chosen: seq<Choice>, selected: map<Option<string>, Row>,
                                                     pointsByShape: map<string, seq<ShapePoint>>, sourceType: string)
    ensures var a := AssemblingChoices(chosen, selected, pointsByShape);
      var r := RouteFeatures(chosen, selected, pointsByShape, sourceType);
      |r| == |a| &&
      forall j :: 0 <= j < |a| ==>
        (Assembles(a[j], selected, pointsByShape) &&
         r[j] == RouteFeature(selected[a[j].routeId], a[j], pointsByShape[a[j].shapeId], sourceType))
  {
    var a := AssemblingChoices(chosen, selected, pointsByShape);
    forall j | 0 <= j < |a| ensures Assembles(a[j], selected, pointsByShape) {
      assert a[j] in a;
    }
    if |chosen| > 0 {
      var init := chosen[..|chosen| - 1];
      var c := chosen[|chosen| - 1];
      assert chosen == init + [c];
      assert forall i :: 0 <= i < |init| ==> init[i] == chosen[i];
      RouteFeaturesOfAssembling(init, selected, pointsByShape, sourceType);
      AssemblingSnoc(init, c, selected, pointsByShape);
    }
  }

  /** When every choice assembles, each one gives its own feature in place. */
  lemma {:induction false} AllChoicesAssemble(chosen: seq<Choice>, selected: map<Option<string>, Row>,
                                               pointsByShape: map<string, seq<ShapePoint>>, sourceType: string)
    requires forall i :: 0 <= i < |chosen| ==> Assembles(chosen[i], selected, pointsByShape)
    ensures var r := RouteFeatures(chosen, selected, pointsByShape, sourceType);
      |r| == |chosen| &&
      forall i :: 0 <= i < |r| ==>
        r[i] == RouteFeature(selected[chosen[i].routeId], chosen[i], pointsByShape[chosen[i].shapeId], sourceType)
  {
    if |chosen| > 0 {
      var init := chosen[..|chosen| - 1];
      var c := chosen[|chosen| - 1];
      assert forall i :: 0 <= i < |init| ==> init[i] == chosen[i];
      AllChoicesAssemble(init, selected, pointsByShape, sourceType);
      assert Assembles(c, selected, pointsByShape);
      var prev := RouteFeatures(init, selected, pointsByShape, sourceType);
      var f := RouteFeature(selected[c.routeId], c, pointsByShape[c.shapeId], sourceType);
      assert RouteFeatures(chosen, selected, pointsByShape, sourceType) == prev + [f];
      forall i | 0 <= i < |prev| + 1
        ensures (prev + [f])[i] == RouteFeature(selected[chosen[i].routeId], chosen[i], pointsByShape[chosen[i].shapeId], sourceType)
      {
        if i < |prev| {
          assert (prev + [f])[i] == prev[i];
        }
      }
    }
  }

  /** The assembly loop of the snapshot build and of the live feed. */
  method AssembleRouteFeatures(chosen: seq<Choice>, selected: map<Option<string>, Row>,
                               pointsByShape: map<string, seq<ShapePoint>>, sourceType: string) returns (features: seq<Feature>)
    ensures features == RouteFeatures(chosen, selected, pointsByShape, sourceType)
  {
    features := [];
    for index := 0 to |chosen|
      invariant features == RouteFeatures(chosen[..index], selected, pointsByShape, sourceType)
    {
      assert chosen[..index + 1][..index] == chosen[..index];
      var entry := chosen[index];
      if entry.routeId !in selected || entry.shapeId !in pointsByShape || |pointsByShape[entry.shapeId]| < 2 {
        continue;
      }
      var route := selected[entry.routeId];
      var shapePoints := pointsByShape[entry.shapeId];
      features := features + [Feature(Some(LineString(Positions(shapePoints))), RouteProperties(route, entry.shapeId, sourceType))];
    }
    assert chosen[..|chosen|] == chosen;
  }

  /**
   * The route of every representative shape is a known route, so the
   * `!route` test of the snapshot build never fires and the live feed, which
   * has no such test, never reads a missing route.
   */
  lemma ChosenRoutesKnown(trips: seq<Row>, selected: map<Option<string>, Row>)
    ensures forall i :: 0 <= i < |RepresentativeShapes(trips, selected)| ==> RepresentativeShapes(trips, selected)[i].routeId in selected
  {
    forall i | 0 <= i < |RepresentativeShapes(trips, selected)| ensures RepresentativeShapes(trips, selected)[i].routeId in selected {
      var _ := ChoiceIsMostUsed(trips, selected, i);
    }
  }

  /** `new Set([...shapesByRoute.values()].map((entry) => entry.shapeId))`. */
  function ChosenShapeIds(chosen: seq<Choice>): (r: set<string>)
    ensures forall s :: s in r <==> exists i :: 0 <= i < |chosen| && chosen[i].shapeId == s
  {
    set i | 0 <= i < |chosen| :: chosen[i].shapeId
  }

  /** The route lines of a GTFS feed before clipping: parse, pick shapes, collect points, assemble. */
  function GtfsRouteFeatures(routesText: string, tripsText: string, shapesText: string, sourceType: string): seq<Feature>
  {
    var selected := RouteMap(ParseCsv(routesText));
    var chosen := RepresentativeShapes(ParseCsv(tripsText), selected);
    RouteFeatures(chosen, selected, ShapePointsByShape(shapesText, ChosenShapeIds(chosen)), sourceType)
  }

  // ---------------------------------------------------------------------
  // The deploy-time snapshot
  // ---------------------------------------------------------------------

  datatype StaticSnapshot = StaticSnapshot(routeCount: nat, source: string, features: seq<Feature>)

  const NoSnapshotRoutes := "No routes were found in the GTFS snapshot."

  /**
   * `main` of the snapshot build: an error when `routes.txt` has no rows,
   * otherwise the assembled lines clipped to the county boundary, counted
   * after clipping.
   */
  function BuildStaticSnapshot(routesText: string, tripsText: string, shapesText: string, boundary: Option<Feature>): (r: Result<StaticSnapshot>)
    ensures r.Failure? <==> |ParseCsv(routesText)| == 0
    ensures r.Failure? ==> r.error == NoSnapshotRoutes
    ensures r.Success? ==>
      r.value.routeCount == |r.value.features| &&
      r.value.features == ConstrainCollectionToCounty(GtfsRouteFeatures(routesText, tripsText, shapesText, "static"), boundary) &&
      forall i :: 0 <= i < |r.value.features| ==>
        r.value.features[i].geometry.Some? && WithinCounty(r.value.features[i].geometry.value, boundary)
  {
    var routes := ParseCsv(routesText);
    var selected := RouteMap(routes);
    RouteMapEmpty(routes);
    if |selected| == 0 then Failure(NoSnapshotRoutes)
    else
      var clipped := ConstrainCollectionToCounty(GtfsRouteFeatures(routesText, tripsText, shapesText, "static"), boundary);
      Success(StaticSnapshot(|clipped|, "WeGo GTFS snapshot generated during deploy.", clipped))
  }

  /** Clipping keeps properties, so every route line of the snapshot is tagged as static. */
  lemma SnapshotFeaturesAreStatic(routesText: string, tripsText: string, shapesText: string, boundary: Option<Feature>, i: nat)
    requires BuildStaticSnapshot(routesText, tripsText, shapesText, boundary).Success?
    requires i < |BuildStaticSnapshot(routesText, tripsText, shapesText, boundary).value.features|
    ensures Get(BuildStaticSnapshot(routesText, tripsText, shapesText, boundary).value.features[i].properties, "sourceType") == Some(Str("static"))
  {
    var features := GtfsRouteFeatures(routesText, tripsText, shapesText, "static");
    ConstrainCollectionKeepsProperties(features, boundary, i);
  }

  // ---------------------------------------------------------------------
  // Choosing the transit source
  // ---------------------------------------------------------------------

  /** What the proxied feed gave: nothing usable (a failed request or a missing file), or the three texts. */
  datatype FeedOutcome = FeedUnavailable | Feed(routesText: string, tripsText: string, shapesText: string)

  /** The `mode` field: `"live"` or `"fallback"`. */
  datatype TransitMode = Live | Fallback

  datatype TransitResponse = TransitResponse(data: seq<Feature>, mode: TransitMode, detail: string)

  const FeedUnreadable := "The transit feed could not be read."
  const NoFeedRoutes := "No routes were found in the GTFS feed."
  const NoFeedShapes := "No route shapes could be assembled from the GTFS feed."

  const NoProxyDetail := "The browser cannot read WeGo's GTFS zip directly because of CORS, and no deploy-time GTFS snapshot was available, so the app is using county-clipped fallback route sketches."
  const NoZipDetail := "JSZip was unavailable, so the app used county-clipped fallback route sketches."
  const LiveDetail := "Routes were drawn from the proxied WeGo GTFS feed and clipped to Davidson County."
  const FeedErrorDetail := "The live GTFS feed could not be parsed, so the app used county-clipped route sketches tied to the local reference streets."

  /** The `try` block of `fetchTransitGeoJson`: the live route lines, or the error that sends it to the fallback. */
  function LiveFeatures(feed: FeedOutcome): (r: Result<seq<Feature>>)
    ensures r.Success? ==> (feed.Feed? && |r.value| > 0 &&
                            r.value == GtfsRouteFeatures(feed.routesText, feed.tripsText, feed.shapesText, "live"))
    ensures feed.FeedUnavailable? ==> r == Failure(FeedUnreadable)
    ensures feed.Feed? && |ParseCsv(feed.routesText)| == 0 ==> r == Failure(NoFeedRoutes)
    ensures feed.Feed? && |ParseCsv(feed.routesText)| > 0 ==>
      var features := GtfsRouteFeatures(feed.routesText, feed.tripsText, feed.shapesText, "live");
      (|features| == 0 ==> r == Failure(NoFeedShapes)) &&
      (|features| > 0 ==> r == Success(features))
  {
    match feed
    case FeedUnavailable => Failure(FeedUnreadable)
    case Feed(routesText, tripsText, shapesText) =>
      RouteMapEmpty(ParseCsv(routesText));
      if |RouteMap(ParseCsv(routesText))| == 0 then Failure(NoFeedRoutes)
      else
        var features := GtfsRouteFeatures(routesText, tripsText, shapesText, "live");
        if |features| == 0 then Failure(NoFeedShapes) else Success(features)
  }

  const SnapshotDetail := "Transit routes came from a deploy-time GTFS snapshot and were clipped to Davidson County."
  const SnapshotDatedPrefix := "Transit routes came from a deploy-time WeGo GTFS snapshot built on "
  const SnapshotDatedSuffix := " and were clipped to Davidson County."

  /** `buildStaticTransitDetail`, given the snapshot date already formatted, or none. */
  function StaticTransitDetail(generatedAt: Option<string>): string
  {
    if generatedAt.None? then SnapshotDetail
    else SnapshotDatedPrefix + generatedAt.value + SnapshotDatedSuffix
  }

  /**
   * `fetchTransitGeoJson`: the snapshot when it has lines and no proxy is
   * configured; without a proxy or without JSZip, the fallback; otherwise
   * the live feed, falling back on any error. Every answer is clipped.
   */
  function FetchTransitGeoJson(staticFeatures: seq<Feature>, generatedAt: Option<string>, proxyConfigured: bool,
                               zipAvailable: bool, feed: FeedOutcome, county: Option<Feature>): (r: TransitResponse)
    ensures r.mode == Fallback ==> r.data == ConstrainCollectionToCounty(TransitFallback(), county)
  {
    if |staticFeatures| > 0 && !proxyConfigured then
      TransitResponse(ConstrainCollectionToCounty(staticFeatures, county), Live, StaticTransitDetail(generatedAt))
    else if !proxyConfigured then
      TransitResponse(ConstrainCollectionToCounty(TransitFallback(), county), Fallback,
        NoProxyDetail)
    else if !zipAvailable then
      TransitResponse(ConstrainCollectionToCounty(TransitFallback(), county), Fallback,
        NoZipDetail)
    else
      match LiveFeatures(feed)
      case Success(features) =>
        TransitResponse(ConstrainCollectionToCounty(features, county), Live,
          LiveDetail)
      case Failure(_) =>
        TransitResponse(ConstrainCollectionToCounty(TransitFallback(), county), Fallback,
          FeedErrorDetail)
  }

  /** The snapshot is used exactly when it has lines and no proxy is configured. */
  lemma SnapshotPreferredWithoutProxy(staticFeatures: seq<Feature>, generatedAt: Option<string>, proxyConfigured: bool,
                                      zipAvailable: bool, feed: FeedOutcome, county: Option<Feature>)
    requires |staticFeatures| > 0 && !proxyConfigured
    ensures var r := FetchTransitGeoJson(staticFeatures, generatedAt, proxyConfigured, zipAvailable, feed, county);
      r.mode == Live && r.data == ConstrainCollectionToCounty(staticFeatures, county) &&
      r.detail == StaticTransitDetail(generatedAt)
  {
  }

  /** With a proxy and JSZip, the live answer is the clipped live lines, and any feed error gives the fallback. */
  lemma LiveFeedOrFallback(staticFeatures: seq<Feature>, generatedAt: Option<string>,
                           feed: FeedOutcome, county: Option<Feature>)
    ensures var r := FetchTransitGeoJson(staticFeatures, generatedAt, true, true, feed, county);
      (LiveFeatures(feed).Success? ==> r.mode == Live && r.data == ConstrainCollectionToCounty(LiveFeatures(feed).value, county)) &&
      (LiveFeatures(feed).Failure? ==> r.mode == Fallback)
  {
  }

  /** Whatever the source, every transit line handed to the map lies in the county. */
  lemma TransitDataWithinCounty(staticFeatures: seq<Feature>, generatedAt: Option<string>, proxyConfigured: bool,
                                zipAvailable: bool, feed: FeedOutcome, county: Option<Feature>)
    ensures var r := FetchTransitGeoJson(staticFeatures, generatedAt, proxyConfigured, zipAvailable, feed, county);
      forall i :: 0 <= i < |r.data| ==> r.data[i].geometry.Some? && WithinCounty(r.data[i].geometry.value, county)
  {
    var r := FetchTransitGeoJson(staticFeatures, generatedAt, proxyConfigured, zipAvailable, feed, county);
    if r.mode == Fallback {
      ClippedWithinCounty(TransitFallback(), county);
    } else if !proxyConfigured {
      SnapshotPreferredWithoutProxy(staticFeatures, generatedAt, proxyConfigured, zipAvailable, feed, county);
      ClippedWithinCounty(staticFeatures, county);
    } else {
      LiveFeedOrFallback(staticFeatures, generatedAt, feed, county);
      ClippedWithinCounty(LiveFeatures(feed).value, county);
    }
  }

  lemma ClippedWithinCounty(features: seq<Feature>, county: Option<Feature>)
    ensures var r := ConstrainCollectionToCounty(features, county);
      forall i :: 0 <= i < |r| ==> r[i].geometry.Some? && WithinCounty(r[i].geometry.value, county)
  {
  }
}
