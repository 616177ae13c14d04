# Davidson County safety atlas — a verified model of its data core

The atlas is a browser dashboard for Davidson County, Tennessee. It draws four live overlays on a county map: crash-ranked areas, Metro streets as the traffic layer, WeGo transit routes, and NDOT intersection projects. Every overlay is clipped to the county boundary.

This project models the logic behind those overlays in Dafny and proves properties of it:

- `GeometryService`: the county clip (`geometryService.js`).
- `CrashService`: crash-score inference (`crashService.js`). It profiles the numeric attributes of an unknown schema, ranks them and picks a severity column. It then normalises scores and builds the top-12 summary.
- `CountyMask`: the ring orientation and the world-minus-county mask (`createMap.js`).
- `ArcGis`: the ArcGIS-to-GeoJSON conversion and the query geometries (`arcgisHelpers.js`).
- `Gtfs` and `GtfsShapes`: the GTFS text handling. This covers the quote-aware CSV splitter, the header lookup, the most-used shape per route, and the grouping and sorting of shape points. It is shared by `transitService.js` and `scripts/build-static-transit.mjs`, whose copies of these helpers are identical and are modelled once.
- `Transit`: the transit fallback collection, the route-line assembly, the static snapshot build, and the source selection in `fetchTransitGeoJson`.
- `Jurisdiction`: the state-route label filter and the first-non-blank label pick (`jurisdictionService.js`).
- `TrafficService`: street normalisation and summary (`trafficService.js`).
- `Dashboard`: the status, count, score-bar, narrative, intersection-list and layer-toggle helpers of `main.js`.
- `State`: the store (`state.js`), as a class whose fields are the current state, the listener set and a log of listener calls.
- `FocusAreas`: the reference catalogue and its GeoJSON conversions (`focusAreas.js`).
- Shared support:
  - `Geo` holds the GeoJSON and JavaScript-object model.
  - `Text` covers strings, numbers, `trim`, `Math.round` and `toFixed(1)`.
  - `Sorting` is a stable insertion sort, standing in for `Array.prototype.sort`.

How JavaScript values are represented:

- Coordinates and scores are reals.
- An object is an ordered list of entries. This keeps JavaScript's key order, which both `Object.entries` and the profile order depend on.
- `undefined` and `NaN` are `None`.
- `Math.round(x)` is `Floor(x + 1/2)`.
- Case-insensitive regular expressions fold ASCII letters only, as they do without the `u` flag.

Where the code differs from its documentation, the model follows the code:

- **County containment.** A point is in the county when it lies inside *any* ring of the boundary. Holes are not subtracted, and rings are not combined by even-odd parity.
- **Mask rings.** The mask orients the first county ring counterclockwise and every later ring clockwise. The documentation describes all county rings as clockwise holes.
- **Service-order score.** This fallback score is not clamped to 0..100: the first of four areas scores 133 (`CrashService.ServiceOrderExceedsHundred`).

## Model

| member | source | states |
|---|---|---|
| GeometryService.Divisor | app/services/geometryService.js:83-85 | the divisor `(y2 - y1) \|\| EPSILON` is never zero |
| GeometryService.PointInRing | app/services/geometryService.js:76-93 | the cursor loop returns exactly the parity of the edges crossing the ray to the right of the point |
| GeometryService.StraddlingEdgeRise | app/services/geometryService.js:83-85 | on every edge the division is reached for, the rise is nonzero, so the EPSILON fallback never takes effect |
| GeometryService.NoCrossingNotInRing | app/services/geometryService.js:80-90 | a ring with no edge crossing the ray does not contain the point |
| GeometryService.CrossingWithinEdge | app/services/geometryService.js:83-86 | the computed crossing longitude lies between the edge's endpoints |
| GeometryService.OutsideBoxNotInRing | app/services/geometryService.js:76-93 | a point strictly below every vertex, at or above every vertex, or at or right of every vertex is outside the ring |
| GeometryService.UnitSquareExamples | app/services/geometryService.js:76-93 | (0.5, 0.5) is inside the closed unit square and (1.5, 0.5) is outside |
| GeometryService.AnyRingContains | app/services/geometryService.js:1-5 | the county test holds iff some ring contains the point; with no rings it is false |
| GeometryService.InsidePoints | app/services/geometryService.js:26-28 | the filtered line is never longer than the line |
| GeometryService.InsidePointsAllInside | app/services/geometryService.js:26-28 | every kept vertex is inside the county |
| GeometryService.InsidePointsOfInside | app/services/geometryService.js:26-28 | a line all of whose vertices are inside is kept whole and in order |
| GeometryService.ClipLines | app/services/geometryService.js:44-46 | the MultiLineString clip never adds sub-lines |
| GeometryService.ClipLinesShape | app/services/geometryService.js:44-46 | every surviving sub-line has at least two vertices, all inside |
| GeometryService.ClipLinesOfClipped | app/services/geometryService.js:44-46 | sub-lines that are already clipped pass unchanged |
| GeometryService.ConstrainFeatureToCounty | app/services/geometryService.js:16-70 | a feature without geometry is dropped; a kept feature keeps its properties and its geometry type and lies in the county; anything that is not a line is kept unchanged or dropped |
| GeometryService.PointKeptIffInside | app/services/geometryService.js:21-23 | a Point is kept unchanged iff it is inside, otherwise dropped |
| GeometryService.LineKeptIffTwoInside | app/services/geometryService.js:25-41 | a LineString is kept iff at least two vertices are inside, and then keeps exactly those vertices in order |
| GeometryService.WithinCountyIsFixed | app/services/geometryService.js:16-74 | a feature already within the county passes the clip unchanged |
| GeometryService.ConstrainFeatureIdempotent | app/services/geometryService.js:16-74 | clipping a clipped feature changes nothing |
| GeometryService.ConstrainCollectionToCounty | app/services/geometryService.js:7-14 | the collection never grows, and every survivor has a geometry lying in the county |
| GeometryService.ConstrainCollectionAppend | app/services/geometryService.js:7-14 | the clip works feature by feature: clipping a concatenation is concatenating the clips, so order is kept |
| GeometryService.ConstrainCollectionKeepsProperties | app/services/geometryService.js:34-40 | every survivor is the clip of an input feature at or after its position and carries that feature's properties |
| GeometryService.ConstrainCollectionIdempotent | app/services/geometryService.js:7-14 | clipping a clipped collection changes nothing |
| CrashService.ObserveSummarises | app/services/crashService.js:148-154 | one more finite value keeps a profile's count, bounds and distinct values a summary of its values |
| CrashService.FirstSummarises | app/services/crashService.js:140-154 | a new profile created from one value summarises that value |
| CrashService.RecordDescribes | app/services/crashService.js:140-156 | recording a value for a key keeps the profile map an exact summary of every key's values |
| CrashService.RecordExistingDescribes | app/services/crashService.js:148-156 | the summary holds for a key that already had a profile |
| CrashService.RecordNewDescribes | app/services/crashService.js:140-156 | the summary holds for a key met for the first time, which goes last in the key order |
| CrashService.RecordEntriesDescribes | app/services/crashService.js:135-157 | scanning one feature's entries keeps the map an exact summary of the finite values seen so far |
| CrashService.RecordEntryDescribes | app/services/crashService.js:136-138 | a finite number is recorded and any other value changes nothing |
| CrashService.CollectTableDescribes | app/services/crashService.js:131-158 | after the scan, every attribute name with a finite value has a profile summarising exactly its values |
| CrashService.NumericProfiles | app/services/crashService.js:131-168 | every profile has count at least 1, min at most max, range = max - min, and a distinct count of at most min(count, 80) |
| CrashService.NumericProfilesSummarise | app/services/crashService.js:131-168 | there is exactly one profile per attribute with a finite value, and each profile's count, bounds and distinct count are those of its values |
| CrashService.ProfileAt | app/services/crashService.js:160-167 | the profile at each position summarises the finite values of its key |
| CrashService.ProfileKeysDistinct | app/services/crashService.js:160-167 | no key has two profiles |
| CrashService.ProfileForKey | app/services/crashService.js:131-168 | every key with a finite value has a profile |
| CrashService.CollectNumericProfiles | app/services/crashService.js:131-168 | the nested update loops compute exactly the profile list the summary lemmas describe |
| CrashService.ScanFeatures | app/services/crashService.js:132-158 | the in-place scan builds the same profile map and key order as the reference fold |
| CrashService.EmitProfiles | app/services/crashService.js:160-167 | one summary per key, in insertion order |
| CrashService.VocabularyBonus | app/services/crashService.js:174-180 | at most one bonus: 140 for severity words, else 120 for rank words, else 70 for count words |
| CrashService.ScoreNumericProfile | app/services/crashService.js:170-191 | the accumulated score is bonus + 2·distinctCount + count + min(40, range), minus 300 for excluded names |
| CrashService.ExcludedScoresLower | app/services/crashService.js:187-189 | an excluded field always scores below a non-excluded one with the same counts and range |
| CrashService.ScoreMonotone | app/services/crashService.js:170-191 | more values, more distinct values or a wider range never lower the score |
| CrashService.BetterIsStrictWeakOrder | app/services/crashService.js:67-80 | the comparator (score, then distinctCount, then count, each descending) is a strict weak order |
| CrashService.RankingPool | app/services/crashService.js:59-67 | when some profile qualifies (not excluded, distinctCount > 1, count ≥ max(5, floor(0.35·n))), the pool holds every qualifying profile and nothing else, in the profiles' own order (the `filter` of the profiles); otherwise it is every profile; it is empty iff there are no profiles |
| CrashService.RankedFirst | app/services/crashService.js:67-82 | the first profile after the ranking sort is a member of the pool |
| CrashService.InferCrashScoreProfile | app/services/crashService.js:57-92 | an inferred profile has a positive range equal to max - min and at least one value |
| CrashService.InferChoosesFirstBest | app/services/crashService.js:57-92 | the inferred profile is the pool's first profile that none beats, flagged rank-like by its name; it is null iff the pool is empty or that profile's range is not positive, whatever the other profiles' ranges |
| CrashService.FirstBestUnique | app/services/crashService.js:67-82 | the first best profile of a pool is unique |
| CrashService.Clamp | app/services/crashService.js:256-258 | the result lies in [lo, hi], equals the value inside the range, and equals the nearer bound outside it |
| CrashService.NormalizeCrashScore | app/services/crashService.js:234-243 | null iff the range is not positive, otherwise an integer in 0..100 |
| CrashService.NormalizeEndpoints | app/services/crashService.js:239-242 | the minimum maps to 0 and the maximum to 100, the other way round for rank-like columns |
| CrashService.NormalizeMonotone | app/services/crashService.js:239-242 | a higher raw value never scores lower, or never higher for a rank-like column |
| CrashService.ScoreTextValue | app/services/crashService.js:246 | the label's number parses back to the raw value when it is an integer, and otherwise to within a twentieth of it |
| CrashService.ReplaceUnderscores | app/services/crashService.js:252 | the text keeps its length and contains no underscore |
| CrashService.FormatCrashScoreLabel | app/services/crashService.js:245-254 | the label ends with the rounded value; a rank-like label starts with "Rank ", and any other label has no underscore before the value |
| CrashService.ColumnValue | app/services/crashService.js:198-201 | a column value exists only with a profile of positive range, and then it is the finite number in that column |
| CrashService.BuildCrashScore | app/services/crashService.js:197-232 | when the column holds a finite value: the score is `NormalizeCrashScore` of that value (so the rank-like inversion and monotonicity proved there carry over), within 0..100, with the raw value, the label and the column name; otherwise all null for an empty list, else the service-order score, index + 1, "Service order N" and "serviceOrder" |
| CrashService.ServiceOrderNonIncreasing | app/services/crashService.js:224 | a later area never gets a higher service-order score |
| CrashService.ServiceOrderExceedsHundred | app/services/crashService.js:224 | the unclamped service-order score of the first of four areas is 133 |
| CrashService.InferLabelKeys | app/services/crashService.js:94-125 | the result holds exactly the preferred label keys that the first feature has |
| CrashService.NormalizeCrashAreas | app/services/crashService.js:26-55 | the filtered areas are never more than the input areas |
| CrashService.NormalizeCrashAreaProperties | app/services/crashService.js:30-45 | an area gets featureIndex = index + 1 and its display name; displayScore, displayScoreRaw, displayScoreLabel and displayScoreSource are the crash score's normalised value, raw value, label and source (null when absent); every other property keeps its value |
| CrashService.NormalizeCrashAreasOrder | app/services/crashService.js:30-54 | each kept area is the normalised form of an input area and passes the jurisdiction test; featureIndex strictly increases along the result and may skip the dropped areas |
| CrashService.CrashAreaKeptIffPasses | app/services/crashService.js:48-54 | the normalised area at each position is in the result exactly when its display name passes the jurisdiction test |
| CrashService.RankedAreas | app/services/crashService.js:261-263 | the ranked areas are a permutation of the scored areas |
| CrashService.RankedAreasOrdered | app/services/crashService.js:261-263 | every ranked area is scored and the scores never increase |
| CrashService.TopFeatures | app/services/crashService.js:265 | at most twelve areas are listed |
| CrashService.BuildCrashSummary | app/services/crashService.js:260-283 | totalAreas is the area count, there are at most 12 top areas, and averageScore is null iff no area is scored |
| CrashService.CrashSummaryTopAreas | app/services/crashService.js:261-281 | with a scored area, the top areas are the first twelve in descending score order; otherwise they are the first twelve areas in input order |
| CrashService.RankedIffScored | app/services/crashService.js:261-265 | some area is ranked iff some area is scored |
| CountyMask.CalculateSignedArea | app/map/createMap.js:517-527 | the loop computes half the shoelace sum over consecutive pairs, with no wrap-around |
| CountyMask.Reverse | app/map/createMap.js:514 | the copy holds the ring's points in reverse order |
| CountyMask.ReverseReverse | app/map/createMap.js:514 | reversing twice gives the ring back |
| CountyMask.ShoelaceSnoc | app/map/createMap.js:520-524 | one more point adds exactly its cross term to the sum |
| CountyMask.ShoelaceReverse | app/map/createMap.js:505-527 | reversing a ring negates its signed area |
| CountyMask.NormalizeRingOrientation | app/map/createMap.js:505-515 | the result is the ring itself or its exact reverse |
| CountyMask.NormalizeReachesDirection | app/map/createMap.js:505-515 | a ring with nonzero area comes out in the requested direction (clockwise means negative area) |
| CountyMask.NormalizeIdempotent | app/map/createMap.js:505-515 | for a ring with nonzero area, normalising twice is normalising once |
| CountyMask.NormalizeZeroArea | app/map/createMap.js:506-514 | a zero-area ring is kept for counterclockwise and reversed on every call for clockwise |
| CountyMask.WorldRingArea | app/map/createMap.js:487-494 | the world ring as written is counterclockwise, with signed area 61200 |
| CountyMask.MaskCountyRings | app/map/createMap.js:474-476 | one ring per county ring: ring i is county ring i oriented counterclockwise for i = 0 and clockwise otherwise, so it is that ring or its reverse |
| CountyMask.BuildCountyMask | app/map/createMap.js:467-503 | empty unless the first feature has a Polygon geometry; otherwise one Polygon with empty properties whose rings are the clockwise world ring followed by `MaskCountyRings` of the county rings, each mask ring being its source ring or that ring reversed |
| CountyMask.MaskWorldRing | app/map/createMap.js:487-496 | the mask's world ring is clockwise |
| CountyMask.MaskCountyRingAt | app/map/createMap.js:474-476 | county ring 0 comes out counterclockwise and every later ring clockwise |
| CountyMask.MaskOrientation | app/map/createMap.js:467-503 | when the county rings have nonzero areas, the mask's world ring is clockwise, the outer county ring counterclockwise and every later ring clockwise |
| CountyMask.FlattenCoordinates | app/map/createMap.js:663-685 | the result holds exactly the geometry's vertices: the point, the line, a Polygon or MultiLineString flattened once, a MultiPolygon twice, nothing otherwise |
| CountyMask.FlattenVertices | app/map/createMap.js:665 | one level of flattening holds exactly the points of the sub-lists |
| ArcGis.ConvertGeometry | app/services/arcgisHelpers.js:184-216 | rings give a Polygon with the same rings; otherwise paths give a LineString for one path and a MultiLineString for any other count; otherwise numeric x/y give exactly Point(x, y), and a Point comes from nothing else; otherwise null |
| ArcGis.ConvertFeature | app/services/arcgisHelpers.js:170-182 | null iff the geometry does not convert; otherwise the converted geometry with the attributes, or {}, as properties |
| ArcGis.ArcgisToGeoJson | app/services/arcgisHelpers.js:55-62 | never longer than the input; every feature is the conversion of an input feature and has a geometry |
| ArcGis.ArcgisToGeoJsonAppend | app/services/arcgisHelpers.js:55-62 | the conversion goes feature by feature, so input order is kept |
| ArcGis.ArcgisToGeoJsonCount | app/services/arcgisHelpers.js:55-62 | exactly the features with a convertible geometry survive |
| ArcGis.FlattenGeometryPoints | app/services/arcgisHelpers.js:154-168 | only a Polygon or MultiPolygon yields points; a Polygon yields exactly the vertices of its rings, a MultiPolygon exactly the vertices of the rings of its polygons |
| ArcGis.Bounds | app/services/arcgisHelpers.js:92-104 | there are no bounds iff there are no points; otherwise every point lies within them and each bound is attained by some point |
| ArcGis.BuildEnvelopeQueryGeometry | app/services/arcgisHelpers.js:81-111 | an error without a geometry or without points; otherwise the tight bounds of the points (each bound attained by some point), with `wkid` 4326 |
| ArcGis.EnvelopeHoldsPolygon | app/services/arcgisHelpers.js:81-111 | every vertex of every ring of a Polygon boundary lies within the envelope |
| ArcGis.RoundCoordinateClose | app/services/arcgisHelpers.js:150-152 | rounding moves a coordinate by at most half of the fifth decimal place |
| ArcGis.RoundCoordinateIdempotent | app/services/arcgisHelpers.js:150-152 | a rounded coordinate is already rounded |
| ArcGis.RoundRing | app/services/arcgisHelpers.js:115 | the ring is rounded point by point and keeps its length |
| ArcGis.PointsEqualIsEquality | app/services/arcgisHelpers.js:142-144 | two points compare equal iff they are the same position |
| ArcGis.DropClosingPoint | app/services/arcgisHelpers.js:134-140 | the result is a prefix that loses exactly the last point iff there are at least two points and the last equals the first; otherwise it is the ring |
| ArcGis.IndexFilterSpaced | app/services/arcgisHelpers.js:121 | the filter keeps exactly the points at multiples of the step, ceil(n / step) of them |
| ArcGis.IndexFilterFirst | app/services/arcgisHelpers.js:121 | the first point is always kept |
| ArcGis.QueryStep | app/services/arcgisHelpers.js:119 | the step is at least 1 |
| ArcGis.QueryStepBounds | app/services/arcgisHelpers.js:119 | step = ceil(m / 220) keeps at most 220 points, and at least 3 once m ≥ 240 |
| ArcGis.KeptCount | app/services/arcgisHelpers.js:118-121 | the filter keeps at most 220 points of a ring without its closing point, and at least 3 once it has 240 |
| ArcGis.SimplifyRingForQuery | app/services/arcgisHelpers.js:113-132 | the filter, the conditional push and the closing point compute exactly the simplified ring: a ring of at most 240 points rounded point by point, otherwise a closed ring of 4 to 222 points that starts and ends with the rounded first point |
| ArcGis.ShortRingRounded | app/services/arcgisHelpers.js:114-116 | a ring of at most 240 points keeps its length and is rounded point by point |
| ArcGis.LongRingSimplified | app/services/arcgisHelpers.js:118-131 | a longer ring becomes a closed ring of 4 to 222 points: the kept points at multiples of the step, the last non-closing point when it was not kept, then the first point again |
| ArcGis.BuildPolygonQueryGeometry | app/services/arcgisHelpers.js:64-79 | an error unless the boundary is a Polygon; otherwise one simplified ring per input ring, in order |
| Gtfs.Prepend | app/services/transitService.js:272 | a character joins the front of the first field |
| Gtfs.Fields | app/services/transitService.js:246-277 | a line always splits into at least one field |
| Gtfs.GluePrepend | app/services/transitService.js:272 | appending a character to the current field matches the reference split |
| Gtfs.GlueComma | app/services/transitService.js:266-270 | pushing the current field at an unquoted comma matches the reference split |
| Gtfs.SplitCsvLine | app/services/transitService.js:246-277 | the character loop with its quote flag computes exactly the reference field split |
| Gtfs.JoinPrepend | app/services/transitService.js:272 | a character added to the first field is added to the front of the joined line |
| Gtfs.QuoteFreeFields | scripts/build-static-transit.mjs:161-192 | for a line with no quotes, joining the fields with "," restores the line, and no field holds a comma |
| Gtfs.QuotedTextIsOneField | app/services/transitService.js:261-270 | inside an open quote, quote-free text stays one field, commas included |
| Gtfs.QuotedFieldKeepsCommas | app/services/transitService.js:261-270 | a quoted field keeps its commas and loses its quotes, and the rest of the line splits as usual |
| Gtfs.QuotedPrefix | scripts/build-static-transit.mjs:170-185 | inside a quote the text up to the closing quote is prefixed to the next field |
| Gtfs.EmptyQuotedField | app/services/transitService.js:255-259 | an empty quoted field `""` reads as one quote character |
| Gtfs.SplitLines | app/services/transitService.js:223 | at least one line, and no line holds a line feed |
| Gtfs.ColumnLookup | app/services/transitService.js:239-244 | a name is mapped iff it is a header column, and it maps to an index holding that name |
| Gtfs.ColumnLookupLastIndex | app/services/transitService.js:239-244 | each name maps to the last index holding it, so later duplicates win |
| Gtfs.BuildColumnLookup | app/services/transitService.js:239-244 | the reduce loop computes exactly the lookup |
| Gtfs.ParseRow | app/services/transitService.js:227-235 | a row carries exactly the header's names |
| Gtfs.CsvLines | app/services/transitService.js:223 | the trimmed text has at least one line |
| Gtfs.ParseCsv | app/services/transitService.js:222-237 | one row per line after the header, each keyed by exactly the header's names |
| Gtfs.ParseCsvValue | scripts/build-static-transit.mjs:137-159 | a row's value for a name is the line's field at the last header index of that name, or undefined when the line is shorter |
| Gtfs.NormalizeColor | app/services/transitService.js:279-285 | the result always starts with "#": the default blue for a missing or empty colour, the colour itself when it has "#", and "#" + colour otherwise |
| Gtfs.NormalizeColorIdempotent | scripts/build-static-transit.mjs:194-200 | normalising a normalised colour changes nothing |
| GtfsShapes.RouteIds | app/services/transitService.js:70 | the route id of each route row, in order |
| GtfsShapes.RouteMap | app/services/transitService.js:70 | a route id is in the map iff some row has it |
| GtfsShapes.RouteMapEmpty | app/services/transitService.js:70-74 | the map is empty iff there are no route rows |
| GtfsShapes.RouteMapLastRow | app/services/transitService.js:70 | an id maps to the last row with that id |
| GtfsShapes.UncountedTripsIgnored | app/services/transitService.js:163-166 | trips of unknown routes and trips with an empty shape id are never tallied |
| GtfsShapes.BumpShape | app/services/transitService.js:169 | one shape's tally goes up by one and every other tally is unchanged; tallies stay positive and distinct; a shape already listed keeps its place and every place keeps its shape, a new shape goes last with tally 1 (`Map.set` insertion order) |
| GtfsShapes.CountOfListed | app/services/transitService.js:168-170 | each listed tally is its shape's count |
| GtfsShapes.CountOfSomeEntry | app/services/transitService.js:168-170 | a shape's count is 0 or one of the listed tallies |
| GtfsShapes.BumpRoute | app/services/transitService.js:168-170 | one trip bumps exactly its route's tallies; a listed route keeps its place, a new route goes last with that one shape |
| GtfsShapes.RouteShapesOfEntry | app/services/transitService.js:168 | in a well-formed table a route's entry is its tallies |
| GtfsShapes.RouteShapesOfAbsent | app/services/transitService.js:168 | an absent route has no tallies |
| GtfsShapes.ShapeCountsByRoute | app/services/transitService.js:161-171 | one entry per known route and every tally equals the reference trip count; the order is proved by `GtfsShapes.TallyRoutesFirstSeen` and `GtfsShapes.TallyShapesFirstSeen` |
| GtfsShapes.RouteListedIffTripped | app/services/transitService.js:163-171 | a route has an entry iff some tallied trip uses it |
| GtfsShapes.FirstRouteTrip | app/services/transitService.js:163-170 | the position of the first tallied trip of a route, or the trip count when there is none: that trip is tallied for the route and no earlier one is |
| GtfsShapes.FirstShapeTrip | app/services/transitService.js:163-170 | the position of the first tallied trip of a route that uses a given shape, or the trip count: that trip qualifies and no earlier one does |
| GtfsShapes.RoutesFirstSeenStep | app/services/transitService.js:168-170 | one more trip keeps the routes listed exactly when they have a tallied trip, in the order of their first tallied trip, when a new route goes last and a listed one keeps its place |
| GtfsShapes.ShapesFirstSeenStep | app/services/transitService.js:168-169 | one more trip keeps a route's shapes listed exactly when a tallied trip uses them, in the order of their first such trip, when a new shape goes last and a listed one keeps its place |
| GtfsShapes.TallyRoutesFirstSeen | app/services/transitService.js:161-171 | the tally lists a route iff a tallied trip uses it, in the order of each route's first tallied trip (`Map` insertion order) |
| GtfsShapes.TallyShapesFirstSeen | app/services/transitService.js:161-171 | each route's tally lists a shape iff a tallied trip of the route uses it, in the order of each shape's first such trip |
| GtfsShapes.EarlierFirstTripListedBefore | app/services/transitService.js:168-169 | in a first-seen shape list, a shape whose first trip precedes that of the shape at k is listed before k |
| GtfsShapes.MoreTripsIsStrictWeakOrder | app/services/transitService.js:176-178 | the comparator `right[1] - left[1]` is a strict weak order |
| GtfsShapes.ChooseShapes | app/services/transitService.js:175-181 | one choice per route, in route order |
| GtfsShapes.RepresentativeShapes | app/services/transitService.js:160-184 | one choice per tallied route, in first-seen order |
| GtfsShapes.RepresentativeAt | app/services/transitService.js:176-180 | each choice is the head of its route's sorted tallies |
| GtfsShapes.ChoiceIsMostUsed | app/services/transitService.js:160-184 | each choice is a known route with its most-used shape: tripsUsingShape is that shape's trip count, no shape has more, and every shape listed before it in the tally has strictly fewer; `GtfsShapes.TieGoesToFirstUsed` restates this against the order of the trips |
| GtfsShapes.TieGoesToFirstUsed | app/services/transitService.js:160-184 | a shape of the route whose first trip precedes the chosen shape's first trip has strictly fewer trips, so among equally used shapes the stable sort picks the one met first in the trips |
| GtfsShapes.ChoicesInFirstSeenOrder | app/services/transitService.js:175-181 | the choices come in the order of each route's first tallied trip |
| GtfsShapes.ChoicesCoverRoutes | app/services/transitService.js:160-184 | every known route with a tallied trip gets a choice |
| GtfsShapes.ChoicesDistinctRoutes | app/services/transitService.js:173-181 | no route gets two choices |
| GtfsShapes.TallyShapes | app/services/transitService.js:161-171 | the forEach loop builds exactly the reference tally table |
| GtfsShapes.ChooseEachRoute | app/services/transitService.js:173-181 | the second loop makes exactly the reference choices |
| GtfsShapes.PickRepresentativeShapes | scripts/build-static-transit.mjs:75-99 | the two passes compute exactly the representative shapes |
| GtfsShapes.GroupPoints | app/services/transitService.js:192-212 | a selected shape has a group iff some line names it, and the group holds that shape's points in file order |
| GtfsShapes.ShapePointsByShape | app/services/transitService.js:186-220 | only selected shapes have groups |
| GtfsShapes.ShapePointsGrouped | app/services/transitService.js:186-220 | blank lines and unselected shapes are skipped: a group exists iff some line names the shape, and it holds exactly that shape's points, as a permutation |
| GtfsShapes.ShapePointsSorted | app/services/transitService.js:214-217 | when every point has a numeric sequence, each group is sorted by sequence, ascending |
| GtfsShapes.SequencedKeyOrder | app/services/transitService.js:215 | with numeric sequences the comparator is the strict order of the sequence |
| GtfsShapes.GroupShapePoints | app/services/transitService.js:192-212 | the grouping loop computes exactly the reference groups |
| GtfsShapes.SortShapeGroups | app/services/transitService.js:214-217 | each group is replaced by its stable sort by sequence |
| GtfsShapes.CollectShapePoints | scripts/build-static-transit.mjs:101-135 | the header lookup, grouping pass and sorting pass compute exactly the reference point groups |
| Transit.FallbackPropertiesFacts | app/services/transitService.js:12-18 | a sketch has the id fallback-route-N, the routes joined with ", ", the street name and sourceType "fallback" |
| Transit.FallbackFeatures | app/services/transitService.js:6-24 | one LineString sketch per street with transit routes, in order, numbered from 1 after filtering, with the street's geometry, routes and name |
| Transit.FallbackIdsDistinct | app/services/transitService.js:13 | two sketches never share an id |
| Transit.TransitFallbackCoversReferenceStreets | app/services/transitService.js:6-24 | every reference street has a route, so every one becomes a sketch |
| Transit.RoutePropertiesFacts | app/services/transitService.js:94-100 | a route line's id is "<short name>-<shape id>", its stroke is the normalised colour, and its sourceType is the given tag |
| Transit.Positions | app/services/transitService.js:103 | with numeric coordinates, every point becomes [lon, lat], in order |
| Transit.RouteFeatures | app/services/transitService.js:84-106 | at most one LineString per choice, carrying the source tag; none iff no choice has a known route and at least two points; `Transit.RouteFeaturesOfAssembling` gives the exact list |
| Transit.AssemblingChoices | app/services/transitService.js:87-89 | the choices with a known route and at least two shape points, in choice order |
| Transit.RouteFeaturesOfAssembling | app/services/transitService.js:84-106 | the features are exactly the assembling choices' route lines, one per choice, in choice order: the j-th feature is the line of the j-th assembling choice |
| Transit.AllChoicesAssemble | scripts/build-static-transit.mjs:28-50 | when every choice assembles, each one gives its own feature, in place |
| Transit.AssembleRouteFeatures | scripts/build-static-transit.mjs:28-50 | the push loop computes exactly the reference feature list |
| Transit.ChosenRoutesKnown | scripts/build-static-transit.mjs:29-34 | every chosen route is in the route map, so the `!route` test never fires |
| Transit.ChosenShapeIds | app/services/transitService.js:77-79 | a shape id is selected iff some choice uses it |
| Transit.BuildStaticSnapshot | scripts/build-static-transit.mjs:8-64 | an error iff routes.txt has no rows; otherwise the assembled lines clipped to the boundary, routeCount equals the clipped count, and every line lies in the county |
| Transit.SnapshotFeaturesAreStatic | scripts/build-static-transit.mjs:43 | every snapshot line is tagged sourceType "static" |
| Transit.LiveFeatures | app/services/transitService.js:52-110 | an unreadable feed is an error; an empty routes file is the "no routes" error; otherwise the assembled live lines are the success when there are any, and the "no shapes" error when there are none |
| Transit.FetchTransitGeoJson | app/services/transitService.js:26-132 | every fallback answer is the clipped fallback sketches |
| Transit.SnapshotPreferredWithoutProxy | app/services/transitService.js:27-33 | with snapshot lines and no proxy, the answer is the clipped snapshot, in mode live |
| Transit.LiveFeedOrFallback | app/services/transitService.js:52-131 | with a proxy and JSZip, a usable feed gives the clipped live lines and any feed error gives the fallback |
| Transit.TransitDataWithinCounty | app/services/transitService.js:26-132 | whatever the source, every transit line returned lies in the county |
| Jurisdiction.PikeLabelExcluded | app/services/jurisdictionService.js:1-21 | a label containing the whole word "Pike" fails the test |
| Jurisdiction.InsideWordNotExcluded | app/services/jurisdictionService.js:1-14 | no pattern starts inside a word, since `\b` does not hold there |
| Jurisdiction.OtherLetterNotExcluded | app/services/jurisdictionService.js:1-14 | no pattern starts at a letter other than i, u, s, t, p, b or h |
| Jurisdiction.TurnpikePasses | app/services/jurisdictionService.js:1-21 | "Turnpike Rd" passes, because "pike" is not a whole word there |
| Jurisdiction.InterstateNumberExcluded | app/services/jurisdictionService.js:1-21 | "I-40" fails the test |
| Jurisdiction.PickFirstMatchingProperty | app/services/jurisdictionService.js:24-34 | a picked label is non-empty and has no white space at either end |
| Jurisdiction.PickFirstIsFirstQualifying | app/services/jurisdictionService.js:24-34 | null iff no candidate key holds a non-blank string; otherwise the trimmed value of the first candidate that does |
| TrafficService.NormalizeFallbackStreetFeature | app/services/trafficService.js:30-59 | null iff the geometry is not a LineString or MultiLineString or the label fails the jurisdiction test; a kept street keeps its geometry |
| TrafficService.StreetPropertiesStated | app/services/trafficService.js:49-58 | a kept street has featureIndex = index + 1, its display name, displayCount null and sourceType "live", and every other property unchanged |
| TrafficService.DisplayNameChoice | app/services/trafficService.js:54 | the display name is the label, or "Metro street N" when there is no label |
| TrafficService.NormalizeStreets | app/services/trafficService.js:14-16 | the streets are never more than the clipped features |
| TrafficService.KeptFeatureIndex | app/services/trafficService.js:53 | a kept street's featureIndex is its position before filtering, plus one |
| TrafficService.NormalizedStreetSource | app/services/trafficService.js:14-16 | every street is the normalisation of the input feature at some position i, with featureIndex i + 1 |
| TrafficService.KeptStreetListed | app/services/trafficService.js:14-16 | every street the normaliser keeps is in the result |
| TrafficService.NormalizedStreetsIncreasing | app/services/trafficService.js:14-16 | featureIndex strictly increases along the streets, with gaps where streets were dropped |
| TrafficService.BuildTrafficSummary | app/services/trafficService.js:61-71 | totalStations is the street count, and topStations holds the first min(12, n) streets, in order |
| TrafficService.TrafficCounts | app/services/trafficService.js:13-27 | the summary is the summary of the returned streets |
| TrafficService.TrafficStreetsQualify | app/services/trafficService.js:13-16 | every street of the layer is a line inside the county tagged "live" |
| TrafficService.PikeStreetDropped | app/services/trafficService.js:45-47 | a street labelled "... Pike" is always dropped |
| Dashboard.FormatStatus | app/main.js:542-544 | idle reads "pending"; every other status reads as itself |
| Dashboard.CreateStatusDetail | app/main.js:507-520 | the text is "<name>: <status>" with idle shown as pending; the class is is-live iff live or local, is-fallback iff fallback, is-error iff error, and "" otherwise |
| Dashboard.DisplayCount | app/main.js:546-552 | "pending" iff the source is idle or loading, otherwise the count |
| Dashboard.IdlePendingEverywhere | app/main.js:507-552 | an idle source shows as pending in both its count and its status text |
| Dashboard.FiniteScores | app/main.js:560-562 | the finite values are exactly the defined top scores |
| Dashboard.MaxWith | app/main.js:559-564 | the maximum is at least the floor and every value, and is one of them |
| Dashboard.HighestScore | app/main.js:559-564 | the highest score is at least 1 |
| Dashboard.NormalizeScore | app/main.js:554-567 | at least 12, and exactly 60 for a non-finite score or when there are no top areas |
| Dashboard.TopScoreFullBar | app/main.js:559-566 | the top score, when at least 1, gets a bar of 100 |
| Dashboard.ListedScoreAtMostFull | app/main.js:559-566 | every listed area's bar is at most 100 |
| Dashboard.NormalizeScoreMonotone | app/main.js:554-567 | a higher score never gets a shorter bar |
| Dashboard.BuildNarrative | app/main.js:486-495 | the waiting message with no top areas; otherwise the text opens with the first area's name as the leader |
| Dashboard.NarrativeWaitsOnlyWhenEmpty | app/main.js:486-495 | the waiting message appears iff there are no top areas |
| Dashboard.SidebarIntersections | app/main.js:413-418 | the projects whose names do not mention Brick Church Pike, case-insensitively, in order; each is selected iff its id is the selected id |
| Dashboard.IntersectionListed | app/main.js:413-418 | a project is listed iff its name does not mention the corridor |
| Dashboard.FilterKeepsDistinctIds | app/main.js:414 | filtering keeps the ids distinct |
| Dashboard.AtMostOneSelected | app/main.js:413-418 | with distinct ids, at most one listed intersection is selected |
| Dashboard.ToggledLayers | app/main.js:81-84 | the named flag is negated (an absent flag turns on), and every other flag is unchanged |
| Dashboard.ToggleTwice | app/main.js:81-84 | toggling a present flag twice restores the flags |
| Dashboard.ToggleInitialLayer | app/main.js:18-24 | toggling a layer of the initial flags flips that layer and no other |
| Dashboard.ToggleLayer | app/main.js:80-86 | the store is patched with the flipped flags, every other state field and the listeners are unchanged, and every listener is notified once |
| State.Broadcast | app/state.js:11 | one call per listener, in subscription order, each with the new state |
| State.BroadcastOncePerListener | app/state.js:11 | a subscribed listener is called exactly once per update |
| State.Add | app/state.js:21 | set semantics: the identifiers stay distinct, and the new one is among them |
| State.Remove | app/state.js:22 | the identifier leaves, every other stays, and the identifiers stay distinct |
| State.AddTwice | app/state.js:21 | subscribing twice keeps one entry |
| State.RemovedNotCalled | app/state.js:22 | a removed listener is not called by any later broadcast |
| State.Merge | app/state.js:14-17 | the partial's keys take its values, every other key keeps its value, and no other key appears |
| State.MergeIdempotent | app/state.js:14-17 | merging the same partial twice is merging it once |
| State.Store.constructor | app/state.js:1-3 | the store starts with the initial state and no listeners |
| State.Store.GetState | app/state.js:6-8 | the state most recently installed |
| State.Store.Notify | app/state.js:11 | the loop logs one call per listener, in order, and changes nothing else |
| State.Store.SetState | app/state.js:9-12 | the state is replaced wholesale, then every listener is notified once with it |
| State.Store.Patch | app/state.js:13-19 | the state becomes the shallow merge, then every listener is notified once with it |
| State.Store.Subscribe | app/state.js:20-21 | the listener joins the set, without a duplicate |
| State.Store.Unsubscribe | app/state.js:22 | the listener leaves the set, so later updates do not reach it |
| FocusAreas.ReferenceStreetsWellFormed | app/data/focusAreas.js:1-77 | the five reference streets have at least two points, a non-empty route list on the local reference routes, and distinct ids |
| FocusAreas.IntersectionProjectsWellFormed | app/data/focusAreas.js:81-114 | the four projects have distinct ids and each serves walking |
| FocusAreas.SegmentPropertiesFacts | app/data/focusAreas.js:125-133 | the street properties have keys in source order and values the segment's id, name, from, to, category and source, and its routes joined with ", " |
| FocusAreas.SegmentsToGeoJson | app/data/focusAreas.js:120-140 | one LineString per segment, in order, with the segment's geometry, the seven keys in source order, and each value (id, name, from, to, category, source, joined routes) taken from that segment |
| FocusAreas.IntersectionPropertiesFacts | app/data/focusAreas.js:147-153 | the project properties have keys in source order, the project's id, name, emphasis and source, and its modes joined with ", " |
| FocusAreas.IntersectionsToGeoJsonOf | app/data/focusAreas.js:142-160 | one Point per project, in order, at the project's coordinates, with its id, name, emphasis and source copied and its modes joined with ", " |
| FocusAreas.StreetCollectionExample | app/data/focusAreas.js:120-160 | the catalogue gives five streets, with "3" as Church Street's routes and "Walking, Driving" as the second project's modes |
| Text.Trim | app/services/jurisdictionService.js:28-30 | `trim()` leaves no white space at either end |
| Text.TrimEmptyIffSpace | app/services/jurisdictionService.js:28 | the trimmed text is empty iff the text is all white space |
| Text.Round | app/main.js:566 | `Math.round` gives the integer within half of x, with halves rounded up |
| Text.RoundMonotone | app/main.js:566 | rounding is monotone |
| Text.ToFixedOneRoundTrip | app/services/crashService.js:246 | `Number(x.toFixed(1))` is x rounded to the nearest tenth |
| Text.IntToStringRoundTrip | app/services/crashService.js:246 | an integer's text parses back to the integer |
| Sorting.SortBy | app/services/crashService.js:263 | the stable sort is a permutation |
| Sorting.SortBySorted | app/services/crashService.js:263 | with a comparator consistent with a key, the result is in key order |
| Sorting.SortByHead | app/services/transitService.js:176-178 | the first element after a stable sort is the first maximal element |
| Geo.GetPutSame | app/services/trafficService.js:51-57 | a spread-in key reads back its new value |
| Geo.GetPutOther | app/services/trafficService.js:51-57 | a spread-in key leaves every other key's value unchanged |
| Geo.KeepMappedSource | app/services/trafficService.js:14-16 | every value kept by map-then-filter comes from an input at some position |
| Geo.KeepMappedIncreasing | app/services/trafficService.js:14-16 | map-then-filter with position-numbered results keeps the numbers strictly increasing |

## Left out

- Network and browser I/O are not modelled:
  - the paged `fetchArcGisFeatures` query, `fetchOfficialCrashAreas`, and the fetch inside `fetchTrafficCounts`;
  - `app/services/arcgis.js`;
  - the `bootstrapLiveData`, `ensureCountyBoundary` and `request*` calls of `main.js`, including those `toggleLayer` starts after its patch.
  `TrafficService.TrafficCounts` starts from the fetched ArcGIS features.
- `Transit.FetchTransitGeoJson` takes the fetch, JSZip and zip-reading steps of the live feed as a parameter: the three texts, or `FeedUnavailable`. Every way they fail (HTTP status, a missing file, a parse error) is that one value.
- `Transit.FetchTransitGeoJson` states only the fallback branch outright. The snapshot and live branches are stated by `Transit.SnapshotPreferredWithoutProxy` and `Transit.LiveFeedOrFallback`.
- Whether a proxy URL is configured and whether JSZip is present are parameters. `app/config.js` is not part of this model.
- `buildStaticTransitDetail` takes the snapshot date already formatted. `toLocaleDateString` is not modelled.
- The snapshot script's file reads and writes, its `new Date().toISOString()` timestamp and its JSON module output are not modelled.
- Map construction, layers, popups and handlers in `createMap.js` are not modelled, other than the four functions above.
- The DOM rendering in `app/ui/`, `renderStatusStrip`, `syncTabs` and the store subscription in `main.js` are not modelled.
- `dev-server.mjs` and `app/services/countyService.js` are not part of this model.
- `GeometryService.PointInCounty` treats a county feature whose geometry is not a Polygon or MultiLineString as having no rings, so every point tests outside. For a LineString boundary, JavaScript would throw a TypeError when it destructures a number as a vertex; the model does not capture that exception. A Point (or MultiPolygon) boundary makes every point test outside in JavaScript too, as modelled.
- Floating point is modelled as exact reals:
  - `Math.floor(n * 0.35)` is taken as `(35 * n) / 100`;
  - `Number.EPSILON` never takes effect (`GeometryService.StraddlingEdgeRise`);
  - `roundCoordinate`'s ×1e5 rounding is exact.
- `Number()` of a string accepts decimal notation with an optional sign and surrounding white space. Hexadecimal, exponent and `Infinity` forms are not modelled.
- `toFixed(1)` is modelled for all reals. JavaScript switches to exponent notation at 1e21 and above.
- Case-insensitive matching folds ASCII letters only. This matches the regular expressions, which have no `u` flag, but no Unicode case mapping is modelled.
- A listener is an identifier, and a call to it is an entry of `notified`. What a listener does, including a listener that changes the store while it is being called, is not modelled.
- `State.Store.SetState` takes an object. `setState` with a value that is not an object is not modelled.
- Only the `layers` field of the dashboard state is concrete. Every other field is an opaque `Dashboard.StateValue`.
- The intersection-name filter is modelled once. The sidebar list, the analytics rows and the metric-card count at `app/main.js:441` and `app/main.js:475-481` apply the same filter.
- `TrafficService.NormalizeFallbackStreetFeature` requires a geometry. Reading `feature.geometry.type` on a feature without one would throw, and every clipped feature has one. Its unused `countyFeature` parameter is dropped.
- The comparators are modelled where the keys are comparable numbers. With a `NaN` key, JavaScript's order is implementation-defined: a sequence difference of `NaN` is treated as a tie.
- `GtfsShapes.ShapePointsSorted` assumes every point of the shape has a numeric sequence.
- A shape point with a non-numeric latitude or longitude is left out when assembling a line. JavaScript emits `NaN` coordinates, which the county clip always drops, since every comparison with `NaN` is false.
- A CSV column named `__proto__` is treated like any other name. JavaScript's object would not store it as an own key.
- `Text.ToNumber` reads an array or object attribute as not a number. JavaScript's `Number([])` is 0 and `Number([7])` is 7. ArcGIS attributes are scalars, so array values are not modelled.
- `Dashboard.LayersOf` reads a state without a `layers` flag object as no layers, so toggling turns the flag on. JavaScript would throw a TypeError reading `layers[layerKey]` of `undefined` (`app/main.js:83`). The initial state always has `layers` and `patch` never removes it, so this cannot happen in the app.
- Property values that are `undefined` are left out of an object, as JSON serialisation drops them.
