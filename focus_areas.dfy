/**
 * The local reference data: the Metro street segments and the NDOT
 * intersection projects shown on the map, and their GeoJSON collections.
 * Coordinates are `[longitude, latitude]`, held as `Position(x, y)`.
 */
module FocusAreas {
  import opened Geo
  import opened Text

  datatype StreetSegment = StreetSegment(
    id: string, name: string, from: string, to: string,
    source: string, category: string,
    transitRoutes: seq<string>, geometry: seq<Position>)

  datatype IntersectionProject = IntersectionProject(
    id: string, name: string, coordinates: Position,
    emphasis: string, modes: seq<string>, source: string)

  const ProjectSource := "NDOT HIN Local Intersection Improvements project page."
  const ReferenceCategory := "Metro-jurisdiction reference street"

  /** `officialStreetSegments`. */
  const OfficialStreetSegments: seq<StreetSegment> := [
    StreetSegment("church-fourth-fifth", "Church Street", "3rd Avenue North", "5th Avenue North",
      ProjectSource, ReferenceCategory, ["3"],
      [Position(-86.7828, 36.1629), Position(-86.7811, 36.1631), Position(-86.7795, 36.1633), Position(-86.7778, 36.1634)]),
    StreetSegment("john-lewis-mlk-charlotte", "Rep. John Lewis Way North", "Charlotte Avenue", "Jefferson Street",
      ProjectSource, ReferenceCategory, ["29"],
      [Position(-86.7861, 36.1607), Position(-86.7859, 36.1639), Position(-86.7857, 36.1664), Position(-86.7854, 36.1706)]),
    StreetSegment("garfield-delta-approach", "Garfield Street", "26th Avenue North", "28th Avenue North",
      ProjectSource, ReferenceCategory, ["22"],
      [Position(-86.8007, 36.1782), Position(-86.7975, 36.178), Position(-86.7943, 36.1778), Position(-86.791, 36.1776)]),
    StreetSegment("bandywood-hillsboro-circle", "Bandywood Drive", "Hillsboro Pike", "Sills Court",
      ProjectSource, ReferenceCategory, ["7"],
      [Position(-86.8132, 36.1165), Position(-86.8119, 36.1164), Position(-86.8107, 36.1162), Position(-86.8087, 36.1161)]),
    StreetSegment("fourth-avenue-north", "4th Avenue North", "Union Street", "Charlotte Avenue",
      ProjectSource, ReferenceCategory, ["3"],
      [Position(-86.7804, 36.1612), Position(-86.7803, 36.1635), Position(-86.7801, 36.166), Position(-86.78, 36.1682)])
  ]

  /** `officialIntersectionProjects`. */
  const OfficialIntersectionProjects: seq<IntersectionProject> := [
    IntersectionProject("garfield-delta", "Garfield Street & Delta Avenue", Position(-86.7943, 36.1778),
      "Five-leg North Nashville intersection now under NDOT HIN design review.",
      ["Walking", "Transit", "Driving"], ProjectSource),
    IntersectionProject("fourth-church", "4th Avenue & Church Street", Position(-86.7803, 36.1635),
      "Downtown signal and crosswalk location included in NDOT's five-intersection HIN package.",
      ["Walking", "Driving"], ProjectSource),
    IntersectionProject("john-lewis-mlk", "Rep. John Lewis Way & Dr. Martin Luther King Jr. Blvd", Position(-86.7856, 36.1664),
      "Major downtown crossing identified for timing, striping, and pedestrian safety upgrades.",
      ["Walking", "Driving", "Transit"], ProjectSource),
    IntersectionProject("hillsboro-bandywood", "Hillsboro Circle & Bandywood Drive", Position(-86.8107, 36.1162),
      "Green Hills area intersection with planned lane, median, sidewalk, and lighting changes.",
      ["Walking", "Driving"], ProjectSource)
  ]

  /** `localReferenceRoutes`. */
  const LocalReferenceRoutes: seq<string> := ["3", "7", "22", "23", "29", "52", "55"]

  /** Every reference street is a line with transit service on a local reference route, and no two share an id. */
  lemma ReferenceStreetsWellFormed()
    ensures |OfficialStreetSegments| == 5
    ensures forall i :: 0 <= i < |OfficialStreetSegments| ==>
      |OfficialStreetSegments[i].geometry| >= 2 && |OfficialStreetSegments[i].transitRoutes| > 0 &&
      forall route :: route in OfficialStreetSegments[i].transitRoutes ==> route in LocalReferenceRoutes
    ensures forall i, j :: 0 <= i < j < |OfficialStreetSegments| ==> OfficialStreetSegments[i].id != OfficialStreetSegments[j].id
  {
  }

  /** The four intersection projects have distinct ids and each serves walking. */
  lemma IntersectionProjectsWellFormed()
    ensures |OfficialIntersectionProjects| == 4
    ensures forall i, j :: 0 <= i < j < |OfficialIntersectionProjects| ==> OfficialIntersectionProjects[i].id != OfficialIntersectionProjects[j].id
    ensures forall i :: 0 <= i < |OfficialIntersectionProjects| ==> "Walking" in OfficialIntersectionProjects[i].modes
  {
  }

  function SegmentProperties(segment: StreetSegment): Properties
  {
    [Entry("id", Str(segment.id)), Entry("name", Str(segment.name)), Entry("from", Str(segment.from)),
     Entry("to", Str(segment.to)), Entry("category", Str(segment.category)), Entry("source", Str(segment.source)),
     Entry("transitRoutes", Str(Join(segment.transitRoutes, ", ")))]
  }

  lemma SegmentPropertiesFacts(segment: StreetSegment)
    ensures var p := SegmentProperties(segment);
      Keys(p) == ["id", "name", "from", "to", "category", "source", "transitRoutes"] &&
      Get(p, "id") == Some(Str(segment.id)) && Get(p, "name") == Some(Str(segment.name)) &&
      Get(p, "from") == Some(Str(segment.from)) && Get(p, "to") == Some(Str(segment.to)) &&
      Get(p, "category") == Some(Str(segment.category)) && Get(p, "source") == Some(Str(segment.source)) &&
      Get(p, "transitRoutes") == Some(Str(Join(segment.transitRoutes, ", ")))
  {
    var p := SegmentProperties(segment);
    GetAt(p, 0);
    GetAt(p, 1);
    GetAt(p, 2);
    GetAt(p, 3);
    GetAt(p, 4);
    GetAt(p, 5);
    GetAt(p, 6);
  }

  /** `streetSegmentsToGeoJson` over any segment list: one LineString per segment, in order. */
  function SegmentsToGeoJson(segments: seq<StreetSegment>): (r: seq<Feature>)
    ensures |r| == |segments|
    ensures forall i :: 0 <= i < |r| ==>
      r[i].geometry == Some(LineString(segments[i].geometry)) &&
      Keys(r[i].properties) == ["id", "name", "from", "to", "category", "source", "transitRoutes"] &&
      Get(r[i].properties, "id") == Some(Str(segments[i].id)) &&
      Get(r[i].properties, "name") == Some(Str(segments[i].name)) &&
      Get(r[i].properties, "from") == Some(Str(segments[i].from)) &&
      Get(r[i].properties, "to") == Some(Str(segments[i].to)) &&
      Get(r[i].properties, "category") == Some(Str(segments[i].category)) &&
      Get(r[i].properties, "source") == Some(Str(segments[i].source)) &&
      Get(r[i].properties, "transitRoutes") == Some(Str(Join(segments[i].transitRoutes, ", ")))
  {
    var r := seq(|segments|, i requires 0 <= i < |segments| =>
      Feature(Some(LineString(segments[i].geometry)), SegmentProperties(segments[i])));
    forall i | 0 <= i < |r| ensures Keys(r[i].properties) == ["id", "name", "from", "to", "category", "source", "transitRoutes"] {
      SegmentPropertiesFacts(segments[i]);
    }
    forall i | 0 <= i < |r| ensures Get(r[i].properties, "transitRoutes") == Some(Str(Join(segments[i].transitRoutes, ", "))) &&
        Get(r[i].properties, "id") == Some(Str(segments[i].id)) && Get(r[i].properties, "name") == Some(Str(segments[i].name)) &&
        Get(r[i].properties, "from") == Some(Str(segments[i].from)) && Get(r[i].properties, "to") == Some(Str(segments[i].to)) &&
        Get(r[i].properties, "category") == Some(Str(segments[i].category)) &&
        Get(r[i].properties, "source") == Some(Str(segments[i].source)) {
      SegmentPropertiesFacts(segments[i]);
    }
    r
  }

  function StreetSegmentsToGeoJson(): seq<Feature>
  {
    SegmentsToGeoJson(OfficialStreetSegments)
  }

  function IntersectionProperties(intersection: IntersectionProject): Properties
  {
    [Entry("id", Str(intersection.id)), Entry("name", Str(intersection.name)),
     Entry("emphasis", Str(intersection.emphasis)), Entry("modes", Str(Join(intersection.modes, ", "))),
     Entry("source", Str(intersection.source))]
  }

  lemma IntersectionPropertiesFacts(intersection: IntersectionProject)
    ensures var p := IntersectionProperties(intersection);
      Keys(p) == ["id", "name", "emphasis", "modes", "source"] &&
      Get(p, "id") == Some(Str(intersection.id)) && Get(p, "name") == Some(Str(intersection.name)) &&
      Get(p, "modes") == Some(Str(Join(intersection.modes, ", "))) &&
      Get(p, "emphasis") == Some(Str(intersection.emphasis)) && Get(p, "source") == Some(Str(intersection.source))
  {
    var p := IntersectionProperties(intersection);
    GetAt(p, 0);
    GetAt(p, 1);
    GetAt(p, 2);
    GetAt(p, 3);
    GetAt(p, 4);
  }

  /** `intersectionsToGeoJson` over any project list: one Point per project, in order. */
  function IntersectionsToGeoJsonOf(intersections: seq<IntersectionProject>): (r: seq<Feature>)
    ensures |r| == |intersections|
    ensures forall i :: 0 <= i < |r| ==>
      r[i].geometry == Some(Point(intersections[i].coordinates)) &&
      Keys(r[i].properties) == ["id", "name", "emphasis", "modes", "source"] &&
      Get(r[i].properties, "id") == Some(Str(intersections[i].id)) &&
      Get(r[i].properties, "name") == Some(Str(intersections[i].name)) &&
      Get(r[i].properties, "modes") == Some(Str(Join(intersections[i].modes, ", "))) &&
      Get(r[i].properties, "emphasis") == Some(Str(intersections[i].emphasis)) &&
      Get(r[i].properties, "source") == Some(Str(intersections[i].source))
  {
    var r := seq(|intersections|, i requires 0 <= i < |intersections| =>
      Feature(Some(Point(intersections[i].coordinates)), IntersectionProperties(intersections[i])));
    forall i | 0 <= i < |r| ensures Keys(r[i].properties) == ["id", "name", "emphasis", "modes", "source"] {
      IntersectionPropertiesFacts(intersections[i]);
    }
    forall i | 0 <= i < |r| ensures Get(r[i].properties, "modes") == Some(Str(Join(intersections[i].modes, ", "))) &&
        Get(r[i].properties, "id") == Some(Str(intersections[i].id)) && Get(r[i].properties, "name") == Some(Str(intersections[i].name)) &&
        Get(r[i].properties, "emphasis") == Some(Str(intersections[i].emphasis)) &&
        Get(r[i].properties, "source") == Some(Str(intersections[i].source)) {
      IntersectionPropertiesFacts(intersections[i]);
    }
    r
  }

  function IntersectionsToGeoJson(): seq<Feature>
  {
    IntersectionsToGeoJsonOf(OfficialIntersectionProjects)
  }

  /** The street collection names its streets' routes as in the source data, e.g. "3" for Church Street. */
  lemma StreetCollectionExample()
    ensures |StreetSegmentsToGeoJson()| == 5
    ensures Get(StreetSegmentsToGeoJson()[0].properties, "transitRoutes") == Some(Str("3"))
    ensures Get(IntersectionsToGeoJson()[1].properties, "modes") == Some(Str("Walking, Driving"))
  {
    assert Join(["3"], ", ") == "3";
    assert ["Walking", "Driving"][1..] == ["Driving"];
    assert Join(["Walking", "Driving"], ", ") == "Walking" + ", " + Join(["Driving"], ", ");
    assert Join(["Driving"], ", ") == "Driving";
    assert "Walking" + ", " + "Driving" == "Walking, Driving";
    assert OfficialIntersectionProjects[1].modes == ["Walking", "Driving"];
  }
}
