/**
 * The traffic service: the Metro official streets, already converted from
 * ArcGIS and clipped to the county, become the street layer. Only line
 * geometries whose label passes the jurisdiction test are kept; each kept
 * street is tagged with its 1-based position in the clipped collection, a
 * display name, an empty count and the source type, and the first twelve
 * make up the summary.
 */
module TrafficService {
  import opened Geo
  import opened Text
  import opened Jurisdiction
  import opened GeometryService
  import opened ArcGis

  /** The attribute names a street label is read from, in order of preference. */
  const StreetLabelKeys: seq<string> :=
    ["FULL_STREET_NAME", "Full_Street_Name", "STREET_NAME", "Street_Name", "STREETNAME", "NAME", "Name"]

  const MetroStreetPrefix := "Metro street "

  predicate IsLineGeometry(g: Geometry)
  {
    g.LineString? || g.MultiLineString?
  }

  /** The label of a street: the first non-blank of the street-name attributes. */
  function StreetLabel(feature: Feature): Option<string>
  {
    PickFirstMatchingProperty(Some(feature.properties), StreetLabelKeys)
  }

  /** `label || "Metro street N"`: a picked label is never empty, so it wins whenever there is one. */
  function DisplayName(picked: Option<string>, index: nat): string
  {
    if picked.Some? && picked.value != "" then picked.value else MetroStreetPrefix + NatToString(index + 1)
  }

  /** `{ ...properties, featureIndex, displayName, displayCount: null, sourceType: "live" }`. */
  function StreetProperties(properties: Properties, picked: Option<string>, index: nat): Properties
  {
    var p1 := Put(properties, "featureIndex", Num((index + 1) as real));
    var p2 := Put(p1, "displayName", Str(DisplayName(picked, index)));
    var p3 := Put(p2, "displayCount", Null);
    Put(p3, "sourceType", Str("live"))
  }

  /**
   * `normalizeFallbackStreetFeature`: `null` for a geometry other than a
   * LineString or MultiLineString and for a label that fails the
   * jurisdiction test; otherwise the feature with its geometry kept and the
   * four display properties added. Reading `feature.geometry.type` needs a
   * geometry, which every clipped feature has.
   */
  function NormalizeFallbackStreetFeature(feature: Feature, index: nat): (r: Option<Feature>)
    requires feature.geometry.Some?
    ensures r.None? <==> !IsLineGeometry(feature.geometry.value) || !IsMetroJurisdictionLabel(StreetLabel(feature))
    ensures r.Some? ==> r.value.geometry == feature.geometry
  {
    if !IsLineGeometry(feature.geometry.value) then None
    else
      var picked := StreetLabel(feature);
      if !IsMetroJurisdictionLabel(picked) then None
      else Some(Feature(feature.geometry, StreetProperties(feature.properties, picked, index)))
  }

  /**
   * A kept street carries `featureIndex` = index + 1, its display name, a
   * `null` count and the source type `"live"`, and every other attribute
   * as it was.
   */
  lemma StreetPropertiesStated(properties: Properties, picked: Option<string>, index: nat, other: string)
    requires other != "featureIndex" && other != "displayName" && other != "displayCount" && other != "sourceType"
    ensures var p := StreetProperties(properties, picked, index);
      Get(p, "featureIndex") == Some(Num((index + 1) as real)) &&
      Get(p, "displayName") == Some(Str(DisplayName(picked, index))) &&
      Get(p, "displayCount") == Some(Null) &&
      Get(p, "sourceType") == Some(Str("live")) &&
      Get(p, other) == Get(properties, other)
  {
    var p1 := Put(properties, "featureIndex", Num((index + 1) as real));
    var p2 := Put(p1, "displayName", Str(DisplayName(picked, index)));
    var p3 := Put(p2, "displayCount", Null);
    var v1 := Num((index + 1) as real);
    var v2 := Str(DisplayName(picked, index));
    GetPutSame(properties, "featureIndex", v1);
    GetPutOther(p1, "displayName", v2, "featureIndex");
    GetPutOther(p2, "displayCount", Null, "featureIndex");
    GetPutOther(p3, "sourceType", Str("live"), "featureIndex");
    GetPutSame(p1, "displayName", v2);
    GetPutOther(p2, "displayCount", Null, "displayName");
    GetPutOther(p3, "sourceType", Str("live"), "displayName");
    GetPutSame(p2, "displayCount", Null);
    GetPutOther(p3, "sourceType", Str("live"), "displayCount");
    GetPutSame(p3, "sourceType", Str("live"));
    GetPutOther(properties, "featureIndex", v1, other);
    GetPutOther(p1, "displayName", v2, other);
    GetPutOther(p2, "displayCount", Null, other);
    GetPutOther(p3, "sourceType", Str("live"), other);
  }

  /** The display name is the picked label, or "Metro street N" with the 1-based position when no label was found. */
  lemma DisplayNameChoice(feature: Feature, index: nat)
    ensures StreetLabel(feature).Some? ==> DisplayName(StreetLabel(feature), index) == StreetLabel(feature).value
    ensures StreetLabel(feature).None? ==> DisplayName(StreetLabel(feature), index) == MetroStreetPrefix + NatToString(index + 1)
  {
  }

  /** The `featureIndex` of a street, 0 when it has none. */
  function FeatureIndexOf(f: Feature): real
  {
    match Get(f.properties, "featureIndex")
    case Some(Num(n)) => n
    case _ => 0.0
  }

  predicate AllHaveGeometry(features: seq<Feature>)
  {
    forall i :: 0 <= i < |features| ==> features[i].geometry.Some?
  }

  /** `features.map((feature, index) => normalize(feature, index)).filter(Boolean)`. */
  function NormalizeStreets(features: seq<Feature>): (r: seq<Feature>)
    requires AllHaveGeometry(features)
    ensures |r| <= |features|
  {
    KeepMapped(features, 0, NormalizeFallbackStreetFeature)
  }

  /** A kept street's `featureIndex` is its position before filtering, plus one. */
  lemma KeptFeatureIndex(feature: Feature, index: nat)
    requires feature.geometry.Some? && NormalizeFallbackStreetFeature(feature, index).Some?
    ensures FeatureIndexOf(NormalizeFallbackStreetFeature(feature, index).value) == (index + 1) as real
  {
    StreetPropertiesStated(feature.properties, StreetLabel(feature), index, "name");
  }

  /**
   * The streets are the kept normalisations in input order: each is the
   * normalisation of the input feature at a position `i`, with
   * `featureIndex` `i + 1`, and every street the normaliser keeps is there.
   */
  lemma NormalizedStreetSource(features: seq<Feature>, j: nat) returns (i: nat)
    requires AllHaveGeometry(features) && j < |NormalizeStreets(features)|
    ensures i < |features| && NormalizeFallbackStreetFeature(features[i], i) == Some(NormalizeStreets(features)[j])
    ensures FeatureIndexOf(NormalizeStreets(features)[j]) == (i + 1) as real
  {
    i := KeepMappedSource(features, 0, NormalizeFallbackStreetFeature, j);
    KeptFeatureIndex(features[i], i);
  }

  lemma KeptStreetListed(features: seq<Feature>, i: nat)
    requires AllHaveGeometry(features) && i < |features|
    requires NormalizeFallbackStreetFeature(features[i], i).Some?
    ensures NormalizeFallbackStreetFeature(features[i], i).value in NormalizeStreets(features)
  {
    KeepMappedListed(features, 0, NormalizeFallbackStreetFeature, i);
  }

  /** The `featureIndex` values strictly increase, though they may skip the positions of dropped features. */
  lemma NormalizedStreetsIncreasing(features: seq<Feature>)
    requires AllHaveGeometry(features)
    ensures IncreasingBy(NormalizeStreets(features), FeatureIndexOf)
  {
    forall k | 0 <= k < |features| && NormalizeFallbackStreetFeature(features[k], k).Some?
      ensures FeatureIndexOf(NormalizeFallbackStreetFeature(features[k], k).value) == (k + 1) as real
    {
      KeptFeatureIndex(features[k], k);
    }
    KeepMappedIncreasing(features, 0, NormalizeFallbackStreetFeature, FeatureIndexOf);
  }

  /** One entry of `topStations`: the four display attributes, `undefined` where a street lacks one. */
  datatype Station = Station(featureIndex: Option<Value>, name: Option<Value>, count: Option<Value>, sourceType: Option<Value>)

  datatype TrafficSummary = TrafficSummary(totalStations: nat, topStations: seq<Station>)

  function StationOf(f: Feature): Station
  {
    Station(Get(f.properties, "featureIndex"), Get(f.properties, "displayName"),
            Get(f.properties, "displayCount"), Get(f.properties, "sourceType"))
  }

  const TopStationCount: nat := 12

  /** `buildTrafficSummary`: the street count and the first twelve streets, in order. */
  function BuildTrafficSummary(features: seq<Feature>): (r: TrafficSummary)
    ensures r.totalStations == |features|
    ensures |r.topStations| == if |features| < TopStationCount then |features| else TopStationCount
    ensures forall i :: 0 <= i < |r.topStations| ==> r.topStations[i] == StationOf(features[i])
  {
    var top := Take(features, TopStationCount);
    TrafficSummary(|features|, seq(|top|, i requires 0 <= i < |top| => StationOf(top[i])))
  }

  const TrafficDetail := "Traffic context came from NDOT's Metro Official Streets and Alleys layer, filtered to Metro-jurisdiction streets inside Davidson County."

  datatype TrafficResponse = TrafficResponse(data: seq<Feature>, detail: string, summary: TrafficSummary)

  /**
   * `fetchTrafficCounts` after its fetch: the ArcGIS streets converted,
   * clipped to the county and normalised, with their summary. The mode is
   * always `"live"`.
   */
  function TrafficCounts(streets: seq<EsriFeature>, county: Option<Feature>): (r: TrafficResponse)
    ensures r.summary == BuildTrafficSummary(r.data)
  {
    var clipped := ConstrainCollectionToCounty(ArcgisToGeoJson(streets), county);
    var features := NormalizeStreets(clipped);
    TrafficResponse(features, TrafficDetail, BuildTrafficSummary(features))
  }

  /**
   * Every street of the traffic layer is a line inside the county whose
   * label passes the jurisdiction test, so no state route reaches the map.
   */
  lemma TrafficStreetsQualify(streets: seq<EsriFeature>, county: Option<Feature>, j: nat)
    requires j < |TrafficCounts(streets, county).data|
    ensures var f := TrafficCounts(streets, county).data[j];
      f.geometry.Some? && IsLineGeometry(f.geometry.value) && WithinCounty(f.geometry.value, county) &&
      Get(f.properties, "sourceType") == Some(Str("live"))
  {
    var clipped := ConstrainCollectionToCounty(ArcgisToGeoJson(streets), county);
    var i := NormalizedStreetSource(clipped, j);
    var f := NormalizeStreets(clipped)[j];
    var picked := StreetLabel(clipped[i]);
    assert f.properties == StreetProperties(clipped[i].properties, picked, i);
    StreetPropertiesStated(clipped[i].properties, picked, i, "name");
  }

  /** A street named "... Pike" is never kept, whatever its geometry. */
  lemma PikeStreetDropped(feature: Feature, index: nat, before: string)
    requires feature.geometry.Some? && StreetLabel(feature) == Some(before + " Pike")
    ensures NormalizeFallbackStreetFeature(feature, index).None?
  {
    PikeLabelExcluded(before, "");
    assert before + " Pike" + "" == before + " Pike";
  }
}
