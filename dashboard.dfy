/**
 * The dashboard's own logic: the status labels and chips, the bar lengths
 * of the crash chart, the narrative, the intersection list with its one
 * excluded corridor, and the layer toggle that patches the store.
 */
module Dashboard {
  import opened Geo
  import opened Text
  import opened FocusAreas
  import opened State

  // ---------------------------------------------------------------------
  // Status labels
  // ---------------------------------------------------------------------

  /** `formatStatus`: an idle source reads "pending"; any other status reads as itself. */
  function FormatStatus(status: string): (r: string)
    ensures status == "idle" ==> r == "pending"
    ensures status != "idle" ==> r == status
  {
    if status == "idle" then "pending" else status
  }

  datatype StatusDetail = StatusDetail(text: string, className: string)

  /**
   * `createStatusDetail`: "<name>: <status>" with idle shown as pending, and
   * the chip class by status family.
   */
  function CreateStatusDetail(name: string, status: string): (r: StatusDetail)
    ensures r.text == name + ": " + FormatStatus(status)
    ensures r.className == "is-live" <==> status == "live" || status == "local"
    ensures r.className == "is-fallback" <==> status == "fallback"
    ensures r.className == "is-error" <==> status == "error"
    ensures r.className == "" <==> status != "live" && status != "local" && status != "fallback" && status != "error"
  {
    var value := if status == "idle" then "pending" else status;
    StatusDetail(name + ": " + value,
      if status == "live" || status == "local" then "is-live"
      else if status == "fallback" then "is-fallback"
      else if status == "error" then "is-error"
      else "")
  }

  /** One live-data source as the state holds it. */
  datatype LiveItem = LiveItem(status: string, detail: string, count: nat)

  /** `displayCount`: "pending" while a source is idle or loading, its count afterwards. */
  function DisplayCount(item: LiveItem): (r: Value)
    ensures r == Str("pending") <==> item.status == "idle" || item.status == "loading"
    ensures r != Str("pending") ==> r == Num(item.count as real)
  {
    if item.status == "idle" || item.status == "loading" then Str("pending") else Num(item.count as real)
  }

  /** An idle source shows as pending both in its chip count and in its status text. */
  lemma IdlePendingEverywhere(name: string, item: LiveItem)
    requires item.status == "idle"
    ensures DisplayCount(item) == Str("pending")
    ensures CreateStatusDetail(name, item.status).text == name + ": pending"
    ensures CreateStatusDetail(name, item.status).className == ""
  {
  }

  // ---------------------------------------------------------------------
  // Crash chart bars
  // ---------------------------------------------------------------------

  function MaxInt(a: int, b: int): int
  {
    if a < b then b else a
  }

  /** `.filter((value) => Number.isFinite(value))` over the top areas' scores. */
  function FiniteScores(scores: seq<Option<real>>): (r: seq<real>)
    ensures forall x :: x in r <==> Some(x) in scores
  {
    if |scores| == 0 then []
    else
      var rest := FiniteScores(scores[1..]);
      assert forall v :: v in scores <==> v == scores[0] || v in scores[1..];
      if scores[0].Some? then [scores[0].value] + rest else rest
  }

  /** `Math.max(...xs, floor)`. */
  function MaxWith(xs: seq<real>, floor: real): (r: real)
    ensures floor <= r
    ensures forall x :: x in xs ==> x <= r
    ensures r == floor || r in xs
  {
    if |xs| == 0 then floor
    else
      var rest := MaxWith(xs[1..], floor);
      assert forall x :: x in xs <==> x == xs[0] || x in xs[1..];
      if xs[0] < rest then rest else xs[0]
  }

  /** The largest finite top-area score, and never below 1. */
  function HighestScore(scores: seq<Option<real>>): (r: real)
    ensures 1.0 <= r
  {
    MaxWith(FiniteScores(scores), 1.0)
  }

  /**
   * `normalizeScore`: 60 for a non-finite score (`None`) or when there is
   * no summary or no top area; otherwise the score as a percentage of the
   * highest finite top score (at least 1), rounded and raised to at least 12.
   */
  function NormalizeScore(score: Option<real>, topAreaScores: Option<seq<Option<real>>>): (r: int)
    ensures 12 <= r
    ensures score.None? || topAreaScores.None? || |topAreaScores.value| == 0 ==> r == 60
  {
    if score.None? || topAreaScores.None? || |topAreaScores.value| == 0 then 60
    else MaxInt(12, Round(score.value / HighestScore(topAreaScores.value) * 100.0))
  }

  /** The top score, when it is at least 1, gets the full bar. */
  lemma TopScoreFullBar(score: real, scores: seq<Option<real>>)
    requires Some(score) in scores && 1.0 <= score
    requires forall v :: v in scores && v.Some? ==> v.value <= score
    ensures NormalizeScore(Some(score), Some(scores)) == 100
  {
    var highest := HighestScore(scores);
    assert score in FiniteScores(scores);
    assert highest == score;
    assert score / highest * 100.0 == 100.0;
  }

  /** The bar of any listed area is at most the full bar. */
  lemma ListedScoreAtMostFull(score: real, scores: seq<Option<real>>)
    requires Some(score) in scores
    ensures NormalizeScore(Some(score), Some(scores)) <= 100
  {
    var highest := HighestScore(scores);
    assert score in FiniteScores(scores);
    assert score / highest <= 1.0 by {
      assert score <= highest;
      assert score / highest * highest == score;
      if score / highest > 1.0 {
        MulGreater(score / highest, highest);
      }
    }
    RoundMonotone(score / highest * 100.0, 100.0);
  }

  lemma MulGreater(q: real, h: real)
    requires 1.0 < q && 1.0 <= h
    ensures h < q * h
  {
  }

  /** With the same summary, a higher score never gets a shorter bar. */
  lemma NormalizeScoreMonotone(s: real, t: real, scores: Option<seq<Option<real>>>)
    requires s <= t
    ensures NormalizeScore(Some(s), scores) <= NormalizeScore(Some(t), scores)
  {
    if scores.Some? && |scores.value| > 0 {
      var highest := HighestScore(scores.value);
      DivMonotone(s, t, highest);
      RoundMonotone(s / highest * 100.0, t / highest * 100.0);
    }
  }

  lemma DivMonotone(s: real, t: real, h: real)
    requires s <= t && 0.0 < h
    ensures s / h * 100.0 <= t / h * 100.0
  {
    assert s / h <= t / h;
  }

  // ---------------------------------------------------------------------
  // Narrative
  // ---------------------------------------------------------------------

  const WaitingNarrative := "The analytics view will populate once the county boundary and the official local crash-area service respond in the browser."
  const LeadingPhrase := " is currently leading the county-filtered crash view. "
  const TrafficModeSentence := "The traffic overlay is currently using NDOT's local street network as the official traffic context layer."
  const JurisdictionSentence := " State highways and federal interstates are intentionally excluded from the traffic and crash overlays so the map stays focused on Davidson County jurisdiction."

  /**
   * `buildNarrative`: the waiting message when there are no top crash
   * areas; otherwise the first area's name leads the narrative.
   */
  function BuildNarrative(topAreaNames: seq<string>): (r: string)
    ensures |topAreaNames| == 0 ==> r == WaitingNarrative
    ensures |topAreaNames| > 0 ==> StartsWith(r, topAreaNames[0] + LeadingPhrase)
  {
    if |topAreaNames| == 0 then WaitingNarrative
    else
      var lead := topAreaNames[0] + LeadingPhrase;
      var r := lead + TrafficModeSentence + JurisdictionSentence;
      assert r[..|lead|] == lead;
      r
  }

  /** The waiting message appears exactly when there is no top crash area. */
  lemma NarrativeWaitsOnlyWhenEmpty(topAreaNames: seq<string>)
    ensures BuildNarrative(topAreaNames) == WaitingNarrative <==> |topAreaNames| == 0
  {
    if |topAreaNames| > 0 {
      var r := BuildNarrative(topAreaNames);
      var tail := TrafficModeSentence + JurisdictionSentence;
      assert r == (topAreaNames[0] + LeadingPhrase) + tail;
      assert r[|r| - 2] == tail[|tail| - 2] == 'n';
      assert WaitingNarrative[|WaitingNarrative| - 2] == 'r';
    }
  }

  // ---------------------------------------------------------------------
  // Intersection list
  // ---------------------------------------------------------------------

  const ExcludedCorridor := "brick church pike"

  /** `!/brick church pike/i.test(name)`. */
  predicate ShownIntersection(p: IntersectionProject)
  {
    !Contains(Lower(p.name), ExcludedCorridor)
  }

  /** An intersection project with its sidebar selection flag. */
  datatype IntersectionItem = IntersectionItem(project: IntersectionProject, selected: bool)

  /**
   * The sidebar's intersection list: the projects whose names do not
   * mention Brick Church Pike, in order, each selected exactly when its id
   * is the selected id.
   */
  function SidebarIntersections(projects: seq<IntersectionProject>, selectedId: Option<string>): (r: seq<IntersectionItem>)
    ensures var shown := Filter(projects, ShownIntersection);
      |r| == |shown| &&
      forall i :: 0 <= i < |r| ==> r[i].project == shown[i] && (r[i].selected <==> selectedId == Some(shown[i].id))
  {
    var shown := Filter(projects, ShownIntersection);
    seq(|shown|, i requires 0 <= i < |shown| => IntersectionItem(shown[i], selectedId == Some(shown[i].id)))
  }

  /** A project is listed exactly when its name does not mention the corridor. */
  lemma IntersectionListed(projects: seq<IntersectionProject>, selectedId: Option<string>, p: IntersectionProject)
    requires p in projects
    ensures (exists i :: 0 <= i < |SidebarIntersections(projects, selectedId)| && SidebarIntersections(projects, selectedId)[i].project == p)
      <==> !Contains(Lower(p.name), ExcludedCorridor)
  {
    var shown := Filter(projects, ShownIntersection);
    var r := SidebarIntersections(projects, selectedId);
    if ShownIntersection(p) {
      var k :| 0 <= k < |shown| && shown[k] == p;
      assert r[k].project == p;
    }
  }

  predicate DistinctIds(projects: seq<IntersectionProject>)
  {
    forall i, j :: 0 <= i < j < |projects| ==> projects[i].id != projects[j].id
  }

  lemma {:induction false} FilterKeepsDistinctIds(projects: seq<IntersectionProject>)
    requires DistinctIds(projects)
    ensures DistinctIds(Filter(projects, ShownIntersection))
  {
    if |projects| > 0 {
      var tail := projects[1..];
      var rest := Filter(tail, ShownIntersection);
      assert DistinctIds(tail);
      FilterKeepsDistinctIds(tail);
      if ShownIntersection(projects[0]) {
        var r := [projects[0]] + rest;
        forall i, j | 0 <= i < j < |r| ensures r[i].id != r[j].id {
          assert r[j] == rest[j - 1] && r[j] in tail;
          if i > 0 {
            assert r[i] == rest[i - 1];
          } else {
            var m :| 0 <= m < |tail| && tail[m] == r[j];
            assert projects[m + 1] == r[j];
          }
        }
      }
    }
  }

  /** With distinct project ids, at most one listed intersection is selected. */
  lemma AtMostOneSelected(projects: seq<IntersectionProject>, selectedId: Option<string>, i: nat, j: nat)
    requires DistinctIds(projects)
    requires i < j < |SidebarIntersections(projects, selectedId)|
    ensures !(SidebarIntersections(projects, selectedId)[i].selected && SidebarIntersections(projects, selectedId)[j].selected)
  {
    FilterKeepsDistinctIds(projects);
  }

  // ---------------------------------------------------------------------
  // Layer toggle
  // ---------------------------------------------------------------------

  /** A top-level field of the application state: the layer flags, or any other field. */
  datatype StateValue = LayerFlags(flags: map<string, bool>) | OtherField(value: Value)

  /** The layer flags the dashboard starts with: every overlay on except the sidewalks. */
  const InitialLayers: map<string, bool> :=
    map["crashAreas" := true, "traffic" := true, "intersections" := true, "transit" := true, "sidewalks" := false]

  /** `store.getState().layers`; anything other than a flag object spreads as `{}`. */
  function LayersOf(state: map<string, StateValue>): map<string, bool>
  {
    if "layers" in state && state["layers"].LayerFlags? then state["layers"].flags else map[]
  }

  /** `{ ...layers, [key]: !layers[key] }`: an absent flag reads as `undefined`, so it turns on. */
  function ToggledLayers(layers: map<string, bool>, key: string): (r: map<string, bool>)
    ensures key in r && r[key] == !(key in layers && layers[key])
    ensures forall k :: k != key ==> (k in r <==> k in layers)
    ensures forall k :: k != key && k in layers ==> r[k] == layers[k]
  {
    layers[key := !(key in layers && layers[key])]
  }

  /** Toggling a present flag twice restores the flags. */
  lemma ToggleTwice(layers: map<string, bool>, key: string)
    requires key in layers
    ensures ToggledLayers(ToggledLayers(layers, key), key) == layers
  {
  }

  /** Toggling a layer of the initial flags flips that one layer and no other. */
  lemma ToggleInitialLayer(key: string)
    requires key in InitialLayers
    ensures var r := ToggledLayers(InitialLayers, key);
      r.Keys == InitialLayers.Keys && r[key] != InitialLayers[key] &&
      forall k :: k in InitialLayers && k != key ==> r[k] == InitialLayers[k]
  {
  }

  /**
   * `actions.toggleLayer`: patches the store with the flipped flags, which
   * notifies every listener. The follow-up requests it starts are network
   * work.
   */
  method ToggleLayer(store: Store<StateValue>, layerKey: string)
    requires store.Valid()
    modifies store
    ensures store.Valid()
    ensures store.state == Merge(old(store.state), map["layers" := LayerFlags(ToggledLayers(LayersOf(old(store.state)), layerKey))])
    ensures LayersOf(store.state) == ToggledLayers(LayersOf(old(store.state)), layerKey)
    ensures forall k :: k in old(store.state) && k != "layers" ==> k in store.state && store.state[k] == old(store.state)[k]
    ensures store.listeners == old(store.listeners)
    ensures store.notified == old(store.notified) + Broadcast(store.listeners, store.state)
  {
    var current := store.GetState();
    var nextLayers := ToggledLayers(LayersOf(current), layerKey);
    store.Patch(map["layers" := LayerFlags(nextLayers)]);
  }
}
