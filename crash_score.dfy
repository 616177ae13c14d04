/**
 * The crash-area service: it profiles the numeric attributes of a layer
 * whose schema is not known in advance, ranks them with fixed weights,
 * normalises the chosen severity column to a 0..100 score (falling back to
 * the service order), labels each area and summarises the top areas.
 */
module CrashService {
  import opened Geo
  import opened Text
  import opened Sorting
  import opened Jurisdiction

  function Min(a: real, b: real): real
  {
    if a <= b then a else b
  }

  function Max(a: real, b: real): real
  {
    if a >= b then a else b
  }

  // ---------------------------------------------------------------------
  // Numeric profiles
  // ---------------------------------------------------------------------

  /** One entry of the `profiles` map while the features are scanned. */
  datatype Accumulator = Accumulator(key: string, count: nat, min: real, max: real, distinctValues: set<real>)

  /** The `profiles` map: its entries and its keys in the order they were first set. */
  datatype ProfileTable = ProfileTable(order: seq<string>, entries: map<string, Accumulator>)

  /** The summary `collectNumericProfiles` returns for one attribute. */
  datatype Profile = Profile(key: string, count: nat, min: real, max: real, range: real, distinctCount: nat)

  /** One finite value seen for an existing profile; the distinct set stops growing at 80 values. */
  function Observe(a: Accumulator, value: real): Accumulator
  {
    Accumulator(a.key, a.count + 1, Min(a.min, value), Max(a.max, value),
      if |a.distinctValues| < 80 then a.distinctValues + {value} else a.distinctValues)
  }

  /** `profiles.get(key) ?? { key, count: 0, min: value, max: value, ... }`, observed and set back. */
  function Record(t: ProfileTable, key: string, value: real): ProfileTable
  {
    if key in t.entries then ProfileTable(t.order, t.entries[key := Observe(t.entries[key], value)])
    else ProfileTable(t.order + [key], t.entries[key := Observe(Accumulator(key, 0, value, value, {}), value)])
  }

  /** The entries of one feature's properties, first to last; only finite numbers are recorded. */
  function RecordEntries(t: ProfileTable, entries: Properties): ProfileTable
  {
    if |entries| == 0 then t
    else
      var before := RecordEntries(t, entries[..|entries| - 1]);
      var e := entries[|entries| - 1];
      if e.value.Num? then Record(before, e.key, e.value.n) else before
  }

  /** The table after scanning every feature in order. */
  function CollectTable(features: seq<Feature>): ProfileTable
  {
    if |features| == 0 then ProfileTable([], map[])
    else RecordEntries(CollectTable(features[..|features| - 1]), features[|features| - 1].properties)
  }

  /** The finite values of `key` in `entries`, in order. */
  function EntryValues(entries: Properties, key: string): seq<real>
  {
    if |entries| == 0 then []
    else
      var e := entries[|entries| - 1];
      EntryValues(entries[..|entries| - 1], key) + (if e.key == key && e.value.Num? then [e.value.n] else [])
  }

  /** Every finite value of `key` across the features, in scan order. */
  function NumericValues(features: seq<Feature>, key: string): seq<real>
  {
    if |features| == 0 then []
    else NumericValues(features[..|features| - 1], key) + EntryValues(features[|features| - 1].properties, key)
  }

  ghost function ValueSet(vs: seq<real>): set<real>
  {
    set v | v in vs
  }

  /** `a` is the accumulated summary of the values `vs` of `key`. */
  ghost predicate Summarises(a: Accumulator, key: string, vs: seq<real>)
  {
    a.key == key && a.count == |vs| && a.min in vs && a.max in vs &&
    (forall v :: v in vs ==> a.min <= v <= a.max) &&
    |a.distinctValues| <= 80 && |a.distinctValues| <= a.count &&
    a.distinctValues <= ValueSet(vs) &&
    (|a.distinctValues| < 80 ==> a.distinctValues == ValueSet(vs))
  }

  ghost predicate NoDuplicates(s: seq<string>)
  {
    forall i, j :: 0 <= i < j < |s| ==> s[i] != s[j]
  }

  /** `t` holds exactly the keys with values in `vals`, each summarising its values. */
  ghost predicate Describes(t: ProfileTable, vals: string -> seq<real>)
  {
    NoDuplicates(t.order) &&
    (forall k :: k in t.order <==> k in t.entries) &&
    (forall k :: k in t.entries <==> |vals(k)| > 0) &&
    (forall k :: k in t.entries ==> Summarises(t.entries[k], k, vals(k)))
  }

  lemma ObserveSummarises(a: Accumulator, key: string, vs: seq<real>, value: real)
    requires Summarises(a, key, vs)
    ensures Summarises(Observe(a, value), key, vs + [value])
  {
    var b := Observe(a, value);
    assert ValueSet(vs + [value]) == ValueSet(vs) + {value};
    forall v | v in vs + [value] ensures b.min <= v <= b.max {
      if v != value {
        assert v in vs;
      }
    }
  }

  lemma FirstSummarises(key: string, value: real)
    ensures Summarises(Observe(Accumulator(key, 0, value, value, {}), value), key, [value])
  {
    assert ValueSet([value]) == {value};
  }

  lemma RecordDescribes(t: ProfileTable, vals: string -> seq<real>, key: string, value: real, after: string -> seq<real>)
    requires Describes(t, vals)
    requires forall k :: after(k) == if k == key then vals(k) + [value] else vals(k)
    ensures Describes(Record(t, key, value), after)
  {
    if key in t.entries {
      RecordExistingDescribes(t, vals, key, value, after);
    } else {
      RecordNewDescribes(t, vals, key, value, after);
    }
  }

  lemma RecordExistingDescribes(t: ProfileTable, vals: string -> seq<real>, key: string, value: real, after: string -> seq<real>)
    requires Describes(t, vals) && key in t.entries
    requires forall k :: after(k) == if k == key then vals(k) + [value] else vals(k)
    ensures Describes(Record(t, key, value), after)
  {
    ObserveSummarises(t.entries[key], key, vals(key), value);
  }

  lemma RecordNewDescribes(t: ProfileTable, vals: string -> seq<real>, key: string, value: real, after: string -> seq<real>)
    requires Describes(t, vals) && key !in t.entries
    requires forall k :: after(k) == if k == key then vals(k) + [value] else vals(k)
    ensures Describes(Record(t, key, value), after)
  {
    var r := Record(t, key, value);
    FirstSummarises(key, value);
    assert vals(key) == [];
    assert after(key) == [value];
    assert key !in t.order;
    forall i, j | 0 <= i < j < |r.order| ensures r.order[i] != r.order[j] {
      if j == |t.order| {
        assert r.order[i] == t.order[i] && r.order[i] in t.order;
      }
    }
  }

  lemma {:induction false} RecordEntriesDescribes(t: ProfileTable, vals: string -> seq<real>, entries: Properties)
    requires Describes(t, vals)
    ensures Describes(RecordEntries(t, entries), k => vals(k) + EntryValues(entries, k))
  {
    var after: string -> seq<real> := k => vals(k) + EntryValues(entries, k);
    if |entries| > 0 {
      var init := entries[..|entries| - 1];
      var e := entries[|entries| - 1];
      RecordEntriesDescribes(t, vals, init);
      var mid: string -> seq<real> := k => vals(k) + EntryValues(init, k);
      forall k ensures after(k) == mid(k) + (if k == e.key && e.value.Num? then [e.value.n] else []) {
      }
      RecordEntryDescribes(RecordEntries(t, init), mid, e, after);
    } else {
      forall k ensures after(k) == vals(k) {
      }
      DescribesSameValues(t, vals, after);
    }
  }

  /** One more entry: a finite number is recorded, anything else changes nothing. */
  lemma RecordEntryDescribes(before: ProfileTable, mid: string -> seq<real>, e: Entry, after: string -> seq<real>)
    requires Describes(before, mid)
    requires forall k :: after(k) == mid(k) + (if k == e.key && e.value.Num? then [e.value.n] else [])
    ensures Describes(if e.value.Num? then Record(before, e.key, e.value.n) else before, after)
  {
    if e.value.Num? {
      forall k ensures after(k) == if k == e.key then mid(k) + [e.value.n] else mid(k) {
        assert mid(k) + [] == mid(k);
      }
      RecordDescribes(before, mid, e.key, e.value.n, after);
    } else {
      forall k ensures after(k) == mid(k) {
        assert mid(k) + [] == mid(k);
      }
      DescribesSameValues(before, mid, after);
    }
  }

  lemma DescribesSameValues(t: ProfileTable, f: string -> seq<real>, g: string -> seq<real>)
    requires Describes(t, f)
    requires forall k :: f(k) == g(k)
    ensures Describes(t, g)
  {
  }

  /** The scan summarises, for every attribute name, exactly its finite values. */
  lemma {:induction false} CollectTableDescribes(features: seq<Feature>)
    ensures Describes(CollectTable(features), k => NumericValues(features, k))
  {
    if |features| == 0 {
      DescribesEmpty(k => NumericValues(features, k));
    } else {
      var init := features[..|features| - 1];
      var last := features[|features| - 1];
      CollectTableDescribes(init);
      RecordEntriesDescribes(CollectTable(init), k => NumericValues(init, k), last.properties);
      forall k ensures NumericValues(init, k) + EntryValues(last.properties, k) == NumericValues(features, k) {
      }
      DescribesSameValues(CollectTable(features),
        k => NumericValues(init, k) + EntryValues(last.properties, k), k => NumericValues(features, k));
    }
  }

  lemma DescribesEmpty(vals: string -> seq<real>)
    requires forall k :: vals(k) == []
    ensures Describes(ProfileTable([], map[]), vals)
  {
  }

  function ToProfile(a: Accumulator): Profile
  {
    Profile(a.key, a.count, a.min, a.max, a.max - a.min, |a.distinctValues|)
  }

  /** A profile as every profile of the scan is. */
  predicate WellFormedProfile(p: Profile)
  {
    p.count >= 1 && p.min <= p.max && p.range == p.max - p.min && p.range >= 0.0 &&
    p.distinctCount <= p.count && p.distinctCount <= 80
  }

  /** Every key in the table's order has an entry. */
  ghost predicate OrderKeyed(t: ProfileTable)
  {
    forall k :: k in t.order ==> k in t.entries
  }

  /** The profiles of the table's entries, in key order. */
  function ProfilesOf(t: ProfileTable): seq<Profile>
    requires OrderKeyed(t)
  {
    seq(|t.order|, i requires 0 <= i < |t.order| => ToProfile(t.entries[t.order[i]]))
  }

  /**
   * `collectNumericProfiles`, as a value: one profile per attribute name
   * with a finite number somewhere, in the order the names were first seen.
   */
  function NumericProfiles(features: seq<Feature>): (r: seq<Profile>)
    ensures forall p :: p in r ==> WellFormedProfile(p)
  {
    var t := CollectTable(features);
    CollectTableDescribes(features);
    var r := ProfilesOf(t);
    assert forall p :: p in r ==> WellFormedProfile(p) by {
      forall p | p in r ensures WellFormedProfile(p) {
        var i :| 0 <= i < |r| && r[i] == p;
        assert t.order[i] in t.entries;
        assert |t.entries[t.order[i]].distinctValues| <= t.entries[t.order[i]].count;
      }
    }
    r
  }

  /**
   * Every profile describes its attribute: the count is the number of its
   * finite values, the bounds are the least and the greatest of them, and
   * the distinct count is the number of distinct values up to 80. The
   * profiles are exactly the attributes with a finite value, each once.
   */
  lemma NumericProfilesSummarise(features: seq<Feature>)
    ensures var r := NumericProfiles(features);
      (forall i, j :: 0 <= i < j < |r| ==> r[i].key != r[j].key) &&
      (forall key :: (exists i :: 0 <= i < |r| && r[i].key == key) <==> |NumericValues(features, key)| > 0) &&
      (forall p :: p in r ==>
        var vs := NumericValues(features, p.key);
        p.count == |vs| && p.min in vs && p.max in vs && (forall v :: v in vs ==> p.min <= v <= p.max) &&
        p.distinctCount == (if |ValueSet(vs)| < 80 then |ValueSet(vs)| else 80))
  {
    var r := NumericProfiles(features);
    forall i, j | 0 <= i < j < |r| ensures r[i].key != r[j].key {
      ProfileKeysDistinct(features, i, j);
    }
    forall key ensures (exists i :: 0 <= i < |r| && r[i].key == key) <==> |NumericValues(features, key)| > 0 {
      if |NumericValues(features, key)| > 0 {
        var i := ProfileForKey(features, key);
      }
      if exists i :: 0 <= i < |r| && r[i].key == key {
        var i :| 0 <= i < |r| && r[i].key == key;
        ProfileAt(features, i);
      }
    }
    forall p | p in r ensures
      var vs := NumericValues(features, p.key);
      p.count == |vs| && p.min in vs && p.max in vs && (forall v :: v in vs ==> p.min <= v <= p.max) &&
      p.distinctCount == (if |ValueSet(vs)| < 80 then |ValueSet(vs)| else 80)
    {
      var i :| 0 <= i < |r| && r[i] == p;
      ProfileAt(features, i);
    }
  }

  /** The profile at `i` summarises the finite values of its key. */
  lemma ProfileAt(features: seq<Feature>, i: nat)
    requires i < |NumericProfiles(features)|
    ensures var p := NumericProfiles(features)[i];
      var vs := NumericValues(features, p.key);
      p.count == |vs| && p.min in vs && p.max in vs && (forall v :: v in vs ==> p.min <= v <= p.max) &&
      p.distinctCount == (if |ValueSet(vs)| < 80 then |ValueSet(vs)| else 80)
  {
    var t := CollectTable(features);
    CollectTableDescribes(features);
    var key := t.order[i];
    var a := t.entries[key];
    var vs := NumericValues(features, key);
    assert NumericProfiles(features)[i] == ToProfile(a);
    assert Summarises(a, key, vs);
    if |a.distinctValues| >= 80 {
      SubsetCard(a.distinctValues, ValueSet(vs));
    }
  }

  /** No key has two profiles. */
  lemma ProfileKeysDistinct(features: seq<Feature>, i: nat, j: nat)
    requires i < j < |NumericProfiles(features)|
    ensures NumericProfiles(features)[i].key != NumericProfiles(features)[j].key
  {
    var t := CollectTable(features);
    CollectTableDescribes(features);
    var r := NumericProfiles(features);
    assert r[i] == ToProfile(t.entries[t.order[i]]) && r[j] == ToProfile(t.entries[t.order[j]]);
    assert Summarises(t.entries[t.order[i]], t.order[i], NumericValues(features, t.order[i]));
    assert Summarises(t.entries[t.order[j]], t.order[j], NumericValues(features, t.order[j]));
  }

  /** Every key with a finite value has a profile. */
  lemma ProfileForKey(features: seq<Feature>, key: string) returns (i: nat)
    requires |NumericValues(features, key)| > 0
    ensures i < |NumericProfiles(features)| && NumericProfiles(features)[i].key == key
  {
    var t := CollectTable(features);
    CollectTableDescribes(features);
    assert key in t.order;
    i :| 0 <= i < |t.order| && t.order[i] == key;
    assert Summarises(t.entries[key], key, NumericValues(features, key));
  }

  lemma SubsetCard(a: set<real>, b: set<real>)
    requires a <= b
    ensures |a| <= |b|
  {
    assert b == a + (b - a);
  }

  /**
   * `collectNumericProfiles`: the nested scan over every feature's entries,
   * getting or creating the profile of each finite number and updating its
   * count, bounds and distinct values in place, then one profile per key.
   */
  method CollectNumericProfiles(features: seq<Feature>) returns (profiles: seq<Profile>)
    ensures profiles == NumericProfiles(features)
  {
    var order, entries := ScanFeatures(features);
    CollectTableDescribes(features);
    profiles := EmitProfiles(order, entries);
  }

  /** The scan: the `profiles` map after every feature's entries, in order. */
  method ScanFeatures(features: seq<Feature>) returns (order: seq<string>, entries: map<string, Accumulator>)
    ensures ProfileTable(order, entries) == CollectTable(features)
  {
    order := [];
    entries := map[];
    for f := 0 to |features|
      invariant ProfileTable(order, entries) == CollectTable(features[..f])
    {
      var properties := features[f].properties;
      assert features[..f + 1][..f] == features[..f];
      for e := 0 to |properties|
        invariant ProfileTable(order, entries) == RecordEntries(CollectTable(features[..f]), properties[..e])
      {
        assert properties[..e + 1][..e] == properties[..e];
        var key := properties[e].key;
        var value := properties[e].value;
        if value.Num? {
          var profile := if key in entries then entries[key] else Accumulator(key, 0, value.n, value.n, {});
          var distinctValues := profile.distinctValues;
          if |distinctValues| < 80 {
            distinctValues := distinctValues + {value.n};
          }
          profile := Accumulator(profile.key, profile.count + 1, Min(profile.min, value.n), Max(profile.max, value.n), distinctValues);
          if key !in entries {
            order := order + [key];
          }
          entries := entries[key := profile];
        }
      }
      assert properties[..|properties|] == properties;
    }
    assert features[..|features|] == features;
  }

  /** `[...profiles.values()].map(...)`: one summary per key, in insertion order. */
  method EmitProfiles(order: seq<string>, entries: map<string, Accumulator>) returns (profiles: seq<Profile>)
    requires OrderKeyed(ProfileTable(order, entries))
    ensures profiles == ProfilesOf(ProfileTable(order, entries))
  {
    profiles := [];
    for i := 0 to |order|
      invariant |profiles| == i
      invariant forall j :: 0 <= j < i ==> profiles[j] == ToProfile(entries[order[j]])
    {
      var profile := entries[order[i]];
      profiles := profiles + [Profile(profile.key, profile.count, profile.min, profile.max, profile.max - profile.min, |profile.distinctValues|)];
    }
  }


  // ---------------------------------------------------------------------
  // Ranking the profiles
  // ---------------------------------------------------------------------

  /** `isExcludedNumericField`: identifiers, geometry, dates and coordinates, case-insensitively. */
  predicate IsExcludedNumericField(key: string)
  {
    var k := Lower(key);
    Contains(k, "objectid") || Contains(k, "shape") || Contains(k, "globalid") || k == "fid" ||
    EndsWith(k, "id") || Contains(k, "length") || Contains(k, "area") || Contains(k, "year") ||
    Contains(k, "month") || Contains(k, "day") || Contains(k, "lat") || Contains(k, "lon") ||
    Contains(k, "xcoord") || Contains(k, "ycoord")
  }

  predicate SeverityWord(lowerKey: string)
  {
    Contains(lowerKey, "score") || Contains(lowerKey, "severity") || Contains(lowerKey, "injury") ||
    Contains(lowerKey, "fatal") || Contains(lowerKey, "crash") || Contains(lowerKey, "risk") ||
    Contains(lowerKey, "weighted") || Contains(lowerKey, "index")
  }

  predicate RankWord(lowerKey: string)
  {
    Contains(lowerKey, "rank") || Contains(lowerKey, "ranking") || Contains(lowerKey, "priority") ||
    Contains(lowerKey, "order") || Contains(lowerKey, "hin")
  }

  predicate CountWord(lowerKey: string)
  {
    Contains(lowerKey, "count") || Contains(lowerKey, "total") || Contains(lowerKey, "sum")
  }

  /** At most one vocabulary bonus: 140 for severity words, else 120 for rank words, else 70 for count words. */
  function VocabularyBonus(lowerKey: string): (r: real)
    ensures r == 140.0 || r == 120.0 || r == 70.0 || r == 0.0
  {
    if SeverityWord(lowerKey) then 140.0
    else if RankWord(lowerKey) then 120.0
    else if CountWord(lowerKey) then 70.0
    else 0.0
  }

  /** The weight `scoreNumericProfile` gives a profile. */
  function ProfileScore(p: Profile): real
  {
    VocabularyBonus(Lower(p.key)) + 2.0 * p.distinctCount as real + p.count as real + Min(40.0, p.range)
      - (if IsExcludedNumericField(p.key) then 300.0 else 0.0)
  }

  /** `scoreNumericProfile`: the score accumulated term by term. */
  method ScoreNumericProfile(p: Profile) returns (score: real)
    ensures score == ProfileScore(p)
  {
    var lowerKey := Lower(p.key);
    score := 0.0;
    if SeverityWord(lowerKey) {
      score := score + 140.0;
    } else if RankWord(lowerKey) {
      score := score + 120.0;
    } else if CountWord(lowerKey) {
      score := score + 70.0;
    }
    score := score + p.distinctCount as real * 2.0;
    score := score + p.count as real;
    score := score + Min(40.0, p.range);
    if IsExcludedNumericField(p.key) {
      score := score - 300.0;
    }
  }

  /**
   * The exclusion penalty outweighs any vocabulary bonus: of two profiles
   * with the same counts and range, an excluded one always scores lower
   * than one that is not excluded.
   */
  lemma ExcludedScoresLower(p: Profile, q: Profile)
    requires IsExcludedNumericField(p.key) && !IsExcludedNumericField(q.key)
    requires p.count == q.count && p.distinctCount == q.distinctCount && p.range == q.range
    ensures ProfileScore(p) < ProfileScore(q)
  {
    var _ := VocabularyBonus(Lower(p.key));
    var _ := VocabularyBonus(Lower(q.key));
  }

  /** More values, more distinct values or a wider range never lower a profile's score. */
  lemma ScoreMonotone(p: Profile, q: Profile)
    requires p.key == q.key && p.count <= q.count && p.distinctCount <= q.distinctCount && p.range <= q.range
    ensures ProfileScore(p) <= ProfileScore(q)
  {
  }

  /**
   * The ranking comparator: `left` sorts before `right` when its score is
   * higher, then when it has more distinct values, then more values.
   */
  predicate Better(left: Profile, right: Profile)
  {
    var ls := ProfileScore(left);
    var rs := ProfileScore(right);
    ls > rs || (ls == rs && (left.distinctCount > right.distinctCount ||
      (left.distinctCount == right.distinctCount && left.count > right.count)))
  }

  lemma BetterIsStrictWeakOrder(s: seq<Profile>)
    ensures StrictWeakOrder(s, Better)
  {
  }

  function Threshold(featureCount: nat): nat
  {
    var share := (35 * featureCount) / 100;
    if share > 5 then share else 5
  }

  /** A candidate: not excluded by name, more than one distinct value, and enough values. */
  predicate Qualifies(p: Profile, featureCount: nat)
  {
    !IsExcludedNumericField(p.key) && p.distinctCount > 1 && p.count >= Threshold(featureCount)
  }

  /** The candidates when any profile qualifies, otherwise every profile. */
  function RankingPool(profiles: seq<Profile>, featureCount: nat): (r: seq<Profile>)
    ensures |r| == 0 <==> |profiles| == 0
    ensures forall p :: p in r ==> p in profiles
    ensures (exists p :: p in profiles && Qualifies(p, featureCount)) ==> forall p :: p in r ==> Qualifies(p, featureCount)
    ensures (forall p :: p in profiles ==> !Qualifies(p, featureCount)) ==> r == profiles
    ensures (exists p :: p in profiles && Qualifies(p, featureCount)) ==>
      (forall p :: p in profiles && Qualifies(p, featureCount) ==> p in r) &&
      r == Filter(profiles, p => Qualifies(p, featureCount))
  {
    var candidates := Filter(profiles, p => Qualifies(p, featureCount));
    assert (exists p :: p in profiles && Qualifies(p, featureCount)) ==> |candidates| > 0 by {
      if p :| p in profiles && Qualifies(p, featureCount) {
        assert p in candidates;
      }
    }
    assert |candidates| > 0 ==> candidates[0] in candidates;
    if |candidates| > 0 then candidates else profiles
  }

  datatype ScoreProfile = ScoreProfile(key: string, count: nat, min: real, max: real, range: real, distinctCount: nat, isRankLike: bool)

  /** `/rank|ranking|priority|order/i` matches and `/score/i` does not. */
  predicate IsRankLike(key: string)
  {
    var k := Lower(key);
    (Contains(k, "rank") || Contains(k, "ranking") || Contains(k, "priority") || Contains(k, "order")) &&
    !Contains(k, "score")
  }

  function WithRankFlag(p: Profile): ScoreProfile
  {
    ScoreProfile(p.key, p.count, p.min, p.max, p.range, p.distinctCount, IsRankLike(p.key))
  }

  /** The first profile after the stable sort by `Better`. */
  function RankedFirst(pool: seq<Profile>): (r: Profile)
    requires |pool| > 0
    ensures r in pool
  {
    var ranked := SortBy(pool, Better);
    assert |multiset(ranked)| == |multiset(pool)|;
    assert ranked[0] in multiset(pool);
    ranked[0]
  }

  /**
   * `inferCrashScoreProfile`: the first profile of the pool after the
   * stable ranking sort, or `null` when there is none or its range is not
   * positive.
   */
  function InferCrashScoreProfile(features: seq<Feature>): (r: Option<ScoreProfile>)
    ensures r.Some? ==> r.value.range > 0.0 && r.value.range == r.value.max - r.value.min && r.value.count >= 1
  {
    var profiles := NumericProfiles(features);
    var pool := RankingPool(profiles, |features|);
    if |pool| == 0 then None
    else
      var best := RankedFirst(pool);
      assert best in profiles;
      if best.range <= 0.0 then None else Some(WithRankFlag(best))
  }

  /** The first profile of `pool` that no profile beats, every earlier one being beaten by it. */
  ghost predicate FirstBestAt(pool: seq<Profile>, k: int)
  {
    0 <= k < |pool| &&
    (forall q :: q in pool ==> !Better(q, pool[k])) &&
    (forall i :: 0 <= i < k ==> Better(pool[k], pool[i]))
  }

  /**
   * The inferred profile is the pool's first best profile, flagged for
   * rank-like names, and there is none exactly when the pool is empty or
   * that best profile has no positive range, whatever the others' ranges.
   */
  lemma InferChoosesFirstBest(features: seq<Feature>) returns (k: nat)
    ensures var pool := RankingPool(NumericProfiles(features), |features|);
      var r := InferCrashScoreProfile(features);
      (|pool| == 0 ==> r.None?) &&
      (|pool| > 0 ==>
        FirstBestAt(pool, k) && (r.None? <==> pool[k].range <= 0.0) && (r.Some? ==> r.value == WithRankFlag(pool[k])))
  {
    var pool := RankingPool(NumericProfiles(features), |features|);
    k := 0;
    if |pool| > 0 {
      BetterIsStrictWeakOrder(pool);
      k := SortByHead(pool, Better);
      assert RankedFirst(pool) == pool[k];
    }
  }

  /** At most one profile of a pool is its first best one. */
  lemma FirstBestUnique(pool: seq<Profile>, k: int, m: int)
    requires FirstBestAt(pool, k) && FirstBestAt(pool, m)
    ensures k == m
  {
    assert pool[k] in pool && pool[m] in pool;
  }

  // ---------------------------------------------------------------------
  // Scores and labels
  // ---------------------------------------------------------------------

  /** `clamp(value, min, max)`: `Math.min(max, Math.max(min, value))`. */
  function Clamp(value: int, lo: int, hi: int): (r: int)
    ensures lo <= hi ==> lo <= r <= hi
    ensures lo <= value <= hi ==> r == value
    ensures lo <= hi && value < lo ==> r == lo
    ensures lo <= hi && value > hi ==> r == hi
  {
    var atLeast := if lo > value then lo else value;
    if hi < atLeast then hi else atLeast
  }

  /** The raw value's place in the profile's range, as a percentage, reversed for rank-like columns. */
  function Percentage(raw: real, profile: ScoreProfile): real
    requires profile.range > 0.0
  {
    var position := (raw - profile.min) / profile.range;
    if profile.isRankLike then 100.0 - position * 100.0 else position * 100.0
  }

  /** `normalizeCrashScore`: `null` without a positive range, otherwise the rounded percentage clamped to 0..100. */
  function NormalizeCrashScore(raw: real, profile: ScoreProfile): (r: Option<int>)
    ensures r.None? <==> profile.range <= 0.0
    ensures r.Some? ==> 0 <= r.value <= 100
  {
    if profile.range <= 0.0 then None else Some(Clamp(Round(Percentage(raw, profile)), 0, 100))
  }

  /** The endpoints of the range map to the ends of the scale: the minimum to 0, the maximum to 100, reversed when rank-like. */
  lemma NormalizeEndpoints(profile: ScoreProfile)
    requires profile.range > 0.0 && profile.range == profile.max - profile.min
    ensures NormalizeCrashScore(profile.min, profile) == Some(if profile.isRankLike then 100 else 0)
    ensures NormalizeCrashScore(profile.max, profile) == Some(if profile.isRankLike then 0 else 100)
  {
    assert (profile.max - profile.min) / profile.range == 1.0;
    assert (profile.min - profile.min) / profile.range == 0.0;
  }

  lemma QuotientMonotone(a: real, b: real, d: real)
    requires a <= b && d > 0.0
    ensures a / d <= b / d
  {
    assert b / d - a / d == (b - a) / d;
  }

  /** A higher raw value never scores lower, or never higher for a rank-like column. */
  lemma NormalizeMonotone(x: real, y: real, profile: ScoreProfile)
    requires x <= y && profile.range > 0.0
    ensures var nx := NormalizeCrashScore(x, profile).value;
      var ny := NormalizeCrashScore(y, profile).value;
      if profile.isRankLike then ny <= nx else nx <= ny
  {
    QuotientMonotone(x - profile.min, y - profile.min, profile.range);
    if profile.isRankLike {
      RoundMonotone(Percentage(y, profile), Percentage(x, profile));
    } else {
      RoundMonotone(Percentage(x, profile), Percentage(y, profile));
    }
  }

  /** `Number.isInteger(raw) ? raw : raw.toFixed(1)`, as the template literal renders it. */
  function ScoreText(raw: real): string
  {
    if raw.Floor as real == raw then IntToString(raw.Floor) else ToFixedOne(raw)
  }

  /** The text shows the raw value to within a twentieth, and exactly when it is an integer. */
  lemma ScoreTextValue(raw: real)
    ensures ParseNumber(ScoreText(raw)).Some?
    ensures var v := ParseNumber(ScoreText(raw)).value;
      raw - 1.0 / 20.0 <= v <= raw + 1.0 / 20.0 && (raw.Floor as real == raw ==> v == raw)
  {
    if raw.Floor as real == raw {
      IntToStringRoundTrip(raw.Floor);
    } else {
      ToFixedOneRoundTrip(raw);
      var magnitude := if raw < 0.0 then -raw else raw;
      assert Tenths(raw) == Round(10.0 * magnitude);
    }
  }

  function ReplaceUnderscores(s: string): (r: string)
    ensures |r| == |s| && '_' !in r
  {
    seq(|s|, i requires 0 <= i < |s| => if s[i] == '_' then ' ' else s[i])
  }

  /**
   * `formatCrashScoreLabel`: "Rank <value>" for a rank-like column,
   * otherwise the column name with underscores as spaces, trimmed, then
   * ": <value>".
   */
  function FormatCrashScoreLabel(raw: real, profile: ScoreProfile): (r: string)
    ensures EndsWith(r, ScoreText(raw))
    ensures profile.isRankLike ==> StartsWith(r, "Rank ")
    ensures !profile.isRankLike ==> '_' !in r[..|r| - |ScoreText(raw)|]
  {
    var rounded := ScoreText(raw);
    var prefix := if profile.isRankLike then "Rank " else Trim(ReplaceUnderscores(profile.key)) + ": ";
    assert !profile.isRankLike ==> '_' !in prefix by {
      if !profile.isRankLike {
        var title := Trim(ReplaceUnderscores(profile.key));
        TrimIsInfix(ReplaceUnderscores(profile.key));
        assert forall c :: c in title ==> c in ReplaceUnderscores(profile.key);
      }
    }
    var r := prefix + rounded;
    assert r[|r| - |rounded|..] == rounded;
    assert r[..|prefix|] == prefix;
    r
  }

  datatype CrashScore = CrashScore(normalized: Option<int>, raw: Option<real>, scoreLabel: Option<string>, source: Option<string>)

  /** The fallback score from the service order: 100 times the share of the list at or after `index`, scaled by `total - 1`. */
  function ServiceOrderScore(index: nat, total: nat): int
  {
    var denominator := if total - 1 > 1 then total - 1 else 1;
    Round((total - index) as real / denominator as real * 100.0)
  }

  /** The column value, when the profile's column holds a finite number for this area and its range is positive. */
  function ColumnValue(properties: Properties, profile: Option<ScoreProfile>): (r: Option<real>)
    ensures r.Some? ==> profile.Some? && profile.value.range > 0.0 && ToNumber(Get(properties, profile.value.key)) == r
  {
    if profile.None? || profile.value.range <= 0.0 then None
    else ToNumber(Get(properties, profile.value.key))
  }

  /**
   * `buildCrashScore`: the normalised column value when there is one, else
   * the service order (first area highest), else, for an empty list, all
   * `null`.
   */
  function BuildCrashScore(properties: Properties, profile: Option<ScoreProfile>, index: nat, total: nat): (r: CrashScore)
    ensures ColumnValue(properties, profile).Some? ==>
      var raw := ColumnValue(properties, profile).value;
      r.source == Some(profile.value.key) && r.raw == Some(raw) &&
      r.normalized == NormalizeCrashScore(raw, profile.value) &&
      r.normalized.Some? && 0 <= r.normalized.value <= 100 &&
      r.scoreLabel == Some(FormatCrashScoreLabel(raw, profile.value))
    ensures ColumnValue(properties, profile).None? && total == 0 ==> r == CrashScore(None, None, None, None)
    ensures ColumnValue(properties, profile).None? && total > 0 ==>
      r.source == Some("serviceOrder") && r.normalized == Some(ServiceOrderScore(index, total)) &&
      r.raw == Some((index + 1) as real) && r.scoreLabel == Some("Service order " + NatToString(index + 1))
  {
    var raw := ColumnValue(properties, profile);
    if raw.Some? then
      CrashScore(NormalizeCrashScore(raw.value, profile.value), raw, Some(FormatCrashScoreLabel(raw.value, profile.value)), Some(profile.value.key))
    else if total == 0 then CrashScore(None, None, None, None)
    else CrashScore(Some(ServiceOrderScore(index, total)), Some((index + 1) as real),
      Some("Service order " + NatToString(index + 1)), Some("serviceOrder"))
  }

  /** Later areas never get a higher service-order score. */
  lemma ServiceOrderNonIncreasing(i: nat, j: nat, total: nat)
    requires i <= j
    ensures ServiceOrderScore(j, total) <= ServiceOrderScore(i, total)
  {
    var d := (if total - 1 > 1 then total - 1 else 1) as real;
    QuotientMonotone((total - j) as real, (total - i) as real, d);
    RoundMonotone((total - j) as real / d * 100.0, (total - i) as real / d * 100.0);
  }

  /** The service-order score is not clamped: the first of four areas scores 133. */
  lemma ServiceOrderExceedsHundred()
    ensures ServiceOrderScore(0, 4) == 133
  {
    assert 4.0 / 3.0 * 100.0 + 1.0 / 2.0 == 803.0 / 6.0;
  }

  // ---------------------------------------------------------------------
  // Normalised areas and the summary
  // ---------------------------------------------------------------------

  const PreferredLabelKeys: seq<string> := [
    "name", "Name", "NAME", "area_name", "AREA_NAME", "street", "Street", "STREET",
    "road", "Road", "ROAD", "location", "Location", "LOCATION", "corridor", "Corridor",
    "CORRIDOR", "route", "Route", "ROUTE", "label", "Label", "LABEL"]

  /** `inferLabelKeys`: the preferred label keys, in preference order, that the first feature has. */
  function InferLabelKeys(features: seq<Feature>): (r: seq<string>)
    ensures forall k :: k in r <==> k in PreferredLabelKeys && |features| > 0 && k in Keys(features[0].properties)
  {
    var keys := if |features| > 0 then Keys(features[0].properties) else [];
    Filter(PreferredLabelKeys, k => k in keys)
  }

  function NumberOrNull(v: Option<int>): Value
  {
    if v.Some? then Num(v.value as real) else Null
  }

  function RealOrNull(v: Option<real>): Value
  {
    if v.Some? then Num(v.value) else Null
  }

  function TextOrNull(v: Option<string>): Value
  {
    if v.Some? then Str(v.value) else Null
  }

  /** The display name: the first label found, or "Crash area N". */
  function CrashAreaName(properties: Properties, labelKeys: seq<string>, index: nat): string
  {
    var picked := PickFirstMatchingProperty(Some(properties), labelKeys);
    if picked.Some? then picked.value else "Crash area " + NatToString(index + 1)
  }

  /** One area of `normalizeCrashAreas`' map: the original properties with the six display properties set. */
  function NormalizeCrashArea(feature: Feature, profile: Option<ScoreProfile>, labelKeys: seq<string>, index: nat, total: nat): Feature
  {
    var score := BuildCrashScore(feature.properties, profile, index, total);
    var p0 := Put(feature.properties, "featureIndex", Num((index + 1) as real));
    var p1 := Put(p0, "displayName", Str(CrashAreaName(feature.properties, labelKeys, index)));
    var p2 := Put(p1, "displayScore", NumberOrNull(score.normalized));
    var p3 := Put(p2, "displayScoreRaw", RealOrNull(score.raw));
    var p4 := Put(p3, "displayScoreLabel", TextOrNull(score.scoreLabel));
    Feature(feature.geometry, Put(p4, "displayScoreSource", TextOrNull(score.source)))
  }

  const DisplayKeys: seq<string> := ["featureIndex", "displayName", "displayScore", "displayScoreRaw", "displayScoreLabel", "displayScoreSource"]

  /** The display name a normalised feature carries, as `isMetroJurisdictionLabel` receives it. */
  function DisplayName(f: Feature): Option<string>
  {
    var v := Get(f.properties, "displayName");
    if v.Some? && v.value.Str? then Some(v.value.s) else None
  }

  function FeatureIndexOf(f: Feature): real
  {
    var v := Get(f.properties, "featureIndex");
    if v.Some? && v.value.Num? then v.value.n else 0.0
  }

  /**
   * `normalizeCrashAreas`: every area normalised with the inferred score
   * profile and label keys, then the areas whose display name is a state
   * route dropped.
   */
  function NormalizeCrashAreas(features: seq<Feature>): (r: seq<Feature>)
    ensures |r| <= |features|
  {
    var profile := InferCrashScoreProfile(features);
    var labelKeys := InferLabelKeys(features);
    var normalized := seq(|features|, i requires 0 <= i < |features| =>
      NormalizeCrashArea(features[i], profile, labelKeys, i, |features|));
    Filter(normalized, f => IsMetroJurisdictionLabel(DisplayName(f)))
  }

  /** The display properties of an area, and every other property left as it was. */
  lemma NormalizeCrashAreaProperties(feature: Feature, profile: Option<ScoreProfile>, labelKeys: seq<string>, index: nat, total: nat)
    ensures var out := NormalizeCrashArea(feature, profile, labelKeys, index, total);
      out.geometry == feature.geometry &&
      Get(out.properties, "featureIndex") == Some(Num((index + 1) as real)) &&
      Get(out.properties, "displayName") == Some(Str(CrashAreaName(feature.properties, labelKeys, index))) &&
      (var score := BuildCrashScore(feature.properties, profile, index, total);
       Get(out.properties, "displayScore") == Some(NumberOrNull(score.normalized)) &&
       Get(out.properties, "displayScoreRaw") == Some(RealOrNull(score.raw)) &&
       Get(out.properties, "displayScoreLabel") == Some(TextOrNull(score.scoreLabel)) &&
       Get(out.properties, "displayScoreSource") == Some(TextOrNull(score.source))) &&
      (forall key :: key !in DisplayKeys ==> Get(out.properties, key) == Get(feature.properties, key))
  {
    var score := BuildCrashScore(feature.properties, profile, index, total);
    var p0 := Put(feature.properties, "featureIndex", Num((index + 1) as real));
    var p1 := Put(p0, "displayName", Str(CrashAreaName(feature.properties, labelKeys, index)));
    var p2 := Put(p1, "displayScore", NumberOrNull(score.normalized));
    var p3 := Put(p2, "displayScoreRaw", RealOrNull(score.raw));
    var p4 := Put(p3, "displayScoreLabel", TextOrNull(score.scoreLabel));
    GetPutSame(feature.properties, "featureIndex", Num((index + 1) as real));
    GetPutSame(p0, "displayName", Str(CrashAreaName(feature.properties, labelKeys, index)));
    GetPutOther(p0, "displayName", Str(CrashAreaName(feature.properties, labelKeys, index)), "featureIndex");
    GetPutOther(p1, "displayScore", NumberOrNull(score.normalized), "featureIndex");
    GetPutOther(p1, "displayScore", NumberOrNull(score.normalized), "displayName");
    GetPutOther(p2, "displayScoreRaw", RealOrNull(score.raw), "featureIndex");
    GetPutOther(p2, "displayScoreRaw", RealOrNull(score.raw), "displayName");
    GetPutOther(p3, "displayScoreLabel", TextOrNull(score.scoreLabel), "featureIndex");
    GetPutOther(p3, "displayScoreLabel", TextOrNull(score.scoreLabel), "displayName");
    GetPutOther(p4, "displayScoreSource", TextOrNull(score.source), "featureIndex");
    GetPutOther(p4, "displayScoreSource", TextOrNull(score.source), "displayName");
    GetPutSame(p1, "displayScore", NumberOrNull(score.normalized));
    GetPutOther(p2, "displayScoreRaw", RealOrNull(score.raw), "displayScore");
    GetPutOther(p3, "displayScoreLabel", TextOrNull(score.scoreLabel), "displayScore");
    GetPutOther(p4, "displayScoreSource", TextOrNull(score.source), "displayScore");
    GetPutSame(p2, "displayScoreRaw", RealOrNull(score.raw));
    GetPutOther(p3, "displayScoreLabel", TextOrNull(score.scoreLabel), "displayScoreRaw");
    GetPutOther(p4, "displayScoreSource", TextOrNull(score.source), "displayScoreRaw");
    GetPutSame(p3, "displayScoreLabel", TextOrNull(score.scoreLabel));
    GetPutOther(p4, "displayScoreSource", TextOrNull(score.source), "displayScoreLabel");
    GetPutSame(p4, "displayScoreSource", TextOrNull(score.source));
    forall key | key !in DisplayKeys
      ensures Get(NormalizeCrashArea(feature, profile, labelKeys, index, total).properties, key) == Get(feature.properties, key)
    {
      GetPutOther(feature.properties, "featureIndex", Num((index + 1) as real), key);
      GetPutOther(p0, "displayName", Str(CrashAreaName(feature.properties, labelKeys, index)), key);
      GetPutOther(p1, "displayScore", NumberOrNull(score.normalized), key);
      GetPutOther(p2, "displayScoreRaw", RealOrNull(score.raw), key);
      GetPutOther(p3, "displayScoreLabel", TextOrNull(score.scoreLabel), key);
      GetPutOther(p4, "displayScoreSource", TextOrNull(score.source), key);
    }
  }

  /**
   * The areas keep their order and each is the normalised form of an input
   * area; `featureIndex` is numbered before the filter, so it strictly
   * increases along the result and may skip the dropped areas.
   */
  lemma NormalizeCrashAreasOrder(features: seq<Feature>)
    ensures var r := NormalizeCrashAreas(features);
      IncreasingBy(r, FeatureIndexOf) &&
      forall f :: f in r ==>
        (IsMetroJurisdictionLabel(DisplayName(f)) &&
         exists i :: 0 <= i < |features| &&
           f == NormalizeCrashArea(features[i], InferCrashScoreProfile(features), InferLabelKeys(features), i, |features|) &&
           FeatureIndexOf(f) == (i + 1) as real)
  {
    var profile := InferCrashScoreProfile(features);
    var labelKeys := InferLabelKeys(features);
    var normalized := seq(|features|, i requires 0 <= i < |features| =>
      NormalizeCrashArea(features[i], profile, labelKeys, i, |features|));
    forall i | 0 <= i < |features| ensures FeatureIndexOf(normalized[i]) == (i + 1) as real {
      NormalizeCrashAreaProperties(features[i], profile, labelKeys, i, |features|);
    }
    FilterKeepsIncreasing(normalized, f => IsMetroJurisdictionLabel(DisplayName(f)), FeatureIndexOf);
  }

  /**
   * The filter of `normalizeCrashAreas` in both directions: the normalised
   * area at position `i` is kept exactly when its display name passes the
   * jurisdiction test.
   */
  lemma CrashAreaKeptIffPasses(features: seq<Feature>, i: nat)
    requires i < |features|
    ensures var area := NormalizeCrashArea(features[i], InferCrashScoreProfile(features), InferLabelKeys(features), i, |features|);
      area in NormalizeCrashAreas(features) <==> IsMetroJurisdictionLabel(DisplayName(area))
  {
    var profile := InferCrashScoreProfile(features);
    var labelKeys := InferLabelKeys(features);
    var normalized := seq(|features|, k requires 0 <= k < |features| =>
      NormalizeCrashArea(features[k], profile, labelKeys, k, |features|));
    assert normalized[i] in normalized;
  }

  /** One row of the summary's `topAreas`. */
  datatype TopArea = TopArea(id: Option<Value>, featureIndex: Option<Value>, name: Option<Value>, score: Option<Value>, scoreLabel: Option<Value>)

  datatype CrashSummary = CrashSummary(totalAreas: nat, averageScore: Option<int>, topAreas: seq<TopArea>)

  /** `Number.isFinite(feature.properties.displayScore)`. */
  predicate IsScored(f: Feature)
  {
    var v := Get(f.properties, "displayScore");
    v.Some? && v.value.Num?
  }

  function DisplayScore(f: Feature): real
  {
    var v := Get(f.properties, "displayScore");
    if v.Some? && v.value.Num? then v.value.n else 0.0
  }

  function SumScores(fs: seq<Feature>): real
  {
    if |fs| == 0 then 0.0 else SumScores(fs[..|fs| - 1]) + DisplayScore(fs[|fs| - 1])
  }

  /** `OBJECTID ?? featureIndex`: the object id unless it is `null` or missing. */
  function AreaId(p: Properties): Option<Value>
  {
    var objectId := Get(p, "OBJECTID");
    if objectId.Some? && !objectId.value.Null? then objectId else Get(p, "featureIndex")
  }

  function ToTopArea(f: Feature): TopArea
  {
    TopArea(AreaId(f.properties), Get(f.properties, "featureIndex"), Get(f.properties, "displayName"),
      Get(f.properties, "displayScore"), Get(f.properties, "displayScoreLabel"))
  }

  /** The summary's comparator: `right.displayScore - left.displayScore < 0`. */
  predicate ScoreAbove(left: Feature, right: Feature)
  {
    DisplayScore(left) > DisplayScore(right)
  }

  function NegatedScore(f: Feature): real
  {
    -DisplayScore(f)
  }

  /** The scored areas, highest score first; equal scores keep their order. */
  function RankedAreas(features: seq<Feature>): (r: seq<Feature>)
    ensures multiset(r) == multiset(Filter(features, IsScored))
  {
    SortBy(Filter(features, IsScored), ScoreAbove)
  }

  /** The ranked areas are all scored, and their scores never increase. */
  lemma RankedAreasOrdered(features: seq<Feature>)
    ensures var ranked := RankedAreas(features);
      (forall i :: 0 <= i < |ranked| ==> IsScored(ranked[i])) &&
      (forall i, j :: 0 <= i < j < |ranked| ==> DisplayScore(ranked[i]) >= DisplayScore(ranked[j]))
  {
    var scored := Filter(features, IsScored);
    var ranked := RankedAreas(features);
    SortBySorted(scored, ScoreAbove, NegatedScore);
    forall i | 0 <= i < |ranked| ensures IsScored(ranked[i]) {
      assert ranked[i] in multiset(scored);
    }
    forall i, j | 0 <= i < j < |ranked| ensures DisplayScore(ranked[i]) >= DisplayScore(ranked[j]) {
      assert NegatedScore(ranked[i]) <= NegatedScore(ranked[j]);
    }
  }

  /** The areas the summary lists: the first twelve ranked ones, or the first twelve when none is scored. */
  function TopFeatures(features: seq<Feature>): (r: seq<Feature>)
    ensures |r| <= 12
  {
    var ranked := RankedAreas(features);
    Take(if |ranked| > 0 then ranked else features, 12)
  }

  /**
   * `buildCrashSummary`: the number of areas, the rounded mean of the
   * scored areas' scores (`null` when none is scored), and the top areas.
   */
  function BuildCrashSummary(features: seq<Feature>): (r: CrashSummary)
    ensures r.totalAreas == |features|
    ensures |r.topAreas| <= 12
    ensures r.averageScore.None? <==> forall f :: f in features ==> !IsScored(f)
  {
    var scored := Filter(features, IsScored);
    var top := TopFeatures(features);
    var average := if |scored| > 0 then Some(Round(SumScores(scored) / |scored| as real)) else None;
    assert average.None? <==> forall f :: f in features ==> !IsScored(f) by {
      if |scored| > 0 {
        assert scored[0] in scored;
      }
    }
    CrashSummary(|features|, average, seq(|top|, i requires 0 <= i < |top| => ToTopArea(top[i])))
  }

  /**
   * When some area is scored the top areas are the highest-scored ones in
   * descending score order; otherwise they are the first areas in their
   * order. Either way there are as many as the list allows, up to twelve.
   */
  lemma CrashSummaryTopAreas(features: seq<Feature>)
    ensures var ranked := RankedAreas(features);
      var top := BuildCrashSummary(features).topAreas;
      var source := if |ranked| > 0 then ranked else features;
      |top| == (if |source| < 12 then |source| else 12) &&
      (forall i :: 0 <= i < |top| ==> top[i] == ToTopArea(source[i])) &&
      (|ranked| > 0 ==>
        (forall i :: 0 <= i < |top| ==> IsScored(ranked[i])) &&
        (forall i, j :: 0 <= i < j < |ranked| ==> DisplayScore(ranked[i]) >= DisplayScore(ranked[j])))
  {
    RankedAreasOrdered(features);
  }

  /** Some area is ranked exactly when some area is scored. */
  lemma RankedIffScored(features: seq<Feature>)
    ensures |RankedAreas(features)| > 0 <==> exists f :: f in features && IsScored(f)
  {
    var scored := Filter(features, IsScored);
    assert |multiset(RankedAreas(features))| == |multiset(scored)|;
    if |scored| > 0 {
      assert scored[0] in scored;
    }
  }
}
