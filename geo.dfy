/**
 * The GeoJSON-shaped data that every service of the atlas passes around:
 * positions, JavaScript attribute values, property records that keep the
 * insertion order of their keys, geometries and features.
 */
module Geo {

  datatype Option<+T> = None | Some(value: T)

  /** A value, or the message of the error the script would throw. */
  datatype Result<+T> = Success(value: T) | Failure(error: string)

  /** A GeoJSON position `[longitude, latitude]`. */
  datatype Position = Position(x: real, y: real)

  /** A closed or open sequence of positions, as GeoJSON rings are written. */
  type Ring = seq<Position>

  /**
   * An attribute value as a script sees it. `Num` holds a finite number;
   * `NaN` and the infinities are `NonFinite`; arrays and objects are `Composite`.
   */
  datatype Value = Num(n: real) | NonFinite | Str(s: string) | Bool(b: bool) | Null | Composite

  /** One own property of an object. */
  datatype Entry = Entry(key: string, value: Value)

  /**
   * An object's own properties in insertion order, the order in which
   * `Object.entries` and the object spread `{ ...p }` visit them.
   */
  type Properties = seq<Entry>

  datatype Geometry =
    | Point(coordinates: Position)
    | LineString(line: seq<Position>)
    | MultiLineString(lines: seq<seq<Position>>)
    | Polygon(rings: seq<Ring>)
    | MultiPolygon(polygons: seq<seq<Ring>>)
    | OtherGeometry(kind: string)

  /** A GeoJSON feature; a missing or null `geometry` is `None`. */
  datatype Feature = Feature(geometry: Option<Geometry>, properties: Properties)

  /** `properties[key]`: the value of the first entry named `key`, `None` for `undefined`. */
  function Get(p: Properties, key: string): Option<Value>
  {
    if |p| == 0 then None
    else if p[0].key == key then Some(p[0].value)
    else Get(p[1..], key)
  }

  /** `{ ...p, [key]: v }`: an existing key keeps its place, a new key goes last. */
  function Put(p: Properties, key: string, v: Value): (r: Properties)
    ensures |r| == |p| || |r| == |p| + 1
  {
    if |p| == 0 then [Entry(key, v)]
    else if p[0].key == key then [Entry(key, v)] + p[1..]
    else [p[0]] + Put(p[1..], key, v)
  }

  /** The keys of an object, in order. */
  function Keys(p: Properties): (r: seq<string>)
    ensures |r| == |p|
  {
    seq(|p|, i requires 0 <= i < |p| => p[i].key)
  }

  lemma {:induction false} GetPutSame(p: Properties, key: string, v: Value)
    ensures Get(Put(p, key, v), key) == Some(v)
  {
    if |p| > 0 && p[0].key != key {
      GetPutSame(p[1..], key, v);
    }
  }

  lemma {:induction false} GetPutOther(p: Properties, key: string, v: Value, other: string)
    requires other != key
    ensures Get(Put(p, key, v), other) == Get(p, other)
  {
    if |p| > 0 && p[0].key != key {
      GetPutOther(p[1..], key, v, other);
    }
  }

  /** The entry at `k` is the first with its key, so `Get` returns its value. */
  lemma {:induction false} GetAt(p: Properties, k: nat)
    requires k < |p| && forall j :: 0 <= j < k ==> p[j].key != p[k].key
    ensures Get(p, p[k].key) == Some(p[k].value)
  {
    if k > 0 {
      GetAt(p[1..], k - 1);
    }
  }

  /** `Get` finds a key exactly when the key is among `Keys`. */
  lemma {:induction false} GetSomeIffKey(p: Properties, key: string)
    ensures Get(p, key).Some? <==> key in Keys(p)
  {
    if |p| > 0 {
      GetSomeIffKey(p[1..], key);
      assert Keys(p) == [p[0].key] + Keys(p[1..]);
    }
  }

  /** `array.flat()`: one level of nesting removed, order kept. */
  function Flatten<T>(ss: seq<seq<T>>): (r: seq<T>)
  {
    if |ss| == 0 then [] else ss[0] + Flatten(ss[1..])
  }

  lemma {:induction false} FlattenMember<T>(ss: seq<seq<T>>, x: T)
    ensures x in Flatten(ss) <==> exists i, j :: 0 <= i < |ss| && 0 <= j < |ss[i]| && ss[i][j] == x
  {
    if |ss| > 0 {
      FlattenMember(ss[1..], x);
      if x in Flatten(ss[1..]) {
        var i, j :| 0 <= i < |ss[1..]| && 0 <= j < |ss[1..][i]| && ss[1..][i][j] == x;
        assert ss[i + 1][j] == x;
      }
      if x in ss[0] {
        var j :| 0 <= j < |ss[0]| && ss[0][j] == x;
        assert ss[0][j] == x;
      }
      if exists i, j :: 0 <= i < |ss| && 0 <= j < |ss[i]| && ss[i][j] == x {
        var i, j :| 0 <= i < |ss| && 0 <= j < |ss[i]| && ss[i][j] == x;
        if i > 0 {
          assert ss[1..][i - 1][j] == x;
        }
      }
    }
  }

  /** `array.flat(2)`: an element is in the result exactly when it is in one of the innermost sequences. */
  lemma FlattenTwiceMember<T>(sss: seq<seq<seq<T>>>, x: T)
    ensures x in Flatten(Flatten(sss)) <==> exists i, j :: 0 <= i < |sss| && 0 <= j < |sss[i]| && x in sss[i][j]
  {
    var once := Flatten(sss);
    FlattenMember(once, x);
    if x in Flatten(once) {
      var k, m :| 0 <= k < |once| && 0 <= m < |once[k]| && once[k][m] == x;
      FlattenMember(sss, once[k]);
    }
    if exists i, j :: 0 <= i < |sss| && 0 <= j < |sss[i]| && x in sss[i][j] {
      var i, j :| 0 <= i < |sss| && 0 <= j < |sss[i]| && x in sss[i][j];
      FlattenMember(sss, sss[i][j]);
      var m :| 0 <= m < |sss[i][j]| && sss[i][j][m] == x;
    }
  }

  lemma {:induction false} FlattenAppend<T>(a: seq<seq<T>>, b: seq<seq<T>>)
    ensures Flatten(a + b) == Flatten(a) + Flatten(b)
  {
    if |a| > 0 {
      assert (a + b)[1..] == a[1..] + b;
      FlattenAppend(a[1..], b);
    } else {
      assert a + b == b;
    }
  }

  /** `array.filter(p)`: the elements satisfying `p`, in their order. */
  function Filter<T(!new)>(s: seq<T>, p: T -> bool): (r: seq<T>)
    ensures |r| <= |s|
    ensures forall x :: x in r <==> x in s && p(x)
  {
    if |s| == 0 then []
    else
      var rest := Filter(s[1..], p);
      assert forall x :: x in s <==> x == s[0] || x in s[1..];
      if p(s[0]) then [s[0]] + rest else rest
  }

  /** `array.slice(0, n)`. */
  function Take<T>(s: seq<T>, n: nat): (r: seq<T>)
    ensures |r| == if n < |s| then n else |s|
    ensures forall i :: 0 <= i < |r| ==> r[i] == s[i]
  {
    if n < |s| then s[..n] else s
  }

  /** Strictly increasing in `key`. */
  ghost predicate IncreasingBy<T>(s: seq<T>, key: T -> real)
  {
    forall i, j :: 0 <= i < j < |s| ==> key(s[i]) < key(s[j])
  }

  lemma ConsIncreasing<T>(h: T, r: seq<T>, key: T -> real)
    requires IncreasingBy(r, key)
    requires forall x :: x in r ==> key(h) < key(x)
    ensures IncreasingBy([h] + r, key)
  {
    forall i, j | 0 <= i < j < |[h] + r| ensures key(([h] + r)[i]) < key(([h] + r)[j]) {
      assert ([h] + r)[j] == r[j - 1];
      if i > 0 {
        assert ([h] + r)[i] == r[i - 1];
      }
    }
  }

  /** Filtering keeps the relative order, so a strictly increasing key stays strictly increasing. */
  lemma {:induction false} FilterKeepsIncreasing<T(!new)>(s: seq<T>, p: T -> bool, key: T -> real)
    requires IncreasingBy(s, key)
    ensures IncreasingBy(Filter(s, p), key)
  {
    if |s| > 0 {
      var tail := s[1..];
      var rest := Filter(tail, p);
      assert IncreasingBy(tail, key);
      FilterKeepsIncreasing(tail, p, key);
      if p(s[0]) {
        forall x | x in rest ensures key(s[0]) < key(x) {
          var k :| 0 <= k < |tail| && tail[k] == x;
          assert s[k + 1] == x;
        }
        ConsIncreasing(s[0], rest, key);
      }
    }
  }

  /**
   * `xs.map((x, index) => f(x, index)).filter(Boolean)` from position
   * `start` on, for an `f` that answers `null` or a value: each index is the
   * position before filtering.
   */
  function KeepMapped<T, U>(xs: seq<T>, start: nat, f: (T, nat) --> Option<U>): (r: seq<U>)
    requires forall i :: start <= i < |xs| ==> f.requires(xs[i], i)
    ensures start <= |xs| ==> |r| <= |xs| - start
    decreases |xs| - start
  {
    if start >= |xs| then []
    else
      match f(xs[start], start)
      case Some(y) => [y] + KeepMapped(xs, start + 1, f)
      case None => KeepMapped(xs, start + 1, f)
  }

  /** Every kept value is `f` of the element at some position `i` from `start` on. */
  lemma {:induction false} KeepMappedSource<T, U>(xs: seq<T>, start: nat, f: (T, nat) --> Option<U>, j: nat) returns (i: nat)
    requires forall k :: start <= k < |xs| ==> f.requires(xs[k], k)
    requires j < |KeepMapped(xs, start, f)|
    ensures start <= i < |xs| && f(xs[i], i) == Some(KeepMapped(xs, start, f)[j])
    decreases |xs| - start
  {
    var head := f(xs[start], start);
    if head.Some? && j == 0 {
      i := start;
    } else {
      var j' := if head.Some? then j - 1 else j;
      assert KeepMapped(xs, start, f)[j] == KeepMapped(xs, start + 1, f)[j'];
      i := KeepMappedSource(xs, start + 1, f, j');
    }
  }

  /** Every value `f` gives from position `start` on is kept. */
  lemma {:induction false} KeepMappedListed<T, U>(xs: seq<T>, start: nat, f: (T, nat) --> Option<U>, i: nat)
    requires forall k :: start <= k < |xs| ==> f.requires(xs[k], k)
    requires start <= i < |xs| && f(xs[i], i).Some?
    ensures f(xs[i], i).value in KeepMapped(xs, start, f)
    decreases i - start
  {
    if i > start {
      KeepMappedListed(xs, start + 1, f, i);
    }
  }

  /**
   * When every kept value's key is its position plus one, the keys of the
   * result strictly increase and all lie above `start`.
   */
  lemma {:induction false} KeepMappedIncreasing<T, U>(xs: seq<T>, start: nat, f: (T, nat) --> Option<U>, key: U -> real)
    requires forall k :: start <= k < |xs| ==> f.requires(xs[k], k)
    requires forall k :: start <= k < |xs| && f(xs[k], k).Some? ==> key(f(xs[k], k).value) == (k + 1) as real
    ensures IncreasingBy(KeepMapped(xs, start, f), key)
    ensures forall y :: y in KeepMapped(xs, start, f) ==> (start as real) < key(y)
    decreases |xs| - start
  {
    if start < |xs| {
      var rest := KeepMapped(xs, start + 1, f);
      KeepMappedIncreasing(xs, start + 1, f, key);
      var head := f(xs[start], start);
      if head.Some? {
        ConsIncreasing(head.value, rest, key);
      }
    }
  }
}
