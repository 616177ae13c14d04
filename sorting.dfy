/**
 * `Array.prototype.sort` with a comparator is stable. When the comparator
 * is consistent, every stable sort gives the same order, so this insertion
 * sort stands for it: an element goes after every element it does not
 * strictly precede.
 */
module Sorting {

  function Insert<T>(x: T, s: seq<T>, less: (T, T) -> bool): (r: seq<T>)
    ensures multiset(r) == multiset(s) + multiset{x}
  {
    if |s| == 0 then [x]
    else if less(x, s[0]) then [x] + s
    else
      assert s == [s[0]] + s[1..];
      [s[0]] + Insert(x, s[1..], less)
  }

  /** The elements of `s` inserted one after another, first to last. */
  function SortBy<T>(s: seq<T>, less: (T, T) -> bool): (r: seq<T>)
    ensures multiset(r) == multiset(s)
  {
    if |s| == 0 then []
    else
      assert s == s[..|s| - 1] + [s[|s| - 1]];
      Insert(s[|s| - 1], SortBy(s[..|s| - 1], less), less)
  }

  /** Non-decreasing in `key`. */
  ghost predicate SortedBy<T>(s: seq<T>, key: T -> real)
  {
    forall i, j :: 0 <= i < j < |s| ==> key(s[i]) <= key(s[j])
  }

  /** On the elements of `s`, `less` is the strict order of `key`. */
  ghost predicate LessIsKeyOrder<T>(s: seq<T>, less: (T, T) -> bool, key: T -> real)
  {
    forall x, y :: x in s && y in s ==> (less(x, y) <==> key(x) < key(y))
  }

  lemma ConsSorted<T>(h: T, r: seq<T>, key: T -> real)
    requires SortedBy(r, key)
    requires forall y :: y in r ==> key(h) <= key(y)
    ensures SortedBy([h] + r, key)
  {
    forall i, j | 0 <= i < j < |[h] + r| ensures key(([h] + r)[i]) <= key(([h] + r)[j]) {
      assert ([h] + r)[j] == r[j - 1];
      if i > 0 {
        assert ([h] + r)[i] == r[i - 1];
      }
    }
  }

  lemma {:induction false} InsertSorted<T>(x: T, s: seq<T>, less: (T, T) -> bool, key: T -> real)
    requires SortedBy(s, key)
    requires LessIsKeyOrder(s + [x], less, key)
    ensures SortedBy(Insert(x, s, less), key)
  {
    if |s| == 0 {
      return;
    }
    assert s[0] in s + [x] && x in s + [x];
    forall y | y in s ensures key(s[0]) <= key(y) {
      var k :| 0 <= k < |s| && s[k] == y;
    }
    if less(x, s[0]) {
      ConsSorted(x, s, key);
    } else {
      var tail := s[1..];
      assert SortedBy(tail, key);
      assert LessIsKeyOrder(tail + [x], less, key) by {
        forall y | y in tail + [x] ensures y in s + [x] {
          if y in tail { assert y in s; }
        }
      }
      InsertSorted(x, tail, less, key);
      var r := Insert(x, tail, less);
      forall y | y in r ensures key(s[0]) <= key(y) {
        assert y in multiset(r);
        if y != x {
          assert y in tail;
        }
      }
      ConsSorted(s[0], r, key);
    }
  }

  /** With a consistent comparator the result is in key order. */
  lemma {:induction false} SortBySorted<T>(s: seq<T>, less: (T, T) -> bool, key: T -> real)
    requires LessIsKeyOrder(s, less, key)
    ensures SortedBy(SortBy(s, less), key)
  {
    if |s| > 0 {
      var init := s[..|s| - 1];
      var x := s[|s| - 1];
      assert s == init + [x];
      assert LessIsKeyOrder(init, less, key) by {
        forall y | y in init ensures y in s { }
      }
      SortBySorted(init, less, key);
      var sorted := SortBy(init, less);
      assert LessIsKeyOrder(sorted + [x], less, key) by {
        forall y | y in sorted + [x] ensures y in s {
          if y in sorted {
            assert y in multiset(sorted);
          }
        }
      }
      InsertSorted(x, sorted, less, key);
    }
  }

  /** `less` is a strict weak order on the elements of `s`, as a consistent comparator is. */
  ghost predicate StrictWeakOrder<T>(s: seq<T>, less: (T, T) -> bool)
  {
    (forall x :: x in s ==> !less(x, x)) &&
    (forall x, y, z :: x in s && y in s && z in s && less(x, y) && less(y, z) ==> less(x, z)) &&
    (forall x, y, z :: x in s && y in s && z in s && less(x, z) ==> less(x, y) || less(y, z))
  }

  lemma PrefixOrder<T>(s: seq<T>, less: (T, T) -> bool)
    requires |s| > 0 && StrictWeakOrder(s, less)
    ensures StrictWeakOrder(s[..|s| - 1], less)
  {
    assert forall y :: y in s[..|s| - 1] ==> y in s;
  }

  lemma InsertHead<T>(x: T, s: seq<T>, less: (T, T) -> bool)
    requires |s| > 0
    ensures |Insert(x, s, less)| > 0 && Insert(x, s, less)[0] == if less(x, s[0]) then x else s[0]
  {
  }

  /** One instance each of transitivity and of the weak-order axiom. */
  lemma OrderStep<T>(s: seq<T>, less: (T, T) -> bool, x: T, y: T, z: T)
    requires StrictWeakOrder(s, less) && x in s && y in s && z in s
    ensures less(x, y) && less(y, z) ==> less(x, z)
    ensures less(x, z) ==> less(x, y) || less(y, z)
  {
  }

  /**
   * When the last element `x` strictly precedes the head `h` of the sorted
   * prefix, and `h` is the prefix's first maximal element at `k0`, `x` is the
   * first maximal element of the whole sequence.
   */
  lemma LastBecomesHead<T>(s: seq<T>, less: (T, T) -> bool, k0: nat)
    requires |s| > 1 && StrictWeakOrder(s, less) && k0 < |s| - 1
    requires forall y :: y in s[..|s| - 1] ==> !less(y, s[k0])
    requires forall i :: 0 <= i < k0 ==> less(s[k0], s[i])
    requires less(s[|s| - 1], s[k0])
    ensures forall y :: y in s ==> !less(y, s[|s| - 1])
    ensures forall i :: 0 <= i < |s| - 1 ==> less(s[|s| - 1], s[i])
  {
    var x := s[|s| - 1];
    var h := s[k0];
    var init := s[..|s| - 1];
    forall i | 0 <= i < |s| - 1 ensures less(x, s[i]) {
      assert s[i] == init[i] && s[i] in init;
      OrderStep(s, less, x, h, s[i]);
    }
    forall y | y in s ensures !less(y, x) {
      OrderStep(s, less, y, x, h);
      if y != x {
        var m :| 0 <= m < |s| && s[m] == y;
        assert y in init by { assert init[m] == y; }
      }
    }
  }

  /**
   * `s[k]` is the first maximal element of `s`: no element precedes it, and
   * it precedes every element before its own place.
   */
  ghost predicate FirstMaximal<T>(s: seq<T>, less: (T, T) -> bool, k: nat)
  {
    k < |s| &&
    (forall y :: y in s ==> !less(y, s[k])) &&
    (forall i :: 0 <= i < k ==> less(s[k], s[i]))
  }

  /**
   * One step of `SortByHead`: from the first maximal element of all but the
   * last element to the first maximal element of the whole sequence.
   */
  lemma HeadStep<T>(s: seq<T>, less: (T, T) -> bool, k0: nat) returns (k: nat)
    requires |s| > 1 && StrictWeakOrder(s, less)
    requires FirstMaximal(s[..|s| - 1], less, k0)
    requires |SortBy(s[..|s| - 1], less)| > 0 && SortBy(s[..|s| - 1], less)[0] == s[..|s| - 1][k0]
    ensures k < |s| && |SortBy(s, less)| > 0 && SortBy(s, less)[0] == s[k]
    ensures FirstMaximal(s, less, k)
  {
    var init := s[..|s| - 1];
    var x := s[|s| - 1];
    var h := s[k0];
    assert init[k0] == h;
    SortByLastHead(s, less);
    if less(x, h) {
      k := |s| - 1;
      LastBecomesHead(s, less, k0);
      assert FirstMaximal(s, less, k);
    } else {
      k := k0;
      forall y | y in s ensures !less(y, h) {
        if y !in init { assert y == x; }
      }
      forall i | 0 <= i < k0 ensures less(h, s[i]) {
        assert init[i] == s[i];
      }
      assert FirstMaximal(s, less, k);
    }
  }

  /** Sorting one more element: the new head is the last element or the old head. */
  lemma SortByLastHead<T>(s: seq<T>, less: (T, T) -> bool)
    requires |s| > 1 && |SortBy(s[..|s| - 1], less)| > 0
    ensures var h := SortBy(s[..|s| - 1], less)[0];
      |SortBy(s, less)| > 0 && SortBy(s, less)[0] == if less(s[|s| - 1], h) then s[|s| - 1] else h
  {
    var sorted := SortBy(s[..|s| - 1], less);
    assert SortBy(s, less) == Insert(s[|s| - 1], sorted, less);
    InsertHead(s[|s| - 1], sorted, less);
  }

  /** The first element of a stable sort is the first maximal element. */
  lemma {:induction false} SortByHead<T>(s: seq<T>, less: (T, T) -> bool) returns (k: nat)
    requires |s| > 0 && StrictWeakOrder(s, less)
    ensures k < |s| && |SortBy(s, less)| > 0 && SortBy(s, less)[0] == s[k]
    ensures FirstMaximal(s, less, k)
  {
    if |s| == 1 {
      assert s[..0] == [];
      k := 0;
    } else {
      PrefixOrder(s, less);
      var k0 := SortByHead(s[..|s| - 1], less);
      k := HeadStep(s, less, k0);
    }
  }
}
