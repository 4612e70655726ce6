/** Small shared vocabulary: optional values, absolute value, sums over maps
    and sequences, and the stable sort used wherever the program sorts a list. */
module Util {

  datatype Option<+T> = None | Some(value: T)

  datatype Result<+T, +E> = Ok(value: T) | Err(error: E)

  /** `round(x, 2)`: the nearest whole number of cents, a tie going to the
      even cent. */
  function RoundCents(x: real): real
  {
    var y := x * 100.0;
    var n := y.Floor;
    var f := y - n as real;
    var k := if f < 0.5 then n else if f > 0.5 then n + 1 else if n % 2 == 0 then n else n + 1;
    k as real / 100.0
  }

  /** The rounded value is a whole number of cents, at most half a cent away. */
  lemma {:induction false} RoundCentsNearest(x: real)
    ensures var r := RoundCents(x);
      && (r * 100.0).Floor as real == r * 100.0
      && -0.005 <= r - x <= 0.005
  {
    var y := x * 100.0;
    var n := y.Floor;
    var f := y - n as real;
    var k := if f < 0.5 then n else if f > 0.5 then n + 1 else if n % 2 == 0 then n else n + 1;
    assert RoundCents(x) == k as real / 100.0;
    assert k as real / 100.0 * 100.0 == k as real;
    assert -0.5 <= k as real - y <= 0.5;
  }

  function Abs(x: real): (r: real)
    ensures r >= 0.0 && (r == x || r == -x)
  {
    if x < 0.0 then -x else x
  }

  function Max(a: real, b: real): (r: real)
    ensures r >= a && r >= b && (r == a || r == b)
  {
    if a >= b then a else b
  }

  function Min(a: real, b: real): (r: real)
    ensures r <= a && r <= b && (r == a || r == b)
  {
    if a <= b then a else b
  }

  predicate EndsWith(s: string, suffix: string)
  {
    |suffix| <= |s| && s[|s| - |suffix|..] == suffix
  }

  /** The sum of the values of a finite map, independent of any key order. */
  ghost function SumValues<K>(m: map<K, real>): real
    decreases |m|
  {
    if |m| == 0 then 0.0
    else
      var k :| k in m;
      m[k] + SumValues(m - {k})
  }

  /** Any key can be taken out first: the sum does not depend on the order. */
  lemma {:induction false} SumValuesRemove<K>(m: map<K, real>, k: K)
    requires k in m
    ensures SumValues(m) == m[k] + SumValues(m - {k})
    decreases |m|
  {
    var j := SumValuesFirst(m);
    if j != k {
      var mj, mk := m - {j}, m - {k};
      assert k in mj && j in mk;
      assert |mj| == |m| - 1;
      SumValuesRemove(mj, k);
      SumValuesRemove(mk, j);
      assert mj - {k} == mk - {j};
    }
  }

  /** The key that the definition of SumValues happens to take out first. */
  lemma {:induction false} SumValuesFirst<K>(m: map<K, real>) returns (j: K)
    requires |m| > 0
    ensures j in m && SumValues(m) == m[j] + SumValues(m - {j})
  {
    j :| j in m && SumValues(m) == m[j] + SumValues(m - {j});
  }

  /** Updating one entry changes the sum by the difference. */
  lemma {:induction false} SumValuesUpdate<K>(m: map<K, real>, k: K, v: real)
    ensures SumValues(m[k := v]) == SumValues(m) + v - (if k in m then m[k] else 0.0)
  {
    var m' := m[k := v];
    SumValuesRemove(m', k);
    assert m' - {k} == m - {k};
    if k in m {
      SumValuesRemove(m, k);
    } else {
      assert m - {k} == m;
    }
  }

  /** Sums of maps over the same keys add pointwise. */
  lemma {:induction false} SumValuesAdd3<K>(m: map<K, real>, a: map<K, real>, b: map<K, real>, c: map<K, real>)
    requires m.Keys == a.Keys && m.Keys == b.Keys && m.Keys == c.Keys
    requires forall k :: k in m ==> m[k] == a[k] + b[k] + c[k]
    ensures SumValues(m) == SumValues(a) + SumValues(b) + SumValues(c)
    decreases |m|
  {
    if |m| == 0 {
      assert |a| == |m.Keys| && |b| == |m.Keys| && |c| == |m.Keys|;
    } else {
      var k := SumValuesFirst(m);
      SumValuesRemove(a, k);
      SumValuesRemove(b, k);
      SumValuesRemove(c, k);
      SumValuesAdd3(m - {k}, a - {k}, b - {k}, c - {k});
    }
  }

  /** A map of non-negative values has a non-negative sum. */
  lemma {:induction false} SumValuesNonNegative<K>(m: map<K, real>)
    requires forall k :: k in m ==> m[k] >= 0.0
    ensures SumValues(m) >= 0.0
    decreases |m|
  {
    if |m| > 0 {
      var k := SumValuesFirst(m);
      SumValuesNonNegative(m - {k});
    }
  }

  /** The sum of a sequence, added left to right as a running total does. */
  function Sum(s: seq<real>): real
  {
    if s == [] then 0.0 else Sum(s[..|s| - 1]) + s[|s| - 1]
  }

  lemma {:induction false} SumAppend(s: seq<real>, x: real)
    ensures Sum(s + [x]) == Sum(s) + x
  {
    assert (s + [x])[..|s|] == s;
  }

  // ---------------------------------------------------------------------
  // Stable sort by a real-valued key (ascending). A descending sort with
  // Python's `reverse=True` keeps equal elements in order, so it is the
  // ascending stable sort by the negated key.
  // ---------------------------------------------------------------------

  predicate SortedBy<T>(s: seq<T>, key: T -> real)
  {
    forall i, j :: 0 <= i < j < |s| ==> key(s[i]) <= key(s[j])
  }

  function InsertBy<T>(x: T, s: seq<T>, key: T -> real): seq<T>
  {
    if s == [] then [x]
    else if key(x) <= key(s[0]) then [x] + s
    else [s[0]] + InsertBy(x, s[1..], key)
  }

  function SortBy<T>(s: seq<T>, key: T -> real): seq<T>
  {
    if s == [] then [] else InsertBy(s[0], SortBy(s[1..], key), key)
  }

  lemma {:induction false} InsertByShape<T>(x: T, s: seq<T>, key: T -> real)
    ensures multiset(InsertBy(x, s, key)) == multiset(s) + multiset{x}
    ensures |InsertBy(x, s, key)| == |s| + 1
    ensures InsertBy(x, s, key)[0] == x || InsertBy(x, s, key)[0] == s[0]
  {
    if s != [] && key(x) > key(s[0]) {
      InsertByShape(x, s[1..], key);
      assert s == [s[0]] + s[1..];
    }
  }

  lemma {:induction false} InsertBySorted<T>(x: T, s: seq<T>, key: T -> real)
    requires SortedBy(s, key)
    ensures SortedBy(InsertBy(x, s, key), key)
  {
    if s != [] && key(x) > key(s[0]) {
      var r := InsertBy(x, s[1..], key);
      InsertBySorted(x, s[1..], key);
      InsertByShape(x, s[1..], key);
      assert key(s[0]) <= key(r[0]) by {
        if r[0] != x { assert |s| > 1 && r[0] == s[1]; }
      }
      var t := [s[0]] + r;
      assert InsertBy(x, s, key) == t;
      forall i, j | 0 <= i < j < |t| ensures key(t[i]) <= key(t[j]) {
        if i == 0 {
          assert t[j] == r[j - 1];
          assert key(r[0]) <= key(r[j - 1]);
        } else {
          assert t[i] == r[i - 1] && t[j] == r[j - 1];
        }
      }
    }
  }

  /** SortBy orders by the key and rearranges without adding or losing elements. */
  lemma {:induction false} SortByFacts<T>(s: seq<T>, key: T -> real)
    ensures SortedBy(SortBy(s, key), key)
    ensures multiset(SortBy(s, key)) == multiset(s)
    ensures |SortBy(s, key)| == |s|
  {
    if s != [] {
      var t := SortBy(s[1..], key);
      SortByFacts(s[1..], key);
      InsertByShape(s[0], t, key);
      InsertBySorted(s[0], t, key);
      assert SortBy(s, key) == InsertBy(s[0], t, key);
      assert multiset(s) == multiset(s[1..]) + multiset{s[0]} by {
        assert s == [s[0]] + s[1..];
      }
    }
  }

  /** A list that is already in key order is left exactly as it is (stability). */
  lemma {:induction false} SortBySortedIdentity<T>(s: seq<T>, key: T -> real)
    requires SortedBy(s, key)
    ensures SortBy(s, key) == s
  {
    if s != [] {
      SortBySortedIdentity(s[1..], key);
      assert SortBy(s[1..], key) == s[1..];
      if |s| > 1 {
        assert key(s[0]) <= key(s[1]);
      }
    }
  }

  /** A non-empty set of integers has an element to pick. */
  lemma {:induction false} NonEmptyHasElement(s: set<int>)
    requires s != {}
    ensures exists x :: x in s
  {
    assert (forall x :: x !in s) ==> s == {};
  }

  /** The smallest element of a non-empty set of integers. */
  method MinOf(s: set<int>) returns (m: int)
    requires s != {}
    ensures m in s && forall x :: x in s ==> m <= x
  {
    NonEmptyHasElement(s);
    m :| m in s;
    var rest := s - {m};
    while rest != {}
      invariant m in s && rest <= s
      invariant forall x :: x in s && x !in rest ==> m <= x
      decreases rest
    {
      NonEmptyHasElement(rest);
      var x :| x in rest;
      if x < m { m := x; }
      rest := rest - {x};
    }
  }

}
