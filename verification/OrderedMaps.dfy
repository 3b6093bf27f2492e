/** `BTreeMap` as a finite map with integer keys that is read in key order,
    ascending or (for `Reverse` keys) descending. */
module OrderedMaps {

  predicate Before(reverse: bool, j: int, k: int) { if reverse then k <= j else j <= k }

  predicate IsFirst(reverse: bool, s: set<int>, k: int) {
    k in s && forall j :: j in s ==> Before(reverse, k, j)
  }

  lemma {:induction false} FirstExists(reverse: bool, s: set<int>)
    requires s != {}
    ensures exists k :: IsFirst(reverse, s, k)
    decreases |s|
  {
    if forall y :: y !in s { assert false; }
    var x :| x in s;
    if s == {x} {
      assert IsFirst(reverse, s, x);
    } else {
      FirstExists(reverse, s - {x});
      var k :| IsFirst(reverse, s - {x}, k);
      assert forall j :: j in s ==> j == x || j in s - {x};
      assert IsFirst(reverse, s, if Before(reverse, x, k) then x else k);
    }
  }

  /** `keys().next()`: the first key in the map's order. */
  function First(reverse: bool, s: set<int>): (k: int)
    requires s != {}
    ensures IsFirst(reverse, s, k)
  {
    FirstExists(reverse, s);
    var k :| IsFirst(reverse, s, k);
    k
  }

  /** `values()`: the values in ascending key order. */
  function Values<V>(m: map<int, V>): (r: seq<V>)
    ensures |r| == |m|
    ensures forall v :: v in r ==> exists k :: k in m && m[k] == v
    decreases |m|
  {
    if m == map[] then []
    else
      var k := First(false, m.Keys);
      var rest := m - {k};
      assert rest.Keys == m.Keys - {k};
      [m[k]] + Values(rest)
  }

  // ---------------------------------------------------------------- totals

  /** The sum of `f` over the values of a map. */
  function Total<V>(m: map<int, V>, f: V -> int): int
    decreases |m|
  {
    if m == map[] then 0
    else
      var k := First(false, m.Keys);
      assert (m - {k}).Keys == m.Keys - {k};
      f(m[k]) + Total(m - {k}, f)
  }

  /** Any key can be split off the sum. */
  lemma {:induction false} TotalWithout<V>(m: map<int, V>, f: V -> int, k: int)
    requires k in m
    ensures Total(m, f) == f(m[k]) + Total(m - {k}, f)
    decreases |m|
  {
    var first := First(false, m.Keys);
    assert (m - {first}).Keys == m.Keys - {first};
    if k != first {
      assert (m - {k}).Keys == m.Keys - {k};
      assert first in m - {k};
      assert First(false, (m - {k}).Keys) == first;
      assert (m - {k}) - {first} == (m - {first}) - {k};
      TotalWithout(m - {first}, f, k);
    }
  }

  /** Replacing or adding one value changes the sum by the difference. */
  lemma TotalUpdate<V>(m: map<int, V>, f: V -> int, k: int, v: V)
    ensures Total(m[k := v], f) == Total(m, f) - (if k in m then f(m[k]) else 0) + f(v)
  {
    TotalWithout(m[k := v], f, k);
    assert m[k := v] - {k} == m - {k};
    if k in m {
      TotalWithout(m, f, k);
    } else {
      assert m - {k} == m;
    }
  }
}
