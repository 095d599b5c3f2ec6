/** Sums over sequences and over the values of finite maps. */
module Sums {

  function Sum(s: seq<int>): int
  {
    if s == [] then 0 else s[0] + Sum(s[1..])
  }

  lemma {:induction false} SumConcat(a: seq<int>, b: seq<int>)
    ensures Sum(a + b) == Sum(a) + Sum(b)
  {
    if a == [] {
      assert a + b == b;
    } else {
      assert (a + b)[1..] == a[1..] + b;
      SumConcat(a[1..], b);
    }
  }

  lemma SumAppend(a: seq<int>, x: int)
    ensures Sum(a + [x]) == Sum(a) + x
  {
    SumConcat(a, [x]);
  }

  lemma {:induction false} SumNonNegative(s: seq<int>)
    requires forall i :: 0 <= i < |s| ==> s[i] >= 0
    ensures Sum(s) >= 0
  {
    if s != [] {
      SumNonNegative(s[1..]);
    }
  }

  /** The values of a finite map added up, in any order. */
  ghost function MapSum<K>(m: map<K, int>): int
    decreases |m|
  {
    if m == map[] then 0
    else
      var k :| k in m;
      m[k] + MapSum(m - {k})
  }

  lemma {:induction false} MapSumRemove<K>(m: map<K, int>, k: K)
    requires k in m
    ensures MapSum(m) == m[k] + MapSum(m - {k})
    decreases |m|
  {
    var j :| j in m && MapSum(m) == m[j] + MapSum(m - {j});
    if j != k {
      MapSumRemove(m - {j}, k);
      MapSumRemove(m - {k}, j);
      assert m - {j} - {k} == m - {k} - {j};
    }
  }

  /** Setting one key moves the sum by the difference of the two values. */
  lemma MapSumSet<K>(m: map<K, int>, k: K, v: int)
    ensures MapSum(m[k := v]) == MapSum(m) - (if k in m then m[k] else 0) + v
  {
    MapSumRemove(m[k := v], k);
    assert m[k := v] - {k} == m - {k};
    if k in m {
      MapSumRemove(m, k);
    } else {
      assert m - {k} == m;
    }
  }

  /** Two maps that differ at one key only. */
  lemma MapSumDiffer<K>(m: map<K, int>, n: map<K, int>, k: K)
    requires n.Keys == m.Keys + {k}
    requires forall j :: j in m && j != k ==> n[j] == m[j]
    ensures MapSum(n) == MapSum(m) - (if k in m then m[k] else 0) + n[k]
  {
    assert n == m[k := n[k]];
    MapSumSet(m, k, n[k]);
  }

  lemma {:induction false} MapSumBound<K>(m: map<K, int>)
    requires forall k :: k in m ==> m[k] >= 0
    ensures MapSum(m) >= 0
    ensures forall k :: k in m ==> m[k] <= MapSum(m)
    decreases |m|
  {
    if m != map[] {
      forall k | k in m ensures 0 <= m[k] <= MapSum(m) {
        MapSumRemove(m, k);
        MapSumBound(m - {k});
      }
      var k :| k in m;
      assert m[k] >= 0;
    }
  }

  lemma {:induction false} MapSumZero<K>(m: map<K, int>)
    requires forall k :: k in m ==> m[k] == 0
    ensures MapSum(m) == 0
    decreases |m|
  {
    if m != map[] {
      var k :| k in m;
      MapSumRemove(m, k);
      MapSumZero(m - {k});
    }
  }

  // ---- Tallies -------------------------------------------------------------------------------

  /** `obj[key] = (obj[key] ?? 0) + 1`. */
  function Add<K>(m: map<K, int>, k: K): map<K, int>
  {
    m[k := (if k in m then m[k] else 0) + 1]
  }

  function CountMap<K>(keys: seq<K>): map<K, int>
  {
    if keys == [] then map[] else Add(CountMap(keys[..|keys| - 1]), keys[|keys| - 1])
  }

  function Count<K(==)>(keys: seq<K>, k: K): nat
  {
    if keys == [] then 0
    else Count(keys[..|keys| - 1], k) + if keys[|keys| - 1] == k then 1 else 0
  }

  /** A tally holds the number of occurrences of every key, and these add up to all. */
  lemma {:induction false} CountMapIs<K>(keys: seq<K>)
    ensures forall k :: k in CountMap(keys) <==> k in keys
    ensures forall k :: Count(keys, k) == (if k in CountMap(keys) then CountMap(keys)[k] else 0)
    ensures forall k :: k in CountMap(keys) ==> CountMap(keys)[k] >= 1
    ensures MapSum(CountMap(keys)) == |keys|
  {
    if keys != [] {
      var init, last := keys[..|keys| - 1], keys[|keys| - 1];
      assert keys == init + [last];
      CountMapIs(init);
      MapSumSet(CountMap(init), last, Count(init, last) + 1);
    }
  }

  /** A tally is the number of positions that hold the key. */
  lemma {:induction false} CountIsPositions<K>(keys: seq<K>, k: K)
    ensures Count(keys, k) == |Positions(keys, k)|
  {
    if keys != [] {
      var n := |keys| - 1;
      CountIsPositions(keys[..n], k);
      assert Positions(keys, k) == Positions(keys[..n], k) + if keys[n] == k then {n} else {};
    }
  }

  ghost function Positions<K>(keys: seq<K>, k: K): set<int>
  {
    set i | 0 <= i < |keys| && keys[i] == k
  }

  lemma OneMoreTime(x: int, n: nat)
    ensures x * (n + 1) == x * n + x
  {
  }

  /** A sum of values between `lo` and `hi` lies between the multiples of the number of keys. */
  lemma {:induction false} MapSumBetween<K>(m: map<K, int>, lo: int, hi: int, n: nat)
    requires forall k :: k in m ==> lo <= m[k] <= hi
    requires n == |m|
    ensures lo * n <= MapSum(m) <= hi * n
    decreases n
  {
    if m != map[] {
      var k :| k in m;
      MapSumRemove(m, k);
      assert m.Keys == (m - {k}).Keys + {k};
      MapSumBetween(m - {k}, lo, hi, n - 1);
      OneMoreTime(lo, n - 1);
      OneMoreTime(hi, n - 1);
    }
  }
}
