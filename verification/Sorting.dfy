/**
 * The stable sort of the platform (`Array.prototype.sort`), as a function of a
 * strict comparison: `before(a, b)` says that the comparator is negative.
 */
module Sorting {

  /** A comparator sorts consistently when it is a strict weak order. */
  ghost predicate StrictWeakOrder<T(!new)>(before: (T, T) -> bool)
  {
    && (forall a, b :: before(a, b) ==> !before(b, a))
    && (forall a, b, c :: before(a, b) ==> before(a, c) || before(c, b))
  }

  ghost predicate Sorted<T>(before: (T, T) -> bool, s: seq<T>)
  {
    forall i, j :: 0 <= i < j < |s| ==> !before(s[j], s[i])
  }

  function Insert<T>(before: (T, T) -> bool, x: T, s: seq<T>): seq<T>
  {
    if s == [] || !before(s[0], x) then [x] + s
    else [s[0]] + Insert(before, x, s[1..])
  }

  function Sort<T>(before: (T, T) -> bool, s: seq<T>): seq<T>
  {
    if s == [] then [] else Insert(before, s[0], Sort(before, s[1..]))
  }

  lemma {:induction false} InsertContents<T>(before: (T, T) -> bool, x: T, s: seq<T>)
    ensures multiset(Insert(before, x, s)) == multiset(s) + multiset{x}
    ensures |Insert(before, x, s)| == |s| + 1
  {
    if !(s == [] || !before(s[0], x)) {
      InsertContents(before, x, s[1..]);
      assert s == [s[0]] + s[1..];
    }
  }

  lemma {:induction false} SortContents<T>(before: (T, T) -> bool, s: seq<T>)
    ensures multiset(Sort(before, s)) == multiset(s)
    ensures |Sort(before, s)| == |s|
  {
    if s != [] {
      SortContents(before, s[1..]);
      InsertContents(before, s[0], Sort(before, s[1..]));
      assert s == [s[0]] + s[1..];
    }
  }

  /** Membership is what equal multisets share. */
  lemma SameContents<T>(a: seq<T>, b: seq<T>, x: T)
    requires multiset(a) == multiset(b)
    ensures x in a <==> x in b
  {
    assert x in a <==> x in multiset(a);
    assert x in b <==> x in multiset(b);
  }

  lemma {:induction false} InsertSorted<T(!new)>(before: (T, T) -> bool, x: T, s: seq<T>)
    requires StrictWeakOrder(before) && Sorted(before, s)
    ensures Sorted(before, Insert(before, x, s))
  {
    var r := Insert(before, x, s);
    if s == [] {
    } else if !before(s[0], x) {
      forall i, j | 0 <= i < j < |r| ensures !before(r[j], r[i]) {
        if i == 0 && j > 1 {
          assert !before(s[j - 1], s[0]);
        }
      }
    } else {
      var t := Insert(before, x, s[1..]);
      InsertSorted(before, x, s[1..]);
      InsertContents(before, x, s[1..]);
      forall i, j | 0 <= i < j < |r| ensures !before(r[j], r[i]) {
        if i == 0 {
          assert t[j - 1] in multiset(t);
          assert t[j - 1] == x || t[j - 1] in s[1..];
        } else {
          assert !before(t[j - 1], t[i - 1]);
        }
      }
    }
  }

  lemma {:induction false} SortSorted<T(!new)>(before: (T, T) -> bool, s: seq<T>)
    requires StrictWeakOrder(before)
    ensures Sorted(before, Sort(before, s))
  {
    if s != [] {
      SortSorted(before, s[1..]);
      InsertSorted(before, s[0], Sort(before, s[1..]));
    }
  }

  /** The elements the comparator cannot tell from `x`, in order. */
  function Alike<T>(before: (T, T) -> bool, s: seq<T>, x: T): seq<T>
  {
    if s == [] then []
    else (if before(s[0], x) || before(x, s[0]) then [] else [s[0]]) + Alike(before, s[1..], x)
  }

  lemma {:induction false} InsertStable<T(!new)>(before: (T, T) -> bool, y: T, s: seq<T>, x: T)
    requires StrictWeakOrder(before)
    ensures Alike(before, Insert(before, y, s), x) == Alike(before, [y] + s, x)
  {
    assert ([y] + s)[1..] == s;
    if !(s == [] || !before(s[0], y)) {
      InsertStable(before, y, s[1..], x);
      assert ([y] + s[1..])[1..] == s[1..];
      assert ([s[0]] + Insert(before, y, s[1..]))[1..] == Insert(before, y, s[1..]);
      if !before(y, x) && !before(x, y) {
        assert before(s[0], x) || before(x, y);
      }
    }
  }

  /** The sort is stable: what the comparator cannot tell apart stays in the order it came. */
  lemma {:induction false} SortStable<T(!new)>(before: (T, T) -> bool, s: seq<T>, x: T)
    requires StrictWeakOrder(before)
    ensures Alike(before, Sort(before, s), x) == Alike(before, s, x)
  {
    if s != [] {
      SortStable(before, s[1..], x);
      var t := Sort(before, s[1..]);
      InsertStable(before, s[0], t, x);
      assert ([s[0]] + t)[1..] == t;
    }
  }

  /** The first elements of two sorted arrangements are equivalent. */
  lemma SortedHeads<T(!new)>(before: (T, T) -> bool, a: seq<T>, b: seq<T>)
    requires Sorted(before, a) && Sorted(before, b) && a != []
    requires multiset(a) == multiset(b)
    ensures b != []
    ensures a[0] == b[0] || (!before(a[0], b[0]) && !before(b[0], a[0]))
  {
    assert |a| == |multiset(a)| == |multiset(b)| == |b|;
    SameContents(a, b, a[0]);
    SameContents(a, b, b[0]);
    var i :| 0 <= i < |a| && a[i] == b[0];
    var j :| 0 <= j < |b| && b[j] == a[0];
    assert i > 0 ==> !before(a[i], a[0]);
    assert j > 0 ==> !before(b[j], b[0]);
  }

  lemma TailContents<T>(a: seq<T>)
    requires a != []
    ensures multiset(a[1..]) == multiset(a) - multiset{a[0]}
  {
    assert a == [a[0]] + a[1..];
  }

  /**
   * Where the comparator tells all elements of `a` apart, two sorted
   * arrangements of the same elements are the same sequence.
   */
  lemma {:induction false} SortedUnique<T(!new)>(before: (T, T) -> bool, a: seq<T>, b: seq<T>)
    requires Sorted(before, a) && Sorted(before, b)
    requires multiset(a) == multiset(b)
    requires forall x, y :: x in a && y in a && x != y ==> before(x, y) || before(y, x)
    ensures a == b
  {
    assert |a| == |multiset(a)| == |multiset(b)| == |b|;
    if a != [] {
      SortedHeads(before, a, b);
      SameContents(a, b, b[0]);
      assert a[0] == b[0];
      TailContents(a);
      TailContents(b);
      SortedUnique(before, a[1..], b[1..]);
      assert a == [a[0]] + a[1..] && b == [b[0]] + b[1..];
    }
  }

  lemma NoLarger<T>(a: seq<T>, b: seq<T>)
    requires multiset(a) <= multiset(b)
    ensures |a| <= |b|
  {
    assert multiset(b) == multiset(a) + (multiset(b) - multiset(a));
    assert |a| == |multiset(a)| && |b| == |multiset(b)|;
  }

  /** What lies above position `k` of `b` all comes before it in `b`. */
  lemma AllBefore<T(!new)>(before: (T, T) -> bool, a: seq<T>, b: seq<T>, k: nat, x: T)
    requires StrictWeakOrder(before) && Sorted(before, a) && Sorted(before, b)
    requires multiset(a) == multiset(b) && k < |a| && k < |b| && before(a[k], b[k]) && x in a[..k + 1]
    ensures multiset(a[..k + 1])[x] <= multiset(b[..k])[x]
  {
    var i :| 0 <= i <= k && a[i] == x;
    assert i < k ==> !before(a[k], a[i]);
    assert forall j :: k < j < |b| ==> !before(b[j], b[k]);
    assert forall j :: k <= j < |b| ==> b[j] != x;
    assert x !in b[k..] && multiset(b[k..])[x] == 0;
    assert a == a[..k + 1] + a[k + 1..] && b == b[..k] + b[k..];
    assert multiset(a[..k + 1])[x] <= multiset(a)[x] == multiset(b)[x];
    assert multiset(b) == multiset(b[..k]) + multiset(b[k..]);
  }

  /** Two sorted arrangements of the same elements are equivalent position by position. */
  lemma SortedAlike<T(!new)>(before: (T, T) -> bool, a: seq<T>, b: seq<T>, k: nat)
    requires StrictWeakOrder(before) && Sorted(before, a) && Sorted(before, b)
    requires multiset(a) == multiset(b) && k < |a|
    ensures |a| == |b| && !before(a[k], b[k])
  {
    assert |a| == |multiset(a)| == |multiset(b)| == |b|;
    if before(a[k], b[k]) {
      forall x | x in a[..k + 1] ensures multiset(a[..k + 1])[x] <= multiset(b[..k])[x] {
        AllBefore(before, a, b, k, x);
      }
      NoLarger(a[..k + 1], b[..k]);
    }
  }

  ghost predicate DistinctKeys<T, K>(key: T -> K, s: seq<T>)
  {
    forall i, j :: 0 <= i < j < |s| ==> key(s[i]) != key(s[j])
  }

  lemma {:induction false} OncePerKey<T, K>(key: T -> K, s: seq<T>, x: T)
    requires DistinctKeys(key, s)
    ensures multiset(s)[x] <= 1
  {
    if s != [] {
      assert s == [s[0]] + s[1..];
      OncePerKey(key, s[1..], x);
      if x == s[0] {
        assert x !in s[1..];
        assert multiset(s[1..])[x] == 0;
      }
    }
  }

  lemma TwoCopies<T>(s: seq<T>, i: nat, j: nat)
    requires i < j < |s| && s[i] == s[j]
    ensures multiset(s)[s[i]] >= 2
  {
    assert s == s[..i] + [s[i]] + s[i + 1..j] + [s[j]] + s[j + 1..];
  }

  /** Rearranging elements with distinct keys keeps the keys distinct. */
  lemma DistinctKeysPermute<T, K>(key: T -> K, a: seq<T>, b: seq<T>)
    requires multiset(a) == multiset(b) && DistinctKeys(key, a)
    ensures DistinctKeys(key, b)
  {
    forall i, j | 0 <= i < j < |b| ensures key(b[i]) != key(b[j]) {
      SameContents(a, b, b[i]);
      SameContents(a, b, b[j]);
      OncePerKey(key, a, b[i]);
      if b[i] == b[j] {
        TwoCopies(b, i, j);
      }
      var k :| 0 <= k < |a| && a[k] == b[i];
      var m :| 0 <= m < |a| && a[m] == b[j];
      assert k < m || m < k;
    }
  }
}
