/** Rounding to two decimals as the platform does it, over exact reals. */
module Rounding {

  /** The nearest integer, halves upwards. */
  function Round(x: real): int
  {
    (x + 0.5).Floor
  }

  function Round2(x: real): real
  {
    Round(x * 100.0) as real / 100.0
  }

  /** At most two decimals. */
  predicate OnGrid(x: real)
  {
    (x * 100.0).Floor as real == x * 100.0
  }

  function Abs(x: real): (r: real)
    ensures r >= 0.0
  {
    if x < 0.0 then -x else x
  }

  function Times(x: real, m: real): real
  {
    x * m
  }

  lemma TimesIs(x: real, m: real)
    ensures Times(x, m) == x * m
  {
  }

  lemma FloorIs(x: real, n: int)
    requires n as real <= x < n as real + 1.0
    ensures x.Floor == n
  {
  }

  lemma RoundNear(x: real)
    ensures -0.5 < Round(x) as real - x <= 0.5
    ensures Round(x) as real == x <==> x.Floor as real == x
  {
    var n := x.Floor;
    assert n as real <= x < n as real + 1.0;
    FloorIs(x + 0.5, if x - n as real < 0.5 then n else n + 1);
  }

  lemma Hundredths(n: int)
    ensures n as real / 100.0 * 100.0 == n as real
    ensures OnGrid(n as real / 100.0)
  {
    assert (n as real / 100.0 * 100.0).Floor == n;
  }

  lemma Round2Near(x: real)
    ensures OnGrid(Round2(x))
    ensures -0.005 < Round2(x) - x <= 0.005
    ensures Round2(x) == x <==> OnGrid(x)
  {
    Hundredths(Round(x * 100.0));
    RoundNear(x * 100.0);
  }

  lemma ProductOrder(a: real, b: real, c: real, d: real)
    requires 0.0 <= a <= b && 0.0 <= c <= d
    ensures 0.0 <= a * c <= b * d
  {
    assert a * c <= b * c;
    assert b * c <= b * d;
  }

  lemma ProductSize(m: real, x: real)
    ensures Abs(m * x) == Abs(m) * Abs(x)
  {
  }

  /** A factor of at most `limit` scales an error by at most `limit`. */
  lemma TimesError(x: real, y: real, m: real, limit: real, error: real)
    requires Abs(m) <= limit && Abs(x - y) <= error
    ensures Abs(Times(x, m) - Times(y, m)) <= Times(error, limit)
  {
    ProductSize(m, x - y);
    ProductOrder(Abs(m), limit, Abs(x - y), error);
    assert Times(x, m) - Times(y, m) == m * (x - y);
    assert Times(error, limit) == limit * error;
  }

  lemma TimesDistributes(x: real, y: real, m: real)
    ensures Times(x + y, m) == Times(x, m) + Times(y, m)
  {
  }

  lemma OnGridAdd(x: real, y: real)
    requires OnGrid(x) && OnGrid(y)
    ensures OnGrid(x + y)
  {
    assert (x + y) * 100.0 == ((x * 100.0).Floor + (y * 100.0).Floor) as real;
  }

  function SumReals(s: seq<real>): real
  {
    if s == [] then 0.0 else SumReals(s[..|s| - 1]) + s[|s| - 1]
  }

  /** A running total that is rounded after every addition. */
  function StepSum(s: seq<real>): real
  {
    if s == [] then 0.0 else Round2(StepSum(s[..|s| - 1]) + s[|s| - 1])
  }

  /** Half a cent times `limit` for each of `n` roundings. */
  function Allowance(n: nat, limit: real): real
  {
    if n == 0 then 0.0 else Allowance(n - 1, limit) + 0.005 * limit
  }

  lemma {:induction false} AllowanceIs(n: nat, limit: real)
    ensures Allowance(n, limit) == 0.005 * limit * n as real
  {
    if n > 0 {
      AllowanceIs(n - 1, limit);
    }
  }

  lemma {:induction false} AllowanceAdds(n: nat, more: nat, limit: real)
    ensures Allowance(n + more, limit) == Allowance(n, limit) + Allowance(more, limit)
  {
    if more > 0 {
      AllowanceAdds(n, more - 1, limit);
    }
  }

  lemma {:induction false} AllowanceScales(n: nat, limit: real)
    ensures Times(Allowance(n, 1.0), limit) == Allowance(n, limit)
  {
    if n > 0 {
      AllowanceScales(n - 1, limit);
      TimesDistributes(Allowance(n - 1, 1.0), 0.005, limit);
    }
  }

  /** A running total is off by at most half a cent per addition. */
  lemma {:induction false} StepSumNear(s: seq<real>)
    ensures OnGrid(StepSum(s))
    ensures Abs(StepSum(s) - SumReals(s)) <= Allowance(|s|, 1.0)
  {
    if s != [] {
      StepSumNear(s[..|s| - 1]);
      Round2Near(StepSum(s[..|s| - 1]) + s[|s| - 1]);
    }
  }

  lemma {:induction false} StepSumExact(s: seq<real>)
    requires forall i :: 0 <= i < |s| ==> OnGrid(s[i])
    ensures StepSum(s) == SumReals(s)
    ensures OnGrid(SumReals(s))
  {
    if s != [] {
      StepSumExact(s[..|s| - 1]);
      OnGridAdd(SumReals(s[..|s| - 1]), s[|s| - 1]);
      Round2Near(SumReals(s));
    }
  }

  // ---- Sums of terms that are off themselves -------------------------------------------------

  function SumNats(s: seq<nat>): nat
  {
    if s == [] then 0 else SumNats(s[..|s| - 1]) + s[|s| - 1]
  }

  lemma {:induction false} SumNear(a: seq<real>, b: seq<real>, counts: seq<nat>, limit: real)
    requires |a| == |b| == |counts|
    requires forall i :: 0 <= i < |a| ==> Abs(a[i] - b[i]) <= 0.005 + Allowance(counts[i], limit)
    ensures Abs(SumReals(a) - SumReals(b)) <= Allowance(|a|, 1.0) + Allowance(SumNats(counts), limit)
  {
    if a != [] {
      var n := |a| - 1;
      SumNear(a[..n], b[..n], counts[..n], limit);
      AllowanceAdds(SumNats(counts[..n]), counts[n], limit);
    }
  }

  lemma {:induction false} RoundedSumNear(a: seq<real>, b: seq<real>, counts: seq<nat>, limit: real)
    requires |a| == |b| == |counts|
    requires forall i :: 0 <= i < |a| ==> Abs(a[i] - b[i]) <= Allowance(counts[i], limit)
    ensures Abs(StepSum(a) - SumReals(b)) <= Allowance(|a|, 1.0) + Allowance(SumNats(counts), limit)
  {
    if a != [] {
      var n := |a| - 1;
      RoundedSumNear(a[..n], b[..n], counts[..n], limit);
      AllowanceAdds(SumNats(counts[..n]), counts[n], limit);
      Round2Near(StepSum(a[..n]) + a[n]);
    }
  }
}
