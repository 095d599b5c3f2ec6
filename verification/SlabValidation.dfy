/** Which prize ladders are accepted, and what acceptance buys. */
module SlabValidation {
  import opened Options
  import opened Prizes
  import opened Sorting

  datatype SlabIssue =
    | NoSlabs
    | FirstNotRankOne
    | EmptyRange(index: nat)
    | NotContiguous(index: nat)
    | PercentagesOff(total: int)
    | AmountsOff(total: int)

  datatype SlabVerdict = Accepted | Rejected(issue: SlabIssue)

  predicate StartsBefore(a: Slab, b: Slab)
  {
    a.fromRank < b.fromRank
  }

  function SlabSize(slab: Slab): int
  {
    slab.toRank - slab.fromRank + 1
  }

  /** What a slab weighs per rank: basis points, or minor units. */
  function Weight(slab: Slab, kind: DistributionType): nat
  {
    if kind.PercentageBased? then slab.percentageBps else slab.prizeAmount
  }

  function TotalWeight(slabs: seq<Slab>, kind: DistributionType): int
  {
    if slabs == [] then 0
    else SlabSize(slabs[0]) * Weight(slabs[0], kind) + TotalWeight(slabs[1..], kind)
  }

  /** The highest rank any slab names; 0 when there is none. */
  function TopRank(slabs: seq<Slab>): nat
  {
    if slabs == [] then 0
    else
      var rest := TopRank(slabs[1..]);
      if slabs[0].toRank > rest then slabs[0].toRank else rest
  }

  function CoverCount(slabs: seq<Slab>, rank: int): nat
  {
    if slabs == [] then 0
    else (if Covers(slabs[0], rank) then 1 else 0) + CoverCount(slabs[1..], rank)
  }

  /** Each rank from 1 to the top lies in exactly one slab and no other rank in any. */
  ghost predicate Tiles(slabs: seq<Slab>)
  {
    && slabs != []
    && (forall slab :: slab in slabs ==> slab.fromRank <= slab.toRank)
    && (forall rank :: CoverCount(slabs, rank) == if 1 <= rank <= TopRank(slabs) then 1 else 0)
  }

  predicate WeightsAddUp(slabs: seq<Slab>, kind: DistributionType, pool: Option<nat>)
  {
    if kind.PercentageBased? then TotalWeight(slabs, kind) == FULL_SHARE_BPS
    else pool.Some? ==> TotalWeight(slabs, kind) == pool.value
  }

  /** The check the program makes, on the slabs in ascending order. */
  ghost predicate Contiguous(sorted: seq<Slab>)
  {
    && sorted != []
    && sorted[0].fromRank == 1
    && (forall i :: 0 <= i < |sorted| ==> sorted[i].fromRank <= sorted[i].toRank)
    && (forall i :: 0 < i < |sorted| ==> sorted[i - 1].toRank + 1 == sorted[i].fromRank)
  }

  ghost predicate Describes(issue: SlabIssue, sorted: seq<Slab>, kind: DistributionType, pool: Option<nat>)
  {
    match issue
    case NoSlabs => sorted == []
    case FirstNotRankOne => sorted != [] && sorted[0].fromRank != 1
    case EmptyRange(i) => i < |sorted| && sorted[i].toRank < sorted[i].fromRank
    case NotContiguous(i) => 0 < i < |sorted| && sorted[i - 1].toRank + 1 != sorted[i].fromRank
    case PercentagesOff(total) =>
      kind.PercentageBased? && total == TotalWeight(sorted, kind) != FULL_SHARE_BPS
    case AmountsOff(total) =>
      !kind.PercentageBased? && pool.Some? && total == TotalWeight(sorted, kind) != pool.value
  }

  method SumWeights(slabs: seq<Slab>, kind: DistributionType) returns (total: int)
    ensures total == TotalWeight(slabs, kind)
  {
    total := 0;
    for i := 0 to |slabs|
      invariant total == TotalWeight(slabs[..i], kind)
    {
      TotalWeightConcat(slabs[..i], [slabs[i]], kind);
      assert slabs[..i] + [slabs[i]] == slabs[..i + 1];
      total := total + SlabSize(slabs[i]) * Weight(slabs[i], kind);
    }
    assert slabs[..|slabs|] == slabs;
  }

  /** The loop over the sorted slabs. */
  method CheckRanges(sorted: seq<Slab>) returns (issue: Option<SlabIssue>)
    requires sorted != [] && sorted[0].fromRank == 1
    ensures issue.None? <==> Contiguous(sorted)
    ensures issue.Some? ==> issue.value.EmptyRange? || issue.value.NotContiguous?
    ensures issue.Some? ==> forall kind, pool :: Describes(issue.value, sorted, kind, pool)
  {
    var i := 0;
    while i < |sorted|
      invariant 0 <= i <= |sorted|
      invariant forall k :: 0 <= k < i ==> sorted[k].fromRank <= sorted[k].toRank
      invariant forall k :: 0 < k < i ==> sorted[k - 1].toRank + 1 == sorted[k].fromRank
    {
      if sorted[i].toRank < sorted[i].fromRank {
        return Some(EmptyRange(i));
      }
      if i > 0 && sorted[i - 1].toRank + 1 != sorted[i].fromRank {
        return Some(NotContiguous(i));
      }
      i := i + 1;
    }
    issue := None;
  }

  /** Accepts exactly the ladders that tile the ranks and whose weights add up. */
  method ValidateSlabs(slabs: seq<Slab>, kind: DistributionType, pool: Option<nat>)
    returns (verdict: SlabVerdict)
    ensures verdict.Accepted? <==>
              && Tiles(slabs)
              && (if kind.PercentageBased? then TotalWeight(slabs, kind) == 10_000
                  else pool.Some? ==> TotalWeight(slabs, kind) == pool.value)
    ensures verdict.Rejected? ==> Describes(verdict.issue, Sort(StartsBefore, slabs), kind, pool)
  {
    hide Sort, TotalWeight, Tiles;
    var sorted := Sort(StartsBefore, slabs);
    SortContents(StartsBefore, slabs);
    ContiguousIffTiles(slabs);
    TotalWeightSort(slabs, kind);
    if slabs == [] {
      return Rejected(NoSlabs);
    }
    if sorted[0].fromRank != 1 {
      return Rejected(FirstNotRankOne);
    }
    var issue := CheckRanges(sorted);
    if issue.Some? {
      return Rejected(issue.value);
    }
    if kind.PercentageBased? {
      var totalBps := SumWeights(sorted, kind);
      if totalBps != FULL_SHARE_BPS {
        return Rejected(PercentagesOff(totalBps));
      }
    }
    if !kind.PercentageBased? && pool.Some? {
      var totalAmount := SumWeights(sorted, kind);
      if totalAmount != pool.value {
        return Rejected(AmountsOff(totalAmount));
      }
    }
    return Accepted;
  }

  // ---- Sorting changes none of the totals ------------------------------------

  lemma {:induction false} TotalWeightConcat(a: seq<Slab>, b: seq<Slab>, kind: DistributionType)
    ensures TotalWeight(a + b, kind) == TotalWeight(a, kind) + TotalWeight(b, kind)
  {
    if a == [] {
      assert a + b == b;
    } else {
      assert (a + b)[1..] == a[1..] + b;
      TotalWeightConcat(a[1..], b, kind);
    }
  }

  lemma {:induction false} TotalsInsert(x: Slab, s: seq<Slab>, kind: DistributionType, rank: int)
    ensures TotalWeight(Insert(StartsBefore, x, s), kind) == SlabSize(x) * Weight(x, kind) + TotalWeight(s, kind)
    ensures CoverCount(Insert(StartsBefore, x, s), rank) == (if Covers(x, rank) then 1 else 0) + CoverCount(s, rank)
    ensures TopRank(Insert(StartsBefore, x, s)) == TopRank([x] + s)
  {
    if !(s == [] || !StartsBefore(s[0], x)) {
      TotalsInsert(x, s[1..], kind, rank);
      assert ([x] + s)[1..] == s && ([x] + s[1..])[1..] == s[1..];
    }
  }

  lemma {:induction false} TotalWeightSort(s: seq<Slab>, kind: DistributionType)
    ensures TotalWeight(Sort(StartsBefore, s), kind) == TotalWeight(s, kind)
    ensures TopRank(Sort(StartsBefore, s)) == TopRank(s)
  {
    if s != [] {
      TotalWeightSort(s[1..], kind);
      var t := Sort(StartsBefore, s[1..]);
      TotalsInsert(s[0], t, kind, 0);
      assert ([s[0]] + t)[1..] == t;
    }
  }

  lemma {:induction false} CoverCountSort(s: seq<Slab>, rank: int)
    ensures CoverCount(Sort(StartsBefore, s), rank) == CoverCount(s, rank)
  {
    if s != [] {
      CoverCountSort(s[1..], rank);
      TotalsInsert(s[0], Sort(StartsBefore, s[1..]), Fixed, rank);
    }
  }

  // ---- Contiguous ladders are the tilings ------------------------------------

  lemma {:induction false} CoverCountIndices(s: seq<Slab>, rank: int)
    ensures CoverCount(s, rank) > 0 <==> exists i :: 0 <= i < |s| && Covers(s[i], rank)
    ensures forall i, j :: 0 <= i < j < |s| && Covers(s[i], rank) && Covers(s[j], rank) ==> CoverCount(s, rank) > 1
  {
    if s != [] {
      CoverCountIndices(s[1..], rank);
      forall i | 0 < i < |s| && Covers(s[i], rank)
        ensures CoverCount(s[1..], rank) > 0
      {
        assert s[1..][i - 1] == s[i];
      }
      forall i, j | 0 <= i < j < |s| && Covers(s[i], rank) && Covers(s[j], rank)
        ensures CoverCount(s, rank) > 1
      {
        assert s[1..][j - 1] == s[j];
        if i > 0 {
          assert s[1..][i - 1] == s[i];
        }
      }
    }
  }

  lemma {:induction false} TopRankBounds(s: seq<Slab>)
    ensures forall i :: 0 <= i < |s| ==> s[i].toRank <= TopRank(s)
    ensures TopRank(s) == 0 || exists i :: 0 <= i < |s| && s[i].toRank == TopRank(s)
  {
    if s != [] {
      TopRankBounds(s[1..]);
      forall i | 0 <= i < |s| ensures s[i].toRank <= TopRank(s) {
        if i > 0 {
          assert s[1..][i - 1] == s[i];
        }
      }
      if TopRank(s) != 0 && TopRank(s) != s[0].toRank {
        var i :| 0 <= i < |s[1..]| && s[1..][i].toRank == TopRank(s);
        assert s[i + 1].toRank == TopRank(s);
      }
    }
  }

  /** A run of slabs that starts at `start` and leaves no gap. */
  ghost predicate Chain(s: seq<Slab>, start: int)
  {
    s == [] || (start == s[0].fromRank <= s[0].toRank && Chain(s[1..], s[0].toRank + 1))
  }

  lemma {:induction false} ContiguousIsChain(s: seq<Slab>, start: int)
    requires s == [] || s[0].fromRank == start
    requires forall i :: 0 <= i < |s| ==> s[i].fromRank <= s[i].toRank
    requires forall i :: 0 < i < |s| ==> s[i - 1].toRank + 1 == s[i].fromRank
    ensures Chain(s, start)
  {
    if s != [] {
      var t := s[1..];
      assert t != [] ==> t[0] == s[1];
      forall i | 0 < i < |t| ensures t[i - 1].toRank + 1 == t[i].fromRank {
        assert t[i] == s[i + 1] && t[i - 1] == s[i];
      }
      ContiguousIsChain(t, s[0].toRank + 1);
    }
  }

  lemma {:induction false} ChainCoverCount(s: seq<Slab>, start: int, rank: int)
    requires Chain(s, start) && start >= 1
    ensures s != [] ==> TopRank(s) >= start
    ensures CoverCount(s, rank) == if s != [] && start <= rank <= TopRank(s) then 1 else 0
  {
    if s != [] {
      ChainCoverCount(s[1..], s[0].toRank + 1, rank);
    }
  }

  lemma TilesIsContiguous(s: seq<Slab>)
    requires Tiles(s) && Sorted(StartsBefore, s)
    ensures Contiguous(s)
  {
    forall i | 0 <= i < |s| ensures s[i].fromRank >= 1 {
      CoverCountIndices(s, s[i].fromRank);
      assert Covers(s[i], s[i].fromRank);
    }
    TopRankBounds(s);
    CoverCountIndices(s, 1);
    assert s[0].fromRank == 1 by {
      assert 1 <= TopRank(s);
      var i :| 0 <= i < |s| && Covers(s[i], 1);
      assert i > 0 ==> !StartsBefore(s[i], s[0]);
    }
    forall i | 0 < i < |s| ensures s[i - 1].toRank + 1 == s[i].fromRank {
      StepIsContiguous(s, i);
    }
  }

  lemma StepIsContiguous(s: seq<Slab>, i: int)
    requires Tiles(s) && Sorted(StartsBefore, s)
    requires 0 < i < |s|
    requires forall k :: 0 <= k < |s| ==> 1 <= s[k].fromRank
    ensures s[i - 1].toRank + 1 == s[i].fromRank
  {
    var gap := s[i - 1].toRank + 1;
    assert !StartsBefore(s[i], s[i - 1]);
    CoverCountIndices(s, s[i].fromRank);
    assert s[i].fromRank >= gap by {
      if s[i].fromRank < gap {
        assert Covers(s[i], s[i].fromRank) && Covers(s[i - 1], s[i].fromRank);
      }
    }
    TopRankBounds(s);
    assert s[i].toRank <= TopRank(s);
    CoverCountIndices(s, gap);
    var j :| 0 <= j < |s| && Covers(s[j], gap);
    assert j > i ==> !StartsBefore(s[j], s[i]);
    assert j < i - 1 ==> !StartsBefore(s[i - 1], s[j]);
    assert j < i - 1 ==> Covers(s[j], s[i - 1].fromRank);
    CoverCountIndices(s, s[i - 1].fromRank);
  }

  /** The sorted walk accepts exactly the slab lists that tile, in any stored order. */
  lemma ContiguousIffTiles(slabs: seq<Slab>)
    ensures Contiguous(Sort(StartsBefore, slabs)) <==> Tiles(slabs)
  {
    var sorted := Sort(StartsBefore, slabs);
    SortContents(StartsBefore, slabs);
    SortSorted(StartsBefore, slabs);
    TotalWeightSort(slabs, Fixed);
    forall rank ensures CoverCount(sorted, rank) == CoverCount(slabs, rank) {
      CoverCountSort(slabs, rank);
    }
    forall slab ensures slab in slabs <==> slab in sorted {
      SameContents(slabs, sorted, slab);
    }
    if Contiguous(sorted) {
      ContiguousIsChain(sorted, 1);
      forall rank ensures CoverCount(sorted, rank) == if 1 <= rank <= TopRank(sorted) then 1 else 0 {
        ChainCoverCount(sorted, 1, rank);
      }
      assert Tiles(slabs);
    }
    if Tiles(slabs) {
      assert Tiles(sorted);
      TilesIsContiguous(sorted);
    }
  }
}
