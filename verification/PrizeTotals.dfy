/** How much an accepted ladder pays in all, and that it never exceeds the pool. */
module PrizeTotals {
  import opened Options
  import opened Prizes
  import opened SlabValidation

  /** The snapshot a contest is created with: its ladder was accepted for its own pool. */
  ghost predicate ValidSnapshot(snapshot: PrizeSnapshot)
  {
    && Tiles(snapshot.slabs)
    && WeightsAddUp(snapshot.slabs, snapshot.kind,
                    if snapshot.kind.PercentageBased? then None else Some(snapshot.poolAmount))
  }

  ghost function WeightAt(slabs: seq<Slab>, kind: DistributionType, rank: int): nat
  {
    match FindSlab(slabs, rank)
    case None => 0
    case Some(slab) => Weight(slab, kind)
  }

  ghost function RankWeights(slabs: seq<Slab>, kind: DistributionType, lo: int, hi: int): nat
    decreases hi - lo + 1
  {
    if hi < lo then 0 else RankWeights(slabs, kind, lo, hi - 1) + WeightAt(slabs, kind, hi)
  }

  // ---- Lookup in stored order agrees with the ladder --------------------------

  lemma {:induction false} FindUnique(slabs: seq<Slab>, slab: Slab, rank: int)
    requires slab in slabs && Covers(slab, rank) && CoverCount(slabs, rank) == 1
    ensures FindSlab(slabs, rank) == Some(slab)
  {
    if slab in slabs[1..] {
      var i :| 0 <= i < |slabs[1..]| && slabs[1..][i] == slab;
      CoverCountIndices(slabs[1..], rank);
      FindUnique(slabs[1..], slab, rank);
    } else {
      assert slab == slabs[0];
    }
  }

  lemma FindUncovered(slabs: seq<Slab>, rank: int)
    requires CoverCount(slabs, rank) == 0
    ensures FindSlab(slabs, rank) == None
  {
    FoundSlabIsStored(slabs, rank);
    CoverCountIndices(slabs, rank);
  }

  // ---- Adding weights rank by rank or slab by slab is the same ----------------

  lemma {:induction false} RankWeightsOfRun(slabs: seq<Slab>, kind: DistributionType, lo: int, hi: int, w: nat)
    requires forall rank :: lo <= rank <= hi ==> WeightAt(slabs, kind, rank) == w
    requires lo - 1 <= hi
    ensures RankWeights(slabs, kind, lo, hi) == (hi - lo + 1) * w
    decreases hi - lo + 1
  {
    if lo <= hi {
      RankWeightsOfRun(slabs, kind, lo, hi - 1, w);
    }
  }

  lemma {:induction false} RankWeightsSplit(slabs: seq<Slab>, kind: DistributionType, lo: int, mid: int, hi: int)
    requires lo - 1 <= mid <= hi
    ensures RankWeights(slabs, kind, lo, hi)
         == RankWeights(slabs, kind, lo, mid) + RankWeights(slabs, kind, mid + 1, hi)
    decreases hi - mid
  {
    if mid < hi {
      RankWeightsSplit(slabs, kind, lo, mid, hi - 1);
    }
  }

  lemma {:induction false} RankWeightsAgree(a: seq<Slab>, b: seq<Slab>, kind: DistributionType, lo: int, hi: int)
    requires forall rank :: lo <= rank <= hi ==> FindSlab(a, rank) == FindSlab(b, rank)
    ensures RankWeights(a, kind, lo, hi) == RankWeights(b, kind, lo, hi)
    decreases hi - lo + 1
  {
    if lo <= hi {
      RankWeightsAgree(a, b, kind, lo, hi - 1);
    }
  }

  lemma {:induction false} ChainWeights(s: seq<Slab>, kind: DistributionType, start: int)
    requires Chain(s, start) && start >= 1
    ensures s != [] ==> RankWeights(s, kind, start, TopRank(s)) == TotalWeight(s, kind)
  {
    if s != [] {
      var head, tail := s[0], s[1..];
      ChainCoverCount(tail, head.toRank + 1, 0);
      RankWeightsOfRun(s, kind, start, head.toRank, Weight(head, kind));
      if tail != [] {
        ChainWeights(tail, kind, head.toRank + 1);
        RankWeightsSplit(s, kind, start, head.toRank, TopRank(s));
        RankWeightsAgree(s, tail, kind, head.toRank + 1, TopRank(s));
      }
    }
  }

  lemma TiledWeights(slabs: seq<Slab>, kind: DistributionType)
    requires Tiles(slabs)
    ensures RankWeights(slabs, kind, 1, TopRank(slabs)) == TotalWeight(slabs, kind)
  {
    var sorted := Sorting.Sort(StartsBefore, slabs);
    ContiguousIffTiles(slabs);
    ContiguousIsChain(sorted, 1);
    ChainWeights(sorted, kind, 1);
    TotalWeightSort(slabs, kind);
    Sorting.SortContents(StartsBefore, slabs);
    forall rank | 1 <= rank <= TopRank(slabs) ensures FindSlab(slabs, rank) == FindSlab(sorted, rank) {
      CoverCountSort(slabs, rank);
      CoverCountIndices(slabs, rank);
      var i :| 0 <= i < |slabs| && Covers(slabs[i], rank);
      Sorting.SameContents(slabs, sorted, slabs[i]);
      FindUnique(slabs, slabs[i], rank);
      FindUnique(sorted, slabs[i], rank);
    }
    RankWeightsAgree(slabs, sorted, kind, 1, TopRank(slabs));
  }

  // ---- From weights to prizes --------------------------------------------------

  lemma {:induction false} AmountsAreWeights(snapshot: PrizeSnapshot, n: nat)
    requires !snapshot.kind.PercentageBased?
    ensures PrizePool(1, n, snapshot) == RankWeights(snapshot.slabs, snapshot.kind, 1, n)
  {
    if n > 0 {
      AmountsAreWeights(snapshot, n - 1);
    }
  }

  lemma ShareBounds(pool: nat, bps: nat)
    ensures FULL_SHARE_BPS * (pool * bps / FULL_SHARE_BPS) <= pool * bps
    ensures pool * bps < FULL_SHARE_BPS * (pool * bps / FULL_SHARE_BPS) + FULL_SHARE_BPS
  {
    var x := pool * bps;
    assert x == FULL_SHARE_BPS * (x / FULL_SHARE_BPS) + x % FULL_SHARE_BPS;
  }

  /** One more rank adds its rounding loss. */
  lemma LossGrows(pool: nat, before: nat, w: nat, prizes: nat, prize: nat, n: nat)
    requires FULL_SHARE_BPS * prizes <= pool * before <= FULL_SHARE_BPS * prizes + (FULL_SHARE_BPS - 1) * n
    requires FULL_SHARE_BPS * prize <= pool * w <= FULL_SHARE_BPS * prize + (FULL_SHARE_BPS - 1)
    ensures FULL_SHARE_BPS * (prizes + prize) <= pool * (before + w)
         <= FULL_SHARE_BPS * (prizes + prize) + (FULL_SHARE_BPS - 1) * (n + 1)
  {
    assert pool * (before + w) == pool * before + pool * w;
  }

  /** Rounding each rank down loses less than one minor unit per rank. */
  lemma {:induction false} PercentagesAreWeights(snapshot: PrizeSnapshot, n: nat)
    requires snapshot.kind.PercentageBased?
    ensures FULL_SHARE_BPS * PrizePool(1, n, snapshot)
         <= snapshot.poolAmount * RankWeights(snapshot.slabs, snapshot.kind, 1, n)
         <= FULL_SHARE_BPS * PrizePool(1, n, snapshot) + (FULL_SHARE_BPS - 1) * n
  {
    if n > 0 {
      PercentagesAreWeights(snapshot, n - 1);
      var w := WeightAt(snapshot.slabs, snapshot.kind, n);
      ShareBounds(snapshot.poolAmount, w);
      PrizeIsShare(snapshot, n);
      LossGrows(snapshot.poolAmount, RankWeights(snapshot.slabs, snapshot.kind, 1, n - 1), w,
                PrizePool(1, n - 1, snapshot), PrizeForRank(n, snapshot), n - 1);
    }
  }

  lemma PrizeIsShare(snapshot: PrizeSnapshot, n: nat)
    requires snapshot.kind.PercentageBased? && n >= 1
    ensures PrizeForRank(n, snapshot)
         == snapshot.poolAmount * WeightAt(snapshot.slabs, snapshot.kind, n) / FULL_SHARE_BPS
  {
  }

  lemma {:induction false} PrizePoolMonotone(m: nat, n: nat, snapshot: PrizeSnapshot)
    requires m <= n
    ensures PrizePool(1, m, snapshot) <= PrizePool(1, n, snapshot)
    decreases n
  {
    if m < n {
      PrizePoolMonotone(m, n - 1, snapshot);
    }
  }

  lemma {:induction false} NothingBelowTheLadder(snapshot: PrizeSnapshot, n: nat)
    requires Tiles(snapshot.slabs) && n >= TopRank(snapshot.slabs)
    ensures PrizePool(1, n, snapshot) == PrizePool(1, TopRank(snapshot.slabs), snapshot)
    decreases n
  {
    if n > TopRank(snapshot.slabs) {
      NothingBelowTheLadder(snapshot, n - 1);
      FindUncovered(snapshot.slabs, n);
    }
  }

  /** With an accepted ladder the payout gate is open exactly when some rank is paid. */
  lemma GateIsSomePrize(snapshot: PrizeSnapshot)
    requires ValidSnapshot(snapshot)
    ensures SnapshotHasPayouts(snapshot) <==> exists rank :: PrizeForRank(rank, snapshot) > 0
  {
    if SnapshotHasPayouts(snapshot) {
      var slab :| slab in snapshot.slabs && PrizeForSlab(slab, snapshot) > 0;
      var i :| 0 <= i < |snapshot.slabs| && snapshot.slabs[i] == slab;
      CoverCountIndices(snapshot.slabs, slab.fromRank);
      assert Covers(slab, slab.fromRank);
      FindUnique(snapshot.slabs, slab, slab.fromRank);
      assert PrizeForRank(slab.fromRank, snapshot) > 0;
    }
    if rank :| PrizeForRank(rank, snapshot) > 0 {
      FoundSlabIsStored(snapshot.slabs, rank);
      PoolCoversRanks(snapshot, rank);
    }
  }

  lemma TopRankPositive(slabs: seq<Slab>)
    requires Tiles(slabs)
    ensures TopRank(slabs) >= 1
  {
    CoverCountIndices(slabs, slabs[0].fromRank);
    assert Covers(slabs[0], slabs[0].fromRank);
  }

  /** Paying the whole ladder: exactly the pool, or short by less than a unit per winning rank. */
  lemma WholeLadder(snapshot: PrizeSnapshot)
    requires ValidSnapshot(snapshot)
    ensures var total := PrizePool(1, TopRank(snapshot.slabs), snapshot);
            if snapshot.kind.PercentageBased?
            then total <= snapshot.poolAmount < total + TopRank(snapshot.slabs)
            else total == snapshot.poolAmount
  {
    var top := TopRank(snapshot.slabs);
    TiledWeights(snapshot.slabs, snapshot.kind);
    TopRankPositive(snapshot.slabs);
    if snapshot.kind.PercentageBased? {
      PercentagesAreWeights(snapshot, top);
    } else {
      AmountsAreWeights(snapshot, top);
    }
  }

  /** The first `n` ranks of an accepted ladder never cost more than the pool. */
  lemma PoolCoversRanks(snapshot: PrizeSnapshot, n: nat)
    requires ValidSnapshot(snapshot)
    ensures PrizePool(1, n, snapshot) <= snapshot.poolAmount
    ensures n >= TopRank(snapshot.slabs) ==>
              if snapshot.kind.PercentageBased?
              then snapshot.poolAmount < PrizePool(1, n, snapshot) + TopRank(snapshot.slabs)
              else PrizePool(1, n, snapshot) == snapshot.poolAmount
  {
    var top := TopRank(snapshot.slabs);
    WholeLadder(snapshot);
    if n < top {
      PrizePoolMonotone(n, top, snapshot);
    } else {
      NothingBelowTheLadder(snapshot, n);
    }
  }
}
