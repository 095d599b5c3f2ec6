/** What the tie split means for entries with different scores. */
module TieFairness {
  import opened Prizes
  import opened Sorting
  import opened WinningAllocation

  /** Better ranks are never paid less. The validator does not demand this of a ladder. */
  ghost predicate PrizesNonIncreasing(snapshot: PrizeSnapshot)
  {
    forall rank :: rank >= 1 ==> PrizeForRank(rank + 1, snapshot) <= PrizeForRank(rank, snapshot)
  }

  lemma {:induction false} PrizesOrdered(snapshot: PrizeSnapshot, a: int, b: int)
    requires PrizesNonIncreasing(snapshot) && 1 <= a <= b
    ensures PrizeForRank(b, snapshot) <= PrizeForRank(a, snapshot)
    decreases b - a
  {
    if a < b {
      PrizesOrdered(snapshot, a, b - 1);
      assert PrizeForRank(b - 1 + 1, snapshot) <= PrizeForRank(b - 1, snapshot);
    }
  }

  lemma Distribute(n: nat, x: nat)
    ensures (n + 1) * x == n * x + x
  {
  }

  /** A range of ranks is worth between its last and its first prize per rank. */
  lemma {:induction false} PoolBetweenPrizes(snapshot: PrizeSnapshot, lo: int, hi: int, least: nat, most: nat)
    requires lo - 1 <= hi
    requires forall rank :: lo <= rank <= hi ==> least <= PrizeForRank(rank, snapshot) <= most
    ensures (hi - lo + 1) * least <= PrizePool(lo, hi, snapshot) <= (hi - lo + 1) * most
    decreases hi - lo + 1
  {
    if lo <= hi {
      PoolBetweenPrizes(snapshot, lo, hi - 1, least, most);
      Distribute(hi - lo, least);
      Distribute(hi - lo, most);
    }
  }

  lemma CancelLess(a: nat, b: nat, size: nat)
    requires a * size < b * size
    ensures a < b
  {
  }

  lemma QuotientBetween(pool: nat, size: nat, least: nat, most: nat)
    requires size > 0 && size * least <= pool <= size * most
    ensures least <= pool / size <= most
  {
    var q := pool / size;
    assert q * size <= pool < q * size + size;
    Distribute(q, size);
    CancelLess(least, q + 1, size);
    Distribute(most, size);
    CancelLess(q, most + 1, size);
  }

  lemma ShareBetweenPrizes(s: seq<RankedEntry>, k: nat, snapshot: PrizeSnapshot)
    requires k < |s| && PrizesNonIncreasing(snapshot)
    ensures PrizeForRank(ClusterLast(s, k) + 1, snapshot) <= Share(s, k, snapshot)
         <= PrizeForRank(ClusterFirst(s, k) + 1, snapshot)
  {
    var lo, hi := ClusterFirst(s, k) + 1, ClusterLast(s, k) + 1;
    var least, most := PrizeForRank(hi, snapshot), PrizeForRank(lo, snapshot);
    forall rank | lo <= rank <= hi ensures least <= PrizeForRank(rank, snapshot) <= most {
      PrizesOrdered(snapshot, lo, rank);
      PrizesOrdered(snapshot, rank, hi);
    }
    PoolBetweenPrizes(snapshot, lo, hi, least, most);
    QuotientBetween(ClusterPool(s, k, snapshot), ClusterSize(s, k), least, most);
  }

  lemma RemainderIsSmall(pool: nat, size: nat)
    requires size > 0
    ensures 0 <= pool % size < size
  {
  }

  /** A member of a cluster gets its share, the head less than one unit more per member. */
  lemma WinningNearShare(s: seq<RankedEntry>, k: nat, snapshot: PrizeSnapshot)
    requires k < |s|
    ensures Share(s, k, snapshot) <= Winning(s, k, snapshot) < Share(s, k, snapshot) + ClusterSize(s, k)
    ensures k != ClusterFirst(s, k) ==> Winning(s, k, snapshot) == Share(s, k, snapshot)
  {
    RemainderIsSmall(ClusterPool(s, k, snapshot), ClusterSize(s, k));
  }

  /** The share of a higher cluster is no less than that of a lower one. */
  lemma SharesOrdered(s: seq<RankedEntry>, k: nat, m: nat, snapshot: PrizeSnapshot)
    requires Sorted(Outranks, s) && k < |s| && m < |s|
    requires s[k].points > s[m].points
    requires PrizesNonIncreasing(snapshot)
    ensures Share(s, m, snapshot) <= Share(s, k, snapshot)
  {
    hide Share;
    ClusterIsTheTie(s, k, ClusterLast(s, k));
    ClusterIsTheTie(s, m, ClusterFirst(s, m));
    var last, first := ClusterLast(s, k), ClusterFirst(s, m);
    assert first < last ==> !Outranks(s[last], s[first]);
    ShareBetweenPrizes(s, k, snapshot);
    ShareBetweenPrizes(s, m, snapshot);
    PrizesOrdered(snapshot, last + 1, first + 1);
  }

  /**
   * A strictly higher scorer gets at least the share of any lower cluster, so
   * only the head of that cluster can get more, by less than the cluster's size.
   */
  lemma HigherScoreIsNotPaidLess(s: seq<RankedEntry>, k: nat, m: nat, snapshot: PrizeSnapshot)
    requires Sorted(Outranks, s) && k < |s| && m < |s|
    requires s[k].points > s[m].points
    requires PrizesNonIncreasing(snapshot)
    ensures Share(s, m, snapshot) <= Share(s, k, snapshot) <= Winning(s, k, snapshot)
    ensures m != ClusterFirst(s, m) ==> Winning(s, m, snapshot) <= Winning(s, k, snapshot)
    ensures Winning(s, m, snapshot) < Winning(s, k, snapshot) + ClusterSize(s, m)
  {
    hide Share, Winning;
    SharesOrdered(s, k, m, snapshot);
    WinningNearShare(s, k, snapshot);
    WinningNearShare(s, m, snapshot);
  }

  /** An entry that ties with nobody wins exactly the prize projected for its rank. */
  lemma AloneWinsItsRank(s: seq<RankedEntry>, k: nat, snapshot: PrizeSnapshot)
    requires Sorted(Outranks, s) && k < |s|
    requires forall m :: 0 <= m < |s| && m != k ==> s[m].points != s[k].points
    ensures Winning(s, k, snapshot) == PrizeForRank(k + 1, snapshot)
  {
    ClusterIsTheTie(s, k, ClusterFirst(s, k));
    ClusterIsTheTie(s, k, ClusterLast(s, k));
    assert PrizePool(k + 1, k, snapshot) == 0;
  }

  /** With all scores distinct, every payout is the projection shown for its rank. */
  lemma ProjectionIsPaid(entries: seq<RankedEntry>, snapshot: PrizeSnapshot, k: nat)
    requires forall i, j :: 0 <= i < j < |entries| ==> entries[i].points != entries[j].points
    requires k < |Allocation(entries, snapshot)|
    ensures Allocation(entries, snapshot)[k].winningAmount
         == PrizeForRank(Allocation(entries, snapshot)[k].rank, snapshot)
  {
    AllocationRanks(entries, snapshot);
    var s := Ranking(entries);
    DistinctKeysPermute((e: RankedEntry) => e.points, entries, s);
    AloneWinsItsRank(s, k, snapshot);
  }
}
