/** Prize ladders: what one rank, and a range of ranks, is paid. */
module Prizes {
  import opened Options

  datatype DistributionType = RankBased | PercentageBased | Fixed

  /** Amounts are minor units and never negative, as the stored schema demands. */
  datatype Slab = Slab(fromRank: int, toRank: int, prizeAmount: nat, percentageBps: nat)

  datatype PrizeSnapshot = PrizeSnapshot(kind: DistributionType, poolAmount: nat, slabs: seq<Slab>)

  const FULL_SHARE_BPS: nat := 10_000

  predicate Covers(slab: Slab, rank: int)
  {
    slab.fromRank <= rank <= slab.toRank
  }

  /** The first slab, in stored order, that contains `rank`. */
  function FindSlab(slabs: seq<Slab>, rank: int): Option<Slab>
  {
    if slabs == [] then None
    else if Covers(slabs[0], rank) then Some(slabs[0])
    else FindSlab(slabs[1..], rank)
  }

  function PrizeForSlab(slab: Slab, snapshot: PrizeSnapshot): nat
  {
    match snapshot.kind
    case PercentageBased => snapshot.poolAmount * slab.percentageBps / FULL_SHARE_BPS
    case _ => slab.prizeAmount
  }

  function PrizeForRank(rank: int, snapshot: PrizeSnapshot): nat
  {
    if rank < 1 then 0
    else
      match FindSlab(snapshot.slabs, rank)
      case None => 0
      case Some(slab) => PrizeForSlab(slab, snapshot)
  }

  /** The prizes of the ranks `fromRank..toRank` added up. */
  function PrizePool(fromRank: int, toRank: int, snapshot: PrizeSnapshot): nat
    decreases toRank - fromRank + 1
  {
    if toRank < fromRank then 0
    else PrizePool(fromRank, toRank - 1, snapshot) + PrizeForRank(toRank, snapshot)
  }

  method PrizePoolForRange(fromRank: int, toRank: int, snapshot: PrizeSnapshot) returns (total: nat)
    ensures total == PrizePool(fromRank, toRank, snapshot)
  {
    if toRank < fromRank {
      return 0;
    }
    total := 0;
    var r := fromRank;
    while r <= toRank
      invariant fromRank <= r <= toRank + 1
      invariant total == PrizePool(fromRank, r - 1, snapshot)
    {
      total := total + PrizeForRank(r, snapshot);
      r := r + 1;
    }
  }

  /** Adjacent ranges add up. */
  lemma {:induction false} PrizePoolSplit(a: int, b: int, c: int, snapshot: PrizeSnapshot)
    requires a - 1 <= b <= c
    ensures PrizePool(a, c, snapshot) == PrizePool(a, b, snapshot) + PrizePool(b + 1, c, snapshot)
    decreases c - b
  {
    if b < c {
      PrizePoolSplit(a, b, c - 1, snapshot);
    }
  }

  lemma {:induction false} FoundFirst(slabs: seq<Slab>, rank: int, i: nat)
    requires i < |slabs| && slabs[i].fromRank <= rank <= slabs[i].toRank
    requires forall h :: 0 <= h < i ==> rank < slabs[h].fromRank || slabs[h].toRank < rank
    ensures FindSlab(slabs, rank) == Some(slabs[i])
  {
    if i > 0 {
      assert forall h :: 0 <= h < i - 1 ==> slabs[1..][h] == slabs[h + 1];
      FoundFirst(slabs[1..], rank, i - 1);
    }
  }

  lemma {:induction false} NoneFound(slabs: seq<Slab>, rank: int)
    requires forall h :: 0 <= h < |slabs| ==> rank < slabs[h].fromRank || slabs[h].toRank < rank
    ensures FindSlab(slabs, rank) == None
  {
    if slabs != [] {
      assert forall h :: 0 <= h < |slabs| - 1 ==> slabs[1..][h] == slabs[h + 1];
      NoneFound(slabs[1..], rank);
    }
  }

  /**
   * Of several slabs that contain a rank the first one stored decides: it pays
   * its amount, or its basis points of the pool rounded down.
   */
  lemma RankIsPaidByFirstSlab(snapshot: PrizeSnapshot, rank: int, i: nat)
    requires rank >= 1 && i < |snapshot.slabs|
    requires snapshot.slabs[i].fromRank <= rank <= snapshot.slabs[i].toRank
    requires forall h :: 0 <= h < i ==> rank < snapshot.slabs[h].fromRank || snapshot.slabs[h].toRank < rank
    ensures var prize, slab := PrizeForRank(rank, snapshot), snapshot.slabs[i];
            if snapshot.kind.PercentageBased?
            then 10_000 * prize <= snapshot.poolAmount * slab.percentageBps < 10_000 * prize + 10_000
            else prize == slab.prizeAmount
  {
    FoundFirst(snapshot.slabs, rank, i);
    QuotientOf(snapshot.poolAmount * snapshot.slabs[i].percentageBps, 10_000);
  }

  lemma QuotientOf(x: nat, d: nat)
    requires d > 0
    ensures d * (x / d) <= x < d * (x / d) + d
  {
  }

  /** A rank below 1, or in no slab, is paid nothing. */
  lemma OtherRanksArePaidNothing(snapshot: PrizeSnapshot, rank: int)
    requires rank < 1 || forall h :: 0 <= h < |snapshot.slabs| ==>
               rank < snapshot.slabs[h].fromRank || snapshot.slabs[h].toRank < rank
    ensures PrizeForRank(rank, snapshot) == 0
  {
    if rank >= 1 {
      NoneFound(snapshot.slabs, rank);
    }
  }

  /** True when some rank would be paid: the gate in front of the wallet work. */
  predicate SnapshotHasPayouts(snapshot: PrizeSnapshot)
  {
    snapshot.poolAmount > 0 && exists slab :: slab in snapshot.slabs && PrizeForSlab(slab, snapshot) > 0
  }

  lemma {:induction false} FoundSlabIsStored(slabs: seq<Slab>, rank: int)
    ensures FindSlab(slabs, rank).Some? ==>
              FindSlab(slabs, rank).value in slabs && Covers(FindSlab(slabs, rank).value, rank)
  {
    if slabs != [] && !Covers(slabs[0], rank) {
      FoundSlabIsStored(slabs[1..], rank);
    }
  }
}
