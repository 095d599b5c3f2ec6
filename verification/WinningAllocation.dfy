/** Ranking the entries of a contest and splitting the prizes of tied ranks. */
module WinningAllocation {
  import opened Prizes
  import opened PrizeTotals
  import opened SlabValidation
  import opened Sorting
  import opened Sums

  type Id = nat

  /** `joinedAt` is in milliseconds. */
  datatype RankedEntry = RankedEntry(entryId: Id, userId: Id, teamId: Id, points: real, joinedAt: int)

  datatype Allocated = Allocated(entry: RankedEntry, rank: nat, winningAmount: nat, isTied: bool)

  /** More points first, then the earlier joiner. */
  predicate Outranks(a: RankedEntry, b: RankedEntry)
  {
    a.points > b.points || (a.points == b.points && a.joinedAt < b.joinedAt)
  }

  function Ranking(entries: seq<RankedEntry>): seq<RankedEntry>
  {
    Sort(Outranks, entries)
  }

  /** First index of the tie cluster around `k`. */
  function ClusterFirst(s: seq<RankedEntry>, k: nat): (i: nat)
    requires k < |s|
    ensures i <= k
  {
    if k > 0 && s[k - 1].points == s[k].points then ClusterFirst(s, k - 1) else k
  }

  /** Last index of the tie cluster around `k`. */
  function ClusterLast(s: seq<RankedEntry>, k: nat): (j: nat)
    requires k < |s|
    ensures k <= j < |s|
    decreases |s| - k
  {
    if k + 1 < |s| && s[k + 1].points == s[k].points then ClusterLast(s, k + 1) else k
  }

  function ClusterSize(s: seq<RankedEntry>, k: nat): (size: nat)
    requires k < |s|
    ensures size >= 1
  {
    ClusterLast(s, k) - ClusterFirst(s, k) + 1
  }

  /** The prizes of all ranks the cluster of `k` occupies. */
  function ClusterPool(s: seq<RankedEntry>, k: nat, snapshot: PrizeSnapshot): nat
    requires k < |s|
  {
    PrizePool(ClusterFirst(s, k) + 1, ClusterLast(s, k) + 1, snapshot)
  }

  function Share(s: seq<RankedEntry>, k: nat, snapshot: PrizeSnapshot): nat
    requires k < |s|
  {
    ClusterPool(s, k, snapshot) / ClusterSize(s, k)
  }

  /** An equal share, and for the head of a cluster what the division leaves over. */
  function Winning(s: seq<RankedEntry>, k: nat, snapshot: PrizeSnapshot): nat
    requires k < |s|
  {
    Share(s, k, snapshot)
    + if k == ClusterFirst(s, k) then ClusterPool(s, k, snapshot) % ClusterSize(s, k) else 0
  }

  function AllocationAt(s: seq<RankedEntry>, k: nat, snapshot: PrizeSnapshot): Allocated
    requires k < |s|
  {
    Allocated(s[k], k + 1, Winning(s, k, snapshot), ClusterSize(s, k) > 1)
  }

  /** The allocation, position by position of the ranking. */
  function Allocation(entries: seq<RankedEntry>, snapshot: PrizeSnapshot): (out: seq<Allocated>)
    ensures |out| == |Ranking(entries)|
  {
    var s := Ranking(entries);
    seq(|s|, k requires 0 <= k < |s| => AllocationAt(s, k, snapshot))
  }

  lemma {:induction false} ClusterFirstIs(s: seq<RankedEntry>, i: nat, k: nat)
    requires i <= k < |s|
    requires i > 0 ==> s[i - 1].points != s[i].points
    requires forall m :: i <= m <= k ==> s[m].points == s[i].points
    ensures ClusterFirst(s, k) == i
  {
    if i < k {
      ClusterFirstIs(s, i, k - 1);
    }
  }

  lemma {:induction false} ClusterLastIs(s: seq<RankedEntry>, k: nat, j: nat)
    requires k <= j < |s|
    requires j + 1 < |s| ==> s[j + 1].points != s[j].points
    requires forall m :: k <= m <= j ==> s[m].points == s[k].points
    ensures ClusterLast(s, k) == j
    decreases j - k
  {
    if k < j {
      ClusterLastIs(s, k + 1, j);
    }
  }

  /** What every member of the cluster `i..j` is allocated. */
  lemma MemberAllocation(s: seq<RankedEntry>, i: nat, j: nat, m: nat, snapshot: PrizeSnapshot, share: nat, remainder: nat)
    requires i <= m <= j < |s|
    requires i > 0 ==> s[i - 1].points != s[i].points
    requires forall k :: i <= k <= j ==> s[k].points == s[i].points
    requires j + 1 < |s| ==> s[j + 1].points != s[j].points
    requires share == PrizePool(i + 1, j + 1, snapshot) / (j - i + 1)
    requires remainder == PrizePool(i + 1, j + 1, snapshot) % (j - i + 1)
    ensures AllocationAt(s, m, snapshot)
         == Allocated(s[m], m + 1, share + if m == i then remainder else 0, j > i)
  {
    ClusterFirstIs(s, i, m);
    ClusterLastIs(s, m, j);
  }

  lemma DivisionRemainder(pool: nat, size: nat)
    requires size > 0
    ensures pool - pool / size * size == pool % size
  {
  }

  /** An equal share, and what is left of the pool. */
  method SplitPool(pool: nat, size: nat) returns (share: nat, remainder: nat)
    requires size > 0
    ensures share == pool / size && remainder == pool % size
  {
    share := pool / size;
    DivisionRemainder(pool, size);
    remainder := pool - share * size;
  }

  /** Pays the members of the cluster from `i` to `j`: equal shares, and the remainder for the head. */
  method PayCluster(sorted: seq<RankedEntry>, i: nat, j: nat, snapshot: PrizeSnapshot, paid: seq<Allocated>)
    returns (out: seq<Allocated>)
    requires i <= j < |sorted| && |paid| == i
    requires i > 0 ==> sorted[i - 1].points != sorted[i].points
    requires forall k :: i <= k <= j ==> sorted[k].points == sorted[i].points
    requires j + 1 < |sorted| ==> sorted[j + 1].points != sorted[j].points
    ensures |out| == j + 1 && out[..i] == paid
    ensures forall m :: i <= m <= j ==> out[m] == AllocationAt(sorted, m, snapshot)
  {
    hide AllocationAt;
    var clusterSize := j - i + 1;
    var startRank, endRank := i + 1, j + 1;
    var isTied := clusterSize > 1;
    var clusterPool := PrizePoolForRange(startRank, endRank, snapshot);
    var share, remainder := SplitPool(clusterPool, clusterSize);
    forall m | i <= m <= j ensures AllocationAt(sorted, m, snapshot) == PaidMember(sorted, i, m, share, remainder, isTied) {
      MemberAllocation(sorted, i, j, m, snapshot, share, remainder);
    }
    out := paid;
    for k := 0 to clusterSize
      invariant |out| == i + k && out[..i] == paid
      invariant forall m :: i <= m < i + k ==> out[m] == PaidMember(sorted, i, m, share, remainder, isTied)
    {
      var entry := sorted[i + k];
      var extra := if k == 0 then remainder else 0;
      out := out + [Allocated(entry, startRank + k, share + extra, isTied)];
    }
  }

  function PaidMember(sorted: seq<RankedEntry>, i: nat, m: nat, share: nat, remainder: nat, isTied: bool): Allocated
    requires i <= m < |sorted|
  {
    Allocated(sorted[m], m + 1, share + if m == i then remainder else 0, isTied)
  }

  method AllocateWinnings(entries: seq<RankedEntry>, snapshot: PrizeSnapshot)
    returns (out: seq<Allocated>)
    ensures out == Allocation(entries, snapshot)
  {
    SortContents(Outranks, entries);
    if entries == [] {
      return [];
    }
    var sorted := Ranking(entries);
    out := [];
    var i := 0;
    while i < |sorted|
      invariant 0 <= i <= |sorted| && |out| == i
      invariant 0 < i < |sorted| ==> sorted[i - 1].points != sorted[i].points
      invariant forall m :: 0 <= m < i ==> out[m] == AllocationAt(sorted, m, snapshot)
    {
      hide AllocationAt;
      var head := sorted[i];
      var j := i;
      while j + 1 < |sorted| && sorted[j + 1].points == head.points
        invariant i <= j < |sorted|
        invariant forall m :: i <= m <= j ==> sorted[m].points == head.points
      {
        j := j + 1;
      }
      ghost var before := out;
      out := PayCluster(sorted, i, j, snapshot, out);
      assert forall m :: 0 <= m < i ==> out[m] == out[..i][m] == before[m];
      i := j + 1;
    }
  }

  // ---- The ranking ---------------------------------------------------------------

  lemma OutranksIsOrder()
    ensures StrictWeakOrder(Outranks)
  {
  }

  /** A permutation of the entries, in ranking order, numbered from 1. */
  lemma AllocationRanks(entries: seq<RankedEntry>, snapshot: PrizeSnapshot)
    ensures var out := Allocation(entries, snapshot);
      && multiset(Ranking(entries)) == multiset(entries)
      && |out| == |entries|
      && (forall k :: 0 <= k < |out| ==> out[k].entry == Ranking(entries)[k] && out[k].rank == k + 1)
      && (forall i, j :: 0 <= i < j < |out| ==> !Outranks(out[j].entry, out[i].entry))
  {
    OutranksIsOrder();
    SortContents(Outranks, entries);
    SortSorted(Outranks, entries);
  }

  /** Fewer points never rank above more, and of equal points a later joiner never above an earlier one. */
  lemma RankedByPointsThenJoin(entries: seq<RankedEntry>, snapshot: PrizeSnapshot, i: nat, j: nat)
    requires i < j < |Allocation(entries, snapshot)|
    ensures var a, b := Allocation(entries, snapshot)[i].entry, Allocation(entries, snapshot)[j].entry;
            a.points > b.points || (a.points == b.points && a.joinedAt <= b.joinedAt)
  {
    AllocationRanks(entries, snapshot);
  }

  /** The entries with the points and the join time of `e`, in order. */
  function JoinedWith(entries: seq<RankedEntry>, e: RankedEntry): seq<RankedEntry>
  {
    if entries == [] then []
    else
      (if entries[0].points == e.points && entries[0].joinedAt == e.joinedAt then [entries[0]] else [])
      + JoinedWith(entries[1..], e)
  }

  lemma {:induction false} JoinedWithIsAlike(entries: seq<RankedEntry>, e: RankedEntry)
    ensures JoinedWith(entries, e) == Alike(Outranks, entries, e)
  {
    if entries != [] {
      JoinedWithIsAlike(entries[1..], e);
    }
  }

  /** Entries equal in both stay in stored order. */
  lemma EqualsKeepStoredOrder(entries: seq<RankedEntry>, e: RankedEntry)
    ensures JoinedWith(Ranking(entries), e) == JoinedWith(entries, e)
  {
    OutranksIsOrder();
    JoinedWithIsAlike(entries, e);
    JoinedWithIsAlike(Ranking(entries), e);
    SortStable(Outranks, entries, e);
  }

  /**
   * What the division of a tie's prizes leaves over goes to one member, who
   * joined no later than any other; everybody else gets the quotient.
   */
  lemma RemainderGoesToEarliest(entries: seq<RankedEntry>, snapshot: PrizeSnapshot, k: nat, m: nat)
    requires k < |Allocation(entries, snapshot)| && m < |Allocation(entries, snapshot)|
    requires Allocation(entries, snapshot)[m].entry.points == Allocation(entries, snapshot)[k].entry.points
    ensures var out, s := Allocation(entries, snapshot), Ranking(entries);
            var first, last := ClusterFirst(s, k), ClusterLast(s, k);
            var pool, size := PrizePool(first + 1, last + 1, snapshot), last - first + 1;
      && first <= m <= last
      && out[first].entry.joinedAt <= out[m].entry.joinedAt
      && out[first].winningAmount == pool / size + pool % size
      && (m != first ==> out[m].winningAmount == pool / size)
  {
    hide Winning, Share, ClusterPool, ClusterFirst, ClusterLast, ClusterSize, Ranking;
    AllocationRanks(entries, snapshot);
    var s := Ranking(entries);
    ClusterIsTheTie(s, k, m);
    TieIsSplit(s, k, m, snapshot);
    if ClusterFirst(s, k) < m {
      ClusterIsTheTie(s, k, ClusterFirst(s, k));
      RankedByPointsThenJoin(entries, snapshot, ClusterFirst(s, k), m);
    }
  }

  lemma TieIsSplit(s: seq<RankedEntry>, k: nat, m: nat, snapshot: PrizeSnapshot)
    requires k < |s| && ClusterFirst(s, k) <= m <= ClusterLast(s, k)
    ensures var first, last := ClusterFirst(s, k), ClusterLast(s, k);
            var pool, size := PrizePool(first + 1, last + 1, snapshot), last - first + 1;
      && Winning(s, first, snapshot) == pool / size + pool % size
      && (m != first ==> Winning(s, m, snapshot) == pool / size)
  {
    MemberWinning(s, k, m, snapshot);
    MemberWinning(s, k, ClusterFirst(s, k), snapshot);
  }

  /** Entries no two of which share both points and join time rank the same however they arrive. */
  lemma AllocationIgnoresInputOrder(a: seq<RankedEntry>, b: seq<RankedEntry>, snapshot: PrizeSnapshot)
    requires multiset(a) == multiset(b)
    requires forall x, y :: x in a && y in a && x != y && x.points == y.points ==> x.joinedAt != y.joinedAt
    ensures Allocation(a, snapshot) == Allocation(b, snapshot)
  {
    OutranksIsOrder();
    SortContents(Outranks, a);
    SortContents(Outranks, b);
    SortSorted(Outranks, a);
    SortSorted(Outranks, b);
    forall x ensures x in Ranking(a) <==> x in a {
      SameContents(Ranking(a), a, x);
    }
    SortedUnique(Outranks, Ranking(a), Ranking(b));
  }

  lemma {:induction false} ClusterFirstPoints(s: seq<RankedEntry>, k: nat)
    requires k < |s|
    ensures forall m :: ClusterFirst(s, k) <= m <= k ==> s[m].points == s[k].points
    ensures ClusterFirst(s, k) > 0 ==> s[ClusterFirst(s, k) - 1].points != s[k].points
  {
    if k > 0 && s[k - 1].points == s[k].points {
      ClusterFirstPoints(s, k - 1);
    }
  }

  lemma {:induction false} ClusterLastPoints(s: seq<RankedEntry>, k: nat)
    requires k < |s|
    ensures forall m :: k <= m <= ClusterLast(s, k) ==> s[m].points == s[k].points
    ensures ClusterLast(s, k) + 1 < |s| ==> s[ClusterLast(s, k) + 1].points != s[k].points
    decreases |s| - k
  {
    if k + 1 < |s| && s[k + 1].points == s[k].points {
      ClusterLastPoints(s, k + 1);
    }
  }

  /** In a ranking, the cluster of `k` is every position with its points. */
  lemma ClusterIsTheTie(s: seq<RankedEntry>, k: nat, m: nat)
    requires Sorted(Outranks, s) && k < |s| && m < |s|
    ensures s[m].points == s[k].points <==> ClusterFirst(s, k) <= m <= ClusterLast(s, k)
  {
    ClusterFirstPoints(s, k);
    ClusterLastPoints(s, k);
    var i, j := ClusterFirst(s, k), ClusterLast(s, k);
    if m < i {
      assert !Outranks(s[i - 1], s[m]) || m == i - 1;
      assert !Outranks(s[k], s[i - 1]);
    }
    if m > j {
      assert !Outranks(s[m], s[j + 1]) || m == j + 1;
      assert !Outranks(s[j + 1], s[k]);
    }
  }

  /** `isTied` marks exactly the entries whose points another entry has too. */
  lemma TiedMeansShared(entries: seq<RankedEntry>, snapshot: PrizeSnapshot, k: nat)
    requires k < |Allocation(entries, snapshot)|
    ensures var out := Allocation(entries, snapshot);
      out[k].isTied <==> exists m :: 0 <= m < |out| && m != k && out[m].entry.points == out[k].entry.points
  {
    AllocationRanks(entries, snapshot);
    var s, out := Ranking(entries), Allocation(entries, snapshot);
    forall m | 0 <= m < |s|
      ensures s[m].points == s[k].points <==> ClusterFirst(s, k) <= m <= ClusterLast(s, k)
    {
      ClusterIsTheTie(s, k, m);
    }
    if out[k].isTied {
      var m := if ClusterFirst(s, k) < k then ClusterFirst(s, k) else ClusterLast(s, k);
      assert m != k && out[m].entry.points == out[k].entry.points;
    }
  }

  // ---- Conservation ----------------------------------------------------------------

  function Winnings(out: seq<Allocated>): seq<int>
  {
    seq(|out|, k requires 0 <= k < |out| => out[k].winningAmount)
  }

  ghost function WinningSum(s: seq<RankedEntry>, lo: nat, hi: nat, snapshot: PrizeSnapshot): nat
    requires lo <= hi <= |s|
    decreases hi
  {
    if lo == hi then 0 else WinningSum(s, lo, hi - 1, snapshot) + Winning(s, hi - 1, snapshot)
  }

  lemma OneMore(n: nat, share: nat)
    ensures n * share + share == (n + 1) * share
  {
  }

  /** Head first: after it, every further member adds the plain share. */
  lemma {:induction false} ClusterPrefixSum(s: seq<RankedEntry>, i: nat, m: nat, snapshot: PrizeSnapshot, share: nat, remainder: nat)
    requires i < m <= |s|
    requires Winning(s, i, snapshot) == share + remainder
    requires forall k :: i < k < m ==> Winning(s, k, snapshot) == share
    ensures WinningSum(s, i, m, snapshot) == (m - i) * share + remainder
    decreases m
  {
    if m == i + 1 {
      assert WinningSum(s, i, i, snapshot) == 0;
    } else {
      ClusterPrefixSum(s, i, m - 1, snapshot, share, remainder);
      OneMore(m - 1 - i, share);
    }
  }

  lemma {:induction false} ClusterMembers(s: seq<RankedEntry>, k: nat)
    requires k < |s|
    ensures var i, j := ClusterFirst(s, k), ClusterLast(s, k);
            forall m :: i <= m <= j ==> ClusterFirst(s, m) == i && ClusterLast(s, m) == j
  {
    var i, j := ClusterFirst(s, k), ClusterLast(s, k);
    ClusterFirstPoints(s, k);
    ClusterLastPoints(s, k);
    forall m | i <= m <= j ensures ClusterFirst(s, m) == i && ClusterLast(s, m) == j {
      ClusterFirstIs(s, i, m);
      ClusterLastIs(s, m, j);
    }
  }

  /** The members of a cluster share its pool evenly; the head also takes the remainder. */
  lemma MemberWinning(s: seq<RankedEntry>, k: nat, m: nat, snapshot: PrizeSnapshot)
    requires k < |s| && ClusterFirst(s, k) <= m <= ClusterLast(s, k)
    ensures Winning(s, m, snapshot) == Share(s, k, snapshot)
              + if m == ClusterFirst(s, k) then ClusterPool(s, k, snapshot) % ClusterSize(s, k) else 0
  {
    hide ClusterFirst, ClusterLast, PrizePool;
    ClusterMembers(s, k);
    hide ClusterPool, ClusterSize, Share;
    SameCluster(s, k, m, snapshot);
  }

  lemma SameCluster(s: seq<RankedEntry>, k: nat, m: nat, snapshot: PrizeSnapshot)
    requires k < |s| && m < |s| && ClusterFirst(s, m) == ClusterFirst(s, k) && ClusterLast(s, m) == ClusterLast(s, k)
    ensures ClusterPool(s, m, snapshot) == ClusterPool(s, k, snapshot) && ClusterSize(s, m) == ClusterSize(s, k)
    ensures Share(s, m, snapshot) == Share(s, k, snapshot)
  {
  }

  lemma Reassemble(size: nat, share: nat, remainder: nat, pool: nat)
    requires size > 0 && share == pool / size && remainder == pool % size
    ensures size * share + remainder == pool
  {
  }

  /** A cluster is paid exactly the prizes of the ranks it occupies. */
  lemma ClusterIsPaidItsRanks(s: seq<RankedEntry>, k: nat, snapshot: PrizeSnapshot)
    requires k < |s|
    ensures WinningSum(s, ClusterFirst(s, k), ClusterLast(s, k) + 1, snapshot)
         == PrizePool(ClusterFirst(s, k) + 1, ClusterLast(s, k) + 1, snapshot)
  {
    var i, j := ClusterFirst(s, k), ClusterLast(s, k);
    var size, pool := ClusterSize(s, k), ClusterPool(s, k, snapshot);
    var share, remainder := Share(s, k, snapshot), pool % size;
    forall m | i <= m <= j
      ensures Winning(s, m, snapshot) == share + if m == i then remainder else 0
    {
      MemberWinning(s, k, m, snapshot);
    }
    ClusterPrefixSum(s, i, j + 1, snapshot, share, remainder);
    Reassemble(size, share, remainder, pool);
  }

  lemma {:induction false} WinningSumSplit(s: seq<RankedEntry>, lo: nat, mid: nat, hi: nat, snapshot: PrizeSnapshot)
    requires lo <= mid <= hi <= |s|
    ensures WinningSum(s, lo, hi, snapshot) == WinningSum(s, lo, mid, snapshot) + WinningSum(s, mid, hi, snapshot)
    decreases hi
  {
    if mid < hi {
      WinningSumSplit(s, lo, mid, hi - 1, snapshot);
    }
  }

  lemma {:induction false} ClustersTelescope(s: seq<RankedEntry>, n: nat, snapshot: PrizeSnapshot)
    requires n <= |s|
    requires 0 < n < |s| ==> s[n - 1].points != s[n].points
    ensures WinningSum(s, 0, n, snapshot) == PrizePool(1, n, snapshot)
  {
    if n > 0 {
      var i := ClusterFirst(s, n - 1);
      ClusterFirstPoints(s, n - 1);
      ClusterLastIs(s, n - 1, n - 1);
      ClustersTelescope(s, i, snapshot);
      ClusterIsPaidItsRanks(s, n - 1, snapshot);
      WinningSumSplit(s, 0, i, n, snapshot);
      PrizePoolSplit(1, i, n, snapshot);
    }
  }

  lemma {:induction false} WinningsSumUp(entries: seq<RankedEntry>, snapshot: PrizeSnapshot, m: nat)
    requires m <= |Allocation(entries, snapshot)|
    ensures Sum(Winnings(Allocation(entries, snapshot)[..m])) == WinningSum(Ranking(entries), 0, m, snapshot)
  {
    var out := Allocation(entries, snapshot);
    if m > 0 {
      WinningsSumUp(entries, snapshot, m - 1);
      SumAppend(Winnings(out[..m - 1]), out[m - 1].winningAmount);
      assert Winnings(out[..m]) == Winnings(out[..m - 1]) + [out[m - 1].winningAmount];
    }
  }

  /** No prize money appears or is lost, whatever the snapshot and the scores. */
  lemma WinningsAreThePrizes(entries: seq<RankedEntry>, snapshot: PrizeSnapshot)
    ensures Sum(Winnings(Allocation(entries, snapshot))) == PrizePool(1, |entries|, snapshot)
  {
    SortContents(Outranks, entries);
    var out := Allocation(entries, snapshot);
    WinningsSumUp(entries, snapshot, |out|);
    assert out[..|out|] == out;
    ClustersTelescope(Ranking(entries), |out|, snapshot);
  }

  /**
   * With an accepted ladder the payout stays within the pool; once every
   * winning rank is occupied it is the pool, less for percentages a rounding
   * loss below one minor unit per winning rank.
   */
  lemma PayoutWithinPool(entries: seq<RankedEntry>, snapshot: PrizeSnapshot)
    requires ValidSnapshot(snapshot)
    ensures var paid := Sum(Winnings(Allocation(entries, snapshot)));
      && 0 <= paid <= snapshot.poolAmount
      && (|entries| >= TopRank(snapshot.slabs) ==>
            if snapshot.kind.PercentageBased?
            then snapshot.poolAmount - paid < TopRank(snapshot.slabs)
            else paid == snapshot.poolAmount)
  {
    WinningsAreThePrizes(entries, snapshot);
    PoolCoversRanks(snapshot, |entries|);
  }

  lemma {:induction false} SomeRankPays(lo: int, hi: int, snapshot: PrizeSnapshot) returns (rank: int)
    requires PrizePool(lo, hi, snapshot) > 0
    ensures lo <= rank <= hi && PrizeForRank(rank, snapshot) > 0
    decreases hi - lo + 1
  {
    if PrizeForRank(hi, snapshot) > 0 {
      rank := hi;
    } else {
      rank := SomeRankPays(lo, hi - 1, snapshot);
    }
  }

  lemma NoPoolNoWinning(s: seq<RankedEntry>, k: nat, snapshot: PrizeSnapshot)
    requires k < |s| && ClusterPool(s, k, snapshot) == 0
    ensures Winning(s, k, snapshot) == 0
  {
  }

  /** The payout gate never suppresses a positive winning of an accepted ladder. */
  lemma GateLetsWinningsThrough(entries: seq<RankedEntry>, snapshot: PrizeSnapshot, k: nat)
    requires ValidSnapshot(snapshot)
    requires k < |Allocation(entries, snapshot)| && Allocation(entries, snapshot)[k].winningAmount > 0
    ensures SnapshotHasPayouts(snapshot)
  {
    var s := Ranking(entries);
    var lo, hi := ClusterFirst(s, k) + 1, ClusterLast(s, k) + 1;
    if ClusterPool(s, k, snapshot) == 0 {
      NoPoolNoWinning(s, k, snapshot);
    }
    var rank := SomeRankPays(lo, hi, snapshot);
    FoundSlabIsStored(snapshot.slabs, rank);
    PoolCoversRanks(snapshot, hi);
    PrizePoolSplit(1, lo - 1, hi, snapshot);
  }
}
