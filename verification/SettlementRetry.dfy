/** What a retry of a failed settlement can and cannot do. */
module SettlementRetry {
  import opened ContestSettlement
  import opened ContestStatuses
  import opened FirstSettlement
  import opened Options
  import opened Prizes
  import opened PrizeTotals
  import opened SettlementProtocol
  import opened SlabValidation
  import opened Sorting
  import opened Sums
  import opened WinningAllocation

  /** Store writes of the pay loop: a credit where money is due, and a mark. */
  function Writes(allocations: seq<Allocated>, gate: bool): nat
  {
    if allocations == [] then 0
    else Writes(allocations[..|allocations| - 1], gate)
         + if ShouldPay(allocations[|allocations| - 1], gate) then 2 else 1
  }

  /** An entry whose earlier credit differs from what it is allocated now. */
  predicate Refuses(credits: map<Id, nat>, a: Allocated, gate: bool)
  {
    ShouldPay(a, gate) && CreditRefused(credits, a.entry.entryId, a.winningAmount)
  }

  /** The pay loop ends well exactly when the writes suffice and no earlier credit disagrees. */
  lemma {:induction false} PayAllSucceedsIff(p: PayState, allocations: seq<Allocated>, gate: bool)
    requires !p.failed && DistinctEntries(allocations)
    ensures var q := PayAll(p, allocations, gate);
      && (!q.failed <==>
            Writes(allocations, gate) <= p.budget
            && forall k :: 0 <= k < |allocations| ==> !Refuses(p.books.credits, allocations[k], gate))
      && (!q.failed ==>
            && q.budget == p.budget - Writes(allocations, gate)
            && q.books.credits.Keys <= p.books.credits.Keys + set k | 0 <= k < |allocations| :: allocations[k].entry.entryId)
      && (!q.failed ==> forall id :: id in p.books.credits ==> id in q.books.credits && q.books.credits[id] == p.books.credits[id])
    decreases |allocations|
  {
    if allocations != [] {
      var n := |allocations| - 1;
      var before, a := allocations[..n], allocations[n];
      PayAllSucceedsIff(p, before, gate);
      var q := PayAll(p, before, gate);
      assert forall k :: 0 <= k < n ==> before[k] == allocations[k];
      if !q.failed {
        assert Refuses(q.books.credits, a, gate) <==> Refuses(p.books.credits, a, gate) by {
          assert forall k :: 0 <= k < n ==> before[k].entry.entryId != allocations[n].entry.entryId;
          assert a.entry.entryId !in set k | 0 <= k < n :: before[k].entry.entryId;
        }
      }
    }
  }

  /**
   * A settlement call that obtains the lock of a contest with ACTIVE entries
   * succeeds exactly when enough writes do and no ACTIVE entry was credited
   * a different amount by an earlier attempt.
   */
  lemma RetrySucceedsIff(store: Store, token: Token, points: map<Id, real>, budget: nat)
    requires UniqueIds(store.books.entries)
    requires Claimable(store.result) && ActiveEntries(store.books.entries, points) != []
    ensures var allocations, gate := Allocations(store, points), SnapshotHasPayouts(store.snapshot);
            Settle(store, token, points, true, budget).1.RunSettled? <==>
            Writes(allocations, gate) + 2 <= budget
            && forall k :: 0 <= k < |allocations| ==> !Refuses(store.books.credits, allocations[k], gate)
  {
    AllocationsAreDistinct(store, points);
    PayAllSucceedsIff(PayState(store.books, 0, 0, budget, false), Allocations(store, points),
                      SnapshotHasPayouts(store.snapshot));
  }

  // ---- Witnesses --------------------------------------------------------------------

  /** One prize, 100 for the first rank, and two entries that score 10 and 5. */
  const ONE_PRIZE: PrizeSnapshot := PrizeSnapshot(Fixed, 100, [Slab(1, 1, 100, 0)])
  const FIRST: Entry := Entry(1, 11, 21, 0, EntryActive, None, 0)
  const SECOND: Entry := Entry(2, 12, 22, 0, EntryActive, None, 0)
  const SCORES: map<Id, real> := map[21 := 10.0, 22 := 5.0]

  ghost const START: State := State(ONE_PRIZE, None, Books([FIRST, SECOND], map[]), [], 0)

  lemma OnePrizeIsValid()
    ensures ValidSnapshot(ONE_PRIZE) && SnapshotHasPayouts(ONE_PRIZE)
  {
    var slab := Slab(1, 1, 100, 0);
    assert ONE_PRIZE.slabs == [slab] && [slab][1..] == [];
    assert TopRank(ONE_PRIZE.slabs) == 1;
    forall rank ensures CoverCount(ONE_PRIZE.slabs, rank) == if 1 <= rank <= 1 then 1 else 0 {
      assert CoverCount([slab][1..], rank) == 0;
    }
    assert TotalWeight([slab][1..], Fixed) == 0;
    assert TotalWeight(ONE_PRIZE.slabs, Fixed) == 100;
    assert slab in ONE_PRIZE.slabs && PrizeForSlab(slab, ONE_PRIZE) == 100;
  }

  lemma OnlyRankOnePays(rank: int)
    ensures PrizeForRank(rank, ONE_PRIZE) == if rank == 1 then 100 else 0
  {
    assert FindSlab(ONE_PRIZE.slabs[1..], rank) == None;
  }

  lemma PoolOfOneRank(rank: nat)
    ensures PrizePool(rank, rank, ONE_PRIZE) == PrizeForRank(rank, ONE_PRIZE)
  {
    assert PrizePool(rank, rank - 1, ONE_PRIZE) == 0;
  }

  lemma AllocationOfTwo()
    ensures var ranked := ActiveEntries([FIRST, SECOND], SCORES);
      && ranked == [RankedEntry(1, 11, 21, 10.0, 0), RankedEntry(2, 12, 22, 5.0, 0)]
      && Allocation(ranked, ONE_PRIZE) == [Allocated(ranked[0], 1, 100, false), Allocated(ranked[1], 2, 0, false)]
  {
    var a, b := RankedEntry(1, 11, 21, 10.0, 0), RankedEntry(2, 12, 22, 5.0, 0);
    assert ActiveEntries([SECOND], SCORES) == [b] by {
      assert [SECOND][1..] == [];
    }
    assert [FIRST, SECOND][1..] == [SECOND];
    assert Ranking([a, b]) == [a, b] by {
      assert [a, b][1..] == [b] && [b][1..] == [];
      assert Sort(Outranks, [b]) == [b];
    }
    PoolOfOneRank(1);
    PoolOfOneRank(2);
    OnlyRankOnePays(1);
    OnlyRankOnePays(2);
    var s := [a, b];
    assert AllocationAt(s, 0, ONE_PRIZE) == Allocated(a, 1, 100, false);
    assert AllocationAt(s, 1, ONE_PRIZE) == Allocated(b, 2, 0, false);
  }

  lemma AllocationOfSecond()
    ensures var ranked := [RankedEntry(2, 12, 22, 5.0, 0)];
            Allocation(ranked, ONE_PRIZE) == [Allocated(ranked[0], 1, 100, false)]
  {
    var b := RankedEntry(2, 12, 22, 5.0, 0);
    assert Ranking([b]) == [b] by {
      assert [b][1..] == [];
      assert Sort(Outranks, [b][1..]) == [];
    }
    PoolOfOneRank(1);
    OnlyRankOnePays(1);
    assert AllocationAt([b], 0, ONE_PRIZE) == Allocated(b, 1, 100, false);
  }

  /** START after one attempt that paid and marked the first entry and then failed. */
  ghost const RANKED: seq<RankedEntry> := [RankedEntry(1, 11, 21, 10.0, 0), RankedEntry(2, 12, 22, 5.0, 0)]
  ghost const PAID_ONE: seq<Entry> :=
    [FIRST.(status := EntrySettled, rank := Some(1), winningAmount := 100), SECOND]
  ghost const LOADED: Run :=
    Run(7, Paying, 2, [Allocated(RANKED[0], 1, 100, false), Allocated(RANKED[1], 2, 0, false)], 0, false, 0, 0, 0)
  ghost const MARKED: Run := LOADED.(next := 1, paid := 100, winners := 1, created := 100)
  ghost const FAILED: State :=
    State(ONE_PRIZE, Some(ResultRow(Failed, Some(7), 100, 2, 0, 0, 0)), Books(PAID_ONE, map[1 := 100]),
          [MARKED.(phase := Ended)], 0)

  ghost const FIRST_LOADED: State :=
    State(ONE_PRIZE, Some(ResultRow(InProgress, Some(7), 100, 2, 0, 0, 0)), Books([FIRST, SECOND], map[]), [LOADED], 0)

  lemma FirstAttemptLoads() returns (steps: seq<Step>)
    ensures Runs(START, steps) && After(START, steps) == FIRST_LOADED
  {
    AllocationOfTwo();
    hide Allocation, ActiveEntries;
    var s1 := FIRST_LOADED.(runs := [Run(7, Loading, 2, [], 0, false, 0, 0, 0)]);
    OneMoreStep(START, [], START, Claim(7, 2), s1);
    steps := [] + [Claim(7, 2)];
    OneMoreStep(START, steps, s1, Load(0, SCORES), FIRST_LOADED);
    steps := steps + [Load(0, SCORES)];
  }

  lemma FirstAttemptFails() returns (steps: seq<Step>)
    ensures Runs(START, steps) && After(START, steps) == FAILED
  {
    OnePrizeIsValid();
    MarkSettledKeepsIds([FIRST, SECOND], 1, 1, 100);
    steps := FirstAttemptLoads();
    var s3 := FIRST_LOADED.(books := Books([FIRST, SECOND], map[1 := 100]),
                            runs := [LOADED.(inHand := true, paid := 100, winners := 1, created := 100)]);
    OneMoreStep(START, steps, FIRST_LOADED, Credit(0, false), s3);
    steps := steps + [Credit(0, false)];
    var s4 := s3.(books := Books(PAID_ONE, map[1 := 100]), runs := [MARKED]);
    OneMoreStep(START, steps, s3, Mark(0), s4);
    steps := steps + [Mark(0)];
    OneMoreStep(START, steps, s4, Fail(0), FAILED);
    steps := steps + [Fail(0)];
  }

  lemma OneActiveLeft()
    ensures ActiveEntries(PAID_ONE, SCORES) == [RANKED[1]]
  {
    assert PAID_ONE[1..] == [SECOND] && [SECOND][1..] == [];
    assert ActiveEntries([SECOND], SCORES) == [RANKED[1]];
  }

  ghost const LOADING_AGAIN: Run := Run(8, Loading, 1, [], 0, false, 0, 0, 0)
  ghost const PAYING_AGAIN: Run := LOADING_AGAIN.(phase := Paying, allocations := [Allocated(RANKED[1], 1, 100, false)])
  ghost const CLAIMED_AGAIN: State :=
    FAILED.(result := Some(ResultRow(InProgress, Some(8), 100, 1, 0, 0, 0)), runs := FAILED.runs + [LOADING_AGAIN])
  ghost const LOADED_AGAIN: State := CLAIMED_AGAIN.(runs := FAILED.runs + [PAYING_AGAIN])
  ghost const CREDITED_AGAIN: State :=
    LOADED_AGAIN.(books := Books(PAID_ONE, map[1 := 100, 2 := 100]),
                  runs := FAILED.runs + [PAYING_AGAIN.(inHand := true, paid := 100, winners := 1, created := 100)])

  lemma SecondClaim()
    ensures Enabled(FAILED, Claim(8, 1)) && Apply(FAILED, Claim(8, 1)) == CLAIMED_AGAIN
  {
  }

  lemma SecondLoad()
    ensures Enabled(CLAIMED_AGAIN, Load(1, SCORES)) && Apply(CLAIMED_AGAIN, Load(1, SCORES)) == LOADED_AGAIN
  {
    AllocationOfSecond();
    OneActiveLeft();
  }

  lemma SecondCredit()
    ensures Enabled(LOADED_AGAIN, Credit(1, false)) && Apply(LOADED_AGAIN, Credit(1, false)) == CREDITED_AGAIN
    ensures MapSum(CREDITED_AGAIN.books.credits) == 200
  {
    OnePrizeIsValid();
    MapSumSet(map[], 1, 100);
    MapSumSet(map[1 := 100], 2, 100);
    assert CREDITED_AGAIN.books.credits == map[1 := 100][2 := 100];
  }

  /**
   * The bound of one pool per claim is met: an attempt pays the first entry and
   * fails, the next ranks the remaining entry first again and pays it the same
   * prize, 200 from a pool of 100.
   */
  lemma RetryCanExceedThePool() returns (steps: seq<Step>)
    ensures ValidSnapshot(ONE_PRIZE) && Initial(START) && Runs(START, steps)
    ensures |After(START, steps).runs| == 2
    ensures MapSum(After(START, steps).books.credits) == 2 * ONE_PRIZE.poolAmount
  {
    OnePrizeIsValid();
    steps := FirstAttemptFails();
    SecondClaim();
    OneMoreStep(START, steps, FAILED, Claim(8, 1), CLAIMED_AGAIN);
    steps := steps + [Claim(8, 1)];
    SecondLoad();
    OneMoreStep(START, steps, CLAIMED_AGAIN, Load(1, SCORES), LOADED_AGAIN);
    steps := steps + [Load(1, SCORES)];
    SecondCredit();
    OneMoreStep(START, steps, LOADED_AGAIN, Credit(1, false), CREDITED_AGAIN);
    steps := steps + [Credit(1, false)];
  }

  /** A contest without entries; its first worker failed, and a reset read that. */
  ghost const EMPTY: State := START.(books := Books([], map[]))
  ghost const EMPTY_RUN: Run := Run(7, Loading, 0, [], 0, false, 0, 0, 0)
  ghost const EMPTY_ROW: ResultRow := ResultRow(InProgress, Some(7), 100, 0, 0, 0, 0)
  ghost const READ_BY_RESET: State :=
    EMPTY.(result := Some(EMPTY_ROW.(status := Failed)), runs := [EMPTY_RUN.(phase := Ended)], staleResets := 1)

  lemma ResetReadsFailure() returns (steps: seq<Step>)
    ensures Runs(EMPTY, steps) && After(EMPTY, steps) == READ_BY_RESET
  {
    var s1 := EMPTY.(result := Some(EMPTY_ROW), runs := [EMPTY_RUN]);
    OneMoreStep(EMPTY, [], EMPTY, Claim(7, 0), s1);
    steps := [] + [Claim(7, 0)];
    var s2 := READ_BY_RESET.(staleResets := 0);
    OneMoreStep(EMPTY, steps, s1, Fail(0), s2);
    steps := steps + [Fail(0)];
    OneMoreStep(EMPTY, steps, s2, ReadReset, READ_BY_RESET);
    steps := steps + [ReadReset];
  }

  /** A reset that read FAILED before a retry and saves after it reopens a finished settlement. */
  lemma StaleResetReopens() returns (steps: seq<Step>)
    ensures Initial(EMPTY) && Runs(EMPTY, steps)
    ensures var t := After(EMPTY, steps);
            Terminal(t.result) && Enabled(t, SaveReset) && Claimable(Apply(t, SaveReset).result)
  {
    steps := ResetReadsFailure();
    var again := EMPTY_ROW.(lockToken := Some(8));
    var s4 := READ_BY_RESET.(result := Some(again), runs := READ_BY_RESET.runs + [EMPTY_RUN.(token := 8)]);
    OneMoreStep(EMPTY, steps, READ_BY_RESET, Claim(8, 0), s4);
    steps := steps + [Claim(8, 0)];
    var s5 := s4.(result := Some(again.(status := Skipped)),
                  runs := READ_BY_RESET.runs + [EMPTY_RUN.(token := 8, phase := Ended)]);
    OneMoreStep(EMPTY, steps, s4, SkipEmpty(1), s5);
    steps := steps + [SkipEmpty(1)];
  }
}
