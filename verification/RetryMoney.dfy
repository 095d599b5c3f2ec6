/** How much a retry adds to what earlier attempts credited, and when the pool still covers it. */
module RetryMoney {
  import opened ContestSettlement
  import opened ContestStatuses
  import opened FirstSettlement
  import opened Options
  import opened Prizes
  import opened PrizeTotals
  import opened SettlementRetry
  import SettlementRuns
  import opened Sorting
  import opened Sums
  import opened WinningAllocation

  /** What is due to entries that no attempt has credited yet. */
  function NewlyDue(credits: map<Id, nat>, allocations: seq<Allocated>, gate: bool): nat
  {
    if allocations == [] then 0
    else
      var last := allocations[|allocations| - 1];
      NewlyDue(credits, allocations[..|allocations| - 1], gate)
      + if last.entry.entryId in credits then 0 else AmountPaid(last, gate)
  }

  predicate CreditsKept(before: map<Id, nat>, after: map<Id, nat>)
  {
    forall id :: id in before ==> id in after && after[id] == before[id]
  }

  function Ids(allocations: seq<Allocated>): set<Id>
  {
    set k | 0 <= k < |allocations| :: allocations[k].entry.entryId
  }

  lemma LastIsNew(allocations: seq<Allocated>)
    requires allocations != [] && DistinctEntries(allocations)
    ensures var n := |allocations| - 1;
            && DistinctEntries(allocations[..n]) && Ids(allocations) == Ids(allocations[..n]) + {allocations[n].entry.entryId}
            && allocations[n].entry.entryId !in Ids(allocations[..n])
  {
    var n := |allocations| - 1;
    assert forall k :: 0 <= k < n ==> allocations[..n][k] == allocations[k];
    assert Ids(allocations) == Ids(allocations[..n]) + {allocations[n].entry.entryId};
  }

  /** One credit adds its amount the first time, and nothing on a replay. */
  lemma PayOneAdds(q: PayState, a: Allocated, gate: bool)
    requires !q.failed
    ensures var r, id := PayOne(q, a, gate).books.credits, a.entry.entryId;
            var due := if id in q.books.credits then 0 else AmountPaid(a, gate);
            && r.Keys <= q.books.credits.Keys + {id} && CreditsKept(q.books.credits, r)
            && MapSum(q.books.credits) <= MapSum(r) <= MapSum(q.books.credits) + due
            && (!PayOne(q, a, gate).failed ==> MapSum(r) == MapSum(q.books.credits) + due)
  {
    hide MarkSettled;
    MapSumSet(q.books.credits, a.entry.entryId, a.winningAmount);
  }

  /** A pay loop that ends adds what is newly due; one that is cut off adds no more. */
  lemma {:induction false} PayAllAdds(p: PayState, allocations: seq<Allocated>, gate: bool)
    requires !p.failed && DistinctEntries(allocations)
    ensures var q, due := PayAll(p, allocations, gate), NewlyDue(p.books.credits, allocations, gate);
      && q.books.credits.Keys <= p.books.credits.Keys + Ids(allocations)
      && CreditsKept(p.books.credits, q.books.credits)
      && MapSum(q.books.credits) <= MapSum(p.books.credits) + due
      && (!q.failed ==> MapSum(q.books.credits) == MapSum(p.books.credits) + due)
    decreases |allocations|
  {
    hide PayOne, AmountPaid;
    if allocations != [] {
      var n := |allocations| - 1;
      LastIsNew(allocations);
      PayAllAdds(p, allocations[..n], gate);
      var q, a := PayAll(p, allocations[..n], gate), allocations[n];
      if q.failed {
        SettlementRuns.FailedStays(q, a, gate);
      } else {
        PayOneAdds(q, a, gate);
        assert a.entry.entryId in q.books.credits <==> a.entry.entryId in p.books.credits;
      }
    }
  }

  /** With the claim, a call credits what its pay loop does. */
  lemma SettleCreditsAsPaid(store: Store, token: Token, points: map<Id, real>, force: bool, budget: nat)
    ensures var after := Settle(store, token, points, force, budget).0.books.credits;
      && (after == store.books.credits || after == Paid(store, points, budget).books.credits)
      && (force && Claimable(store.result) ==> after == Paid(store, points, budget).books.credits)
  {
    hide Paid, ActiveEntries, Finalised, Claimed, Commission;
    if |ActiveEntries(store.books.entries, points)| == 0 {
      NobodyPaid(store, points, budget);
    }
  }

  lemma NobodyPaid(store: Store, points: map<Id, real>, budget: nat)
    requires |ActiveEntries(store.books.entries, points)| == 0
    ensures Paid(store, points, budget).books == store.books
  {
    hide ActiveEntries;
    SortContents(Outranks, ActiveEntries(store.books.entries, points));
    assert Allocations(store, points) == [];
    NothingToPay(PayState(store.books, 0, 0, budget, false), SnapshotHasPayouts(store.snapshot));
  }

  lemma NothingToPay(p: PayState, gate: bool)
    ensures PayAll(p, [], gate) == p
  {
  }

  /**
   * A claimed attempt that settles leaves the wallet with what earlier attempts
   * credited and what is due to the entries they did not reach, so it stays
   * within the pool exactly when these two do. No attempt adds more.
   */
  lemma RetryWithinPoolIff(store: Store, token: Token, points: map<Id, real>, force: bool, budget: nat)
    requires UniqueIds(store.books.entries)
    ensures var (after, outcome) := Settle(store, token, points, force, budget);
            var before, pool := MapSum(store.books.credits), store.snapshot.poolAmount;
            var due := NewlyDue(store.books.credits, Allocations(store, points), SnapshotHasPayouts(store.snapshot));
      && MapSum(after.books.credits) <= before + due
      && (outcome.RunSettled? ==>
            && MapSum(after.books.credits) == before + due
            && (MapSum(after.books.credits) <= pool <==> before + due <= pool))
  {
    hide NewlyDue, PayAll, ActiveEntries, Allocation, Finalised, Claimed, SnapshotHasPayouts, Allocations;
    AllocationsAreDistinct(store, points);
    SettleCreditsAsPaid(store, token, points, force, budget);
    PayAllAdds(PayState(store.books, 0, 0, budget, false), Allocations(store, points), SnapshotHasPayouts(store.snapshot));
  }

  // ---- Attempts that are cut off or refused --------------------------------------------------

  /** Index of the first entry whose earlier credit differs from its allocation, or the number of entries. */
  function FirstRefused(credits: map<Id, nat>, allocations: seq<Allocated>, gate: bool): (i: nat)
    ensures i <= |allocations| && (i < |allocations| ==> Refuses(credits, allocations[i], gate))
    ensures forall k :: 0 <= k < i ==> !Refuses(credits, allocations[k], gate)
  {
    if allocations == [] || Refuses(credits, allocations[0], gate) then 0
    else 1 + FirstRefused(credits, allocations[1..], gate)
  }

  lemma PrefixIsDistinct(allocations: seq<Allocated>, i: nat)
    requires i <= |allocations| && DistinctEntries(allocations)
    ensures DistinctEntries(allocations[..i])
    ensures i < |allocations| ==> allocations[i].entry.entryId !in Ids(allocations[..i])
  {
  }

  /** The loop credits what the part before the first refusal credits. */
  lemma LoopStopsAtRefusal(p: PayState, allocations: seq<Allocated>, gate: bool)
    requires !p.failed && DistinctEntries(allocations)
    ensures var i := FirstRefused(p.books.credits, allocations, gate);
            PayAll(p, allocations, gate).books.credits == PayAll(p, allocations[..i], gate).books.credits
  {
    var i := FirstRefused(p.books.credits, allocations, gate);
    var q := PayAll(p, allocations[..i], gate);
    FailureStops(p, allocations, gate, i);
    if i < |allocations| && !q.failed {
      PrefixIsDistinct(allocations, i);
      PayAllAdds(p, allocations[..i], gate);
      assert Refuses(q.books.credits, allocations[i], gate);
      assert allocations[..i + 1][..i] == allocations[..i];
      FailureStops(p, allocations, gate, i + 1);
    }
  }

  /** Whatever its writes, no claimed attempt exceeds the pool if and only if what is due before the first refusal fits. */
  lemma NoRetryExceedsThePoolIff(store: Store, token: Token, points: map<Id, real>)
    requires UniqueIds(store.books.entries) && Claimable(store.result)
    ensures var credits, allocations, gate := store.books.credits, Allocations(store, points), SnapshotHasPayouts(store.snapshot);
            (forall budget :: MapSum(Settle(store, token, points, true, budget).0.books.credits) <= store.snapshot.poolAmount)
            <==>
            MapSum(credits) + NewlyDue(credits, allocations[..FirstRefused(credits, allocations, gate)], gate)
              <= store.snapshot.poolAmount
  {
    hide PayAll, NewlyDue, Settle;
    var credits, allocations, gate := store.books.credits, Allocations(store, points), SnapshotHasPayouts(store.snapshot);
    var reached := allocations[..FirstRefused(credits, allocations, gate)];
    AllocationsAreDistinct(store, points);
    PrefixIsDistinct(allocations, |reached|);
    forall budget: nat
      ensures var after := Settle(store, token, points, true, budget).0.books.credits;
              && MapSum(after) <= MapSum(credits) + NewlyDue(credits, reached, gate)
              && (budget == Writes(reached, gate) ==> MapSum(after) == MapSum(credits) + NewlyDue(credits, reached, gate))
    {
      var p := PayState(store.books, 0, 0, budget, false);
      LoopStopsAtRefusal(p, allocations, gate);
      PayAllAdds(p, reached, gate);
      PayAllSucceedsIff(p, reached, gate);
      SettleCreditsAsPaid(store, token, points, true, budget);
    }
    var enough := Settle(store, token, points, true, Writes(reached, gate)).0.books.credits;
    assert MapSum(enough) == MapSum(credits) + NewlyDue(credits, reached, gate);
  }

  // ---- A first attempt that marked j entries, and its retry ----------------------------------

  lemma {:induction false} MarkSettledLeaves(entries: seq<Entry>, points: map<Id, real>, id: Id, rank: nat, winning: nat)
    requires UniqueIds(entries) && IsActive(entries, id)
    ensures |ActiveEntries(MarkSettled(entries, id, rank, winning), points)| == |ActiveEntries(entries, points)| - 1
  {
    var rest := entries[1..];
    var i :| 0 <= i < |entries| && entries[i].id == id && entries[i].status == EntryActive;
    if i == 0 {
      MarkSettledElsewhere(rest, id, rank, winning);
      assert MarkSettled(entries, id, rank, winning)[1..] == rest;
    } else {
      assert rest[i - 1] == entries[i];
      MarkSettledLeaves(rest, points, id, rank, winning);
      assert MarkSettled(entries, id, rank, winning)[1..] == MarkSettled(rest, id, rank, winning);
    }
  }

  ghost predicate NoneCredited(books: Books)
  {
    forall id :: id in books.credits ==> !IsActive(books.entries, id)
  }

  lemma MarkedIsInactive(entries: seq<Entry>, id: Id, rank: nat, winning: nat)
    ensures !IsActive(MarkSettled(entries, id, rank, winning), id)
  {
    MarkSettledKeepsIds(entries, id, rank, winning);
  }

  lemma PayOneLeaves(q: PayState, a: Allocated, gate: bool, points: map<Id, real>)
    requires !q.failed && !PayOne(q, a, gate).failed && NoneCredited(q.books)
    requires UniqueIds(q.books.entries) && IsActive(q.books.entries, a.entry.entryId)
    ensures var r := PayOne(q, a, gate).books;
            && |ActiveEntries(r.entries, points)| == |ActiveEntries(q.books.entries, points)| - 1 && NoneCredited(r)
  {
    hide MarkSettled, IsActive, ActiveEntries;
    var r, id, amount := PayOne(q, a, gate).books, a.entry.entryId, AmountPaid(a, gate);
    MarkSettledLeaves(q.books.entries, points, id, a.rank, amount);
    MarkedIsInactive(q.books.entries, id, a.rank, amount);
    forall other | other in r.credits ensures !IsActive(r.entries, other) {
      if other != id {
        MarkSettledActive(q.books.entries, id, a.rank, amount, other);
      }
    }
  }

  /** Each round of a first loop leaves one entry fewer ACTIVE, and none of these credited. */
  lemma {:induction false} LoopLeaves(p: PayState, allocations: seq<Allocated>, m: nat, gate: bool, points: map<Id, real>)
    requires m <= |allocations| && DistinctEntries(allocations)
    requires !p.failed && InStep(p, allocations, 0, gate) && p.books.credits == map[]
    requires !PayAll(p, allocations[..m], gate).failed
    ensures var q := PayAll(p, allocations[..m], gate).books;
            && |ActiveEntries(q.entries, points)| == |ActiveEntries(p.books.entries, points)| - m && NoneCredited(q)
  {
    hide PayOne, NoneCredited, ActiveEntries;
    if m == 0 {
      NothingToPay(p, gate);
      assert NoneCredited(p.books) by {
        EmptyIsUncredited(p.books);
      }
      assert allocations[..0] == [];
    } else {
      assert allocations[..m][..m - 1] == allocations[..m - 1];
      var q := PayAll(p, allocations[..m - 1], gate);
      if q.failed {
        SettlementRuns.FailedStays(q, allocations[m - 1], gate);
      }
      PayLoopInStep(p, allocations, m - 1, gate);
      LoopLeaves(p, allocations, m - 1, gate, points);
      PayOneLeaves(q, allocations[m - 1], gate, points);
    }
  }

  lemma EmptyIsUncredited(books: Books)
    requires books.credits == map[]
    ensures NoneCredited(books)
  {
  }

  lemma {:induction false} AllDue(credits: map<Id, nat>, allocations: seq<Allocated>, gate: bool)
    requires forall k :: 0 <= k < |allocations| ==> allocations[k].entry.entryId !in credits
    ensures NewlyDue(credits, allocations, gate) == TotalPaid(allocations, gate)
  {
    if allocations != [] {
      AllDue(credits, allocations[..|allocations| - 1], gate);
    }
  }

  /** Books whose ACTIVE entries are all uncredited owe them the prizes of the first ranks again. */
  lemma DueAfresh(store: Store, points: map<Id, real>)
    requires UniqueIds(store.books.entries) && NoneCredited(store.books) && ValidSnapshot(store.snapshot)
    ensures NewlyDue(store.books.credits, Allocations(store, points), SnapshotHasPayouts(store.snapshot))
         == PrizePool(1, |ActiveEntries(store.books.entries, points)|, store.snapshot)
  {
    var allocations, gate := Allocations(store, points), SnapshotHasPayouts(store.snapshot);
    AllocationsAreDistinct(store, points);
    AllDue(store.books.credits, allocations, gate);
    GateIsInvisible(ActiveEntries(store.books.entries, points), store.snapshot, |allocations|);
    assert allocations[..|allocations|] == allocations;
    WinningsAreThePrizes(ActiveEntries(store.books.entries, points), store.snapshot);
  }

  lemma NothingRefused(store: Store, points: map<Id, real>)
    requires UniqueIds(store.books.entries) && NoneCredited(store.books)
    ensures forall k :: 0 <= k < |Allocations(store, points)| ==>
              !Refuses(store.books.credits, Allocations(store, points)[k], SnapshotHasPayouts(store.snapshot))
  {
    AllocationsAreDistinct(store, points);
  }

  /** The loop of a first attempt whose writes end after `j` entries. */
  lemma PaidUpTo(store: Store, points: map<Id, real>, j: nat)
    requires Untouched(store.books) && ValidSnapshot(store.snapshot)
    requires j < |Allocations(store, points)|
    requires j > 0 ==> Allocations(store, points)[j - 1].entry.points != Allocations(store, points)[j].entry.points
    ensures var allocations, gate := Allocations(store, points), SnapshotHasPayouts(store.snapshot);
            var p := Paid(store, points, Writes(allocations[..j], gate));
      && p.failed && UniqueIds(p.books.entries) && NoneCredited(p.books)
      && MapSum(p.books.credits) == PrizePool(1, j, store.snapshot)
      && |ActiveEntries(p.books.entries, points)| == |ActiveEntries(store.books.entries, points)| - j
  {
    var active := ActiveEntries(store.books.entries, points);
    var allocations, gate := Allocations(store, points), SnapshotHasPayouts(store.snapshot);
    var start := PayState(store.books, 0, 0, Writes(allocations[..j], gate), false);
    hide PayAll, Writes, ActiveEntries, SnapshotHasPayouts, Allocation, NoneCredited, PrizePool, TotalPaid;
    AllocationsAreDistinct(store, points);
    NothingSettledYet(store.books.entries);
    PrefixIsDistinct(allocations, j);
    PayAllSucceedsIff(start, allocations[..j], gate);
    StopsWithoutBudget(start, allocations, j, gate);
    PayLoopInStep(start, allocations, j, gate);
    LoopLeaves(start, allocations, j, gate, points);
    FirstPrizes(active, store.snapshot, j);
  }

  /** Down to the end of a tie the entries are allocated the prizes of their ranks. */
  lemma FirstPrizes(active: seq<RankedEntry>, snapshot: PrizeSnapshot, j: nat)
    requires ValidSnapshot(snapshot) && j < |Allocation(active, snapshot)|
    requires j > 0 ==> Allocation(active, snapshot)[j - 1].entry.points != Allocation(active, snapshot)[j].entry.points
    ensures TotalPaid(Allocation(active, snapshot)[..j], SnapshotHasPayouts(snapshot)) == PrizePool(1, j, snapshot)
  {
    GateIsInvisible(active, snapshot, j);
    WinningsSumUp(active, snapshot, j);
    ClustersTelescope(Ranking(active), j, snapshot);
  }

  lemma StopsWithoutBudget(p: PayState, allocations: seq<Allocated>, j: nat, gate: bool)
    requires j < |allocations|
    requires !PayAll(p, allocations[..j], gate).failed && PayAll(p, allocations[..j], gate).budget == 0
    ensures PayAll(p, allocations, gate) == PayAll(p, allocations[..j], gate).(failed := true)
  {
    assert allocations[..j + 1][..j] == allocations[..j];
    FailureStops(p, allocations, gate, j + 1);
  }

  /**
   * A first attempt fails after it paid and marked j of n entries, no tie across
   * the cut. A retry that settles has credited the prizes of ranks 1 to j and of
   * ranks 1 to n - j, so it stays within the pool exactly when both fit into it.
   */
  lemma SecondAttemptWithinPoolIff(store: Store, points: map<Id, real>, j: nat, first: Token, second: Token, budget: nat)
    requires Untouched(store.books) && ValidSnapshot(store.snapshot) && Claimable(store.result)
    requires j < |Allocations(store, points)|
    requires j > 0 ==> Allocations(store, points)[j - 1].entry.points != Allocations(store, points)[j].entry.points
    ensures var writes := Writes(Allocations(store, points)[..j], SnapshotHasPayouts(store.snapshot));
            var (failed, cut) := Settle(store, first, points, true, writes);
            var (after, outcome) := Settle(failed, second, points, true, budget);
            var n := |ActiveEntries(store.books.entries, points)|;
            var credited := MapSum(after.books.credits);
      && cut.RunFailed? && MapSum(failed.books.credits) == PrizePool(1, j, store.snapshot)
      && (outcome.RunSettled? <==>
            Writes(Allocations(failed, points), SnapshotHasPayouts(store.snapshot)) + 2 <= budget)
      && (outcome.RunSettled? ==>
            && credited == PrizePool(1, j, store.snapshot) + PrizePool(1, n - j, store.snapshot)
            && (credited <= store.snapshot.poolAmount
                <==> PrizePool(1, j, store.snapshot) + PrizePool(1, n - j, store.snapshot) <= store.snapshot.poolAmount))
  {
    hide NewlyDue, PayAll, ActiveEntries, Allocation, SnapshotHasPayouts, Writes, NoneCredited, PrizePool, UniqueIds;
    var writes := Writes(Allocations(store, points)[..j], SnapshotHasPayouts(store.snapshot));
    AllocationRanks(ActiveEntries(store.books.entries, points), store.snapshot);
    PaidUpTo(store, points, j);
    var failed := Settle(store, first, points, true, writes).0;
    DueAfresh(failed, points);
    NothingRefused(failed, points);
    RetrySucceedsIff(failed, second, points, budget);
    RetryWithinPoolIff(failed, second, points, true, budget);
  }
}
