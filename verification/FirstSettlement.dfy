/** The money of a first settlement attempt, through every iteration of the pay loop. */
module FirstSettlement {
  import opened ContestSettlement
  import opened Options
  import opened Prizes
  import opened PrizeTotals
  import opened Sorting
  import opened Sums
  import opened WinningAllocation

  /** Nothing has been credited or settled for the contest yet. */
  ghost predicate Untouched(books: Books)
  {
    && UniqueIds(books.entries)
    && (forall e :: e in books.entries ==> e.status != EntrySettled)
    && books.credits == map[]
  }

  ghost predicate IsActive(entries: seq<Entry>, id: Id)
  {
    exists i :: 0 <= i < |entries| && entries[i].id == id && entries[i].status == EntryActive
  }

  ghost function EntryId(e: RankedEntry): Id
  {
    e.entryId
  }

  ghost predicate DistinctActive(entries: seq<Entry>, ranked: seq<RankedEntry>)
  {
    DistinctKeys(EntryId, ranked) && forall e :: e in ranked ==> IsActive(entries, e.entryId)
  }

  lemma {:induction false} ActiveEntriesAreActive(entries: seq<Entry>, points: map<Id, real>)
    requires UniqueIds(entries)
    ensures DistinctActive(entries, ActiveEntries(entries, points))
  {
    if entries != [] {
      var rest := entries[1..];
      ActiveEntriesAreActive(rest, points);
      forall e | e in ActiveEntries(rest, points)
        ensures IsActive(entries, e.entryId) && e.entryId != entries[0].id
      {
        assert IsActive(rest, e.entryId);
        var i :| 0 <= i < |rest| && rest[i].id == e.entryId && rest[i].status == EntryActive;
        assert entries[i + 1] == rest[i];
      }
      if entries[0].status == EntryActive {
        assert IsActive(entries, entries[0].id);
      }
    }
  }

  lemma {:induction false} MarkSettledKeepsIds(entries: seq<Entry>, id: Id, rank: nat, winning: nat)
    ensures var marked := MarkSettled(entries, id, rank, winning);
      && |marked| == |entries|
      && (forall i :: 0 <= i < |entries| ==>
            marked[i] == if entries[i].id == id
                         then entries[i].(status := EntrySettled, rank := Some(rank), winningAmount := winning)
                         else entries[i])
  {
    if entries != [] {
      MarkSettledKeepsIds(entries[1..], id, rank, winning);
    }
  }

  /** Marking an entry that is still ACTIVE adds its winning to the settled total. */
  lemma {:induction false} MarkSettledAdds(entries: seq<Entry>, id: Id, rank: nat, winning: nat)
    requires UniqueIds(entries) && IsActive(entries, id)
    ensures SettledWinnings(MarkSettled(entries, id, rank, winning)) == SettledWinnings(entries) + winning
  {
    var rest := entries[1..];
    var i :| 0 <= i < |entries| && entries[i].id == id && entries[i].status == EntryActive;
    if i == 0 {
      MarkSettledElsewhere(rest, id, rank, winning);
    } else {
      assert rest[i - 1] == entries[i];
      assert IsActive(rest, id);
      MarkSettledAdds(rest, id, rank, winning);
    }
  }

  lemma {:induction false} MarkSettledElsewhere(entries: seq<Entry>, id: Id, rank: nat, winning: nat)
    requires forall i :: 0 <= i < |entries| ==> entries[i].id != id
    ensures MarkSettled(entries, id, rank, winning) == entries
  {
    if entries != [] {
      MarkSettledElsewhere(entries[1..], id, rank, winning);
    }
  }

  lemma MarkSettledActive(entries: seq<Entry>, id: Id, rank: nat, winning: nat, other: Id)
    requires other != id
    ensures IsActive(MarkSettled(entries, id, rank, winning), other) <==> IsActive(entries, other)
  {
    MarkSettledKeepsIds(entries, id, rank, winning);
  }

  function TotalPaid(allocations: seq<Allocated>, gate: bool): nat
  {
    if allocations == [] then 0
    else TotalPaid(allocations[..|allocations| - 1], gate) + AmountPaid(allocations[|allocations| - 1], gate)
  }

  /** What holds of the books after the first `m` allocations of a first attempt. */
  ghost predicate InStep(p: PayState, allocations: seq<Allocated>, m: nat, gate: bool)
    requires m <= |allocations|
  {
    && UniqueIds(p.books.entries)
    && p.paid == TotalPaid(allocations[..m], gate)
    && MapSum(p.books.credits) == SettledWinnings(p.books.entries) == p.paid
    && (forall k :: m <= k < |allocations| ==>
          && allocations[k].entry.entryId !in p.books.credits
          && IsActive(p.books.entries, allocations[k].entry.entryId))
  }

  ghost predicate DistinctEntries(allocations: seq<Allocated>)
  {
    forall i, j :: 0 <= i < j < |allocations| ==> allocations[i].entry.entryId != allocations[j].entry.entryId
  }

  /** The first `j` allocations are credited and marked, and of the next one at most the credit is made. */
  ghost predicate StoppedAt(p: PayState, allocations: seq<Allocated>, j: nat, gate: bool)
    requires j < |allocations|
  {
    && SettledWinnings(p.books.entries) == TotalPaid(allocations[..j], gate)
    && (MapSum(p.books.credits) == TotalPaid(allocations[..j], gate)
        || MapSum(p.books.credits) == TotalPaid(allocations[..j], gate) + AmountPaid(allocations[j], gate))
  }

  /** Stopping between a credit and its mark leaves the credits ahead by that one payment. */
  ghost predicate OneAhead(p: PayState, allocations: seq<Allocated>, m: nat, gate: bool)
    requires m <= |allocations|
  {
    exists j :: 0 <= j < m && StoppedAt(p, allocations, j, gate)
  }

  lemma PayOneInStep(p: PayState, allocations: seq<Allocated>, m: nat, gate: bool)
    requires m < |allocations| && DistinctEntries(allocations)
    requires !p.failed && InStep(p, allocations, m, gate)
    ensures var q := PayOne(p, allocations[m], gate);
            if q.failed then OneAhead(q, allocations, m + 1, gate) else InStep(q, allocations, m + 1, gate)
  {
    hide MarkSettled, SettledWinnings;
    var a := allocations[m];
    var id := a.entry.entryId;
    assert allocations[..m + 1][..m] == allocations[..m];
    MapSumSet(p.books.credits, id, a.winningAmount);
    var amount := AmountPaid(a, gate);
    MarkSettledAdds(p.books.entries, id, a.rank, amount);
    MarkSettledKeepsIds(p.books.entries, id, a.rank, amount);
    forall k | m < k < |allocations|
      ensures IsActive(MarkSettled(p.books.entries, id, a.rank, amount), allocations[k].entry.entryId)
    {
      MarkSettledActive(p.books.entries, id, a.rank, amount, allocations[k].entry.entryId);
    }
    assert PayOne(p, a, gate).failed ==> StoppedAt(PayOne(p, a, gate), allocations, m, gate);
  }

  lemma {:induction false} TotalPaidMonotone(allocations: seq<Allocated>, m: nat, n: nat, gate: bool)
    requires m <= n <= |allocations|
    ensures TotalPaid(allocations[..m], gate) <= TotalPaid(allocations[..n], gate)
  {
    if m < n {
      TotalPaidMonotone(allocations, m, n - 1, gate);
      assert allocations[..n][..n - 1] == allocations[..n - 1];
    }
  }

  lemma {:induction false} PayLoopInStep(p: PayState, allocations: seq<Allocated>, m: nat, gate: bool)
    requires m <= |allocations| && DistinctEntries(allocations)
    requires !p.failed && InStep(p, allocations, 0, gate)
    ensures var q := PayAll(p, allocations[..m], gate);
            if q.failed then OneAhead(q, allocations, m, gate) else InStep(q, allocations, m, gate)
  {
    if m == 0 {
      assert allocations[..0] == [];
    } else {
      assert allocations[..m][..m - 1] == allocations[..m - 1];
      PayLoopInStep(p, allocations, m - 1, gate);
      var q := PayAll(p, allocations[..m - 1], gate);
      if q.failed {
        var j :| 0 <= j < m - 1 && StoppedAt(q, allocations, j, gate);
        assert StoppedAt(PayAll(p, allocations[..m], gate), allocations, j, gate);
      } else {
        PayOneInStep(q, allocations, m - 1, gate);
      }
    }
  }

  lemma AllocationsAreDistinct(store: Store, points: map<Id, real>)
    requires UniqueIds(store.books.entries)
    ensures DistinctEntries(Allocations(store, points))
    ensures forall k :: 0 <= k < |Allocations(store, points)| ==>
              IsActive(store.books.entries, Allocations(store, points)[k].entry.entryId)
  {
    var active := ActiveEntries(store.books.entries, points);
    ActiveEntriesAreActive(store.books.entries, points);
    AllocationRanks(active, store.snapshot);
    DistinctKeysPermute(EntryId, active, Ranking(active));
    forall k | 0 <= k < |Allocations(store, points)|
      ensures IsActive(store.books.entries, Allocations(store, points)[k].entry.entryId)
    {
      SameContents(active, Ranking(active), Ranking(active)[k]);
    }
  }

  lemma {:induction false} NothingSettledYet(entries: seq<Entry>)
    requires forall e :: e in entries ==> e.status != EntrySettled
    ensures SettledWinnings(entries) == 0
  {
    if entries != [] {
      assert entries[0] in entries;
      forall e | e in entries[1..] ensures e in entries {
      }
      NothingSettledYet(entries[1..]);
    }
  }

  /**
   * After every iteration of a first attempt's pay loop the wallet credits equal
   * the winnings recorded on SETTLED entries; if a write throws, the marked
   * entries are the first ones and the credits are ahead by nothing or by the
   * one payment in hand.
   */
  lemma CreditsMatchEntries(store: Store, points: map<Id, real>, budget: nat, m: nat)
    requires Untouched(store.books) && m <= |Allocations(store, points)|
    ensures var allocations, gate := Allocations(store, points), SnapshotHasPayouts(store.snapshot);
            var p := PayAll(PayState(store.books, 0, 0, budget, false), allocations[..m], gate);
            if p.failed then OneAhead(p, allocations, m, gate) else InStep(p, allocations, m, gate)
  {
    AllocationsAreDistinct(store, points);
    NothingSettledYet(store.books.entries);
    var start := PayState(store.books, 0, 0, budget, false);
    PayLoopInStep(start, Allocations(store, points), m, SnapshotHasPayouts(store.snapshot));
  }

  /** With an accepted ladder the gate is invisible: everything allocated is paid. */
  lemma {:induction false} GateIsInvisible(entries: seq<RankedEntry>, snapshot: PrizeSnapshot, m: nat)
    requires ValidSnapshot(snapshot) && m <= |Allocation(entries, snapshot)|
    ensures TotalPaid(Allocation(entries, snapshot)[..m], SnapshotHasPayouts(snapshot))
         == Sum(Winnings(Allocation(entries, snapshot)[..m]))
  {
    hide Allocation, SnapshotHasPayouts, ValidSnapshot;
    var out := Allocation(entries, snapshot);
    if m > 0 {
      GateIsInvisible(entries, snapshot, m - 1);
      assert out[..m][..m - 1] == out[..m - 1];
      SumAppend(Winnings(out[..m - 1]), out[m - 1].winningAmount);
      assert Winnings(out[..m]) == Winnings(out[..m - 1]) + [out[m - 1].winningAmount];
      if out[m - 1].winningAmount > 0 {
        GateLetsWinningsThrough(entries, snapshot, m - 1);
      }
    }
  }

  lemma OneAheadWithinAll(p: PayState, allocations: seq<Allocated>, gate: bool)
    requires OneAhead(p, allocations, |allocations|, gate)
    ensures SettledWinnings(p.books.entries) <= MapSum(p.books.credits) <= TotalPaid(allocations, gate)
  {
    var j :| 0 <= j < |allocations| && StoppedAt(p, allocations, j, gate);
    assert allocations[..j + 1][..j] == allocations[..j] && allocations[..|allocations|] == allocations;
    TotalPaidMonotone(allocations, j + 1, |allocations|, gate);
  }

  /** The pay loop of a first attempt stays within the pool and, if it ends, pays the ranks played. */
  lemma FirstLoopBalances(store: Store, points: map<Id, real>, budget: nat)
    requires Untouched(store.books) && ValidSnapshot(store.snapshot)
    ensures var p := Paid(store, points, budget);
            var credited := MapSum(p.books.credits);
      && SettledWinnings(p.books.entries) <= credited <= store.snapshot.poolAmount
      && (!p.failed ==>
            credited == SettledWinnings(p.books.entries) == p.paid
            == PrizePool(1, |ActiveEntries(store.books.entries, points)|, store.snapshot))
  {
    hide Allocation, ActiveEntries, SnapshotHasPayouts, ValidSnapshot, PrizePool, PayAll, OneAhead;
    var active := ActiveEntries(store.books.entries, points);
    var allocations := Allocations(store, points);
    assert allocations[..|allocations|] == allocations;
    CreditsMatchEntries(store, points, budget, |allocations|);
    GateIsInvisible(active, store.snapshot, |allocations|);
    var gate, p := SnapshotHasPayouts(store.snapshot), Paid(store, points, budget);
    if p.failed {
      OneAheadWithinAll(p, allocations, gate);
    }
    WinningsAreThePrizes(active, store.snapshot);
    PayoutWithinPool(active, store.snapshot);
  }

  /**
   * A first attempt that succeeds: credits, SETTLED entries and the result row
   * agree, the total is the prizes of the ranks played, and with the commission
   * it is the pool. One that fails has credited no more than the pool.
   */
  lemma FirstSettlementBalances(store: Store, token: Token, points: map<Id, real>, force: bool, budget: nat)
    requires Untouched(store.books) && ValidSnapshot(store.snapshot)
    ensures var (after, outcome) := Settle(store, token, points, force, budget);
            var credited := MapSum(after.books.credits);
      && SettledWinnings(after.books.entries) <= credited <= store.snapshot.poolAmount
      && (outcome.RunSettled? ==>
            && after.result.Some? && after.result.value.status == Settled
            && credited == SettledWinnings(after.books.entries) == outcome.totalPaidOut
            && credited == after.result.value.totalPaidOut == PrizePool(1, outcome.totalEntries, store.snapshot)
            && after.result.value.totalPaidOut + after.result.value.commissionAmount == store.snapshot.poolAmount)
  {
    FirstLoopBalances(store, points, budget);
    NothingSettledYet(store.books.entries);
  }

  // ---- A first attempt settles every entry, and only with what it was allocated -----

  /** Success leaves each allocated entry SETTLED with its rank and amount. */
  lemma {:induction false} PayAllSettles(p: PayState, allocations: seq<Allocated>, gate: bool, k: nat, i: nat)
    requires k < |allocations| && DistinctEntries(allocations)
    requires i < |p.books.entries| && p.books.entries[i].id == allocations[k].entry.entryId
    requires !PayAll(p, allocations, gate).failed
    ensures var q := PayAll(p, allocations, gate).books;
      && |q.entries| == |p.books.entries|
      && q.entries[i].id == p.books.entries[i].id
      && q.entries[i].status == EntrySettled
      && q.entries[i].rank == Some(allocations[k].rank)
      && q.entries[i].winningAmount == AmountPaid(allocations[k], gate)
    decreases |allocations|
  {
    hide MarkSettled, AmountPaid;
    var n := |allocations| - 1;
    var before := allocations[..n];
    var q := PayAll(p, before, gate);
    var last := allocations[n];
    PayAllKeepsIds(p, before, gate);
    PaidIsMarked(q, last, gate);
    hide PayOne;
    MarkSettledKeepsIds(q.books.entries, last.entry.entryId, last.rank, AmountPaid(last, gate));
    if k < n {
      assert before[k] == allocations[k];
      PayAllSettles(p, before, gate, k, i);
    }
  }

  lemma PaidIsMarked(q: PayState, a: Allocated, gate: bool)
    requires !PayOne(q, a, gate).failed
    ensures !q.failed
    ensures PayOne(q, a, gate).books.entries == MarkSettled(q.books.entries, a.entry.entryId, a.rank, AmountPaid(a, gate))
  {
  }

  lemma {:induction false} PayAllKeepsIds(p: PayState, allocations: seq<Allocated>, gate: bool)
    ensures var q := PayAll(p, allocations, gate).books.entries;
      && |q| == |p.books.entries|
      && (forall i :: 0 <= i < |q| ==> q[i].id == p.books.entries[i].id)
    decreases |allocations|
  {
    if allocations != [] {
      var before, last := allocations[..|allocations| - 1], allocations[|allocations| - 1];
      PayAllKeepsIds(p, before, gate);
      var q := PayAll(p, before, gate);
      MarkSettledKeepsIds(q.books.entries, last.entry.entryId, last.rank, AmountPaid(last, gate));
    }
  }
}
