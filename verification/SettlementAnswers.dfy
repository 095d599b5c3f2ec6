/** What a settlement call answers, and the whole contest and result row it leaves. */
module SettlementAnswers {
  import opened ContestSettlement
  import opened ContestStatuses
  import opened FirstSettlement
  import opened Options
  import opened Prizes
  import opened PrizeTotals
  import opened SettlementRetry
  import opened Sums
  import opened WinningAllocation

  // ---- Which entries take part ---------------------------------------------------------------

  /** The ACTIVE entries, and no others, are ranked, each with its team's points or 0. */
  lemma {:induction false} RankedAreTheActive(entries: seq<Entry>, points: map<Id, real>, r: RankedEntry)
    ensures r in ActiveEntries(entries, points) <==>
            exists i :: 0 <= i < |entries| && entries[i].status == EntryActive && TakesPart(entries[i], points, r)
  {
    if entries != [] {
      RankedAreTheActive(entries[1..], points, r);
      assert forall i :: 0 < i < |entries| ==> entries[1..][i - 1] == entries[i];
    }
  }

  predicate TakesPart(e: Entry, points: map<Id, real>, r: RankedEntry)
  {
    && r.entryId == e.id && r.userId == e.userId && r.teamId == e.teamId && r.joinedAt == e.joinedAt
    && (e.teamId in points ==> r.points == points[e.teamId]) && (e.teamId !in points ==> r.points == 0.0)
  }

  // ---- The answer ----------------------------------------------------------------------------

  /** The writes suffice for the pay loop and `more` after it, and no entry was credited another amount before. */
  ghost predicate Pays(store: Store, points: map<Id, real>, budget: nat, more: nat)
  {
    var allocations, gate := Allocations(store, points), SnapshotHasPayouts(store.snapshot);
    && Writes(allocations, gate) + more <= budget
    && forall k :: 0 <= k < |allocations| && gate && allocations[k].winningAmount > 0
                   && allocations[k].entry.entryId in store.books.credits ==>
                     store.books.credits[allocations[k].entry.entryId] == allocations[k].winningAmount
  }

  ghost predicate InStatus(store: Store, status: SettlementStatus)
  {
    store.result.Some? && store.result.value.status == status
  }

  /** Every answer of a call has its exact condition. */
  lemma AnswerIs(store: Store, token: Token, points: map<Id, real>, force: bool, budget: nat)
    requires UniqueIds(store.books.entries)
    ensures var answer := Settle(store, token, points, force, budget).1;
            var closed := !force && store.status != Completed && store.status != Live;
            var taken := InStatus(store, Settled) || InStatus(store, InProgress) || InStatus(store, Skipped);
            var entered := ActiveEntries(store.books.entries, points) != [];
      && (answer.NotSettleable? <==> closed)
      && (answer.AlreadySettled? <==> !closed && InStatus(store, Settled))
      && (answer.Busy? <==> !closed && (InStatus(store, InProgress) || InStatus(store, Skipped)))
      && (answer.RunSkipped? <==> !closed && !taken && !entered && budget > 0)
      && (answer.RunSettled? <==> !closed && !taken && entered && Pays(store, points, budget, 2))
      && (answer.RunFailed? <==>
            !closed && !taken && if entered then !Pays(store, points, budget, 2) else budget == 0)
  {
    hide PayAll, ActiveEntries, Allocation, SnapshotHasPayouts, Writes, Finalised, Claimed, Commission;
    AllocationsAreDistinct(store, points);
    PayAllSucceedsIff(PayState(store.books, 0, 0, budget, false), Allocations(store, points),
                      SnapshotHasPayouts(store.snapshot));
  }

  /**
   * The contest becomes COMPLETED exactly when a call claims it, pays every
   * entry and saves it; snapshot and, in every other case, status stay.
   */
  lemma CompletedIff(store: Store, token: Token, points: map<Id, real>, force: bool, budget: nat)
    requires UniqueIds(store.books.entries)
    ensures var (after, answer) := Settle(store, token, points, force, budget);
      && after.snapshot == store.snapshot
      && after.status == (if (answer.RunSettled? || answer.RunFailed?) && Pays(store, points, budget, 1)
                             && ActiveEntries(store.books.entries, points) != []
                          then Completed else store.status)
      && (answer.RunSettled? ==> after.status == Completed)
      && (!answer.RunSettled? && !answer.RunFailed? ==> after.books == store.books && after.status == store.status)
  {
    hide PayAll, ActiveEntries, Allocation, SnapshotHasPayouts, Writes, Finalised, Claimed, Commission;
    AllocationsAreDistinct(store, points);
    PayAllSucceedsIff(PayState(store.books, 0, 0, budget, false), Allocations(store, points),
                      SnapshotHasPayouts(store.snapshot));
  }

  // ---- The result row ------------------------------------------------------------------------

  /** How many allocations are paid. */
  function Winners(allocations: seq<Allocated>): nat
  {
    if allocations == [] then 0
    else Winners(allocations[..|allocations| - 1]) + if allocations[|allocations| - 1].winningAmount > 0 then 1 else 0
  }

  lemma {:induction false} PaidAndWinners(p: PayState, allocations: seq<Allocated>)
    requires !PayAll(p, allocations, true).failed
    ensures PayAll(p, allocations, true).winners == p.winners + Winners(allocations)
    ensures PayAll(p, allocations, true).paid == p.paid + Sum(Winnings(allocations))
    decreases |allocations|
  {
    if allocations != [] {
      var n := |allocations| - 1;
      PaidAndWinners(p, allocations[..n]);
      assert Winnings(allocations) == Winnings(allocations[..n]) + [allocations[n].winningAmount];
      SumAppend(Winnings(allocations[..n]), allocations[n].winningAmount);
    }
  }

  /** Behind a closed gate nobody is paid, whatever the ladder says. */
  lemma {:induction false} ClosedGatePaysNobody(p: PayState, allocations: seq<Allocated>)
    ensures var q := PayAll(p, allocations, false);
            q.books.credits == p.books.credits && q.paid == p.paid && q.winners == p.winners
    decreases |allocations|
  {
    if allocations != [] {
      ClosedGatePaysNobody(p, allocations[..|allocations| - 1]);
    }
  }

  /** A contest without a pool pays nobody. */
  lemma NoPoolNoCredits(store: Store, token: Token, points: map<Id, real>, force: bool, budget: nat)
    requires store.snapshot.poolAmount == 0
    ensures Settle(store, token, points, force, budget).0.books.credits == store.books.credits
  {
    hide Allocation, ActiveEntries;
    ClosedGatePaysNobody(PayState(store.books, 0, 0, budget, false), Allocations(store, points));
  }

  /**
   * The row after a call that obtained it: a success stores the winners, their
   * winnings and what these leave of the pool, any other end stores zeros.
   */
  lemma RowIs(store: Store, token: Token, points: map<Id, real>, force: bool, budget: nat)
    ensures var (after, answer) := Settle(store, token, points, force, budget);
            var n, pool, gate := |ActiveEntries(store.books.entries, points)|, store.snapshot.poolAmount, SnapshotHasPayouts(store.snapshot);
            var won := if gate then Sum(Winnings(Allocations(store, points))) else 0;
            var winners := if gate then Winners(Allocations(store, points)) else 0;
      && (answer.RunSettled? ==>
            && answer.totalEntries == n && answer.totalWinners == winners && answer.totalPaidOut == won
            && after.result.Some? && after.result.value.status == Settled && after.result.value.lockToken == Some(token)
            && after.result.value.poolAmount == pool && after.result.value.totalEntries == n
            && after.result.value.totalPaidOut == won && after.result.value.totalWinners == winners
            && after.result.value.commissionAmount == if won <= pool then pool - won else 0)
      && (answer.RunFailed? ==> after.result == Some(ResultRow(Failed, Some(token), pool, n, 0, 0, 0)))
      && (answer.RunSkipped? ==> after.result == Some(ResultRow(Skipped, Some(token), pool, 0, 0, 0, 0)))
      && (answer.NotSettleable? || answer.AlreadySettled? || answer.Busy? ==> after == store)
  {
    hide PayAll, ActiveEntries, Allocation, SnapshotHasPayouts;
    var start := PayState(store.books, 0, 0, budget, false);
    if !SnapshotHasPayouts(store.snapshot) {
      ClosedGatePaysNobody(start, Allocations(store, points));
    } else if !Paid(store, points, budget).failed {
      PaidAndWinners(start, Allocations(store, points));
    }
  }
}
