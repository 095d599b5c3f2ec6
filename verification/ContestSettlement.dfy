/** Settling one contest: claim the result row, pay every entry, finalise. */
module ContestSettlement {
  import opened ContestStatuses
  import opened Options
  import opened Prizes
  import opened PrizeTotals
  import opened Sorting
  import opened Sums
  import opened WinningAllocation

  type Token = nat

  datatype EntryStatus = EntryActive | EntryRefunded | EntrySettled | EntryCancelled

  datatype Entry = Entry(id: Id, userId: Id, teamId: Id, joinedAt: int, status: EntryStatus,
                         rank: Option<nat>, winningAmount: nat)

  /** `credits` are the wallet transactions stored under the keys `settle:<entryId>`. */
  datatype Books = Books(entries: seq<Entry>, credits: map<Id, nat>)

  datatype SettlementStatus = NotStarted | InProgress | Settled | Failed | Skipped

  datatype ResultRow = ResultRow(status: SettlementStatus, lockToken: Option<Token>, poolAmount: nat,
                                 totalEntries: nat, totalPaidOut: nat, commissionAmount: nat, totalWinners: nat)

  // ---- Entries ------------------------------------------------------------------

  ghost predicate UniqueIds(entries: seq<Entry>)
  {
    forall i, j :: 0 <= i < j < |entries| ==> entries[i].id != entries[j].id
  }

  /** The ACTIVE entries in stored order, with the points of their teams. */
  function ActiveEntries(entries: seq<Entry>, points: map<Id, real>): seq<RankedEntry>
  {
    if entries == [] then []
    else
      var e := entries[0];
      (if e.status == EntryActive
       then [RankedEntry(e.id, e.userId, e.teamId, if e.teamId in points then points[e.teamId] else 0.0, e.joinedAt)]
       else [])
      + ActiveEntries(entries[1..], points)
  }

  function MarkSettled(entries: seq<Entry>, id: Id, rank: nat, winning: nat): seq<Entry>
  {
    if entries == [] then []
    else
      [if entries[0].id == id
       then entries[0].(status := EntrySettled, rank := Some(rank), winningAmount := winning)
       else entries[0]]
      + MarkSettled(entries[1..], id, rank, winning)
  }

  function SettledWinnings(entries: seq<Entry>): nat
  {
    if entries == [] then 0
    else (if entries[0].status == EntrySettled then entries[0].winningAmount else 0) + SettledWinnings(entries[1..])
  }

  // ---- Wallet credits --------------------------------------------------------------

  /** A key used before is replayed when the amount agrees, and refused otherwise. */
  predicate CreditRefused(credits: map<Id, nat>, id: Id, amount: nat)
  {
    id in credits && credits[id] != amount
  }

  function Credited(credits: map<Id, nat>, id: Id, amount: nat): map<Id, nat>
  {
    if id in credits then credits else credits[id := amount]
  }

  // ---- The result row --------------------------------------------------------------

  predicate Claimable(result: Option<ResultRow>)
  {
    result.None? || result.value.status == NotStarted || result.value.status == Failed
  }

  predicate HoldsLock(result: Option<ResultRow>, token: Token)
  {
    result.Some? && result.value.lockToken == Some(token)
  }

  function Claimed(result: Option<ResultRow>, token: Token, pool: nat, total: nat): ResultRow
  {
    var row := if result.Some? then result.value else ResultRow(NotStarted, None, 0, 0, 0, 0, 0);
    row.(status := InProgress, lockToken := Some(token), poolAmount := pool, totalEntries := total)
  }

  /** Only the holder of the lock token changes the row. */
  function Finalised(result: Option<ResultRow>, token: Token, status: SettlementStatus,
                     paid: nat, commission: nat, winners: nat): Option<ResultRow>
  {
    if HoldsLock(result, token)
    then Some(result.value.(status := status, totalPaidOut := paid, commissionAmount := commission, totalWinners := winners))
    else result
  }

  function Commission(pool: nat, paid: nat): nat
  {
    if pool > paid then pool - paid else 0
  }

  // ---- The pay loop ------------------------------------------------------------------

  /**
   * `budget` is how many further store writes succeed before one throws. After
   * the loop the leaderboard rebuild with the contest save counts as one write,
   * the final write of the result row as another.
   */
  datatype PayState = PayState(books: Books, paid: nat, winners: nat, budget: nat, failed: bool)

  predicate ShouldPay(a: Allocated, gate: bool)
  {
    gate && a.winningAmount > 0
  }

  function AmountPaid(a: Allocated, gate: bool): nat
  {
    if ShouldPay(a, gate) then a.winningAmount else 0
  }

  function CreditOne(p: PayState, a: Allocated, gate: bool): PayState
  {
    if !ShouldPay(a, gate) then p
    else if p.budget == 0 || CreditRefused(p.books.credits, a.entry.entryId, a.winningAmount) then p.(failed := true)
    else p.(books := p.books.(credits := Credited(p.books.credits, a.entry.entryId, a.winningAmount)),
            paid := p.paid + a.winningAmount, winners := p.winners + 1, budget := p.budget - 1)
  }

  function MarkOne(p: PayState, a: Allocated, gate: bool): PayState
  {
    if p.budget == 0 then p.(failed := true)
    else p.(books := p.books.(entries := MarkSettled(p.books.entries, a.entry.entryId, a.rank, AmountPaid(a, gate))),
            budget := p.budget - 1)
  }

  function PayOne(p: PayState, a: Allocated, gate: bool): PayState
  {
    if p.failed then p
    else
      var credited := CreditOne(p, a, gate);
      if credited.failed then credited else MarkOne(credited, a, gate)
  }

  /** The loop as a left fold over the allocations. */
  function PayAll(p: PayState, allocations: seq<Allocated>, gate: bool): PayState
    decreases |allocations|
  {
    if allocations == [] then p
    else PayOne(PayAll(p, allocations[..|allocations| - 1], gate), allocations[|allocations| - 1], gate)
  }

  datatype SettleOutcome =
    | NotSettleable
    | AlreadySettled
    | Busy
    | RunSkipped
    | RunSettled(totalEntries: nat, totalWinners: nat, totalPaidOut: nat)
    | RunFailed

  /** Everything settlement reads and writes about one contest. */
  datatype Store = Store(status: ContestStatus, snapshot: PrizeSnapshot, books: Books, result: Option<ResultRow>)

  function Allocations(store: Store, points: map<Id, real>): seq<Allocated>
  {
    Allocation(ActiveEntries(store.books.entries, points), store.snapshot)
  }

  function Paid(store: Store, points: map<Id, real>, budget: nat): PayState
  {
    PayAll(PayState(store.books, 0, 0, budget, false), Allocations(store, points), SnapshotHasPayouts(store.snapshot))
  }

  /** One call of the settlement entry point, start to end, as seen by the store. */
  function Settle(store: Store, token: Token, points: map<Id, real>, force: bool, budget: nat): (Store, SettleOutcome)
  {
    var total := |ActiveEntries(store.books.entries, points)|;
    if !force && store.status != Completed && store.status != Live then (store, NotSettleable)
    else if store.result.Some? && store.result.value.status == Settled then (store, AlreadySettled)
    else if !Claimable(store.result) then (store, Busy)
    else
      var row := Some(Claimed(store.result, token, store.snapshot.poolAmount, total));
      var failed := Finalised(row, token, Failed, 0, 0, 0);
      if total == 0 then
        if budget == 0 then (store.(result := failed), RunFailed)
        else (store.(result := Finalised(row, token, Skipped, 0, 0, 0)), RunSkipped)
      else
        var p := Paid(store, points, budget);
        if p.failed || p.budget == 0 then (store.(books := p.books, result := failed), RunFailed)
        else if p.budget == 1 then (store.(status := Completed, books := p.books, result := failed), RunFailed)
        else (store.(status := Completed, books := p.books,
                     result := Finalised(row, token, Settled, p.paid, Commission(store.snapshot.poolAmount, p.paid), p.winners)),
              RunSettled(total, p.winners, p.paid))
  }

  class ContestStore {
    var status: ContestStatus
    var snapshot: PrizeSnapshot
    var entries: seq<Entry>
    var credits: map<Id, nat>
    var result: Option<ResultRow>

    constructor (status: ContestStatus, snapshot: PrizeSnapshot, entries: seq<Entry>)
      ensures Contents() == Store(status, snapshot, Books(entries, map[]), None)
    {
      this.status, this.snapshot, this.entries := status, snapshot, entries;
      credits, result := map[], None;
    }

    function Contents(): Store
      reads this
    {
      Store(status, snapshot, Books(entries, credits), result)
    }

    /** False when another worker owns the row: the upsert then hits the unique contest index. */
    method ClaimForSettlement(token: Token, total: nat) returns (claimed: bool)
      modifies this`result
      ensures claimed <==> old(result).None? || old(result).value.status == NotStarted || old(result).value.status == Failed
      ensures result == if claimed then Some(Claimed(old(result), token, snapshot.poolAmount, total)) else old(result)
    {
      claimed := result.None? || result.value.status == NotStarted || result.value.status == Failed;
      if claimed {
        if result.None? {
          result := Some(ResultRow(NotStarted, None, 0, 0, 0, 0, 0));
        }
        result := Some(result.value.(status := InProgress, lockToken := Some(token),
                                     poolAmount := snapshot.poolAmount, totalEntries := total));
      }
    }

    method Finalise(token: Token, newStatus: SettlementStatus, paid: nat, commission: nat, winners: nat)
      modifies this`result
      ensures result == Finalised(old(result), token, newStatus, paid, commission, winners)
    {
      if result.Some? && result.value.lockToken == Some(token) {
        result := Some(result.value.(status := newStatus, totalPaidOut := paid,
                                     commissionAmount := commission, totalWinners := winners));
      }
    }

    method CreditWinning(id: Id, amount: nat) returns (ok: bool)
      modifies this`credits
      ensures ok <==> id !in old(credits) || old(credits)[id] == amount
      ensures credits == if id in old(credits) then old(credits) else old(credits)[id := amount]
    {
      if id in credits {
        ok := credits[id] == amount;
      } else {
        credits := credits[id := amount];
        ok := true;
      }
    }

    /** Credits and marks entry by entry; the first write that throws ends the loop. */
    method PayEntries(allocations: seq<Allocated>, hasPayouts: bool, budget: nat)
      returns (totalPaidOut: nat, totalWinners: nat, writesLeft: nat, failed: bool)
      modifies this`entries, this`credits
      ensures PayState(Books(entries, credits), totalPaidOut, totalWinners, writesLeft, failed)
           == PayAll(PayState(Books(old(entries), old(credits)), 0, 0, budget, false), allocations, hasPayouts)
    {
      totalPaidOut, totalWinners, writesLeft, failed := 0, 0, budget, false;
      ghost var start := PayState(Books(entries, credits), 0, 0, budget, false);
      var i := 0;
      while i < |allocations| && !failed
        invariant 0 <= i <= |allocations|
        invariant PayState(Books(entries, credits), totalPaidOut, totalWinners, writesLeft, failed)
               == PayAll(start, allocations[..i], hasPayouts)
      {
        var a := allocations[i];
        assert allocations[..i + 1][..i] == allocations[..i];
        var shouldPay := hasPayouts && a.winningAmount > 0;
        if shouldPay {
          if writesLeft == 0 {
            failed := true;
          } else {
            var ok := CreditWinning(a.entry.entryId, a.winningAmount);
            if ok {
              totalPaidOut, totalWinners, writesLeft := totalPaidOut + a.winningAmount, totalWinners + 1, writesLeft - 1;
            } else {
              failed := true;
            }
          }
        }
        if !failed {
          if writesLeft == 0 {
            failed := true;
          } else {
            entries := MarkSettled(entries, a.entry.entryId, a.rank, if shouldPay then a.winningAmount else 0);
            writesLeft := writesLeft - 1;
          }
        }
        i := i + 1;
      }
      FailureStops(start, allocations, hasPayouts, i);
    }

    /** Settles the contest; `budget` bounds the writes that succeed between the claim and the outcome. */
    method SettleContest(token: Token, points: map<Id, real>, force: bool, budget: nat)
      returns (outcome: SettleOutcome)
      modifies this
      ensures (Contents(), outcome) == Settle(old(Contents()), token, points, force, budget)
    {
      hide ActiveEntries, Allocation, PayAll, Finalised, Claimed, Commission, SnapshotHasPayouts;
      if !force && status != Completed && status != Live {
        return NotSettleable;
      }
      if result.Some? && result.value.status == Settled {
        return AlreadySettled;
      }
      var active := ActiveEntries(entries, points);
      var totalEntries := |active|;
      var claimed := ClaimForSettlement(token, totalEntries);
      if !claimed {
        return Busy;
      }
      if totalEntries == 0 && budget > 0 {
        Finalise(token, Skipped, 0, 0, 0);
        return RunSkipped;
      }
      if totalEntries == 0 {
        Finalise(token, Failed, 0, 0, 0);
        return RunFailed;
      }
      var allocations := AllocateWinnings(active, snapshot);
      var hasPayouts := SnapshotHasPayouts(snapshot);
      var totalPaidOut, totalWinners, writesLeft, failed := PayEntries(allocations, hasPayouts, budget);
      if failed || writesLeft == 0 {
        Finalise(token, Failed, 0, 0, 0);
        return RunFailed;
      }
      status := Completed;
      if writesLeft == 1 {
        Finalise(token, Failed, 0, 0, 0);
        return RunFailed;
      }
      Finalise(token, Settled, totalPaidOut, Commission(snapshot.poolAmount, totalPaidOut), totalWinners);
      outcome := RunSettled(totalEntries, totalWinners, totalPaidOut);
    }

    /** Makes a failed settlement claimable again and releases its lock token. */
    method ResetForRetry() returns (reset: bool)
      modifies this`result
      ensures reset <==> old(result).Some? && old(result).value.status == Failed
      ensures result == if reset then Some(old(result).value.(status := NotStarted, lockToken := None)) else old(result)
      ensures reset ==> Claimable(result) && forall token :: !HoldsLock(result, token)
    {
      reset := result.Some? && result.value.status == Failed;
      if reset {
        result := Some(result.value.(status := NotStarted, lockToken := None));
      }
    }
  }

  lemma {:induction false} FailureStops(p: PayState, allocations: seq<Allocated>, gate: bool, i: nat)
    requires i <= |allocations|
    ensures PayAll(p, allocations[..i], gate).failed ==>
              PayAll(p, allocations, gate) == PayAll(p, allocations[..i], gate)
    ensures i == |allocations| ==> PayAll(p, allocations, gate) == PayAll(p, allocations[..i], gate)
    decreases |allocations| - i
  {
    if i == |allocations| {
      assert allocations[..i] == allocations;
    } else {
      assert allocations[..i + 1][..i] == allocations[..i];
      FailureStops(p, allocations, gate, i + 1);
    }
  }
}
