/** What the join and cancel protocol guarantees about locked money, and where it needs fresh keys. */
module JoinOutcomes {
  import opened ContestStatuses
  import opened JoinMoney
  import opened JoinSaga
  import opened JoinSpots
  import opened Options
  import opened Sums

  lemma InitialMoney(s: State, f: Selection)
    requires Initial(s) && PracticeIsFree(s)
    ensures MoneyInv(s) && Balanced(s, f)
  {
    InitialSpots(s);
    assert Movements(s, f) == map[] && OpenFees(s, f) == map[] && PendingLocks(s, f) == map[];
  }

  lemma {:induction false} MoneyHolds(s: State, steps: seq<Step>, f: Selection)
    requires MoneyInv(s) && Balanced(s, f) && Runs(s, steps) && FreshKeys(s, steps)
    ensures MoneyInv(After(s, steps)) && Balanced(After(s, steps), f)
    decreases |steps|
  {
    if steps != [] {
      StepKeepsMoneyInv(s, steps[0]);
      StepKeepsBalance(s, steps[0], f);
      MoneyHolds(Apply(s, steps[0]), steps[1..], f);
    }
  }

  /** Fees of all ACTIVE entries in the selection. */
  ghost function ActiveFees(s: State, f: Selection): map<JoinId, int>
  {
    map e | e in s.entries ::
      if s.entries[e].active && f(s.entries[e].contest, s.entries[e].user) then s.entries[e].fee as int else 0
  }

  /** No refund sweep is between its wallet call and its mark. */
  predicate SweepsAtRest(s: State)
  {
    forall c :: c in s.sweeps ==> s.sweeps[c].inHand.None?
  }

  /**
   * After any interleaving of joins with fresh keys, aborts, rollbacks and
   * cancellations, and for any selection of contests and users, the locked
   * money is the fees of ACTIVE entries plus the locks still in flight.
   */
  lemma LockedMoneyIsAccountedFor(s: State, steps: seq<Step>, f: Selection)
    requires Initial(s) && PracticeIsFree(s) && Runs(s, steps) && FreshKeys(s, steps)
    ensures var t := After(s, steps);
      && Balanced(t, f)
      && (SweepsAtRest(t) ==> LockedMoney(t, f) == MapSum(ActiveFees(t, f)) + MapSum(PendingLocks(t, f)))
  {
    InitialMoney(s, f);
    MoneyHolds(s, steps, f);
    var t := After(s, steps);
    if SweepsAtRest(t) {
      forall e | e in t.entries && t.entries[e].active ensures Refund(e) !in t.ledger {
        assert Refund(e) in t.ledger ==> KeyOk(t, Refund(e));
      }
      assert OpenFees(t, f) == ActiveFees(t, f);
    }
  }

  predicate SweepFinished(s: State, c: ContestId)
  {
    c in s.sweeps && s.sweeps[c] == Sweep(Some({}), None)
  }

  function OnlyContest(c: ContestId): Selection
  {
    (contest, user) => contest == c
  }

  /**
   * After a cancellation whose sweep finished: no entry is ACTIVE, each paid
   * entry was refunded exactly its fee, and the contest holds no locked money
   * apart from rollbacks that have not refunded yet.
   */
  lemma CancelledContestHoldsNothing(s: State, steps: seq<Step>, c: ContestId)
    requires Initial(s) && PracticeIsFree(s) && Runs(s, steps) && FreshKeys(s, steps)
    requires SweepFinished(After(s, steps), c)
    ensures var t := After(s, steps);
      && (forall e :: e in t.entries && t.entries[e].contest == c ==>
            && !t.entries[e].active
            && (t.entries[e].fee > 0 ==>
                  && Refund(e) in t.ledger
                  && t.ledger[Refund(e)] == Posting(c, t.entries[e].user, false, t.entries[e].fee)))
      && LockedMoney(t, OnlyContest(c)) == MapSum(PendingLocks(t, OnlyContest(c)))
      && ((forall id :: id in t.joins && t.joins[id].contest == c ==> !Pending(t.joins[id])) ==>
            LockedMoney(t, OnlyContest(c)) == 0)
  {
    var f := OnlyContest(c);
    InitialMoney(s, f);
    MoneyHolds(s, steps, f);
    var t := After(s, steps);
    forall e | e in t.entries && t.entries[e].contest == c
      ensures !t.entries[e].active
      ensures t.entries[e].fee > 0 ==> Refund(e) in t.ledger && KeyOk(t, Refund(e))
    {
      assert FeeOk(t, e);
      assert Refund(e) in t.ledger ==> KeyOk(t, Refund(e));
    }
    MapSumZero(OpenFees(t, f));
    if forall id :: id in t.joins && t.joins[id].contest == c ==> !Pending(t.joins[id]) {
      MapSumZero(PendingLocks(t, f));
    }
  }

  /** Wallet transactions are never changed, so one refund key is one refund. */
  lemma {:induction false} LedgerIsAppendOnly(s: State, steps: seq<Step>, k: Key)
    requires Runs(s, steps) && k in s.ledger
    ensures k in After(s, steps).ledger && After(s, steps).ledger[k] == s.ledger[k]
    decreases |steps|
  {
    if steps != [] {
      LedgerIsAppendOnly(Apply(s, steps[0]), steps[1..], k);
    }
  }

  // ---- Why the keys must be fresh ----------------------------------------------------------------

  function Everything(): Selection
  {
    (contest, user) => true
  }

  /** Locking a fee keeps the books balanced exactly when its idempotency key was never used. */
  lemma BalanceNeedsFreshKey(s: State, id: JoinId)
    requires MoneyInv(s) && Balanced(s, Everything()) && Enabled(s, LockFee(id))
    ensures Balanced(Apply(s, LockFee(id)), Everything()) <==> LockKey(s.joins[id]) !in s.ledger
  {
    var t, f := Apply(s, LockFee(id)), Everything();
    if LockKey(s.joins[id]) !in s.ledger {
      LockBalances(s, LockFee(id), f);
    } else {
      PendingChanged(s, t, f, id);
      SameOpen(s, t, f);
      assert Movements(t, f) == Movements(s, f);
    }
  }

  /** One open contest with two spots and a fee of 50. */
  ghost const OPEN_CONTEST: Contest := Contest(Open, 0, 2, 50, false)
  ghost const START: State := State(map[1 := OPEN_CONTEST], map[], map[], map[], map[], map[])
  /** User 7 asks with key 9, for team 3 first and after that fails for team 4. */
  ghost const FIRST_TRY: Join := Join(1, 7, 3, 9, Requested, false)
  ghost const SECOND_TRY: Join := Join(1, 7, 4, 9, Requested, false)
  ghost const ROLLED_BACK: State :=
    START.(joins := map[1 := FIRST_TRY.(stage := RolledBack, locked := true)],
           ledger := map[Lock(7, 9) := Posting(1, 7, true, 50), Rollback(7, 9) := Posting(1, 7, false, 50)])

  lemma FirstTryRollsBack() returns (steps: seq<Step>)
    ensures Runs(START, steps) && After(START, steps) == ROLLED_BACK
  {
    var s1 := START.(joins := map[1 := FIRST_TRY]);
    OneMoreStep(START, [], START, Request(1, 1, 7, 3, 9), s1);
    steps := [] + [Request(1, 1, 7, 3, 9)];
    var s2 := s1.(joins := map[1 := FIRST_TRY.(stage := SpotClaimed)], writers := map[1 := 1]);
    OneMoreStep(START, steps, s1, ClaimSpot(1), s2);
    steps := steps + [ClaimSpot(1)];
    var s3 := s2.(joins := map[1 := FIRST_TRY.(stage := SpotClaimed, locked := true)],
                  ledger := map[Lock(7, 9) := Posting(1, 7, true, 50)]);
    OneMoreStep(START, steps, s2, LockFee(1), s3);
    steps := steps + [LockFee(1)];
    var s4 := s3.(joins := map[1 := FIRST_TRY.(stage := Aborted, locked := true)], writers := map[]);
    assert map[1 := 1] - {1} == map[];
    OneMoreStep(START, steps, s3, Abort(1), s4);
    steps := steps + [Abort(1)];
    OneMoreStep(START, steps, s4, RefundRollback(1), ROLLED_BACK);
    steps := steps + [RefundRollback(1)];
  }

  ghost const REUSED: State :=
    ROLLED_BACK.(joins := ROLLED_BACK.joins[2 := SECOND_TRY.(stage := Inserted, locked := true)], writers := map[1 := 2])

  lemma SecondTryReusesLock(before: seq<Step>) returns (steps: seq<Step>)
    requires Runs(START, before) && After(START, before) == ROLLED_BACK
    ensures Runs(START, steps) && After(START, steps) == REUSED
  {
    var first := ROLLED_BACK.joins;
    var s6 := ROLLED_BACK.(joins := first[2 := SECOND_TRY]);
    OneMoreStep(START, before, ROLLED_BACK, Request(2, 1, 7, 4, 9), s6);
    steps := before + [Request(2, 1, 7, 4, 9)];
    var s7 := s6.(joins := first[2 := SECOND_TRY.(stage := SpotClaimed)], writers := map[1 := 2]);
    OneMoreStep(START, steps, s6, ClaimSpot(2), s7);
    steps := steps + [ClaimSpot(2)];
    var s8 := s7.(joins := first[2 := SECOND_TRY.(stage := SpotClaimed, locked := true)]);
    OneMoreStep(START, steps, s7, LockFee(2), s8);
    steps := steps + [LockFee(2)];
    OneMoreStep(START, steps, s8, Insert(2), REUSED);
    steps := steps + [Insert(2)];
  }

  lemma NothingHeld(s: State)
    requires s.ledger == ROLLED_BACK.ledger
    ensures LockedMoney(s, Everything()) == 0
  {
    var moves := Movements(s, Everything());
    assert moves == map[Lock(7, 9) := 50][Rollback(7, 9) := -50];
    MapSumSet(map[], Lock(7, 9), 50);
    MapSumSet(map[Lock(7, 9) := 50], Rollback(7, 9), -50);
  }

  /**
   * Retrying with the key of a request that was rolled back: the wallet returns
   * the old, already refunded lock, and the entry becomes ACTIVE with no money held.
   */
  lemma ReusedKeyEntersForFree() returns (steps: seq<Step>)
    ensures Initial(START) && PracticeIsFree(START) && Runs(START, steps)
    ensures var t := After(START, steps);
      && t.entries == map[2 := Entry(1, 7, 4, 9, 50, true)]
      && LockedMoney(t, Everything()) == 0
  {
    steps := FirstTryRollsBack();
    steps := SecondTryReusesLock(steps);
    var t := Apply(REUSED, Commit(2));
    OneMoreStep(START, steps, REUSED, Commit(2), t);
    steps := steps + [Commit(2)];
    NothingHeld(t);
  }
}
