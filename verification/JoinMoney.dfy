/** The money of the join and cancel protocol, for any selection of contests and users. */
module JoinMoney {
  import opened ContestStatuses
  import opened JoinSaga
  import opened JoinSpots
  import opened Options
  import opened Sums

  type Selection = (ContestId, UserId) -> bool

  ghost function SignedAmount(p: Posting): int
  {
    if p.locks then p.amount else -(p.amount as int)
  }

  ghost function FeeOf(s: State, c: ContestId): nat
  {
    if c in s.contests then s.contests[c].entryFee else 0
  }

  /** Wallet movements in and out of the LOCKED bucket. */
  ghost function Movements(s: State, f: Selection): map<Key, int>
  {
    map k | k in s.ledger :: if f(s.ledger[k].contest, s.ledger[k].user) then SignedAmount(s.ledger[k]) else 0
  }

  /** Fees of ACTIVE entries whose refund has not been posted. */
  ghost function OpenFees(s: State, f: Selection): map<JoinId, int>
  {
    map e | e in s.entries ::
      if s.entries[e].active && Refund(e) !in s.ledger && f(s.entries[e].contest, s.entries[e].user)
      then s.entries[e].fee as int else 0
  }

  /** A request whose lock is neither backed by an entry nor given back. */
  predicate Pending(join: Join)
  {
    join.locked && (join.stage == SpotClaimed || join.stage == Inserted || join.stage == Aborted)
  }

  ghost function PendingLocks(s: State, f: Selection): map<JoinId, int>
  {
    map id | id in s.joins ::
      if Pending(s.joins[id]) && f(s.joins[id].contest, s.joins[id].user) then FeeOf(s, s.joins[id].contest) as int else 0
  }

  ghost function LockedMoney(s: State, f: Selection): int
  {
    MapSum(Movements(s, f))
  }

  ghost predicate Balanced(s: State, f: Selection)
  {
    LockedMoney(s, f) == MapSum(OpenFees(s, f)) + MapSum(PendingLocks(s, f))
  }

  // ---- What the keys in the ledger stand for ---------------------------------------------

  /** Practice contests are free. The code never enforces this; the join relies on it. */
  predicate PracticeIsFree(s: State)
  {
    forall c :: c in s.contests && s.contests[c].isPractice ==> s.contests[c].entryFee == 0
  }

  ghost predicate LockOk(s: State, id: JoinId)
    requires id in s.joins
  {
    var join := s.joins[id];
    && (join.locked ==>
          && LockKey(join) in s.ledger && join.contest in s.contests && FeeDue(s.contests[join.contest])
          && s.ledger[LockKey(join)] == Posting(join.contest, join.user, true, FeeOf(s, join.contest)))
    && ((join.stage == Inserted || join.stage == Committed) && !join.locked ==> FeeOf(s, join.contest) == 0)
    && (join.stage == Requested ==> !join.locked)
    && (join.stage == RolledBack ==> join.locked)
  }

  /** Two requests never share one lock transaction. */
  ghost predicate Shares(s: State, i: JoinId, j: JoinId)
    requires i in s.joins && j in s.joins
  {
    s.joins[i].locked && s.joins[j].locked && LockKey(s.joins[i]) == LockKey(s.joins[j])
  }

  ghost predicate KeyOk(s: State, k: Key)
    requires k in s.ledger
  {
    match k
    case Lock(user, key) => s.ledger[k].locks
    case Rollback(user, key) =>
      && !s.ledger[k].locks
      && (exists id :: id in s.joins && s.joins[id].locked && s.joins[id].stage == RolledBack
                    && LockKey(s.joins[id]) == Lock(user, key))
    case Refund(e) =>
      && e in s.entries && s.entries[e].fee > 0
      && s.ledger[k] == Posting(s.entries[e].contest, s.entries[e].user, false, s.entries[e].fee)
      && (s.entries[e].active ==> s.entries[e].contest in s.sweeps && s.sweeps[s.entries[e].contest].inHand == Some(e))
  }

  ghost predicate FeeOk(s: State, e: JoinId)
    requires e in s.entries
  {
    && s.entries[e].fee == FeeOf(s, s.entries[e].contest)
    && (!s.entries[e].active && s.entries[e].fee > 0 ==> Refund(e) in s.ledger)
    && (s.entries[e].active && Sweeping(s, s.entries[e].contest) ==>
          e in s.sweeps[s.entries[e].contest].todo.value)
  }

  ghost predicate TodoOk(s: State, c: ContestId)
    requires c in s.sweeps
  {
    && (s.sweeps[c].todo.Some? ==> forall e :: e in s.sweeps[c].todo.value ==>
          e in s.entries && s.entries[e].active && s.entries[e].contest == c)
    && (s.sweeps[c].inHand.Some? ==>
          && s.sweeps[c].todo.Some? && s.sweeps[c].inHand.value in s.sweeps[c].todo.value
          && s.sweeps[c].inHand.value in s.entries
          && (s.entries[s.sweeps[c].inHand.value].fee > 0 ==> Refund(s.sweeps[c].inHand.value) in s.ledger))
  }

  ghost predicate MoneyInv(s: State)
  {
    && SpotInv(s) && PracticeIsFree(s)
    && (forall id {:trigger LockOk(s, id)} :: id in s.joins ==> LockOk(s, id))
    && (forall i, j {:trigger Shares(s, i, j)} :: i in s.joins && j in s.joins && Shares(s, i, j) ==> i == j)
    && (forall k {:trigger KeyOk(s, k)} :: k in s.ledger ==> KeyOk(s, k))
    && (forall e {:trigger FeeOk(s, e)} :: e in s.entries ==> FeeOk(s, e))
    && (forall c {:trigger TodoOk(s, c)} :: c in s.sweeps ==> TodoOk(s, c))
  }

  /** The lock of a request is not an old transaction: what distinct idempotency keys give. */
  predicate FreshKey(s: State, step: Step)
  {
    step.LockFee? && step.id in s.joins ==> LockKey(s.joins[step.id]) !in s.ledger
  }

  predicate FreshKeys(s: State, steps: seq<Step>)
    requires Runs(s, steps)
    decreases |steps|
  {
    steps == [] || (FreshKey(s, steps[0]) && FreshKeys(Apply(s, steps[0]), steps[1..]))
  }

  // ---- Every step keeps the meaning of the keys ---------------------------------------------

  lemma FeesAreFixed(s: State, step: Step, c: ContestId)
    requires Enabled(s, step)
    ensures FeeOf(Apply(s, step), c) == FeeOf(s, c)
    ensures c in s.contests <==> c in Apply(s, step).contests
    ensures c in s.contests ==> Apply(s, step).contests[c].isPractice == s.contests[c].isPractice
  {
  }

  lemma LocksStayOk(s: State, step: Step, id: JoinId)
    requires MoneyInv(s) && Enabled(s, step) && FreshKey(s, step) && id in Apply(s, step).joins
    ensures LockOk(Apply(s, step), id)
  {
    assert id in s.joins ==> LockOk(s, id) && JoinOk(s, id);
    if id in s.joins {
      FeesAreFixed(s, step, s.joins[id].contest);
    }
  }

  lemma LocksStayDistinct(s: State, step: Step, i: JoinId, j: JoinId)
    requires MoneyInv(s) && Enabled(s, step) && FreshKey(s, step)
    requires i in Apply(s, step).joins && j in Apply(s, step).joins && Shares(Apply(s, step), i, j)
    ensures i == j
  {
    assert i in s.joins ==> LockOk(s, i);
    assert j in s.joins ==> LockOk(s, j);
    assert i in s.joins && j in s.joins;
    assert Shares(s, i, j) ==> i == j;
  }

  lemma RollbacksStayOk(s: State, step: Step, k: Key)
    requires MoneyInv(s) && Enabled(s, step) && k in Apply(s, step).ledger && k.Rollback?
    ensures KeyOk(Apply(s, step), k)
  {
    var t := Apply(s, step);
    if k in s.ledger {
      assert KeyOk(s, k);
      var id :| id in s.joins && s.joins[id].locked && s.joins[id].stage == RolledBack
             && LockKey(s.joins[id]) == Lock(k.user, k.key);
      assert id in t.joins && t.joins[id] == s.joins[id];
    } else {
      assert step.RefundRollback? && t.joins[step.id].locked && t.joins[step.id].stage == RolledBack;
    }
  }

  lemma RefundsStayOk(s: State, step: Step, k: Key)
    requires MoneyInv(s) && Enabled(s, step) && k in Apply(s, step).ledger && k.Refund?
    ensures KeyOk(Apply(s, step), k)
  {
    var e := k.entry;
    assert k in s.ledger ==> KeyOk(s, k);
    if step.RefundEntry? {
      assert TodoOk(s, step.contest);
    } else {
      assert k in s.ledger;
      if step.MarkRefunded? {
        assert TodoOk(s, step.contest);
      } else if step.Cancel? {
        assert step.contest in s.sweeps ==> SweepOk(s, step.contest);
      } else if step.ReadActive? {
        assert TodoOk(s, step.contest);
      } else if step.Commit? {
        assert JoinOk(s, step.id);
        assert EntryOk(s, e);
      }
    }
  }

  lemma KeysStayOk(s: State, step: Step, k: Key)
    requires MoneyInv(s) && Enabled(s, step) && k in Apply(s, step).ledger
    ensures KeyOk(Apply(s, step), k)
  {
    match k
    case Lock(_, _) => assert k in s.ledger ==> KeyOk(s, k);
    case Rollback(_, _) => RollbacksStayOk(s, step, k);
    case Refund(_) => RefundsStayOk(s, step, k);
  }

  lemma FeesStayOk(s: State, step: Step, e: JoinId)
    requires MoneyInv(s) && Enabled(s, step) && e in Apply(s, step).entries
    ensures FeeOk(Apply(s, step), e)
  {
    var t := Apply(s, step);
    FeesAreFixed(s, step, t.entries[e].contest);
    assert e in s.entries ==> FeeOk(s, e);
    if step.Commit? {
      var c := s.joins[step.id].contest;
      assert JoinOk(s, step.id) && WriterOk(s, c);
      assert c in s.sweeps ==> SweepOk(s, c);
    }
    if step.MarkRefunded? {
      assert TodoOk(s, step.contest);
    }
  }

  lemma TodosStayOk(s: State, step: Step, c: ContestId)
    requires MoneyInv(s) && Enabled(s, step) && c in Apply(s, step).sweeps
    ensures TodoOk(Apply(s, step), c)
  {
    assert c in s.sweeps ==> TodoOk(s, c);
    if step.MarkRefunded? {
      assert TodoOk(s, step.contest);
    }
    if step.Commit? {
      assert JoinOk(s, step.id);
      assert step.id in s.entries ==> EntryOk(s, step.id);
    }
  }

  lemma StepKeepsMoneyInv(s: State, step: Step)
    requires MoneyInv(s) && Enabled(s, step) && FreshKey(s, step)
    ensures MoneyInv(Apply(s, step))
  {
    var t := Apply(s, step);
    StepKeepsSpots(s, step);
    forall c | c in t.contests ensures t.contests[c].isPractice ==> t.contests[c].entryFee == 0 {
      FeesAreFixed(s, step, c);
    }
    forall id | id in t.joins ensures LockOk(t, id) {
      LocksStayOk(s, step, id);
    }
    forall i, j | i in t.joins && j in t.joins && Shares(t, i, j) ensures i == j {
      LocksStayDistinct(s, step, i, j);
    }
    forall k | k in t.ledger ensures KeyOk(t, k) {
      KeysStayOk(s, step, k);
    }
    forall e | e in t.entries ensures FeeOk(t, e) {
      FeesStayOk(s, step, e);
    }
    forall c | c in t.sweeps ensures TodoOk(t, c) {
      TodosStayOk(s, step, c);
    }
  }

  // ---- Every step keeps the balance --------------------------------------------------------------

  /** One wallet transaction is added. */
  lemma MovementAdded(s: State, t: State, f: Selection, k: Key, p: Posting)
    requires k !in s.ledger && t.ledger == s.ledger[k := p]
    ensures LockedMoney(t, f) == LockedMoney(s, f) + if f(p.contest, p.user) then SignedAmount(p) else 0
  {
    MapSumDiffer(Movements(s, f), Movements(t, f), k);
  }

  ghost function PendingFee(s: State, id: JoinId, f: Selection): int
    requires id in s.joins
  {
    if Pending(s.joins[id]) && f(s.joins[id].contest, s.joins[id].user) then FeeOf(s, s.joins[id].contest) else 0
  }

  /** One request changes. */
  lemma PendingChanged(s: State, t: State, f: Selection, id: JoinId)
    requires id in t.joins && t.joins == s.joins[id := t.joins[id]]
    requires forall c :: FeeOf(t, c) == FeeOf(s, c)
    ensures MapSum(PendingLocks(t, f))
         == MapSum(PendingLocks(s, f)) - (if id in s.joins then PendingFee(s, id, f) else 0) + PendingFee(t, id, f)
  {
    MapSumDiffer(PendingLocks(s, f), PendingLocks(t, f), id);
  }

  ghost function OpenFee(s: State, e: JoinId, f: Selection): int
    requires e in s.entries
  {
    if s.entries[e].active && Refund(e) !in s.ledger && f(s.entries[e].contest, s.entries[e].user)
    then s.entries[e].fee else 0
  }

  /** One entry changes, or its refund is posted. */
  lemma OpenChanged(s: State, t: State, f: Selection, e: JoinId)
    requires e in t.entries && t.entries == s.entries[e := t.entries[e]]
    requires forall d :: d != e ==> (Refund(d) in t.ledger <==> Refund(d) in s.ledger)
    ensures MapSum(OpenFees(t, f))
         == MapSum(OpenFees(s, f)) - (if e in s.entries then OpenFee(s, e, f) else 0) + OpenFee(t, e, f)
  {
    MapSumDiffer(OpenFees(s, f), OpenFees(t, f), e);
  }

  lemma SameOpen(s: State, t: State, f: Selection)
    requires t.entries == s.entries
    requires forall e :: Refund(e) in t.ledger <==> Refund(e) in s.ledger
    ensures OpenFees(t, f) == OpenFees(s, f)
  {
  }

  lemma SamePending(s: State, t: State, f: Selection)
    requires t.joins == s.joins
    requires forall c :: FeeOf(t, c) == FeeOf(s, c)
    ensures PendingLocks(t, f) == PendingLocks(s, f)
  {
  }

  lemma LockBalances(s: State, step: Step, f: Selection)
    requires MoneyInv(s) && Enabled(s, step) && step.LockFee? && FreshKey(s, step) && Balanced(s, f)
    ensures Balanced(Apply(s, step), f)
  {
    var t, join := Apply(s, step), s.joins[step.id];
    MovementAdded(s, t, f, LockKey(join), Posting(join.contest, join.user, true, FeeOf(s, join.contest)));
    PendingChanged(s, t, f, step.id);
    SameOpen(s, t, f);
  }

  lemma CommitBalances(s: State, step: Step, f: Selection)
    requires MoneyInv(s) && Enabled(s, step) && step.Commit? && Balanced(s, f)
    ensures Balanced(Apply(s, step), f)
  {
    var t := Apply(s, step);
    assert LockOk(s, step.id) && JoinOk(s, step.id);
    assert step.id in s.entries ==> EntryOk(s, step.id);
    assert Refund(step.id) in s.ledger ==> KeyOk(s, Refund(step.id));
    PendingChanged(s, t, f, step.id);
    OpenChanged(s, t, f, step.id);
  }

  lemma RollbackKeyUnused(s: State, id: JoinId)
    requires MoneyInv(s) && id in s.joins && s.joins[id].locked && s.joins[id].stage != RolledBack
    ensures Rollback(s.joins[id].user, s.joins[id].key) !in s.ledger
  {
    var join := s.joins[id];
    var key := Rollback(join.user, join.key);
    forall other | other in s.joins && s.joins[other].locked && s.joins[other].stage == RolledBack
      ensures LockKey(s.joins[other]) != LockKey(join)
    {
      assert Shares(s, other, id) ==> other == id;
    }
    assert key in s.ledger ==> KeyOk(s, key);
  }

  lemma RollbackBalances(s: State, step: Step, f: Selection)
    requires MoneyInv(s) && Enabled(s, step) && step.RefundRollback? && Balanced(s, f)
    ensures Balanced(Apply(s, step), f)
  {
    var t, join := Apply(s, step), s.joins[step.id];
    RollbackKeyUnused(s, step.id);
    MovementAdded(s, t, f, Rollback(join.user, join.key),
                  Posting(join.contest, join.user, false, FeeOf(s, join.contest)));
    PendingChanged(s, t, f, step.id);
    SameOpen(s, t, f);
  }

  lemma RefundBalances(s: State, step: Step, f: Selection)
    requires MoneyInv(s) && Enabled(s, step) && step.RefundEntry? && Balanced(s, f)
    ensures Balanced(Apply(s, step), f)
  {
    var t, entry := Apply(s, step), s.entries[step.entry];
    assert TodoOk(s, step.contest);
    assert Refund(step.entry) in s.ledger ==> KeyOk(s, Refund(step.entry));
    assert Refund(step.entry) !in s.ledger;
    SamePending(s, t, f);
    if entry.fee > 0 {
      MovementAdded(s, t, f, Refund(step.entry), Posting(step.contest, entry.user, false, entry.fee));
      OpenChanged(s, t, f, step.entry);
    } else {
      SameOpen(s, t, f);
    }
  }

  lemma MarkBalances(s: State, step: Step, f: Selection)
    requires MoneyInv(s) && Enabled(s, step) && step.MarkRefunded? && Balanced(s, f)
    ensures Balanced(Apply(s, step), f)
  {
    var t := Apply(s, step);
    assert TodoOk(s, step.contest);
    SamePending(s, t, f);
    OpenChanged(s, t, f, s.sweeps[step.contest].inHand.value);
  }

  /** A request that moves on without money changing hands. */
  lemma StageBalances(s: State, step: Step, f: Selection)
    requires MoneyInv(s) && Enabled(s, step) && Balanced(s, f)
    requires step.Request? || step.ClaimSpot? || step.Insert? || step.Abort?
    ensures Balanced(Apply(s, step), f)
  {
    var t := Apply(s, step);
    assert step.id in s.joins ==> LockOk(s, step.id);
    SameOpen(s, t, f);
    PendingChanged(s, t, f, step.id);
  }

  lemma StatusBalances(s: State, step: Step, f: Selection)
    requires MoneyInv(s) && Enabled(s, step) && Balanced(s, f)
    requires step.Transition? || step.Cancel? || step.ReadActive?
    ensures Balanced(Apply(s, step), f)
  {
    var t := Apply(s, step);
    SameOpen(s, t, f);
    SamePending(s, t, f);
  }

  lemma StepKeepsBalance(s: State, step: Step, f: Selection)
    requires MoneyInv(s) && Enabled(s, step) && FreshKey(s, step) && Balanced(s, f)
    ensures Balanced(Apply(s, step), f)
  {
    match step
    case LockFee(_) => LockBalances(s, step, f);
    case Commit(_) => CommitBalances(s, step, f);
    case RefundRollback(_) => RollbackBalances(s, step, f);
    case RefundEntry(_, _) => RefundBalances(s, step, f);
    case MarkRefunded(_) => MarkBalances(s, step, f);
    case Transition(_, _) => StatusBalances(s, step, f);
    case Cancel(_) => StatusBalances(s, step, f);
    case ReadActive(_) => StatusBalances(s, step, f);
    case _ => StageBalances(s, step, f);
  }
}
