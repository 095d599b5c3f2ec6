/**
 * Settlement of one contest by any number of workers, with crashes, failures,
 * retries and administrator resets, as a state machine over single store writes.
 */
module SettlementProtocol {
  import opened ContestSettlement
  import opened FirstSettlement
  import opened Options
  import opened Prizes
  import opened PrizeTotals
  import opened Sums
  import opened WinningAllocation

  datatype Phase = Loading | Paying | Ended

  /**
   * One successful claim. `next` is the loop index, `inHand` says that the
   * current entry is credited but not yet marked, `created` is the money whose
   * wallet transaction this run was the first to create.
   */
  datatype Run = Run(token: Token, phase: Phase, counted: nat, allocations: seq<Allocated>,
                     next: nat, inHand: bool, paid: nat, winners: nat, created: nat)

  /** `staleResets` counts resets that have read a FAILED row and not yet saved. */
  datatype State = State(snapshot: PrizeSnapshot, result: Option<ResultRow>, books: Books,
                         runs: seq<Run>, staleResets: nat)

  datatype Step =
    | Claim(token: Token, counted: nat)
    | SkipEmpty(run: nat)
    | Load(run: nat, points: map<Id, real>)
    | Credit(run: nat, raced: bool)
    | Mark(run: nat)
    | Finish(run: nat)
    | Fail(run: nat)
    | Crash(run: nat)
    | ReadReset
    | SaveReset

  function Gate(s: State): bool
  {
    SnapshotHasPayouts(s.snapshot)
  }

  predicate InPhase(s: State, run: nat, phase: Phase)
  {
    run < |s.runs| && s.runs[run].phase == phase
  }

  predicate AtEntry(s: State, run: nat)
  {
    InPhase(s, run, Paying) && s.runs[run].next < |s.runs[run].allocations|
  }

  function Current(s: State, run: nat): Allocated
    requires AtEntry(s, run)
  {
    s.runs[run].allocations[s.runs[run].next]
  }

  /**
   * `raced` is the wallet's second path: a duplicate key found at insertion
   * returns the first transaction without comparing amounts.
   */
  predicate Enabled(s: State, step: Step)
  {
    match step
    case Claim(token, counted) => Claimable(s.result) && forall i :: 0 <= i < |s.runs| ==> s.runs[i].token != token
    case SkipEmpty(r) => InPhase(s, r, Loading) && s.runs[r].counted == 0
    case Load(r, points) => InPhase(s, r, Loading) && s.runs[r].counted > 0
    case Credit(r, raced) =>
      && AtEntry(s, r) && !s.runs[r].inHand && ShouldPay(Current(s, r), Gate(s))
      && (CreditRefused(s.books.credits, Current(s, r).entry.entryId, Current(s, r).winningAmount) ==> raced)
    case Mark(r) => AtEntry(s, r) && s.runs[r].inHand == ShouldPay(Current(s, r), Gate(s))
    case Finish(r) => InPhase(s, r, Paying) && s.runs[r].next == |s.runs[r].allocations|
    case Fail(r) => r < |s.runs| && s.runs[r].phase != Ended
    case Crash(r) => r < |s.runs| && s.runs[r].phase != Ended
    case ReadReset => s.result.Some? && s.result.value.status == Failed
    case SaveReset => s.result.Some? && s.staleResets > 0
  }

  function Apply(s: State, step: Step): State
    requires Enabled(s, step)
  {
    match step
    case Claim(token, counted) =>
      s.(result := Some(Claimed(s.result, token, s.snapshot.poolAmount, counted)),
         runs := s.runs + [Run(token, Loading, counted, [], 0, false, 0, 0, 0)])
    case SkipEmpty(r) =>
      s.(result := Finalised(s.result, s.runs[r].token, Skipped, 0, 0, 0),
         runs := s.runs[r := s.runs[r].(phase := Ended)])
    case Load(r, points) =>
      s.(runs := s.runs[r := s.runs[r].(phase := Paying,
                                        allocations := Allocation(ActiveEntries(s.books.entries, points), s.snapshot))])
    case Credit(r, raced) =>
      var a := Current(s, r);
      var isNew := a.entry.entryId !in s.books.credits;
      s.(books := s.books.(credits := Credited(s.books.credits, a.entry.entryId, a.winningAmount)),
         runs := s.runs[r := s.runs[r].(inHand := true, paid := s.runs[r].paid + a.winningAmount,
                                        winners := s.runs[r].winners + 1,
                                        created := s.runs[r].created + if isNew then a.winningAmount else 0)])
    case Mark(r) =>
      var a := Current(s, r);
      s.(books := s.books.(entries := MarkSettled(s.books.entries, a.entry.entryId, a.rank, AmountPaid(a, Gate(s)))),
         runs := s.runs[r := s.runs[r].(next := s.runs[r].next + 1, inHand := false)])
    case Finish(r) =>
      s.(result := Finalised(s.result, s.runs[r].token, Settled, s.runs[r].paid,
                             Commission(s.snapshot.poolAmount, s.runs[r].paid), s.runs[r].winners),
         runs := s.runs[r := s.runs[r].(phase := Ended)])
    case Fail(r) =>
      s.(result := Finalised(s.result, s.runs[r].token, Failed, 0, 0, 0),
         runs := s.runs[r := s.runs[r].(phase := Ended)])
    case Crash(r) => s.(runs := s.runs[r := s.runs[r].(phase := Ended)])
    case ReadReset => s.(staleResets := s.staleResets + 1)
    case SaveReset =>
      s.(result := Some(s.result.value.(status := NotStarted, lockToken := None)), staleResets := s.staleResets - 1)
  }

  predicate Runs(s: State, steps: seq<Step>)
    decreases |steps|
  {
    steps == [] || (Enabled(s, steps[0]) && Runs(Apply(s, steps[0]), steps[1..]))
  }

  function After(s: State, steps: seq<Step>): State
    requires Runs(s, steps)
    decreases |steps|
  {
    if steps == [] then s else After(Apply(s, steps[0]), steps[1..])
  }

  /** Extending a run by one step. */
  lemma {:induction false} OneMoreStep(s: State, steps: seq<Step>, t: State, step: Step, u: State)
    requires Runs(s, steps) && After(s, steps) == t
    requires Enabled(t, step) && Apply(t, step) == u
    ensures Runs(s, steps + [step]) && After(s, steps + [step]) == u
    decreases |steps|
  {
    if steps == [] {
      assert steps + [step] == [step];
      assert [step][1..] == [];
    } else {
      assert (steps + [step])[1..] == steps[1..] + [step];
      OneMoreStep(Apply(s, steps[0]), steps[1..], t, step, u);
    }
  }

  /** One run after another. */
  lemma {:induction false} RunsConcat(s: State, first: seq<Step>, second: seq<Step>)
    requires Runs(s, first) && Runs(After(s, first), second)
    ensures Runs(s, first + second) && After(s, first + second) == After(After(s, first), second)
    decreases |first|
  {
    if first == [] {
      assert first + second == second;
    } else {
      assert (first + second)[1..] == first[1..] + second;
      RunsConcat(Apply(s, first[0]), first[1..], second);
    }
  }

  predicate Initial(s: State)
  {
    s.result == None && s.runs == [] && s.staleResets == 0 && s.books.credits == map[]
  }

  // ---- Money -------------------------------------------------------------------------

  ghost function CreatedAmounts(s: State): seq<int>
  {
    seq(|s.runs|, i requires 0 <= i < |s.runs| => s.runs[i].created)
  }

  /** What a run may have credited so far, from its own allocation. */
  ghost function Due(run: Run): int
    requires run.next <= |run.allocations|
    requires run.inHand ==> run.next < |run.allocations|
  {
    Sum(Winnings(run.allocations[..run.next])) + if run.inHand then run.allocations[run.next].winningAmount else 0
  }

  ghost predicate RunOk(s: State, run: Run)
  {
    && run.next <= |run.allocations|
    && (run.inHand ==> run.next < |run.allocations|)
    && (run.phase == Loading ==> run.allocations == [])
    && 0 <= run.created <= Due(run)
    && Sum(Winnings(run.allocations)) <= s.snapshot.poolAmount
  }

  ghost predicate Inv(s: State)
  {
    && ValidSnapshot(s.snapshot)
    && (forall i :: 0 <= i < |s.runs| ==> RunOk(s, s.runs[i]))
    && (forall i, j :: 0 <= i < j < |s.runs| ==> s.runs[i].token != s.runs[j].token)
    && MapSum(s.books.credits) == Sum(CreatedAmounts(s))
  }

  lemma {:induction false} SumUpdate(s: seq<int>, i: nat, v: int)
    requires i < |s|
    ensures Sum(s[i := v]) == Sum(s) - s[i] + v
  {
    if i > 0 {
      assert s[i := v][1..] == s[1..][i - 1 := v];
      SumUpdate(s[1..], i - 1, v);
    } else {
      assert s[i := v][1..] == s[1..];
    }
  }

  lemma {:induction false} PrefixOfWinnings(allocations: seq<Allocated>, m: nat)
    requires m <= |allocations|
    ensures 0 <= Sum(Winnings(allocations[..m])) <= Sum(Winnings(allocations))
  {
    assert Winnings(allocations) == Winnings(allocations[..m]) + Winnings(allocations[m..]);
    SumConcat(Winnings(allocations[..m]), Winnings(allocations[m..]));
    SumNonNegative(Winnings(allocations[..m]));
    SumNonNegative(Winnings(allocations[m..]));
  }

  lemma NextWinning(allocations: seq<Allocated>, m: nat)
    requires m < |allocations|
    ensures Sum(Winnings(allocations[..m + 1])) == Sum(Winnings(allocations[..m])) + allocations[m].winningAmount
  {
    assert Winnings(allocations[..m + 1]) == Winnings(allocations[..m]) + [allocations[m].winningAmount];
    SumAppend(Winnings(allocations[..m]), allocations[m].winningAmount);
  }

  lemma ReplaceRun(s: State, r: nat, run: Run, t: State)
    requires Inv(s) && r < |s.runs| && t.runs == s.runs[r := run] && t.snapshot == s.snapshot
    requires run.token == s.runs[r].token && RunOk(s, run)
    requires MapSum(t.books.credits) == MapSum(s.books.credits) - s.runs[r].created + run.created
    ensures Inv(t)
  {
    assert CreatedAmounts(t) == CreatedAmounts(s)[r := run.created];
    SumUpdate(CreatedAmounts(s), r, run.created);
    forall i | 0 <= i < |t.runs| ensures RunOk(t, t.runs[i]) {
      assert RunOk(s, if i == r then run else s.runs[i]);
    }
  }

  lemma ClaimKeepsInv(s: State, step: Step)
    requires Inv(s) && Enabled(s, step) && step.Claim?
    ensures Inv(Apply(s, step))
  {
    var t := Apply(s, step);
    assert CreatedAmounts(t) == CreatedAmounts(s) + [0];
    SumAppend(CreatedAmounts(s), 0);
    assert Winnings([]) == [];
    forall i | 0 <= i < |t.runs| ensures RunOk(t, t.runs[i]) {
      assert i < |s.runs| ==> RunOk(s, s.runs[i]);
    }
  }

  lemma LoadKeepsInv(s: State, step: Step)
    requires Inv(s) && Enabled(s, step) && step.Load?
    ensures Inv(Apply(s, step))
  {
    var t := Apply(s, step);
    assert RunOk(s, s.runs[step.run]);
    PayoutWithinPool(ActiveEntries(s.books.entries, step.points), s.snapshot);
    LoadedRun(s, step.run, t.runs[step.run]);
    ReplaceRun(s, step.run, t.runs[step.run], t);
  }

  lemma CreditKeepsInv(s: State, step: Step)
    requires Inv(s) && Enabled(s, step) && step.Credit?
    ensures Inv(Apply(s, step))
  {
    var t := Apply(s, step);
    assert RunOk(s, s.runs[step.run]);
    var a := Current(s, step.run);
    MapSumSet(s.books.credits, a.entry.entryId, a.winningAmount);
    ReplaceRun(s, step.run, t.runs[step.run], t);
  }

  lemma MarkKeepsInv(s: State, step: Step)
    requires Inv(s) && Enabled(s, step) && step.Mark?
    ensures Inv(Apply(s, step))
  {
    var t := Apply(s, step);
    assert RunOk(s, s.runs[step.run]);
    NextWinning(s.runs[step.run].allocations, s.runs[step.run].next);
    ReplaceRun(s, step.run, t.runs[step.run], t);
  }

  lemma StepKeepsInv(s: State, step: Step)
    requires Inv(s) && Enabled(s, step)
    ensures Inv(Apply(s, step))
  {
    var t := Apply(s, step);
    match step
    case Claim(token, counted) => ClaimKeepsInv(s, step);
    case Load(r, points) => LoadKeepsInv(s, step);
    case Credit(r, raced) => CreditKeepsInv(s, step);
    case Mark(r) => MarkKeepsInv(s, step);
    case SkipEmpty(r) => ReplaceRun(s, r, t.runs[r], t);
    case Finish(r) => ReplaceRun(s, r, t.runs[r], t);
    case Fail(r) => ReplaceRun(s, r, t.runs[r], t);
    case Crash(r) => ReplaceRun(s, r, t.runs[r], t);
    case ReadReset => SameRuns(s, t);
    case SaveReset => SameRuns(s, t);
  }

  lemma SameRuns(s: State, t: State)
    requires Inv(s) && t.runs == s.runs && t.snapshot == s.snapshot && t.books == s.books
    ensures Inv(t)
  {
    assert CreatedAmounts(t) == CreatedAmounts(s);
    forall i | 0 <= i < |t.runs| ensures RunOk(t, t.runs[i]) {
      assert RunOk(s, s.runs[i]);
    }
  }

  lemma LoadedRun(s: State, r: nat, loaded: Run)
    requires r < |s.runs| && RunOk(s, s.runs[r])
    requires loaded.created == s.runs[r].created && loaded.next == s.runs[r].next && loaded.inHand == s.runs[r].inHand
    requires s.runs[r].phase == Loading && loaded.phase == Paying
    requires Sum(Winnings(loaded.allocations)) <= s.snapshot.poolAmount
    ensures RunOk(s, loaded)
  {
    assert loaded.next == 0;
    assert loaded.allocations[..0] == s.runs[r].allocations[..0];
  }

  lemma {:induction false} InvHolds(s: State, steps: seq<Step>)
    requires Inv(s) && Runs(s, steps)
    ensures Inv(After(s, steps))
    decreases |steps|
  {
    if steps != [] {
      StepKeepsInv(s, steps[0]);
      InvHolds(Apply(s, steps[0]), steps[1..]);
    }
  }

  lemma {:induction false} CreatedWithinPools(s: State, m: nat)
    requires Inv(s) && m <= |s.runs|
    ensures Sum(CreatedAmounts(s)[..m]) <= m * s.snapshot.poolAmount
  {
    if m > 0 {
      CreatedWithinPools(s, m - 1);
      var run := s.runs[m - 1];
      assert RunOk(s, run);
      PrefixOfWinnings(run.allocations, run.next);
      if run.inHand {
        NextWinning(run.allocations, run.next);
        PrefixOfWinnings(run.allocations, run.next + 1);
      }
      assert CreatedAmounts(s)[..m] == CreatedAmounts(s)[..m - 1] + [run.created];
      SumAppend(CreatedAmounts(s)[..m - 1], run.created);
      OnePoolMore(m - 1, s.snapshot.poolAmount);
    }
  }

  lemma OnePoolMore(m: nat, pool: nat)
    ensures m * pool + pool == (m + 1) * pool
  {
  }

  /**
   * After any interleaving with k successful claims the wallet was credited at
   * most k pools; in particular one claim never pays more than the pool.
   */
  lemma CreditsWithinClaims(s: State, steps: seq<Step>)
    requires Initial(s) && ValidSnapshot(s.snapshot) && Runs(s, steps)
    ensures var t := After(s, steps);
      && MapSum(t.books.credits) <= |t.runs| * t.snapshot.poolAmount
      && (|t.runs| <= 1 ==> MapSum(t.books.credits) <= s.snapshot.poolAmount)
  {
    assert CreatedAmounts(s) == [];
    InvHolds(s, steps);
    SnapshotIsFixed(s, steps);
    var t := After(s, steps);
    CreatedWithinPools(t, |t.runs|);
    assert CreatedAmounts(t)[..|t.runs|] == CreatedAmounts(t);
  }

  lemma {:induction false} SnapshotIsFixed(s: State, steps: seq<Step>)
    requires Runs(s, steps)
    ensures After(s, steps).snapshot == s.snapshot
    decreases |steps|
  {
    if steps != [] {
      SnapshotIsFixed(Apply(s, steps[0]), steps[1..]);
    }
  }

  // ---- Each entry is credited at most once ---------------------------------------------

  /** A wallet credit, once made, is never repeated, changed or withdrawn. */
  lemma {:induction false} CreditedOnce(s: State, steps: seq<Step>, id: Id)
    requires Runs(s, steps) && id in s.books.credits
    ensures id in After(s, steps).books.credits && After(s, steps).books.credits[id] == s.books.credits[id]
    decreases |steps|
  {
    if steps != [] {
      CreditedOnce(Apply(s, steps[0]), steps[1..], id);
    }
  }

  // ---- The lock ----------------------------------------------------------------------------

  ghost predicate MayFinalise(s: State, r: nat)
  {
    r < |s.runs| && s.runs[r].phase != Ended && HoldsLock(s.result, s.runs[r].token)
  }

  /** At any time at most one worker's finalise can change the result row. */
  lemma OneFinaliser(s: State, steps: seq<Step>, r: nat, q: nat)
    requires Initial(s) && ValidSnapshot(s.snapshot) && Runs(s, steps)
    requires MayFinalise(After(s, steps), r) && MayFinalise(After(s, steps), q)
    ensures r == q
  {
    assert CreatedAmounts(s) == [];
    InvHolds(s, steps);
    var t := After(s, steps);
    assert t.runs[r].token == t.runs[q].token;
  }

  predicate Terminal(result: Option<ResultRow>)
  {
    result.Some? && (result.value.status == Settled || result.value.status == Skipped)
  }

  /** A worker that ended the row for good, or a token no live run holds. */
  ghost predicate LockInv(s: State)
  {
    && (forall i, j :: 0 <= i < j < |s.runs| ==> s.runs[i].token != s.runs[j].token)
    && (Terminal(s.result) ==> forall r :: !MayFinalise(s, r))
    && (s.result.Some? && s.result.value.lockToken.Some? ==>
          exists r :: 0 <= r < |s.runs| && s.runs[r].token == s.result.value.lockToken.value)
  }

  lemma StepKeepsTokens(s: State, step: Step)
    requires LockInv(s) && Enabled(s, step)
    ensures var t := Apply(s, step);
            && |s.runs| <= |t.runs| && (forall r :: 0 <= r < |s.runs| ==> t.runs[r].token == s.runs[r].token)
            && forall i, j :: 0 <= i < j < |t.runs| ==> t.runs[i].token != t.runs[j].token
  {
    var t := Apply(s, step);
    forall i, j | 0 <= i < j < |t.runs| ensures t.runs[i].token != t.runs[j].token {
      assert j < |s.runs| ==> s.runs[i].token != s.runs[j].token;
    }
  }

  lemma StepKeepsHolder(s: State, step: Step)
    requires LockInv(s) && Enabled(s, step)
    requires Apply(s, step).result.Some? && Apply(s, step).result.value.lockToken.Some?
    ensures var t := Apply(s, step);
            exists r :: 0 <= r < |t.runs| && t.runs[r].token == t.result.value.lockToken.value
  {
    var t := Apply(s, step);
    StepKeepsTokens(s, step);
    if step.Claim? {
      assert t.runs[|s.runs|].token == t.result.value.lockToken.value;
    } else {
      var r :| 0 <= r < |s.runs| && s.runs[r].token == s.result.value.lockToken.value;
      assert t.runs[r].token == t.result.value.lockToken.value;
    }
  }

  lemma StepKeepsTerminal(s: State, step: Step, r: nat)
    requires LockInv(s) && Enabled(s, step) && Terminal(Apply(s, step).result)
    ensures !MayFinalise(Apply(s, step), r)
  {
    assert Terminal(s.result) ==> !MayFinalise(s, r);
    assert forall i, j :: 0 <= i < j < |s.runs| ==> s.runs[i].token != s.runs[j].token;
  }

  lemma StepKeepsLockInv(s: State, step: Step)
    requires LockInv(s) && Enabled(s, step)
    ensures LockInv(Apply(s, step))
  {
    var t := Apply(s, step);
    StepKeepsTokens(s, step);
    if t.result.Some? && t.result.value.lockToken.Some? {
      StepKeepsHolder(s, step);
    }
    if Terminal(t.result) {
      forall r ensures !MayFinalise(t, r) {
        StepKeepsTerminal(s, step, r);
      }
    }
  }

  /** A finished settlement is undone by nothing except the save of a reset. */
  lemma OnlyResetsLeaveTerminal(s: State, step: Step)
    requires LockInv(s) && Enabled(s, step) && Terminal(s.result)
    ensures Apply(s, step).result != s.result <==> step == SaveReset
    ensures step == SaveReset ==> Apply(s, step).result.value.status == NotStarted
  {
    match step
    case SkipEmpty(r) => assert !MayFinalise(s, r);
    case Finish(r) => assert !MayFinalise(s, r);
    case Fail(r) => assert !MayFinalise(s, r);
    case _ =>
  }

  /** The reset reads the row and saves it later: the save must still find it FAILED. */
  predicate ResetsInTime(s: State, steps: seq<Step>)
    requires Runs(s, steps)
    decreases |steps|
  {
    steps == []
    || (&& (steps[0] == SaveReset ==> s.result.value.status == Failed)
        && ResetsInTime(Apply(s, steps[0]), steps[1..]))
  }

  /** With resets that save in time, SETTLED and SKIPPED are final over every run. */
  lemma {:induction false} TerminalIsFinal(s: State, steps: seq<Step>)
    requires LockInv(s) && Runs(s, steps) && ResetsInTime(s, steps) && Terminal(s.result)
    ensures After(s, steps).result == s.result
    decreases |steps|
  {
    if steps != [] {
      OnlyResetsLeaveTerminal(s, steps[0]);
      StepKeepsLockInv(s, steps[0]);
      TerminalIsFinal(Apply(s, steps[0]), steps[1..]);
    }
  }

  lemma {:induction false} LockInvHolds(s: State, steps: seq<Step>)
    requires LockInv(s) && Runs(s, steps)
    ensures LockInv(After(s, steps))
    decreases |steps|
  {
    if steps != [] {
      StepKeepsLockInv(s, steps[0]);
      LockInvHolds(Apply(s, steps[0]), steps[1..]);
    }
  }

  /** From the start of a contest's settlement, over every interleaving. */
  lemma SettlementIsFinal(s: State, steps: seq<Step>, more: seq<Step>)
    requires Initial(s) && Runs(s, steps) && Runs(After(s, steps), more)
    requires Terminal(After(s, steps).result) && ResetsInTime(After(s, steps), more)
    ensures After(After(s, steps), more).result == After(s, steps).result
  {
    LockInvHolds(s, steps);
    TerminalIsFinal(After(s, steps), more);
  }
}
