/** Every call of the settlement service is a run of the settlement protocol. */
module SettlementRuns {
  import opened ContestSettlement
  import opened ContestStatuses
  import opened Options
  import opened Prizes
  import opened SettlementProtocol
  import opened WinningAllocation

  /** The store as the protocol sees it. */
  predicate Represents(s: State, store: Store)
  {
    s.snapshot == store.snapshot && s.books == store.books && s.result == store.result
  }

  predicate FreshToken(s: State, token: Token)
  {
    forall i :: 0 <= i < |s.runs| ==> s.runs[i].token != token
  }

  /** `t` differs from `s` at most in the books and in the run `r`, which has not ended. */
  predicate Underway(s: State, t: State, r: nat)
  {
    && r < |s.runs| && t == s.(books := t.books, runs := t.runs) && |t.runs| == |s.runs|
    && t.runs == s.runs[r := t.runs[r]] && t.runs[r].token == s.runs[r].token && t.runs[r].phase != Ended
  }

  /** The run `r` stands before the allocation at `i`, having done what `p` says. */
  predicate Standing(t: State, r: nat, allocations: seq<Allocated>, i: nat, p: PayState)
  {
    && r < |t.runs| && t.books == p.books
    && t.runs[r].phase == Paying && t.runs[r].allocations == allocations && t.runs[r].next == i && !t.runs[r].inHand
    && t.runs[r].paid == p.paid && t.runs[r].winners == p.winners
  }

  /** Credit and mark of one entry, as far as the writes succeed. */
  lemma PayOneRuns(t: State, r: nat, allocations: seq<Allocated>, i: nat, p: PayState) returns (steps: seq<Step>)
    requires Standing(t, r, allocations, i, p) && i < |allocations| && !p.failed
    ensures var q := PayOne(p, allocations[i], Gate(t));
            && Runs(t, steps) && Underway(t, After(t, steps), r) && After(t, steps).books == q.books
            && (!q.failed ==> Standing(After(t, steps), r, allocations, i + 1, q))
  {
    hide MarkSettled;
    var a, gate := allocations[i], Gate(t);
    steps := [];
    var u := t;
    if ShouldPay(a, gate) && !CreditOne(p, a, gate).failed {
      u := Apply(t, Credit(r, false));
      OneMoreStep(t, [], t, Credit(r, false), u);
      steps := [] + [Credit(r, false)];
    }
    if !PayOne(p, a, gate).failed {
      var v := Apply(u, Mark(r));
      OneMoreStep(t, steps, u, Mark(r), v);
      steps := steps + [Mark(r)];
    }
  }

  lemma UnderwayThrough(s: State, t: State, u: State, r: nat)
    requires Underway(s, t, r) && Underway(t, u, r)
    ensures Underway(s, u, r)
  {
  }

  /** The pay loop over the first `i` allocations. */
  lemma {:induction false} PayAllRuns(t: State, r: nat, allocations: seq<Allocated>, i: nat, p: PayState)
    returns (steps: seq<Step>)
    requires Standing(t, r, allocations, 0, p) && i <= |allocations| && !p.failed
    ensures var q := PayAll(p, allocations[..i], Gate(t));
            && Runs(t, steps) && Underway(t, After(t, steps), r) && After(t, steps).books == q.books
            && (!q.failed ==> Standing(After(t, steps), r, allocations, i, q))
  {
    hide PayOne;
    if i == 0 {
      steps := [];
    } else {
      assert allocations[..i][..i - 1] == allocations[..i - 1];
      var before := PayAll(p, allocations[..i - 1], Gate(t));
      steps := PayAllRuns(t, r, allocations, i - 1, p);
      var u := After(t, steps);
      if before.failed {
        FailedStays(before, allocations[i - 1], Gate(t));
      } else {
        var more := PayOneRuns(u, r, allocations, i - 1, before);
        RunsConcat(t, steps, more);
        UnderwayThrough(t, u, After(u, more), r);
        steps := steps + more;
      }
    }
  }

  lemma FailedStays(p: PayState, a: Allocated, gate: bool)
    requires p.failed
    ensures PayOne(p, a, gate) == p
  {
  }

  /** A call that gets the claim: from the loaded allocations to the final write of the result row. */
  lemma PaidRuns(s: State, r: nat, p: PayState, budget: nat) returns (steps: seq<Step>)
    requires r < |s.runs|
    requires Standing(s, r, s.runs[r].allocations, 0, PayState(s.books, 0, 0, budget, false))
    requires p == PayAll(PayState(s.books, 0, 0, budget, false), s.runs[r].allocations, Gate(s))
    ensures Runs(s, steps)
    ensures After(s, steps).books == p.books && After(s, steps).snapshot == s.snapshot && |After(s, steps).runs| == |s.runs|
    ensures After(s, steps).result
         == if p.failed || p.budget <= 1 then Finalised(s.result, s.runs[r].token, Failed, 0, 0, 0)
            else Finalised(s.result, s.runs[r].token, Settled, p.paid, Commission(s.snapshot.poolAmount, p.paid), p.winners)
  {
    var allocations := s.runs[r].allocations;
    assert allocations[..|allocations|] == allocations;
    steps := PayAllRuns(s, r, allocations, |allocations|, PayState(s.books, 0, 0, budget, false));
    var t := After(s, steps);
    var last := if p.failed || p.budget <= 1 then Fail(r) else Finish(r);
    OneMoreStep(s, steps, t, last, Apply(t, last));
    steps := steps + [last];
  }

  /** What the service does to the store is what some run of the protocol does, with at most one claim. */
  lemma SettleIsARun(s: State, store: Store, token: Token, points: map<Id, real>, force: bool, budget: nat)
    returns (steps: seq<Step>)
    requires Represents(s, store) && FreshToken(s, token)
    ensures Runs(s, steps) && Represents(After(s, steps), Settle(store, token, points, force, budget).0)
    ensures var outcome := Settle(store, token, points, force, budget).1;
            if outcome.NotSettleable? || outcome.AlreadySettled? || outcome.Busy? then steps == []
            else |After(s, steps).runs| == |s.runs| + 1
  {
    hide ActiveEntries, Allocation, PayAll, Finalised, Claimed, Commission, SnapshotHasPayouts;
    var total := |ActiveEntries(store.books.entries, points)|;
    steps := [];
    if (!force && store.status != Completed && store.status != Live)
       || (store.result.Some? && store.result.value.status == Settled) || !Claimable(store.result) {
      return;
    }
    var r := |s.runs|;
    var claimed := Apply(s, Claim(token, total));
    OneMoreStep(s, [], s, Claim(token, total), claimed);
    steps := [] + [Claim(token, total)];
    if total == 0 {
      var last := if budget == 0 then Fail(r) else SkipEmpty(r);
      OneMoreStep(s, steps, claimed, last, Apply(claimed, last));
      steps := steps + [last];
    } else {
      var loaded := Apply(claimed, Load(r, points));
      OneMoreStep(s, steps, claimed, Load(r, points), loaded);
      steps := steps + [Load(r, points)];
      var rest := PaidRuns(loaded, r, Paid(store, points, budget), budget);
      RunsConcat(s, steps, rest);
      steps := steps + rest;
    }
  }
}
