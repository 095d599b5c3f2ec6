/** The join and cancel calls as the services make them; each is a run of the protocol. */
module JoinService {
  import opened ContestStatuses
  import opened JoinCall
  import opened JoinMoney
  import opened JoinOutcomes
  import opened JoinSaga
  import opened Options

  class JoinStore {
    var contests: map<ContestId, Contest>
    var entries: map<JoinId, Entry>
    var ledger: map<Key, Posting>
    ghost var writers: map<ContestId, JoinId>
    ghost var joins: map<JoinId, Join>
    ghost var sweeps: map<ContestId, Sweep>

    constructor (contests: map<ContestId, Contest>)
      requires forall c :: c in contests ==> contests[c].filledSpots == 0
      ensures Initial(Contents()) && Contents().contests == contests
    {
      this.contests, entries, ledger := contests, map[], map[];
      writers, joins, sweeps := map[], map[], map[];
    }

    ghost function Contents(): State
      reads this
    {
      State(contests, writers, entries, joins, sweeps, ledger)
    }

    /** The request, and the guarded increment; the new count becomes visible with the commit. */
    method IncrementFilledSpot(ghost id: JoinId, c: ContestId, ghost user: UserId, ghost team: TeamId, ghost key: nat)
      returns (claimed: bool)
      requires id !in joins && c in contests && c !in writers
      modifies this`joins, this`writers
      ensures claimed <==> SpotLeft(contests[c])
      ensures claimed <==>
                (contests[c].status == Open || contests[c].status == Scheduled) && contests[c].filledSpots < contests[c].totalSpots
      ensures Contents() == InTransaction(old(Contents()), id, c, user, team, key, if claimed then WalletRefused else ContestFull)
    {
      claimed := (contests[c].status == Open || contests[c].status == Scheduled)
                 && contests[c].filledSpots < contests[c].totalSpots;
      joins := joins[id := JoinSaga.Join(c, user, team, key, if claimed then SpotClaimed else Requested, false)];
      writers := if claimed then writers[c := id] else writers;
    }

    /** The wallet call: refused when the wallet is down or the key was used for something else. */
    method LockForContest(ghost id: JoinId, c: ContestId, user: UserId, key: nat, walletUp: bool) returns (ok: bool)
      requires id in joins && c in contests && FeeDue(contests[c])
      modifies this`ledger, this`joins
      ensures ok <==> !LockRefused(old(Contents()), c, user, key, walletUp)
      ensures ledger == if ok then LockPosted(old(Contents()), c, user, key) else old(ledger)
      ensures joins == if ok then old(joins)[id := old(joins)[id].(locked := true)] else old(joins)
    {
      var k, fee := Lock(user, key), contests[c].entryFee;
      ok := walletUp && (k in ledger ==> ledger[k].locks && ledger[k].amount == fee);
      if ok {
        if k !in ledger {
          ledger := ledger[k := Posting(c, user, true, fee)];
        }
        joins := joins[id := joins[id].(locked := true)];
      }
    }

    /** Practice and free contests lock nothing. */
    method LockIfDue(ghost id: JoinId, c: ContestId, user: UserId, key: nat, walletUp: bool) returns (ok: bool, locked: bool)
      requires id in joins && !joins[id].locked && c in contests
      modifies this`ledger, this`joins
      ensures ok <==> !LockRefused(old(Contents()), c, user, key, walletUp)
      ensures locked <==> ok && FeeDue(contests[c])
      ensures ledger == if ok then LockPosted(old(Contents()), c, user, key) else old(ledger)
      ensures joins == old(joins)[id := old(joins)[id].(locked := locked)]
    {
      hide LockPosted, LockRefused;
      NoFeeNoLock(Contents(), c, user, key, walletUp);
      ok, locked := true, false;
      if !contests[c].isPractice && contests[c].entryFee > 0 {
        ok := LockForContest(id, c, user, key, walletUp);
        locked := ok;
      }
    }

    /** `keyInFlight` says that another open transaction has inserted a row under the key. */
    method InsertEntry(ghost id: JoinId, c: ContestId, user: UserId, team: TeamId, key: nat, keyInFlight: bool)
      returns (inserted: bool)
      requires id in joins && keyInFlight == KeyInFlight(Contents(), id, user, key)
      modifies this`joins
      ensures inserted <==> !RowRefused(old(Contents()), id, c, user, team, key)
      ensures joins == if inserted then old(joins)[id := old(joins)[id].(stage := Inserted)] else old(joins)
    {
      inserted := !(exists e :: e in entries && entries[e].active && entries[e].contest == c && entries[e].team == team)
                  && !(exists e :: e in entries && entries[e].user == user && entries[e].key == key) && !keyInFlight;
      if inserted {
        joins := joins[id := joins[id].(stage := Inserted)];
      }
    }

    /** The transaction commits: entry row, spot, and FULL when capacity is reached. */
    method CommitJoin(id: JoinId, c: ContestId, user: UserId, team: TeamId, key: nat)
      requires id in joins && c in contests
      modifies this`contests, this`entries, this`joins, this`writers
      ensures entries == old(entries)[id := Entry(c, user, team, key, old(contests)[c].entryFee, true)]
      ensures contests == old(contests)[c := Filled(old(contests)[c])]
      ensures contests[c].filledSpots == old(contests)[c].filledSpots + 1
      ensures contests[c].status
           == if old(contests)[c].status == Open && contests[c].filledSpots >= contests[c].totalSpots then Full
              else old(contests)[c].status
      ensures joins == old(joins)[id := old(joins)[id].(stage := Committed)] && writers == old(writers) - {c}
    {
      var contest := contests[c];
      entries := entries[id := Entry(c, user, team, key, contest.entryFee, true)];
      contest := contest.(filledSpots := contest.filledSpots + 1);
      if contest.filledSpots >= contest.totalSpots && contest.status == Open {
        contest := contest.(status := Full);
      }
      contests := contests[c := contest];
      joins := joins[id := joins[id].(stage := Committed)];
      writers := writers - {c};
    }

    /** The transaction is dropped; none of its writes become visible. */
    method AbortTransaction(ghost id: JoinId, ghost c: ContestId)
      requires id in joins
      modifies this`joins, this`writers
      ensures joins == old(joins)[id := old(joins)[id].(stage := Aborted)]
      ensures writers == if old(joins)[id].stage == Requested then old(writers) else old(writers) - {c}
    {
      writers := if joins[id].stage == Requested then writers else writers - {c};
      joins := joins[id := joins[id].(stage := Aborted)];
    }

    /** Gives back the fee locked for a join that was rolled back. */
    method RefundContest(ghost id: JoinId, c: ContestId, user: UserId, key: nat)
      requires id in joins && c in contests
      modifies this`ledger, this`joins
      ensures ledger == Post(old(ledger), Rollback(user, key), Posting(c, user, false, contests[c].entryFee))
      ensures joins == old(joins)[id := old(joins)[id].(stage := RolledBack)]
    {
      var k := Rollback(user, key);
      if k !in ledger {
        ledger := ledger[k := Posting(c, user, false, contests[c].entryFee)];
      }
      joins := joins[id := joins[id].(stage := RolledBack)];
    }

    /** The rollback path: a lock that was taken is refunded; a refund that throws is only logged. */
    method HandleJoinRollback(ghost id: JoinId, c: ContestId, user: UserId, key: nat, locked: bool, refundUp: bool)
      requires id in joins && c in contests && joins[id].locked == locked
      requires joins[id].contest == c && joins[id].user == user && joins[id].key == key
      modifies this`joins, this`writers, this`ledger
      ensures Contents() == Dropped(old(Contents()), id, refundUp)
    {
      AbortTransaction(id, c);
      if locked && contests[c].entryFee > 0 && refundUp {
        RefundContest(id, c, user, key);
      }
    }

    /** The transaction body after the spot was claimed. */
    method LockInsertCommit(id: JoinId, c: ContestId, user: UserId, team: TeamId, key: nat, walletUp: bool, keyInFlight: bool)
      returns (outcome: JoinOutcome, locked: bool)
      requires id in joins && joins[id] == JoinSaga.Join(c, user, team, key, SpotClaimed, false)
      requires c in contests && SpotLeft(contests[c])
      requires keyInFlight == KeyInFlight(Contents(), id, user, key)
      modifies this`contests, this`entries, this`joins, this`writers, this`ledger
      ensures OutcomeIs(old(Contents()), id, c, user, team, key, walletUp, outcome)
      ensures outcome != ContestFull && locked == (outcome != WalletRefused && FeeDue(old(contests)[c]))
      ensures Contents() == Transacted(old(Contents()), id, c, user, team, key, outcome)
    {
      hide LockPosted, LockRefused, RowRefused, SpotLeft, Filled, KeyInFlight;
      var ok;
      ok, locked := LockIfDue(id, c, user, key, walletUp);
      if !ok {
        return WalletRefused, false;
      }
      SameRows(old(Contents()), Contents(), id, c, user, team, key);
      var inserted := InsertEntry(id, c, user, team, key, keyInFlight);
      if !inserted {
        return TeamAlreadyJoined, locked;
      }
      CommitJoin(id, c, user, team, key);
      outcome := Joined;
    }

    /** The transaction, from the request on. */
    method RunTransaction(id: JoinId, c: ContestId, user: UserId, team: TeamId, key: nat, walletUp: bool, keyInFlight: bool)
      returns (outcome: JoinOutcome, locked: bool)
      requires id !in joins && c in contests && c !in writers
      requires keyInFlight == KeyInFlight(Contents(), id, user, key)
      modifies this`contests, this`entries, this`joins, this`writers, this`ledger
      ensures OutcomeIs(old(Contents()), id, c, user, team, key, walletUp, outcome)
      ensures locked == ((outcome == Joined || outcome == TeamAlreadyJoined) && FeeDue(old(contests)[c]))
      ensures Contents() == InTransaction(old(Contents()), id, c, user, team, key, outcome)
    {
      hide OutcomeIs, InTransaction, Transacted, KeyInFlight;
      ghost var start := Contents();
      var claimed := IncrementFilledSpot(id, c, user, team, key);
      if !claimed {
        NoSpot(start, id, c, user, team, key, walletUp);
        return ContestFull, false;
      }
      ClaimedTransaction(start, id, c, user, team, key, walletUp, Joined);
      outcome, locked := LockInsertCommit(id, c, user, team, key, walletUp, keyInFlight);
      ClaimedTransaction(start, id, c, user, team, key, walletUp, outcome);
    }

    /** A validated request, run without interference on its contest. */
    method Join(id: JoinId, c: ContestId, user: UserId, team: TeamId, key: nat,
                walletUp: bool, refundUp: bool, keyInFlight: bool)
      returns (outcome: JoinOutcome, ghost steps: seq<Step>)
      requires id !in joins && id !in entries && c in contests && c !in writers
      requires keyInFlight == KeyInFlight(Contents(), id, user, key)
      modifies this
      ensures Runs(old(Contents()), steps) && Contents() == After(old(Contents()), steps)
      ensures OutcomeIs(old(Contents()), id, c, user, team, key, walletUp, outcome)
      ensures Contents() == AfterJoin(old(Contents()), id, c, user, team, key, refundUp, outcome)
    {
      hide Runs, After, OutcomeIs, InTransaction, Dropped, WithEntry, WithoutEntry;
      ghost var start := Contents();
      var locked;
      outcome, locked := RunTransaction(id, c, user, team, key, walletUp, keyInFlight);
      if outcome != Joined {
        DroppedTransaction(start, id, c, user, team, key, refundUp, outcome);
        HandleJoinRollback(id, c, user, key, locked, refundUp);
      } else {
        CommittedTransaction(start, id, c, user, team, key, refundUp);
      }
      steps := JoinIsARun(start, id, c, user, team, key, walletUp, refundUp, outcome);
    }

    // ---- Status changes ------------------------------------------------------------------------

    /** Compare-and-set: changes the status only while it is one of `expected`. */
    method SetStatus(c: ContestId, target: ContestStatus, expected: set<ContestStatus>) returns (changed: bool)
      modifies this`contests
      ensures changed <==> c in old(contests) && old(contests)[c].status in expected
      ensures contests == if changed then old(contests)[c := old(contests)[c].(status := target)] else old(contests)
    {
      changed := c in contests && contests[c].status in expected;
      if changed {
        contests := contests[c := contests[c].(status := target)];
      }
    }

    /** An administrator's status change, checked against the transition table. */
    method TransitionStatus(c: ContestId, target: ContestStatus) returns (changed: bool)
      requires c !in writers
      modifies this`contests
      ensures changed <==> Enabled(old(Contents()), Transition(c, target))
      ensures Contents() == if changed then Apply(old(Contents()), Transition(c, target)) else old(Contents())
      ensures changed ==> StatusRank(old(contests)[c].status) < StatusRank(target)
    {
      if c !in contests || target !in AllowedTransitions(contests[c].status) {
        return false;
      }
      changed := SetStatus(c, target, {contests[c].status});
    }

    // ---- Cancellation --------------------------------------------------------------------------

    /** The wallet call of a refund, under the key of the entry. */
    method RefundFee(c: ContestId, e: JoinId)
      requires Enabled(Contents(), RefundEntry(c, e))
      modifies this`ledger, this`sweeps
      ensures Contents() == Apply(old(Contents()), RefundEntry(c, e))
    {
      var entry := entries[e];
      if entry.fee > 0 && Refund(e) !in ledger {
        ledger := ledger[Refund(e) := Posting(c, entry.user, false, entry.fee)];
      }
      sweeps := sweeps[c := sweeps[c].(inHand := Some(e))];
    }

    method MarkEntryRefunded(c: ContestId, e: JoinId)
      requires Enabled(Contents(), MarkRefunded(c)) && sweeps[c].inHand == Some(e)
      modifies this`entries, this`sweeps
      ensures Contents() == Apply(old(Contents()), MarkRefunded(c))
    {
      entries := entries[e := entries[e].(active := false)];
      sweeps := sweeps[c := Sweep(Some(sweeps[c].todo.value - {e}), None)];
    }

    /** Refunds one entry: wallet first, then the status. */
    method RefundOne(c: ContestId, e: JoinId) returns (ghost steps: seq<Step>)
      requires Enabled(Contents(), RefundEntry(c, e))
      modifies this
      ensures Runs(old(Contents()), steps) && Contents() == After(old(Contents()), steps)
      ensures contests == old(contests) && c in sweeps && old(sweeps)[c].todo.Some?
      ensures sweeps[c] == Sweep(Some(old(sweeps)[c].todo.value - {e}), None)
      ensures e in entries && entries == old(entries)[e := old(entries)[e].(active := false)]
      ensures ledger == if entries[e].fee == 0 then old(ledger)
                        else Post(old(ledger), Refund(e), Posting(c, entries[e].user, false, entries[e].fee))
    {
      ghost var start := Contents();
      RefundFee(c, e);
      ghost var s := Contents();
      OneMoreStep(start, [], start, RefundEntry(c, e), s);
      MarkEntryRefunded(c, e);
      OneMoreStep(start, [] + [RefundEntry(c, e)], s, MarkRefunded(c), Contents());
      steps := [] + [RefundEntry(c, e)] + [MarkRefunded(c)];
    }

    /** The refund loop; `budget` entries are refunded before a wallet call throws. */
    method RefundAllEntries(c: ContestId, refundList: set<JoinId>, budget: nat)
      returns (finished: bool, ghost steps: seq<Step>)
      requires c in sweeps && sweeps[c] == Sweep(Some(refundList), None) && refundList <= entries.Keys
      modifies this
      ensures Runs(old(Contents()), steps) && Contents() == After(old(Contents()), steps)
      ensures contests == old(contests)
      ensures finished ==> SweepFinished(Contents(), c)
      ensures finished <==> budget >= |refundList|
    {
      ghost var start := Contents();
      steps := [];
      var left, calls := refundList, budget;
      while left != {} && calls > 0
        invariant left <= entries.Keys && c in sweeps && sweeps[c] == Sweep(Some(left), None)
        invariant contests == old(contests)
        invariant Runs(start, steps) && Contents() == After(start, steps)
        invariant calls >= 0 && calls - |left| == budget - |refundList|
        decreases calls
      {
        var e :| e in left;
        ghost var one := RefundOne(c, e);
        RunsConcat(start, steps, one);
        steps := steps + one;
        left, calls := left - {e}, calls - 1;
      }
      finished := left == {};
      assert finished <==> |left| == 0;
    }

    /** Flips the status of a contest that is neither COMPLETED nor CANCELLED. */
    method FlipToCancelled(c: ContestId) returns (cancelled: bool)
      requires c in contests && c !in writers
      modifies this`contests, this`sweeps
      ensures cancelled <==> old(contests)[c].status != Completed && old(contests)[c].status != Cancelled
      ensures cancelled <==> Enabled(old(Contents()), Cancel(c))
      ensures Contents() == if cancelled then Apply(old(Contents()), Cancel(c)) else old(Contents())
    {
      cancelled := SetStatus(c, Cancelled, CANCELLABLE);
      if cancelled {
        sweeps := sweeps[c := Sweep(None, None)];
      }
    }

    method FindActiveForContest(c: ContestId) returns (refundList: set<JoinId>)
      requires Enabled(Contents(), ReadActive(c))
      modifies this`sweeps
      ensures refundList == set e | e in entries && entries[e].active && entries[e].contest == c
      ensures Contents() == Apply(old(Contents()), ReadActive(c))
      ensures c in sweeps && sweeps[c] == Sweep(Some(refundList), None)
    {
      refundList := set e | e in entries && entries[e].active && entries[e].contest == c;
      sweeps := sweeps[c := Sweep(Some(refundList), None)];
    }

    /** Flips the status, reads the ACTIVE entries and refunds them. */
    method CancelContest(c: ContestId, budget: nat) returns (cancelled: bool, finished: bool, ghost steps: seq<Step>)
      requires c in contests && c !in writers
      modifies this
      ensures Runs(old(Contents()), steps) && Contents() == After(old(Contents()), steps)
      ensures cancelled <==> old(contests)[c].status != Completed && old(contests)[c].status != Cancelled
      ensures !cancelled ==> Contents() == old(Contents()) && !finished
      ensures cancelled ==> contests == old(contests)[c := old(contests)[c].(status := Cancelled)]
      ensures finished ==> SweepFinished(Contents(), c)
      ensures finished <==> cancelled && budget >= |set e | e in old(entries) && old(entries)[e].active && old(entries)[e].contest == c|
    {
      ghost var start := Contents();
      steps := [];
      finished := false;
      cancelled := FlipToCancelled(c);
      if !cancelled {
        return;
      }
      ghost var s := Contents();
      OneMoreStep(start, steps, start, Cancel(c), s);
      steps := steps + [Cancel(c)];
      var refundList := FindActiveForContest(c);
      OneMoreStep(start, steps, s, ReadActive(c), Contents());
      steps := steps + [ReadActive(c)];
      ghost var rest;
      hide Runs, After;
      finished, rest := RefundAllEntries(c, refundList, budget);
      RunsConcat(start, steps, rest);
      steps := steps + rest;
    }
  }
}
