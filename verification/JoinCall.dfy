/** What one join call does, alone on its contest, and that it is a run of the protocol. */
module JoinCall {
  import opened ContestStatuses
  import opened JoinMoney
  import opened JoinSaga
  import opened Options
  import opened Sums

  datatype JoinOutcome = Joined | ContestFull | WalletRefused | TeamAlreadyJoined

  predicate SpotLeft(contest: Contest)
  {
    contest.status in JOINABLE && contest.filledSpots < contest.totalSpots
  }

  /** A fee is due, and the wallet is down or the key was used for something else. */
  predicate LockRefused(s: State, c: ContestId, user: UserId, key: nat, walletUp: bool)
    requires c in s.contests
  {
    var k, fee := Lock(user, key), s.contests[c].entryFee;
    FeeDue(s.contests[c]) && !(walletUp && (k in s.ledger ==> s.ledger[k].locks && s.ledger[k].amount == fee))
  }

  /** A unique index stands in the way: the team is in the contest, or the key has an entry or is getting one. */
  predicate RowRefused(s: State, id: JoinId, c: ContestId, user: UserId, team: TeamId, key: nat)
  {
    TeamActive(s, c, team) || KeyStored(s, user, key) || KeyInFlight(s, id, user, key)
  }

  /** What decides how a call ends. */
  predicate OutcomeIs(s: State, id: JoinId, c: ContestId, user: UserId, team: TeamId, key: nat, walletUp: bool, outcome: JoinOutcome)
    requires c in s.contests
  {
    var full, unpaid := !SpotLeft(s.contests[c]), LockRefused(s, c, user, key, walletUp);
    var refused := RowRefused(s, id, c, user, team, key);
    && (outcome == ContestFull <==> full)
    && (outcome == WalletRefused <==> !full && unpaid)
    && (outcome == TeamAlreadyJoined <==> !full && !unpaid && refused)
    && (outcome == Joined <==> !full && !unpaid && !refused)
  }

  function LockPosted(s: State, c: ContestId, user: UserId, key: nat): map<Key, Posting>
    requires c in s.contests
  {
    if FeeDue(s.contests[c]) then Post(s.ledger, Lock(user, key), Posting(c, user, true, s.contests[c].entryFee)) else s.ledger
  }

  /** The store after the entry was committed. */
  function WithEntry(s: State, id: JoinId, c: ContestId, user: UserId, team: TeamId, key: nat): State
    requires c in s.contests
  {
    var contest := s.contests[c];
    s.(joins := s.joins[id := Join(c, user, team, key, Committed, FeeDue(contest))],
       entries := s.entries[id := Entry(c, user, team, key, contest.entryFee, true)],
       contests := s.contests[c := Filled(contest)], ledger := LockPosted(s, c, user, key))
  }

  /** The store after a refused insert: the lock that was taken is given back if the wallet answers. */
  function WithoutEntry(s: State, id: JoinId, c: ContestId, user: UserId, team: TeamId, key: nat, refundUp: bool): State
    requires c in s.contests
  {
    var due, posted := FeeDue(s.contests[c]), LockPosted(s, c, user, key);
    s.(joins := s.joins[id := Join(c, user, team, key, if due && refundUp then RolledBack else Aborted, due)],
       ledger := if due && refundUp then Post(posted, Rollback(user, key), Posting(c, user, false, s.contests[c].entryFee))
                 else posted)
  }

  /** The store when the transaction commits, or is about to be dropped. */
  function InTransaction(s: State, id: JoinId, c: ContestId, user: UserId, team: TeamId, key: nat, outcome: JoinOutcome): State
    requires c in s.contests
  {
    match outcome
    case Joined => WithEntry(s, id, c, user, team, key)
    case ContestFull => s.(joins := s.joins[id := Join(c, user, team, key, Requested, false)])
    case WalletRefused =>
      s.(joins := s.joins[id := Join(c, user, team, key, SpotClaimed, false)], writers := s.writers[c := id])
    case TeamAlreadyJoined =>
      s.(joins := s.joins[id := Join(c, user, team, key, SpotClaimed, FeeDue(s.contests[c]))],
         writers := s.writers[c := id], ledger := LockPosted(s, c, user, key))
  }

  /** The open transaction `t` after lock and insert. */
  function Transacted(t: State, id: JoinId, c: ContestId, user: UserId, team: TeamId, key: nat, outcome: JoinOutcome): State
    requires c in t.contests
  {
    match outcome
    case Joined => WithEntry(t, id, c, user, team, key).(writers := t.writers - {c})
    case TeamAlreadyJoined =>
      t.(joins := t.joins[id := Join(c, user, team, key, SpotClaimed, FeeDue(t.contests[c]))],
         ledger := LockPosted(t, c, user, key))
    case _ => t
  }

  /** A dropped transaction, and the refund of its lock if the wallet answers. */
  function Dropped(t: State, id: JoinId, refundUp: bool): State
    requires id in t.joins && t.joins[id].contest in t.contests
  {
    var join := t.joins[id];
    var fee := ContestOf(t, id).entryFee;
    var refunded := join.locked && fee > 0 && refundUp;
    t.(joins := t.joins[id := join.(stage := if refunded then RolledBack else Aborted)],
       writers := if join.stage == Requested then t.writers else t.writers - {join.contest},
       ledger := if refunded then Post(t.ledger, Rollback(join.user, join.key), Posting(join.contest, join.user, false, fee))
                 else t.ledger)
  }

  /** The store after a call with the given outcome. */
  function AfterJoin(s: State, id: JoinId, c: ContestId, user: UserId, team: TeamId, key: nat,
                     refundUp: bool, outcome: JoinOutcome): State
    requires c in s.contests
  {
    match outcome
    case Joined => WithEntry(s, id, c, user, team, key)
    case TeamAlreadyJoined => WithoutEntry(s, id, c, user, team, key, refundUp)
    case _ => s.(joins := s.joins[id := Join(c, user, team, key, Aborted, false)])
  }

  /** The steps of one call up to the lock. */
  lemma LockedIsARun(s: State, id: JoinId, c: ContestId, user: UserId, team: TeamId, key: nat) returns (steps: seq<Step>)
    requires id !in s.joins && id !in s.entries && c in s.contests && c !in s.writers
    requires SpotLeft(s.contests[c]) && !LockRefused(s, c, user, key, true)
    ensures Runs(s, steps)
    ensures After(s, steps) == InTransaction(s, id, c, user, team, key, TeamAlreadyJoined)
  {
    steps := ClaimedIsARun(s, id, c, user, team, key);
    if FeeDue(s.contests[c]) {
      var t := After(s, steps);
      assert Enabled(t, LockFee(id));
      OneMoreStep(s, steps, t, LockFee(id), Apply(t, LockFee(id)));
      steps := steps + [LockFee(id)];
    }
  }

  lemma ClaimedIsARun(s: State, id: JoinId, c: ContestId, user: UserId, team: TeamId, key: nat) returns (steps: seq<Step>)
    requires id !in s.joins && id !in s.entries && c in s.contests && c !in s.writers
    requires SpotLeft(s.contests[c])
    ensures Runs(s, steps)
    ensures After(s, steps) == InTransaction(s, id, c, user, team, key, WalletRefused)
  {
    var t := Apply(s, Request(id, c, user, team, key));
    OneMoreStep(s, [], s, Request(id, c, user, team, key), t);
    OneMoreStep(s, [] + [Request(id, c, user, team, key)], t, ClaimSpot(id), Apply(t, ClaimSpot(id)));
    steps := [] + [Request(id, c, user, team, key)] + [ClaimSpot(id)];
  }

  lemma DroppedIsARun(s: State, before: seq<Step>, t: State, id: JoinId, refundUp: bool) returns (steps: seq<Step>)
    requires Runs(s, before) && After(s, before) == t && (At(t, id, Requested) || At(t, id, SpotClaimed))
    ensures Runs(s, steps) && After(s, steps) == Dropped(t, id, refundUp)
  {
    var u := Apply(t, Abort(id));
    OneMoreStep(s, before, t, Abort(id), u);
    steps := before + [Abort(id)];
    if t.joins[id].locked && ContestOf(t, id).entryFee > 0 && refundUp {
      OneMoreStep(s, steps, u, RefundRollback(id), Apply(u, RefundRollback(id)));
      steps := steps + [RefundRollback(id)];
    }
  }

  /** Every answer of a call has its exact condition, in terms of the store before it. */
  lemma AnswerIs(s: State, id: JoinId, c: ContestId, user: UserId, team: TeamId, key: nat, walletUp: bool, outcome: JoinOutcome)
    requires c in s.contests && OutcomeIs(s, id, c, user, team, key, walletUp, outcome)
    ensures var contest, k := s.contests[c], Lock(user, key);
            var joinable := (contest.status == Open || contest.status == Scheduled) && contest.filledSpots < contest.totalSpots;
            var free := contest.isPractice || contest.entryFee == 0;
            var locked := walletUp && (k !in s.ledger || (s.ledger[k].locks && s.ledger[k].amount == contest.entryFee));
            var taken := || (exists e :: e in s.entries && s.entries[e].active && s.entries[e].contest == c && s.entries[e].team == team)
                         || (exists e :: e in s.entries && s.entries[e].user == user && s.entries[e].key == key)
                         || (exists j :: j in s.joins && j != id && s.joins[j].stage == Inserted
                                         && s.joins[j].user == user && s.joins[j].key == key);
      && (outcome == ContestFull <==> !joinable)
      && (outcome == WalletRefused <==> joinable && !free && !locked)
      && (outcome == TeamAlreadyJoined <==> joinable && (free || locked) && taken)
      && (outcome == Joined <==> joinable && (free || locked) && !taken)
  {
    hide OutcomeIs;
    OutcomeUnfolds(s, id, c, user, team, key, walletUp, outcome);
  }

  lemma OutcomeUnfolds(s: State, id: JoinId, c: ContestId, user: UserId, team: TeamId, key: nat, walletUp: bool, outcome: JoinOutcome)
    requires c in s.contests && OutcomeIs(s, id, c, user, team, key, walletUp, outcome)
    ensures outcome == ContestFull <==> !SpotLeft(s.contests[c])
    ensures outcome == WalletRefused <==> SpotLeft(s.contests[c]) && LockRefused(s, c, user, key, walletUp)
    ensures outcome == TeamAlreadyJoined <==>
              SpotLeft(s.contests[c]) && !LockRefused(s, c, user, key, walletUp) && RowRefused(s, id, c, user, team, key)
    ensures outcome == Joined <==>
              SpotLeft(s.contests[c]) && !LockRefused(s, c, user, key, walletUp) && !RowRefused(s, id, c, user, team, key)
  {
  }

  /**
   * A join that succeeds adds its entry and one spot; the contest becomes FULL
   * exactly when it was OPEN and that was the last spot. No other answer changes
   * contests or entries.
   */
  lemma JoinedContest(s: State, id: JoinId, c: ContestId, user: UserId, team: TeamId, key: nat, refundUp: bool, outcome: JoinOutcome)
    requires c in s.contests
    ensures var before, t := s.contests[c], AfterJoin(s, id, c, user, team, key, refundUp, outcome);
      && (outcome != Joined ==> t.contests == s.contests && t.entries == s.entries)
      && (outcome == Joined ==>
            && t.contests.Keys == s.contests.Keys && t.entries.Keys == s.entries.Keys + {id}
            && t.entries[id] == Entry(c, user, team, key, before.entryFee, true)
            && (forall e :: e in s.entries && e != id ==> t.entries[e] == s.entries[e])
            && (forall d :: d in s.contests && d != c ==> t.contests[d] == s.contests[d])
            && t.contests[c].filledSpots == before.filledSpots + 1 && t.contests[c].totalSpots == before.totalSpots
            && t.contests[c].entryFee == before.entryFee && t.contests[c].isPractice == before.isPractice
            && t.contests[c].status
               == if before.status == Open && before.filledSpots + 1 >= before.totalSpots then Full else before.status)
  {
  }

  /** A fee stays locked without an entry exactly when the insert was refused and the refund failed. */
  lemma FeeStaysLockedIff(s: State, id: JoinId, c: ContestId, user: UserId, team: TeamId, key: nat,
                          walletUp: bool, refundUp: bool, outcome: JoinOutcome)
    requires c in s.contests && OutcomeIs(s, id, c, user, team, key, walletUp, outcome)
    ensures var t := AfterJoin(s, id, c, user, team, key, refundUp, outcome);
            && id in t.joins && (t.entries != s.entries ==> outcome == Joined)
            && (Pending(t.joins[id]) <==>
                  && outcome == TeamAlreadyJoined && !s.contests[c].isPractice && s.contests[c].entryFee > 0 && !refundUp)
  {
  }

  /** With a fresh key a call adds the fee to the locked money exactly when it leaves an entry or an unrefunded lock. */
  lemma JoinMovesMoney(s: State, id: JoinId, c: ContestId, user: UserId, team: TeamId, key: nat,
                       refundUp: bool, outcome: JoinOutcome, f: Selection)
    requires c in s.contests && Lock(user, key) !in s.ledger && Rollback(user, key) !in s.ledger
    ensures LockedMoney(AfterJoin(s, id, c, user, team, key, refundUp, outcome), f)
         == LockedMoney(s, f)
            + if (outcome == Joined || (outcome == TeamAlreadyJoined && !refundUp)) && !s.contests[c].isPractice && f(c, user)
              then s.contests[c].entryFee else 0
  {
    var t, fee := AfterJoin(s, id, c, user, team, key, refundUp, outcome), s.contests[c].entryFee;
    if FeeDue(s.contests[c]) && (outcome == Joined || outcome == TeamAlreadyJoined) {
      var locked := s.(ledger := LockPosted(s, c, user, key));
      MovementAdded(s, locked, f, Lock(user, key), Posting(c, user, true, fee));
      if outcome == TeamAlreadyJoined && refundUp {
        MovementAdded(locked, t, f, Rollback(user, key), Posting(c, user, false, fee));
      } else {
        assert Movements(t, f) == Movements(locked, f);
      }
    } else {
      assert Movements(t, f) == Movements(s, f);
    }
  }

  lemma NoFeeNoLock(s: State, c: ContestId, user: UserId, key: nat, walletUp: bool)
    requires c in s.contests
    ensures !FeeDue(s.contests[c]) ==> !LockRefused(s, c, user, key, walletUp) && LockPosted(s, c, user, key) == s.ledger
  {
  }

  /** Whether the insert is refused does not depend on the request itself. */
  lemma SameRows(s: State, t: State, id: JoinId, c: ContestId, user: UserId, team: TeamId, key: nat)
    requires t.entries == s.entries && id in t.joins && t.joins == s.joins[id := t.joins[id]]
    ensures KeyInFlight(t, id, user, key) <==> KeyInFlight(s, id, user, key)
    ensures RowRefused(t, id, c, user, team, key) <==> RowRefused(s, id, c, user, team, key)
  {
    assert forall j :: j != id ==> (j in t.joins <==> j in s.joins);
  }

  lemma SameLock(s: State, t: State, c: ContestId, user: UserId, key: nat, walletUp: bool)
    requires c in s.contests && t.contests == s.contests && t.ledger == s.ledger
    ensures LockRefused(t, c, user, key, walletUp) == LockRefused(s, c, user, key, walletUp)
    ensures LockPosted(t, c, user, key) == LockPosted(s, c, user, key)
  {
  }

  lemma InsertEnabled(t: State, id: JoinId, c: ContestId, user: UserId, team: TeamId, key: nat)
    requires c in t.contests && id in t.joins && t.joins[id] == Join(c, user, team, key, SpotClaimed, FeeDue(t.contests[c]))
    requires !RowRefused(t, id, c, user, team, key)
    ensures Enabled(t, Insert(id))
    ensures Apply(t, Insert(id)) == t.(joins := t.joins[id := t.joins[id].(stage := Inserted)])
  {
  }

  lemma CommitEnabled(u: State, id: JoinId, c: ContestId, user: UserId, team: TeamId, key: nat, locked: bool)
    requires c in u.contests && id in u.joins && u.joins[id] == Join(c, user, team, key, Inserted, locked)
    ensures Enabled(u, Commit(id))
    ensures Apply(u, Commit(id))
         == u.(joins := u.joins[id := u.joins[id].(stage := Committed)],
               entries := u.entries[id := Entry(c, user, team, key, u.contests[c].entryFee, true)],
               contests := u.contests[c := Filled(u.contests[c])], writers := u.writers - {c})
  {
  }

  lemma InsertIsARun(s: State, id: JoinId, c: ContestId, user: UserId, team: TeamId, key: nat) returns (steps: seq<Step>)
    requires id !in s.joins && id !in s.entries && c in s.contests && c !in s.writers
    requires SpotLeft(s.contests[c]) && !LockRefused(s, c, user, key, true) && !RowRefused(s, id, c, user, team, key)
    ensures Runs(s, steps)
    ensures After(s, steps)
         == s.(joins := s.joins[id := Join(c, user, team, key, Inserted, FeeDue(s.contests[c]))],
               writers := s.writers[c := id], ledger := LockPosted(s, c, user, key))
  {
    hide SpotLeft, LockRefused, RowRefused, LockPosted, Runs, After, Enabled, Apply;
    steps := LockedIsARun(s, id, c, user, team, key);
    var t := After(s, steps);
    SameRows(s, t, id, c, user, team, key);
    InsertEnabled(t, id, c, user, team, key);
    OneMoreStep(s, steps, t, Insert(id), Apply(t, Insert(id)));
    steps := steps + [Insert(id)];
  }

  lemma EntryIsARun(s: State, id: JoinId, c: ContestId, user: UserId, team: TeamId, key: nat) returns (steps: seq<Step>)
    requires id !in s.joins && id !in s.entries && c in s.contests && c !in s.writers
    requires SpotLeft(s.contests[c]) && !LockRefused(s, c, user, key, true) && !RowRefused(s, id, c, user, team, key)
    ensures Runs(s, steps) && After(s, steps) == WithEntry(s, id, c, user, team, key)
  {
    hide SpotLeft, LockRefused, RowRefused, LockPosted, Runs, After, Enabled, Apply, Filled;
    steps := InsertIsARun(s, id, c, user, team, key);
    var u := After(s, steps);
    CommitEnabled(u, id, c, user, team, key, FeeDue(s.contests[c]));
    OneMoreStep(s, steps, u, Commit(id), Apply(u, Commit(id)));
    steps := steps + [Commit(id)];
    assert s.writers[c := id] - {c} == s.writers;
  }

  lemma TransactionIsARun(s: State, id: JoinId, c: ContestId, user: UserId, team: TeamId, key: nat,
                          walletUp: bool, outcome: JoinOutcome) returns (steps: seq<Step>)
    requires id !in s.joins && id !in s.entries && c in s.contests && c !in s.writers
    requires OutcomeIs(s, id, c, user, team, key, walletUp, outcome)
    ensures Runs(s, steps) && After(s, steps) == InTransaction(s, id, c, user, team, key, outcome)
  {
    hide RowRefused, LockPosted, WithEntry;
    match outcome
    case ContestFull =>
      var t := Apply(s, Request(id, c, user, team, key));
      OneMoreStep(s, [], s, Request(id, c, user, team, key), t);
      steps := [] + [Request(id, c, user, team, key)];
    case WalletRefused => steps := ClaimedIsARun(s, id, c, user, team, key);
    case TeamAlreadyJoined => steps := LockedIsARun(s, id, c, user, team, key);
    case Joined => steps := EntryIsARun(s, id, c, user, team, key);
  }

  lemma NoSpot(s: State, id: JoinId, c: ContestId, user: UserId, team: TeamId, key: nat, walletUp: bool)
    requires c in s.contests && !SpotLeft(s.contests[c])
    ensures OutcomeIs(s, id, c, user, team, key, walletUp, ContestFull)
  {
  }

  /** What lock and insert find in the open transaction is what there was before the call. */
  lemma ClaimedTransaction(s: State, id: JoinId, c: ContestId, user: UserId, team: TeamId, key: nat,
                           walletUp: bool, outcome: JoinOutcome)
    requires id !in s.joins && c in s.contests && c !in s.writers && SpotLeft(s.contests[c])
    ensures var t := InTransaction(s, id, c, user, team, key, WalletRefused);
      && c in t.contests && id in t.joins && t.joins[id] == Join(c, user, team, key, SpotClaimed, false)
      && t.contests[c] == s.contests[c]
      && KeyInFlight(t, id, user, key) == KeyInFlight(s, id, user, key)
      && (outcome != ContestFull && OutcomeIs(t, id, c, user, team, key, walletUp, outcome) ==>
            && OutcomeIs(s, id, c, user, team, key, walletUp, outcome)
            && Transacted(t, id, c, user, team, key, outcome) == InTransaction(s, id, c, user, team, key, outcome))
  {
    hide LockRefused, RowRefused, LockPosted, KeyInFlight, SpotLeft;
    var t := InTransaction(s, id, c, user, team, key, WalletRefused);
    SameRows(s, t, id, c, user, team, key);
    SameLock(s, t, c, user, key, walletUp);
    assert s.writers[c := id] - {c} == s.writers;
  }

  lemma DroppedTransaction(s: State, id: JoinId, c: ContestId, user: UserId, team: TeamId, key: nat,
                           refundUp: bool, outcome: JoinOutcome)
    requires id !in s.joins && c in s.contests && c !in s.writers && outcome != Joined
    ensures var t := InTransaction(s, id, c, user, team, key, outcome);
            && (At(t, id, Requested) || At(t, id, SpotClaimed)) && t.joins[id].contest == c
            && t.joins[id].user == user && t.joins[id].key == key
            && t.joins[id].locked == (outcome == TeamAlreadyJoined && FeeDue(s.contests[c]))
            && Dropped(t, id, refundUp) == AfterJoin(s, id, c, user, team, key, refundUp, outcome)
  {
    hide LockPosted, Post;
    assert s.writers[c := id] - {c} == s.writers;
  }

  lemma CommittedTransaction(s: State, id: JoinId, c: ContestId, user: UserId, team: TeamId, key: nat, refundUp: bool)
    requires c in s.contests
    ensures InTransaction(s, id, c, user, team, key, Joined) == AfterJoin(s, id, c, user, team, key, refundUp, Joined)
  {
  }

  /** Every join call is a run of the protocol. */
  lemma JoinIsARun(s: State, id: JoinId, c: ContestId, user: UserId, team: TeamId, key: nat,
                   walletUp: bool, refundUp: bool, outcome: JoinOutcome) returns (steps: seq<Step>)
    requires id !in s.joins && id !in s.entries && c in s.contests && c !in s.writers
    requires OutcomeIs(s, id, c, user, team, key, walletUp, outcome)
    ensures Runs(s, steps) && After(s, steps) == AfterJoin(s, id, c, user, team, key, refundUp, outcome)
  {
    hide Runs, After, OutcomeIs, Dropped, WithEntry, WithoutEntry;
    steps := TransactionIsARun(s, id, c, user, team, key, walletUp, outcome);
    if outcome != Joined {
      DroppedTransaction(s, id, c, user, team, key, refundUp, outcome);
      steps := DroppedIsARun(s, steps, After(s, steps), id, refundUp);
    }
  }
}
