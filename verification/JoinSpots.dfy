/** Spots, teams and statuses in every reachable state of the join and cancel protocol. */
module JoinSpots {
  import opened ContestStatuses
  import opened JoinSaga
  import opened Options
  import opened Sums

  ghost function RowsOf(s: State, c: ContestId): map<JoinId, int>
  {
    map e | e in s.entries :: if s.entries[e].contest == c then 1 else 0
  }

  ghost predicate HoldsRow(join: Join)
  {
    join.stage == SpotClaimed || join.stage == Inserted
  }

  /** A request in its transaction owns the contest row, and an inserted row is still no duplicate. */
  ghost predicate JoinOk(s: State, id: JoinId)
    requires id in s.joins
  {
    var join := s.joins[id];
    && join.contest in s.contests
    && (HoldsRow(join) ==> join.contest in s.writers && s.writers[join.contest] == id)
    && (join.stage == Inserted ==>
          && !TeamActive(s, join.contest, join.team)
          && !KeyStored(s, join.user, join.key) && !KeyInFlight(s, id, join.user, join.key))
  }

  /** The guard of the spot claim still holds while the transaction is open. */
  ghost predicate WriterOk(s: State, c: ContestId)
    requires c in s.writers
  {
    && s.writers[c] in s.joins && s.joins[s.writers[c]].contest == c && HoldsRow(s.joins[s.writers[c]])
    && c in s.contests && s.contests[c].status in JOINABLE
    && s.contests[c].filledSpots < s.contests[c].totalSpots
  }

  ghost predicate EntryOk(s: State, e: JoinId)
    requires e in s.entries
  {
    && e in s.joins && s.joins[e].stage == Committed && s.joins[e].contest == s.entries[e].contest
    && s.joins[e].user == s.entries[e].user && s.joins[e].key == s.entries[e].key
  }

  ghost predicate ContestOk(s: State, c: ContestId)
    requires c in s.contests
  {
    s.contests[c].filledSpots == MapSum(RowsOf(s, c)) && s.contests[c].filledSpots <= s.contests[c].totalSpots
  }

  ghost predicate SweepOk(s: State, c: ContestId)
  {
    c in s.contests && s.contests[c].status == Cancelled
  }

  ghost predicate SameTeam(s: State, e: JoinId, d: JoinId)
    requires e in s.entries && d in s.entries
  {
    && s.entries[e].active && s.entries[d].active
    && s.entries[e].contest == s.entries[d].contest && s.entries[e].team == s.entries[d].team
  }

  ghost predicate TeamsUnique(s: State)
  {
    forall e, d {:trigger SameTeam(s, e, d)} :: e in s.entries && d in s.entries && SameTeam(s, e, d) ==> e == d
  }

  ghost predicate SameKey(s: State, e: JoinId, d: JoinId)
    requires e in s.entries && d in s.entries
  {
    s.entries[e].user == s.entries[d].user && s.entries[e].key == s.entries[d].key
  }

  ghost predicate KeysUnique(s: State)
  {
    forall e, d {:trigger SameKey(s, e, d)} :: e in s.entries && d in s.entries && SameKey(s, e, d) ==> e == d
  }

  ghost predicate SpotInv(s: State)
  {
    && (forall id {:trigger JoinOk(s, id)} :: id in s.joins ==> JoinOk(s, id))
    && (forall c {:trigger WriterOk(s, c)} :: c in s.writers ==> WriterOk(s, c))
    && (forall e {:trigger EntryOk(s, e)} :: e in s.entries ==> EntryOk(s, e))
    && (forall c {:trigger ContestOk(s, c)} :: c in s.contests ==> ContestOk(s, c))
    && (forall c {:trigger SweepOk(s, c)} :: c in s.sweeps ==> SweepOk(s, c))
    && TeamsUnique(s) && KeysUnique(s)
  }

  /** The request a step belongs to. */
  ghost function Actor(step: Step): Option<JoinId>
  {
    match step
    case ClaimSpot(id) => Some(id)
    case LockFee(id) => Some(id)
    case Insert(id) => Some(id)
    case Commit(id) => Some(id)
    case Abort(id) => Some(id)
    case RefundRollback(id) => Some(id)
    case _ => None
  }

  lemma JoinStaysOk(s: State, step: Step, id: JoinId)
    requires SpotInv(s) && Enabled(s, step) && id in Apply(s, step).joins
    ensures JoinOk(Apply(s, step), id)
  {
    var t := Apply(s, step);
    assert id in s.joins ==> JoinOk(s, id);
    assert Actor(step).Some? ==> JoinOk(s, Actor(step).value);
    if step.ClaimSpot? && id != step.id {
      assert HoldsRow(s.joins[id]) ==> s.joins[id].contest != s.joins[step.id].contest;
    }
    if t.joins[id].stage == Inserted {
      KeysStayFree(s, step, id);
    }
    if id in s.joins && TeamActive(t, t.joins[id].contest, t.joins[id].team) {
      var e :| e in t.entries && t.entries[e].active
            && t.entries[e].contest == t.joins[id].contest && t.entries[e].team == t.joins[id].team;
      assert !(step.Commit? && e == step.id) ==> e in s.entries;
    }
  }

  /** An inserted row stays the only one under its key. */
  lemma KeysStayFree(s: State, step: Step, id: JoinId)
    requires SpotInv(s) && Enabled(s, step) && id in Apply(s, step).joins && Apply(s, step).joins[id].stage == Inserted
    ensures var t := Apply(s, step);
            !KeyStored(t, t.joins[id].user, t.joins[id].key) && !KeyInFlight(t, id, t.joins[id].user, t.joins[id].key)
  {
    var t := Apply(s, step);
    var user, key := t.joins[id].user, t.joins[id].key;
    assert JoinOk(s, id) && (Actor(step).Some? ==> JoinOk(s, Actor(step).value));
    forall e | e in t.entries ensures t.entries[e].user != user || t.entries[e].key != key {
      assert e in s.entries || step == Commit(e);
    }
    forall j | j in t.joins && j != id && t.joins[j].stage == Inserted ensures t.joins[j].user != user || t.joins[j].key != key {
      assert JoinOk(s, j);
    }
  }

  lemma WriterStaysOk(s: State, step: Step, c: ContestId)
    requires SpotInv(s) && Enabled(s, step) && c in Apply(s, step).writers
    ensures WriterOk(Apply(s, step), c)
  {
    assert c in s.writers ==> WriterOk(s, c);
    assert Actor(step).Some? ==> JoinOk(s, Actor(step).value);
  }

  lemma EntryStaysOk(s: State, step: Step, e: JoinId)
    requires SpotInv(s) && Enabled(s, step) && e in Apply(s, step).entries
    ensures EntryOk(Apply(s, step), e)
  {
    assert e in s.entries ==> EntryOk(s, e);
  }

  lemma ContestStaysOk(s: State, step: Step, c: ContestId)
    requires SpotInv(s) && Enabled(s, step) && c in Apply(s, step).contests
    ensures ContestOk(Apply(s, step), c)
  {
    var t := Apply(s, step);
    assert ContestOk(s, c);
    if step.Commit? {
      var here := if s.joins[step.id].contest == c then 1 else 0;
      assert JoinOk(s, step.id) && WriterOk(s, s.joins[step.id].contest);
      assert step.id in s.entries ==> EntryOk(s, step.id);
      assert RowsOf(t, c) == RowsOf(s, c)[step.id := here];
      MapSumSet(RowsOf(s, c), step.id, here);
    } else {
      assert RowsOf(t, c) == RowsOf(s, c);
    }
  }

  lemma SweepStaysOk(s: State, step: Step, c: ContestId)
    requires SpotInv(s) && Enabled(s, step) && c in Apply(s, step).sweeps
    ensures SweepOk(Apply(s, step), c)
  {
    assert c in s.sweeps ==> SweepOk(s, c);
    if step.Commit? {
      assert JoinOk(s, step.id) && WriterOk(s, s.joins[step.id].contest);
    }
  }

  lemma TeamsStayUnique(s: State, step: Step, e: JoinId, d: JoinId)
    requires SpotInv(s) && Enabled(s, step)
    requires e in Apply(s, step).entries && d in Apply(s, step).entries && SameTeam(Apply(s, step), e, d)
    ensures e == d
  {
    assert Actor(step).Some? ==> JoinOk(s, Actor(step).value);
    if e in s.entries && d in s.entries {
      assert step.Commit? && step.id in s.entries ==> EntryOk(s, step.id);
      assert SameTeam(s, e, d);
    }
  }

  lemma KeysStayUnique(s: State, step: Step, e: JoinId, d: JoinId)
    requires SpotInv(s) && Enabled(s, step)
    requires e in Apply(s, step).entries && d in Apply(s, step).entries && SameKey(Apply(s, step), e, d)
    ensures e == d
  {
    assert Actor(step).Some? ==> JoinOk(s, Actor(step).value);
    if e in s.entries && d in s.entries {
      assert step.Commit? && step.id in s.entries ==> EntryOk(s, step.id);
      assert SameKey(s, e, d);
    }
  }

  lemma StepKeepsSpots(s: State, step: Step)
    requires SpotInv(s) && Enabled(s, step)
    ensures SpotInv(Apply(s, step))
  {
    var t := Apply(s, step);
    forall id | id in t.joins ensures JoinOk(t, id) {
      JoinStaysOk(s, step, id);
    }
    forall c | c in t.writers ensures WriterOk(t, c) {
      WriterStaysOk(s, step, c);
    }
    forall e | e in t.entries ensures EntryOk(t, e) {
      EntryStaysOk(s, step, e);
    }
    forall c | c in t.contests ensures ContestOk(t, c) {
      ContestStaysOk(s, step, c);
    }
    forall c | c in t.sweeps ensures SweepOk(t, c) {
      SweepStaysOk(s, step, c);
    }
    forall e, d | e in t.entries && d in t.entries && SameTeam(t, e, d) ensures e == d {
      TeamsStayUnique(s, step, e, d);
    }
    forall e, d | e in t.entries && d in t.entries && SameKey(t, e, d) ensures e == d {
      KeysStayUnique(s, step, e, d);
    }
  }

  lemma InitialSpots(s: State)
    requires Initial(s)
    ensures SpotInv(s)
  {
    forall c | c in s.contests ensures ContestOk(s, c) {
      assert RowsOf(s, c) == map[];
    }
  }

  lemma {:induction false} SpotInvHolds(s: State, steps: seq<Step>)
    requires SpotInv(s) && Runs(s, steps)
    ensures SpotInv(After(s, steps))
    decreases |steps|
  {
    if steps != [] {
      StepKeepsSpots(s, steps[0]);
      SpotInvHolds(Apply(s, steps[0]), steps[1..]);
    }
  }

  /**
   * Over every interleaving: the spot counter is the number of entry rows and
   * stays within capacity, no team is ACTIVE twice in a contest, and no user
   * has two entries under one idempotency key.
   */
  lemma SpotsAreEntries(s: State, steps: seq<Step>)
    requires Initial(s) && Runs(s, steps)
    ensures var t := After(s, steps);
      && (forall c :: c in t.contests ==>
            t.contests[c].filledSpots == MapSum(RowsOf(t, c)) && t.contests[c].filledSpots <= t.contests[c].totalSpots)
      && (forall e, d :: e in t.entries && d in t.entries && e != d && t.entries[e].active && t.entries[d].active ==>
            (t.entries[e].contest, t.entries[e].team) != (t.entries[d].contest, t.entries[d].team))
      && (forall e, d :: e in t.entries && d in t.entries && e != d ==>
            (t.entries[e].user, t.entries[e].key) != (t.entries[d].user, t.entries[d].key))
  {
    InitialSpots(s);
    SpotInvHolds(s, steps);
    var t := After(s, steps);
    forall c | c in t.contests
      ensures t.contests[c].filledSpots == MapSum(RowsOf(t, c)) && t.contests[c].filledSpots <= t.contests[c].totalSpots
    {
      assert ContestOk(t, c);
    }
    forall e, d | e in t.entries && d in t.entries && e != d && t.entries[e].active && t.entries[d].active
      ensures (t.entries[e].contest, t.entries[e].team) != (t.entries[d].contest, t.entries[d].team)
    {
      assert !SameTeam(t, e, d);
    }
    forall e, d | e in t.entries && d in t.entries && e != d
      ensures (t.entries[e].user, t.entries[e].key) != (t.entries[d].user, t.entries[d].key)
    {
      assert !SameKey(t, e, d);
    }
  }

  /** An entry row appears only in a contest that is OPEN or SCHEDULED, with a spot left, at that moment. */
  lemma EntriesOnlyWhileJoinable(s: State, step: Step, e: JoinId)
    requires SpotInv(s) && Enabled(s, step)
    requires e in Apply(s, step).entries && e !in s.entries
    ensures Apply(s, step).entries[e].contest in s.contests
    ensures var contest := s.contests[Apply(s, step).entries[e].contest];
            (contest.status == Open || contest.status == Scheduled) && contest.filledSpots < contest.totalSpots
  {
    assert step == Commit(e);
    assert JoinOk(s, e) && WriterOk(s, s.joins[e].contest);
  }

  /**
   * What one step does to a contest. Spots, fee, capacity and practice flag
   * change only by a commit, which adds one spot and turns an OPEN contest FULL
   * exactly when it takes the last one.
   */
  lemma ContestAfterStep(s: State, step: Step, c: ContestId)
    requires SpotInv(s) && Enabled(s, step) && c in s.contests
    ensures c in Apply(s, step).contests
    ensures var before, after := s.contests[c], Apply(s, step).contests[c];
            var joined := step.Commit? && s.joins[step.id].contest == c;
      && after.totalSpots == before.totalSpots && after.entryFee == before.entryFee && after.isPractice == before.isPractice
      && after.filledSpots == before.filledSpots + (if joined then 1 else 0)
      && (joined ==>
            after.status == if before.status == Open && before.filledSpots + 1 >= before.totalSpots then Full else before.status)
      && (!joined && after.status != before.status ==>
            (step == Cancel(c) && after.status == Cancelled) || step == Transition(c, after.status))
  {
  }

  /** A contest enters a status only from the statuses the platform documents for it, by whatever step. */
  lemma StatusEnteredFrom(s: State, step: Step, c: ContestId)
    requires SpotInv(s) && Enabled(s, step) && c in s.contests && c in Apply(s, step).contests
    requires Apply(s, step).contests[c].status != s.contests[c].status
    ensures var from := s.contests[c].status;
            match Apply(s, step).contests[c].status
            case Draft => false
            case Scheduled => from == Draft
            case Open => from == Draft || from == Scheduled
            case Full => from == Open
            case Locked => from == Open || from == Full
            case Live => from == Open || from == Full || from == Locked
            case Completed => from == Locked || from == Live
            case Cancelled => from != Completed && from != Cancelled
  {
    ContestAfterStep(s, step, c);
    StatusesEnteredFrom(s.contests[c].status, Apply(s, step).contests[c].status);
  }

  // ---- Statuses only move forward ------------------------------------------------------------

  lemma StepRaisesStatus(s: State, step: Step, c: ContestId)
    requires Enabled(s, step) && c in s.contests
    ensures c in Apply(s, step).contests
    ensures Apply(s, step).contests[c].status != s.contests[c].status ==>
              StatusRank(s.contests[c].status) < StatusRank(Apply(s, step).contests[c].status)
  {
  }

  lemma {:induction false} StatusNeverFalls(s: State, steps: seq<Step>, c: ContestId)
    requires Runs(s, steps) && c in s.contests
    ensures c in After(s, steps).contests
    ensures After(s, steps).contests[c].status == s.contests[c].status
         || StatusRank(s.contests[c].status) < StatusRank(After(s, steps).contests[c].status)
    decreases |steps|
  {
    if steps != [] {
      StepRaisesStatus(s, steps[0], c);
      StatusNeverFalls(Apply(s, steps[0]), steps[1..], c);
    }
  }

  /** A status that was left never comes back. */
  lemma StatusesNeverCycle(s: State, step: Step, steps: seq<Step>, c: ContestId)
    requires Enabled(s, step) && Runs(Apply(s, step), steps) && c in s.contests
    requires c in Apply(s, step).contests && Apply(s, step).contests[c].status != s.contests[c].status
    ensures c in After(Apply(s, step), steps).contests
    ensures After(Apply(s, step), steps).contests[c].status != s.contests[c].status
  {
    StepRaisesStatus(s, step, c);
    StatusNeverFalls(Apply(s, step), steps, c);
  }
}
