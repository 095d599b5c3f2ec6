/**
 * Joining and cancelling contests: guarded spot, wallet lock in its own
 * transaction, entry insert, commit or abort, compensating refund, and the
 * refund sweep of a cancellation, as interleaved steps over shared state.
 */
module JoinSaga {
  import opened ContestStatuses
  import opened Options
  import opened Sums

  type ContestId = nat
  type UserId = nat
  type TeamId = nat
  /** A join request; the entry row it creates carries the same id. */
  type JoinId = nat

  datatype Contest = Contest(status: ContestStatus, filledSpots: nat, totalSpots: nat, entryFee: nat, isPractice: bool)

  /** `active` is the ACTIVE status; the only other one here is REFUNDED. */
  datatype Entry = Entry(contest: ContestId, user: UserId, team: TeamId, key: nat, fee: nat, active: bool)

  datatype Stage = Requested | SpotClaimed | Inserted | Committed | Aborted | RolledBack

  /** `locked` says that the wallet transaction of the fee is known to the request. */
  datatype Join = Join(contest: ContestId, user: UserId, team: TeamId, key: nat, stage: Stage, locked: bool)

  /** Idempotency keys of the wallet. A lock transaction is identified by its key. */
  datatype Key = Lock(user: UserId, key: nat) | Rollback(user: UserId, key: nat) | Refund(entry: JoinId)

  /** Money moved into (`locks`) or out of the LOCKED bucket of a user. */
  datatype Posting = Posting(contest: ContestId, user: UserId, locks: bool, amount: nat)

  /** `todo` is known once the sweep has read the ACTIVE entries. */
  datatype Sweep = Sweep(todo: Option<set<JoinId>>, inHand: Option<JoinId>)

  /** `writers` maps a contest to the join whose open transaction holds its row. */
  datatype State = State(contests: map<ContestId, Contest>, writers: map<ContestId, JoinId>,
                         entries: map<JoinId, Entry>, joins: map<JoinId, Join>,
                         sweeps: map<ContestId, Sweep>, ledger: map<Key, Posting>)

  datatype Step =
    | Request(id: JoinId, contest: ContestId, user: UserId, team: TeamId, key: nat)
    | ClaimSpot(id: JoinId)
    | LockFee(id: JoinId)
    | Insert(id: JoinId)
    | Commit(id: JoinId)
    | Abort(id: JoinId)
    | RefundRollback(id: JoinId)
    | Transition(contest: ContestId, target: ContestStatus)
    | Cancel(contest: ContestId)
    | ReadActive(contest: ContestId)
    | RefundEntry(contest: ContestId, entry: JoinId)
    | MarkRefunded(contest: ContestId)

  predicate At(s: State, id: JoinId, stage: Stage)
  {
    id in s.joins && s.joins[id].contest in s.contests && s.joins[id].stage == stage
  }

  function ContestOf(s: State, id: JoinId): Contest
    requires id in s.joins && s.joins[id].contest in s.contests
  {
    s.contests[s.joins[id].contest]
  }

  /** Practice and free contests move no money. */
  predicate FeeDue(contest: Contest)
  {
    !contest.isPractice && contest.entryFee > 0
  }

  function LockKey(join: Join): Key
  {
    Lock(join.user, join.key)
  }

  predicate TeamActive(s: State, contest: ContestId, team: TeamId)
  {
    exists e :: e in s.entries && s.entries[e].active && s.entries[e].contest == contest && s.entries[e].team == team
  }

  /** The unique index on user and idempotency key, whatever the status of the row. */
  predicate KeyStored(s: State, user: UserId, key: nat)
  {
    exists e :: e in s.entries && s.entries[e].user == user && s.entries[e].key == key
  }

  /** Another open transaction has inserted a row under the key. */
  predicate KeyInFlight(s: State, id: JoinId, user: UserId, key: nat)
  {
    exists j :: j in s.joins && j != id && s.joins[j].stage == Inserted && s.joins[j].user == user && s.joins[j].key == key
  }

  predicate Sweeping(s: State, contest: ContestId)
  {
    contest in s.sweeps && s.sweeps[contest].todo.Some?
  }

  predicate Enabled(s: State, step: Step)
  {
    match step
    case Request(id, c, user, team, key) => id !in s.joins && id !in s.entries && c in s.contests
    case ClaimSpot(id) =>
      && At(s, id, Requested) && s.joins[id].contest !in s.writers
      && ContestOf(s, id).status in JOINABLE && ContestOf(s, id).filledSpots < ContestOf(s, id).totalSpots
    case LockFee(id) =>
      && At(s, id, SpotClaimed) && !s.joins[id].locked && FeeDue(ContestOf(s, id))
      && (LockKey(s.joins[id]) in s.ledger ==>
            s.ledger[LockKey(s.joins[id])].locks && s.ledger[LockKey(s.joins[id])].amount == ContestOf(s, id).entryFee)
    case Insert(id) =>
      && At(s, id, SpotClaimed) && s.joins[id].locked == FeeDue(ContestOf(s, id))
      && !TeamActive(s, s.joins[id].contest, s.joins[id].team)
      && !KeyStored(s, s.joins[id].user, s.joins[id].key) && !KeyInFlight(s, id, s.joins[id].user, s.joins[id].key)
    case Commit(id) => At(s, id, Inserted)
    case Abort(id) => At(s, id, Requested) || At(s, id, SpotClaimed) || At(s, id, Inserted)
    case RefundRollback(id) => At(s, id, Aborted) && s.joins[id].locked && ContestOf(s, id).entryFee > 0
    case Transition(c, target) => c in s.contests && c !in s.writers && target in AllowedTransitions(s.contests[c].status)
    case Cancel(c) => c in s.contests && c !in s.writers && s.contests[c].status in CANCELLABLE
    case ReadActive(c) => c in s.sweeps && s.sweeps[c].todo.None?
    case RefundEntry(c, e) => Sweeping(s, c) && s.sweeps[c].inHand.None? && e in s.sweeps[c].todo.value && e in s.entries
    case MarkRefunded(c) => Sweeping(s, c) && s.sweeps[c].inHand.Some? && s.sweeps[c].inHand.value in s.entries
  }

  /** The first use of a key applies; a later one returns the first transaction. */
  function Post(ledger: map<Key, Posting>, key: Key, posting: Posting): map<Key, Posting>
  {
    if key in ledger then ledger else ledger[key := posting]
  }

  function Restage(s: State, id: JoinId, stage: Stage): map<JoinId, Join>
    requires id in s.joins
  {
    s.joins[id := s.joins[id].(stage := stage)]
  }

  function Filled(contest: Contest): Contest
  {
    contest.(filledSpots := contest.filledSpots + 1,
             status := if contest.status == Open && contest.filledSpots + 1 >= contest.totalSpots then Full else contest.status)
  }

  function Apply(s: State, step: Step): State
    requires Enabled(s, step)
  {
    match step
    case Request(id, c, user, team, key) =>
      s.(joins := s.joins[id := Join(c, user, team, key, Requested, false)])
    case ClaimSpot(id) =>
      s.(joins := Restage(s, id, SpotClaimed), writers := s.writers[s.joins[id].contest := id])
    case LockFee(id) =>
      var join := s.joins[id];
      s.(joins := s.joins[id := join.(locked := true)],
         ledger := Post(s.ledger, LockKey(join), Posting(join.contest, join.user, true, ContestOf(s, id).entryFee)))
    case Insert(id) => s.(joins := Restage(s, id, Inserted))
    case Commit(id) =>
      var join := s.joins[id];
      s.(joins := Restage(s, id, Committed),
         entries := s.entries[id := Entry(join.contest, join.user, join.team, join.key, ContestOf(s, id).entryFee, true)],
         contests := s.contests[join.contest := Filled(ContestOf(s, id))],
         writers := s.writers - {join.contest})
    case Abort(id) =>
      s.(joins := Restage(s, id, Aborted),
         writers := if s.joins[id].stage == Requested then s.writers else s.writers - {s.joins[id].contest})
    case RefundRollback(id) =>
      var join := s.joins[id];
      s.(joins := Restage(s, id, RolledBack),
         ledger := Post(s.ledger, Rollback(join.user, join.key),
                        Posting(join.contest, join.user, false, ContestOf(s, id).entryFee)))
    case Transition(c, target) => s.(contests := s.contests[c := s.contests[c].(status := target)])
    case Cancel(c) =>
      s.(contests := s.contests[c := s.contests[c].(status := Cancelled)], sweeps := s.sweeps[c := Sweep(None, None)])
    case ReadActive(c) =>
      var active := set e | e in s.entries && s.entries[e].active && s.entries[e].contest == c;
      s.(sweeps := s.sweeps[c := Sweep(Some(active), None)])
    case RefundEntry(c, e) =>
      var entry := s.entries[e];
      s.(sweeps := s.sweeps[c := s.sweeps[c].(inHand := Some(e))],
         ledger := if entry.fee > 0 then Post(s.ledger, Refund(e), Posting(c, entry.user, false, entry.fee)) else s.ledger)
    case MarkRefunded(c) =>
      var e := s.sweeps[c].inHand.value;
      s.(entries := s.entries[e := s.entries[e].(active := false)],
         sweeps := s.sweeps[c := Sweep(Some(s.sweeps[c].todo.value - {e}), None)])
  }

  predicate Runs(s: State, steps: seq<Step>)
    decreases |steps|
  {
    steps == [] || (Enabled(s, steps[0]) && Runs(Apply(s, steps[0]), steps[1..]))
  }

  function After(s: State, steps: seq<Step>): State
    requires Runs(s, steps)
    decreases |steps|
  {
    if steps == [] then s else After(Apply(s, steps[0]), steps[1..])
  }

  /** Extending a run by one step. */
  lemma {:induction false} OneMoreStep(s: State, steps: seq<Step>, t: State, step: Step, u: State)
    requires Runs(s, steps) && After(s, steps) == t
    requires Enabled(t, step) && Apply(t, step) == u
    ensures Runs(s, steps + [step]) && After(s, steps + [step]) == u
    decreases |steps|
  {
    if steps == [] {
      assert steps + [step] == [step];
      assert [step][1..] == [];
    } else {
      assert (steps + [step])[1..] == steps[1..] + [step];
      OneMoreStep(Apply(s, steps[0]), steps[1..], t, step, u);
    }
  }

  /** One run after another. */
  lemma {:induction false} RunsConcat(s: State, first: seq<Step>, second: seq<Step>)
    requires Runs(s, first) && Runs(After(s, first), second)
    ensures Runs(s, first + second) && After(s, first + second) == After(After(s, first), second)
    decreases |first|
  {
    if first == [] {
      assert first + second == second;
    } else {
      assert (first + second)[1..] == first[1..] + second;
      RunsConcat(Apply(s, first[0]), first[1..], second);
    }
  }

  /** Contests to be joined, and nothing done yet. */
  predicate Initial(s: State)
  {
    && (forall c :: c in s.contests ==> s.contests[c].filledSpots == 0)
    && s.writers == map[] && s.entries == map[] && s.joins == map[] && s.sweeps == map[] && s.ledger == map[]
  }
}
