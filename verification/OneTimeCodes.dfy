/** One-time codes of one identifier and purpose. */
module OneTimeCodes {
  import opened Options

  /** Channels and codes; a code stands for its hash. */
  type Channel = nat
  type Code = nat

  const TTL := 300000
  const MAX_ATTEMPTS := 5
  const THROTTLE := 60000

  /** Times in milliseconds. */
  datatype Row = Row(channel: Channel, code: Code, attempts: int, consumed: bool, createdAt: int, expiresAt: int)

  /** A code that was compared with the code of a row. */
  datatype Comparison = Comparison(row: nat, at: int, matched: bool)

  datatype Outcome = Ok | NoActiveCode | TooManyAttempts | WrongCode

  /** The stored rows, oldest first, and the comparisons made so far. */
  datatype State = State(rows: seq<Row>, log: seq<Comparison>)

  datatype Step = Issue(now: int, channel: Channel, code: Code) | Verify(now: int, code: Code)

  // ---- The two calls -------------------------------------------------------------------------

  predicate Active(row: Row, now: int)
  {
    !row.consumed && row.expiresAt > now
  }

  /** The active row created last. */
  function FindActive(rows: seq<Row>, now: int): (found: Option<nat>)
    ensures found.Some? ==> found.value < |rows| && Active(rows[found.value], now)
  {
    if rows == [] then None
    else
      var init, last := rows[..|rows| - 1], rows[|rows| - 1];
      var before := FindActive(init, now);
      if Active(last, now) && (before.None? || last.createdAt > init[before.value].createdAt) then Some(|rows| - 1) else before
  }

  function RecentCount(rows: seq<Row>, now: int): nat
  {
    if rows == [] then 0
    else RecentCount(rows[..|rows| - 1], now) + if rows[|rows| - 1].createdAt > now - THROTTLE then 1 else 0
  }

  function Invalidated(rows: seq<Row>, channel: Channel): seq<Row>
  {
    seq(|rows|, i requires 0 <= i < |rows| => if rows[i].channel == channel then rows[i].(consumed := true) else rows[i])
  }

  function Issued(s: State, now: int, channel: Channel, code: Code): State
  {
    if RecentCount(s.rows, now) >= 1 then s
    else s.(rows := Invalidated(s.rows, channel) + [Row(channel, code, MAX_ATTEMPTS, false, now, now + TTL)])
  }

  function VerifyOutcome(s: State, now: int, code: Code): Outcome
  {
    var found := FindActive(s.rows, now);
    if found.None? then NoActiveCode
    else if s.rows[found.value].attempts <= 0 then TooManyAttempts
    else if s.rows[found.value].code == code then Ok
    else if s.rows[found.value].attempts - 1 <= 0 then TooManyAttempts
    else WrongCode
  }

  function Verified(s: State, now: int, code: Code): State
  {
    var found := FindActive(s.rows, now);
    if found.None? || s.rows[found.value].attempts <= 0 then s
    else
      var i, row := found.value, s.rows[found.value];
      if row.code == code
      then State(s.rows[i := row.(consumed := true)], s.log + [Comparison(i, now, true)])
      else State(s.rows[i := row.(attempts := row.attempts - 1)], s.log + [Comparison(i, now, false)])
  }

  function Apply(s: State, step: Step): State
  {
    match step
    case Issue(now, channel, code) => Issued(s, now, channel, code)
    case Verify(now, code) => Verified(s, now, code)
  }

  function After(s: State, steps: seq<Step>): State
    decreases |steps|
  {
    if steps == [] then s else Apply(After(s, steps[..|steps| - 1]), steps[|steps| - 1])
  }

  predicate ClockNeverRunsBack(steps: seq<Step>)
  {
    forall i, j :: 0 <= i < j < |steps| ==> steps[i].now <= steps[j].now
  }

  const EMPTY := State([], [])

  // ---- Invariants ----------------------------------------------------------------------------

  function ComparedWith(log: seq<Comparison>, i: nat): nat
  {
    if log == [] then 0 else ComparedWith(log[..|log| - 1], i) + if log[|log| - 1].row == i then 1 else 0
  }

  function MatchedWith(log: seq<Comparison>, i: nat): nat
  {
    if log == [] then 0
    else MatchedWith(log[..|log| - 1], i) + if log[|log| - 1].row == i && log[|log| - 1].matched then 1 else 0
  }

  /** Rows were created at least a minute apart, and none after `now`. */
  predicate Spaced(rows: seq<Row>, now: int)
  {
    && (forall i :: 0 <= i < |rows| ==> rows[i].createdAt <= now && rows[i].expiresAt == rows[i].createdAt + TTL)
    && (forall i, j :: 0 <= i < j < |rows| ==> rows[j].createdAt >= rows[i].createdAt + THROTTLE)
  }

  /** The comparisons with a row are what its attempts and its consumption say. */
  predicate Accounted(s: State, i: nat)
    requires i < |s.rows|
  {
    && ComparedWith(s.log, i) == MAX_ATTEMPTS - s.rows[i].attempts + MatchedWith(s.log, i)
    && 0 <= s.rows[i].attempts <= MAX_ATTEMPTS && MatchedWith(s.log, i) <= 1
    && (MatchedWith(s.log, i) == 1 ==> s.rows[i].consumed && s.rows[i].attempts >= 1)
  }

  /** Every comparison was made while its row was valid. */
  predicate Timely(s: State, k: nat)
    requires k < |s.log|
  {
    && s.log[k].row < |s.rows|
    && s.rows[s.log[k].row].createdAt <= s.log[k].at < s.rows[s.log[k].row].createdAt + TTL
  }

  ghost predicate Inv(s: State, now: int)
  {
    && Spaced(s.rows, now)
    && (forall i :: 0 <= i < |s.rows| ==> Accounted(s, i))
    && (forall k :: 0 <= k < |s.log| ==> Timely(s, k))
  }

  lemma {:induction false} NotRecent(rows: seq<Row>, now: int)
    ensures RecentCount(rows, now) == 0 <==> forall i :: 0 <= i < |rows| ==> rows[i].createdAt <= now - THROTTLE
  {
    if rows != [] {
      NotRecent(rows[..|rows| - 1], now);
      assert forall i :: 0 <= i < |rows| - 1 ==> rows[..|rows| - 1][i] == rows[i];
    }
  }

  lemma {:induction false} UnknownRow(log: seq<Comparison>, i: nat)
    requires forall k :: 0 <= k < |log| ==> log[k].row < i
    ensures ComparedWith(log, i) == 0 && MatchedWith(log, i) == 0
  {
    if log != [] {
      UnknownRow(log[..|log| - 1], i);
    }
  }

  lemma LogGrows(log: seq<Comparison>, c: Comparison, i: nat)
    ensures ComparedWith(log + [c], i) == ComparedWith(log, i) + if c.row == i then 1 else 0
    ensures MatchedWith(log + [c], i) == MatchedWith(log, i) + if c.row == i && c.matched then 1 else 0
  {
    assert (log + [c])[..|log|] == log;
  }

  lemma IssueAccounts(s: State, before: int, now: int, channel: Channel, code: Code, i: nat)
    requires Inv(s, before) && RecentCount(s.rows, now) == 0 && i <= |s.rows|
    ensures i < |Issued(s, now, channel, code).rows| && Accounted(Issued(s, now, channel, code), i)
  {
    if i < |s.rows| {
      assert Accounted(s, i);
    } else {
      forall k | 0 <= k < |s.log| ensures s.log[k].row < i {
        assert Timely(s, k);
      }
      UnknownRow(s.log, i);
    }
  }

  lemma IssueKeepsInv(s: State, before: int, now: int, channel: Channel, code: Code)
    requires Inv(s, before) && before <= now
    ensures Inv(Issued(s, now, channel, code), now)
  {
    NotRecent(s.rows, now);
    var t := Issued(s, now, channel, code);
    forall i | 0 <= i < |t.rows| ensures Accounted(t, i) {
      if RecentCount(s.rows, now) == 0 {
        IssueAccounts(s, before, now, channel, code, i);
      }
    }
    forall k | 0 <= k < |t.log| ensures Timely(t, k) {
      assert Timely(s, k);
    }
  }

  lemma VerifyAccounts(s: State, before: int, now: int, code: Code, i: nat)
    requires Inv(s, before) && i < |s.rows|
    ensures i < |Verified(s, now, code).rows| && Accounted(Verified(s, now, code), i)
  {
    var found := FindActive(s.rows, now);
    assert Accounted(s, i);
    if found.Some? && s.rows[found.value].attempts > 0 {
      LogGrows(s.log, Comparison(found.value, now, s.rows[found.value].code == code), i);
    }
  }

  lemma VerifyKeepsInv(s: State, before: int, now: int, code: Code)
    requires Inv(s, before) && before <= now
    ensures Inv(Verified(s, now, code), now)
  {
    var t := Verified(s, now, code);
    assert |t.rows| == |s.rows|;
    assert forall i :: 0 <= i < |s.rows| ==> t.rows[i].createdAt == s.rows[i].createdAt && t.rows[i].expiresAt == s.rows[i].expiresAt;
    assert Spaced(t.rows, now);
    forall i | 0 <= i < |t.rows| ensures Accounted(t, i) {
      VerifyAccounts(s, before, now, code, i);
    }
    forall k | 0 <= k < |t.log| ensures Timely(t, k) {
      if k < |s.log| {
        assert Timely(s, k);
      }
    }
  }

  function LastTime(steps: seq<Step>): int
  {
    if steps == [] then 0 else steps[|steps| - 1].now
  }

  lemma {:induction false} RunKeepsInv(steps: seq<Step>)
    requires ClockNeverRunsBack(steps)
    ensures After(EMPTY, steps).rows != [] ==> steps != []
    ensures Inv(After(EMPTY, steps), LastTime(steps))
  {
    if steps != [] {
      var init, last := steps[..|steps| - 1], steps[|steps| - 1];
      RunKeepsInv(init);
      var now := if init == [] then last.now else LastTime(init);
      assert After(EMPTY, init) == EMPTY || init != [];
      assert Inv(After(EMPTY, init), now);
      match last
      case Issue(t, channel, code) => IssueKeepsInv(After(EMPTY, init), now, t, channel, code);
      case Verify(t, code) => VerifyKeepsInv(After(EMPTY, init), now, t, code);
    }
  }

  /** Codes are issued at least a minute apart. */
  lemma IssuesAreSpaced(steps: seq<Step>, i: nat, j: nat)
    requires ClockNeverRunsBack(steps) && i < j < |After(EMPTY, steps).rows|
    ensures After(EMPTY, steps).rows[j].createdAt - After(EMPTY, steps).rows[i].createdAt >= 60000
  {
    RunKeepsInv(steps);
  }

  /** Each code is compared at most five times and succeeds at most once. */
  lemma EachCodeIsBounded(steps: seq<Step>, i: nat)
    requires ClockNeverRunsBack(steps) && i < |After(EMPTY, steps).rows|
    ensures ComparedWith(After(EMPTY, steps).log, i) <= 5
    ensures MatchedWith(After(EMPTY, steps).log, i) <= 1
  {
    RunKeepsInv(steps);
    assert Accounted(After(EMPTY, steps), i);
  }

  /** A code is created exactly when none was in the last minute; it is good for five minutes and five attempts. */
  lemma IssuedIff(s: State, now: int, channel: Channel, code: Code)
    ensures var t := Issued(s, now, channel, code);
            if forall i :: 0 <= i < |s.rows| ==> s.rows[i].createdAt <= now - 60000
            then |t.rows| == |s.rows| + 1 && t.rows[|s.rows|] == Row(channel, code, 5, false, now, now + 300000) && t.log == s.log
            else t == s
  {
    NotRecent(s.rows, now);
  }

  // ---- Comparisons in a window ---------------------------------------------------------------

  /** How many comparisons were made from `a` to `b`, both included. */
  function ComparedBetween(log: seq<Comparison>, a: int, b: int): nat
  {
    if log == [] then 0 else ComparedBetween(log[..|log| - 1], a, b) + if a <= log[|log| - 1].at <= b then 1 else 0
  }

  /** How many comparisons were made with the rows from `lo` up to `hi`. */
  function ComparedWithRows(log: seq<Comparison>, lo: nat, hi: nat): nat
  {
    if log == [] then 0 else ComparedWithRows(log[..|log| - 1], lo, hi) + if lo <= log[|log| - 1].row < hi then 1 else 0
  }

  lemma {:induction false} WindowIsInRows(log: seq<Comparison>, a: int, b: int, lo: nat, hi: nat)
    requires forall k :: 0 <= k < |log| && a <= log[k].at <= b ==> lo <= log[k].row < hi
    ensures ComparedBetween(log, a, b) <= ComparedWithRows(log, lo, hi)
  {
    if log != [] {
      WindowIsInRows(log[..|log| - 1], a, b, lo, hi);
    }
  }

  lemma {:induction false} OneMoreRow(log: seq<Comparison>, lo: nat, hi: nat)
    requires lo <= hi
    ensures ComparedWithRows(log, lo, hi + 1) == ComparedWithRows(log, lo, hi) + ComparedWith(log, hi)
  {
    if log != [] {
      OneMoreRow(log[..|log| - 1], lo, hi);
    }
  }

  lemma {:induction false} NoRows(log: seq<Comparison>, lo: nat)
    ensures ComparedWithRows(log, lo, lo) == 0
  {
    if log != [] {
      NoRows(log[..|log| - 1], lo);
    }
  }

  lemma {:induction false} RowsAreBounded(s: State, now: int, lo: nat, hi: nat)
    requires Inv(s, now) && lo <= hi <= |s.rows|
    ensures ComparedWithRows(s.log, lo, hi) <= MAX_ATTEMPTS * (hi - lo)
  {
    if hi == lo {
      NoRows(s.log, lo);
    } else {
      RowsAreBounded(s, now, lo, hi - 1);
      OneMoreRow(s.log, lo, hi - 1);
      assert Accounted(s, hi - 1);
    }
  }

  /** The number of rows created up to `t`; they are the first ones. */
  function CreatedBy(rows: seq<Row>, t: int): (n: nat)
    ensures n <= |rows|
  {
    if rows == [] then 0
    else if rows[|rows| - 1].createdAt <= t then |rows|
    else CreatedBy(rows[..|rows| - 1], t)
  }

  lemma {:induction false} CreatedByIs(rows: seq<Row>, now: int, t: int, i: nat)
    requires Spaced(rows, now) && i < |rows|
    ensures rows[i].createdAt <= t <==> i < CreatedBy(rows, t)
  {
    if rows[|rows| - 1].createdAt > t && i < |rows| - 1 {
      CreatedByIs(rows[..|rows| - 1], now, t, i);
    }
  }

  lemma {:induction false} Gaps(rows: seq<Row>, now: int, i: nat, j: nat)
    requires Spaced(rows, now) && i <= j < |rows|
    ensures rows[j].createdAt - rows[i].createdAt >= THROTTLE * (j - i)
  {
    if i < j {
      Gaps(rows, now, i, j - 1);
    }
  }

  lemma RowsOfWindow(s: State, now: int, a: int, b: int)
    requires Inv(s, now)
    ensures forall k :: 0 <= k < |s.log| && a <= s.log[k].at <= b ==>
              CreatedBy(s.rows, a - TTL) <= s.log[k].row < CreatedBy(s.rows, b)
  {
    forall k | 0 <= k < |s.log| && a <= s.log[k].at <= b
      ensures CreatedBy(s.rows, a - TTL) <= s.log[k].row < CreatedBy(s.rows, b)
    {
      assert Timely(s, k);
      CreatedByIs(s.rows, now, a - TTL, s.log[k].row);
      CreatedByIs(s.rows, now, b, s.log[k].row);
    }
  }

  lemma WindowBound(s: State, now: int, a: int, w: nat)
    requires Inv(s, now)
    ensures ComparedBetween(s.log, a, a + w) <= MAX_ATTEMPTS * ((w + TTL - 1) / THROTTLE + 1)
  {
    var first, end := CreatedBy(s.rows, a - TTL), CreatedBy(s.rows, a + w);
    RowsOfWindow(s, now, a, a + w);
    WindowIsInRows(s.log, a, a + w, first, end);
    if first < end {
      RowsAreBounded(s, now, first, end);
      CreatedByIs(s.rows, now, a - TTL, first);
      CreatedByIs(s.rows, now, a + w, end - 1);
      Gaps(s.rows, now, first, end - 1);
      FitInWindow(end - first, w);
    } else {
      WindowIsInRows(s.log, a, a + w, end, end);
      NoRows(s.log, end);
    }
  }

  /** In any window of `w` milliseconds at most `5 * (floor((w + 299999) / 60000) + 1)` codes are compared. */
  lemma ComparisonsInWindow(steps: seq<Step>, a: int, w: nat)
    requires ClockNeverRunsBack(steps)
    ensures ComparedBetween(After(EMPTY, steps).log, a, a + w) <= 5 * ((w + 299999) / 60000 + 1)
  {
    RunKeepsInv(steps);
    WindowBound(After(EMPTY, steps), LastTime(steps), a, w);
  }

  lemma FitInWindow(n: nat, w: nat)
    requires n >= 1 && THROTTLE * (n - 1) <= w + TTL - 1
    ensures n <= (w + TTL - 1) / THROTTLE + 1
  {
  }

  // ---- Which code counts ---------------------------------------------------------------------

  lemma {:induction false} FindActiveIsNewest(rows: seq<Row>, now: int, clock: int)
    requires Spaced(rows, clock)
    ensures FindActive(rows, now).None? <==> forall i :: 0 <= i < |rows| ==> !Active(rows[i], now)
    ensures FindActive(rows, now).Some? ==>
              forall i :: FindActive(rows, now).value < i < |rows| ==> !Active(rows[i], now)
  {
    if rows != [] {
      FindActiveIsNewest(rows[..|rows| - 1], now, clock);
    }
  }

  /** The newest active row has this code and attempts left. */
  ghost predicate NewestActiveHas(rows: seq<Row>, now: int, code: Code)
  {
    exists i :: 0 <= i < |rows| && Active(rows[i], now) && rows[i].code == code && rows[i].attempts > 0
                && forall j :: i < j < |rows| ==> !Active(rows[j], now)
  }

  lemma AcceptedFromIff(s: State, clock: int, now: int, code: Code)
    requires Spaced(s.rows, clock)
    ensures VerifyOutcome(s, now, code) == Ok <==> NewestActiveHas(s.rows, now, code)
  {
    FindActiveIsNewest(s.rows, now, clock);
    if NewestActiveHas(s.rows, now, code) {
      var i :| 0 <= i < |s.rows| && Active(s.rows[i], now) && s.rows[i].code == code && s.rows[i].attempts > 0
               && forall j :: i < j < |s.rows| ==> !Active(s.rows[j], now);
      assert FindActive(s.rows, now) == Some(i);
    }
  }

  /** A code is accepted exactly when it is that of the newest active row and attempts are left. */
  lemma AcceptedIff(steps: seq<Step>, now: int, code: Code)
    requires ClockNeverRunsBack(steps)
    ensures VerifyOutcome(After(EMPTY, steps), now, code) == Ok <==> NewestActiveHas(After(EMPTY, steps).rows, now, code)
  {
    RunKeepsInv(steps);
    AcceptedFromIff(After(EMPTY, steps), LastTime(steps), now, code);
  }

  /** The last row that is neither used nor withdrawn nor five minutes old. */
  ghost predicate NewestActive(rows: seq<Row>, now: int, i: nat)
  {
    && i < |rows| && !rows[i].consumed && rows[i].createdAt + 300000 > now
    && forall j :: i < j < |rows| ==> rows[j].consumed || rows[j].createdAt + 300000 <= now
  }

  lemma NewestIsFound(s: State, clock: int, now: int, i: nat)
    requires Spaced(s.rows, clock) && NewestActive(s.rows, now, i)
    ensures FindActive(s.rows, now) == Some(i)
  {
    FindActiveIsNewest(s.rows, now, clock);
  }

  /**
   * After any run the answer depends on the newest active row and on how often
   * it was compared: from the fifth wrong code on every code is refused.
   */
  lemma AnswerIs(steps: seq<Step>, now: int, code: Code, i: nat)
    requires ClockNeverRunsBack(steps) && NewestActive(After(EMPTY, steps).rows, now, i)
    ensures var s := After(EMPTY, steps);
            var answer, tries, right := VerifyOutcome(s, now, code), ComparedWith(s.log, i), s.rows[i].code == code;
      && tries <= 5
      && (answer == Ok <==> right && tries < 5)
      && (answer == WrongCode <==> !right && tries < 4)
      && (answer == TooManyAttempts <==> tries == 5 || (!right && tries == 4))
  {
    var s := After(EMPTY, steps);
    RunKeepsInv(steps);
    NewestIsFound(s, LastTime(steps), now, i);
    assert Accounted(s, i);
  }

  /**
   * A comparison touches the newest active row only: the right code uses it up,
   * a wrong one costs an attempt and leaves it active.
   */
  lemma VerifyChanges(s: State, clock: int, now: int, code: Code, i: nat)
    requires Spaced(s.rows, clock) && NewestActive(s.rows, now, i)
    ensures var t, row := Verified(s, now, code), s.rows[i];
      && |t.rows| == |s.rows| && (forall j :: 0 <= j < |s.rows| && j != i ==> t.rows[j] == s.rows[j])
      && (row.attempts <= 0 ==> t == s)
      && (row.attempts > 0 && row.code == code ==> t.rows[i] == row.(consumed := true))
      && (row.attempts > 0 && row.code != code ==>
            t.rows[i] == row.(attempts := row.attempts - 1) && NewestActive(t.rows, now, i))
      && (row.attempts > 0 ==> t.log == s.log + [Comparison(i, now, row.code == code)])
  {
    NewestIsFound(s, clock, now, i);
  }

  /** Without an active row no code is accepted. */
  lemma NoActiveIff(steps: seq<Step>, now: int, code: Code)
    requires ClockNeverRunsBack(steps)
    ensures VerifyOutcome(After(EMPTY, steps), now, code) == NoActiveCode <==>
            forall i :: 0 <= i < |After(EMPTY, steps).rows| ==>
              After(EMPTY, steps).rows[i].consumed || After(EMPTY, steps).rows[i].createdAt + 300000 <= now
  {
    RunKeepsInv(steps);
    FindActiveIsNewest(After(EMPTY, steps).rows, now, LastTime(steps));
  }

  /** Issuing a code withdraws the earlier codes of its channel and of no other. */
  lemma IssueWithdrawsItsChannel(s: State, now: int, channel: Channel, code: Code, i: nat)
    requires RecentCount(s.rows, now) == 0 && i < |s.rows|
    ensures var t := Issued(s, now, channel, code);
            i < |t.rows| && (Active(t.rows[i], now) <==> Active(s.rows[i], now) && s.rows[i].channel != channel)
  {
  }

  /** The steps of a user who asks by two channels and uses both codes. */
  function TwoChannels(): seq<Step>
  {
    [Issue(0, 0, 111), Issue(THROTTLE, 1, 222), Verify(THROTTLE + 1, 222), Verify(THROTTLE + 2, 111)]
  }

  lemma OneMoreStep(steps: seq<Step>, s: State, step: Step, t: State)
    requires After(EMPTY, steps) == s && Apply(s, step) == t
    ensures After(EMPTY, steps + [step]) == t
  {
    assert (steps + [step])[..|steps|] == steps;
  }

  lemma FirstIssued(a: Row)
    requires a == Row(0, 111, MAX_ATTEMPTS, false, 0, TTL)
    ensures Issued(EMPTY, 0, 0, 111) == State([a], [])
  {
    assert Invalidated([], 0) == [];
  }

  lemma SecondIssued(a: Row, b: Row)
    requires a == Row(0, 111, MAX_ATTEMPTS, false, 0, TTL) && b == Row(1, 222, MAX_ATTEMPTS, false, THROTTLE, THROTTLE + TTL)
    ensures Issued(State([a], []), THROTTLE, 1, 222) == State([a, b], [])
  {
    NotRecent([a], THROTTLE);
    assert Invalidated([a], 1) == [a];
  }

  lemma BothVerified(a: Row, b: Row)
    requires a == Row(0, 111, MAX_ATTEMPTS, false, 0, TTL) && b == Row(1, 222, MAX_ATTEMPTS, false, THROTTLE, THROTTLE + TTL)
    ensures var once := Verified(State([a, b], []), THROTTLE + 1, 222);
            once == State([a, b.(consumed := true)], [Comparison(1, THROTTLE + 1, true)])
            && Verified(once, THROTTLE + 2, 111).log == [Comparison(1, THROTTLE + 1, true), Comparison(0, THROTTLE + 2, true)]
  {
    var used := b.(consumed := true);
    assert [a, b][..1] == [a] && [a, used][..1] == [a] && [a][..0] == [];
    assert FindActive([a], THROTTLE + 1) == Some(0) && FindActive([a], THROTTLE + 2) == Some(0);
    assert FindActive([a, b], THROTTLE + 1) == Some(1) && FindActive([a, used], THROTTLE + 2) == Some(0);
    assert [a, b][1 := used] == [a, used];
  }

  /** After the newer code was used, the older one of the other channel is accepted too. */
  lemma OlderCodeOfOtherChannelSurvives()
    ensures ClockNeverRunsBack(TwoChannels())
    ensures After(EMPTY, TwoChannels()).log == [Comparison(1, THROTTLE + 1, true), Comparison(0, THROTTLE + 2, true)]
  {
    var a, b := Row(0, 111, MAX_ATTEMPTS, false, 0, TTL), Row(1, 222, MAX_ATTEMPTS, false, THROTTLE, THROTTLE + TTL);
    var one, both := State([a], []), State([a, b], []);
    var first, second, third, fourth := Issue(0, 0, 111), Issue(THROTTLE, 1, 222), Verify(THROTTLE + 1, 222), Verify(THROTTLE + 2, 111);
    FirstIssued(a);
    OneMoreStep([], EMPTY, first, one);
    SecondIssued(a, b);
    OneMoreStep([] + [first], one, second, both);
    BothVerified(a, b);
    var once := Verified(both, THROTTLE + 1, 222);
    OneMoreStep([] + [first] + [second], both, third, once);
    OneMoreStep([] + [first] + [second] + [third], once, fourth, Verified(once, THROTTLE + 2, 111));
    assert [] + [first] + [second] + [third] + [fourth] == TwoChannels();
  }

  // ---- The service ---------------------------------------------------------------------------

  class OtpStore {
    var rows: seq<Row>
    ghost var log: seq<Comparison>

    constructor ()
      ensures Contents() == EMPTY
    {
      rows, log := [], [];
    }

    ghost function Contents(): State
      reads this
    {
      State(rows, log)
    }

    method RecentRequestCount(now: int) returns (n: nat)
      ensures n == RecentCount(rows, now)
    {
      n := 0;
      for i := 0 to |rows|
        invariant n == RecentCount(rows[..i], now)
      {
        assert rows[..i + 1][..i] == rows[..i];
        if rows[i].createdAt > now - THROTTLE {
          n := n + 1;
        }
      }
      assert rows[..|rows|] == rows;
    }

    method InvalidateActive(channel: Channel) returns (modified: nat)
      modifies this`rows
      ensures rows == Invalidated(old(rows), channel)
    {
      modified := 0;
      for i := 0 to |rows|
        invariant |rows| == |old(rows)|
        invariant rows[..i] == Invalidated(old(rows), channel)[..i] && rows[i..] == old(rows)[i..]
      {
        assert rows[i] == old(rows)[i..][0];
        if rows[i].channel == channel && !rows[i].consumed {
          rows := rows[i := rows[i].(consumed := true)];
          modified := modified + 1;
        }
      }
    }

    method FindActiveRow(now: int) returns (found: Option<nat>)
      ensures found == FindActive(rows, now)
    {
      found := None;
      for i := 0 to |rows|
        invariant found == FindActive(rows[..i], now)
      {
        assert rows[..i + 1][..i] == rows[..i];
        if !rows[i].consumed && rows[i].expiresAt > now && (found.None? || rows[i].createdAt > rows[found.value].createdAt) {
          found := Some(i);
        }
      }
      assert rows[..|rows|] == rows;
    }

    /** Creates a code unless one was created in the last minute. */
    method IssueCode(now: int, channel: Channel, code: Code) returns (issued: bool, expiresAt: int)
      modifies this
      ensures issued <==> forall i :: 0 <= i < |old(rows)| ==> old(rows)[i].createdAt <= now - 60000
      ensures issued ==> expiresAt == now + 300000
      ensures Contents() == Apply(old(Contents()), Issue(now, channel, code))
    {
      NotRecent(rows, now);
      var recent := RecentRequestCount(now);
      expiresAt := now + TTL;
      if recent >= 1 {
        return false, expiresAt;
      }
      var _ := InvalidateActive(channel);
      rows := rows + [Row(channel, code, MAX_ATTEMPTS, false, now, expiresAt)];
      issued := true;
    }

    /** Compares a code with the newest active one. */
    method VerifyCode(now: int, code: Code) returns (outcome: Outcome)
      modifies this
      ensures outcome == VerifyOutcome(old(Contents()), now, code)
      ensures Contents() == Apply(old(Contents()), Verify(now, code))
    {
      var found := FindActiveRow(now);
      if found.None? {
        return NoActiveCode;
      }
      var i, otp := found.value, rows[found.value];
      if otp.attempts <= 0 {
        return TooManyAttempts;
      }
      log := log + [Comparison(i, now, otp.code == code)];
      if otp.code != code {
        rows := rows[i := otp.(attempts := otp.attempts - 1)];
        return if rows[i].attempts <= 0 then TooManyAttempts else WrongCode;
      }
      rows := rows[i := otp.(consumed := true)];
      outcome := Ok;
    }
  }
}
