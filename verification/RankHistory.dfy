/**
 * The rank-history log of a contest: one row per entry and snapshot, written
 * only when the rank or the points of the entry changed.
 */
module RankHistory {
  import opened Options

  type EntryId = nat
  type UserId = nat

  datatype Movement = NewEntry | Same | Up | Down

  datatype Row = Row(entry: EntryId, user: UserId, rank: nat, points: real,
                     previousRank: Option<nat>, previousPoints: Option<real>,
                     movement: Movement, rankDelta: int, pointsDelta: real, capturedAt: int)

  datatype Seed = Seed(entry: EntryId, points: real)

  /** The ranked seeds of one rebuild, the owners known to the store, and the capture time in milliseconds. */
  datatype Snapshot = Snapshot(seeds: seq<Seed>, owners: map<EntryId, UserId>, capturedAt: int)

  /** What a row says about its entry. */
  datatype Standing = Standing(rank: nat, points: real)

  predicate DistinctEntries(seeds: seq<Seed>)
  {
    forall i, j :: 0 <= i < j < |seeds| ==> seeds[i].entry != seeds[j].entry
  }

  function StandingOf(row: Row): Standing
  {
    Standing(row.rank, row.points)
  }

  /** The row with the greatest capture time, the first one of equals. */
  function LatestRow(rows: seq<Row>, e: EntryId): (latest: Option<Row>)
    ensures latest.Some? ==> latest.value.entry == e
  {
    if rows == [] then None
    else
      var before := LatestRow(rows[..|rows| - 1], e);
      var row := rows[|rows| - 1];
      if row.entry == e && (before.None? || row.capturedAt > before.value.capturedAt) then Some(row) else before
  }

  function MovementFrom(prior: Option<Row>, rank: nat): Movement
  {
    if prior.None? then NewEntry
    else if prior.value.rank == rank then Same
    else if prior.value.rank > rank then Up
    else Down
  }

  function RowAfter(prior: Option<Row>, e: EntryId, user: UserId, now: Standing, at: int): Row
  {
    if prior.None? then Row(e, user, now.rank, now.points, None, None, NewEntry, 0, 0.0, at)
    else
      Row(e, user, now.rank, now.points, Some(prior.value.rank), Some(prior.value.points),
          MovementFrom(prior, now.rank), prior.value.rank - now.rank, now.points - prior.value.points, at)
  }

  /** The row of the seed at index `i`, if its entry changed and its owner is known. */
  function RowFor(rows: seq<Row>, snap: Snapshot, i: nat): seq<Row>
    requires i < |snap.seeds|
  {
    var seed := snap.seeds[i];
    var prior, now := LatestRow(rows, seed.entry), Standing(i + 1, seed.points);
    if (prior.Some? && StandingOf(prior.value) == now) || seed.entry !in snap.owners then []
    else [RowAfter(prior, seed.entry, snap.owners[seed.entry], now, snap.capturedAt)]
  }

  /** The rows of the first `n` seeds of a snapshot. */
  function NewRows(rows: seq<Row>, snap: Snapshot, n: nat): seq<Row>
    requires n <= |snap.seeds|
  {
    if n == 0 then [] else NewRows(rows, snap, n - 1) + RowFor(rows, snap, n - 1)
  }

  function Recorded(rows: seq<Row>, snap: Snapshot): seq<Row>
  {
    rows + NewRows(rows, snap, |snap.seeds|)
  }

  // ---- The service ---------------------------------------------------------------------------

  class RankHistoryLog {
    var rows: seq<Row>

    constructor ()
      ensures rows == []
    {
      rows := [];
    }

    /** The latest row of each of the entries. */
    method PriorByEntry(ids: set<EntryId>) returns (prior: map<EntryId, Row>)
      ensures forall e :: e in prior <==> e in ids && LatestRow(rows, e).Some?
      ensures forall e :: e in prior ==> LatestRow(rows, e) == Some(prior[e])
    {
      prior := map[];
      for i := 0 to |rows|
        invariant forall e :: e in prior <==> e in ids && LatestRow(rows[..i], e).Some?
        invariant forall e :: e in prior ==> LatestRow(rows[..i], e) == Some(prior[e])
      {
        var row := rows[i];
        assert rows[..i + 1][..i] == rows[..i];
        if row.entry in ids && (row.entry !in prior || row.capturedAt > prior[row.entry].capturedAt) {
          prior := prior[row.entry := row];
        }
      }
      assert rows[..|rows|] == rows;
    }

    /** Appends a row for every entry whose rank or points moved. */
    method RecordSnapshot(seeds: seq<Seed>, owners: map<EntryId, UserId>, capturedAt: int)
      returns (historyRowsWritten: nat)
      modifies this
      ensures rows == Recorded(old(rows), Snapshot(seeds, owners, capturedAt))
      ensures historyRowsWritten == |rows| - |old(rows)|
    {
      hide LatestRow;
      if |seeds| == 0 {
        return 0;
      }
      ghost var snap := Snapshot(seeds, owners, capturedAt);
      var prior := PriorByEntry(set i | 0 <= i < |seeds| :: seeds[i].entry);
      var historyRows: seq<Row> := [];
      for i := 0 to |seeds|
        invariant rows == old(rows)
        invariant historyRows == NewRows(rows, snap, i)
      {
        var seed, rank := seeds[i], i + 1;
        assert seed.entry in (set k | 0 <= k < |seeds| :: seeds[k].entry);
        if seed.entry in prior && prior[seed.entry].rank == rank && prior[seed.entry].points == seed.points {
        } else if seed.entry in owners {
          var row;
          if seed.entry in prior {
            var p := prior[seed.entry];
            var movement := if p.rank == rank then Same else if p.rank > rank then Up else Down;
            row := Row(seed.entry, owners[seed.entry], rank, seed.points, Some(p.rank), Some(p.points),
                       movement, p.rank - rank, seed.points - p.points, capturedAt);
          } else {
            row := Row(seed.entry, owners[seed.entry], rank, seed.points, None, None, NewEntry, 0, 0.0, capturedAt);
          }
          historyRows := historyRows + [row];
        }
      }
      rows := rows + historyRows;
      historyRowsWritten := |historyRows|;
    }
  }

  // ---- What the log means --------------------------------------------------------------------

  /** The log after a series of snapshots. */
  function History(snaps: seq<Snapshot>): seq<Row>
  {
    if snaps == [] then [] else Recorded(History(snaps[..|snaps| - 1]), snaps[|snaps| - 1])
  }

  /** Capture times increase and no snapshot ranks an entry twice. */
  predicate Chronological(snaps: seq<Snapshot>)
  {
    && (forall i :: 0 <= i < |snaps| ==> DistinctEntries(snaps[i].seeds))
    && (forall i, j :: 0 <= i < j < |snaps| ==> snaps[i].capturedAt < snaps[j].capturedAt)
  }

  /** Position and points of an entry among the first `n` seeds, if its owner is known. */
  function StandingAmong(snap: Snapshot, n: nat, e: EntryId): Option<Standing>
    requires n <= |snap.seeds|
  {
    if n == 0 || e !in snap.owners then None
    else if snap.seeds[n - 1].entry == e then Some(Standing(n, snap.seeds[n - 1].points))
    else StandingAmong(snap, n - 1, e)
  }

  function StandingIn(snap: Snapshot, e: EntryId): Option<Standing>
  {
    StandingAmong(snap, |snap.seeds|, e)
  }

  /** The standings of an entry over the snapshots that ranked it, repetitions left out. */
  function Changes(snaps: seq<Snapshot>, e: EntryId): seq<Standing>
  {
    if snaps == [] then []
    else
      var before := Changes(snaps[..|snaps| - 1], e);
      var now := StandingIn(snaps[|snaps| - 1], e);
      if now.None? || (before != [] && before[|before| - 1] == now.value) then before else before + [now.value]
  }

  /** The standing in the last snapshot that ranked the entry. */
  function LastStanding(snaps: seq<Snapshot>, e: EntryId): Option<Standing>
  {
    if snaps == [] then None
    else
      var now := StandingIn(snaps[|snaps| - 1], e);
      if now.Some? then now else LastStanding(snaps[..|snaps| - 1], e)
  }

  /** The rows of one entry, in the order they were written. */
  function RowsOf(rows: seq<Row>, e: EntryId): seq<Row>
  {
    if rows == [] then []
    else RowsOf(rows[..|rows| - 1], e) + if rows[|rows| - 1].entry == e then [rows[|rows| - 1]] else []
  }

  function StandingsOf(rows: seq<Row>): seq<Standing>
  {
    seq(|rows|, k requires 0 <= k < |rows| => StandingOf(rows[k]))
  }

  function LastOf(rows: seq<Row>): Option<Row>
  {
    if rows == [] then None else Some(rows[|rows| - 1])
  }

  /** The row follows from the one before it, changes something and is captured later. */
  predicate Follows(prior: Option<Row>, row: Row, e: EntryId)
  {
    && row == RowAfter(prior, e, row.user, StandingOf(row), row.capturedAt)
    && (prior.Some? ==> StandingOf(row) != StandingOf(prior.value) && prior.value.capturedAt < row.capturedAt)
  }

  predicate Chained(rows: seq<Row>, e: EntryId)
  {
    rows == []
    || (Chained(rows[..|rows| - 1], e) && Follows(LastOf(rows[..|rows| - 1]), rows[|rows| - 1], e))
  }

  lemma {:induction false} RowsOfConcat(a: seq<Row>, b: seq<Row>, e: EntryId)
    ensures RowsOf(a + b, e) == RowsOf(a, e) + RowsOf(b, e)
  {
    if b == [] {
      assert a + b == a;
    } else {
      var n := |b| - 1;
      assert (a + b)[..|a + b| - 1] == a + b[..n];
      RowsOfConcat(a, b[..n], e);
    }
  }

  /** The latest row is the last one written when capture times of an entry increase. */
  lemma {:induction false} LatestIsLast(rows: seq<Row>, e: EntryId)
    requires Chained(RowsOf(rows, e), e)
    ensures LatestRow(rows, e) == LastOf(RowsOf(rows, e))
  {
    if rows != [] {
      var init, all := rows[..|rows| - 1], RowsOf(rows, e);
      if rows[|rows| - 1].entry == e {
        assert all[..|all| - 1] == RowsOf(init, e);
      } else {
        assert all == RowsOf(init, e);
      }
      LatestIsLast(init, e);
    }
  }

  lemma RowForIs(rows: seq<Row>, snap: Snapshot, i: nat, e: EntryId)
    requires i < |snap.seeds|
    ensures RowsOf(RowFor(rows, snap, i), e) == if snap.seeds[i].entry == e then RowFor(rows, snap, i) else []
    ensures UpTo(RowFor(rows, snap, i), snap.capturedAt) == RowFor(rows, snap, i)
    ensures forall t :: t < snap.capturedAt ==> UpTo(RowFor(rows, snap, i), t) == []
  {
    var added := RowFor(rows, snap, i);
    assert |added| == 1 ==> added[..0] == [];
  }

  /** Every row of a snapshot names the owner its store knew, and the time of the snapshot. */
  lemma {:induction false} RowsNameTheOwner(rows: seq<Row>, snap: Snapshot, n: nat)
    requires n <= |snap.seeds|
    ensures forall r :: r in NewRows(rows, snap, n) ==>
              r.entry in snap.owners && r.user == snap.owners[r.entry] && r.capturedAt == snap.capturedAt
  {
    if n > 0 {
      RowsNameTheOwner(rows, snap, n - 1);
    }
  }

  /** What a snapshot that ranks an entry at `now` adds to its rows. */
  function AddedRows(rows: seq<Row>, snap: Snapshot, e: EntryId, now: Option<Standing>): seq<Row>
    requires now.Some? ==> e in snap.owners
  {
    var prior := LatestRow(rows, e);
    if now.None? || (prior.Some? && StandingOf(prior.value) == now.value) then []
    else [RowAfter(prior, e, snap.owners[e], now.value, snap.capturedAt)]
  }

  lemma NoRows(rows: seq<Row>, snap: Snapshot, e: EntryId)
    ensures RowsOf([], e) == [] && AddedRows(rows, snap, e, None) == []
  {
  }

  lemma RowForRanked(rows: seq<Row>, snap: Snapshot, i: nat)
    requires i < |snap.seeds|
    ensures var e := snap.seeds[i].entry;
            RowFor(rows, snap, i)
            == AddedRows(rows, snap, e, if e in snap.owners then Some(Standing(i + 1, snap.seeds[i].points)) else None)
  {
  }

  lemma OtherSeed(rows: seq<Row>, snap: Snapshot, n: nat, e: EntryId)
    requires 0 < n <= |snap.seeds| && snap.seeds[n - 1].entry != e
    ensures RowsOf(NewRows(rows, snap, n), e) == RowsOf(NewRows(rows, snap, n - 1), e)
    ensures StandingAmong(snap, n, e) == StandingAmong(snap, n - 1, e)
  {
    hide RowsOf, RowFor;
    RowsOfConcat(NewRows(rows, snap, n - 1), RowFor(rows, snap, n - 1), e);
    RowForIs(rows, snap, n - 1, e);
  }

  lemma RankedSeed(rows: seq<Row>, snap: Snapshot, n: nat, e: EntryId)
    requires 0 < n <= |snap.seeds| && snap.seeds[n - 1].entry == e
    requires RowsOf(NewRows(rows, snap, n - 1), e) == []
    ensures StandingAmong(snap, n, e).Some? ==> e in snap.owners
    ensures RowsOf(NewRows(rows, snap, n), e) == AddedRows(rows, snap, e, StandingAmong(snap, n, e))
  {
    hide RowsOf, RowFor, AddedRows;
    RowsOfConcat(NewRows(rows, snap, n - 1), RowFor(rows, snap, n - 1), e);
    RowForIs(rows, snap, n - 1, e);
    RowForRanked(rows, snap, n - 1);
  }

  /** A snapshot adds at most one row to an entry. */
  lemma {:induction false} OneRowPerSnapshot(rows: seq<Row>, snap: Snapshot, n: nat, e: EntryId)
    requires n <= |snap.seeds| && DistinctEntries(snap.seeds)
    ensures StandingAmong(snap, n, e).Some? ==> e in snap.owners
    ensures RowsOf(NewRows(rows, snap, n), e) == AddedRows(rows, snap, e, StandingAmong(snap, n, e))
  {
    hide RowsOf, AddedRows;
    NoRows(rows, snap, e);
    if n > 0 {
      hide NewRows, StandingAmong;
      OneRowPerSnapshot(rows, snap, n - 1, e);
      if snap.seeds[n - 1].entry == e {
        NotAmongEarlier(snap, n - 1, e);
        RankedSeed(rows, snap, n, e);
      } else {
        OtherSeed(rows, snap, n, e);
      }
    }
  }

  lemma {:induction false} NotAmongEarlier(snap: Snapshot, n: nat, e: EntryId)
    requires n <= |snap.seeds| && forall i :: 0 <= i < n ==> snap.seeds[i].entry != e
    ensures StandingAmong(snap, n, e).None?
  {
    if n > 0 {
      NotAmongEarlier(snap, n - 1, e);
    }
  }

  lemma ChainGrows(rows: seq<Row>, row: Row, e: EntryId)
    requires Chained(rows, e) && Follows(LastOf(rows), row, e)
    ensures Chained(rows + [row], e)
  {
    assert (rows + [row])[..|rows + [row]| - 1] == rows;
  }

  lemma StandingsGrow(rows: seq<Row>, row: Row)
    ensures StandingsOf(rows + [row]) == StandingsOf(rows) + [StandingOf(row)]
  {
  }

  /** What one more snapshot adds to the rows of an entry. */
  lemma RowsAfterSnapshot(snaps: seq<Snapshot>, e: EntryId)
    requires Chronological(snaps) && snaps != []
    requires Chained(RowsOf(History(snaps[..|snaps| - 1]), e), e)
    ensures StandingIn(snaps[|snaps| - 1], e).Some? ==> e in snaps[|snaps| - 1].owners
    ensures var snap, before := snaps[|snaps| - 1], RowsOf(History(snaps[..|snaps| - 1]), e);
            var now, prior := StandingIn(snap, e), LastOf(before);
            RowsOf(History(snaps), e)
            == if now.None? || (prior.Some? && StandingOf(prior.value) == now.value) then before
               else before + [RowAfter(prior, e, snap.owners[e], now.value, snap.capturedAt)]
  {
    var init, snap := snaps[..|snaps| - 1], snaps[|snaps| - 1];
    LatestIsLast(History(init), e);
    RowsOfConcat(History(init), NewRows(History(init), snap, |snap.seeds|), e);
    OneRowPerSnapshot(History(init), snap, |snap.seeds|, e);
  }

  lemma ChronologicalPrefix(snaps: seq<Snapshot>)
    requires Chronological(snaps) && snaps != []
    ensures Chronological(snaps[..|snaps| - 1])
    ensures |snaps| > 1 ==> snaps[|snaps| - 2].capturedAt < snaps[|snaps| - 1].capturedAt
  {
  }

  /** The rows of an entry are chained, and no younger than the last snapshot. */
  lemma {:induction false} LogIsChained(snaps: seq<Snapshot>, e: EntryId)
    requires Chronological(snaps)
    ensures var last := LastOf(RowsOf(History(snaps), e));
            Chained(RowsOf(History(snaps), e), e)
            && (last.Some? ==> snaps != [] && last.value.capturedAt <= snaps[|snaps| - 1].capturedAt)
  {
    hide History, RowsOf;
    NothingLogged(e);
    if snaps != [] {
      var init, snap := snaps[..|snaps| - 1], snaps[|snaps| - 1];
      ChronologicalPrefix(snaps);
      LogIsChained(init, e);
      RowsAfterSnapshot(snaps, e);
      var before, now := RowsOf(History(init), e), StandingIn(snap, e);
      if now.Some? && (before == [] || StandingOf(before[|before| - 1]) != now.value) {
        ChainGrows(before, RowAfter(LastOf(before), e, snap.owners[e], now.value, snap.capturedAt), e);
      }
    }
  }

  lemma NothingLogged(e: EntryId)
    ensures RowsOf(History([]), e) == []
  {
  }

  lemma LastStandingOf(rows: seq<Row>)
    requires rows != []
    ensures |StandingsOf(rows)| == |rows| && StandingsOf(rows)[|rows| - 1] == StandingOf(rows[|rows| - 1])
  {
  }

  lemma ChangesStep(snaps: seq<Snapshot>, e: EntryId)
    requires snaps != []
    ensures var before, now := Changes(snaps[..|snaps| - 1], e), StandingIn(snaps[|snaps| - 1], e);
            Changes(snaps, e)
            == if now.None? || (before != [] && before[|before| - 1] == now.value) then before else before + [now.value]
  {
  }

  lemma ChangesStay(snaps: seq<Snapshot>, e: EntryId, rows: seq<Row>)
    requires snaps != [] && StandingsOf(rows) == Changes(snaps[..|snaps| - 1], e)
    requires var now := StandingIn(snaps[|snaps| - 1], e);
             now.None? || (rows != [] && StandingOf(rows[|rows| - 1]) == now.value)
    ensures StandingsOf(rows) == Changes(snaps, e)
  {
    hide StandingsOf, StandingIn, Changes, StandingOf;
    ChangesStep(snaps, e);
    if rows != [] {
      LastStandingOf(rows);
    }
  }

  lemma ChangesGrow(snaps: seq<Snapshot>, e: EntryId, rows: seq<Row>, row: Row)
    requires snaps != [] && StandingsOf(rows) == Changes(snaps[..|snaps| - 1], e)
    requires StandingIn(snaps[|snaps| - 1], e) == Some(StandingOf(row))
    requires rows == [] || StandingOf(rows[|rows| - 1]) != StandingOf(row)
    ensures StandingsOf(rows + [row]) == Changes(snaps, e)
  {
    hide StandingsOf, StandingIn, Changes, StandingOf;
    ChangesStep(snaps, e);
    StandingsGrow(rows, row);
    if rows == [] {
      NoStandings();
    } else {
      LastStandingOf(rows);
    }
  }

  lemma NoStandings()
    ensures StandingsOf([]) == []
  {
  }

  /**
   * The log holds, for every entry, exactly the changes of its rank and points,
   * each row linked to the one before.
   */
  lemma {:induction false} LogIsTheChanges(snaps: seq<Snapshot>, e: EntryId)
    requires Chronological(snaps)
    ensures StandingsOf(RowsOf(History(snaps), e)) == Changes(snaps, e)
    ensures Chained(RowsOf(History(snaps), e), e)
  {
    hide History, RowsOf, Chained, StandingsOf, StandingIn, LatestRow;
    LogIsChained(snaps, e);
    if snaps == [] {
      NothingLogged(e);
      NoStandings();
    } else {
      var init, snap := snaps[..|snaps| - 1], snaps[|snaps| - 1];
      var before, now := RowsOf(History(init), e), StandingIn(snap, e);
      ChronologicalPrefix(snaps);
      LogIsTheChanges(init, e);
      RowsAfterSnapshot(snaps, e);
      if now.None? || (before != [] && StandingOf(before[|before| - 1]) == now.value) {
        ChangesStay(snaps, e, before);
      } else {
        ChangesGrow(snaps, e, before, RowAfter(LastOf(before), e, snap.owners[e], now.value, snap.capturedAt));
      }
    }
  }

  lemma {:induction false} ChangesEndInLastStanding(snaps: seq<Snapshot>, e: EntryId)
    ensures LastStanding(snaps, e)
         == (if Changes(snaps, e) == [] then None else Some(Changes(snaps, e)[|Changes(snaps, e)| - 1]))
  {
    if snaps != [] {
      ChangesEndInLastStanding(snaps[..|snaps| - 1], e);
    }
  }

  /** The latest row of an entry is its rank and points in the last snapshot that ranked it. */
  lemma LatestRowIsCurrent(snaps: seq<Snapshot>, e: EntryId)
    requires Chronological(snaps)
    ensures var latest := LatestRow(History(snaps), e);
            LastStanding(snaps, e) == if latest.None? then None else Some(StandingOf(latest.value))
  {
    LogIsTheChanges(snaps, e);
    LatestIsLast(History(snaps), e);
    ChangesEndInLastStanding(snaps, e);
    var rows := RowsOf(History(snaps), e);
    assert rows != [] ==> StandingsOf(rows)[|rows| - 1] == StandingOf(rows[|rows| - 1]);
  }

  // ---- Replay --------------------------------------------------------------------------------

  function UpTo(rows: seq<Row>, t: int): seq<Row>
  {
    if rows == [] then []
    else UpTo(rows[..|rows| - 1], t) + if rows[|rows| - 1].capturedAt <= t then [rows[|rows| - 1]] else []
  }

  lemma {:induction false} UpToConcat(a: seq<Row>, b: seq<Row>, t: int)
    ensures UpTo(a + b, t) == UpTo(a, t) + UpTo(b, t)
  {
    if b == [] {
      assert a + b == a;
    } else {
      var n := |b| - 1;
      assert (a + b)[..|a + b| - 1] == a + b[..n];
      UpToConcat(a, b[..n], t);
    }
  }

  lemma NothingUpTo(t: int)
    ensures UpTo([], t) == []
  {
  }

  lemma {:induction false} NewRowsUpTo(rows: seq<Row>, snap: Snapshot, n: nat, t: int)
    requires n <= |snap.seeds|
    ensures UpTo(NewRows(rows, snap, n), t) == if snap.capturedAt <= t then NewRows(rows, snap, n) else []
  {
    hide RowFor, UpTo;
    NothingUpTo(t);
    if n > 0 {
      NewRowsUpTo(rows, snap, n - 1, t);
      UpToConcat(NewRows(rows, snap, n - 1), RowFor(rows, snap, n - 1), t);
      RowForIs(rows, snap, n - 1, 0);
      if snap.capturedAt <= t {
        UpToLater(RowFor(rows, snap, n - 1), snap.capturedAt, t);
      }
    }
  }

  /** The rows captured up to snapshot `k` are the log as it was then. */
  lemma {:induction false} PastLogIsKept(snaps: seq<Snapshot>, k: nat)
    requires Chronological(snaps) && k < |snaps|
    ensures UpTo(History(snaps), snaps[k].capturedAt) == History(snaps[..k + 1])
  {
    hide NewRows, UpTo;
    var init, snap := snaps[..|snaps| - 1], snaps[|snaps| - 1];
    var t := snaps[k].capturedAt;
    NothingUpTo(t);
    ChronologicalPrefix(snaps);
    UpToConcat(History(init), NewRows(History(init), snap, |snap.seeds|), t);
    NewRowsUpTo(History(init), snap, |snap.seeds|, t);
    if k < |init| {
      PastLogIsKept(init, k);
      assert init[..k + 1] == snaps[..k + 1];
    } else {
      assert snaps[..k + 1] == snaps;
      if init != [] {
        PastLogIsKept(init, |init| - 1);
        assert init[..|init|] == init;
        UpToLater(History(init), init[|init| - 1].capturedAt, t);
      }
    }
  }

  lemma {:induction false} UpToLater(rows: seq<Row>, s: int, t: int)
    requires s <= t && UpTo(rows, s) == rows
    ensures UpTo(rows, t) == rows
  {
    if rows != [] {
      UpToShrinks(rows[..|rows| - 1], s);
      assert UpTo(rows, s)[..|rows| - 1] == rows[..|rows| - 1];
      UpToLater(rows[..|rows| - 1], s, t);
    }
  }

  lemma {:induction false} UpToShrinks(rows: seq<Row>, t: int)
    ensures |UpTo(rows, t)| <= |rows|
  {
    if rows != [] {
      UpToShrinks(rows[..|rows| - 1], t);
    }
  }

  /** Replaying the log up to any snapshot gives every standing of that moment. */
  lemma Replay(snaps: seq<Snapshot>, k: nat, e: EntryId)
    requires Chronological(snaps) && k < |snaps|
    ensures var row := LatestRow(UpTo(History(snaps), snaps[k].capturedAt), e);
            LastStanding(snaps[..k + 1], e) == if row.None? then None else Some(StandingOf(row.value))
  {
    PastLogIsKept(snaps, k);
    LatestRowIsCurrent(snaps[..k + 1], e);
  }

  // ---- Deltas --------------------------------------------------------------------------------

  function RanksMoved(rows: seq<Row>): int
  {
    if rows == [] then 0 else RanksMoved(rows[..|rows| - 1]) + rows[|rows| - 1].rankDelta
  }

  function PointsMoved(rows: seq<Row>): real
  {
    if rows == [] then 0.0 else PointsMoved(rows[..|rows| - 1]) + rows[|rows| - 1].pointsDelta
  }

  lemma {:induction false} DeltasOfChain(rows: seq<Row>, e: EntryId)
    requires Chained(rows, e) && rows != []
    ensures RanksMoved(rows) == rows[0].rank - rows[|rows| - 1].rank
    ensures PointsMoved(rows) == rows[|rows| - 1].points - rows[0].points
  {
    if |rows| > 1 {
      DeltasOfChain(rows[..|rows| - 1], e);
    }
  }

  lemma {:induction false} ChainLink(rows: seq<Row>, e: EntryId, k: nat)
    requires Chained(rows, e) && k < |rows|
    ensures Follows(LastOf(rows[..k]), rows[k], e)
  {
    if k < |rows| - 1 {
      ChainLink(rows[..|rows| - 1], e, k);
      assert rows[..|rows| - 1][..k] == rows[..k];
    }
  }

  /** All deltas of an entry add up to the way from its first standing to its current one. */
  lemma DeltasTelescope(snaps: seq<Snapshot>, e: EntryId)
    requires Chronological(snaps) && LastStanding(snaps, e).Some?
    ensures Changes(snaps, e) != []
    ensures var rows, first, now := RowsOf(History(snaps), e), Changes(snaps, e)[0], LastStanding(snaps, e).value;
            RanksMoved(rows) == first.rank - now.rank && PointsMoved(rows) == now.points - first.points
  {
    var rows := RowsOf(History(snaps), e);
    LogIsTheChanges(snaps, e);
    ChangesEndInLastStanding(snaps, e);
    assert |rows| == |StandingsOf(rows)| == |Changes(snaps, e)|;
    DeltasOfChain(rows, e);
    assert StandingsOf(rows)[0] == StandingOf(rows[0]);
    assert StandingsOf(rows)[|rows| - 1] == StandingOf(rows[|rows| - 1]);
  }

  /** Rows say which way the entry moved. */
  lemma MovementsAreTrue(snaps: seq<Snapshot>, e: EntryId, k: nat)
    requires Chronological(snaps) && k < |RowsOf(History(snaps), e)|
    ensures var rows := RowsOf(History(snaps), e);
            && (rows[k].movement == NewEntry <==> k == 0)
            && (k > 0 ==>
                  && rows[k].previousRank == Some(rows[k - 1].rank) && rows[k].previousPoints == Some(rows[k - 1].points)
                  && (rows[k].movement == Up <==> rows[k].rank < rows[k - 1].rank)
                  && (rows[k].movement == Down <==> rows[k].rank > rows[k - 1].rank)
                  && (rows[k].movement == Same ==> rows[k].points != rows[k - 1].points))
  {
    LogIsTheChanges(snaps, e);
    var rows := RowsOf(History(snaps), e);
    ChainLink(rows, e, k);
  }
}
