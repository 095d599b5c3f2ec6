/** Fantasy teams and the flat projection of their rosters, changed together. */
module TeamProjection {
  import opened FantasyScoring
  import opened Options
  import opened Rounding
  import opened Sums
  import V = TeamValidator

  type TeamId = nat
  type UserId = nat
  type MatchId = nat
  type PlayerId = string

  datatype RosterPlayer = RosterPlayer(player: PlayerId, role: PlayerRole, realTeam: string, credits: real,
                                       isCaptain: bool, isViceCaptain: bool)

  datatype Roster = Roster(players: seq<RosterPlayer>, totalCredits: real, roleBreakdown: map<PlayerRole, int>,
                           teamBreakdown: map<string, int>, captain: PlayerId, viceCaptain: PlayerId)

  datatype Team = Team(user: UserId, gameMatch: MatchId, name: string, roster: Roster, editable: bool, deleted: bool)

  datatype Row = Row(team: TeamId, user: UserId, gameMatch: MatchId, player: RosterPlayer, deleted: bool)

  datatype State = State(teams: map<TeamId, Team>, rows: seq<Row>)

  // ---- Changes -------------------------------------------------------------------------------

  datatype Change =
    | Created(id: TeamId, team: Team)
    | Updated(id: TeamId, name: Option<string>, roster: Option<Roster>)
    | Deleted(id: TeamId)
    | LockedForMatch(gameMatch: MatchId)

  predicate Live(s: State, id: TeamId)
  {
    id in s.teams && !s.teams[id].deleted
  }

  predicate DistinctPlayers(players: seq<RosterPlayer>)
  {
    forall i, j :: 0 <= i < j < |players| ==> players[i].player != players[j].player
  }

  predicate Enabled(s: State, change: Change)
  {
    match change
    case Created(id, team) => id !in s.teams && DistinctPlayers(team.roster.players) && team.editable && !team.deleted
    case Updated(id, name, roster) => Live(s, id) && (roster.Some? ==> DistinctPlayers(roster.value.players))
    case Deleted(id) => Live(s, id)
    case LockedForMatch(m) => true
  }

  /** One row per player of the roster. */
  function Projection(id: TeamId, team: Team): seq<Row>
  {
    seq(|team.roster.players|, i requires 0 <= i < |team.roster.players| =>
      Row(id, team.user, team.gameMatch, team.roster.players[i], false))
  }

  /** Soft-deletes the rows of a team. */
  function Retired(rows: seq<Row>, id: TeamId): seq<Row>
  {
    seq(|rows|, i requires 0 <= i < |rows| => if rows[i].team == id && !rows[i].deleted then rows[i].(deleted := true) else rows[i])
  }

  function Patched(team: Team, name: Option<string>, roster: Option<Roster>): Team
  {
    team.(name := if name.Some? then name.value else team.name, roster := if roster.Some? then roster.value else team.roster)
  }

  function LockTeams(teams: map<TeamId, Team>, m: MatchId): map<TeamId, Team>
  {
    map t | t in teams :: if teams[t].gameMatch == m && !teams[t].deleted then teams[t].(editable := false) else teams[t]
  }

  function Apply(s: State, change: Change): State
    requires Enabled(s, change)
  {
    match change
    case Created(id, team) => State(s.teams[id := team], s.rows + Projection(id, team))
    case Updated(id, name, roster) =>
      var team := Patched(s.teams[id], name, roster);
      State(s.teams[id := team], if roster.Some? then Retired(s.rows, id) + Projection(id, team) else s.rows)
    case Deleted(id) => State(s.teams[id := s.teams[id].(deleted := true)], Retired(s.rows, id))
    case LockedForMatch(m) => s.(teams := LockTeams(s.teams, m))
  }

  predicate Runs(s: State, changes: seq<Change>)
    decreases |changes|
  {
    changes == [] || (Enabled(s, changes[0]) && Runs(Apply(s, changes[0]), changes[1..]))
  }

  function After(s: State, changes: seq<Change>): State
    requires Runs(s, changes)
    decreases |changes|
  {
    if changes == [] then s else After(Apply(s, changes[0]), changes[1..])
  }

  const EMPTY := State(map[], [])

  // ---- Agreement -----------------------------------------------------------------------------

  /** The live rows of a team, in the order they were inserted. */
  function LiveRows(rows: seq<Row>, id: TeamId): seq<Row>
  {
    if rows == [] then []
    else
      var last := rows[|rows| - 1];
      LiveRows(rows[..|rows| - 1], id) + if last.team == id && !last.deleted then [last] else []
  }

  /** A live team has one live row per roster player, in roster order; no other team has any. */
  predicate AgreeAt(s: State, id: TeamId)
  {
    LiveRows(s.rows, id) == if Live(s, id) then Projection(id, s.teams[id]) else []
  }

  ghost predicate Agree(s: State)
  {
    forall id :: AgreeAt(s, id)
  }

  ghost predicate DistinctRosters(s: State)
  {
    forall id :: id in s.teams ==> DistinctPlayers(s.teams[id].roster.players)
  }

  lemma {:induction false} LiveRowsConcat(a: seq<Row>, b: seq<Row>, id: TeamId)
    ensures LiveRows(a + b, id) == LiveRows(a, id) + LiveRows(b, id)
  {
    if b == [] {
      assert a + b == a;
    } else {
      assert (a + b)[..|a + b| - 1] == a + b[..|b| - 1];
      LiveRowsConcat(a, b[..|b| - 1], id);
    }
  }

  lemma {:induction false} LiveRowsOfProjection(rows: seq<Row>, owner: TeamId, id: TeamId)
    requires forall i :: 0 <= i < |rows| ==> rows[i].team == owner && !rows[i].deleted
    ensures LiveRows(rows, id) == if id == owner then rows else []
  {
    if rows != [] {
      LiveRowsOfProjection(rows[..|rows| - 1], owner, id);
    }
  }

  lemma {:induction false} LiveRowsRetired(rows: seq<Row>, gone: TeamId, id: TeamId)
    ensures LiveRows(Retired(rows, gone), id) == if id == gone then [] else LiveRows(rows, id)
  {
    if rows != [] {
      LiveRowsRetired(rows[..|rows| - 1], gone, id);
      assert Retired(rows, gone)[..|rows| - 1] == Retired(rows[..|rows| - 1], gone);
    }
  }

  lemma OwnRows(c: TeamId, team: Team, id: TeamId)
    ensures LiveRows(Projection(c, team), id) == if id == c then Projection(c, team) else []
  {
    LiveRowsOfProjection(Projection(c, team), c, id);
  }

  lemma SameRoster(c: TeamId, a: Team, b: Team)
    requires a.user == b.user && a.gameMatch == b.gameMatch && a.roster == b.roster
    ensures Projection(c, a) == Projection(c, b)
  {
  }

  lemma CreateKeepsAgreement(s: State, c: TeamId, team: Team, id: TeamId)
    requires AgreeAt(s, id) && Enabled(s, Created(c, team))
    ensures AgreeAt(Apply(s, Created(c, team)), id)
  {
    hide LiveRows, Projection;
    LiveRowsConcat(s.rows, Projection(c, team), id);
    OwnRows(c, team, id);
  }

  lemma UpdateKeepsAgreement(s: State, c: TeamId, name: Option<string>, roster: Option<Roster>, id: TeamId)
    requires AgreeAt(s, id) && Enabled(s, Updated(c, name, roster))
    ensures AgreeAt(Apply(s, Updated(c, name, roster)), id)
  {
    hide LiveRows, Projection, Retired;
    var team := Patched(s.teams[c], name, roster);
    LiveRowsRetired(s.rows, c, id);
    LiveRowsConcat(Retired(s.rows, c), Projection(c, team), id);
    OwnRows(c, team, id);
    if roster.None? {
      SameRoster(c, team, s.teams[c]);
    }
  }

  lemma ChangeKeepsAgreement(s: State, change: Change)
    requires Agree(s) && Enabled(s, change)
    ensures Agree(Apply(s, change))
  {
    forall id ensures AgreeAt(Apply(s, change), id) {
      assert AgreeAt(s, id);
      match change
      case Created(c, team) => CreateKeepsAgreement(s, c, team, id);
      case Updated(c, name, roster) => UpdateKeepsAgreement(s, c, name, roster, id);
      case Deleted(c) => LiveRowsRetired(s.rows, c, id);
      case LockedForMatch(m) =>
        assert Live(s, id) ==> Projection(id, LockTeams(s.teams, m)[id]) == Projection(id, s.teams[id]);
    }
  }

  lemma {:induction false} RunKeepsAgreement(s: State, changes: seq<Change>)
    requires Agree(s) && DistinctRosters(s) && Runs(s, changes)
    ensures Agree(After(s, changes)) && DistinctRosters(After(s, changes))
    decreases |changes|
  {
    if changes != [] {
      ChangeKeepsAgreement(s, changes[0]);
      RunKeepsAgreement(Apply(s, changes[0]), changes[1..]);
    }
  }

  /** After any history the live rows of every live team are its roster, and a deleted team has none. */
  lemma ProjectionAgrees(changes: seq<Change>, id: TeamId)
    requires Runs(EMPTY, changes)
    ensures AgreeAt(After(EMPTY, changes), id)
    ensures var s := After(EMPTY, changes);
            var rows := LiveRows(s.rows, id);
      && (!Live(s, id) ==> rows == [])
      && (Live(s, id) ==>
            var team := s.teams[id];
            && |rows| == |team.roster.players|
            && forall i :: 0 <= i < |rows| ==>
                 rows[i].team == id && rows[i].user == team.user && rows[i].gameMatch == team.gameMatch
                 && rows[i].player == team.roster.players[i] && !rows[i].deleted)
  {
    NoRowsAgree();
    RunKeepsAgreement(EMPTY, changes);
  }

  /** When a match starts, its live teams, and no others, stop being editable; nothing else about a team changes. */
  lemma LockedTeamsAre(s: State, m: MatchId, id: TeamId)
    requires id in s.teams
    ensures var before, t := s.teams[id], Apply(s, LockedForMatch(m));
      && t.rows == s.rows && t.teams.Keys == s.teams.Keys
      && t.teams[id] == before.(editable := before.editable && (before.gameMatch != m || before.deleted))
  {
  }

  lemma NoRowsAgree()
    ensures Agree(EMPTY)
  {
  }

  /** The live teams of a user in a match. */
  function TeamsOfUser(teams: map<TeamId, Team>, user: UserId, m: MatchId): set<TeamId>
  {
    set t | t in teams && !teams[t].deleted && teams[t].user == user && teams[t].gameMatch == m
  }

  /** The number that the cap is compared with goes up with a new team, down with a deleted one, and is else the same. */
  lemma TeamCountMoves(s: State, change: Change, user: UserId, m: MatchId)
    requires Enabled(s, change)
    ensures var t := Apply(s, change);
            var before, after := |TeamsOfUser(s.teams, user, m)|, |TeamsOfUser(t.teams, user, m)|;
      && (change.Created? ==>
            after == before + if change.team.user == user && change.team.gameMatch == m then 1 else 0)
      && (change.Deleted? ==>
            after == before - if s.teams[change.id].user == user && s.teams[change.id].gameMatch == m then 1 else 0)
      && (change.Updated? || change.LockedForMatch? ==> after == before)
  {
    hide TeamsOfUser, Projection, Retired, LockTeams;
    match change
    case Created(id, team) => OneTeamWritten(s.teams, id, team, user, m);
    case Updated(id, name, roster) => OneTeamWritten(s.teams, id, Patched(s.teams[id], name, roster), user, m);
    case Deleted(id) => OneTeamWritten(s.teams, id, s.teams[id].(deleted := true), user, m);
    case LockedForMatch(g) => LockingCountsSame(s.teams, g, user, m);
  }

  predicate Counts(team: Team, user: UserId, m: MatchId)
  {
    !team.deleted && team.user == user && team.gameMatch == m
  }

  lemma OneTeamWritten(teams: map<TeamId, Team>, id: TeamId, team: Team, user: UserId, m: MatchId)
    ensures |TeamsOfUser(teams[id := team], user, m)|
         == |TeamsOfUser(teams, user, m)| - (if id in teams && Counts(teams[id], user, m) then 1 else 0)
            + if Counts(team, user, m) then 1 else 0
  {
    var before, after := TeamsOfUser(teams, user, m), TeamsOfUser(teams[id := team], user, m);
    forall t | t != id ensures t in after <==> t in before {
    }
    assert after - {id} == before - {id};
    assert id in before <==> id in teams && Counts(teams[id], user, m);
    assert id in after <==> Counts(team, user, m);
    WithOrWithout(before, id);
    WithOrWithout(after, id);
  }

  lemma WithOrWithout(s: set<TeamId>, id: TeamId)
    ensures |s| == |s - {id}| + if id in s then 1 else 0
  {
    if id in s {
      assert s == (s - {id}) + {id};
    } else {
      assert s == s - {id};
    }
  }

  lemma LockingCountsSame(teams: map<TeamId, Team>, g: MatchId, user: UserId, m: MatchId)
    ensures TeamsOfUser(LockTeams(teams, g), user, m) == TeamsOfUser(teams, user, m)
  {
  }

  // ---- Selections ----------------------------------------------------------------------------

  predicate Selects(row: Row, m: MatchId, p: PlayerId)
  {
    !row.deleted && row.gameMatch == m && row.player.player == p
  }

  /** The indexed count behind the selection percentage. */
  function CountSelections(rows: seq<Row>, m: MatchId, p: PlayerId): nat
  {
    if rows == [] then 0
    else CountSelections(rows[..|rows| - 1], m, p) + if Selects(rows[|rows| - 1], m, p) then 1 else 0
  }

  /** The teams whose live rows are counted. */
  function SelectingTeams(rows: seq<Row>, m: MatchId, p: PlayerId): set<TeamId>
  {
    if rows == [] then {}
    else
      var last := rows[|rows| - 1];
      SelectingTeams(rows[..|rows| - 1], m, p) + if Selects(last, m, p) then {last.team} else {}
  }

  lemma {:induction false} SelectingTeamsAre(rows: seq<Row>, m: MatchId, p: PlayerId)
    ensures forall t :: t in SelectingTeams(rows, m, p) <==> exists i :: 0 <= i < |rows| && Selects(rows[i], m, p) && rows[i].team == t
  {
    hide Selects;
    if rows != [] {
      var n := |rows| - 1;
      SelectingTeamsAre(rows[..n], m, p);
      assert forall i :: 0 <= i < n ==> rows[..n][i] == rows[i];
    }
  }

  predicate Holds(team: Team, p: PlayerId)
  {
    exists q :: q in team.roster.players && q.player == p
  }

  /** The live teams of the match that hold the player. */
  function Holders(s: State, m: MatchId, p: PlayerId): set<TeamId>
  {
    set id | id in s.teams && !s.teams[id].deleted && s.teams[id].gameMatch == m && Holds(s.teams[id], p)
  }

  lemma {:induction false} LiveRowIsListed(rows: seq<Row>, i: nat)
    requires i < |rows| && !rows[i].deleted
    ensures rows[i] in LiveRows(rows, rows[i].team)
  {
    if i < |rows| - 1 {
      LiveRowIsListed(rows[..|rows| - 1], i);
    }
  }

  lemma {:induction false} ListedRowIsLive(rows: seq<Row>, id: TeamId)
    ensures forall r :: r in LiveRows(rows, id) ==> r in rows && r.team == id && !r.deleted
  {
    if rows != [] {
      ListedRowIsLive(rows[..|rows| - 1], id);
      assert rows == rows[..|rows| - 1] + [rows[|rows| - 1]];
    }
  }

  predicate DistinctRows(rows: seq<Row>)
  {
    forall i, j :: 0 <= i < j < |rows| ==> rows[i].player.player != rows[j].player.player
  }

  lemma PrefixStaysDistinct(rows: seq<Row>, id: TeamId)
    requires rows != [] && DistinctRows(LiveRows(rows, id))
    ensures DistinctRows(LiveRows(rows[..|rows| - 1], id))
  {
    var before := LiveRows(rows[..|rows| - 1], id);
    assert before == LiveRows(rows, id)[..|before|];
  }

  lemma {:induction false} CountIsTeams(rows: seq<Row>, m: MatchId, p: PlayerId)
    requires forall id :: DistinctRows(LiveRows(rows, id))
    ensures CountSelections(rows, m, p) == |SelectingTeams(rows, m, p)|
  {
    hide LiveRows, DistinctRows;
    if rows != [] {
      var init, last := rows[..|rows| - 1], rows[|rows| - 1];
      forall id: TeamId ensures DistinctRows(LiveRows(init, id)) {
        PrefixStaysDistinct(rows, id);
      }
      CountIsTeams(init, m, p);
      if Selects(last, m, p) {
        NotSelectedBefore(rows, m, p);
      }
    }
  }

  lemma NotSelectedBefore(rows: seq<Row>, m: MatchId, p: PlayerId)
    requires rows != [] && Selects(rows[|rows| - 1], m, p)
    requires DistinctRows(LiveRows(rows, rows[|rows| - 1].team))
    ensures rows[|rows| - 1].team !in SelectingTeams(rows[..|rows| - 1], m, p)
  {
    var init, last := rows[..|rows| - 1], rows[|rows| - 1];
    var before := LiveRows(init, last.team);
    SelectingTeamsAre(init, m, p);
    forall i | 0 <= i < |init| && Selects(init[i], m, p) ensures init[i].team != last.team {
      LiveRowIsListed(init, i);
      if init[i].team == last.team {
        LastDiffers(before, last, init[i]);
      }
    }
  }

  lemma LastDiffers(before: seq<Row>, last: Row, row: Row)
    requires DistinctRows(before + [last]) && row in before
    ensures row.player.player != last.player.player
  {
    var k :| 0 <= k < |before| && before[k] == row;
    assert (before + [last])[k] == row && (before + [last])[|before|] == last;
  }

  /** The teams found through the projection are the teams that hold the player. */
  lemma SelectingTeamsAreHolders(s: State, m: MatchId, p: PlayerId)
    requires Agree(s)
    ensures SelectingTeams(s.rows, m, p) == Holders(s, m, p)
  {
    SelectingTeamsAre(s.rows, m, p);
    forall id | id in SelectingTeams(s.rows, m, p) ensures id in Holders(s, m, p) {
      var i :| 0 <= i < |s.rows| && Selects(s.rows[i], m, p) && s.rows[i].team == id;
      LiveRowIsListed(s.rows, i);
      assert AgreeAt(s, id);
      var team := s.teams[id];
      assert s.rows[i] in Projection(id, team);
      var k :| 0 <= k < |team.roster.players| && Projection(id, team)[k] == s.rows[i];
      assert team.roster.players[k] in team.roster.players && team.roster.players[k].player == p;
    }
    forall id | id in Holders(s, m, p) ensures id in SelectingTeams(s.rows, m, p) {
      var team := s.teams[id];
      var q :| q in team.roster.players && q.player == p;
      var k :| 0 <= k < |team.roster.players| && team.roster.players[k] == q;
      assert AgreeAt(s, id);
      assert Projection(id, team)[k] in LiveRows(s.rows, id);
      ListedRowIsLive(s.rows, id);
      var i :| 0 <= i < |s.rows| && s.rows[i] == Projection(id, team)[k];
      assert Selects(s.rows[i], m, p);
    }
  }

  lemma CountIsHolders(s: State, m: MatchId, p: PlayerId)
    requires Agree(s) && DistinctRosters(s)
    ensures CountSelections(s.rows, m, p) == |Holders(s, m, p)|
  {
    forall id ensures DistinctRows(LiveRows(s.rows, id)) {
      assert AgreeAt(s, id);
      if Live(s, id) {
        assert DistinctPlayers(s.teams[id].roster.players);
      }
    }
    CountIsTeams(s.rows, m, p);
    SelectingTeamsAreHolders(s, m, p);
  }

  /** After any history the selection count of a player is the number of live teams of the match that hold the player. */
  lemma SelectionsAreHolders(changes: seq<Change>, m: MatchId, p: PlayerId)
    requires Runs(EMPTY, changes)
    ensures var s := After(EMPTY, changes); CountSelections(s.rows, m, p) == |Holders(s, m, p)|
  {
    NoRowsAgree();
    RunKeepsAgreement(EMPTY, changes);
    CountIsHolders(After(EMPTY, changes), m, p);
  }

  // ---- The service ---------------------------------------------------------------------------

  datatype Snapshot = Snapshot(role: PlayerRole, realTeam: string, credits: real)

  datatype Choice = Choice(player: PlayerId, isCaptain: bool, isViceCaptain: bool)

  datatype Outcome = Done | NotFound | Locked | PlayerNotFound | Invalid | LimitReached

  /** A player that is known, as the validator sees it. */
  function Seen(choice: Choice, snapshot: Snapshot): V.Player
  {
    V.Player(choice.player, snapshot.role, snapshot.realTeam, snapshot.credits, choice.isCaptain, choice.isViceCaptain)
  }

  function Chosen(p: V.Player): RosterPlayer
  {
    RosterPlayer(p.playerId, p.role, p.teamId, p.credits, p.isCaptain, p.isViceCaptain)
  }

  predicate Known(choices: seq<Choice>, catalogue: map<PlayerId, Snapshot>)
  {
    forall c :: c in choices ==> c.player in catalogue
  }

  function SeenAll(choices: seq<Choice>, catalogue: map<PlayerId, Snapshot>): seq<V.Player>
    requires Known(choices, catalogue)
  {
    seq(|choices|, i requires 0 <= i < |choices| => Seen(choices[i], catalogue[choices[i].player]))
  }

  function ChosenAll(players: seq<V.Player>): seq<RosterPlayer>
  {
    seq(|players|, i requires 0 <= i < |players| => Chosen(players[i]))
  }

  /** Without captain or vice-captain. */
  predicate Leaderless(players: seq<V.Player>)
  {
    V.Captains(players) == [] || V.ViceCaptains(players) == []
  }

  /** What the validator is asked about known players; an edit is not counted against the cap. */
  function Asked(rule: V.Rule, choices: seq<Choice>, catalogue: map<PlayerId, Snapshot>, existing: nat, isEdit: bool): V.Input
    requires Known(choices, catalogue)
  {
    V.Input(rule, SeenAll(choices, catalogue), false, Some(existing), isEdit)
  }

  /** The players are known and the validator finds no rule broken. */
  ghost predicate Admissible(rule: V.Rule, choices: seq<Choice>, catalogue: map<PlayerId, Snapshot>, existing: nat, isEdit: bool)
  {
    Known(choices, catalogue) && forall c :: !V.Broken(Asked(rule, choices, catalogue, existing, isEdit), c)
  }

  /** The stored roster repeats what the validator counted. */
  predicate RosterOf(roster: Roster, players: seq<V.Player>)
  {
    && roster.players == ChosenAll(players)
    && roster.totalCredits == V.ToFixed2(V.Credits(players))
    && roster.roleBreakdown == CountMap(V.RolesOf(players)) && roster.teamBreakdown == CountMap(V.TeamsOf(players))
    && V.LastOf(V.Captains(players)) == Some(roster.captain) && V.LastOf(V.ViceCaptains(players)) == Some(roster.viceCaptain)
  }

  /** The chosen players in order, each as the catalogue has it, and the leaders among them. */
  ghost predicate ListsChoices(roster: Roster, choices: seq<Choice>, catalogue: map<PlayerId, Snapshot>)
  {
    && |roster.players| == |choices|
    && (forall i :: 0 <= i < |choices| ==>
          var choice, p := choices[i], roster.players[i];
          && choice.player in catalogue && p.player == choice.player
          && p.role == catalogue[choice.player].role && p.realTeam == catalogue[choice.player].realTeam
          && p.credits == catalogue[choice.player].credits
          && p.isCaptain == choice.isCaptain && p.isViceCaptain == choice.isViceCaptain)
    && (exists i :: 0 <= i < |choices| && choices[i].isCaptain && roster.captain == choices[i].player
                    && forall j :: i < j < |choices| ==> !choices[j].isCaptain)
    && (exists i :: 0 <= i < |choices| && choices[i].isViceCaptain && roster.viceCaptain == choices[i].player
                    && forall j :: i < j < |choices| ==> !choices[j].isViceCaptain)
  }

  lemma RosterListsChoices(roster: Roster, choices: seq<Choice>, catalogue: map<PlayerId, Snapshot>)
    requires Known(choices, catalogue) && RosterOf(roster, SeenAll(choices, catalogue))
    ensures ListsChoices(roster, choices, catalogue)
  {
    var players := SeenAll(choices, catalogue);
    assert forall i :: 0 <= i < |choices| ==> choices[i] in choices;
    var c := V.LastCaptain(players);
    assert choices[c].isCaptain && roster.captain == choices[c].player;
    assert forall j :: c < j < |choices| ==> players[j].isCaptain == choices[j].isCaptain;
    var v := V.LastViceCaptain(players);
    assert choices[v].isViceCaptain && roster.viceCaptain == choices[v].player;
    assert forall j :: v < j < |choices| ==> players[j].isViceCaptain == choices[j].isViceCaptain;
  }

  class FantasyTeamStore {
    var teams: map<TeamId, Team>
    var rows: seq<Row>

    constructor ()
      ensures Valid() && Contents() == EMPTY
    {
      teams, rows := map[], [];
      new;
      NoRowsAgree();
    }

    /** The projection agrees with the rosters. */
    ghost predicate Valid()
      reads this
    {
      Agree(Contents()) && DistinctRosters(Contents())
    }

    function Contents(): State
      reads this
    {
      State(teams, rows)
    }

    // ---- The projection repository -----------------------------------------------------------

    method InsertRoster(newRows: seq<Row>)
      modifies this`rows
      ensures rows == old(rows) + newRows
    {
      rows := rows + newRows;
    }

    method SoftDeleteByTeamId(id: TeamId) returns (modified: nat)
      modifies this`rows
      ensures rows == Retired(old(rows), id)
      ensures modified == |LiveRows(old(rows), id)|
    {
      modified := 0;
      for i := 0 to |rows|
        invariant |rows| == |old(rows)|
        invariant rows[..i] == Retired(old(rows), id)[..i] && rows[i..] == old(rows)[i..]
        invariant modified == |LiveRows(old(rows)[..i], id)|
      {
        assert old(rows)[..i + 1][..i] == old(rows)[..i];
        assert rows[i] == old(rows)[i..][0];
        if rows[i].team == id && !rows[i].deleted {
          rows := rows[i := rows[i].(deleted := true)];
          modified := modified + 1;
        }
      }
      assert old(rows)[..|rows|] == old(rows);
    }

    method ReplaceRoster(id: TeamId, newRows: seq<Row>)
      modifies this`rows
      ensures rows == Retired(old(rows), id) + newRows
    {
      var _ := SoftDeleteByTeamId(id);
      InsertRoster(newRows);
    }

    /** `countDocuments` on the live rows of the match and the player. */
    method CountSelectionsForPlayer(m: MatchId, p: PlayerId) returns (n: nat)
      requires Valid()
      ensures n == |Holders(Contents(), m, p)|
    {
      n := 0;
      for i := 0 to |rows|
        invariant n == CountSelections(rows[..i], m, p)
      {
        assert rows[..i + 1][..i] == rows[..i];
        if Selects(rows[i], m, p) {
          n := n + 1;
        }
      }
      assert rows[..|rows|] == rows;
      CountIsHolders(Contents(), m, p);
    }

    // ---- Team lifecycle ----------------------------------------------------------------------

    function CountByUserAndMatch(user: UserId, m: MatchId): nat
      reads this
    {
      |TeamsOfUser(teams, user, m)|
    }

    method Create(id: TeamId, user: UserId, m: MatchId, matchLocked: bool, name: string,
                  choices: seq<Choice>, catalogue: map<PlayerId, Snapshot>, rule: V.Rule) returns (outcome: Outcome)
      requires Valid() && id !in teams
      modifies this
      ensures Valid()
      ensures outcome != Done ==> Contents() == old(Contents())
      ensures outcome == Locked <==> matchLocked
      ensures outcome == PlayerNotFound <==> !matchLocked && !Known(choices, catalogue)
      ensures outcome == Done <==>
                !matchLocked && Admissible(rule, choices, catalogue, old(CountByUserAndMatch(user, m)), false)
      ensures outcome == Done || outcome == Locked || outcome == PlayerNotFound || outcome == Invalid
      ensures outcome == Done ==>
                && id in teams && RosterOf(teams[id].roster, SeenAll(choices, catalogue)) && teams[id].name == name
                && ListsChoices(teams[id].roster, choices, catalogue)
                && Enabled(old(Contents()), Created(id, teams[id])) && teams[id].user == user && teams[id].gameMatch == m
                && Contents() == Apply(old(Contents()), Created(id, teams[id]))
    {
      if matchLocked {
        return Locked;
      }
      var accepted, roster := ValidatedRoster(choices, catalogue, rule, CountByUserAndMatch(user, m), false);
      if accepted != Done {
        return accepted;
      }
      var team := Team(user, m, name, roster, true, false);
      ChangeKeepsAgreement(Contents(), Created(id, team));
      teams := teams[id := team];
      InsertRoster(Projection(id, team));
      outcome := Done;
    }

    method Update(id: TeamId, user: UserId, matchLocked: bool, name: Option<string>,
                  choices: Option<seq<Choice>>, catalogue: map<PlayerId, Snapshot>, rule: V.Rule) returns (outcome: Outcome)
      requires Valid()
      modifies this
      ensures Valid()
      ensures outcome != Done ==> Contents() == old(Contents())
      ensures outcome == NotFound <==> !(Live(old(Contents()), id) && old(teams)[id].user == user)
      ensures outcome == Locked <==>
                Live(old(Contents()), id) && old(teams)[id].user == user && (!old(teams)[id].editable || matchLocked)
      ensures outcome == Done <==>
                && Live(old(Contents()), id) && old(teams)[id].user == user && old(teams)[id].editable && !matchLocked
                && (choices.Some? ==> Admissible(rule, choices.value, catalogue, 0, true))
      ensures outcome == Done ==>
                && id in teams && (choices.Some? ==> RosterOf(teams[id].roster, SeenAll(choices.value, catalogue)))
                && teams[id].name == (if name.Some? then name.value else old(teams)[id].name)
                && teams[id].user == user && teams[id].gameMatch == old(teams)[id].gameMatch
                && teams[id].editable && !teams[id].deleted
                && (if choices.Some? then ListsChoices(teams[id].roster, choices.value, catalogue)
                    else teams[id].roster == old(teams)[id].roster && rows == old(rows))
                && (exists roster :: Enabled(old(Contents()), Updated(id, name, roster)) && (roster.Some? <==> choices.Some?)
                                     && Contents() == Apply(old(Contents()), Updated(id, name, roster)))
    {
      hide Admissible, ListsChoices, RosterOf, Known, Projection, Retired, Agree, DistinctRosters, DistinctPlayers;
      if id !in teams || teams[id].deleted || teams[id].user != user {
        return NotFound;
      }
      if !teams[id].editable || matchLocked {
        return Locked;
      }
      var roster := None;
      if choices.Some? {
        var accepted, newRoster := ValidatedRoster(choices.value, catalogue, rule, 0, true);
        if accepted != Done {
          return accepted;
        }
        roster := Some(newRoster);
      }
      WriteTeam(id, name, roster);
      outcome := Done;
    }

    /** The transaction of an update: the team and, if its roster changes, the rows. */
    method WriteTeam(id: TeamId, name: Option<string>, roster: Option<Roster>)
      requires Valid() && Enabled(Contents(), Updated(id, name, roster))
      modifies this
      ensures Valid() && Contents() == Apply(old(Contents()), Updated(id, name, roster))
      ensures id in teams && teams == old(teams)[id := teams[id]]
      ensures teams[id].name == (if name.Some? then name.value else old(teams)[id].name)
      ensures teams[id].roster == (if roster.Some? then roster.value else old(teams)[id].roster)
      ensures teams[id].user == old(teams)[id].user && teams[id].gameMatch == old(teams)[id].gameMatch
      ensures teams[id].editable == old(teams)[id].editable && !teams[id].deleted
      ensures rows == if roster.Some? then Retired(old(rows), id) + Projection(id, teams[id]) else old(rows)
    {
      ChangeKeepsAgreement(Contents(), Updated(id, name, roster));
      var team := Patched(teams[id], name, roster);
      teams := teams[id := team];
      if roster.Some? {
        ReplaceRoster(id, Projection(id, team));
      }
      assert Contents() == Apply(old(Contents()), Updated(id, name, roster));
    }

    method Clone(id: TeamId, source: TeamId, user: UserId, matchLocked: bool, name: string, rule: V.Rule) returns (outcome: Outcome)
      requires Valid() && id !in teams
      modifies this
      ensures Valid()
      ensures outcome != Done ==> Contents() == old(Contents())
      ensures outcome == NotFound <==> !(Live(old(Contents()), source) && old(teams)[source].user == user)
      ensures outcome == Locked <==> Live(old(Contents()), source) && old(teams)[source].user == user && matchLocked
      ensures outcome == Done <==>
                && Live(old(Contents()), source) && old(teams)[source].user == user && !matchLocked
                && old(CountByUserAndMatch(user, teams[source].gameMatch)) < rule.maxTeamsPerUserPerMatch
      ensures outcome == NotFound || outcome == Locked || outcome == LimitReached || outcome == Done
      ensures outcome == Done ==>
                var team := old(teams)[source].(name := name, editable := true);
                   Enabled(old(Contents()), Created(id, team)) && Contents() == Apply(old(Contents()), Created(id, team))
    {
      if source !in teams || teams[source].deleted || teams[source].user != user {
        return NotFound;
      }
      if matchLocked {
        return Locked;
      }
      if CountByUserAndMatch(user, teams[source].gameMatch) >= rule.maxTeamsPerUserPerMatch {
        return LimitReached;
      }
      var team := teams[source].(name := name, editable := true);
      ChangeKeepsAgreement(Contents(), Created(id, team));
      teams := teams[id := team];
      InsertRoster(Projection(id, team));
      outcome := Done;
    }

    method Delete(id: TeamId, user: UserId) returns (outcome: Outcome)
      requires Valid()
      modifies this
      ensures Valid()
      ensures outcome != Done ==> Contents() == old(Contents())
      ensures outcome == NotFound <==> !(Live(old(Contents()), id) && old(teams)[id].user == user)
      ensures outcome == Locked <==> Live(old(Contents()), id) && old(teams)[id].user == user && !old(teams)[id].editable
      ensures outcome == Done <==> Live(old(Contents()), id) && old(teams)[id].user == user && old(teams)[id].editable
      ensures outcome == Done ==> Enabled(old(Contents()), Deleted(id)) && Contents() == Apply(old(Contents()), Deleted(id))
    {
      if id !in teams || teams[id].deleted || teams[id].user != user {
        return NotFound;
      }
      if !teams[id].editable {
        return Locked;
      }
      ChangeKeepsAgreement(Contents(), Deleted(id));
      teams := teams[id := teams[id].(deleted := true)];
      var _ := SoftDeleteByTeamId(id);
      outcome := Done;
    }
  }

  /** A roster that passed the validator, as `create` and `update` store it. */
  method ValidatedRoster(choices: seq<Choice>, catalogue: map<PlayerId, Snapshot>, rule: V.Rule, existing: nat, isEdit: bool)
    returns (outcome: Outcome, roster: Roster)
    ensures outcome == PlayerNotFound <==> !Known(choices, catalogue)
    ensures outcome == Done <==> Admissible(rule, choices, catalogue, existing, isEdit)
    ensures outcome == Done || outcome == PlayerNotFound || outcome == Invalid
    ensures outcome == Done ==> RosterOf(roster, SeenAll(choices, catalogue)) && DistinctPlayers(roster.players)
    ensures outcome == Done ==> ListsChoices(roster, choices, catalogue)
  {
    var players;
    outcome, players, roster := AssembleRoster(choices, catalogue);
    if outcome == PlayerNotFound {
      return;
    }
    ghost var asked := Asked(rule, choices, catalogue, existing, isEdit);
    if outcome == Invalid {
      LeaderlessIsBroken(asked);
      return;
    }
    var input := V.Input(rule, players, false, Some(existing), isEdit);
    assert input == asked;
    var result := V.ValidateFantasyTeam(input);
    if !result.isValid {
      return Invalid, roster;
    }
    AcceptedRosterIsDistinct(input);
  }

  /** The loop over the chosen players. */
  method AssembleRoster(choices: seq<Choice>, catalogue: map<PlayerId, Snapshot>)
    returns (outcome: Outcome, players: seq<V.Player>, roster: Roster)
    ensures outcome == PlayerNotFound <==> !Known(choices, catalogue)
    ensures outcome == Invalid <==> Known(choices, catalogue) && Leaderless(SeenAll(choices, catalogue))
    ensures outcome == Done <==> Known(choices, catalogue) && !Leaderless(SeenAll(choices, catalogue))
    ensures outcome == Done ==> players == SeenAll(choices, catalogue) && RosterOf(roster, players)
    ensures outcome == Done ==> ListsChoices(roster, choices, catalogue)
  {
    players := [];
    var domain: seq<RosterPlayer> := [];
    var roleBreakdown, teamBreakdown, totalCredits := map[], map[], 0.0;
    var captain: Option<string>, viceCaptain: Option<string>, missing := None, None, false;
    NoneChosen(catalogue);
    hide Tallied, SeenAll;
    for i := 0 to |choices|
      invariant missing <==> !Known(choices[..i], catalogue)
      invariant !missing ==> players == SeenAll(choices[..i], catalogue)
      invariant !missing ==> Tallied(players, domain, totalCredits, roleBreakdown, teamBreakdown, captain, viceCaptain)
    {
      var choice := choices[i];
      OneMoreSeen(choices, i, catalogue);
      if choice.player !in catalogue {
        missing := true;
        players := players + [V.Player(choice.player, Unknown, "", 0.0, choice.isCaptain, choice.isViceCaptain)];
      } else {
        var snapshot := catalogue[choice.player];
        var p := Seen(choice, snapshot);
        if !missing {
          OneMoreTallied(players, p, domain, totalCredits, roleBreakdown, teamBreakdown, captain, viceCaptain);
        }
        players, domain := players + [p], domain + [Chosen(p)];
        totalCredits := totalCredits + snapshot.credits;
        roleBreakdown, teamBreakdown := Add(roleBreakdown, snapshot.role), Add(teamBreakdown, snapshot.realTeam);
        captain := if choice.isCaptain then Some(choice.player) else captain;
        viceCaptain := if choice.isViceCaptain then Some(choice.player) else viceCaptain;
      }
    }
    assert choices[..|choices|] == choices;
    roster := Roster(domain, V.ToFixed2(totalCredits), roleBreakdown, teamBreakdown, "", "");
    if missing {
      return PlayerNotFound, players, roster;
    }
    TalliedLeaders(players, domain, totalCredits, roleBreakdown, teamBreakdown, captain, viceCaptain);
    if captain.None? || viceCaptain.None? {
      return Invalid, players, roster;
    }
    roster := roster.(captain := captain.value, viceCaptain := viceCaptain.value);
    RosterListsChoices(roster, choices, catalogue);
    outcome := Done;
  }

  /** What the loop has added up about the players it has seen. */
  predicate Tallied(players: seq<V.Player>, domain: seq<RosterPlayer>, credits: real, roles: map<PlayerRole, int>,
                    teams: map<string, int>, captain: Option<string>, viceCaptain: Option<string>)
  {
    && domain == ChosenAll(players) && credits == V.Credits(players)
    && roles == CountMap(V.RolesOf(players)) && teams == CountMap(V.TeamsOf(players))
    && captain == V.LastOf(V.Captains(players)) && viceCaptain == V.LastOf(V.ViceCaptains(players))
  }

  lemma NoneChosen(catalogue: map<PlayerId, Snapshot>)
    ensures SeenAll([], catalogue) == []
    ensures Tallied([], [], 0.0, map[], map[], None, None)
  {
  }

  lemma OneMoreSeen(choices: seq<Choice>, i: nat, catalogue: map<PlayerId, Snapshot>)
    requires i < |choices|
    ensures Known(choices[..i + 1], catalogue) <==> Known(choices[..i], catalogue) && choices[i].player in catalogue
    ensures Known(choices[..i + 1], catalogue) ==>
              SeenAll(choices[..i + 1], catalogue) == SeenAll(choices[..i], catalogue) + [Seen(choices[i], catalogue[choices[i].player])]
  {
    assert choices[..i + 1] == choices[..i] + [choices[i]];
  }

  lemma OneMoreTallied(players: seq<V.Player>, p: V.Player, domain: seq<RosterPlayer>, credits: real,
                       roles: map<PlayerRole, int>, teams: map<string, int>, captain: Option<string>, viceCaptain: Option<string>)
    requires Tallied(players, domain, credits, roles, teams, captain, viceCaptain)
    ensures Tallied(players + [p], domain + [Chosen(p)], credits + p.credits, Add(roles, p.role), Add(teams, p.teamId),
                    if p.isCaptain then Some(p.playerId) else captain,
                    if p.isViceCaptain then Some(p.playerId) else viceCaptain)
  {
    OneMoreChosen(players, p);
  }

  lemma TalliedLeaders(players: seq<V.Player>, domain: seq<RosterPlayer>, credits: real, roles: map<PlayerRole, int>,
                       teams: map<string, int>, captain: Option<string>, viceCaptain: Option<string>)
    requires Tallied(players, domain, credits, roles, teams, captain, viceCaptain)
    ensures Leaderless(players) <==> captain.None? || viceCaptain.None?
    ensures captain.Some? && viceCaptain.Some? ==>
              RosterOf(Roster(domain, V.ToFixed2(credits), roles, teams, captain.value, viceCaptain.value), players)
  {
  }

  lemma OneMoreChosen(players: seq<V.Player>, p: V.Player)
    ensures ChosenAll(players + [p]) == ChosenAll(players) + [Chosen(p)]
    ensures V.Credits(players + [p]) == V.Credits(players) + p.credits
    ensures CountMap(V.RolesOf(players + [p])) == Add(CountMap(V.RolesOf(players)), p.role)
    ensures CountMap(V.TeamsOf(players + [p])) == Add(CountMap(V.TeamsOf(players)), p.teamId)
    ensures V.LastOf(V.Captains(players + [p])) == if p.isCaptain then Some(p.playerId) else V.LastOf(V.Captains(players))
    ensures V.LastOf(V.ViceCaptains(players + [p])) == if p.isViceCaptain then Some(p.playerId) else V.LastOf(V.ViceCaptains(players))
  {
    assert (players + [p])[..|players|] == players;
    assert V.RolesOf(players + [p])[..|players|] == V.RolesOf(players);
    assert V.TeamsOf(players + [p])[..|players|] == V.TeamsOf(players);
  }

  /** The validator misses a leader as the assembly does. */
  lemma LeaderlessIsBroken(input: V.Input)
    requires Leaderless(input.players)
    ensures exists c :: V.Broken(input, c)
  {
    V.FirstsIds(input.players);
    V.FirstsDistinct(input.players);
    assert V.Broken(input, V.DuplicatePlayer) || V.Broken(input, V.CaptainNotSelected) || V.Broken(input, V.ViceCaptainNotSelected);
  }

  /** What the validator lets through has no player twice. */
  lemma AcceptedRosterIsDistinct(input: V.Input)
    requires forall c :: !V.Broken(input, c)
    ensures DistinctPlayers(ChosenAll(input.players))
  {
    assert !V.Broken(input, V.DuplicatePlayer);
    V.FirstsIds(input.players);
    V.FirstsDistinct(input.players);
  }
}
