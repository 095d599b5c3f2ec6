/** Recomputing a match: every team scored, every player's points stored, all in one transaction. */
module MatchScoring {
  import opened FantasyScoring
  import opened Options
  import opened Rounding

  type TeamId = nat
  type PlayerId = nat

  datatype RosterPlayer = RosterPlayer(player: PlayerId, role: PlayerRole, isCaptain: bool, isViceCaptain: bool)

  /** An editable, locked or scored team of the match. */
  datatype Team = Team(id: TeamId, players: seq<RosterPlayer>)

  datatype TeamScore = TeamScore(total: real, breakdown: Breakdown)

  datatype PlayerScore = PlayerScore(role: PlayerRole, basePoints: real, breakdown: Breakdown, applied: seq<Applied>)

  datatype TeamUpdate = TeamUpdate(id: TeamId, score: TeamScore, perPlayer: seq<(PlayerId, real)>)

  /** Rules and statistics of one recompute. */
  datatype Inputs = Inputs(events: seq<ScoringEvent>, rule: TeamRule, stats: map<PlayerId, Stats>, teams: seq<Team>)

  /**
   * The stored points: team totals, `pointsEarned` of the live projection rows,
   * points per player, and their mirror on the statistics rows.
   */
  datatype Store = Store(teams: map<TeamId, TeamScore>, earned: map<(TeamId, PlayerId), real>,
                         players: map<PlayerId, PlayerScore>, mirror: map<PlayerId, real>)

  // ---- What a recompute writes ---------------------------------------------------------------

  function StatsOf(inputs: Inputs, p: PlayerId): Stats
  {
    if p in inputs.stats then inputs.stats[p] else map[]
  }

  function PicksOf(inputs: Inputs, players: seq<RosterPlayer>): seq<Pick<PlayerId>>
  {
    seq(|players|, i requires 0 <= i < |players| =>
      Pick(players[i].player, players[i].role, players[i].isCaptain, players[i].isViceCaptain, StatsOf(inputs, players[i].player)))
  }

  function ResultOf(inputs: Inputs, team: Team): TeamResult
  {
    TeamPoints(inputs.events, inputs.rule, PicksOf(inputs, team.players))
  }

  function EarnedIn(players: seq<RosterPlayer>, result: TeamResult): seq<(PlayerId, real)>
  {
    seq(|players|, i requires 0 <= i < |players| =>
      (players[i].player, if i < |result.perPlayer| then result.perPlayer[i].total else 0.0))
  }

  function UpdateFor(inputs: Inputs, team: Team): TeamUpdate
  {
    var result := ResultOf(inputs, team);
    TeamUpdate(team.id, TeamScore(result.total, result.breakdown), EarnedIn(team.players, result))
  }

  function UpdatesOf(inputs: Inputs, teams: seq<Team>): seq<TeamUpdate>
  {
    if teams == [] then [] else UpdatesOf(inputs, teams[..|teams| - 1]) + [UpdateFor(inputs, teams[|teams| - 1])]
  }

  function Updates(inputs: Inputs): seq<TeamUpdate>
  {
    UpdatesOf(inputs, inputs.teams)
  }

  /** The role a player is scored with: that of the last roster that lists the player. */
  function RolesIn(players: seq<RosterPlayer>, roles: map<PlayerId, PlayerRole>): map<PlayerId, PlayerRole>
  {
    if players == [] then roles
    else
      var last := players[|players| - 1];
      RolesIn(players[..|players| - 1], roles)[last.player := last.role]
  }

  function Roles(teams: seq<Team>): map<PlayerId, PlayerRole>
  {
    if teams == [] then map[] else RolesIn(teams[|teams| - 1].players, Roles(teams[..|teams| - 1]))
  }

  function RoleOf(roles: map<PlayerId, PlayerRole>, p: PlayerId): PlayerRole
  {
    if p in roles then roles[p] else Unknown
  }

  function ScoreOf(inputs: Inputs, roles: map<PlayerId, PlayerRole>, p: PlayerId): PlayerScore
  {
    var role := RoleOf(roles, p);
    var output := PlayerPoints(inputs.events, inputs.rule, StatsOf(inputs, p), role, false, false);
    PlayerScore(role, output.base, output.breakdown, output.applied)
  }

  function Scores(inputs: Inputs, roles: map<PlayerId, PlayerRole>, players: set<PlayerId>): map<PlayerId, PlayerScore>
  {
    map p | p in players :: ScoreOf(inputs, roles, p)
  }

  lemma OneMoreScore(inputs: Inputs, roles: map<PlayerId, PlayerRole>, players: set<PlayerId>, p: PlayerId)
    ensures Scores(inputs, roles, players + {p}) == Scores(inputs, roles, players)[p := ScoreOf(inputs, roles, p)]
  {
  }

  lemma NoScores(inputs: Inputs, roles: map<PlayerId, PlayerRole>)
    ensures Scores(inputs, roles, {}) == map[]
  {
  }

  /** Every player with statistics or on a roster. */
  function Payload(inputs: Inputs): map<PlayerId, PlayerScore>
  {
    Scores(inputs, Roles(inputs.teams), inputs.stats.Keys + Roles(inputs.teams).Keys)
  }

  /** `updateOne` changes a row that exists. */
  function SetEarned(earned: map<(TeamId, PlayerId), real>, team: TeamId, points: seq<(PlayerId, real)>): map<(TeamId, PlayerId), real>
  {
    if points == [] then earned
    else
      var before, last := SetEarned(earned, team, points[..|points| - 1]), points[|points| - 1];
      if (team, last.0) in before then before[(team, last.0) := last.1] else before
  }

  function ApplyUpdates(s: Store, updates: seq<TeamUpdate>): Store
  {
    if updates == [] then s
    else
      var before, u := ApplyUpdates(s, updates[..|updates| - 1]), updates[|updates| - 1];
      before.(teams := if u.id in before.teams then before.teams[u.id := u.score] else before.teams,
              earned := SetEarned(before.earned, u.id, u.perPlayer))
  }

  function Max(x: real, y: real): real
  {
    if x < y then y else x
  }

  function Mirrored(mirror: map<PlayerId, real>, payload: map<PlayerId, PlayerScore>): map<PlayerId, real>
  {
    map p | p in mirror :: if p in payload then Max(0.0, payload[p].basePoints) else mirror[p]
  }

  function Persisted(s: Store, updates: seq<TeamUpdate>, payload: map<PlayerId, PlayerScore>): Store
  {
    ApplyUpdates(s, updates).(players := s.players + payload, mirror := Mirrored(s.mirror, payload))
  }

  function Recomputed(s: Store, inputs: Inputs): Store
  {
    Persisted(s, Updates(inputs), Payload(inputs))
  }

  // ---- The service ---------------------------------------------------------------------------

  class ScoringService {
    var store: Store

    constructor (store: Store)
      ensures this.store == store
    {
      this.store := store;
    }

    /** Scores one team and remembers the roles of its players. */
    method ScoreTeam(inputs: Inputs, team: Team, roles: map<PlayerId, PlayerRole>)
      returns (update: TeamUpdate, allRoles: map<PlayerId, PlayerRole>)
      ensures update == UpdateFor(inputs, team) && allRoles == RolesIn(team.players, roles)
    {
      var picks: seq<Pick<PlayerId>> := [];
      allRoles := roles;
      for i := 0 to |team.players|
        invariant picks == PicksOf(inputs, team.players)[..i]
        invariant allRoles == RolesIn(team.players[..i], roles)
      {
        var p := team.players[i];
        assert team.players[..i + 1][..i] == team.players[..i];
        allRoles := allRoles[p.player := p.role];
        picks := picks + [Pick(p.player, p.role, p.isCaptain, p.isViceCaptain,
                               if p.player in inputs.stats then inputs.stats[p.player] else map[])];
      }
      assert team.players[..|team.players|] == team.players;
      assert picks == PicksOf(inputs, team.players);
      var result := ComputeTeamPoints(inputs.events, inputs.rule, picks);
      update := TeamUpdate(team.id, TeamScore(result.total, result.breakdown), EarnedIn(team.players, result));
    }

    /** One turn of the loop over the teams. */
    method AddTeam(inputs: Inputs, ghost done: seq<Team>, team: Team, updates: seq<TeamUpdate>, roles: map<PlayerId, PlayerRole>)
      returns (allUpdates: seq<TeamUpdate>, allRoles: map<PlayerId, PlayerRole>)
      requires updates == UpdatesOf(inputs, done) && roles == Roles(done)
      ensures allUpdates == UpdatesOf(inputs, done + [team]) && allRoles == Roles(done + [team])
    {
      assert (done + [team])[..|done|] == done;
      var update;
      update, allRoles := ScoreTeam(inputs, team, roles);
      allUpdates := updates + [update];
    }

    method ScoreTeams(inputs: Inputs) returns (updates: seq<TeamUpdate>, roles: map<PlayerId, PlayerRole>)
      ensures updates == Updates(inputs) && roles == Roles(inputs.teams)
    {
      hide UpdateFor;
      updates, roles := [], map[];
      for i := 0 to |inputs.teams|
        invariant updates == UpdatesOf(inputs, inputs.teams[..i])
        invariant roles == Roles(inputs.teams[..i])
      {
        updates, roles := AddTeam(inputs, inputs.teams[..i], inputs.teams[i], updates, roles);
        assert inputs.teams[..i + 1] == inputs.teams[..i] + [inputs.teams[i]];
      }
      assert inputs.teams[..|inputs.teams|] == inputs.teams;
    }

    /** Scores a player as a team of one, without a multiplier. */
    method ScorePlayer(inputs: Inputs, roles: map<PlayerId, PlayerRole>, p: PlayerId) returns (score: PlayerScore)
      ensures score == ScoreOf(inputs, roles, p)
    {
      var role := if p in roles then roles[p] else Unknown;
      var stats := if p in inputs.stats then inputs.stats[p] else map[];
      var result := ComputeTeamPoints(inputs.events, inputs.rule, [Pick(p, role, false, false, stats)]);
      var output := result.perPlayer[0];
      score := PlayerScore(role, output.base, output.breakdown, output.applied);
    }

    /** One turn of the loop over the players. */
    method AddScore(inputs: Inputs, roles: map<PlayerId, PlayerRole>, ghost done: set<PlayerId>, p: PlayerId,
                    payload: map<PlayerId, PlayerScore>) returns (next: map<PlayerId, PlayerScore>)
      requires payload == Scores(inputs, roles, done)
      ensures next == Scores(inputs, roles, done + {p})
    {
      hide ScoreOf;
      var score := ScorePlayer(inputs, roles, p);
      OneMoreScore(inputs, roles, done, p);
      next := payload[p := score];
    }

    /** Points per player, for everyone with statistics or on a roster. */
    method BuildPlayerPointsPayload(inputs: Inputs, roles: map<PlayerId, PlayerRole>)
      returns (payload: map<PlayerId, PlayerScore>)
      requires roles == Roles(inputs.teams)
      ensures payload == Payload(inputs)
    {
      payload := map[];
      var todo := inputs.stats.Keys + roles.Keys;
      ghost var all, done := todo, {};
      NoScores(inputs, roles);
      hide Scores, Roles, ScoreOf;
      while todo != {}
        invariant done <= all && todo == all - done
        invariant payload == Scores(inputs, roles, done)
        decreases |todo|
      {
        var p :| p in todo;
        payload := AddScore(inputs, roles, done, p, payload);
        todo, done := todo - {p}, done + {p};
      }
      assert done == all;
    }

    method PersistTeam(update: TeamUpdate)
      modifies this
      ensures store.teams == if update.id in old(store).teams then old(store).teams[update.id := update.score] else old(store).teams
      ensures store.earned == SetEarned(old(store).earned, update.id, update.perPlayer)
      ensures store.players == old(store).players && store.mirror == old(store).mirror
    {
      if update.id in store.teams {
        store := store.(teams := store.teams[update.id := update.score]);
      }
      for i := 0 to |update.perPlayer|
        invariant store == old(store).(teams := store.teams, earned := store.earned)
        invariant store.teams == if update.id in old(store).teams then old(store).teams[update.id := update.score] else old(store).teams
        invariant store.earned == SetEarned(old(store).earned, update.id, update.perPlayer[..i])
      {
        var pp := update.perPlayer[i];
        assert update.perPlayer[..i + 1][..i] == update.perPlayer[..i];
        if (update.id, pp.0) in store.earned {
          store := store.(earned := store.earned[(update.id, pp.0) := pp.1]);
        }
      }
      assert update.perPlayer[..|update.perPlayer|] == update.perPlayer;
    }

    method PersistTeams(updates: seq<TeamUpdate>)
      modifies this
      ensures store == ApplyUpdates(old(store), updates)
      ensures store.players == old(store).players && store.mirror == old(store).mirror
    {
      for i := 0 to |updates|
        invariant store == ApplyUpdates(old(store), updates[..i])
        invariant store.players == old(store).players && store.mirror == old(store).mirror
      {
        hide SetEarned;
        assert updates[..i + 1][..i] == updates[..i];
        PersistTeam(updates[i]);
      }
      assert updates[..|updates|] == updates;
    }

    /** The mirror on the statistics rows, not below zero. */
    method MirrorPoints(payload: map<PlayerId, PlayerScore>)
      modifies this
      ensures store == old(store).(mirror := Mirrored(old(store).mirror, payload))
    {
      var todo := payload.Keys;
      while todo != {}
        invariant todo <= payload.Keys && store.mirror.Keys == old(store).mirror.Keys
        invariant store == old(store).(mirror := store.mirror)
        invariant forall p :: p in store.mirror ==>
          store.mirror[p] == if p in payload && p !in todo then Max(0.0, payload[p].basePoints) else old(store).mirror[p]
        decreases |todo|
      {
        var p :| p in todo;
        if p in store.mirror {
          store := store.(mirror := store.mirror[p := Max(0.0, payload[p].basePoints)]);
        }
        todo := todo - {p};
      }
      assert store.mirror == Mirrored(old(store).mirror, payload);
    }

    method PersistRecompute(updates: seq<TeamUpdate>, payload: map<PlayerId, PlayerScore>)
      modifies this
      ensures store == Persisted(old(store), updates, payload)
    {
      PersistTeams(updates);
      store := store.(players := store.players + payload);
      MirrorPoints(payload);
    }

    method RecomputeForMatch(inputs: Inputs)
      modifies this
      ensures store == Recomputed(old(store), inputs)
    {
      var updates, roles := ScoreTeams(inputs);
      var payload := BuildPlayerPointsPayload(inputs, roles);
      PersistRecompute(updates, payload);
    }

    /** The upsert of an adjustment. */
    method Adjust(p: PlayerId, delta: real)
      modifies this
      ensures store == Adjusted(old(store), p, delta)
      ensures p in store.players
      ensures var before := if p in old(store).players then old(store).players[p] else PlayerScore(Unknown, 0.0, ZERO_BREAKDOWN, []);
              var after := store.players[p];
        && after.role == before.role && after.basePoints == before.basePoints + delta
        && after.breakdown == before.breakdown.(bonus := before.breakdown.bonus + delta)
        && |after.applied| == |before.applied| + 1 && after.applied[|before.applied|].points == delta
    {
      if p !in store.players {
        store := store.(players := store.players[p := PlayerScore(Unknown, 0.0, ZERO_BREAKDOWN, [])]);
      }
      store := store.(players := store.players[p := AdjustedScore(store.players[p], delta)]);
      assert store.players == Adjusted(old(store), p, delta).players;
    }

    /** Adds `delta` to the stored points of a player, then recomputes the match. */
    method AdjustPlayerPoints(inputs: Inputs, p: PlayerId, delta: real) returns (accepted: bool)
      modifies this
      ensures accepted <==> delta != 0.0
      ensures !accepted ==> store == old(store)
      ensures accepted ==> store == Recomputed(Adjusted(old(store), p, delta), inputs)
    {
      accepted := delta != 0.0;
      if accepted {
        Adjust(p, delta);
        RecomputeForMatch(inputs);
      }
    }
  }

  /** Points, bonus category and the audit line of an adjustment. */
  function AdjustedScore(score: PlayerScore, delta: real): PlayerScore
  {
    score.(basePoints := score.basePoints + delta,
           breakdown := score.breakdown.(bonus := score.breakdown.bonus + delta),
           applied := score.applied + [Applied("ADMIN_ADJUSTMENT", Bonus, 1.0, delta)])
  }

  function Adjusted(s: Store, p: PlayerId, delta: real): Store
  {
    var score := if p in s.players then s.players[p] else PlayerScore(Unknown, 0.0, ZERO_BREAKDOWN, []);
    s.(players := s.players[p := AdjustedScore(score, delta)])
  }

  // ---- Consistency of what is stored ---------------------------------------------------------

  predicate DistinctTeams(teams: seq<Team>)
  {
    forall i, j :: 0 <= i < j < |teams| ==> teams[i].id != teams[j].id
  }

  predicate DistinctPlayers(players: seq<RosterPlayer>)
  {
    forall i, j :: 0 <= i < j < |players| ==> players[i].player != players[j].player
  }

  /** The value the last matching write leaves, if any write matches. */
  function Written(points: seq<(PlayerId, real)>, p: PlayerId): Option<real>
  {
    if points == [] then None
    else if points[|points| - 1].0 == p then Some(points[|points| - 1].1)
    else Written(points[..|points| - 1], p)
  }

  function WrittenBy(updates: seq<TeamUpdate>, t: TeamId, p: PlayerId): Option<real>
  {
    if updates == [] then None
    else
      var last := updates[|updates| - 1];
      if last.id == t && Written(last.perPlayer, p).Some? then Written(last.perPlayer, p)
      else WrittenBy(updates[..|updates| - 1], t, p)
  }

  function ScoredBy(updates: seq<TeamUpdate>, t: TeamId): Option<TeamScore>
  {
    if updates == [] then None
    else if updates[|updates| - 1].id == t then Some(updates[|updates| - 1].score)
    else ScoredBy(updates[..|updates| - 1], t)
  }

  lemma {:induction false} SetEarnedIs(earned: map<(TeamId, PlayerId), real>, team: TeamId, points: seq<(PlayerId, real)>)
    ensures SetEarned(earned, team, points).Keys == earned.Keys
    ensures forall k :: k in earned ==>
              SetEarned(earned, team, points)[k]
              == if k.0 == team && Written(points, k.1).Some? then Written(points, k.1).value else earned[k]
  {
    if points != [] {
      SetEarnedIs(earned, team, points[..|points| - 1]);
    }
  }

  /** What the updates leave depends on the rows that exist and on nothing else that was stored. */
  lemma {:induction false} ApplyUpdatesIs(s: Store, updates: seq<TeamUpdate>)
    ensures var after := ApplyUpdates(s, updates);
            && after.earned.Keys == s.earned.Keys && after.teams.Keys == s.teams.Keys
            && after.players == s.players && after.mirror == s.mirror
            && (forall k :: k in s.earned ==>
                  after.earned[k] == if WrittenBy(updates, k.0, k.1).Some? then WrittenBy(updates, k.0, k.1).value else s.earned[k])
            && (forall t :: t in s.teams ==>
                  after.teams[t] == if ScoredBy(updates, t).Some? then ScoredBy(updates, t).value else s.teams[t])
  {
    if updates != [] {
      var init, last := updates[..|updates| - 1], updates[|updates| - 1];
      ApplyUpdatesIs(s, init);
      SetEarnedIs(ApplyUpdates(s, init).earned, last.id, last.perPlayer);
    }
  }

  lemma {:induction false} WrittenAt(points: seq<(PlayerId, real)>, i: nat)
    requires i < |points| && forall a, b :: 0 <= a < b < |points| ==> points[a].0 != points[b].0
    ensures Written(points, points[i].0) == Some(points[i].1)
  {
    if i < |points| - 1 {
      WrittenAt(points[..|points| - 1], i);
    }
  }

  lemma {:induction false} WrittenByAt(updates: seq<TeamUpdate>, i: nat, p: PlayerId)
    requires i < |updates| && forall a, b :: 0 <= a < b < |updates| ==> updates[a].id != updates[b].id
    requires Written(updates[i].perPlayer, p).Some?
    ensures WrittenBy(updates, updates[i].id, p) == Written(updates[i].perPlayer, p)
  {
    if i < |updates| - 1 {
      WrittenByAt(updates[..|updates| - 1], i, p);
    }
  }

  lemma {:induction false} ScoredByAt(updates: seq<TeamUpdate>, i: nat)
    requires i < |updates| && forall a, b :: 0 <= a < b < |updates| ==> updates[a].id != updates[b].id
    ensures ScoredBy(updates, updates[i].id) == Some(updates[i].score)
  {
    if i < |updates| - 1 {
      ScoredByAt(updates[..|updates| - 1], i);
    }
  }

  /** The points the projection rows of a team hold, in roster order. */
  function StoredEarned(s: Store, team: Team): seq<real>
    requires forall p :: p in team.players ==> (team.id, p.player) in s.earned
  {
    seq(|team.players|, i requires 0 <= i < |team.players| => s.earned[(team.id, team.players[i].player)])
  }

  /** A team that was stored with one projection row per roster player. */
  predicate Projected(s: Store, inputs: Inputs, i: nat)
    requires i < |inputs.teams|
  {
    && DistinctTeams(inputs.teams) && DistinctPlayers(inputs.teams[i].players) && inputs.teams[i].id in s.teams
    && forall p :: p in inputs.teams[i].players ==> (inputs.teams[i].id, p.player) in s.earned
  }

  lemma {:induction false} UpdatesAt(inputs: Inputs, teams: seq<Team>)
    ensures |UpdatesOf(inputs, teams)| == |teams|
    ensures forall i :: 0 <= i < |teams| ==> UpdatesOf(inputs, teams)[i] == UpdateFor(inputs, teams[i])
  {
    hide UpdateFor;
    if teams != [] {
      UpdatesAt(inputs, teams[..|teams| - 1]);
    }
  }

  lemma ResultShape(inputs: Inputs, team: Team)
    ensures |ResultOf(inputs, team).perPlayer| == |team.players|
  {
  }

  lemma EarnedInUpdate(inputs: Inputs, team: Team, j: nat)
    requires j < |team.players| && DistinctPlayers(team.players)
    ensures j < |ResultOf(inputs, team).perPlayer|
    ensures Written(UpdateFor(inputs, team).perPlayer, team.players[j].player)
         == Some(ResultOf(inputs, team).perPlayer[j].total)
  {
    ResultShape(inputs, team);
    hide ResultOf;
    WrittenAt(UpdateFor(inputs, team).perPlayer, j);
  }

  lemma EarnedAfterRecompute(s: Store, inputs: Inputs, i: nat, j: nat)
    requires i < |inputs.teams| && Projected(s, inputs, i) && j < |inputs.teams[i].players|
    ensures j < |ResultOf(inputs, inputs.teams[i]).perPlayer|
    ensures var k, after := (inputs.teams[i].id, inputs.teams[i].players[j].player), Recomputed(s, inputs);
            && k in after.earned
            && after.earned[k] == ResultOf(inputs, inputs.teams[i]).perPlayer[j].total
  {
    hide ResultOf, Written, WrittenBy, Payload;
    var team := inputs.teams[i];
    ApplyUpdatesIs(s, Updates(inputs));
    UpdateIds(inputs, i);
    assert team.players[j] in team.players;
    EarnedInUpdate(inputs, team, j);
    WrittenByAt(Updates(inputs), i, team.players[j].player);
  }

  lemma UpdateIds(inputs: Inputs, i: nat)
    requires i < |inputs.teams| && DistinctTeams(inputs.teams)
    ensures i < |Updates(inputs)| && Updates(inputs)[i] == UpdateFor(inputs, inputs.teams[i])
    ensures Updates(inputs)[i].id == inputs.teams[i].id
    ensures forall a, b :: 0 <= a < b < |Updates(inputs)| ==> Updates(inputs)[a].id != Updates(inputs)[b].id
  {
    hide ResultOf;
    UpdatesAt(inputs, inputs.teams);
    assert forall a :: 0 <= a < |inputs.teams| ==> Updates(inputs)[a].id == inputs.teams[a].id;
  }

  /** The stored total of a team is the sum of what its projection rows say each player earned. */
  lemma TeamTotalIsSumOfEarned(s: Store, inputs: Inputs, i: nat)
    requires i < |inputs.teams| && Projected(s, inputs, i)
    ensures var team, after := inputs.teams[i], Recomputed(s, inputs);
            && (forall p :: p in team.players ==> (team.id, p.player) in after.earned)
            && team.id in after.teams && after.teams[team.id].total == SumReals(StoredEarned(after, team))
  {
    var team, after := inputs.teams[i], Recomputed(s, inputs);
    ApplyUpdatesIs(s, Updates(inputs));
    UpdatesAt(inputs, inputs.teams);
    ScoredByAt(Updates(inputs), i);
    var outs := ResultOf(inputs, team).perPlayer;
    forall j | 0 <= j < |team.players| ensures StoredEarned(after, team)[j] == Totals(outs)[j] {
      EarnedAfterRecompute(s, inputs, i, j);
    }
    assert StoredEarned(after, team) == Totals(outs);
  }

  /** Every roster of the match lists the player with this role. */
  predicate OneRole(teams: seq<Team>, p: PlayerId, role: PlayerRole)
  {
    forall team, q :: team in teams && q in team.players && q.player == p ==> q.role == role
  }

  lemma {:induction false} RolesInIs(players: seq<RosterPlayer>, roles: map<PlayerId, PlayerRole>, p: PlayerId, role: PlayerRole)
    requires forall q :: q in players && q.player == p ==> q.role == role
    requires p in roles ==> roles[p] == role
    ensures p in RolesIn(players, roles) <==> p in roles || exists q :: q in players && q.player == p
    ensures p in RolesIn(players, roles) ==> RolesIn(players, roles)[p] == role
  {
    if players != [] {
      var init, last := players[..|players| - 1], players[|players| - 1];
      assert players == init + [last];
      RolesInIs(init, roles, p, role);
    }
  }

  lemma {:induction false} RolesIs(teams: seq<Team>, p: PlayerId, role: PlayerRole)
    requires OneRole(teams, p, role)
    ensures p in Roles(teams) <==> exists team, q :: team in teams && q in team.players && q.player == p
    ensures p in Roles(teams) ==> Roles(teams)[p] == role
  {
    if teams != [] {
      var init, last := teams[..|teams| - 1], teams[|teams| - 1];
      assert teams == init + [last];
      RolesIs(init, p, role);
      RolesInIs(last.players, Roles(init), p, role);
    }
  }

  /** The player is on some roster of the match. */
  ghost predicate Picked(teams: seq<Team>, p: PlayerId)
  {
    exists i, j :: 0 <= i < |teams| && 0 <= j < |teams[i].players| && teams[i].players[j].player == p
  }

  lemma {:induction false} RolesInKeys(players: seq<RosterPlayer>, roles: map<PlayerId, PlayerRole>, p: PlayerId)
    ensures p in RolesIn(players, roles) <==> p in roles || exists j :: 0 <= j < |players| && players[j].player == p
  {
    if players != [] {
      var n := |players| - 1;
      RolesInKeys(players[..n], roles, p);
      assert forall j :: 0 <= j < n ==> players[..n][j] == players[j];
    }
  }

  lemma {:induction false} RolesKeys(teams: seq<Team>, p: PlayerId)
    ensures p in Roles(teams) <==> Picked(teams, p)
  {
    if teams != [] {
      var n := |teams| - 1;
      RolesKeys(teams[..n], p);
      RolesInKeys(teams[n].players, Roles(teams[..n]), p);
      assert forall i :: 0 <= i < n ==> teams[..n][i] == teams[i];
      if Picked(teams[..n], p) {
        var i, j :| 0 <= i < n && 0 <= j < |teams[..n][i].players| && teams[..n][i].players[j].player == p;
        assert teams[i].players[j].player == p;
      }
    }
  }

  lemma {:induction false} RolesInLast(players: seq<RosterPlayer>, roles: map<PlayerId, PlayerRole>, p: PlayerId, j: nat)
    requires j < |players| && players[j].player == p && forall k :: j < k < |players| ==> players[k].player != p
    ensures p in RolesIn(players, roles) && RolesIn(players, roles)[p] == players[j].role
  {
    if j < |players| - 1 {
      RolesInLast(players[..|players| - 1], roles, p, j);
    }
  }

  lemma {:induction false} RolesInElsewhere(players: seq<RosterPlayer>, roles: map<PlayerId, PlayerRole>, p: PlayerId)
    requires p in roles && forall k :: 0 <= k < |players| ==> players[k].player != p
    ensures p in RolesIn(players, roles) && RolesIn(players, roles)[p] == roles[p]
  {
    if players != [] {
      RolesInElsewhere(players[..|players| - 1], roles, p);
    }
  }

  /** A player is scored with the role of the last roster that lists the player. */
  lemma {:induction false} RoleIsOfLastRoster(teams: seq<Team>, p: PlayerId, i: nat, j: nat)
    requires i < |teams| && j < |teams[i].players| && teams[i].players[j].player == p
    requires forall k :: j < k < |teams[i].players| ==> teams[i].players[k].player != p
    requires forall h, k :: i < h < |teams| && 0 <= k < |teams[h].players| ==> teams[h].players[k].player != p
    ensures p in Roles(teams) && Roles(teams)[p] == teams[i].players[j].role
  {
    var n := |teams| - 1;
    if i == n {
      RolesInLast(teams[n].players, Roles(teams[..n]), p, j);
    } else {
      RoleIsOfLastRoster(teams[..n], p, i, j);
      RolesInElsewhere(teams[n].players, Roles(teams[..n]), p);
    }
  }

  /** The player has statistics or a place on a roster. */
  ghost predicate Scored(inputs: Inputs, p: PlayerId)
  {
    p in inputs.stats || Picked(inputs.teams, p)
  }

  /**
   * Whom a recompute scores and what it stores: points without a multiplier,
   * and on statistics rows that exist a mirror of them that is never negative.
   */
  lemma PlayersAfterRecompute(s: Store, inputs: Inputs, p: PlayerId)
    ensures var after := Recomputed(s, inputs);
      && (p in after.players <==> p in s.players || Scored(inputs, p))
      && (Scored(inputs, p) ==>
            var role := if p in Roles(inputs.teams) then Roles(inputs.teams)[p] else Unknown;
            var stats := if p in inputs.stats then inputs.stats[p] else map[];
            var output := PlayerPoints(inputs.events, inputs.rule, stats, role, false, false);
            after.players[p] == PlayerScore(role, output.base, output.breakdown, output.applied))
      && (!Scored(inputs, p) && p in s.players ==> after.players[p] == s.players[p])
      && (p in after.mirror <==> p in s.mirror)
      && (p in s.mirror ==>
            after.mirror[p] == if !Scored(inputs, p) then s.mirror[p]
                               else if after.players[p].basePoints >= 0.0 then after.players[p].basePoints else 0.0)
  {
    hide PlayerPoints, Roles, Picked;
    RolesKeys(inputs.teams, p);
    ApplyUpdatesIs(s, Updates(inputs));
  }

  /**
   * For a player with one role across teams, what each team earns with the player
   * is the stored base points times the multiplier, rounded.
   */
  lemma EarnedIsBaseTimesMultiplier(s: Store, inputs: Inputs, i: nat, j: nat)
    requires i < |inputs.teams| && Projected(s, inputs, i) && j < |inputs.teams[i].players|
    requires OneRole(inputs.teams, inputs.teams[i].players[j].player, inputs.teams[i].players[j].role)
    ensures var team, q, after := inputs.teams[i], inputs.teams[i].players[j], Recomputed(s, inputs);
            && (team.id, q.player) in after.earned && q.player in after.players
            && after.earned[(team.id, q.player)]
               == Round2(Times(after.players[q.player].basePoints,
                               if q.isCaptain then inputs.rule.captainMultiplier
                               else if q.isViceCaptain then inputs.rule.viceCaptainMultiplier else 1.0))
  {
    hide PlayerPoints;
    var q := inputs.teams[i].players[j];
    EarnedAfterRecompute(s, inputs, i, j);
    assert inputs.teams[i] in inputs.teams && q in inputs.teams[i].players;
    RolesIs(inputs.teams, q.player, q.role);
    assert q.player in Payload(inputs);
    TotalFromPlainBase(inputs.events, inputs.rule, StatsOf(inputs, q.player), q.role, q.isCaptain, q.isViceCaptain);
  }

  lemma PersistTwice(s: Store, updates: seq<TeamUpdate>, payload: map<PlayerId, PlayerScore>)
    ensures Persisted(Persisted(s, updates, payload), updates, payload) == Persisted(s, updates, payload)
  {
    var once := Persisted(s, updates, payload);
    var twice := Persisted(once, updates, payload);
    ApplyUpdatesIs(s, updates);
    ApplyUpdatesIs(once, updates);
    assert twice.earned == once.earned;
    assert twice.teams == once.teams;
    assert twice.players == once.players;
    assert twice.mirror == once.mirror;
  }

  /** Recomputing with the same inputs changes no stored value. */
  lemma RecomputeIsIdempotent(s: Store, inputs: Inputs)
    ensures Recomputed(Recomputed(s, inputs), inputs) == Recomputed(s, inputs)
  {
    PersistTwice(s, Updates(inputs), Payload(inputs));
  }

  lemma PersistAdjusted(s: Store, updates: seq<TeamUpdate>, payload: map<PlayerId, PlayerScore>, p: PlayerId, delta: real)
    requires delta != 0.0
    ensures Persisted(Adjusted(s, p, delta), updates, payload) == Persisted(s, updates, payload) <==> p in payload
  {
    var adjusted := Adjusted(s, p, delta);
    ApplyUpdatesIs(s, updates);
    ApplyUpdatesIs(adjusted, updates);
    var a, b := Persisted(adjusted, updates, payload), Persisted(s, updates, payload);
    assert a.earned == b.earned && a.teams == b.teams && a.mirror == b.mirror;
    if p in payload {
      assert a.players == b.players;
    } else {
      assert p in a.players && a.players[p] == adjusted.players[p];
      assert p in b.players ==> b.players[p] == s.players[p];
    }
  }

  /** An adjustment leaves no trace in the stored points exactly when the recompute it triggers scores the player. */
  lemma AdjustmentVanishesIff(s: Store, inputs: Inputs, p: PlayerId, delta: real)
    requires delta != 0.0
    ensures Recomputed(Adjusted(s, p, delta), inputs) == Recomputed(s, inputs) <==> Scored(inputs, p)
  {
    RolesKeys(inputs.teams, p);
    PersistAdjusted(s, Updates(inputs), Payload(inputs), p, delta);
  }
}
