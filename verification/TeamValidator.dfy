/** The validation engine for fantasy teams. */
module TeamValidator {
  import opened FantasyScoring
  import opened Options
  import opened Rounding
  import opened Sums

  datatype Player = Player(playerId: string, role: PlayerRole, teamId: string, credits: real,
                           isCaptain: bool, isViceCaptain: bool)

  datatype RoleConstraint = RoleConstraint(role: PlayerRole, min: int, max: int)

  datatype Rule = Rule(teamSize: int, creditBudget: real, roleConstraints: seq<RoleConstraint>,
                       minFromSingleTeam: int, maxFromSingleTeam: int,
                       maxTeamsPerUserPerMatch: int, warnAtTeamsPerUserPerMatch: int)

  datatype Input = Input(rule: Rule, players: seq<Player>, matchLocked: bool, existingTeamCount: Option<int>, isEdit: bool)

  datatype Code =
    | DuplicatePlayer | MatchLocked | MaxTeamsPerUserReached | TeamSizeMismatch | CreditsExceeded
    | RoleMinNotMet | RoleMaxExceeded | TeamPlayerLimitExceeded | TeamPlayerLimitNotMet
    | CaptainNotSelected | ViceCaptainNotSelected | CaptainViceCaptainSame

  datatype Issue = Error(code: Code) | Warning(code: Code)

  datatype Summary = Summary(playersSelected: nat, creditsUsed: real, creditsRemaining: real,
                             roleBreakdown: map<PlayerRole, int>, teamBreakdown: map<string, int>,
                             hasCaptain: bool, hasViceCaptain: bool)

  datatype Result = Result(isValid: bool, issues: seq<Issue>, summary: Summary)

  // ---- What is counted -----------------------------------------------------------------------

  function Ids(players: seq<Player>): set<string>
  {
    set p | p in players :: p.playerId
  }

  predicate Distinct(players: seq<Player>)
  {
    forall i, j :: 0 <= i < j < |players| ==> players[i].playerId != players[j].playerId
  }

  /** The first selection of every player. */
  function Firsts(players: seq<Player>): seq<Player>
  {
    if players == [] then []
    else
      var init, last := players[..|players| - 1], players[|players| - 1];
      if last.playerId in Ids(init) then Firsts(init) else Firsts(init) + [last]
  }

  function RolesOf(players: seq<Player>): seq<PlayerRole>
  {
    seq(|players|, i requires 0 <= i < |players| => players[i].role)
  }

  function TeamsOf(players: seq<Player>): seq<string>
  {
    seq(|players|, i requires 0 <= i < |players| => players[i].teamId)
  }

  function Credits(players: seq<Player>): real
  {
    if players == [] then 0.0 else Credits(players[..|players| - 1]) + players[|players| - 1].credits
  }

  function Captains(players: seq<Player>): seq<string>
  {
    if players == [] then []
    else Captains(players[..|players| - 1]) + if players[|players| - 1].isCaptain then [players[|players| - 1].playerId] else []
  }

  function ViceCaptains(players: seq<Player>): seq<string>
  {
    if players == [] then []
    else ViceCaptains(players[..|players| - 1]) + if players[|players| - 1].isViceCaptain then [players[|players| - 1].playerId] else []
  }

  function LastOf(ids: seq<string>): Option<string>
  {
    if ids == [] then None else Some(ids[|ids| - 1])
  }

  // ---- What is wrong with a selection --------------------------------------------------------

  predicate TeamCapReached(input: Input)
  {
    input.existingTeamCount.Some? && !input.isEdit && input.existingTeamCount.value >= input.rule.maxTeamsPerUserPerMatch
  }

  /** The rule that an error code reports as broken, over the first selections. */
  predicate Broken(input: Input, code: Code)
  {
    var chosen, rule := Firsts(input.players), input.rule;
    match code
    case DuplicatePlayer => |chosen| < |input.players|
    case MatchLocked => input.matchLocked
    case MaxTeamsPerUserReached => TeamCapReached(input)
    case TeamSizeMismatch => |chosen| != rule.teamSize
    case CreditsExceeded => Credits(chosen) > rule.creditBudget
    case RoleMinNotMet => exists c :: c in rule.roleConstraints && Count(RolesOf(chosen), c.role) < c.min
    case RoleMaxExceeded => exists c :: c in rule.roleConstraints && Count(RolesOf(chosen), c.role) > c.max
    case TeamPlayerLimitExceeded => exists p :: p in chosen && Count(TeamsOf(chosen), p.teamId) > rule.maxFromSingleTeam
    case TeamPlayerLimitNotMet =>
      |chosen| == rule.teamSize && exists p :: p in chosen && Count(TeamsOf(chosen), p.teamId) < rule.minFromSingleTeam
    case CaptainNotSelected => |Captains(chosen)| != 1
    case ViceCaptainNotSelected => |ViceCaptains(chosen)| != 1
    case CaptainViceCaptainSame =>
      && LastOf(Captains(chosen)).Some? && LastOf(Captains(chosen)) == LastOf(ViceCaptains(chosen))
      && LastOf(Captains(chosen)).value != ""
  }

  function ErrorCodes(issues: seq<Issue>): set<Code>
  {
    set i | i in issues && i.Error? :: i.code
  }

  lemma ErrorCodesConcat(a: seq<Issue>, b: seq<Issue>)
    ensures ErrorCodes(a + b) == ErrorCodes(a) + ErrorCodes(b)
  {
  }

  /** The issues report, of the given codes, exactly the broken rules. */
  ghost predicate Reports(issues: seq<Issue>, input: Input, codes: set<Code>)
  {
    forall c :: c in ErrorCodes(issues) <==> c in codes && Broken(input, c)
  }

  lemma ReportsBoth(a: seq<Issue>, b: seq<Issue>, input: Input, first: set<Code>, second: set<Code>)
    requires Reports(a, input, first) && Reports(b, input, second)
    ensures Reports(a + b, input, first + second)
  {
    hide Broken;
    ErrorCodesConcat(a, b);
  }

  /** The cap is near, but not reached. */
  predicate CapNear(input: Input)
  {
    && input.existingTeamCount.Some? && !input.isEdit
    && input.existingTeamCount.value < input.rule.maxTeamsPerUserPerMatch
    && input.existingTeamCount.value + 1 >= input.rule.warnAtTeamsPerUserPerMatch
  }

  predicate Warned(issues: seq<Issue>)
  {
    exists i :: i in issues && i.Warning?
  }

  predicate AllErrors(issues: seq<Issue>)
  {
    forall i :: i in issues ==> i.Error?
  }

  lemma WarnedBoth(a: seq<Issue>, b: seq<Issue>)
    ensures Warned(a + b) <==> Warned(a) || Warned(b)
    ensures AllErrors(a) ==> !Warned(a)
    ensures AllErrors(b) ==> !Warned(b)
  {
    if Warned(a) {
      var i :| i in a && i.Warning?;
      assert i in a + b;
    }
    if Warned(b) {
      var i :| i in b && i.Warning?;
      assert i in a + b;
    }
  }

  // ---- The validator -------------------------------------------------------------------------

  datatype Tally = Tally(seen: set<string>, roles: map<PlayerRole, int>, teams: map<string, int>, credits: real,
                         captainCount: nat, viceCaptainCount: nat, captain: Option<string>, viceCaptain: Option<string>)

  function EmptyTally(): Tally
  {
    Tally({}, map[], map[], 0.0, 0, 0, None, None)
  }

  /** What selecting a player changes. */
  function Selected(t: Tally, p: Player): Tally
  {
    Tally(t.seen + {p.playerId}, Add(t.roles, p.role), Add(t.teams, p.teamId), t.credits + p.credits,
          t.captainCount + if p.isCaptain then 1 else 0,
          t.viceCaptainCount + if p.isViceCaptain then 1 else 0,
          if p.isCaptain then Some(p.playerId) else t.captain,
          if p.isViceCaptain then Some(p.playerId) else t.viceCaptain)
  }

  function TallyOf(chosen: seq<Player>): Tally
  {
    if chosen == [] then EmptyTally() else Selected(TallyOf(chosen[..|chosen| - 1]), chosen[|chosen| - 1])
  }

  lemma TallyAppend(chosen: seq<Player>, p: Player)
    ensures TallyOf(chosen + [p]) == Selected(TallyOf(chosen), p)
  {
    assert (chosen + [p])[..|chosen|] == chosen;
  }

  lemma {:induction false} TallySeen(chosen: seq<Player>)
    ensures TallyOf(chosen).seen == Ids(chosen)
  {
    if chosen != [] {
      TallySeen(chosen[..|chosen| - 1]);
      assert chosen == chosen[..|chosen| - 1] + [chosen[|chosen| - 1]];
    }
  }

  lemma IdsAppend(players: seq<Player>, p: Player)
    ensures Ids(players + [p]) == Ids(players) + {p.playerId}
  {
  }

  lemma {:induction false} FirstsIds(players: seq<Player>)
    ensures Ids(Firsts(players)) == Ids(players) && |Firsts(players)| <= |players|
  {
    if players != [] {
      var init, last := players[..|players| - 1], players[|players| - 1];
      FirstsIds(init);
      assert players == init + [last];
      IdsAppend(init, last);
      IdsAppend(Firsts(init), last);
    }
  }

  lemma DistinctGrows(players: seq<Player>, p: Player)
    requires Distinct(players) && p.playerId !in Ids(players)
    ensures Distinct(players + [p])
  {
    assert forall i :: 0 <= i < |players| ==> players[i].playerId in Ids(players);
  }

  lemma {:induction false} FirstsDistinct(players: seq<Player>)
    ensures Distinct(Firsts(players))
    ensures |Firsts(players)| == |players| ==> Firsts(players) == players
  {
    hide Distinct, Ids;
    if players == [] {
      NoneRepeated();
    } else {
      var init, last := players[..|players| - 1], players[|players| - 1];
      FirstsDistinct(init);
      FirstsIds(init);
      assert players == init + [last];
      if last.playerId !in Ids(init) {
        DistinctGrows(Firsts(init), last);
      }
    }
  }

  lemma NoneRepeated()
    ensures Distinct([])
  {
  }

  lemma {:induction false} DistinctCount(players: seq<Player>)
    requires Distinct(players)
    ensures |Ids(players)| == |players|
  {
    if players == [] {
      assert Ids(players) == {};
    } else {
      var init, last := players[..|players| - 1], players[|players| - 1];
      LastIsNew(players);
      hide Distinct, Ids;
      DistinctCount(init);
      IdsAppend(init, last);
      assert players == init + [last];
    }
  }

  /** One more selected player: the tally changes only for a player not seen before. */
  lemma TallyStep(players: seq<Player>, p: Player)
    ensures var t := TallyOf(Firsts(players));
            && (p.playerId in t.seen ==> Firsts(players + [p]) == Firsts(players))
            && (p.playerId !in t.seen ==>
                  && |Firsts(players + [p])| == |Firsts(players)| + 1
                  && TallyOf(Firsts(players + [p])) == Selected(t, p))
  {
    assert (players + [p])[..|players|] == players;
    FirstsIds(players);
    TallySeen(Firsts(players));
    TallyAppend(Firsts(players), p);
  }

  /** The tally counts the first selections by role, team and credits. */
  lemma {:induction false} TallyIs(chosen: seq<Player>)
    ensures TallyOf(chosen).roles == CountMap(RolesOf(chosen)) && TallyOf(chosen).teams == CountMap(TeamsOf(chosen))
    ensures TallyOf(chosen).credits == Credits(chosen)
  {
    if chosen != [] {
      var init := chosen[..|chosen| - 1];
      TallyIs(init);
      assert RolesOf(chosen)[..|init|] == RolesOf(init);
      assert TeamsOf(chosen)[..|init|] == TeamsOf(init);
    }
  }

  /** It counts the captains and vice-captains and remembers the last of each. */
  predicate LeadersOf(t: Tally, chosen: seq<Player>)
  {
    && t.captainCount == |Captains(chosen)| && t.captain == LastOf(Captains(chosen))
    && t.viceCaptainCount == |ViceCaptains(chosen)| && t.viceCaptain == LastOf(ViceCaptains(chosen))
  }

  lemma {:induction false} TallyLeaders(chosen: seq<Player>)
    ensures LeadersOf(TallyOf(chosen), chosen)
  {
    if chosen != [] {
      TallyLeaders(chosen[..|chosen| - 1]);
    }
  }

  lemma NothingSelected()
    ensures Firsts([]) == [] && TallyOf([]) == EmptyTally()
  {
  }

  /** The loop over the selected players. */
  method TallyPlayers(players: seq<Player>) returns (t: Tally, issues: seq<Issue>)
    ensures t == TallyOf(Firsts(players))
    ensures ErrorCodes(issues) == if |Firsts(players)| < |players| then {DuplicatePlayer} else {}
    ensures AllErrors(issues)
  {
    hide Selected, Firsts;
    t, issues := EmptyTally(), [];
    NothingSelected();
    for i := 0 to |players|
      invariant t == TallyOf(Firsts(players[..i])) && |Firsts(players[..i])| <= i
      invariant ErrorCodes(issues) == if |Firsts(players[..i])| < i then {DuplicatePlayer} else {}
      invariant AllErrors(issues)
    {
      var p := players[i];
      assert players[..i + 1] == players[..i] + [p];
      TallyStep(players[..i], p);
      if p.playerId in t.seen {
        ErrorCodesConcat(issues, [Error(DuplicatePlayer)]);
        issues := issues + [Error(DuplicatePlayer)];
      } else {
        t := Selected(t, p);
      }
    }
    assert players[..|players|] == players;
  }

  /** The loop over the role constraints. */
  method CheckRoles(constraints: seq<RoleConstraint>, roles: map<PlayerRole, int>) returns (issues: seq<Issue>)
    ensures RoleMinNotMet in ErrorCodes(issues) <==> exists c :: c in constraints && CountIn(roles, c.role) < c.min
    ensures RoleMaxExceeded in ErrorCodes(issues) <==> exists c :: c in constraints && CountIn(roles, c.role) > c.max
    ensures ErrorCodes(issues) <= {RoleMinNotMet, RoleMaxExceeded} && AllErrors(issues)
  {
    issues := [];
    for i := 0 to |constraints|
      invariant RoleMinNotMet in ErrorCodes(issues) <==> exists k :: 0 <= k < i && CountIn(roles, constraints[k].role) < constraints[k].min
      invariant RoleMaxExceeded in ErrorCodes(issues) <==> exists k :: 0 <= k < i && CountIn(roles, constraints[k].role) > constraints[k].max
      invariant ErrorCodes(issues) <= {RoleMinNotMet, RoleMaxExceeded} && AllErrors(issues)
    {
      var c := constraints[i];
      var count := CountIn(roles, c.role);
      if count < c.min {
        ErrorCodesConcat(issues, [Error(RoleMinNotMet)]);
        issues := issues + [Error(RoleMinNotMet)];
      }
      if count > c.max {
        ErrorCodesConcat(issues, [Error(RoleMaxExceeded)]);
        issues := issues + [Error(RoleMaxExceeded)];
      }
    }
  }

  function CountIn<K>(m: map<K, int>, k: K): int
  {
    if k in m then m[k] else 0
  }

  /** The loop over the real teams that are over the limit. */
  method CheckTeamMax(teams: map<string, int>, max: int) returns (issues: seq<Issue>)
    ensures ErrorCodes(issues) == if exists t :: t in teams && teams[t] > max then {TeamPlayerLimitExceeded} else {}
    ensures AllErrors(issues)
  {
    issues := [];
    var todo := teams.Keys;
    while todo != {}
      invariant todo <= teams.Keys
      invariant ErrorCodes(issues) == if exists t :: t in teams && t !in todo && teams[t] > max then {TeamPlayerLimitExceeded} else {}
      invariant AllErrors(issues)
      decreases |todo|
    {
      var t :| t in todo;
      if teams[t] > max {
        ErrorCodesConcat(issues, [Error(TeamPlayerLimitExceeded)]);
        issues := issues + [Error(TeamPlayerLimitExceeded)];
      }
      todo := todo - {t};
    }
  }

  /** The loop over the real teams that are under the limit. */
  method CheckTeamMin(teams: map<string, int>, min: int) returns (issues: seq<Issue>)
    ensures ErrorCodes(issues) == if exists t :: t in teams && teams[t] < min then {TeamPlayerLimitNotMet} else {}
    ensures AllErrors(issues)
  {
    issues := [];
    var todo := teams.Keys;
    while todo != {}
      invariant todo <= teams.Keys
      invariant ErrorCodes(issues) == if exists t :: t in teams && t !in todo && teams[t] < min then {TeamPlayerLimitNotMet} else {}
      invariant AllErrors(issues)
      decreases |todo|
    {
      var t :| t in todo;
      if teams[t] < min {
        ErrorCodesConcat(issues, [Error(TeamPlayerLimitNotMet)]);
        issues := issues + [Error(TeamPlayerLimitNotMet)];
      }
      todo := todo - {t};
    }
  }

  const TOTALS := {MatchLocked, MaxTeamsPerUserReached, TeamSizeMismatch, CreditsExceeded}

  /** Lock and cap. */
  method CheckAccess(input: Input) returns (issues: seq<Issue>)
    ensures Reports(issues, input, {MatchLocked, MaxTeamsPerUserReached})
    ensures Warned(issues) <==> CapNear(input)
    ensures forall i :: i in issues && i.Warning? ==> i.code == MaxTeamsPerUserReached
  {
    var rule, count := input.rule, input.existingTeamCount;
    var locked := if input.matchLocked then [Error(MatchLocked)] else [];
    var cap := [];
    if count.Some? && !input.isEdit && count.value >= rule.maxTeamsPerUserPerMatch {
      cap := [Error(MaxTeamsPerUserReached)];
    } else if count.Some? && !input.isEdit && count.value + 1 >= rule.warnAtTeamsPerUserPerMatch {
      cap := [Warning(MaxTeamsPerUserReached)];
      assert cap[0] in cap && cap[0].Warning?;
    }
    ReportsBoth(locked, cap, input, {MatchLocked}, {MaxTeamsPerUserReached});
    WarnedBoth(locked, cap);
    issues := locked + cap;
  }

  /** Size and budget. */
  method CheckTotals(input: Input, t: Tally) returns (issues: seq<Issue>)
    requires |t.seen| == |Firsts(input.players)| && t.credits == Credits(Firsts(input.players))
    ensures Reports(issues, input, TOTALS)
    ensures Warned(issues) <==> CapNear(input)
  {
    var access := CheckAccess(input);
    var size := if |t.seen| != input.rule.teamSize then [Error(TeamSizeMismatch)] else [];
    var budget := if t.credits > input.rule.creditBudget then [Error(CreditsExceeded)] else [];
    ReportsBoth(size, budget, input, {TeamSizeMismatch}, {CreditsExceeded});
    ReportsBoth(access, size + budget, input, {MatchLocked, MaxTeamsPerUserReached}, {TeamSizeMismatch, CreditsExceeded});
    WarnedBoth(size, budget);
    WarnedBoth(access, size + budget);
    issues := access + (size + budget);
  }

  const LEADERS := {CaptainNotSelected, ViceCaptainNotSelected, CaptainViceCaptainSame}

  /** How many captains and vice-captains there are. */
  method CheckLeaderCounts(input: Input, t: Tally) returns (issues: seq<Issue>)
    requires LeadersOf(t, Firsts(input.players))
    ensures Reports(issues, input, {CaptainNotSelected, ViceCaptainNotSelected}) && AllErrors(issues)
  {
    var captain, vice := [], [];
    if t.captainCount == 0 {
      captain := [Error(CaptainNotSelected)];
    } else if t.captainCount > 1 {
      captain := [Error(CaptainNotSelected)];
    }
    if t.viceCaptainCount == 0 {
      vice := [Error(ViceCaptainNotSelected)];
    } else if t.viceCaptainCount > 1 {
      vice := [Error(ViceCaptainNotSelected)];
    }
    ReportsBoth(captain, vice, input, {CaptainNotSelected}, {ViceCaptainNotSelected});
    issues := captain + vice;
  }

  /** Captain and vice-captain; an empty id counts as no id. */
  method CheckLeaders(input: Input, t: Tally) returns (issues: seq<Issue>)
    requires LeadersOf(t, Firsts(input.players))
    ensures Reports(issues, input, LEADERS) && AllErrors(issues)
  {
    var counts := CheckLeaderCounts(input, t);
    var same := [];
    if t.captain.Some? && t.captain.value != "" && t.viceCaptain.Some? && t.viceCaptain.value != "" && t.captain == t.viceCaptain {
      same := [Error(CaptainViceCaptainSame)];
    }
    ReportsBoth(counts, same, input, {CaptainNotSelected, ViceCaptainNotSelected}, {CaptainViceCaptainSame});
    issues := counts + same;
  }

  const LIMITS := {RoleMinNotMet, RoleMaxExceeded, TeamPlayerLimitExceeded, TeamPlayerLimitNotMet}

  /** Role constraints and real-team limits. */
  method CheckLimits(input: Input, t: Tally) returns (issues: seq<Issue>)
    requires var chosen := Firsts(input.players);
             && |t.seen| == |chosen| && t.roles == CountMap(RolesOf(chosen)) && t.teams == CountMap(TeamsOf(chosen))
    ensures Reports(issues, input, LIMITS) && AllErrors(issues)
  {
    var rule := input.rule;
    ghost var chosen := Firsts(input.players);
    var roles := CheckRoles(rule.roleConstraints, t.roles);
    RolesReported(chosen, rule.roleConstraints);
    assert Reports(roles, input, {RoleMinNotMet, RoleMaxExceeded});
    var teams := CheckTeams(input, t);
    ReportsBoth(roles, teams, input, {RoleMinNotMet, RoleMaxExceeded}, {TeamPlayerLimitExceeded, TeamPlayerLimitNotMet});
    issues := roles + teams;
  }

  method CheckTeams(input: Input, t: Tally) returns (issues: seq<Issue>)
    requires |t.seen| == |Firsts(input.players)| && t.teams == CountMap(TeamsOf(Firsts(input.players)))
    ensures Reports(issues, input, {TeamPlayerLimitExceeded, TeamPlayerLimitNotMet}) && AllErrors(issues)
  {
    var rule := input.rule;
    TeamsReported(Firsts(input.players), rule.maxFromSingleTeam, rule.minFromSingleTeam);
    var most := CheckTeamMax(t.teams, rule.maxFromSingleTeam);
    var least := [];
    if |t.seen| == rule.teamSize {
      least := CheckTeamMin(t.teams, rule.minFromSingleTeam);
    }
    ReportsBoth(most, least, input, {TeamPlayerLimitExceeded}, {TeamPlayerLimitNotMet});
    issues := most + least;
  }

  /** Two decimals, halves away from zero. */
  function ToFixed2(x: real): real
  {
    if x < 0.0 then -Round2(-x) else Round2(x)
  }

  lemma OppositeOnGrid(x: real)
    requires OnGrid(x)
    ensures OnGrid(-x)
  {
    assert -x * 100.0 == (-(x * 100.0).Floor) as real;
  }

  lemma ToFixedNear(x: real)
    ensures OnGrid(ToFixed2(x)) && ToFixed2(-x) == -ToFixed2(x)
    ensures x >= 0.0 ==> -0.005 < ToFixed2(x) - x <= 0.005
    ensures x < 0.0 ==> -0.005 <= ToFixed2(x) - x < 0.005
  {
    Round2Near(if x < 0.0 then -x else x);
    if x < 0.0 {
      OppositeOnGrid(Round2(-x));
    }
    Round2Near(0.0);
  }

  /** The checks one after another. */
  method CollectIssues(input: Input) returns (t: Tally, issues: seq<Issue>)
    ensures t == TallyOf(Firsts(input.players))
    ensures forall c :: c in ErrorCodes(issues) <==> Broken(input, c)
    ensures Warned(issues) <==> CapNear(input)
  {
    var repeats;
    t, repeats := TallyPlayers(input.players);
    assert Reports(repeats, input, {DuplicatePlayer});
    SelectedCount(input.players);
    TallyIs(Firsts(input.players));
    TallyLeaders(Firsts(input.players));
    var totals := CheckTotals(input, t);
    var limits := CheckLimits(input, t);
    var leaders := CheckLeaders(input, t);
    ReportsAll(repeats, totals, limits, leaders, input);
    WarnedBoth(repeats, totals);
    WarnedBoth(repeats + totals, limits);
    WarnedBoth(repeats + totals + limits, leaders);
    issues := repeats + totals + limits + leaders;
  }

  lemma EveryCode(c: Code)
    ensures c in {DuplicatePlayer} + TOTALS + LIMITS + LEADERS
  {
    match c
    case DuplicatePlayer =>
    case MatchLocked =>
    case MaxTeamsPerUserReached =>
    case TeamSizeMismatch =>
    case CreditsExceeded =>
    case RoleMinNotMet =>
    case RoleMaxExceeded =>
    case TeamPlayerLimitExceeded =>
    case TeamPlayerLimitNotMet =>
    case CaptainNotSelected =>
    case ViceCaptainNotSelected =>
    case CaptainViceCaptainSame =>
  }

  lemma ReportsAll(repeats: seq<Issue>, totals: seq<Issue>, limits: seq<Issue>, leaders: seq<Issue>, input: Input)
    requires Reports(repeats, input, {DuplicatePlayer}) && Reports(totals, input, TOTALS)
    requires Reports(limits, input, LIMITS) && Reports(leaders, input, LEADERS)
    ensures forall c :: c in ErrorCodes(repeats + totals + limits + leaders) <==> Broken(input, c)
  {
    hide Broken;
    ReportsBoth(repeats, totals, input, {DuplicatePlayer}, TOTALS);
    ReportsBoth(repeats + totals, limits, input, {DuplicatePlayer} + TOTALS, LIMITS);
    ReportsBoth(repeats + totals + limits, leaders, input, {DuplicatePlayer} + TOTALS + LIMITS, LEADERS);
    forall c: Code ensures c in {DuplicatePlayer} + TOTALS + LIMITS + LEADERS {
      EveryCode(c);
    }
  }

  lemma SelectedCount(players: seq<Player>)
    ensures |TallyOf(Firsts(players)).seen| == |Firsts(players)| <= |players|
  {
    FirstsIds(players);
    FirstsDistinct(players);
    DistinctCount(Firsts(players));
    TallySeen(Firsts(players));
  }

  lemma RolesReported(chosen: seq<Player>, constraints: seq<RoleConstraint>)
    ensures forall c :: c in constraints ==> CountIn(CountMap(RolesOf(chosen)), c.role) == Count(RolesOf(chosen), c.role)
  {
    CountMapIs(RolesOf(chosen));
  }

  lemma NoErrors(issues: seq<Issue>)
    ensures (forall i :: i in issues ==> !i.Error?) <==> ErrorCodes(issues) == {}
  {
    if i :| i in issues && i.Error? {
      assert i.code in ErrorCodes(issues);
    }
  }

  /** Reports an error code exactly for every broken rule. */
  method ValidateFantasyTeam(input: Input) returns (result: Result)
    ensures forall c :: c in ErrorCodes(result.issues) <==> Broken(input, c)
    ensures result.isValid <==> forall c :: !Broken(input, c)
    ensures Warned(result.issues) <==> CapNear(input)
    ensures result.summary == SummaryOf(input)
  {
    hide Broken, Firsts, Credits, Captains, ViceCaptains, Count, CountMap, ToFixed2, CapNear;
    var t, issues := CollectIssues(input);
    var chosen := Firsts(input.players);
    SelectedCount(input.players);
    TallyIs(chosen);
    TallyLeaders(chosen);
    NoErrors(issues);
    result := Result(forall i :: i in issues ==> !i.Error?, issues,
                     Summary(|t.seen|, ToFixed2(t.credits), ToFixed2(input.rule.creditBudget - t.credits),
                             t.roles, t.teams, t.captainCount == 1, t.viceCaptainCount == 1));
  }

  function SummaryOf(input: Input): Summary
  {
    var chosen := Firsts(input.players);
    Summary(|chosen|, ToFixed2(Credits(chosen)), ToFixed2(input.rule.creditBudget - Credits(chosen)),
            CountMap(RolesOf(chosen)), CountMap(TeamsOf(chosen)), |Captains(chosen)| == 1, |ViceCaptains(chosen)| == 1)
  }

  lemma TeamsReported(chosen: seq<Player>, max: int, min: int)
    ensures (exists t :: t in CountMap(TeamsOf(chosen)) && CountMap(TeamsOf(chosen))[t] > max)
       <==> (exists p :: p in chosen && Count(TeamsOf(chosen), p.teamId) > max)
    ensures (exists t :: t in CountMap(TeamsOf(chosen)) && CountMap(TeamsOf(chosen))[t] < min)
       <==> (exists p :: p in chosen && Count(TeamsOf(chosen), p.teamId) < min)
  {
    var teams := CountMap(TeamsOf(chosen));
    CountMapIs(TeamsOf(chosen));
    forall t | t in teams ensures exists p :: p in chosen && p.teamId == t && Count(TeamsOf(chosen), p.teamId) == teams[t] {
      var i :| 0 <= i < |chosen| && TeamsOf(chosen)[i] == t;
      assert chosen[i] in chosen;
    }
    forall p | p in chosen ensures p.teamId in teams && teams[p.teamId] == Count(TeamsOf(chosen), p.teamId) {
      var i :| 0 <= i < |chosen| && chosen[i] == p;
      assert TeamsOf(chosen)[i] == p.teamId;
    }
  }

  // ---- What a valid team is ------------------------------------------------------------------

  /** The documented rules of a team, without reference to issues or tallies. */
  ghost predicate ValidTeam(input: Input)
  {
    var players, rule := input.players, input.rule;
    && Distinct(players) && |players| == rule.teamSize && Credits(players) <= rule.creditBudget
    && (forall c :: c in rule.roleConstraints ==> c.min <= Count(RolesOf(players), c.role) <= c.max)
    && (forall p :: p in players ==> rule.minFromSingleTeam <= Count(TeamsOf(players), p.teamId) <= rule.maxFromSingleTeam)
    && OneLeader(Captains(players)) && OneLeader(ViceCaptains(players)) && Captains(players) != ViceCaptains(players)
    && !input.matchLocked
    && (input.existingTeamCount.Some? && !input.isEdit ==> input.existingTeamCount.value < rule.maxTeamsPerUserPerMatch)
  }

  /** Position `i` is the only one that is flagged. */
  ghost predicate OnlyCaptain(players: seq<Player>, i: nat)
  {
    i < |players| && players[i].isCaptain && forall j :: 0 <= j < |players| && players[j].isCaptain ==> j == i
  }

  ghost predicate OnlyViceCaptain(players: seq<Player>, i: nat)
  {
    i < |players| && players[i].isViceCaptain && forall j :: 0 <= j < |players| && players[j].isViceCaptain ==> j == i
  }

  function CreditsOf(players: seq<Player>): seq<real>
  {
    seq(|players|, i requires 0 <= i < |players| => players[i].credits)
  }

  ghost function InRole(players: seq<Player>, role: PlayerRole): set<int>
  {
    set i | 0 <= i < |players| && players[i].role == role
  }

  ghost function InTeam(players: seq<Player>, team: string): set<int>
  {
    set i | 0 <= i < |players| && players[i].teamId == team
  }

  /** The same rules over the positions of the selection alone. */
  ghost predicate PlainlyValid(input: Input)
  {
    var players, rule := input.players, input.rule;
    && (forall i, j :: 0 <= i < j < |players| ==> players[i].playerId != players[j].playerId)
    && |players| == rule.teamSize && SumReals(CreditsOf(players)) <= rule.creditBudget
    && (forall c :: c in rule.roleConstraints ==>
          c.min <= |InRole(players, c.role)| <= c.max)
    && (forall k :: 0 <= k < |players| ==>
          rule.minFromSingleTeam <= |InTeam(players, players[k].teamId)| <= rule.maxFromSingleTeam)
    && (exists c, v :: OnlyCaptain(players, c) && OnlyViceCaptain(players, v) && c != v)
    && !input.matchLocked
    && (input.existingTeamCount.Some? && !input.isEdit ==> input.existingTeamCount.value < rule.maxTeamsPerUserPerMatch)
  }

  lemma {:induction false} CreditsAreSum(players: seq<Player>)
    ensures Credits(players) == SumReals(CreditsOf(players))
  {
    if players != [] {
      CreditsAreSum(players[..|players| - 1]);
      assert CreditsOf(players)[..|players| - 1] == CreditsOf(players[..|players| - 1]);
    }
  }

  lemma CountsArePositions(players: seq<Player>, role: PlayerRole, team: string)
    ensures Count(RolesOf(players), role) == |InRole(players, role)| && Count(TeamsOf(players), team) == |InTeam(players, team)|
  {
    CountIsPositions(RolesOf(players), role);
    CountIsPositions(TeamsOf(players), team);
    assert Positions(RolesOf(players), role) == InRole(players, role);
    assert Positions(TeamsOf(players), team) == InTeam(players, team);
  }

  lemma {:induction false} NoCaptain(players: seq<Player>)
    ensures Captains(players) == [] <==> forall j :: 0 <= j < |players| ==> !players[j].isCaptain
    ensures ViceCaptains(players) == [] <==> forall j :: 0 <= j < |players| ==> !players[j].isViceCaptain
  {
    if players != [] {
      var n := |players| - 1;
      NoCaptain(players[..n]);
      assert forall j :: 0 <= j < n ==> players[..n][j] == players[j];
    }
  }

  lemma {:induction false} OneCaptainIff(players: seq<Player>, i: nat)
    requires i < |players|
    ensures OnlyCaptain(players, i) ==> Captains(players) == [players[i].playerId]
    ensures OnlyViceCaptain(players, i) ==> ViceCaptains(players) == [players[i].playerId]
  {
    var n := |players| - 1;
    var init := players[..n];
    assert forall j :: 0 <= j < n ==> init[j] == players[j];
    NoCaptain(init);
    if i < n {
      OneCaptainIff(init, i);
    }
  }

  lemma {:induction false} FindCaptain(players: seq<Player>) returns (i: nat)
    requires |Captains(players)| == 1
    ensures OnlyCaptain(players, i)
  {
    var n := |players| - 1;
    var init := players[..n];
    NoCaptain(init);
    assert forall j :: 0 <= j < n ==> init[j] == players[j];
    if players[n].isCaptain {
      i := n;
    } else {
      i := FindCaptain(init);
    }
  }

  lemma {:induction false} FindViceCaptain(players: seq<Player>) returns (i: nat)
    requires |ViceCaptains(players)| == 1
    ensures OnlyViceCaptain(players, i)
  {
    var n := |players| - 1;
    var init := players[..n];
    NoCaptain(init);
    assert forall j :: 0 <= j < n ==> init[j] == players[j];
    if players[n].isViceCaptain {
      i := n;
    } else {
      i := FindViceCaptain(init);
    }
  }

  /** Exactly one captain and a different vice-captain, as ids and as positions. */
  lemma LeadersArePositions(players: seq<Player>)
    requires Distinct(players)
    ensures OneLeader(Captains(players)) && OneLeader(ViceCaptains(players)) && Captains(players) != ViceCaptains(players)
       <==> exists c, v :: OnlyCaptain(players, c) && OnlyViceCaptain(players, v) && c != v
  {
    if c, v :| OnlyCaptain(players, c) && OnlyViceCaptain(players, v) && c != v {
      OneCaptainIff(players, c);
      OneCaptainIff(players, v);
    }
    if OneLeader(Captains(players)) && OneLeader(ViceCaptains(players)) && Captains(players) != ViceCaptains(players) {
      var c := FindCaptain(players);
      var v := FindViceCaptain(players);
      OneCaptainIff(players, c);
      OneCaptainIff(players, v);
    }
  }

  lemma {:induction false} LastCaptain(players: seq<Player>) returns (i: nat)
    requires Captains(players) != []
    ensures i < |players| && players[i].isCaptain && LastOf(Captains(players)) == Some(players[i].playerId)
    ensures forall j :: i < j < |players| ==> !players[j].isCaptain
  {
    var n := |players| - 1;
    if players[n].isCaptain {
      i := n;
    } else {
      i := LastCaptain(players[..n]);
    }
  }

  lemma {:induction false} LastViceCaptain(players: seq<Player>) returns (i: nat)
    requires ViceCaptains(players) != []
    ensures i < |players| && players[i].isViceCaptain && LastOf(ViceCaptains(players)) == Some(players[i].playerId)
    ensures forall j :: i < j < |players| ==> !players[j].isViceCaptain
  {
    var n := |players| - 1;
    if players[n].isViceCaptain {
      i := n;
    } else {
      i := LastViceCaptain(players[..n]);
    }
  }

  /** The selections that count are those whose id was not selected before. */
  lemma {:induction false} FirstsAre(players: seq<Player>, p: Player)
    ensures p in Firsts(players) <==>
            exists i :: 0 <= i < |players| && players[i] == p && forall j :: 0 <= j < i ==> players[j].playerId != p.playerId
  {
    if players != [] {
      var n := |players| - 1;
      var init, last := players[..n], players[n];
      FirstsAre(init, p);
      assert forall j :: 0 <= j < n ==> init[j] == players[j];
      assert last.playerId in Ids(init) <==> exists j :: 0 <= j < n && players[j].playerId == last.playerId;
    }
  }

  /** Position `i` is the last one that is flagged. */
  ghost predicate LastFlagged(players: seq<Player>, i: nat, captain: bool)
  {
    && i < |players| && (if captain then players[i].isCaptain else players[i].isViceCaptain)
    && forall j :: i < j < |players| ==> !(if captain then players[j].isCaptain else players[j].isViceCaptain)
  }

  /** What each error code means, over the first selections. */
  ghost predicate Wrong(input: Input, chosen: seq<Player>, code: Code)
  {
    var players, rule := input.players, input.rule;
    match code
    case DuplicatePlayer => exists i, j :: 0 <= i < j < |players| && players[i].playerId == players[j].playerId
    case MatchLocked => input.matchLocked
    case MaxTeamsPerUserReached =>
      input.existingTeamCount.Some? && !input.isEdit && input.existingTeamCount.value >= rule.maxTeamsPerUserPerMatch
    case TeamSizeMismatch => |Ids(players)| != rule.teamSize
    case CreditsExceeded => SumReals(CreditsOf(chosen)) > rule.creditBudget
    case RoleMinNotMet => exists c :: c in rule.roleConstraints && |InRole(chosen, c.role)| < c.min
    case RoleMaxExceeded => exists c :: c in rule.roleConstraints && |InRole(chosen, c.role)| > c.max
    case TeamPlayerLimitExceeded => exists p :: p in chosen && |InTeam(chosen, p.teamId)| > rule.maxFromSingleTeam
    case TeamPlayerLimitNotMet =>
      |Ids(players)| == rule.teamSize && exists p :: p in chosen && |InTeam(chosen, p.teamId)| < rule.minFromSingleTeam
    case CaptainNotSelected => !exists c :: OnlyCaptain(chosen, c)
    case ViceCaptainNotSelected => !exists v :: OnlyViceCaptain(chosen, v)
    case CaptainViceCaptainSame =>
      exists c: nat, v: nat :: LastFlagged(chosen, c, true) && LastFlagged(chosen, v, false)
                     && chosen[c].playerId == chosen[v].playerId != ""
  }

  lemma LimitCodesAre(input: Input, code: Code)
    requires code == RoleMinNotMet || code == RoleMaxExceeded || code == TeamPlayerLimitExceeded || code == TeamPlayerLimitNotMet
    ensures Broken(input, code) <==> Wrong(input, Firsts(input.players), code)
  {
    hide Firsts, Count, RolesOf, TeamsOf;
    var chosen := Firsts(input.players);
    SelectedCount(input.players);
    TallySeen(chosen);
    FirstsIds(input.players);
    forall c | c in input.rule.roleConstraints ensures Count(RolesOf(chosen), c.role) == |InRole(chosen, c.role)| {
      CountsArePositions(chosen, c.role, "");
    }
    forall p | p in chosen ensures Count(TeamsOf(chosen), p.teamId) == |InTeam(chosen, p.teamId)| {
      CountsArePositions(chosen, p.role, p.teamId);
    }
  }

  lemma LeaderCountsAre(chosen: seq<Player>)
    ensures |Captains(chosen)| == 1 <==> exists c :: OnlyCaptain(chosen, c)
    ensures |ViceCaptains(chosen)| == 1 <==> exists v :: OnlyViceCaptain(chosen, v)
  {
    if c :| OnlyCaptain(chosen, c) {
      OneCaptainIff(chosen, c);
    }
    if v :| OnlyViceCaptain(chosen, v) {
      OneCaptainIff(chosen, v);
    }
    if |Captains(chosen)| == 1 {
      var c := FindCaptain(chosen);
    }
    if |ViceCaptains(chosen)| == 1 {
      var v := FindViceCaptain(chosen);
    }
  }

  lemma SameLeaderIs(chosen: seq<Player>)
    ensures LastOf(Captains(chosen)).Some? && LastOf(Captains(chosen)) == LastOf(ViceCaptains(chosen)) && LastOf(Captains(chosen)).value != ""
       <==> exists c: nat, v: nat :: LastFlagged(chosen, c, true) && LastFlagged(chosen, v, false)
                           && chosen[c].playerId == chosen[v].playerId != ""
  {
    NoCaptain(chosen);
    if Captains(chosen) != [] && ViceCaptains(chosen) != [] {
      var c := LastCaptain(chosen);
      var v := LastViceCaptain(chosen);
      assert LastFlagged(chosen, c, true) && LastFlagged(chosen, v, false);
      forall x: nat | LastFlagged(chosen, x, true) ensures x == c {
      }
      forall x: nat | LastFlagged(chosen, x, false) ensures x == v {
      }
    }
  }

  lemma RepeatsAre(players: seq<Player>)
    ensures |Firsts(players)| < |players| <==> exists i, j :: 0 <= i < j < |players| && players[i].playerId == players[j].playerId
  {
    hide Firsts;
    FirstsIds(players);
    FirstsDistinct(players);
    if Distinct(players) {
      FirstsOfDistinct(players);
    }
  }

  /** Every error code is reported exactly when what it names is wrong with the selection, valid otherwise or not. */
  lemma CodesAre(input: Input, code: Code)
    ensures Broken(input, code) <==> Wrong(input, Firsts(input.players), code)
  {
    hide Firsts, Count, RolesOf, TeamsOf, Captains, ViceCaptains, LastOf, Credits, CreditsOf, SumReals, InRole, InTeam,
         OnlyCaptain, OnlyViceCaptain, LastFlagged, TallyOf;
    var chosen := Firsts(input.players);
    SelectedCount(input.players);
    TallySeen(chosen);
    FirstsIds(input.players);
    match code
    case DuplicatePlayer => RepeatsAre(input.players);
    case CreditsExceeded => CreditsAreSum(chosen);
    case RoleMinNotMet => LimitCodesAre(input, code);
    case RoleMaxExceeded => LimitCodesAre(input, code);
    case TeamPlayerLimitExceeded => LimitCodesAre(input, code);
    case TeamPlayerLimitNotMet => LimitCodesAre(input, code);
    case CaptainNotSelected => LeaderCountsAre(chosen);
    case ViceCaptainNotSelected => LeaderCountsAre(chosen);
    case CaptainViceCaptainSame => SameLeaderIs(chosen);
    case _ =>
  }

  /** A valid team, read off the positions of the selection. */
  lemma ValidTeamIsPlain(input: Input)
    ensures ValidTeam(input) <==> PlainlyValid(input)
  {
    hide Count, Credits, Captains, ViceCaptains, OnlyCaptain, OnlyViceCaptain, RolesOf, TeamsOf, OneLeader;
    var players, rule := input.players, input.rule;
    CreditsAreSum(players);
    forall c | c in rule.roleConstraints
      ensures Count(RolesOf(players), c.role) == |InRole(players, c.role)|
    {
      CountsArePositions(players, c.role, "");
    }
    forall p | p in players
      ensures Count(TeamsOf(players), p.teamId) == |InTeam(players, p.teamId)|
    {
      CountsArePositions(players, p.role, p.teamId);
    }
    if Distinct(players) {
      LeadersArePositions(players);
    }
  }

  predicate OneLeader(ids: seq<string>)
  {
    |ids| == 1
  }

  lemma LastIsNew(players: seq<Player>)
    requires Distinct(players) && players != []
    ensures Distinct(players[..|players| - 1]) && players[|players| - 1].playerId !in Ids(players[..|players| - 1])
  {
  }

  lemma {:induction false} FirstsOfDistinct(players: seq<Player>)
    requires Distinct(players)
    ensures Firsts(players) == players
  {
    hide Distinct, Ids;
    if players != [] {
      LastIsNew(players);
      FirstsOfDistinct(players[..|players| - 1]);
      assert players == players[..|players| - 1] + [players[|players| - 1]];
    }
  }

  /** The one player that is both leaders has an empty id. */
  predicate NamelessLeader(players: seq<Player>)
  {
    Captains(players) == [""] && ViceCaptains(players) == [""]
  }

  /** All rules but the one that separates the two leaders. */
  ghost predicate ValidButForLeaders(input: Input)
  {
    forall c :: Broken(input, c) ==> c == CaptainViceCaptainSame
  }

  /**
   * The validator accepts exactly the valid teams, and beyond them the teams that
   * are valid but for one player with an empty id who is captain and vice-captain.
   */
  lemma AcceptedIff(input: Input)
    ensures (forall c :: !Broken(input, c))
       <==> ValidTeam(input) || (ValidButForLeaders(input) && NamelessLeader(Firsts(input.players)))
  {
    assert NamelessLeader(Firsts(input.players)) ==> !Broken(input, CaptainViceCaptainSame);
    if forall c :: !Broken(input, c) {
      NoneBroken(input);
      NoneBrokenLeaders(input);
    }
    if ValidTeam(input) {
      forall c ensures !Broken(input, c) {
        ValidBreaksNothing(input, c);
      }
    }
  }

  lemma NoneBroken(input: Input)
    requires forall c :: !Broken(input, c)
    ensures Firsts(input.players) == input.players
    ensures ValidTeam(input) <==> Captains(input.players) != ViceCaptains(input.players)
  {
    hide Broken;
    NoRepeat(input);
    NoTotalBroken(input);
    NoLimitBroken(input);
  }

  lemma NoRepeat(input: Input)
    requires !Broken(input, DuplicatePlayer)
    ensures Firsts(input.players) == input.players && Distinct(input.players)
  {
    FirstsIds(input.players);
    FirstsDistinct(input.players);
  }

  lemma NoTotalBroken(input: Input)
    requires forall c :: !Broken(input, c)
    requires Firsts(input.players) == input.players
    ensures |input.players| == input.rule.teamSize && Credits(input.players) <= input.rule.creditBudget
    ensures !input.matchLocked && !TeamCapReached(input)
    ensures OneLeader(Captains(input.players)) && OneLeader(ViceCaptains(input.players))
  {
    assert !Broken(input, MatchLocked) && !Broken(input, MaxTeamsPerUserReached);
    assert !Broken(input, TeamSizeMismatch) && !Broken(input, CreditsExceeded);
    assert !Broken(input, CaptainNotSelected) && !Broken(input, ViceCaptainNotSelected);
  }

  lemma NoLimitBroken(input: Input)
    requires forall c :: !Broken(input, c)
    requires Firsts(input.players) == input.players
    ensures forall c :: c in input.rule.roleConstraints ==> c.min <= Count(RolesOf(input.players), c.role) <= c.max
    ensures forall p :: p in input.players ==>
              input.rule.minFromSingleTeam <= Count(TeamsOf(input.players), p.teamId) <= input.rule.maxFromSingleTeam
  {
    assert !Broken(input, RoleMinNotMet) && !Broken(input, RoleMaxExceeded) && !Broken(input, TeamSizeMismatch);
    assert !Broken(input, TeamPlayerLimitExceeded) && !Broken(input, TeamPlayerLimitNotMet);
  }

  lemma NoneBrokenLeaders(input: Input)
    requires forall c :: !Broken(input, c)
    ensures var chosen := Firsts(input.players); Captains(chosen) != ViceCaptains(chosen) || NamelessLeader(chosen)
  {
    var chosen := Firsts(input.players);
    assert !Broken(input, CaptainNotSelected) && !Broken(input, CaptainViceCaptainSame);
    assert Captains(chosen) == [Captains(chosen)[0]];
  }

  lemma ValidBreaksNothing(input: Input, c: Code)
    requires ValidTeam(input)
    ensures !Broken(input, c)
  {
    FirstsOfDistinct(input.players);
    var captain, vice := Captains(input.players), ViceCaptains(input.players);
    assert captain == [captain[0]] && vice == [vice[0]];
    match c
    case DuplicatePlayer =>
    case MatchLocked =>
    case MaxTeamsPerUserReached =>
    case TeamSizeMismatch =>
    case CreditsExceeded =>
    case RoleMinNotMet =>
    case RoleMaxExceeded =>
    case TeamPlayerLimitExceeded =>
    case TeamPlayerLimitNotMet =>
    case CaptainNotSelected =>
    case ViceCaptainNotSelected =>
    case CaptainViceCaptainSame =>
  }

  /** Unless that is the case the validator is the declarative specification. */
  lemma AcceptsExactlyValidTeams(input: Input)
    requires !NamelessLeader(Firsts(input.players))
    ensures (forall c :: !Broken(input, c)) <==> ValidTeam(input)
  {
    AcceptedIff(input);
  }

  /** One player with an empty id, captain and vice-captain, in a team of one. */
  function NamelessTeam(): Input
  {
    Input(Rule(1, 100.0, [], 1, 1, 20, 15), [Player("", Batsman, "A", 8.0, true, true)], false, None, false)
  }

  lemma NamelessCounts()
    ensures var players := NamelessTeam().players;
            && Firsts(players) == players && Credits(players) == 8.0
            && Count(TeamsOf(players), "A") == 1 && Captains(players) == [""] && ViceCaptains(players) == [""]
  {
    var players := NamelessTeam().players;
    FirstsOfDistinct(players);
    assert players[..0] == [];
    assert TeamsOf(players) == ["A"] && ["A"][..0] == [];
    assert Count([], "A") == 0;
  }

  /** A team the validator accepts although its captain is its vice-captain. */
  lemma NamelessLeaderIsAccepted()
    ensures (forall c :: !Broken(NamelessTeam(), c)) && !ValidTeam(NamelessTeam())
  {
    NamelessCounts();
    forall c ensures !Broken(NamelessTeam(), c) {
      match c
      case DuplicatePlayer =>
      case MatchLocked =>
      case MaxTeamsPerUserReached =>
      case TeamSizeMismatch =>
      case CreditsExceeded =>
      case RoleMinNotMet =>
      case RoleMaxExceeded =>
      case TeamPlayerLimitExceeded =>
      case TeamPlayerLimitNotMet =>
      case CaptainNotSelected =>
      case ViceCaptainNotSelected =>
      case CaptainViceCaptainSame =>
    }
  }

  // ---- Tallies of a valid team ---------------------------------------------------------------

  /** What the summary says, apart from how it is computed. */
  lemma SummaryIs(input: Input)
    ensures var summary, chosen, rule := SummaryOf(input), Firsts(input.players), input.rule;
      && summary.playersSelected == |Ids(input.players)|
      && OnGrid(summary.creditsUsed) && Abs(summary.creditsUsed - Credits(chosen)) <= 0.005
      && OnGrid(summary.creditsRemaining) && Abs(summary.creditsRemaining - (rule.creditBudget - Credits(chosen))) <= 0.005
      && (forall role :: role in summary.roleBreakdown ==> summary.roleBreakdown[role] == Count(RolesOf(chosen), role) > 0)
      && (forall role :: role !in summary.roleBreakdown ==> Count(RolesOf(chosen), role) == 0)
      && (forall team :: team in summary.teamBreakdown ==> summary.teamBreakdown[team] == Count(TeamsOf(chosen), team) > 0)
      && (forall team :: team !in summary.teamBreakdown ==> Count(TeamsOf(chosen), team) == 0)
      && (summary.hasCaptain <==> |Captains(chosen)| == 1) && (summary.hasViceCaptain <==> |ViceCaptains(chosen)| == 1)
  {
    hide Firsts, Count, CountMap, ToFixed2, Credits, Captains, ViceCaptains, OnGrid;
    var chosen := Firsts(input.players);
    BreakdownsAddUp(input);
    CountMapIs(RolesOf(chosen));
    CountMapIs(TeamsOf(chosen));
    ToFixedNear(Credits(chosen));
    ToFixedNear(input.rule.creditBudget - Credits(chosen));
  }

  /** Both breakdowns add up to the number of players selected. */
  lemma BreakdownsAddUp(input: Input)
    ensures MapSum(SummaryOf(input).roleBreakdown) == SummaryOf(input).playersSelected
    ensures MapSum(SummaryOf(input).teamBreakdown) == SummaryOf(input).playersSelected
    ensures SummaryOf(input).playersSelected == |Ids(input.players)|
  {
    CountMapIs(RolesOf(Firsts(input.players)));
    CountMapIs(TeamsOf(Firsts(input.players)));
    FirstsIds(input.players);
    FirstsDistinct(input.players);
    DistinctCount(Firsts(input.players));
  }

  lemma LimitsOfValidTeam(input: Input)
    requires ValidTeam(input)
    ensures var rule, teams := input.rule, CountMap(TeamsOf(input.players));
            && (forall t :: t in teams ==> rule.minFromSingleTeam <= teams[t] <= rule.maxFromSingleTeam)
            && MapSum(teams) == rule.teamSize
  {
    var players, teams := input.players, CountMap(TeamsOf(input.players));
    CountMapIs(TeamsOf(players));
    forall t | t in teams ensures input.rule.minFromSingleTeam <= teams[t] <= input.rule.maxFromSingleTeam {
      var i :| 0 <= i < |players| && TeamsOf(players)[i] == t;
      assert players[i] in players;
      assert teams[t] == Count(TeamsOf(players), players[i].teamId);
    }
  }

  /** A valid team comes from neither too few nor too many real teams. */
  lemma RealTeamsSpanned(input: Input)
    requires ValidTeam(input) && input.rule.minFromSingleTeam > 0 && input.rule.maxFromSingleTeam > 0
    ensures var rule, spanned := input.rule, |SummaryOf(input).teamBreakdown|;
            (rule.teamSize + rule.maxFromSingleTeam - 1) / rule.maxFromSingleTeam <= spanned
            <= rule.teamSize / rule.minFromSingleTeam
  {
    var rule, teams := input.rule, CountMap(TeamsOf(input.players));
    FirstsOfDistinct(input.players);
    LimitsOfValidTeam(input);
    MapSumBetween(teams, rule.minFromSingleTeam, rule.maxFromSingleTeam, |teams|);
    Quotients(rule.teamSize, rule.minFromSingleTeam, rule.maxFromSingleTeam, |teams|);
  }

  lemma Cancel(d: int, x: int, y: int)
    requires d > 0 && d * x < d * y
    ensures x < y
  {
  }

  lemma Quotients(size: int, lo: int, hi: int, n: int)
    requires lo > 0 && hi > 0 && lo * n <= size <= hi * n
    ensures (size + hi - 1) / hi <= n <= size / lo
  {
    var q, r := (size + hi - 1) / hi, size / lo;
    assert hi * q <= size + hi - 1 < hi * n + hi == hi * (n + 1);
    Cancel(hi, q, n + 1);
    assert lo * n <= size < lo * r + lo == lo * (r + 1);
    Cancel(lo, n, r + 1);
  }
}
