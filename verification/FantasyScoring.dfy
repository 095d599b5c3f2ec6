/** The scoring engine: points of a player and of a team, rounded at every step. */
module FantasyScoring {
  import opened Options
  import opened Rounding

  datatype PlayerRole =
    | Batsman | Bowler | AllRounder | WicketKeeper
    | Goalkeeper | Defender | Midfielder | Forward
    | Guard | Center
    | Raider | DefenderKabaddi | AllRounderKabaddi
    | Unknown

  datatype Category = Batting | Bowling | Fielding | Bonus | Penalty

  datatype ScoringEvent = ScoringEvent(code: string, category: Category, statKey: string, points: real,
                                       threshold: Option<real>, unit: Option<real>, appliesTo: seq<PlayerRole>)

  datatype TeamRule = TeamRule(captainMultiplier: real, viceCaptainMultiplier: real)

  datatype Applied = Applied(code: string, category: Category, rawValue: real, points: real)

  datatype Breakdown = Breakdown(batting: real, bowling: real, fielding: real, bonus: real, penalty: real)

  datatype PlayerOutput = PlayerOutput(base: real, multiplier: real, total: real, breakdown: Breakdown, applied: seq<Applied>)

  type Stats = map<string, real>

  const ZERO_BREAKDOWN := Breakdown(0.0, 0.0, 0.0, 0.0, 0.0)

  function InCategory(b: Breakdown, c: Category): real
  {
    match c
    case Batting => b.batting
    case Bowling => b.bowling
    case Fielding => b.fielding
    case Bonus => b.bonus
    case Penalty => b.penalty
  }

  function SetCategory(b: Breakdown, c: Category, v: real): Breakdown
  {
    match c
    case Batting => b.(batting := v)
    case Bowling => b.(bowling := v)
    case Fielding => b.(fielding := v)
    case Bonus => b.(bonus := v)
    case Penalty => b.(penalty := v)
  }

  function CategorySum(b: Breakdown): real
  {
    b.batting + b.bowling + b.fielding + b.bonus + b.penalty
  }

  function Raw(event: ScoringEvent, stats: Stats): real
  {
    if event.statKey in stats then stats[event.statKey] else 0.0
  }

  /** What one event contributes; a statistic of zero never contributes. */
  function ApplyEvent(event: ScoringEvent, stats: Stats): real
  {
    var raw := Raw(event, stats);
    if raw == 0.0 then 0.0
    else if event.threshold.Some? then if raw >= event.threshold.value then event.points else 0.0
    else if event.unit.Some? && event.unit.value > 0.0 then (raw / event.unit.value).Floor as real * event.points
    else raw * event.points
  }

  predicate RoleAllowed(event: ScoringEvent, role: PlayerRole)
  {
    |event.appliesTo| == 0 || role in event.appliesTo
  }

  function Multiplier(rule: TeamRule, isCaptain: bool, isViceCaptain: bool): real
  {
    if isCaptain then rule.captainMultiplier else if isViceCaptain then rule.viceCaptainMultiplier else 1.0
  }

  // ---- The exact contributions ---------------------------------------------------------------

  /** The events that contribute to a player, in rule order. */
  function AppliedEvents(events: seq<ScoringEvent>, role: PlayerRole, stats: Stats): seq<Applied>
  {
    if events == [] then []
    else
      var before, event := AppliedEvents(events[..|events| - 1], role, stats), events[|events| - 1];
      var contribution := ApplyEvent(event, stats);
      if RoleAllowed(event, role) && contribution != 0.0
      then before + [Applied(event.code, event.category, Raw(event, stats), contribution)]
      else before
  }

  function Contributions(applied: seq<Applied>): seq<real>
  {
    if applied == [] then [] else Contributions(applied[..|applied| - 1]) + [applied[|applied| - 1].points]
  }

  function ContributionsIn(applied: seq<Applied>, c: Category): seq<real>
  {
    if applied == [] then []
    else
      var before, last := ContributionsIn(applied[..|applied| - 1], c), applied[|applied| - 1];
      if last.category == c then before + [last.points] else before
  }

  function StoredIn(applied: seq<Applied>, c: Category): real
  {
    StepSum(ContributionsIn(applied, c))
  }

  /** What the engine stores for the categories. */
  function BreakdownOf(applied: seq<Applied>): Breakdown
  {
    Breakdown(StoredIn(applied, Batting), StoredIn(applied, Bowling), StoredIn(applied, Fielding),
              StoredIn(applied, Bonus), StoredIn(applied, Penalty))
  }

  function PlayerPoints(events: seq<ScoringEvent>, rule: TeamRule, stats: Stats,
                        role: PlayerRole, isCaptain: bool, isViceCaptain: bool): PlayerOutput
  {
    var applied := AppliedEvents(events, role, stats);
    var base, m := StepSum(Contributions(applied)), Multiplier(rule, isCaptain, isViceCaptain);
    PlayerOutput(base, m, Round2(Times(base, m)), BreakdownOf(applied), applied)
  }

  ghost predicate Tallied(base: real, breakdown: Breakdown, applied: seq<Applied>)
  {
    base == StepSum(Contributions(applied)) && forall c :: InCategory(breakdown, c) == StoredIn(applied, c)
  }

  /** Adds one contribution to the running totals. */
  method AddContribution(base: real, breakdown: Breakdown, applied: seq<Applied>, a: Applied)
    returns (nextBase: real, nextBreakdown: Breakdown, nextApplied: seq<Applied>)
    requires Tallied(base, breakdown, applied)
    ensures nextApplied == applied + [a] && Tallied(nextBase, nextBreakdown, nextApplied)
  {
    TalliedGrows(base, breakdown, applied, a);
    nextBreakdown := SetCategory(breakdown, a.category, Round2(InCategory(breakdown, a.category) + a.points));
    nextBase := Round2(base + a.points);
    nextApplied := applied + [a];
  }

  /** The loop over the events of the rule. */
  method ApplyEvents(events: seq<ScoringEvent>, stats: Stats, role: PlayerRole)
    returns (base: real, breakdown: Breakdown, applied: seq<Applied>)
    ensures applied == AppliedEvents(events, role, stats)
    ensures base == StepSum(Contributions(applied)) && breakdown == BreakdownOf(applied)
  {
    breakdown, base, applied := ZERO_BREAKDOWN, 0.0, [];
    for i := 0 to |events|
      invariant applied == AppliedEvents(events[..i], role, stats)
      invariant Tallied(base, breakdown, applied)
    {
      var event := events[i];
      assert events[..i + 1][..i] == events[..i];
      if RoleAllowed(event, role) {
        var contribution := ApplyEvent(event, stats);
        if contribution != 0.0 {
          base, breakdown, applied := AddContribution(base, breakdown, applied,
            Applied(event.code, event.category, Raw(event, stats), contribution));
        }
      }
    }
    assert events[..|events|] == events;
    SameBreakdown(breakdown, BreakdownOf(applied));
  }

  method ComputePlayerPoints(events: seq<ScoringEvent>, rule: TeamRule, stats: Stats,
                             role: PlayerRole, isCaptain: bool, isViceCaptain: bool)
    returns (output: PlayerOutput)
    ensures output == PlayerPoints(events, rule, stats, role, isCaptain, isViceCaptain)
  {
    var base, breakdown, applied := ApplyEvents(events, stats, role);
    var multiplier := if isCaptain then rule.captainMultiplier
                      else if isViceCaptain then rule.viceCaptainMultiplier else 1.0;
    RoundedAlready(Contributions(applied));
    output := PlayerOutput(Round2(base), multiplier, Round2(Times(base, multiplier)), breakdown, applied);
  }

  lemma RoundedAlready(s: seq<real>)
    ensures Round2(StepSum(s)) == StepSum(s)
  {
    StepSumNear(s);
    Round2Near(StepSum(s));
  }

  lemma SetOneCategory(b: Breakdown, k: Category, v: real)
    ensures forall c :: InCategory(SetCategory(b, k, v), c) == if c == k then v else InCategory(b, c)
  {
  }

  lemma SameBreakdown(a: Breakdown, b: Breakdown)
    requires forall c :: InCategory(a, c) == InCategory(b, c)
    ensures a == b
  {
    assert InCategory(a, Batting) == InCategory(b, Batting) && InCategory(a, Bowling) == InCategory(b, Bowling)
        && InCategory(a, Fielding) == InCategory(b, Fielding) && InCategory(a, Bonus) == InCategory(b, Bonus)
        && InCategory(a, Penalty) == InCategory(b, Penalty);
  }

  lemma StepSumAppend(s: seq<real>, x: real)
    ensures StepSum(s + [x]) == Round2(StepSum(s) + x)
  {
    assert (s + [x])[..|s|] == s;
  }

  lemma OneMoreIn(before: seq<Applied>, a: Applied, c: Category)
    ensures StoredIn(before + [a], c) == if c == a.category then Round2(StoredIn(before, c) + a.points) else StoredIn(before, c)
  {
    assert (before + [a])[..|before|] == before;
    StepSumAppend(ContributionsIn(before, c), a.points);
  }

  lemma TalliedGrows(base: real, breakdown: Breakdown, applied: seq<Applied>, a: Applied)
    requires Tallied(base, breakdown, applied)
    ensures Tallied(Round2(base + a.points),
                    SetCategory(breakdown, a.category, Round2(InCategory(breakdown, a.category) + a.points)),
                    applied + [a])
  {
    var next := SetCategory(breakdown, a.category, Round2(InCategory(breakdown, a.category) + a.points));
    assert (applied + [a])[..|applied|] == applied;
    StepSumAppend(Contributions(applied), a.points);
    SetOneCategory(breakdown, a.category, Round2(InCategory(breakdown, a.category) + a.points));
    forall c: Category ensures InCategory(next, c) == StoredIn(applied + [a], c) {
      OneMoreIn(applied, a, c);
    }
  }

  // ---- Bounds and consistency of a player ----------------------------------------------------

  /** A one-shot bonus needs the threshold and a statistic other than zero. */
  lemma ThresholdPaysIff(event: ScoringEvent, stats: Stats)
    requires event.threshold.Some? && event.points != 0.0
    ensures ApplyEvent(event, stats) == event.points
       <==> Raw(event, stats) >= event.threshold.value && Raw(event, stats) != 0.0
  {
  }

  /**
   * What an event pays for a statistic, by its mode: nothing for zero, all or
   * nothing at a threshold, by the whole units reached, or by the statistic.
   */
  ghost predicate Pays(event: ScoringEvent, raw: real, paid: real)
  {
    && (raw == 0.0 ==> paid == 0.0)
    && (raw != 0.0 && event.threshold.Some? ==>
          (raw >= event.threshold.value ==> paid == event.points) && (raw < event.threshold.value ==> paid == 0.0))
    && (raw != 0.0 && event.threshold.None? && event.unit.Some? && event.unit.value > 0.0 ==>
          exists n: int :: WholeUnits(raw, event.unit.value, n) && paid == n as real * event.points)
    && (raw != 0.0 && event.threshold.None? && (event.unit.None? || event.unit.value <= 0.0) ==> paid == raw * event.points)
  }

  /** `n` units fit into `raw`, and no more. */
  predicate WholeUnits(raw: real, unit: real, n: int)
  {
    n as real * unit <= raw < (n + 1) as real * unit
  }

  lemma FloorCounts(raw: real, unit: real)
    requires unit > 0.0
    ensures WholeUnits(raw, unit, (raw / unit).Floor)
  {
    var q := raw / unit;
    var n := q.Floor;
    assert q * unit == raw;
    assert n as real <= q < n as real + 1.0;
    assert n as real * unit <= q * unit;
    assert q * unit < (n as real + 1.0) * unit;
  }

  lemma WholeUnitsAreUnique(raw: real, unit: real, m: int, n: int)
    requires unit > 0.0 && WholeUnits(raw, unit, m) && WholeUnits(raw, unit, n)
    ensures m == n
  {
    if m < n {
      UnitsGrow(m + 1, n, unit);
    } else if n < m {
      UnitsGrow(n + 1, m, unit);
    }
  }

  lemma UnitsGrow(m: int, n: int, unit: real)
    requires m <= n && unit > 0.0
    ensures m as real * unit <= n as real * unit
  {
  }

  /** Every event contributes what its mode pays, and nothing else is what its mode pays. */
  lemma ContributionIs(event: ScoringEvent, stats: Stats, paid: real)
    ensures ApplyEvent(event, stats) == paid
       <==> Pays(event, if event.statKey in stats then stats[event.statKey] else 0.0, paid)
  {
    var raw := if event.statKey in stats then stats[event.statKey] else 0.0;
    if raw != 0.0 && event.threshold.None? && event.unit.Some? && event.unit.value > 0.0 {
      var n := (raw / event.unit.value).Floor;
      FloorCounts(raw, event.unit.value);
      assert ApplyEvent(event, stats) == n as real * event.points;
      forall m: int | WholeUnits(raw, event.unit.value, m) ensures m == n {
        WholeUnitsAreUnique(raw, event.unit.value, m, n);
      }
    }
  }

  /** The event is for this role, and pays something. */
  ghost predicate Earns(event: ScoringEvent, role: PlayerRole, stats: Stats, a: Applied)
  {
    && (event.appliesTo == [] || role in event.appliesTo)
    && a.code == event.code && a.category == event.category
    && a.rawValue == (if event.statKey in stats then stats[event.statKey] else 0.0)
    && Pays(event, a.rawValue, a.points) && a.points != 0.0
  }

  /** `from` gives, in rule order, the events behind the applied ones; no other event scores. */
  ghost predicate ComesFrom(applied: seq<Applied>, events: seq<ScoringEvent>, role: PlayerRole, stats: Stats, from: seq<nat>)
  {
    && |from| == |applied|
    && (forall k :: 0 <= k < |from| ==> from[k] < |events| && Earns(events[from[k]], role, stats, applied[k]))
    && (forall h, k :: 0 <= h < k < |from| ==> from[h] < from[k])
    && (forall i, a :: 0 <= i < |events| && i !in from ==> !Earns(events[i], role, stats, a))
  }

  lemma EventEarns(applied: seq<Applied>, events: seq<ScoringEvent>, role: PlayerRole, stats: Stats, from: seq<nat>,
                   event: ScoringEvent, a: Applied)
    requires ComesFrom(applied, events, role, stats, from) && Earns(event, role, stats, a)
    ensures ComesFrom(applied + [a], events + [event], role, stats, from + [|events|])
  {
    hide Earns;
    var all, next := events + [event], from + [|events|];
    assert forall i :: i in next <==> i in from || i == |events|;
    forall i, b | 0 <= i < |all| && i !in next ensures !Earns(all[i], role, stats, b) {
      assert i < |events| && all[i] == events[i];
    }
  }

  lemma EventEarnsNothing(applied: seq<Applied>, events: seq<ScoringEvent>, role: PlayerRole, stats: Stats, from: seq<nat>,
                          event: ScoringEvent)
    requires ComesFrom(applied, events, role, stats, from) && forall a :: !Earns(event, role, stats, a)
    ensures ComesFrom(applied, events + [event], role, stats, from)
  {
    hide Earns;
    var all := events + [event];
    forall i, b | 0 <= i < |all| && i !in from ensures !Earns(all[i], role, stats, b) {
      assert i < |events| ==> all[i] == events[i];
    }
  }

  /** The applied events of a player are the events of the rule that score, in rule order. */
  lemma {:induction false} AppliedAreTheScoring(events: seq<ScoringEvent>, role: PlayerRole, stats: Stats) returns (from: seq<nat>)
    ensures ComesFrom(AppliedEvents(events, role, stats), events, role, stats, from)
  {
    hide ComesFrom, Pays;
    if events == [] {
      from := [];
      assert ComesFrom([], [], role, stats, []) by {
        NothingComesFromNothing(role, stats);
      }
    } else {
      var init, event := events[..|events| - 1], events[|events| - 1];
      assert events == init + [event];
      from := AppliedAreTheScoring(init, role, stats);
      var contribution := ApplyEvent(event, stats);
      var a := Applied(event.code, event.category, Raw(event, stats), contribution);
      ContributionIs(event, stats, contribution);
      if RoleAllowed(event, role) && contribution != 0.0 {
        EventEarns(AppliedEvents(init, role, stats), init, role, stats, from, event, a);
        from := from + [|init|];
      } else {
        forall b ensures !Earns(event, role, stats, b) {
          ContributionIs(event, stats, b.points);
        }
        EventEarnsNothing(AppliedEvents(init, role, stats), init, role, stats, from, event);
      }
    }
  }

  lemma NothingComesFromNothing(role: PlayerRole, stats: Stats)
    ensures ComesFrom([], [], role, stats, [])
  {
  }

  lemma {:induction false} ContributionCount(applied: seq<Applied>)
    ensures |Contributions(applied)| == |applied|
  {
    if applied != [] {
      ContributionCount(applied[..|applied| - 1]);
    }
  }

  function ExactSumIn(applied: seq<Applied>, c: Category): real
  {
    SumReals(ContributionsIn(applied, c))
  }

  lemma NothingToSum()
    ensures SumReals([]) == 0.0
  {
  }

  lemma {:induction false} ContributionsSplit(applied: seq<Applied>)
    ensures SumReals(Contributions(applied))
         == ExactSumIn(applied, Batting) + ExactSumIn(applied, Bowling) + ExactSumIn(applied, Fielding)
            + ExactSumIn(applied, Bonus) + ExactSumIn(applied, Penalty)
  {
    hide SumReals;
    NothingToSum();
    if applied != [] {
      var before, last := applied[..|applied| - 1], applied[|applied| - 1];
      ContributionsSplit(before);
      SumAppend(Contributions(before), last.points);
      SumAppend(ContributionsIn(before, last.category), last.points);
    }
  }

  lemma SumAppend(s: seq<real>, x: real)
    ensures SumReals(s + [x]) == SumReals(s) + x
  {
    assert (s + [x])[..|s|] == s;
  }

  /** The points before any rounding. */
  function ExactBase(output: PlayerOutput): real
  {
    SumReals(Contributions(output.applied))
  }

  function ExactIn(output: PlayerOutput, c: Category): real
  {
    ExactSumIn(output.applied, c)
  }

  /** The base points are off by at most half a cent per applied event, a category by as much per event in it. */
  lemma BaseRoundOff(applied: seq<Applied>)
    ensures Abs(StepSum(Contributions(applied)) - SumReals(Contributions(applied))) <= Allowance(|applied|, 1.0)
  {
    ContributionCount(applied);
    StepSumNear(Contributions(applied));
  }

  lemma StoredRoundOff(applied: seq<Applied>, c: Category)
    ensures Abs(StoredIn(applied, c) - ExactSumIn(applied, c)) <= Allowance(|ContributionsIn(applied, c)|, 1.0)
  {
    StepSumNear(ContributionsIn(applied, c));
  }

  lemma BreakdownHolds(applied: seq<Applied>, c: Category)
    ensures InCategory(BreakdownOf(applied), c) == StoredIn(applied, c)
  {
  }

  predicate AllOnGrid(applied: seq<Applied>)
  {
    forall i :: 0 <= i < |applied| ==> OnGrid(applied[i].points)
  }

  lemma {:induction false} CategoryOnGrid(applied: seq<Applied>, c: Category)
    requires AllOnGrid(applied)
    ensures forall i :: 0 <= i < |ContributionsIn(applied, c)| ==> OnGrid(ContributionsIn(applied, c)[i])
    ensures |Contributions(applied)| == |applied|
    ensures forall i :: 0 <= i < |applied| ==> OnGrid(Contributions(applied)[i])
  {
    if applied != [] {
      CategoryOnGrid(applied[..|applied| - 1], c);
    }
  }

  /** With contributions of two decimals nothing is rounded away and the categories add up to the base. */
  lemma BaseIsCategorySum(applied: seq<Applied>)
    requires AllOnGrid(applied)
    ensures StepSum(Contributions(applied)) == SumReals(Contributions(applied))
    ensures forall c :: StoredIn(applied, c) == ExactSumIn(applied, c)
    ensures StepSum(Contributions(applied)) == CategorySum(BreakdownOf(applied))
  {
    ContributionsSplit(applied);
    forall c: Category ensures StoredIn(applied, c) == ExactSumIn(applied, c) {
      CategoryOnGrid(applied, c);
      StepSumExact(ContributionsIn(applied, c));
    }
    CategoryOnGrid(applied, Batting);
    StepSumExact(Contributions(applied));
  }

  /** A player's total in a team is the base without a multiplier, times the multiplier, rounded. */
  lemma TotalFromPlainBase(events: seq<ScoringEvent>, rule: TeamRule, stats: Stats,
                           role: PlayerRole, isCaptain: bool, isViceCaptain: bool)
    ensures PlayerPoints(events, rule, stats, role, isCaptain, isViceCaptain).total
         == Round2(Times(PlayerPoints(events, rule, stats, role, false, false).base, Multiplier(rule, isCaptain, isViceCaptain)))
  {
  }

  /** The captain's multiplier comes first, then the vice-captain's; anybody else's total is the base. */
  lemma TotalIs(events: seq<ScoringEvent>, rule: TeamRule, stats: Stats, role: PlayerRole, isCaptain: bool, isViceCaptain: bool)
    ensures var output := PlayerPoints(events, rule, stats, role, isCaptain, isViceCaptain);
      && (isCaptain ==> output.multiplier == rule.captainMultiplier && output.total == Round2(Times(output.base, rule.captainMultiplier)))
      && (!isCaptain && isViceCaptain ==>
            output.multiplier == rule.viceCaptainMultiplier && output.total == Round2(Times(output.base, rule.viceCaptainMultiplier)))
      && (!isCaptain && !isViceCaptain ==> output.multiplier == 1.0 && output.total == output.base)
  {
    hide Round2, Times;
    var base := StepSum(Contributions(AppliedEvents(events, role, stats)));
    RoundedAlready(Contributions(AppliedEvents(events, role, stats)));
    TimesIs(base, 1.0);
  }

  // ---- Teams ---------------------------------------------------------------------------------

  datatype Pick<P> = Pick(player: P, role: PlayerRole, isCaptain: bool, isViceCaptain: bool, stats: Stats)

  datatype TeamResult = TeamResult(total: real, breakdown: Breakdown, perPlayer: seq<PlayerOutput>)

  function OutputOf<P>(events: seq<ScoringEvent>, rule: TeamRule, pick: Pick<P>): PlayerOutput
  {
    PlayerPoints(events, rule, pick.stats, pick.role, pick.isCaptain, pick.isViceCaptain)
  }

  function Outputs<P>(events: seq<ScoringEvent>, rule: TeamRule, picks: seq<Pick<P>>): seq<PlayerOutput>
  {
    seq(|picks|, i requires 0 <= i < |picks| => OutputOf(events, rule, picks[i]))
  }

  function Totals(outs: seq<PlayerOutput>): seq<real>
  {
    seq(|outs|, i requires 0 <= i < |outs| => outs[i].total)
  }

  /** A category value with the multiplier of the player applied. */
  function EffectiveIn(output: PlayerOutput, c: Category): real
  {
    Times(InCategory(output.breakdown, c), output.multiplier)
  }

  function Effective(outs: seq<PlayerOutput>, c: Category): seq<real>
  {
    seq(|outs|, i requires 0 <= i < |outs| => EffectiveIn(outs[i], c))
  }

  function TeamStoredIn(outs: seq<PlayerOutput>, c: Category): real
  {
    StepSum(Effective(outs, c))
  }

  /** The team total is the sum of the player totals; categories are rounded step by step. */
  function TeamPoints<P>(events: seq<ScoringEvent>, rule: TeamRule, picks: seq<Pick<P>>): TeamResult
  {
    var outs := Outputs(events, rule, picks);
    TeamResult(SumReals(Totals(outs)),
               Breakdown(TeamStoredIn(outs, Batting), TeamStoredIn(outs, Bowling), TeamStoredIn(outs, Fielding),
                         TeamStoredIn(outs, Bonus), TeamStoredIn(outs, Penalty)),
               outs)
  }

  /** The loop over the keys of the breakdown. */
  method AddEffective(b: Breakdown, output: PlayerOutput) returns (sum: Breakdown)
    ensures forall c :: InCategory(sum, c) == Round2(InCategory(b, c) + EffectiveIn(output, c))
  {
    sum := b;
    var keys := [Batting, Bowling, Fielding, Bonus, Penalty];
    for i := 0 to |keys|
      invariant forall k :: 0 <= k < i ==> InCategory(sum, keys[k]) == Round2(InCategory(b, keys[k]) + EffectiveIn(output, keys[k]))
      invariant forall k :: i <= k < |keys| ==> InCategory(sum, keys[k]) == InCategory(b, keys[k])
    {
      var c := keys[i];
      var v := Round2(InCategory(sum, c) + EffectiveIn(output, c));
      SetOneCategory(sum, c, v);
      sum := SetCategory(sum, c, v);
    }
    forall c ensures InCategory(sum, c) == Round2(InCategory(b, c) + EffectiveIn(output, c)) {
      var k := match c case Batting => 0 case Bowling => 1 case Fielding => 2 case Bonus => 3 case Penalty => 4;
      assert keys[k] == c;
    }
  }

  /** Adds a player output to the running team result. */
  method AddPlayer(total: real, breakdown: Breakdown, perPlayer: seq<PlayerOutput>, output: PlayerOutput)
    returns (nextTotal: real, nextBreakdown: Breakdown, nextPerPlayer: seq<PlayerOutput>)
    requires Summed(total, breakdown, perPlayer) && output.total == Round2(Times(output.base, output.multiplier))
    ensures nextPerPlayer == perPlayer + [output] && Summed(nextTotal, nextBreakdown, nextPerPlayer)
  {
    OneMorePlayer(perPlayer, output);
    nextTotal := Round2(total + output.total);
    nextBreakdown := AddEffective(breakdown, output);
    nextPerPlayer := perPlayer + [output];
  }

  ghost predicate Summed(total: real, breakdown: Breakdown, outs: seq<PlayerOutput>)
  {
    && total == SumReals(Totals(outs)) && OnGrid(total)
    && forall c :: InCategory(breakdown, c) == TeamStoredIn(outs, c)
  }

  method ComputeTeamPoints<P>(events: seq<ScoringEvent>, rule: TeamRule, players: seq<Pick<P>>) returns (result: TeamResult)
    ensures result == TeamPoints(events, rule, players)
  {
    var total, breakdown := 0.0, ZERO_BREAKDOWN;
    var perPlayer: seq<PlayerOutput> := [];
    for i := 0 to |players|
      invariant |perPlayer| == i && forall k :: 0 <= k < i ==> perPlayer[k] == OutputOf(events, rule, players[k])
      invariant Summed(total, breakdown, perPlayer)
    {
      var p := players[i];
      var output := ComputePlayerPoints(events, rule, p.stats, p.role, p.isCaptain, p.isViceCaptain);
      total, breakdown, perPlayer := AddPlayer(total, breakdown, perPlayer, output);
    }
    result := TeamResult(total, breakdown, perPlayer);
    SummedIsTeamPoints(events, rule, players, result);
  }

  lemma SummedIsTeamPoints<P>(events: seq<ScoringEvent>, rule: TeamRule, players: seq<Pick<P>>, result: TeamResult)
    requires |result.perPlayer| == |players|
    requires forall k :: 0 <= k < |players| ==> result.perPlayer[k] == OutputOf(events, rule, players[k])
    requires Summed(result.total, result.breakdown, result.perPlayer)
    ensures result == TeamPoints(events, rule, players)
  {
    assert result.perPlayer == Outputs(events, rule, players);
    SameBreakdown(result.breakdown, TeamPoints(events, rule, players).breakdown);
  }

  lemma OneMoreTotal(outs: seq<PlayerOutput>, output: PlayerOutput)
    ensures SumReals(Totals(outs + [output])) == SumReals(Totals(outs)) + output.total
  {
    assert Totals(outs + [output]) == Totals(outs) + [output.total];
    SumAppend(Totals(outs), output.total);
  }

  lemma OneMoreStored(outs: seq<PlayerOutput>, output: PlayerOutput, c: Category)
    ensures TeamStoredIn(outs + [output], c) == Round2(TeamStoredIn(outs, c) + EffectiveIn(output, c))
  {
    assert Effective(outs + [output], c) == Effective(outs, c) + [EffectiveIn(output, c)];
    StepSumAppend(Effective(outs, c), EffectiveIn(output, c));
  }

  /** Sums of rounded totals are not rounded any further. */
  lemma OneMorePlayer(outs: seq<PlayerOutput>, output: PlayerOutput)
    requires OnGrid(SumReals(Totals(outs))) && output.total == Round2(Times(output.base, output.multiplier))
    ensures SumReals(Totals(outs + [output])) == Round2(SumReals(Totals(outs)) + output.total)
    ensures OnGrid(SumReals(Totals(outs + [output])))
    ensures forall c :: TeamStoredIn(outs + [output], c) == Round2(TeamStoredIn(outs, c) + EffectiveIn(output, c))
  {
    OneMoreTotal(outs, output);
    Round2Near(Times(output.base, output.multiplier));
    OnGridAdd(SumReals(Totals(outs)), output.total);
    Round2Near(SumReals(Totals(outs)) + output.total);
    forall c: Category
      ensures TeamStoredIn(outs + [output], c) == Round2(TeamStoredIn(outs, c) + EffectiveIn(output, c))
    {
      OneMoreStored(outs, output, c);
    }
  }

  // ---- Bounds and consistency of a team ------------------------------------------------------

  /** A player total and a category value without any rounding. */
  function ExactTotalOf(output: PlayerOutput): real
  {
    Times(ExactBase(output), output.multiplier)
  }

  function ExactEffectiveIn(output: PlayerOutput, c: Category): real
  {
    Times(ExactIn(output, c), output.multiplier)
  }

  function ExactTotals(outs: seq<PlayerOutput>): seq<real>
  {
    seq(|outs|, i requires 0 <= i < |outs| => ExactTotalOf(outs[i]))
  }

  function ExactEffective(outs: seq<PlayerOutput>, c: Category): seq<real>
  {
    seq(|outs|, i requires 0 <= i < |outs| => ExactEffectiveIn(outs[i], c))
  }

  /** How many events were applied to each player, in all and in one category. */
  function EventCounts(outs: seq<PlayerOutput>): seq<nat>
  {
    seq(|outs|, i requires 0 <= i < |outs| => |outs[i].applied|)
  }

  function EventCountsIn(outs: seq<PlayerOutput>, c: Category): seq<nat>
  {
    seq(|outs|, i requires 0 <= i < |outs| => |ContributionsIn(outs[i].applied, c)|)
  }

  /** What the engine guarantees of each output it returns. */
  predicate Computed(output: PlayerOutput)
  {
    && output.base == StepSum(Contributions(output.applied))
    && output.total == Round2(Times(output.base, output.multiplier))
    && output.breakdown == BreakdownOf(output.applied)
  }

  predicate Within(rule: TeamRule, limit: real)
  {
    Abs(rule.captainMultiplier) <= limit && Abs(rule.viceCaptainMultiplier) <= limit && 1.0 <= limit
  }

  lemma EngineComputes<P>(events: seq<ScoringEvent>, rule: TeamRule, pick: Pick<P>, limit: real)
    requires Within(rule, limit)
    ensures Computed(OutputOf(events, rule, pick)) && Abs(OutputOf(events, rule, pick).multiplier) <= limit
  {
  }

  /** The base of a player is off by half a cent per applied event, a category by as much per event in it. */
  lemma PlayerRoundOff(output: PlayerOutput, c: Category)
    requires Computed(output)
    ensures Abs(output.base - ExactBase(output)) <= Allowance(|output.applied|, 1.0)
    ensures Abs(InCategory(output.breakdown, c) - ExactIn(output, c)) <= Allowance(|ContributionsIn(output.applied, c)|, 1.0)
  {
    BaseRoundOff(output.applied);
    StoredRoundOff(output.applied, c);
    BreakdownHolds(output.applied, c);
  }

  /** With contributions of two decimals the base is exact and the sum of the five categories. */
  lemma PlayerBaseIsCategorySum(output: PlayerOutput)
    requires Computed(output) && AllOnGrid(output.applied)
    ensures output.base == CategorySum(output.breakdown) && output.base == ExactBase(output)
  {
    BaseIsCategorySum(output.applied);
  }

  lemma TotalRoundOff(output: PlayerOutput, limit: real)
    requires Computed(output) && Abs(output.multiplier) <= limit
    ensures Abs(output.total - ExactTotalOf(output)) <= 0.005 + Allowance(|output.applied|, limit)
  {
    var n := |output.applied|;
    BaseRoundOff(output.applied);
    TimesError(output.base, ExactBase(output), output.multiplier, limit, Allowance(n, 1.0));
    AllowanceScales(n, limit);
    Round2Near(Times(output.base, output.multiplier));
  }

  lemma EffectiveRoundOff(output: PlayerOutput, limit: real, c: Category)
    requires Computed(output) && Abs(output.multiplier) <= limit
    ensures Abs(EffectiveIn(output, c) - ExactEffectiveIn(output, c))
         <= Allowance(|ContributionsIn(output.applied, c)|, limit)
  {
    var n := |ContributionsIn(output.applied, c)|;
    StoredRoundOff(output.applied, c);
    BreakdownHolds(output.applied, c);
    TimesError(InCategory(output.breakdown, c), ExactIn(output, c), output.multiplier, limit, Allowance(n, 1.0));
    AllowanceScales(n, limit);
  }

  predicate NearTotal(output: PlayerOutput, limit: real)
  {
    Abs(output.total - ExactTotalOf(output)) <= 0.005 + Allowance(|output.applied|, limit)
  }

  predicate NearEffective(output: PlayerOutput, limit: real, c: Category)
  {
    Abs(EffectiveIn(output, c) - ExactEffectiveIn(output, c)) <= Allowance(|ContributionsIn(output.applied, c)|, limit)
  }

  ghost predicate AllNear(outs: seq<PlayerOutput>, limit: real, c: Category)
  {
    forall o :: o in outs ==> NearTotal(o, limit) && NearEffective(o, limit, c)
  }

  lemma PickRoundOff<P>(events: seq<ScoringEvent>, rule: TeamRule, pick: Pick<P>, limit: real, c: Category)
    requires Within(rule, limit)
    ensures NearTotal(OutputOf(events, rule, pick), limit) && NearEffective(OutputOf(events, rule, pick), limit, c)
  {
    EngineComputes(events, rule, pick, limit);
    TotalRoundOff(OutputOf(events, rule, pick), limit);
    EffectiveRoundOff(OutputOf(events, rule, pick), limit, c);
  }

  lemma TotalsRoundOff(outs: seq<PlayerOutput>, limit: real, c: Category)
    requires AllNear(outs, limit, c)
    ensures Abs(SumReals(Totals(outs)) - SumReals(ExactTotals(outs))) <= RoundOffBound(|outs|, SumNats(EventCounts(outs)), limit)
  {
    forall i | 0 <= i < |outs|
      ensures Abs(Totals(outs)[i] - ExactTotals(outs)[i]) <= 0.005 + Allowance(EventCounts(outs)[i], limit)
    {
      assert outs[i] in outs;
    }
    SumNear(Totals(outs), ExactTotals(outs), EventCounts(outs), limit);
  }

  lemma CategoriesRoundOff(outs: seq<PlayerOutput>, limit: real, c: Category)
    requires AllNear(outs, limit, c)
    ensures Abs(TeamStoredIn(outs, c) - SumReals(ExactEffective(outs, c)))
         <= RoundOffBound(|outs|, SumNats(EventCountsIn(outs, c)), limit)
  {
    forall i | 0 <= i < |outs|
      ensures Abs(Effective(outs, c)[i] - ExactEffective(outs, c)[i]) <= Allowance(EventCountsIn(outs, c)[i], limit)
    {
      assert outs[i] in outs;
    }
    RoundedSumNear(Effective(outs, c), ExactEffective(outs, c), EventCountsIn(outs, c), limit);
  }

  /** Half a cent per player and, for every applied event, half a cent times the largest multiplier. */
  function RoundOffBound(players: nat, events: nat, limit: real): real
  {
    Allowance(players, 1.0) + Allowance(events, limit)
  }

  lemma RoundOffBoundIsLinear(players: nat, events: nat, limit: real)
    ensures RoundOffBound(players, events, limit) == 0.005 * players as real + 0.005 * limit * events as real
  {
    AllowanceIs(players, 1.0);
    AllowanceIs(events, limit);
  }

  lemma PicksRoundOff<P>(events: seq<ScoringEvent>, rule: TeamRule, picks: seq<Pick<P>>, limit: real, c: Category)
    requires Within(rule, limit)
    ensures AllNear(Outputs(events, rule, picks), limit, c)
  {
    forall i | 0 <= i < |picks|
      ensures NearTotal(Outputs(events, rule, picks)[i], limit) && NearEffective(Outputs(events, rule, picks)[i], limit, c)
    {
      PickRoundOff(events, rule, picks[i], limit, c);
    }
  }

  /** Totals and categories are those of the player outputs. */
  ghost predicate Summarises(result: TeamResult)
  {
    && result.total == SumReals(Totals(result.perPlayer))
    && forall c :: InCategory(result.breakdown, c) == TeamStoredIn(result.perPlayer, c)
  }

  lemma TeamPointsSummarise<P>(events: seq<ScoringEvent>, rule: TeamRule, picks: seq<Pick<P>>)
    ensures Summarises(TeamPoints(events, rule, picks))
    ensures TeamPoints(events, rule, picks).perPlayer == Outputs(events, rule, picks)
  {
  }

  lemma ResultRoundOff(result: TeamResult, limit: real, c: Category)
    requires Summarises(result) && AllNear(result.perPlayer, limit, c)
    ensures var outs := result.perPlayer;
            && Abs(result.total - SumReals(ExactTotals(outs))) <= RoundOffBound(|outs|, SumNats(EventCounts(outs)), limit)
            && Abs(InCategory(result.breakdown, c) - SumReals(ExactEffective(outs, c)))
               <= RoundOffBound(|outs|, SumNats(EventCountsIn(outs, c)), limit)
  {
    TotalsRoundOff(result.perPlayer, limit, c);
    CategoriesRoundOff(result.perPlayer, limit, c);
  }

  /**
   * Team total and every category stay within a bound of their exact values that
   * is linear in the players and the applied events.
   */
  lemma TeamRoundOff<P>(events: seq<ScoringEvent>, rule: TeamRule, picks: seq<Pick<P>>, result: TeamResult,
                        limit: real, c: Category)
    requires Within(rule, limit) && result == TeamPoints(events, rule, picks)
    ensures var outs := result.perPlayer;
            && |outs| == |picks|
            && Abs(result.total - SumReals(ExactTotals(outs))) <= RoundOffBound(|outs|, SumNats(EventCounts(outs)), limit)
            && Abs(InCategory(result.breakdown, c) - SumReals(ExactEffective(outs, c)))
               <= RoundOffBound(|outs|, SumNats(EventCountsIn(outs, c)), limit)
  {
    TeamPointsSummarise(events, rule, picks);
    PicksRoundOff(events, rule, picks, limit, c);
    ResultRoundOff(result, limit, c);
  }

  /** Contributions, and category values after the multiplier, have two decimals. */
  ghost predicate ExactOutput(output: PlayerOutput)
  {
    AllOnGrid(output.applied) && forall c :: OnGrid(EffectiveIn(output, c))
  }

  function EffectiveSum(output: PlayerOutput): real
  {
    EffectiveIn(output, Batting) + EffectiveIn(output, Bowling) + EffectiveIn(output, Fielding)
    + EffectiveIn(output, Bonus) + EffectiveIn(output, Penalty)
  }

  lemma EffectiveSumIsTimes(output: PlayerOutput)
    ensures EffectiveSum(output) == Times(CategorySum(output.breakdown), output.multiplier)
  {
    var b, m := output.breakdown, output.multiplier;
    TimesDistributes(b.batting, b.bowling, m);
    TimesDistributes(b.batting + b.bowling, b.fielding, m);
    TimesDistributes(b.batting + b.bowling + b.fielding, b.bonus, m);
    TimesDistributes(b.batting + b.bowling + b.fielding + b.bonus, b.penalty, m);
  }

  lemma EffectiveSumOnGrid(output: PlayerOutput)
    requires forall c :: OnGrid(EffectiveIn(output, c))
    ensures OnGrid(EffectiveSum(output))
  {
    OnGridAdd(EffectiveIn(output, Batting), EffectiveIn(output, Bowling));
    OnGridAdd(EffectiveIn(output, Batting) + EffectiveIn(output, Bowling), EffectiveIn(output, Fielding));
    OnGridAdd(EffectiveIn(output, Bonus), EffectiveIn(output, Penalty));
    OnGridAdd(EffectiveIn(output, Batting) + EffectiveIn(output, Bowling) + EffectiveIn(output, Fielding),
              EffectiveIn(output, Bonus) + EffectiveIn(output, Penalty));
  }

  lemma ExactOutputTotal(output: PlayerOutput)
    requires Computed(output) && ExactOutput(output)
    ensures output.total == EffectiveSum(output)
  {
    BaseIsCategorySum(output.applied);
    EffectiveSumIsTimes(output);
    EffectiveSumOnGrid(output);
    Round2Near(Times(output.base, output.multiplier));
  }

  function StoredSum(outs: seq<PlayerOutput>): real
  {
    TeamStoredIn(outs, Batting) + TeamStoredIn(outs, Bowling) + TeamStoredIn(outs, Fielding)
    + TeamStoredIn(outs, Bonus) + TeamStoredIn(outs, Penalty)
  }

  lemma OneMoreExactOutput(outs: seq<PlayerOutput>, last: PlayerOutput)
    requires (forall c :: OnGrid(TeamStoredIn(outs, c))) && forall c :: OnGrid(EffectiveIn(last, c))
    ensures forall c :: TeamStoredIn(outs + [last], c) == TeamStoredIn(outs, c) + EffectiveIn(last, c)
    ensures forall c :: OnGrid(TeamStoredIn(outs + [last], c))
  {
    forall c: Category
      ensures TeamStoredIn(outs + [last], c) == TeamStoredIn(outs, c) + EffectiveIn(last, c)
      ensures OnGrid(TeamStoredIn(outs + [last], c))
    {
      OneMoreStored(outs, last, c);
      OnGridAdd(TeamStoredIn(outs, c), EffectiveIn(last, c));
      Round2Near(TeamStoredIn(outs, c) + EffectiveIn(last, c));
    }
  }

  lemma {:induction false} TotalsAreCategories(outs: seq<PlayerOutput>)
    requires forall i :: 0 <= i < |outs| ==> Computed(outs[i]) && ExactOutput(outs[i])
    ensures SumReals(Totals(outs)) == StoredSum(outs)
    ensures forall c :: OnGrid(TeamStoredIn(outs, c))
  {
    if outs != [] {
      var init, last := outs[..|outs| - 1], outs[|outs| - 1];
      assert outs == init + [last];
      TotalsAreCategories(init);
      OneMoreTotal(init, last);
      ExactOutputTotal(last);
      OneMoreExactOutput(init, last);
    }
  }

  /** With values of two decimals throughout, the team total is the sum of the team's categories. */
  lemma TeamTotalIsCategorySum<P>(events: seq<ScoringEvent>, rule: TeamRule, picks: seq<Pick<P>>)
    requires forall i :: 0 <= i < |picks| ==> ExactOutput(OutputOf(events, rule, picks[i]))
    ensures TeamPoints(events, rule, picks).total == CategorySum(TeamPoints(events, rule, picks).breakdown)
  {
    var outs := Outputs(events, rule, picks);
    forall i | 0 <= i < |outs| ensures Computed(outs[i]) && ExactOutput(outs[i]) {
      assert ExactOutput(OutputOf(events, rule, picks[i]));
    }
    TotalsAreCategories(outs);
  }
}
