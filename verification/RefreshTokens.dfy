/** Sessions and the rotation of their refresh tokens, one service call at a time. */
module RefreshTokens {
  import opened Options

  /** Object ids of sessions and token rows come from one space. */
  type Id = nat
  type UserId = nat

  /** Times in milliseconds. */
  datatype Token = Token(session: Id, user: UserId, expiresAt: int, revoked: bool, rotatedTo: Option<Id>, reused: bool)

  datatype Session = Session(user: UserId, active: bool, issuedAt: int, lastUsedAt: int)

  datatype State = State(sessions: map<Id, Session>, tokens: map<Id, Token>)

  datatype Outcome = Rotated | Reuse | Invalid

  datatype Step =
    | OpenSession(session: Id, token: Id, user: UserId, now: int, ttl: nat)
    | Refresh(presented: Id, next: Id, now: int, ttl: nat)
    | Logout(session: Id)
    | LogoutAll(user: UserId, keep: Option<Id>)
    | RevokeMine(session: Id)

  predicate Unused(s: State, id: Id)
  {
    id !in s.sessions && id !in s.tokens
  }

  /** What presenting a token leads to; the status of its session is not asked. */
  function Presented(s: State, id: Id, now: int): Outcome
  {
    if id !in s.tokens then Invalid
    else if s.tokens[id].revoked || s.tokens[id].rotatedTo.Some? then Reuse
    else if s.tokens[id].expiresAt < now then Invalid
    else Rotated
  }

  predicate Enabled(s: State, step: Step)
  {
    match step
    case OpenSession(session, token, user, now, ttl) => Unused(s, session) && Unused(s, token) && session != token
    case Refresh(presented, next, now, ttl) => Unused(s, next)
    case Logout(session) => true
    case LogoutAll(user, keep) => true
    case RevokeMine(session) => session in s.sessions
  }

  function Revoked(sessions: map<Id, Session>, id: Id): map<Id, Session>
  {
    if id in sessions then sessions[id := sessions[id].(active := false)] else sessions
  }

  function RevokedAll(sessions: map<Id, Session>, user: UserId, keep: Option<Id>): map<Id, Session>
  {
    map id | id in sessions ::
      if sessions[id].user == user && keep != Some(id) then sessions[id].(active := false) else sessions[id]
  }

  function RevokedTokens(tokens: map<Id, Token>, session: Id): map<Id, Token>
  {
    map id | id in tokens :: if tokens[id].session == session then tokens[id].(revoked := true) else tokens[id]
  }

  /** The new token joins the session of the presented one, which is revoked and points to it. */
  function Rotate(tokens: map<Id, Token>, presented: Id, next: Id, now: int, ttl: nat): map<Id, Token>
    requires presented in tokens
  {
    var row := tokens[presented];
    tokens[next := Token(row.session, row.user, now + ttl, false, None, false)]
          [presented := row.(revoked := true, rotatedTo := Some(next))]
  }

  function Apply(s: State, step: Step): State
    requires Enabled(s, step)
  {
    match step
    case OpenSession(session, token, user, now, ttl) =>
      State(s.sessions[session := Session(user, true, now, now)],
            s.tokens[token := Token(session, user, now + ttl, false, None, false)])
    case Refresh(presented, next, now, ttl) =>
      (match Presented(s, presented, now)
       case Invalid => s
       case Reuse =>
         State(Revoked(s.sessions, s.tokens[presented].session),
               s.tokens[presented := s.tokens[presented].(revoked := true, reused := true)])
       case Rotated => s.(tokens := Rotate(s.tokens, presented, next, now, ttl)))
    case Logout(session) => s.(sessions := Revoked(s.sessions, session))
    case LogoutAll(user, keep) => s.(sessions := RevokedAll(s.sessions, user, keep))
    case RevokeMine(session) => State(Revoked(s.sessions, session), RevokedTokens(s.tokens, session))
  }

  predicate Runs(s: State, steps: seq<Step>)
    decreases |steps|
  {
    steps == [] || (Enabled(s, steps[0]) && Runs(Apply(s, steps[0]), steps[1..]))
  }

  function After(s: State, steps: seq<Step>): State
    requires Runs(s, steps)
    decreases |steps|
  {
    if steps == [] then s else After(Apply(s, steps[0]), steps[1..])
  }

  const EMPTY := State(map[], map[])

  // ---- The rotation chain --------------------------------------------------------------------

  predicate DistinctIds(chain: seq<Id>)
  {
    forall i, j :: 0 <= i < j < |chain| ==> chain[i] != chain[j]
  }

  predicate Covers(s: State, session: Id, chain: seq<Id>)
  {
    && (forall id :: id in chain ==> id in s.tokens && s.tokens[id].session == session)
    && (forall id :: id in s.tokens && s.tokens[id].session == session ==> id in chain)
  }

  predicate Link(s: State, chain: seq<Id>, i: nat)
    requires i < |chain|
  {
    && chain[i] in s.tokens
    && (if i + 1 < |chain| then s.tokens[chain[i]].revoked && s.tokens[chain[i]].rotatedTo == Some(chain[i + 1])
        else s.tokens[chain[i]].rotatedTo == None)
  }

  /** All rows of the session in rotation order: each one revoked and pointing to the next, the last to none. */
  predicate IsChain(s: State, session: Id, chain: seq<Id>)
  {
    chain != [] && DistinctIds(chain) && Covers(s, session, chain) && forall i :: 0 <= i < |chain| ==> Link(s, chain, i)
  }

  /** Rows belong to sessions, and every session has a chain. */
  ghost predicate Chained(s: State)
  {
    && (forall id :: id in s.tokens ==> s.tokens[id].session in s.sessions)
    && (forall session :: session in s.sessions ==> HasChain(s, session))
  }

  ghost predicate HasChain(s: State, session: Id)
  {
    exists chain :: IsChain(s, session, chain)
  }

  lemma RotateExtendsChain(s: State, step: Step, session: Id, chain: seq<Id>)
    requires Enabled(s, step) && step.Refresh? && Presented(s, step.presented, step.now) == Rotated
    requires s.tokens[step.presented].session == session && IsChain(s, session, chain)
    ensures IsChain(Apply(s, step), session, chain + [step.next])
  {
    var t, next := Apply(s, step), chain + [step.next];
    var i :| 0 <= i < |chain| && chain[i] == step.presented;
    assert Link(s, chain, i);
    assert i == |chain| - 1;
    forall j | 0 <= j < |next| ensures Link(t, next, j) {
      if j < |chain| - 1 {
        assert Link(s, chain, j) && chain[j] != step.presented;
      }
    }
    assert forall id :: id in next <==> id in chain || id == step.next;
  }

  lemma OtherStepsKeepChain(s: State, step: Step, session: Id, chain: seq<Id>)
    requires Enabled(s, step) && IsChain(s, session, chain) && session in s.sessions
    requires !(step.Refresh? && Presented(s, step.presented, step.now) == Rotated && s.tokens[step.presented].session == session)
    requires forall id :: id in s.tokens ==> s.tokens[id].session in s.sessions
    ensures IsChain(Apply(s, step), session, chain)
  {
    var t := Apply(s, step);
    forall j | 0 <= j < |chain| ensures Link(t, chain, j) {
      assert Link(s, chain, j);
    }
  }

  lemma NewSessionHasChain(s: State, step: Step)
    requires Enabled(s, step) && step.OpenSession?
    requires forall id :: id in s.tokens ==> s.tokens[id].session in s.sessions
    ensures IsChain(Apply(s, step), step.session, [step.token])
  {
  }

  lemma StepKeepsChains(s: State, step: Step)
    requires Enabled(s, step) && Chained(s)
    ensures Chained(Apply(s, step))
  {
    var t := Apply(s, step);
    forall session | session in t.sessions ensures HasChain(t, session) {
      if session in s.sessions {
        assert HasChain(s, session);
        var chain :| IsChain(s, session, chain);
        if step.Refresh? && Presented(s, step.presented, step.now) == Rotated && s.tokens[step.presented].session == session {
          RotateExtendsChain(s, step, session, chain);
        } else {
          OtherStepsKeepChain(s, step, session, chain);
        }
      } else {
        NewSessionHasChain(s, step);
      }
    }
  }

  lemma {:induction false} RunKeepsChains(s: State, steps: seq<Step>)
    requires Chained(s) && Runs(s, steps)
    ensures Chained(After(s, steps))
    decreases |steps|
  {
    if steps != [] {
      StepKeepsChains(s, steps[0]);
      RunKeepsChains(Apply(s, steps[0]), steps[1..]);
    }
  }

  /** Of all rows of a session only the tip of its chain can be unrevoked. */
  lemma OnlyTheTipIsLive(s: State, session: Id, chain: seq<Id>, id: Id)
    requires IsChain(s, session, chain) && id in s.tokens && s.tokens[id].session == session
    ensures s.tokens[id].rotatedTo.None? <==> id == chain[|chain| - 1]
    ensures !s.tokens[id].revoked ==> id == chain[|chain| - 1]
  {
    var i :| 0 <= i < |chain| && chain[i] == id;
    assert Link(s, chain, i);
    assert Link(s, chain, |chain| - 1);
  }

  /** In every run each session's rows form one chain, and at most one of them, its tip, is unrevoked. */
  lemma TokensFormOneChain(steps: seq<Step>, session: Id) returns (chain: seq<Id>)
    requires Runs(EMPTY, steps) && session in After(EMPTY, steps).sessions
    ensures IsChain(After(EMPTY, steps), session, chain)
    ensures var s := After(EMPTY, steps);
            forall id :: id in s.tokens && s.tokens[id].session == session && !s.tokens[id].revoked ==> id == chain[|chain| - 1]
  {
    var s := After(EMPTY, steps);
    RunKeepsChains(EMPTY, steps);
    assert HasChain(s, session);
    chain :| IsChain(s, session, chain);
    forall id | id in s.tokens && s.tokens[id].session == session && !s.tokens[id].revoked ensures id == chain[|chain| - 1] {
      OnlyTheTipIsLive(s, session, chain, id);
    }
  }

  // ---- What stays revoked --------------------------------------------------------------------

  /** Rows stay, keep their session, and stay revoked and rotated; sessions stay and stay revoked. */
  predicate Advances(s: State, t: State)
  {
    && (forall id :: id in s.tokens ==>
          && id in t.tokens && t.tokens[id].session == s.tokens[id].session
          && (s.tokens[id].revoked ==> t.tokens[id].revoked)
          && (s.tokens[id].rotatedTo.Some? ==> t.tokens[id].rotatedTo == s.tokens[id].rotatedTo))
    && (forall x :: x in s.sessions ==>
          && x in t.sessions && (!s.sessions[x].active ==> !t.sessions[x].active)
          && t.sessions[x].lastUsedAt == s.sessions[x].lastUsedAt)
  }

  lemma {:induction false} RunAdvances(s: State, steps: seq<Step>)
    requires Runs(s, steps)
    ensures Advances(s, After(s, steps))
    decreases |steps|
  {
    if steps != [] {
      assert Advances(s, Apply(s, steps[0]));
      RunAdvances(Apply(s, steps[0]), steps[1..]);
    }
  }

  /** Presenting a row that was revoked or rotated, at any later time, is reuse and leaves its session revoked for good. */
  lemma ReuseIsDetected(s: State, before: seq<Step>, step: Step, later: seq<Step>)
    requires step.Refresh? && step.presented in s.tokens
    requires s.tokens[step.presented].revoked || s.tokens[step.presented].rotatedTo.Some?
    requires s.tokens[step.presented].session in s.sessions
    requires Runs(s, before) && Enabled(After(s, before), step) && Runs(Apply(After(s, before), step), later)
    ensures var session, t := s.tokens[step.presented].session, After(s, before);
            var u := After(Apply(t, step), later);
            && Presented(t, step.presented, step.now) == Reuse
            && session in u.sessions && !u.sessions[session].active
            && step.presented in u.tokens && u.tokens[step.presented].revoked
  {
    RunAdvances(s, before);
    RunAdvances(Apply(After(s, before), step), later);
  }

  /** How often a row is exchanged for a new one. */
  function Rotations(s: State, steps: seq<Step>, id: Id): nat
    requires Runs(s, steps)
    decreases |steps|
  {
    if steps == [] then 0
    else
      (if steps[0].Refresh? && steps[0].presented == id && Presented(s, id, steps[0].now) == Rotated then 1 else 0)
      + Rotations(Apply(s, steps[0]), steps[1..], id)
  }

  lemma {:induction false} RotatedOnce(s: State, steps: seq<Step>, id: Id)
    requires Runs(s, steps)
    ensures Rotations(s, steps, id) <= 1
    ensures id in s.tokens && (s.tokens[id].revoked || s.tokens[id].rotatedTo.Some?) ==> Rotations(s, steps, id) == 0
    decreases |steps|
  {
    if steps != [] {
      RotatedOnce(Apply(s, steps[0]), steps[1..], id);
    }
  }

  /** A session is touched under the id of the new token row, so its time of last use stays the time it was opened. */
  lemma {:induction false} LastUseIsNotRecorded(s: State, steps: seq<Step>)
    requires Runs(s, steps) && forall x :: x in s.sessions ==> s.sessions[x].lastUsedAt == s.sessions[x].issuedAt
    ensures forall x :: x in After(s, steps).sessions ==> After(s, steps).sessions[x].lastUsedAt == After(s, steps).sessions[x].issuedAt
    decreases |steps|
  {
    if steps != [] {
      LastUseIsNotRecorded(Apply(s, steps[0]), steps[1..]);
    }
  }

  /** A session can be refreshed exactly while the tip of its chain is unrevoked and unexpired, revoked session or not. */
  lemma RefreshableIff(s: State, session: Id, chain: seq<Id>, now: int)
    requires IsChain(s, session, chain)
    ensures var tip := s.tokens[chain[|chain| - 1]];
            (exists id :: id in s.tokens && s.tokens[id].session == session && Presented(s, id, now) == Rotated)
            <==> !tip.revoked && tip.expiresAt >= now
  {
    var last := chain[|chain| - 1];
    assert Link(s, chain, |chain| - 1) && last in chain;
    if !s.tokens[last].revoked && s.tokens[last].expiresAt >= now {
      assert Presented(s, last, now) == Rotated;
    }
    forall id | id in s.tokens && s.tokens[id].session == session && Presented(s, id, now) == Rotated ensures id == last {
      OnlyTheTipIsLive(s, session, chain, id);
    }
  }

  /** Detecting reuse of an earlier row leaves the tip as it was; revoking the device revokes it. */
  lemma TipAfterRevocation(s: State, session: Id, chain: seq<Id>, step: Step)
    requires IsChain(s, session, chain) && Enabled(s, step)
    ensures var last := chain[|chain| - 1];
            && (step.Refresh? && step.presented != last && Presented(s, step.presented, step.now) == Reuse ==>
                  last in Apply(s, step).tokens && Apply(s, step).tokens[last] == s.tokens[last])
            && (step == Logout(session) ==>
                  last in Apply(s, step).tokens && Apply(s, step).tokens[last] == s.tokens[last])
            && (step == RevokeMine(session) ==>
                  forall id, now :: id in chain ==> Presented(Apply(s, step), id, now) == Reuse)
  {
    assert Link(s, chain, |chain| - 1) && chain[|chain| - 1] in chain;
  }

  lemma FirstStep(s: State, step: Step, rest: seq<Step>)
    requires Enabled(s, step) && Runs(Apply(s, step), rest)
    ensures Runs(s, [step] + rest) && After(s, [step] + rest) == After(Apply(s, step), rest)
  {
    assert ([step] + rest)[1..] == rest;
  }

  /** A login at time 0, a refresh at 10 and one at 20 with the token that was already exchanged. */
  ghost const LOGIN: Step := OpenSession(1, 2, 7, 0, 100)
  ghost const EXCHANGE: Step := Refresh(2, 3, 10, 100)
  ghost const REPLAY: Step := Refresh(2, 4, 20, 100)

  ghost const REPLAYED: State :=
    State(map[1 := Session(7, false, 0, 0)],
          map[2 := Token(1, 7, 100, true, Some(3), true), 3 := Token(1, 7, 110, false, None, false)])

  /** The replay is detected and revokes the session; its newest token is exchanged all the same. */
  lemma RevokedSessionIsRefreshed()
    ensures var steps := [LOGIN] + ([EXCHANGE] + ([REPLAY] + [])); Runs(EMPTY, steps) && After(EMPTY, steps) == REPLAYED
    ensures !REPLAYED.sessions[1].active && Presented(REPLAYED, 3, 30) == Rotated
    ensures Enabled(REPLAYED, Refresh(3, 5, 30, 100)) && Presented(Apply(REPLAYED, Refresh(3, 5, 30, 100)), 5, 40) == Rotated
  {
    var s1 := State(map[1 := Session(7, true, 0, 0)], map[2 := Token(1, 7, 100, false, None, false)]);
    var s2 := State(s1.sessions, map[2 := Token(1, 7, 100, true, Some(3), false), 3 := Token(1, 7, 110, false, None, false)]);
    assert Apply(EMPTY, LOGIN) == s1 && Apply(s1, EXCHANGE) == s2 && Apply(s2, REPLAY) == REPLAYED;
    FirstStep(s2, REPLAY, []);
    FirstStep(s1, EXCHANGE, [REPLAY] + []);
    FirstStep(EMPTY, LOGIN, [EXCHANGE] + ([REPLAY] + []));
  }

  // ---- The services --------------------------------------------------------------------------

  class AuthStore {
    var sessions: map<Id, Session>
    var tokens: map<Id, Token>

    constructor ()
      ensures Valid() && Contents() == EMPTY
    {
      sessions, tokens := map[], map[];
    }

    function Contents(): State
      reads this
    {
      State(sessions, tokens)
    }

    ghost predicate Valid()
      reads this
    {
      Chained(Contents())
    }

    // ---- Repositories ------------------------------------------------------------------------

    method CreateToken(id: Id, row: Token)
      modifies this`tokens
      ensures tokens == old(tokens)[id := row]
    {
      tokens := tokens[id := row];
    }

    method MarkRotated(id: Id, rotatedTo: Id)
      modifies this`tokens
      ensures tokens == if id in old(tokens) then old(tokens)[id := old(tokens)[id].(revoked := true, rotatedTo := Some(rotatedTo))]
                        else old(tokens)
    {
      if id in tokens {
        tokens := tokens[id := tokens[id].(revoked := true, rotatedTo := Some(rotatedTo))];
      }
    }

    method MarkReuse(id: Id)
      modifies this`tokens
      ensures tokens == if id in old(tokens) then old(tokens)[id := old(tokens)[id].(revoked := true, reused := true)]
                        else old(tokens)
    {
      if id in tokens {
        tokens := tokens[id := tokens[id].(revoked := true, reused := true)];
      }
    }

    method RevokeForSession(session: Id)
      modifies this`tokens
      ensures tokens == RevokedTokens(old(tokens), session)
    {
      var todo := tokens.Keys;
      while todo != {}
        invariant todo <= old(tokens).Keys == tokens.Keys
        invariant forall id :: id in tokens ==>
          tokens[id] == if id !in todo && old(tokens)[id].session == session then old(tokens)[id].(revoked := true) else old(tokens)[id]
        decreases |todo|
      {
        var id :| id in todo;
        if tokens[id].session == session && !tokens[id].revoked {
          tokens := tokens[id := tokens[id].(revoked := true)];
        }
        todo := todo - {id};
      }
    }

    method Revoke(session: Id)
      modifies this`sessions
      ensures sessions == Revoked(old(sessions), session)
    {
      if session in sessions {
        sessions := sessions[session := sessions[session].(active := false)];
      }
    }

    method Touch(session: Id, now: int)
      modifies this`sessions
      ensures sessions == if session in old(sessions) then old(sessions)[session := old(sessions)[session].(lastUsedAt := now)]
                          else old(sessions)
    {
      if session in sessions {
        sessions := sessions[session := sessions[session].(lastUsedAt := now)];
      }
    }

    // ---- Services ----------------------------------------------------------------------------

    /** Stores a new refresh token; `tokenId` is the id the store gives it. */
    method IssuePair(tokenId: Id, user: UserId, session: Id, now: int, ttl: nat)
      modifies this`tokens
      ensures tokens == old(tokens)[tokenId := Token(session, user, now + ttl, false, None, false)]
    {
      CreateToken(tokenId, Token(session, user, now + ttl, false, None, false));
    }

    method RotateToken(presented: Id, tokenId: Id, now: int, ttl: nat) returns (outcome: Outcome, session: Id)
      requires Unused(Contents(), tokenId)
      modifies this`tokens
      ensures outcome == Presented(old(Contents()), presented, now)
      ensures outcome == Invalid ==> tokens == old(tokens)
      ensures outcome == Reuse ==>
                && presented in old(tokens) && session == old(tokens)[presented].session
                && tokens == old(tokens)[presented := old(tokens)[presented].(revoked := true, reused := true)]
      ensures outcome == Rotated ==>
                presented in old(tokens) && tokens == Rotate(old(tokens), presented, tokenId, now, ttl)
    {
      session := 0;
      if presented !in tokens {
        return Invalid, session;
      }
      var row := tokens[presented];
      session := row.session;
      if row.revoked || row.rotatedTo.Some? {
        MarkReuse(presented);
        return Reuse, session;
      }
      if row.expiresAt < now {
        return Invalid, session;
      }
      IssuePair(tokenId, row.user, row.session, now, ttl);
      MarkRotated(presented, tokenId);
      outcome := Rotated;
    }

    /** Exchanges a refresh token; a replayed one revokes its session. */
    method RefreshSession(presented: Id, tokenId: Id, now: int, ttl: nat) returns (outcome: Outcome)
      requires Valid() && Unused(Contents(), tokenId)
      modifies this
      ensures Valid() && outcome == Presented(old(Contents()), presented, now)
      ensures presented in old(tokens) ==>
                var row := old(tokens)[presented];
                && (outcome == Reuse <==> row.revoked || row.rotatedTo.Some?)
                && (outcome == Rotated <==> !row.revoked && row.rotatedTo.None? && row.expiresAt >= now)
      ensures presented !in old(tokens) ==> outcome == Invalid
      ensures outcome == Invalid ==> Contents() == old(Contents())
      ensures outcome == Reuse ==>
                && tokens == old(tokens)[presented := old(tokens)[presented].(revoked := true, reused := true)]
                && old(tokens)[presented].session in old(sessions)
                && sessions == old(sessions)[old(tokens)[presented].session :=
                                               old(sessions)[old(tokens)[presented].session].(active := false)]
      ensures outcome == Rotated ==>
                var row := old(tokens)[presented];
                && sessions == old(sessions) && tokens.Keys == old(tokens).Keys + {tokenId}
                && tokens[tokenId] == Token(row.session, row.user, now + ttl, false, None, false)
                && tokens[presented] == row.(revoked := true, rotatedTo := Some(tokenId))
                && forall id :: id in old(tokens) && id != presented ==> tokens[id] == old(tokens)[id]
      ensures Contents() == Apply(old(Contents()), Refresh(presented, tokenId, now, ttl))
    {
      assert presented in tokens ==> tokens[presented].session in sessions;
      hide Chained;
      StepKeepsChains(Contents(), Refresh(presented, tokenId, now, ttl));
      var session;
      outcome, session := RotateToken(presented, tokenId, now, ttl);
      if outcome == Reuse {
        Revoke(session);
      } else if outcome == Rotated {
        Touch(tokenId, now);
      }
    }

    method OpenNewSession(session: Id, tokenId: Id, user: UserId, now: int, ttl: nat)
      requires Valid() && Enabled(Contents(), OpenSession(session, tokenId, user, now, ttl))
      modifies this
      ensures Valid() && Contents() == Apply(old(Contents()), OpenSession(session, tokenId, user, now, ttl))
      ensures sessions == old(sessions)[session := Session(user, true, now, now)]
      ensures tokens == old(tokens)[tokenId := Token(session, user, now + ttl, false, None, false)]
    {
      hide Chained;
      StepKeepsChains(Contents(), OpenSession(session, tokenId, user, now, ttl));
      sessions := sessions[session := Session(user, true, now, now)];
      IssuePair(tokenId, user, session, now, ttl);
    }

    method LogoutSession(session: Id)
      requires Valid()
      modifies this
      ensures Valid() && Contents() == Apply(old(Contents()), Logout(session))
      ensures tokens == old(tokens)
      ensures sessions == if session in old(sessions) then old(sessions)[session := old(sessions)[session].(active := false)]
                          else old(sessions)
    {
      hide Chained;
      StepKeepsChains(Contents(), Logout(session));
      Revoke(session);
    }

    method RevokeMySession(user: UserId, session: Id) returns (done: bool)
      requires Valid()
      modifies this
      ensures Valid() && (done <==> session in old(sessions) && old(sessions)[session].user == user)
      ensures Contents() == if done then Apply(old(Contents()), RevokeMine(session)) else old(Contents())
      ensures done ==> sessions == old(sessions)[session := old(sessions)[session].(active := false)]
      ensures done ==> tokens.Keys == old(tokens).Keys
      ensures done ==> forall id :: id in tokens ==>
                tokens[id] == if old(tokens)[id].session == session then old(tokens)[id].(revoked := true) else old(tokens)[id]
    {
      done := session in sessions && sessions[session].user == user;
      if done {
        StepKeepsChains(Contents(), RevokeMine(session));
        Revoke(session);
        RevokeForSession(session);
      }
    }

    method LogoutEverywhere(user: UserId, keep: Option<Id>) returns (revoked: nat)
      requires Valid()
      modifies this
      ensures Valid() && Contents() == Apply(old(Contents()), LogoutAll(user, keep))
      ensures tokens == old(tokens) && sessions.Keys == old(sessions).Keys
      ensures forall x :: x in sessions ==>
                sessions[x] == if old(sessions)[x].user == user && keep != Some(x) then old(sessions)[x].(active := false)
                               else old(sessions)[x]
      ensures revoked == |set x | x in old(sessions) && old(sessions)[x].active && old(sessions)[x].user == user && keep != Some(x)|
    {
      hide Chained;
      StepKeepsChains(Contents(), LogoutAll(user, keep));
      var hit := set x | x in sessions && sessions[x].active && sessions[x].user == user && keep != Some(x);
      revoked := |hit|;
      sessions := map x | x in sessions :: if x in hit then sessions[x].(active := false) else sessions[x];
      assert sessions == RevokedAll(old(sessions), user, keep);
    }
  }
}
