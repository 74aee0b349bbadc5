/**
  When an OIDC session stays without live tokens for good, whatever else is
  going on: a logout or a session kill revokes what there is, but handlers on
  their way and codes not yet redeemed may bring new tokens.
 */
module TokenSessions {
  import opened Options
  import opened TokenTables
  import opened TokenRuns
  import opened TokenWorld
  import opened TokenInvariants
  import opened TokenTheorems
  import opened TokenRows
  import opened TokenAnswers

  /** The handler is on its way to insert a token under the session. */
  predicate Feeds(db: Db, pc: Pc, session: Id) {
    match pc
    case InsertSuccessor(rt) => rt.sessionId == Some(session)
    case ReadSession(rt) => rt.sessionId == Some(session)
    case UpdateRisk(rt, _, _) => rt.sessionId == Some(session)
    case InsertRefreshedAccess(rt) => rt.sessionId == Some(session)
    case FindSession(_, row) => CodeSession(db, row) == Some(session)
    case MintAccess(mint) => mint.sessionId == Some(session)
    case MintRefresh(mint) => mint.sessionId == Some(session)
    case _ => false
  }

  /** The code was issued in the session and can still be redeemed at that time. */
  predicate CodeOpen(db: Db, code: Id, session: Id, now: nat) {
    && code in db.codes && !db.codes[code].used && now <= db.codes[code].expiresAt
    && CodeSession(db, db.codes[code]) == Some(session)
  }

  predicate NoToken(db: Db, session: Id) {
    LiveSessionAccess(db, session) == {} && LiveSessionRefresh(db, session) == {}
  }

  /** No live token under the session, nobody on the way to insert one, no code to redeem. */
  ghost predicate Barren(w: World, session: Id, now: nat) {
    && session < w.db.nextId && NoToken(w.db, session)
    && (forall run :: run in w.runs ==> !Feeds(w.db, w.runs[run], session))
    && (forall code :: !CodeOpen(w.db, code, session, now))
  }

  /** The event happens no earlier than `now` and issues no new code in the session. */
  predicate Allowed(e: Event, session: Id, now: nat) {
    match e
    case Exec(_, input) => now <= input.now
    case Authorize(row) => row.sid != Some(session)
    case _ => true
  }

  predicate AllAllowed(events: seq<Event>, session: Id, now: nat) {
    forall k :: 0 <= k < |events| ==> Allowed(events[k], session, now)
  }

  /** No such continuation has a live token under the session. */
  ghost predicate SessionDeadFromHere(events: seq<Event>, session: Id, now: nat) {
    forall more :: AllAllowed(more, session, now) ==> NoToken(After(events + more).db, session)
  }

  // ---------------------------------------------------------------------
  // A barren session stays barren
  // ---------------------------------------------------------------------

  lemma StepFeeds(db: Db, pc: Pc, input: Input, session: Id)
    requires Feeds(Step(db, pc, input).0, Step(db, pc, input).1, session)
    ensures
      || Feeds(db, pc, session)
      || (Rotates(db, pc) && pc.rt.sessionId == Some(session))
      || (Redeems(db, pc) && CodeOpen(db, pc.code, session, input.now))
  {
    hide RevokeFamily, RevokeSessionAccess, RevokeSessionRefresh, RevokeCodeAccess, RevokeCodeRefresh,
         RevokeRefreshById, RevokeAccessById, RevokeUserAccess, RevokeUserRefresh, IssueRefresh, InsertPlainRefresh,
         InsertAccess, UpdateSession, DeleteExpiredAccess, DeleteExpiredRefresh, DeleteExpiredCodes;
  }

  lemma RotatesLive(w: World, run: Id, session: Id)
    requires Inv(w) && run in w.runs && Rotates(w.db, w.runs[run]) && w.runs[run].rt.sessionId == Some(session)
    ensures !NoToken(w.db, session)
  {
    assert PcOk(w, run, w.runs[run]);
    assert w.runs[run].id in LiveSessionRefresh(w.db, session);
  }

  lemma StepNoToken(db: Db, pc: Pc, input: Input, session: Id)
    requires NoToken(db, session) && !Feeds(db, pc, session)
    ensures NoToken(Step(db, pc, input).0, session)
  {
    StepRows(db, pc, input);
    var db' := Step(db, pc, input).0;
    hide Step;
    assert forall id :: id in LiveSessionAccess(db', session) ==> id in LiveSessionAccess(db, session);
    assert forall id :: id in LiveSessionRefresh(db', session) ==> id in LiveSessionRefresh(db, session);
  }

  lemma SameCodeSession(db: Db, db': Db, pc: Pc, row: CodeRow)
    requires CodesAfter(db, db', pc)
    ensures CodeSession(db', row) == CodeSession(db, row)
  {
  }

  lemma ExecBarren(w: World, run: Id, input: Input, session: Id, now: nat)
    requires Inv(w) && Barren(w, session, now) && run in w.runs && now <= input.now
    ensures Barren(ExecRun(w, run, input), session, now)
  {
    hide Inv, Step, NoToken;
    var w', pc := ExecRun(w, run, input), w.runs[run];
    StepRows(w.db, pc, input);
    StepCodes(w.db, pc, input);
    StepNoToken(w.db, pc, input, session);
    if Rotates(w.db, pc) && pc.rt.sessionId == Some(session) { RotatesLive(w, run, session); }
    if Feeds(w'.db, w'.runs[run], session) { StepFeeds(w.db, pc, input, session); }
    forall q | q in w'.runs ensures !Feeds(w'.db, w'.runs[q], session) {
      if q != run && w.runs[q].FindSession? { SameCodeSession(w.db, w'.db, pc, w.runs[q].row); }
    }
    forall code ensures !CodeOpen(w'.db, code, session, now) {
      if code in w'.db.codes { SameCodeSession(w.db, w'.db, pc, w'.db.codes[code]); }
      assert !CodeOpen(w.db, code, session, now);
    }
  }

  lemma NextBarren(w: World, e: Event, session: Id, now: nat)
    requires Inv(w) && Barren(w, session, now) && Allowed(e, session, now)
    ensures Barren(Next(w, e), session, now)
  {
    hide Inv, ExecRun;
    if e.Exec? && e.run in w.runs {
      ExecBarren(w, e.run, e.input, session, now);
    } else {
      var w' := Next(w, e);
      forall code ensures !CodeOpen(w'.db, code, session, now) {
        assert !CodeOpen(w.db, code, session, now);
      }
    }
  }

  lemma {:induction false} BarrenStays(events: seq<Event>, more: seq<Event>, session: Id, now: nat)
    requires Barren(After(events), session, now) && AllAllowed(more, session, now)
    ensures Barren(After(events + more), session, now)
    decreases |more|
  {
    hide Inv, Next, Barren;
    if more == [] {
      assert events + more == events;
    } else {
      var most, last := more[..|more| - 1], more[|more| - 1];
      BarrenStays(events, most, session, now);
      AfterInv(events + most);
      assert (events + more)[..|events + more| - 1] == events + most;
      NextBarren(After(events + most), last, session, now);
    }
  }

  // ---------------------------------------------------------------------
  // And everything else brings a token
  // ---------------------------------------------------------------------

  function Accepted(now: nat): Input {
    Input(now, true, true, Off)
  }

  lemma FeedingSteps(w: World, run: Id, session: Id, now: nat)
    requires run in w.runs && Feeds(w.db, w.runs[run], session)
    ensures
      var w' := ExecRun(w, run, Accepted(now));
      && run in w'.runs
      && (!NoToken(w'.db, session)
          || (Feeds(w'.db, w'.runs[run], session) && Remaining(w'.runs[run]) < Remaining(w.runs[run])))
  {
    var w' := ExecRun(w, run, Accepted(now));
    match w.runs[run]
    case InsertSuccessor(rt) => assert w.db.nextId + 1 in LiveSessionRefresh(w'.db, session);
    case ReadSession(rt) =>
    case UpdateRisk(rt, _, _) =>
    case InsertRefreshedAccess(rt) => assert w.db.nextId in LiveSessionAccess(w'.db, session);
    case FindSession(_, _) =>
    case MintAccess(mint) => assert w.db.nextId in LiveSessionAccess(w'.db, session);
    case MintRefresh(mint) => assert w.db.nextId + 1 in LiveSessionRefresh(w'.db, session);
  }

  lemma {:induction false} FeedingMints(events: seq<Event>, run: Id, session: Id, now: nat) returns (more: seq<Event>)
    requires run in After(events).runs && Feeds(After(events).db, After(events).runs[run], session)
    ensures AllAllowed(more, session, now) && !NoToken(After(events + more).db, session)
    decreases Remaining(After(events).runs[run])
  {
    ExecIs(events, run, Accepted(now));
    FeedingSteps(After(events), run, session, now);
    hide After, Step, ExecRun, NoToken, Feeds, Remaining;
    var e := Exec(run, Accepted(now));
    if !NoToken(After(events + [e]).db, session) {
      more := [e];
    } else {
      var rest := FeedingMints(events + [e], run, session, now);
      more := [e] + rest;
      assert events + more == events + [e] + rest;
    }
  }

  lemma StartIs(events: seq<Event>, run: Id, pc: Pc)
    requires run !in After(events).runs && IsEntry(pc)
    ensures After(events + [Start(run, pc)]) == After(events).(runs := After(events).runs[run := pc])
  {
    assert (events + [Start(run, pc)])[..|events|] == events;
  }

  lemma OpenCodeFeeds(w: World, run: Id, code: Id, session: Id, now: nat)
    requires CodeOpen(w.db, code, session, now) && run in w.runs
    requires
      var row := w.db.codes[code];
      w.runs[run] == ClaimCode(code, row.clientId, row.tenantId, row.redirectUri)
    ensures
      var w' := ExecRun(w, run, Accepted(now));
      run in w'.runs && Feeds(w'.db, w'.runs[run], session)
  {
  }

  lemma OpenCodeMints(events: seq<Event>, code: Id, session: Id, now: nat) returns (more: seq<Event>)
    requires CodeOpen(After(events).db, code, session, now)
    ensures AllAllowed(more, session, now) && !NoToken(After(events + more).db, session)
  {
    var run := FreshRun(After(events));
    var row := After(events).db.codes[code];
    var start := Start(run, ClaimCode(code, row.clientId, row.tenantId, row.redirectUri));
    var e := Exec(run, Accepted(now));
    StartIs(events, run, start.pc);
    ExecIs(events + [start], run, Accepted(now));
    OpenCodeFeeds(After(events + [start]), run, code, session, now);
    hide After, ExecRun, NoToken, Feeds;
    var rest := FeedingMints(events + [start] + [e], run, session, now);
    more := [start, e] + rest;
    assert events + more == events + [start] + [e] + rest;
  }

  /** From `now` on, and as long as no new code is issued in it, a session never has a live token again if and only if
      it has none, no handler is on its way to insert one, and no code of it can still be redeemed. */
  lemma SessionDeadIff(events: seq<Event>, session: Id, now: nat)
    requires session < After(events).db.nextId
    ensures SessionDeadFromHere(events, session, now) <==> Barren(After(events), session, now)
  {
    hide After, NoToken, Feeds, CodeOpen;
    if Barren(After(events), session, now) {
      forall more | AllAllowed(more, session, now) ensures NoToken(After(events + more).db, session) {
        BarrenStays(events, more, session, now);
      }
    } else if !NoToken(After(events).db, session) {
      assert events + [] == events;
      assert AllAllowed([], session, now) && !NoToken(After(events + []).db, session);
    } else if code :| CodeOpen(After(events).db, code, session, now) {
      var more := OpenCodeMints(events, code, session, now);
    } else {
      var run :| run in After(events).runs && Feeds(After(events).db, After(events).runs[run], session);
      var more := FeedingMints(events, run, session, now);
    }
  }

  /** When revokeTokensBySession has run, no refresh token of the session is live. The session stays without live tokens
      for good exactly when no access token was minted behind its back, nobody is about to insert a token, and no code
      of the session can be redeemed. */
  lemma KilledSessionDeadIff(events: seq<Event>, run: Id, input: Input, session: Id, now: nat)
    requires run in After(events).runs && After(events).runs[run].KillRefresh?
        && After(events).runs[run].session == session
    requires session < After(events).db.nextId
    ensures
      var w, killed := After(events), events + [Exec(run, input)];
      && LiveSessionRefresh(After(killed).db, session) == {}
      && (SessionDeadFromHere(killed, session, now) <==>
            && LiveSessionAccess(w.db, session) == {}
            && (forall q :: q in w.runs ==> !Feeds(w.db, w.runs[q], session))
            && (forall code :: !CodeOpen(w.db, code, session, now)))
  {
    ExecIs(events, run, input);
    KillRefreshIs(After(events), run, input, session, now);
    hide After, ExecRun, Feeds, CodeOpen, LiveSessionAccess, LiveSessionRefresh;
    SessionDeadIff(events + [Exec(run, input)], session, now);
  }

  lemma KillRefreshIs(w: World, run: Id, input: Input, session: Id, now: nat)
    requires run in w.runs && w.runs[run].KillRefresh? && w.runs[run].session == session
    ensures
      var w' := ExecRun(w, run, input);
      && w'.db.nextId == w.db.nextId && LiveSessionRefresh(w'.db, session) == {}
      && LiveSessionAccess(w'.db, session) == LiveSessionAccess(w.db, session)
      && ((forall q :: q in w'.runs ==> !Feeds(w'.db, w'.runs[q], session)) <==>
          (forall q :: q in w.runs ==> !Feeds(w.db, w.runs[q], session)))
      && (forall code :: CodeOpen(w'.db, code, session, now) <==> CodeOpen(w.db, code, session, now))
  {
    var w' := ExecRun(w, run, input);
    assert w'.db == RevokeSessionRefresh(w.db, session) && w'.db.codes == w.db.codes && w'.db.sessions == w.db.sessions;
    assert w'.runs == w.runs[run := w'.runs[run]] && !Feeds(w'.db, w'.runs[run], session)
        && !Feeds(w.db, w.runs[run], session);
    hide Step, ExecRun;
    forall q | q in w.runs && q != run ensures q in w'.runs
        && (Feeds(w'.db, w'.runs[q], session) <==> Feeds(w.db, w.runs[q], session)) {
    }
  }
}
