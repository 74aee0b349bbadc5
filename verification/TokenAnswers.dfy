/**
  What the answers to a reuse and to a revocation leave under concurrency: the
  family has no live token when the answer's last statement has run, and none
  ever after exactly when no rotation of it was in flight then.
 */
module TokenAnswers {
  import opened Options
  import opened TokenTables
  import opened TokenRuns
  import opened TokenWorld
  import opened TokenInvariants
  import opened TokenTheorems

  /** The statement revokes every member of the family, by session or by family id. */
  predicate RevokesWhole(w: World, pc: Pc, family: Id) {
    family in w.families &&
    match pc
    case KillRefresh(session, _) => w.families[family].sessionId == Some(session)
    case ReuseDetected(rt) => rt.familyId == Some(family) && w.families[family].tenantId == rt.tenantId
    case RevokeWholeFamily(f, tenant) => f == family && w.families[family].tenantId == tenant
    case _ => false
  }

  lemma WholeFamilyRevoked(w: World, run: Id, input: Input, family: Id)
    requires Inv(w) && run in w.runs && RevokesWhole(w, w.runs[run], family)
    ensures LiveFamily(ExecRun(w, run, input).db, family) == {}
    ensures InFlight(ExecRun(w, run, input), family) == InFlight(w, family)
  {
    var w' := ExecRun(w, run, input);
    MembersMatch(w, family);
    MembersRevoked(w, w.runs[run], input, family);
    NotInFlight(w.db, w.runs[run], input);
    hide Step, Inv, RevokesWhole, LiveFamily;
    assert forall r :: r != run && r in w.runs ==> r in w'.runs && w'.runs[r] == w.runs[r];
  }

  lemma MembersMatch(w: World, family: Id)
    requires Inv(w) && family in w.families
    ensures forall id :: id in w.db.refresh && w.db.refresh[id].familyId == Some(family) ==>
      w.db.refresh[id].sessionId == w.families[family].sessionId
          && w.db.refresh[id].tenantId == w.families[family].tenantId
  {
    forall id | id in w.db.refresh && w.db.refresh[id].familyId == Some(family)
      ensures w.db.refresh[id].sessionId == w.families[family].sessionId
          && w.db.refresh[id].tenantId == w.families[family].tenantId
    {
      assert FamilyOk(w, w.db.refresh[id]);
    }
  }

  lemma MembersRevoked(w: World, pc: Pc, input: Input, family: Id)
    requires RevokesWhole(w, pc, family)
    requires forall id :: id in w.db.refresh && w.db.refresh[id].familyId == Some(family) ==>
      w.db.refresh[id].sessionId == w.families[family].sessionId
          && w.db.refresh[id].tenantId == w.families[family].tenantId
    ensures LiveFamily(Step(w.db, pc, input).0, family) == {}
  {
  }

  /** An in-flight rotation only has to insert its successor. */
  lemma FlightLands(w: World, run: Id, input: Input, family: Id)
    requires Inv(w) && run in InFlight(w, family)
    ensures w.db.nextId + 1 in LiveFamily(ExecRun(w, run, input).db, family)
  {
    SuccessorIs(w, run, input);
    hide ExecRun, Step, Inv;
  }

  lemma ExecIs(events: seq<Event>, run: Id, input: Input)
    requires run in After(events).runs
    ensures After(events + [Exec(run, input)]) == ExecRun(After(events), run, input)
  {
    assert (events + [Exec(run, input)])[..|events|] == events;
    hide ExecRun;
  }

  /** Whatever runs next, no live token of the family. */
  ghost predicate DeadFromHere(events: seq<Event>, family: Id) {
    forall more :: LiveFamily(After(events + more).db, family) == {}
  }

  lemma DeadStays(events: seq<Event>, family: Id)
    requires LiveFamily(After(events).db, family) == {} && InFlight(After(events), family) == {}
        && family in After(events).families
    ensures DeadFromHere(events, family)
  {
    AfterInv(events);
    NoHolder(After(events), family);
    FoundedBelow(After(events), family);
    hide After, Inv;
    forall more ensures LiveFamily(After(events + more).db, family) == {} {
      DeadForever(events, more, family);
      DeadHasNoToken(After(events + more), family);
    }
  }

  lemma NoHolder(w: World, family: Id)
    requires LiveFamily(w.db, family) == {} && InFlight(w, family) == {}
    ensures Dead(w, family)
  {
    forall h ensures !Holds(w, h, family) {
      match h
      case Token(id) => assert id !in LiveFamily(w.db, family);
      case Rotation(r) => assert r !in InFlight(w, family);
    }
  }

  lemma DeadHasNoToken(w: World, family: Id)
    requires Dead(w, family)
    ensures LiveFamily(w.db, family) == {}
  {
    assert forall id :: id in LiveFamily(w.db, family) ==> Holds(w, Token(id), family);
  }

  lemma FoundedBelow(w: World, family: Id)
    requires Inv(w) && family in w.families
    ensures family < w.db.nextId
  {
  }

  /** After a statement that revokes the whole family: no live token, and never again one exactly when no
      rotation was in flight. */
  lemma RevokedForGoodIff(events: seq<Event>, run: Id, input: Input, family: Id)
    requires run in After(events).runs && RevokesWhole(After(events), After(events).runs[run], family)
    ensures LiveFamily(After(events + [Exec(run, input)]).db, family) == {}
    ensures DeadFromHere(events + [Exec(run, input)], family) <==> InFlight(After(events), family) == {}
  {
    var revoked := events + [Exec(run, input)];
    AfterInv(events);
    AfterInv(revoked);
    ExecIs(events, run, input);
    WholeFamilyRevoked(After(events), run, input, family);
    FamilyFoundedStays(After(events), run, input, family);
    hide After, Inv, ExecRun, RevokesWhole;
    if InFlight(After(events), family) == {} {
      DeadStays(revoked, family);
    } else {
      var r :| r in InFlight(After(revoked), family);
      ExecIs(revoked, r, input);
      FlightLands(After(revoked), r, input, family);
      assert LiveFamily(After(revoked + [Exec(r, input)]).db, family) != {};
    }
  }

  lemma FamilyFoundedStays(w: World, run: Id, input: Input, family: Id)
    requires run in w.runs && family in w.families && Inv(w)
    ensures family in ExecRun(w, run, input).families && ExecRun(w, run, input).families[family] == w.families[family]
  {
    hide Step, RunsOk, CodesOk, OneHolder, RotationsOk;
  }

  lemma FamilyStep(w: World, e: Event, family: Id)
    requires family in w.families && Inv(w)
    ensures family in Next(w, e).families && Next(w, e).families[family] == w.families[family]
  {
    hide Inv, ExecRun;
    if e.Exec? && e.run in w.runs {
      FamilyFoundedStays(w, e.run, e.input, family);
    }
  }

  lemma {:induction false} FamilyStays(events: seq<Event>, i: nat, j: nat, family: Id)
    requires i <= j <= |events| && family in After(events[..i]).families
    ensures family in After(events[..j]).families
        && After(events[..j]).families[family] == After(events[..i]).families[family]
    decreases j
  {
    hide After, Inv, Next;
    if i == j {
    } else {
      FamilyStays(events, i, j - 1, family);
      AfterSnoc(events, j - 1);
      AfterInv(events[..j - 1]);
      FamilyStep(After(events[..j - 1]), events[j - 1], family);
    }
  }

  // ---------------------------------------------------------------------
  // The answer to a reuse
  // ---------------------------------------------------------------------

  /** The last statement with which the answer to a reuse revokes members of the token's family. */
  function LastReuseStatement(rt: RefreshRow): Pc {
    if rt.sessionId.Some? then KillRefresh(rt.sessionId.value, Answer(Denied)) else ReuseDetected(rt)
  }

  lemma ReusedFamily(w: World, run: Id, family: Id)
    requires Inv(w) && run in w.runs && w.runs[run].ReuseDetected? && w.runs[run].rt.familyId == Some(family)
    ensures family in w.families && w.families[family] == ProfileOf(w.runs[run].rt)
  {
    assert PcOk(w, run, w.runs[run]);
  }

  /** A run that detected the reuse of a token and has come to the answer's last statement: that statement leaves no
      live token in the family, and none ever comes back if and only if no rotation is in flight when it runs. */
  lemma ReuseAnswerIff(events: seq<Event>, i: nat, run: Id, rt: RefreshRow, family: Id, input: Input)
    requires i <= |events| && rt.familyId == Some(family)
    requires run in After(events[..i]).runs && After(events[..i]).runs[run] == ReuseDetected(rt)
    requires run in After(events).runs && After(events).runs[run] == LastReuseStatement(rt)
    ensures After(events + [Exec(run, input)]).runs[run] == Done(Denied)
    ensures LiveFamily(After(events + [Exec(run, input)]).db, family) == {}
    ensures DeadFromHere(events + [Exec(run, input)], family) <==> InFlight(After(events), family) == {}
  {
    hide After, Inv, DeadFromHere, LiveFamily, InFlight;
    AfterInv(events[..i]);
    ReusedFamily(After(events[..i]), run, family);
    FamilyStays(events, i, |events|, family);
    assert events[..|events|] == events;
    ExecIs(events, run, input);
    RevokedForGoodIff(events, run, input, family);
  }

  // ---------------------------------------------------------------------
  // The answer to a revocation
  // ---------------------------------------------------------------------

  /** The last statement of the revocation endpoint for a refresh token of a family. */
  function LastRevokeStatement(rt: RefreshRow): Pc
    requires rt.familyId.Some?
  {
    if rt.sessionId.Some? then KillRefresh(rt.sessionId.value, Answer(Acknowledged))
        else RevokeWholeFamily(rt.familyId.value, rt.tenantId)
  }

  lemma StoredFamily(w: World, token: Id, family: Id)
    requires Inv(w) && token in w.db.refresh && w.db.refresh[token].familyId == Some(family)
    ensures family in w.families && w.families[family] == ProfileOf(w.db.refresh[token])
  {
    assert FamilyOk(w, w.db.refresh[token]);
  }

  /** A run that looked up a refresh token to revoke and has come to its last statement, in the session branch or in
      the family branch: the same, with an acknowledgement. */
  lemma RevokeAnswerIff(events: seq<Event>, i: nat, run: Id, token: Id, family: Id, input: Input)
    requires i <= |events| && token in After(events[..i]).db.refresh
    requires After(events[..i]).db.refresh[token].familyId == Some(family)
    requires run in After(events).runs
        && After(events).runs[run] == LastRevokeStatement(After(events[..i]).db.refresh[token])
    ensures After(events + [Exec(run, input)]).runs[run] == Done(Acknowledged)
    ensures LiveFamily(After(events + [Exec(run, input)]).db, family) == {}
    ensures DeadFromHere(events + [Exec(run, input)], family) <==> InFlight(After(events), family) == {}
  {
    hide After, Inv, DeadFromHere, LiveFamily, InFlight;
    AfterInv(events[..i]);
    StoredFamily(After(events[..i]), token, family);
    FamilyStays(events, i, |events|, family);
    assert events[..|events|] == events;
    ExecIs(events, run, input);
    RevokedForGoodIff(events, run, input, family);
  }
}
