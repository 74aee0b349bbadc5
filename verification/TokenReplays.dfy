/**
  What the answer to a replayed authorization code leaves under concurrency, for
  the tokens that carry the code and for the families they founded.
 */
module TokenReplays {
  import opened Options
  import opened TokenTables
  import opened TokenRuns
  import opened TokenWorld
  import opened TokenInvariants
  import opened TokenTheorems
  import opened TokenRows
  import opened TokenAnswers
  import opened TokenCodes

  // ---------------------------------------------------------------------
  // Only redeemed codes are replayed
  // ---------------------------------------------------------------------

  /** Used codes, and the codes a replay is being answered for, have been redeemed. */
  ghost predicate ReplaysOk(w: World) {
    && (forall c :: c in w.db.codes && w.db.codes[c].used ==> c in w.redeemedBy)
    && (forall run :: run in w.runs && (w.runs[run].KillCodeAccess? || w.runs[run].KillCodeRefresh?) ==>
          w.runs[run].code in w.redeemedBy)
  }

  /** A replay is being answered only for a used code. */
  lemma StepReplays(db: Db, pc: Pc, input: Input)
    ensures
      var next := Step(db, pc, input).1;
      next.KillCodeAccess? || next.KillCodeRefresh? ==>
        (pc.KillCodeAccess? && pc.code == next.code) || (next.code in db.codes && db.codes[next.code].used)
  {
    hide RevokeFamily, RevokeSessionAccess, RevokeSessionRefresh, RevokeCodeAccess, RevokeCodeRefresh,
         RevokeRefreshById, RevokeAccessById, RevokeUserAccess, RevokeUserRefresh, IssueRefresh, InsertPlainRefresh,
         InsertAccess, UpdateSession, UseCode, DeleteExpiredAccess, DeleteExpiredRefresh, DeleteExpiredCodes;
  }

  lemma NextReplaysOk(w: World, e: Event)
    requires ReplaysOk(w)
    ensures ReplaysOk(Next(w, e))
  {
    hide Step;
    RecordsGrow(w, e);
    if e.Exec? && e.run in w.runs {
      StepReplays(w.db, w.runs[e.run], e.input);
      StepCodes(w.db, w.runs[e.run], e.input);
    }
  }

  lemma {:induction false} AfterReplaysOk(events: seq<Event>)
    ensures ReplaysOk(After(events))
  {
    if events == [] {
    } else {
      AfterReplaysOk(events[..|events| - 1]);
      NextReplaysOk(After(events[..|events| - 1]), events[|events| - 1]);
    }
  }

  // ---------------------------------------------------------------------
  // The tokens carrying the code
  // ---------------------------------------------------------------------

  /** The statement of the answer that revokes the tokens of the kind. */
  predicate KillsCarriers(pc: Pc, kind: Kind, code: Id) {
    match kind
    case Access => pc.KillCodeAccess? && pc.code == code
    case Refresh => pc.KillCodeRefresh? && pc.code == code
  }

  /** No continuation has a live token of the kind that carries the code. */
  ghost predicate CarriersDeadFromHere(events: seq<Event>, kind: Kind, code: Id) {
    forall more, id :: !CarriesAlive(After(events + more).db, kind, id, code)
  }

  lemma CarriersKilled(w: World, run: Id, input: Input, kind: Kind, code: Id)
    requires run in w.runs && KillsCarriers(w.runs[run], kind, code)
    ensures forall id :: !CarriesAlive(ExecRun(w, run, input).db, kind, id, code)
    ensures Settled(ExecRun(w, run, input), kind, code) <==> Settled(w, kind, code)
  {
    var w' := ExecRun(w, run, input);
    assert !Owes(w.runs[run], kind, code) && !Owes(w'.runs[run], kind, code);
    assert w'.runs == w.runs[run := w'.runs[run]] && w'.redeemedBy == w.redeemedBy;
    hide Step, ExecRun, Owes;
    assert forall q :: q in w.runs && q != run ==> q in w'.runs && w'.runs[q] == w.runs[q];
  }

  lemma SettledForGood(events: seq<Event>, kind: Kind, code: Id)
    requires Settled(After(events), kind, code) && forall id :: !CarriesAlive(After(events).db, kind, id, code)
    ensures CarriersDeadFromHere(events, kind, code)
  {
    hide After, Settled, CarriesAlive, Carries;
    forall more, id ensures !CarriesAlive(After(events + more).db, kind, id, code) {
      var all := events + more;
      assert all[..|events|] == events && all[..|all|] == all;
      SettledStays(all, |events|, |all|, kind, code);
    }
  }

  const ACCEPTED: Input := Input(0, true, true, Off)

  /** One statement of a handler that owes a token: it still owes it, or has minted it. */
  lemma OwingSteps(w: World, run: Id, kind: Kind, code: Id)
    requires run in w.runs && Owes(w.runs[run], kind, code)
    ensures
      var w' := ExecRun(w, run, ACCEPTED);
      (exists id :: CarriesAlive(w'.db, kind, id, code))
      || (Owes(w'.runs[run], kind, code) && Remaining(w'.runs[run]) < Remaining(w.runs[run]))
  {
    var w' := ExecRun(w, run, ACCEPTED);
    match w.runs[run]
    case FindSession(_, _) =>
    case MintAccess(mint) => if kind.Access? { assert CarriesAlive(w'.db, kind, w.db.nextId, code); }
    case MintRefresh(mint) => assert CarriesAlive(w'.db, kind, w.db.nextId + 1, code);
  }

  /** A handler that owes a token can go on and mint it. */
  lemma {:induction false} OwingMints(events: seq<Event>, run: Id, kind: Kind, code: Id) returns (more: seq<Event>)
    requires run in After(events).runs && Owes(After(events).runs[run], kind, code)
    ensures exists id :: CarriesAlive(After(events + more).db, kind, id, code)
    decreases Remaining(After(events).runs[run])
  {
    ExecIs(events, run, ACCEPTED);
    OwingSteps(After(events), run, kind, code);
    hide After, Step, Carries, CarriesAlive, Owes, Remaining;
    var next := events + [Exec(run, ACCEPTED)];
    if exists id :: CarriesAlive(After(next).db, kind, id, code) {
      more := [Exec(run, ACCEPTED)];
    } else {
      var rest := OwingMints(next, run, kind, code);
      more := [Exec(run, ACCEPTED)] + rest;
      assert events + more == next + rest;
    }
  }

  lemma ReplayedIsRedeemed(events: seq<Event>, run: Id, kind: Kind, code: Id)
    requires run in After(events).runs && KillsCarriers(After(events).runs[run], kind, code)
    ensures code in After(events).redeemedBy
  {
    AfterReplaysOk(events);
    hide After;
  }

  /** When the answer to a replay has revoked the access tokens, or the refresh tokens, of the code, none of them is
      live, and none ever is again if and only if nobody has yet to mint for the code. */
  lemma ReplayAnswerIff(events: seq<Event>, run: Id, input: Input, kind: Kind, code: Id)
    requires run in After(events).runs && KillsCarriers(After(events).runs[run], kind, code)
    ensures forall id :: !CarriesAlive(After(events + [Exec(run, input)]).db, kind, id, code)
    ensures CarriersDeadFromHere(events + [Exec(run, input)], kind, code) <==> Settled(After(events), kind, code)
  {
    var killed := events + [Exec(run, input)];
    ReplayedIsRedeemed(events, run, kind, code);
    ExecIs(events, run, input);
    CarriersKilled(After(events), run, input, kind, code);
    assert code in After(killed).redeemedBy by { RedeemedStays(After(events), run, input, code); }
    hide After, CarriesAlive, Carries, ExecRun, KillsCarriers, Owes;
    if Settled(After(killed), kind, code) {
      SettledForGood(killed, kind, code);
    } else {
      var q :| q in After(killed).runs && Owes(After(killed).runs[q], kind, code);
      var more := OwingMints(killed, q, kind, code);
      var id :| CarriesAlive(After(killed + more).db, kind, id, code);
    }
  }

  lemma RedeemedStays(w: World, run: Id, input: Input, code: Id)
    requires run in w.runs && code in w.redeemedBy
    ensures code in ExecRun(w, run, input).redeemedBy
  {
    hide Step;
  }

  // ---------------------------------------------------------------------
  // The families
  // ---------------------------------------------------------------------

  /** Every live member of the family carries the code. */
  ghost predicate OnlyCarriers(w: World, family: Id, code: Id) {
    forall id :: id in LiveFamily(w.db, family) ==> w.db.refresh[id].authCodeId == Some(code)
  }

  lemma FamilyAfterReplay(w: World, run: Id, input: Input, family: Id)
    requires run in w.runs && w.runs[run].KillCodeRefresh?
    ensures LiveFamily(ExecRun(w, run, input).db, family) == {} <==> OnlyCarriers(w, family, w.runs[run].code)
    ensures InFlight(ExecRun(w, run, input), family) == InFlight(w, family)
    ensures ExecRun(w, run, input).families == w.families
  {
    var w', code := ExecRun(w, run, input), w.runs[run].code;
    assert w'.db == RevokeCodeRefresh(w.db, code) && w'.runs == w.runs[run := Done(Denied)];
    assert forall id :: id in LiveFamily(w'.db, family) <==>
      id in LiveFamily(w.db, family) && w.db.refresh[id].authCodeId != Some(code);
    hide Step, ExecRun, LiveFamily;
    assert forall r :: r != run && r in w.runs ==> r in w'.runs && w'.runs[r] == w.runs[r];
  }

  /** When the answer to a replay has run, a family never has a live token again if and only if no rotation of it was in
      flight and every live member carried the code. */
  lemma ReplayKillsFamilyForGoodIff(events: seq<Event>, run: Id, input: Input, family: Id)
    requires run in After(events).runs && After(events).runs[run].KillCodeRefresh? && family in After(events).families
    ensures
      DeadFromHere(events + [Exec(run, input)], family) <==>
      InFlight(After(events), family) == {} && OnlyCarriers(After(events), family, After(events).runs[run].code)
  {
    var replayed := events + [Exec(run, input)];
    AfterInv(replayed);
    ExecIs(events, run, input);
    FamilyAfterReplay(After(events), run, input, family);
    hide After, Inv, ExecRun, LiveFamily, OnlyCarriers;
    if LiveFamily(After(replayed).db, family) != {} {
      assert replayed + [] == replayed;
      assert LiveFamily(After(replayed + []).db, family) != {};
    } else if InFlight(After(replayed), family) == {} {
      DeadStays(replayed, family);
    } else {
      var r :| r in InFlight(After(replayed), family);
      ExecIs(replayed, r, input);
      FlightLands(After(replayed), r, input, family);
      assert LiveFamily(After(replayed + [Exec(r, input)]).db, family) != {};
    }
  }
}
