/**
  What the answers of the handlers are worth in any interleaving: tokens are
  said to be issued only when one has been inserted, and whoever loses the race
  for a refresh token is denied.
 */
module TokenOutcomes {
  import opened Options
  import opened TokenTables
  import opened TokenRuns
  import opened TokenWorld
  import opened TokenInvariants
  import opened TokenTheorems
  import opened TokenAtomic

  /** The statement inserts a live token. */
  ghost predicate InsertsToken(db: Db, db': Db) {
    || (exists id :: id in db'.access && id !in db.access && !db'.access[id].revoked)
    || (exists id :: id in db'.refresh && id !in db.refresh && !db'.refresh[id].revoked)
  }

  /** The end of a session answers nobody that tokens are issued. */
  predicate TailOk(pc: Pc) {
    (pc.KillAccess? || pc.KillRefresh?) ==> pc.next != Answer(Issued)
  }

  ghost predicate TailsOk(w: World) {
    forall run :: run in w.runs ==> TailOk(w.runs[run])
  }

  lemma StepTailOk(db: Db, pc: Pc, input: Input)
    requires TailOk(pc)
    ensures TailOk(Step(db, pc, input).1)
  {
    hide RevokeFamily, RevokeSessionAccess, RevokeSessionRefresh, RevokeCodeAccess, RevokeCodeRefresh,
         RevokeRefreshById, RevokeAccessById, RevokeUserAccess, RevokeUserRefresh, IssueRefresh, InsertPlainRefresh,
         InsertAccess, UpdateSession, UseCode, DeleteExpiredAccess, DeleteExpiredRefresh, DeleteExpiredCodes,
         ClaimsCode;
  }

  lemma {:induction false} AfterTailsOk(events: seq<Event>)
    ensures TailsOk(After(events))
  {
    if events == [] {
    } else {
      var w, e := After(events[..|events| - 1]), events[|events| - 1];
      AfterTailsOk(events[..|events| - 1]);
      hide Step;
      if e.Exec? && e.run in w.runs {
        StepTailOk(w.db, w.runs[e.run], e.input);
      }
    }
  }

  /** The last statement of a handler that issues tokens. */
  predicate LastInsert(pc: Pc) {
    pc.InsertRefreshedAccess? || pc.MintRefresh? || pc.FirstPartyInsert?
  }

  lemma IssuedAtInsert(db: Db, pc: Pc, input: Input)
    requires TailOk(pc) && !pc.Done? && Step(db, pc, input).1 == Done(Issued)
    ensures LastInsert(pc)
  {
    hide RevokeFamily, RevokeSessionAccess, RevokeSessionRefresh, RevokeCodeAccess, RevokeCodeRefresh,
         RevokeRefreshById, RevokeAccessById, RevokeUserAccess, RevokeUserRefresh, IssueRefresh, InsertPlainRefresh,
         InsertAccess, UpdateSession, UseCode, DeleteExpiredAccess, DeleteExpiredRefresh, DeleteExpiredCodes,
         ClaimsCode;
  }

  lemma InsertsLive(db: Db, pc: Pc, input: Input)
    requires LastInsert(pc)
    requires (forall id :: id in db.access ==> id < db.nextId) && forall id :: id in db.refresh ==> id < db.nextId
    ensures InsertsToken(db, Step(db, pc, input).0)
  {
    var db' := Step(db, pc, input).0;
    if pc.InsertRefreshedAccess? {
      assert db.nextId in db'.access && !db'.access[db.nextId].revoked;
    } else if pc.MintRefresh? {
      assert db.nextId + 1 in db'.refresh && !db'.refresh[db.nextId + 1].revoked;
    } else {
      assert db.nextId in db'.refresh && !db'.refresh[db.nextId].revoked;
    }
  }

  /** In every run a handler comes to answer that tokens are issued only with a statement that inserts a live one. */
  lemma IssuedComesWithToken(events: seq<Event>, run: Id, input: Input)
    requires run in After(events).runs && !After(events).runs[run].Done?
    requires ExecRun(After(events), run, input).runs[run] == Done(Issued)
    ensures InsertsToken(After(events).db, ExecRun(After(events), run, input).db)
  {
    AfterInv(events);
    AfterTailsOk(events);
    var w := After(events);
    hide After, Step, RunsOk, OneHolder, RotationsOk, CodesOk, InsertsToken, LastInsert;
    IssuedAtInsert(w.db, w.runs[run], input);
    InsertsLive(w.db, w.runs[run], input);
  }

  /** A refresh whose token has been revoked or deleted since its lookup is denied, and changes nothing. */
  lemma LostClaimIsDenied(w: World, run: Id, input: Input)
    requires run in w.runs && w.runs[run].ClaimRefresh?
    requires w.runs[run].id in w.db.refresh ==> w.db.refresh[w.runs[run].id].revoked
    ensures ExecRun(w, run, input) == w.(runs := w.runs[run := Done(Denied)])
  {
  }

  /** A presentation of a code that has been redeemed in the meantime goes on as a replay. */
  lemma LostRedemptionIsReplay(w: World, run: Id, input: Input, later: Input)
    requires run in w.runs && w.runs[run].ClaimCode?
    requires
      var code := w.runs[run].code;
      code in w.db.codes && w.db.codes[code].used && w.db.codes[code].tenantId == w.runs[run].tenant
    ensures
      var w' := ExecRun(ExecRun(w, run, input), run, later);
      w' == w.(runs := w.runs[run := KillCodeAccess(w.runs[run].code)])
  {
  }

  /** A code issued at any moment of any run is stored unused and can be redeemed once, with the values it was issued
      with and in time; the same presentation afterwards is denied. */
  lemma IssuedCodeRedeems(events: seq<Event>, row: CodeRow, input: Input, later: Input)
    requires input.now <= row.expiresAt && input.userOk && input.checksOk
    ensures
      var code, db := After(events).db.nextId, After(events + [Authorize(row)]).db;
      var presented := ClaimCode(code, row.clientId, row.tenantId, row.redirectUri);
      && code in db.codes && db.codes[code] == row.(used := false) && code !in After(events).db.codes
      && Complete(db, presented, input).1 == Issued
      && Complete(Complete(db, presented, input).0, presented, later).1 == Denied
  {
    AfterInv(events);
    AuthorizeIs(events, row);
    var code, db := After(events).db.nextId, After(events + [Authorize(row)]).db;
    hide After, Complete;
    RedemptionIssuesIff(db, code, row.clientId, row.tenantId, row.redirectUri, input);
    RedemptionMints(db, code, row.clientId, row.tenantId, row.redirectUri, input);
    var presented := ClaimCode(code, row.clientId, row.tenantId, row.redirectUri);
    ReplayKillsMinted(Complete(db, presented, input).0, code, row.clientId, row.tenantId, row.redirectUri, later);
  }

  lemma AuthorizeIs(events: seq<Event>, row: CodeRow)
    ensures
      var db, db' := After(events).db, After(events + [Authorize(row)]).db;
      db.nextId in db'.codes && db'.codes[db.nextId] == row.(used := false)
  {
    assert (events + [Authorize(row)])[..|events|] == events;
  }
}
