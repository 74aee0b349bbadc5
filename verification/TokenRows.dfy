/**
  What a single statement may do to the rows of the token tables: let them die,
  or insert the one row its handler has decided on.
 */
module TokenRows {
  import opened Options
  import opened TokenTables
  import opened TokenRuns
  import opened TokenWorld
  import opened TokenInvariants

  /** The refresh row a statement inserts, its family aside. */
  function InsertedRefresh(pc: Pc, input: Input): Option<RefreshRow> {
    match pc
    case InsertSuccessor(rt) => Some(Successor(rt, input.now))
    case MintRefresh(mint) => Some(RefreshFor(mint, input.now))
    case FirstPartyInsert(rt) =>
      Some(Successor(rt, input.now).(scope := "openid", familyId := None, sessionId := None))
    case _ => None
  }

  /** The access row a statement inserts. */
  function InsertedAccess(pc: Pc, input: Input): Option<AccessRow> {
    match pc
    case InsertRefreshedAccess(rt) => Some(RefreshedAccess(rt, input.now))
    case MintAccess(mint) => Some(AccessFor(mint, input.now))
    case FirstPartyAccess(_, rt) =>
      Some(AccessRow(rt.userId, if rt.clientId.Some? then rt.clientId.value else 0, rt.tenantId, "openid", None, None,
                     input.now + ACCESS_TOKEN_MS, false))
    case _ => None
  }

  predicate KeptRefresh(db: Db, db': Db, id: Id)
    requires id in db'.refresh
  {
    && id in db.refresh && SameToken(db.refresh[id], db'.refresh[id])
    && (db.refresh[id].revoked ==> db'.refresh[id].revoked)
  }

  predicate KeptAccess(db: Db, db': Db, id: Id)
    requires id in db'.access
  {
    && id in db.access && SameAccess(db.access[id], db'.access[id])
    && (db.access[id].revoked ==> db'.access[id].revoked)
  }

  predicate AddedRefresh(db: Db, row: RefreshRow, pc: Pc, input: Input) {
    InsertedRefresh(pc, input).Some? && row.(familyId := None) == InsertedRefresh(pc, input).value.(familyId := None)
  }

  ghost predicate RowsAfter(db: Db, db': Db, pc: Pc, input: Input) {
    && db.nextId <= db'.nextId
    && (forall id :: id in db'.refresh ==>
          KeptRefresh(db, db', id) || (db.nextId <= id && AddedRefresh(db, db'.refresh[id], pc, input)))
    && (forall id :: id in db'.access ==>
          KeptAccess(db, db', id) || (db.nextId <= id && InsertedAccess(pc, input) == Some(db'.access[id])))
  }

  lemma StepRows(db: Db, pc: Pc, input: Input)
    ensures RowsAfter(db, Step(db, pc, input).0, pc, input)
  {
    hide RowsAfter;
    if Plain(db, pc) && !Inserts(pc) {
      DyingRows(db, pc, input);
    } else if pc.ClaimRefresh? {
      ClaimRows(db, pc, input);
    } else if InsertedRefresh(pc, input).Some? {
      RefreshInsertRows(db, pc, input);
    } else if InsertedAccess(pc, input).Some? {
      AccessInsertRows(db, pc, input);
    } else {
      OtherRows(db, pc, input);
    }
  }

  lemma DyingRows(db: Db, pc: Pc, input: Input)
    requires Plain(db, pc) && !Inserts(pc)
    ensures RowsAfter(db, Step(db, pc, input).0, pc, input)
  {
    DyingStep(db, pc, input);
    hide Step;
  }

  lemma ClaimRows(db: Db, pc: Pc, input: Input)
    requires pc.ClaimRefresh?
    ensures RowsAfter(db, Step(db, pc, input).0, pc, input)
  {
  }

  lemma RefreshInsertRows(db: Db, pc: Pc, input: Input)
    requires InsertedRefresh(pc, input).Some?
    ensures RowsAfter(db, Step(db, pc, input).0, pc, input)
  {
    hide Successor, RefreshFor;
  }

  lemma AccessInsertRows(db: Db, pc: Pc, input: Input)
    requires InsertedAccess(pc, input).Some?
    ensures RowsAfter(db, Step(db, pc, input).0, pc, input)
  {
    hide AccessFor, RefreshedAccess;
  }

  /** The lookups that are not plain, and the claim of a code. */
  lemma OtherRows(db: Db, pc: Pc, input: Input)
    requires !pc.ClaimRefresh? && (!Plain(db, pc) || Inserts(pc))
    requires InsertedRefresh(pc, input).None? && InsertedAccess(pc, input).None?
    ensures RowsAfter(db, Step(db, pc, input).0, pc, input)
  {
    hide UseCode;
    var db' := Step(db, pc, input).0;
    assert db'.refresh == db.refresh && db'.access == db.access
        && db'.nextId == db.nextId by { ReadsOnly(db, pc, input); }
    hide Step;
  }

  lemma ReadsOnly(db: Db, pc: Pc, input: Input)
    requires !pc.ClaimRefresh? && (!Plain(db, pc) || Inserts(pc))
    requires InsertedRefresh(pc, input).None? && InsertedAccess(pc, input).None?
    ensures
      var db' := Step(db, pc, input).0;
      db'.refresh == db.refresh && db'.access == db.access && db'.nextId == db.nextId
  {
  }

  // ---------------------------------------------------------------------
  // Codes and sessions
  // ---------------------------------------------------------------------

  /** Codes are only used up, by their claim, or deleted; sessions keep their tenant. */
  ghost predicate CodesAfter(db: Db, db': Db, pc: Pc) {
    && (forall c :: c in db'.codes ==>
          && c in db.codes
          && (db'.codes[c] == db.codes[c]
              || (Redeems(db, pc) && c == pc.code && db'.codes[c] == db.codes[c].(used := true))))
    && db'.sessions.Keys == db.sessions.Keys
    && (forall s :: s in db.sessions ==> db'.sessions[s].tenantId == db.sessions[s].tenantId)
  }

  lemma StepCodes(db: Db, pc: Pc, input: Input)
    ensures CodesAfter(db, Step(db, pc, input).0, pc)
  {
    hide CodesAfter;
    if RevokesTokens(pc) {
      RevokingCodes(db, pc, input);
    } else if pc.ClaimCode? || pc.CleanCodes? || pc.UpdateRisk? || pc.Terminate? {
      WritingCodes(db, pc, input);
    } else {
      OtherCodes(db, pc, input);
    }
  }

  lemma RevokingCodes(db: Db, pc: Pc, input: Input)
    requires RevokesTokens(pc)
    ensures CodesAfter(db, Step(db, pc, input).0, pc)
  {
    hide RevokeRefresh, RevokeAccess;
  }

  lemma WritingCodes(db: Db, pc: Pc, input: Input)
    requires pc.ClaimCode? || pc.CleanCodes? || pc.UpdateRisk? || pc.Terminate?
    ensures CodesAfter(db, Step(db, pc, input).0, pc)
  {
  }

  lemma OtherCodes(db: Db, pc: Pc, input: Input)
    requires !RevokesTokens(pc) && !pc.ClaimCode? && !pc.CleanCodes? && !pc.UpdateRisk? && !pc.Terminate?
    ensures CodesAfter(db, Step(db, pc, input).0, pc)
  {
    var db' := Step(db, pc, input).0;
    assert db'.codes == db.codes && db'.sessions == db.sessions by { SameCodesAndSessions(db, pc, input); }
    hide Step;
  }

  lemma SameCodesAndSessions(db: Db, pc: Pc, input: Input)
    requires !RevokesTokens(pc) && !pc.ClaimCode? && !pc.CleanCodes? && !pc.UpdateRisk? && !pc.Terminate?
    ensures Step(db, pc, input).0.codes == db.codes && Step(db, pc, input).0.sessions == db.sessions
  {
    hide RevokeFamily, RevokeSessionAccess, RevokeSessionRefresh, RevokeCodeAccess, RevokeCodeRefresh, RevokeAccessById,
         RevokeUserAccess, RevokeUserRefresh, UpdateSession, UseCode, DeleteExpiredCodes;
  }
}
