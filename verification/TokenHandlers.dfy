/**
  The handlers as the code writes them, over the token tables they update:
  each one, run without interruption, is exactly its program of statements.
 */
module TokenHandlers {
  import opened Options
  import opened TokenTables
  import opened TokenRuns
  import opened TokenAtomic

  class TokenDatabase {
    var db: Db

    constructor (db: Db)
      ensures this.db == db
    {
      this.db := db;
    }

    // -------------------------------------------------------------------
    // Revocation helpers
    // -------------------------------------------------------------------

    /** Revokes exactly the access and refresh tokens of an OIDC session. */
    method RevokeTokensBySession(session: Id)
      modifies this
      ensures db == SessionKilled(old(db), session)
      ensures SessionDies(old(db), db, session)
    {
      SessionKilledRows(db, session);
      db := RevokeSessionAccess(db, session);
      db := RevokeSessionRefresh(db, session);
    }

    /** Revokes exactly the tokens that carry a replayed code. */
    method RevokeTokensFromAuthCode(code: Id)
      modifies this
      ensures db == ReplayAnswered(old(db), code)
      ensures db == old(db).(refresh := db.refresh, access := db.access)
      ensures RefreshDies(old(db), db, (row: RefreshRow) => row.authCodeId == Some(code))
      ensures AccessDies(old(db), db, (row: AccessRow) => row.authCodeId == Some(code))
    {
      db := RevokeCodeAccess(db, code);
      db := RevokeCodeRefresh(db, code);
    }

    // -------------------------------------------------------------------
    // Issuing
    // -------------------------------------------------------------------

    method IssueAccessToken(row: AccessRow) returns (id: Id)
      modifies this
      ensures db == InsertAccess(old(db), row) && id == old(db).nextId
    {
      id := db.nextId;
      db := db.(access := db.access[id := row], nextId := id + 1);
    }

    /** A refresh token; without a family it founds one. */
    method IssueRefreshToken(row: RefreshRow) returns (id: Id, family: Id)
      modifies this
      ensures db == IssueRefresh(old(db), row)
      ensures id in db.refresh && db.refresh[id] == row.(familyId := Some(family))
      ensures row.familyId.Some? ==> family == row.familyId.value
      ensures row.familyId.None? ==> family == old(db).nextId
    {
      family := if row.familyId.Some? then row.familyId.value else db.nextId;
      id := db.nextId + 1;
      var issued := row.(familyId := Some(family));
      db := db.(refresh := db.refresh[id := issued], nextId := db.nextId + 2);
    }

    // -------------------------------------------------------------------
    // Grants
    // -------------------------------------------------------------------

    method RefreshTokenGrant(presented: Id, client: Id, tenant: Id, input: Input) returns (outcome: Outcome)
      modifies this
      ensures (db, outcome) == Complete(old(db), RefreshLookup(presented, client, tenant), input)
    {
      hide *;
      ghost var before := db;
      if presented !in db.refresh || db.refresh[presented].clientId != Some(client)
          || db.refresh[presented].tenantId != tenant {
        UnknownTokenRuns(db, presented, client, tenant, input);
        return Denied;
      }
      var rt := db.refresh[presented];
      PresentsIs(db, presented, client, tenant, input);
      if rt.revoked {
        ReuseAnswer(db, rt);
        if rt.familyId.Some? {
          db := RevokeFamily(db, rt.familyId.value, tenant);
        }
        if rt.sessionId.Some? {
          RevokeTokensBySession(rt.sessionId.value);
        }
        ReuseRuns(before, presented, client, tenant, input);
        return Denied;
      }
      if rt.expiresAt < input.now || !input.userOk {
        UnusableDenied(db, presented, client, tenant, input);
        return Denied;
      }
      RotationRuns(db, presented, client, tenant, input);
      db := RevokeRefreshById(db, presented);
      RotatedDb(before, presented, rt, input.now);
      var id, family := IssueRefreshToken(Successor(rt, input.now));
      outcome := FinishRefresh(rt, input);
    }

    /** The second half of the refresh grant: the session's risk, then the access token. */
    method FinishRefresh(rt: RefreshRow, input: Input) returns (outcome: Outcome)
      modifies this
      ensures (db, outcome) == Complete(old(db), AfterSession(old(db), rt, input.risk), input)
    {
      hide Complete, SessionKilled, InsertAccess, UpdateSession, RefreshedAccess;
      ghost var before := db;
      if rt.sessionId.Some? && rt.sessionId.value in db.sessions && !input.risk.Off? {
        var session := rt.sessionId.value;
        var row := db.sessions[session];
        var score := input.risk.score;
        if input.risk.Enforce? && row.riskScore.Some? && score - row.riskScore.value >= RISK_JUMP {
          JumpRuns(db, rt, input);
          RevokeTokensBySession(session);
          SessionsKept(before, session);
          db := UpdateSession(db, session, row.(terminatedAt := Some(input.now), riskScore := Some(score)));
          return Denied;
        }
        CompleteStep(db, UpdateRisk(rt, session, score), input);
        db := UpdateSession(db, session, row.(riskScore := Some(score)));
      }
      CompleteStep(db, InsertRefreshedAccess(rt), input);
      var id := IssueAccessToken(RefreshedAccess(rt, input.now));
      DoneRuns(db, Issued, input);
      return Issued;
    }

    method AuthorizationCodeGrant(code: Id, client: Id, tenant: Id, redirectUri: string, input: Input)
        returns (outcome: Outcome)
      modifies this
      ensures (db, outcome) == Complete(old(db), ClaimCode(code, client, tenant, redirectUri), input)
    {
      hide Complete, ReplayAnswered, UseCode, InsertAccess, IssueRefresh, CodeMint, AccessFor, RefreshFor;
      CompleteStep(db, ClaimCode(code, client, tenant, redirectUri), input);
      if !ClaimsCode(db, code, client, tenant, redirectUri) {
        CompleteStep(db, FindReplay(code, tenant), input);
        if code in db.codes && db.codes[code].tenantId == tenant && db.codes[code].used {
          ReplayRuns(db, code, client, tenant, redirectUri, input);
          RevokeTokensFromAuthCode(code);
        } else {
          DoneRuns(db, Denied, input);
        }
        return Denied;
      }
      var row := db.codes[code];
      db := UseCode(db, code);
      DoneRuns(db, Denied, input);
      if row.expiresAt < input.now || (row.challenged && !input.checksOk) || !input.userOk {
        return Denied;
      }
      CompleteStep(db, FindSession(code, row), input);
      if !input.checksOk {
        return Denied;
      }
      var mint := CodeMint(db, code, row);
      outcome := MintTokens(mint, input);
    }

    method MintTokens(mint: Mint, input: Input) returns (outcome: Outcome)
      modifies this
      ensures (db, outcome) == Complete(old(db), MintAccess(mint), input)
    {
      hide Complete, InsertAccess, IssueRefresh, AccessFor, RefreshFor;
      CompleteStep(db, MintAccess(mint), input);
      var access := IssueAccessToken(AccessFor(mint, input.now));
      CompleteStep(db, MintRefresh(mint), input);
      var refresh, family := IssueRefreshToken(RefreshFor(mint, input.now));
      DoneRuns(db, Issued, input);
      return Issued;
    }

    // -------------------------------------------------------------------
    // The revocation endpoint
    // -------------------------------------------------------------------

    method HandleRevoke(token: Id, isAccess: bool, client: Id, tenant: Id, input: Input) returns (outcome: Outcome)
      modifies this
      ensures (db, outcome) == Complete(old(db), RevokeLookup(token, isAccess, client, tenant), input)
    {
      hide Complete, RevokeAccessById, RevokeRefreshById, SessionKilled, RevokeFamily;
      if isAccess {
        CompleteStep(db, RevokeLookup(token, true, client, tenant), input);
        if token in db.access && db.access[token].tenantId == tenant && db.access[token].clientId == client {
          CompleteStep(db, RevokeAccessToken(token), input);
          db := RevokeAccessById(db, token);
        }
        DoneRuns(db, Acknowledged, input);
      } else if token in db.refresh && db.refresh[token].tenantId == tenant
          && db.refresh[token].clientId == Some(client) {
        var rt := db.refresh[token];
        RevokeRuns(db, token, client, tenant, input);
        db := RevokeRefreshById(db, token);
        if rt.sessionId.Some? {
          RevokeTokensBySession(rt.sessionId.value);
        } else if rt.familyId.Some? {
          db := RevokeFamily(db, rt.familyId.value, tenant);
        }
      } else {
        ForeignRevokeIsSilent(db, token, false, client, tenant, input);
      }
      return Acknowledged;
    }
  }

  lemma UnknownTokenRuns(db: Db, presented: Id, client: Id, tenant: Id, input: Input)
    requires presented !in db.refresh || db.refresh[presented].clientId != Some(client)
        || db.refresh[presented].tenantId != tenant
    ensures Complete(db, RefreshLookup(presented, client, tenant), input) == (db, Denied)
  {
    UnusableDenied(db, presented, client, tenant, input);
    hide Complete;
  }

  lemma PresentsIs(db: Db, presented: Id, client: Id, tenant: Id, input: Input)
    requires presented in db.refresh && db.refresh[presented].clientId == Some(client)
        && db.refresh[presented].tenantId == tenant
    ensures Presents(db, presented, client, tenant)
    ensures Usable(db, presented, client, tenant, input) <==>
      !db.refresh[presented].revoked && !(db.refresh[presented].expiresAt < input.now) && input.userOk
  {
  }

  lemma ReuseAnswer(db: Db, rt: RefreshRow)
    ensures
      var killed := if rt.familyId.Some? then RevokeFamily(db, rt.familyId.value, rt.tenantId) else db;
      ReuseAnswered(db, rt) == if rt.sessionId.Some? then SessionKilled(killed, rt.sessionId.value) else killed
  {
  }

  lemma RotatedDb(db: Db, presented: Id, rt: RefreshRow, now: nat)
    ensures Rotated(db, presented, rt, now) == IssueRefresh(RevokeRefreshById(db, presented), Successor(rt, now))
  {
  }

  lemma SessionsKept(db: Db, session: Id)
    ensures SessionKilled(db, session).sessions == db.sessions
  {
  }
}
