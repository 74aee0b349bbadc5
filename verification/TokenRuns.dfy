/**
  Every handler that touches the token tables, as a program of single
  statements: `Step` runs one statement and says where the handler is next.
  `Complete` runs a handler to its end without interruption.
 */
module TokenRuns {
  import opened Options
  import opened TokenTables

  datatype Outcome = Issued | Denied | Acknowledged

  /** A token pair to be minted for a redeemed authorization or device code. */
  datatype Mint = Mint(userId: Id, clientId: Id, tenantId: Id, scope: string, sessionId: Option<Id>,
                       authCodeId: Option<Id>)

  /** What follows revokeTokensBySession: the answer, or the termination of a session whose risk jumped. */
  datatype Tail = Answer(outcome: Outcome) | EndSession(score: int)

  /** Where a handler stands: its next statement, with the values it has read so far. */
  datatype Pc =
    // refresh_token grant
    | RefreshLookup(presented: Id, client: Id, tenant: Id)
    | ReuseDetected(rt: RefreshRow)
    | ClaimRefresh(id: Id, rt: RefreshRow)
    | InsertSuccessor(rt: RefreshRow)
    | ReadSession(rt: RefreshRow)
    | UpdateRisk(rt: RefreshRow, session: Id, score: int)
    | InsertRefreshedAccess(rt: RefreshRow)
    // revokeTokensBySession, and the risk-jump termination after it
    | KillAccess(session: Id, next: Tail)
    | KillRefresh(session: Id, next: Tail)
    | Terminate(session: Id, score: int)
    // authorization_code grant
    | ClaimCode(code: Id, client: Id, tenant: Id, redirectUri: string)
    | FindReplay(code: Id, tenant: Id)
    | KillCodeAccess(code: Id)
    | KillCodeRefresh(code: Id)
    | FindSession(code: Id, row: CodeRow)
    // minting, also used by the device_code grant
    | MintAccess(mint: Mint)
    | MintRefresh(mint: Mint)
    // revocation endpoint
    | RevokeLookup(token: Id, isAccess: bool, client: Id, tenant: Id)
    | RevokeAccessToken(id: Id)
    | RevokeRefreshToken(id: Id, rt: RefreshRow)
    | RevokeWholeFamily(family: Id, tenant: Id)
    // first-party /api/auth/refresh
    | FirstPartyLookup(presented: Id)
    | FirstPartyAccess(id: Id, rt: RefreshRow)
    | FirstPartyRevoke(id: Id, rt: RefreshRow)
    | FirstPartyInsert(rt: RefreshRow)
    // password change and the like; the cleanup job
    | KillUserAccess(user: Id)
    | KillUserRefresh(user: Id)
    | CleanAccess(cutoff: nat)
    | CleanRefresh(cutoff: nat)
    | CleanCodes(cutoff: nat)
    | Done(outcome: Outcome)

  datatype Risk = Off | Shadow(score: int) | Enforce(score: int)

  /** What a handler learns outside the token tables: the clock, whether the user exists and is
      active, whether PKCE and proof checks pass, and the risk engine's mode and score. */
  datatype Input = Input(now: nat, userOk: bool, checksOk: bool, risk: Risk)

  const RISK_JUMP: int := 40

  /** Where a handler may start; the device_code grant mints without code and session. */
  predicate IsEntry(pc: Pc) {
    || pc.RefreshLookup? || pc.ClaimCode? || pc.RevokeLookup? || pc.FirstPartyLookup?
    || (pc.KillAccess? && pc.next == Answer(Acknowledged)) || pc.KillUserAccess? || pc.CleanAccess?
    || (pc.MintAccess? && pc.mint.authCodeId.None? && pc.mint.sessionId.None? && pc.mint.scope != "")
  }

  /** Every handler may start, with whatever it is called with. */
  lemma HandlersStart(a: Id, b: Id, c: Id, text: string, isAccess: bool, time: nat, mint: Mint)
    ensures IsEntry(RefreshLookup(a, b, c)) && IsEntry(ClaimCode(a, b, c, text)) && IsEntry(FirstPartyLookup(a))
    ensures IsEntry(RevokeLookup(a, isAccess, b, c)) && IsEntry(KillAccess(a, Answer(Acknowledged)))
    ensures IsEntry(KillUserAccess(a)) && IsEntry(CleanAccess(time))
    ensures mint.authCodeId == None && mint.sessionId == None && mint.scope != "" ==> IsEntry(MintAccess(mint))
  {
  }

  function AccessFor(mint: Mint, now: nat): AccessRow {
    AccessRow(mint.userId, mint.clientId, mint.tenantId, mint.scope, mint.sessionId, mint.authCodeId,
              now + ACCESS_TOKEN_MS, false)
  }

  function RefreshFor(mint: Mint, now: nat): RefreshRow {
    RefreshRow(mint.userId, Some(mint.clientId), mint.tenantId, mint.scope, None, mint.sessionId, mint.authCodeId,
               now + REFRESH_TOKEN_MS, false, false)
  }

  function RefreshedAccess(rt: RefreshRow, now: nat): AccessRow {
    AccessRow(rt.userId, if rt.clientId.Some? then rt.clientId.value else 0, rt.tenantId, ScopeOf(rt), rt.sessionId,
              None, now + ACCESS_TOKEN_MS, false)
  }

  /** After the session has been read: off, jump, or go on. */
  function AfterSession(db: Db, rt: RefreshRow, risk: Risk): Pc {
    if rt.sessionId.None? || rt.sessionId.value !in db.sessions || risk.Off? then InsertRefreshedAccess(rt)
    else
      var before := db.sessions[rt.sessionId.value].riskScore;
      if risk.Enforce? && before.Some? && risk.score - before.value >= RISK_JUMP
      then KillAccess(rt.sessionId.value, EndSession(risk.score))
      else UpdateRisk(rt, rt.sessionId.value, risk.score)
  }

  /** The session an authorization code was issued in. */
  function CodeSession(db: Db, row: CodeRow): Option<Id> {
    if row.sid.Some? && row.sid.value in db.sessions
        && db.sessions[row.sid.value].tenantId == row.tenantId then row.sid else None
  }

  function CodeMint(db: Db, code: Id, row: CodeRow): Mint {
    Mint(row.userId, row.clientId, row.tenantId, if row.scope == "" then "openid" else row.scope, CodeSession(db, row),
         Some(code))
  }

  /** One statement of the refresh grant's first half: lookup, reuse response, claim. */
  function RefreshLookupStep(db: Db, presented: Id, client: Id, tenant: Id, input: Input): Pc {
    if presented !in db.refresh || db.refresh[presented].clientId != Some(client)
        || db.refresh[presented].tenantId != tenant
    then Done(Denied)
    else
      var rt := db.refresh[presented];
      if rt.revoked then ReuseDetected(rt)
      else if rt.expiresAt < input.now || !input.userOk then Done(Denied)
      else ClaimRefresh(presented, rt)
  }

  function AfterReuse(rt: RefreshRow): Pc {
    if rt.sessionId.Some? then KillAccess(rt.sessionId.value, Answer(Denied)) else Done(Denied)
  }

  function RevokeLookupStep(db: Db, token: Id, isAccess: bool, client: Id, tenant: Id): Pc {
    if isAccess then
      if token in db.access && db.access[token].tenantId == tenant && db.access[token].clientId == client
      then RevokeAccessToken(token) else Done(Acknowledged)
    else
      if token in db.refresh && db.refresh[token].tenantId == tenant && db.refresh[token].clientId == Some(client)
      then RevokeRefreshToken(token, db.refresh[token]) else Done(Acknowledged)
  }

  function AfterRevoke(rt: RefreshRow): Pc {
    if rt.sessionId.Some? then KillAccess(rt.sessionId.value, Answer(Acknowledged))
    else if rt.familyId.Some? then RevokeWholeFamily(rt.familyId.value, rt.tenantId)
    else Done(Acknowledged)
  }

  /** Runs one statement. */
  function Step(db: Db, pc: Pc, input: Input): (Db, Pc) {
    match pc
    case RefreshLookup(presented, client, tenant) => (db, RefreshLookupStep(db, presented, client, tenant, input))
    case ReuseDetected(rt) =>
      (if rt.familyId.Some? then RevokeFamily(db, rt.familyId.value, rt.tenantId) else db, AfterReuse(rt))
    case ClaimRefresh(id, rt) =>
      if ClaimsRefresh(db, id) then (RevokeRefreshById(db, id), InsertSuccessor(rt)) else (db, Done(Denied))
    case InsertSuccessor(rt) => (IssueRefresh(db, Successor(rt, input.now)), ReadSession(rt))
    case ReadSession(rt) => (db, AfterSession(db, rt, input.risk))
    case UpdateRisk(rt, session, score) =>
      (if session in db.sessions then UpdateSession(db, session, db.sessions[session].(riskScore := Some(score)))
       else db, InsertRefreshedAccess(rt))
    case InsertRefreshedAccess(rt) => (InsertAccess(db, RefreshedAccess(rt, input.now)), Done(Issued))
    case KillAccess(session, next) => (RevokeSessionAccess(db, session), KillRefresh(session, next))
    case KillRefresh(session, next) =>
      (RevokeSessionRefresh(db, session),
       match next case Answer(outcome) => Done(outcome) case EndSession(score) => Terminate(session, score))
    case Terminate(session, score) =>
      (if session in db.sessions
       then UpdateSession(db, session, db.sessions[session].(terminatedAt := Some(input.now), riskScore := Some(score)))
       else db,
       Done(Denied))
    case ClaimCode(code, client, tenant, redirectUri) =>
      if ClaimsCode(db, code, client, tenant, redirectUri)
      then (UseCode(db, code), if || db.codes[code].expiresAt < input.now
                                  || (db.codes[code].challenged && !input.checksOk)
                                  || !input.userOk
                               then Done(Denied) else FindSession(code, db.codes[code]))
      else (db, FindReplay(code, tenant))
    case FindReplay(code, tenant) =>
      (db, if code in db.codes && db.codes[code].tenantId == tenant && db.codes[code].used
           then KillCodeAccess(code) else Done(Denied))
    case KillCodeAccess(code) => (RevokeCodeAccess(db, code), KillCodeRefresh(code))
    case KillCodeRefresh(code) => (RevokeCodeRefresh(db, code), Done(Denied))
    case FindSession(code, row) => (db, if input.checksOk then MintAccess(CodeMint(db, code, row)) else Done(Denied))
    case MintAccess(mint) => (InsertAccess(db, AccessFor(mint, input.now)), MintRefresh(mint))
    case MintRefresh(mint) => (IssueRefresh(db, RefreshFor(mint, input.now)), Done(Issued))
    case RevokeLookup(token, isAccess, client, tenant) => (db, RevokeLookupStep(db, token, isAccess, client, tenant))
    case RevokeAccessToken(id) => (RevokeAccessById(db, id), Done(Acknowledged))
    case RevokeRefreshToken(id, rt) => (RevokeRefreshById(db, id), AfterRevoke(rt))
    case RevokeWholeFamily(family, tenant) => (RevokeFamily(db, family, tenant), Done(Acknowledged))
    case FirstPartyLookup(presented) =>
      (db, if ClaimsRefresh(db, presented) && input.userOk
           then FirstPartyAccess(presented, db.refresh[presented]) else Done(Denied))
    case FirstPartyAccess(id, rt) =>
      (InsertAccess(db, AccessRow(rt.userId, if rt.clientId.Some? then rt.clientId.value else 0, rt.tenantId, "openid",
                                  None, None, input.now + ACCESS_TOKEN_MS, false)), FirstPartyRevoke(id, rt))
    case FirstPartyRevoke(id, rt) => (RevokeRefreshById(db, id), FirstPartyInsert(rt))
    case FirstPartyInsert(rt) =>
      (InsertPlainRefresh(db, Successor(rt, input.now).(scope := "openid", familyId := None, sessionId := None)),
       Done(Issued))
    case KillUserAccess(user) => (RevokeUserAccess(db, user), KillUserRefresh(user))
    case KillUserRefresh(user) => (RevokeUserRefresh(db, user), Done(Acknowledged))
    case CleanAccess(cutoff) => (DeleteExpiredAccess(db, cutoff), CleanRefresh(cutoff))
    case CleanRefresh(cutoff) => (DeleteExpiredRefresh(db, cutoff), CleanCodes(cutoff))
    case CleanCodes(cutoff) => (DeleteExpiredCodes(db, cutoff), Done(Acknowledged))
    case Done(_) => (db, pc)
  }

  /** How many statements are left, at most. */
  function Remaining(pc: Pc): nat {
    match pc
    case RefreshLookup(_, _, _) => 9
    case ClaimRefresh(_, _) => 8
    case InsertSuccessor(_) => 7
    case ReadSession(_) => 6
    case UpdateRisk(_, _, _) => 2
    case InsertRefreshedAccess(_) => 1
    case ReuseDetected(_) => 5
    case KillAccess(_, _) => 4
    case KillRefresh(_, _) => 3
    case Terminate(_, _) => 1
    case ClaimCode(_, _, _, _) => 6
    case FindReplay(_, _) => 5
    case KillCodeAccess(_) => 4
    case KillCodeRefresh(_) => 3
    case FindSession(_, _) => 3
    case MintAccess(_) => 2
    case MintRefresh(_) => 1
    case RevokeLookup(_, _, _, _) => 7
    case RevokeAccessToken(_) => 1
    case RevokeRefreshToken(_, _) => 6
    case RevokeWholeFamily(_, _) => 1
    case FirstPartyLookup(_) => 4
    case FirstPartyAccess(_, _) => 3
    case FirstPartyRevoke(_, _) => 2
    case FirstPartyInsert(_) => 1
    case KillUserAccess(_) => 2
    case KillUserRefresh(_) => 1
    case CleanAccess(_) => 3
    case CleanRefresh(_) => 2
    case CleanCodes(_) => 1
    case Done(_) => 0
  }

  /** Every statement brings its handler closer to the answer. */
  lemma StepProgresses(db: Db, pc: Pc, input: Input)
    requires !pc.Done?
    ensures Remaining(Step(db, pc, input).1) < Remaining(pc)
  {
    if Branches(pc) {
      BranchProgresses(db, pc, input);
    } else {
      StraightProgresses(db, pc, input);
    }
    hide *;
  }

  /** Statements after which the handler goes more than one way. */
  predicate Branches(pc: Pc) {
    || pc.RefreshLookup? || pc.ReuseDetected? || pc.ClaimRefresh? || pc.ReadSession? || pc.KillRefresh? || pc.ClaimCode?
    || pc.FindReplay? || pc.FindSession? || pc.RevokeLookup? || pc.RevokeRefreshToken? || pc.FirstPartyLookup?
  }

  lemma BranchProgresses(db: Db, pc: Pc, input: Input)
    requires Branches(pc)
    ensures Remaining(Step(db, pc, input).1) < Remaining(pc)
  {
    hide RevokeFamily, RevokeSessionRefresh, RevokeRefreshById, UseCode, ClaimsRefresh, ClaimsCode;
  }

  lemma StraightProgresses(db: Db, pc: Pc, input: Input)
    requires !pc.Done? && !Branches(pc)
    ensures Remaining(Step(db, pc, input).1) < Remaining(pc)
  {
    hide RevokeSessionAccess, RevokeCodeAccess, RevokeCodeRefresh, RevokeAccessById, RevokeFamily, RevokeRefreshById,
         RevokeUserAccess, RevokeUserRefresh, IssueRefresh, InsertPlainRefresh, InsertAccess, UpdateSession,
         DeleteExpiredAccess, DeleteExpiredRefresh, DeleteExpiredCodes;
  }

  /** The handler run to its end with nothing in between. */
  function Complete(db: Db, pc: Pc, input: Input): (r: (Db, Outcome))
    decreases Remaining(pc)
  {
    match pc
    case Done(outcome) => (db, outcome)
    case _ =>
      StepProgresses(db, pc, input);
      var (db', pc') := Step(db, pc, input);
      Complete(db', pc', input)
  }
}
