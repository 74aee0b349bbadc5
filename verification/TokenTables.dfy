/**
  The OAuth token tables and the single SQL statements the handlers run on them.
  A row's id also stands for its random token, code or sid; ids are fresh. A
  statement is atomic; everything between two statements may interleave.
 */
module TokenTables {
  import opened Options

  type Id = nat

  datatype RefreshRow = RefreshRow(
    userId: Id, clientId: Option<Id>, tenantId: Id, scope: string,
    familyId: Option<Id>, sessionId: Option<Id>, authCodeId: Option<Id>,
    expiresAt: nat, rememberMe: bool, revoked: bool
  )

  datatype AccessRow = AccessRow(
    userId: Id, clientId: Id, tenantId: Id, scope: string,
    sessionId: Option<Id>, authCodeId: Option<Id>, expiresAt: nat, revoked: bool
  )

  datatype CodeRow = CodeRow(
    clientId: Id, userId: Id, tenantId: Id, redirectUri: string, expiresAt: nat, used: bool, scope: string,
    challenged: bool, sid: Option<Id>
  )

  datatype SessionRow = SessionRow(
    browserSessionId: Id, userId: Id, clientId: Id, tenantId: Id, terminatedAt: Option<nat>, riskScore: Option<int>
  )

  datatype Db = Db(
    refresh: map<Id, RefreshRow>,
    access: map<Id, AccessRow>,
    codes: map<Id, CodeRow>,
    sessions: map<Id, SessionRow>,
    nextId: Id
  )

  const ACCESS_TOKEN_MS: nat := 15 * 60 * 1000
  const REFRESH_TOKEN_MS: nat := 7 * 24 * 60 * 60 * 1000
  const REMEMBER_ME_MS: nat := 30 * 24 * 60 * 60 * 1000

  // ---------------------------------------------------------------------
  // UPDATE ... SET revoked = true WHERE ...
  // ---------------------------------------------------------------------

  function RevokeRefresh(db: Db, matches: (Id, RefreshRow) -> bool): (after: Db)
    ensures OnlyDies(db, after)
    ensures after.access == db.access && after.codes == db.codes && after.sessions == db.sessions
  {
    db.(refresh := map id | id in db.refresh ::
          if matches(id, db.refresh[id]) then db.refresh[id].(revoked := true) else db.refresh[id])
  }

  function RevokeAccess(db: Db, matches: (Id, AccessRow) -> bool): (after: Db)
    ensures OnlyDies(db, after)
    ensures after.refresh == db.refresh && after.codes == db.codes && after.sessions == db.sessions
  {
    db.(access := map id | id in db.access ::
          if matches(id, db.access[id]) then db.access[id].(revoked := true) else db.access[id])
  }

  function RevokeFamily(db: Db, family: Id, tenant: Id): Db {
    RevokeRefresh(db, (_, row: RefreshRow) => row.familyId == Some(family) && row.tenantId == tenant)
  }

  /** The two statements of revokeTokensBySession. */
  function RevokeSessionAccess(db: Db, session: Id): Db {
    RevokeAccess(db, (_, row: AccessRow) => row.sessionId == Some(session))
  }

  function RevokeSessionRefresh(db: Db, session: Id): Db {
    RevokeRefresh(db, (_, row: RefreshRow) => row.sessionId == Some(session))
  }

  /** The two statements of revokeTokensFromAuthCode. */
  function RevokeCodeAccess(db: Db, code: Id): Db {
    RevokeAccess(db, (_, row: AccessRow) => row.authCodeId == Some(code))
  }

  function RevokeCodeRefresh(db: Db, code: Id): Db {
    RevokeRefresh(db, (_, row: RefreshRow) => row.authCodeId == Some(code))
  }

  function RevokeRefreshById(db: Db, token: Id): Db {
    RevokeRefresh(db, (id, _) => id == token)
  }

  /** revokeToken */
  function RevokeAccessById(db: Db, token: Id): Db {
    RevokeAccess(db, (id, _) => id == token)
  }

  /** The two statements of a password change, account disabling or admin session removal. */
  function RevokeUserAccess(db: Db, user: Id): Db {
    RevokeAccess(db, (_, row: AccessRow) => row.userId == user)
  }

  function RevokeUserRefresh(db: Db, user: Id): Db {
    RevokeRefresh(db, (_, row: RefreshRow) => row.userId == user)
  }

  // ---------------------------------------------------------------------
  // Claims
  // ---------------------------------------------------------------------

  /** UPDATE ... SET revoked = true WHERE id = ? AND revoked = false RETURNING: does it return a row? */
  predicate ClaimsRefresh(db: Db, token: Id) {
    token in db.refresh && !db.refresh[token].revoked
  }

  /** UPDATE auth_codes SET used = true WHERE code, client, tenant, redirect_uri AND used = false RETURNING. */
  predicate ClaimsCode(db: Db, code: Id, client: Id, tenant: Id, redirectUri: string) {
    && code in db.codes
    && var row := db.codes[code];
    && row.clientId == client && row.tenantId == tenant && row.redirectUri == redirectUri && !row.used
  }

  function UseCode(db: Db, code: Id): Db
    requires code in db.codes
  {
    db.(codes := db.codes[code := db.codes[code].(used := true)])
  }

  // ---------------------------------------------------------------------
  // INSERT
  // ---------------------------------------------------------------------

  /** issueRefreshToken: a missing family is minted here. */
  function IssueRefresh(db: Db, row: RefreshRow): Db {
    var withFamily := if row.familyId.Some? then row else row.(familyId := Some(db.nextId));
    var id := db.nextId + 1;
    db.(refresh := db.refresh[id := withFamily], nextId := db.nextId + 2)
  }

  /** A refresh row inserted without a family (first-party login and refresh). */
  function InsertPlainRefresh(db: Db, row: RefreshRow): Db {
    db.(refresh := db.refresh[db.nextId := row], nextId := db.nextId + 1)
  }

  function InsertAccess(db: Db, row: AccessRow): Db {
    db.(access := db.access[db.nextId := row], nextId := db.nextId + 1)
  }

  function InsertCode(db: Db, row: CodeRow): Db {
    db.(codes := db.codes[db.nextId := row], nextId := db.nextId + 1)
  }

  function InsertSession(db: Db, row: SessionRow): Db {
    db.(sessions := db.sessions[db.nextId := row], nextId := db.nextId + 1)
  }

  function UpdateSession(db: Db, session: Id, row: SessionRow): Db {
    if session in db.sessions then db.(sessions := db.sessions[session := row]) else db
  }

  /** What rotation keeps of a refresh token: everything but the link to the authorization code. */
  function Successor(rt: RefreshRow, now: nat): RefreshRow {
    rt.(scope := ScopeOf(rt), authCodeId := None, revoked := false,
        expiresAt := now + if rt.rememberMe then REMEMBER_ME_MS else REFRESH_TOKEN_MS)
  }

  /** rtRecord.scope || 'openid' */
  function ScopeOf(rt: RefreshRow): string {
    if rt.scope == "" then "openid" else rt.scope
  }

  // ---------------------------------------------------------------------
  // DELETE: the cleanup job
  // ---------------------------------------------------------------------

  function DeleteExpiredAccess(db: Db, cutoff: nat): (after: Db)
    ensures OnlyDies(db, after) && after.codes == db.codes
  {
    db.(access := map id | id in db.access && !(db.access[id].expiresAt < cutoff) :: db.access[id])
  }

  function DeleteExpiredRefresh(db: Db, cutoff: nat): (after: Db)
    ensures OnlyDies(db, after) && after.codes == db.codes
  {
    db.(refresh := map id | id in db.refresh
        && !(db.refresh[id].expiresAt < cutoff && db.refresh[id].revoked) :: db.refresh[id])
  }

  function DeleteExpiredCodes(db: Db, cutoff: nat): Db {
    db.(codes := map id | id in db.codes && !(db.codes[id].expiresAt < cutoff) :: db.codes[id])
  }

  // ---------------------------------------------------------------------
  // Reading the tables
  // ---------------------------------------------------------------------

  /** The unrevoked refresh tokens of a family. */
  function LiveFamily(db: Db, family: Id): set<Id> {
    set id | id in db.refresh && db.refresh[id].familyId == Some(family) && !db.refresh[id].revoked
  }

  function LiveSessionAccess(db: Db, session: Id): set<Id> {
    set id | id in db.access && db.access[id].sessionId == Some(session) && !db.access[id].revoked
  }

  function LiveSessionRefresh(db: Db, session: Id): set<Id> {
    set id | id in db.refresh && db.refresh[id].sessionId == Some(session) && !db.refresh[id].revoked
  }

  /** Rows may lose life and disappear, but change in no other way and none appears. */
  ghost predicate OnlyDies(before: Db, after: Db) {
    && (forall id :: id in after.refresh ==>
          id in before.refresh && SameToken(before.refresh[id], after.refresh[id])
          && (before.refresh[id].revoked ==> after.refresh[id].revoked))
    && (forall id :: id in after.access ==>
          id in before.access && SameAccess(before.access[id], after.access[id])
          && (before.access[id].revoked ==> after.access[id].revoked))
    && after.nextId == before.nextId
  }

  /** Equal but for `revoked`. */
  predicate SameToken(a: RefreshRow, b: RefreshRow) {
    a.(revoked := true) == b.(revoked := true)
  }

  predicate SameAccess(a: AccessRow, b: AccessRow) {
    a.(revoked := true) == b.(revoked := true)
  }
}
