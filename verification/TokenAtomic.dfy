/**
  What one handler, run without interruption, leaves in the token tables: reuse
  detection, rotation, the risk jump, revocation and the replay of a code.
 */
module TokenAtomic {
  import opened Options
  import opened TokenTables
  import opened TokenRuns
  import opened TokenWorld
  import opened TokenInvariants

  // ---------------------------------------------------------------------
  // Running to the end
  // ---------------------------------------------------------------------

  lemma CompleteStep(db: Db, pc: Pc, input: Input)
    requires !pc.Done?
    ensures Complete(db, pc, input) == Complete(Step(db, pc, input).0, Step(db, pc, input).1, input)
  {
    hide Step;
  }

  /** The end of revokeTokensBySession: nothing live is linked to the session. */
  function SessionKilled(db: Db, session: Id): Db {
    RevokeSessionRefresh(RevokeSessionAccess(db, session), session)
  }

  function SessionEnded(db: Db, session: Id, now: nat, score: int): Db {
    if session in db.sessions
    then UpdateSession(db, session, db.sessions[session].(terminatedAt := Some(now), riskScore := Some(score))) else db
  }

  lemma KillSessionRuns(db: Db, session: Id, next: Tail, input: Input)
    ensures Complete(db, KillAccess(session, next), input)
         == match next
            case Answer(outcome) => (SessionKilled(db, session), outcome)
            case EndSession(score) => (SessionEnded(SessionKilled(db, session), session, input.now, score), Denied)
  {
    hide RevokeSessionAccess, RevokeSessionRefresh, UpdateSession, Complete;
    var db1 := RevokeSessionAccess(db, session);
    CompleteStep(db, KillAccess(session, next), input);
    CompleteStep(db1, KillRefresh(session, next), input);
    match next
    case Answer(outcome) => DoneRuns(SessionKilled(db, session), outcome, input);
    case EndSession(score) =>
      CompleteStep(SessionKilled(db, session), Terminate(session, score), input);
      DoneRuns(SessionEnded(SessionKilled(db, session), session, input.now, score), Denied, input);
  }

  lemma DoneRuns(db: Db, outcome: Outcome, input: Input)
    ensures Complete(db, Done(outcome), input) == (db, outcome)
  {
  }

  /** Every refresh row under the session, or of the family, is revoked, and no other row of any table changes. */
  ghost predicate RefreshDies(before: Db, after: Db, doomed: RefreshRow -> bool) {
    && after.refresh.Keys == before.refresh.Keys
    && forall id :: id in before.refresh ==>
         after.refresh[id] == (if doomed(before.refresh[id]) then before.refresh[id].(revoked := true)
                               else before.refresh[id])
  }

  ghost predicate AccessDies(before: Db, after: Db, doomed: AccessRow -> bool) {
    && after.access.Keys == before.access.Keys
    && forall id :: id in before.access ==>
         after.access[id] == (if doomed(before.access[id]) then before.access[id].(revoked := true)
                              else before.access[id])
  }

  /** Exactly the rows under the session are revoked. */
  ghost predicate SessionDies(before: Db, after: Db, session: Id) {
    && after == before.(refresh := after.refresh, access := after.access)
    && RefreshDies(before, after, (row: RefreshRow) => row.sessionId == Some(session))
    && AccessDies(before, after, (row: AccessRow) => row.sessionId == Some(session))
  }

  lemma SessionKilledRows(db: Db, session: Id)
    ensures SessionDies(db, SessionKilled(db, session), session)
  {
  }

  /** revokeTokensBySession leaves nothing alive under the session and touches no other row. */
  lemma SessionKilledIsDead(db: Db, session: Id)
    ensures SessionDies(db, SessionKilled(db, session), session)
    ensures LiveSessionAccess(SessionKilled(db, session), session) == {}
    ensures LiveSessionRefresh(SessionKilled(db, session), session) == {}
  {
    SessionKilledRows(db, session);
    hide SessionKilled;
  }

  /** The family's revocation reaches no row of another tenant, whatever the table holds. */
  lemma FamilyRevocationRows(db: Db, family: Id, tenant: Id)
    ensures RefreshDies(db, RevokeFamily(db, family, tenant),
                        (row: RefreshRow) => row.familyId == Some(family) && row.tenantId == tenant)
  {
  }

  lemma FamilyRevokedIsDead(db: Db, family: Id, tenant: Id)
    requires forall id :: id in db.refresh && db.refresh[id].familyId == Some(family) ==>
        db.refresh[id].tenantId == tenant
    ensures
      var db' := RevokeFamily(db, family, tenant);
      && db' == db.(refresh := db'.refresh)
      && RefreshDies(db, db', (row: RefreshRow) => row.familyId == Some(family))
  {
  }

  /** A family lives in one tenant and under one session. */
  lemma FamilyMates(w: World, token: Id, family: Id)
    requires Inv(w) && token in w.db.refresh && w.db.refresh[token].familyId == Some(family)
    ensures forall id :: id in w.db.refresh && w.db.refresh[id].familyId == Some(family) ==>
      ProfileOf(w.db.refresh[id]) == ProfileOf(w.db.refresh[token])
  {
    assert FamilyOk(w, w.db.refresh[token]);
    forall id | id in w.db.refresh && w.db.refresh[id].familyId == Some(family)
      ensures ProfileOf(w.db.refresh[id]) == ProfileOf(w.db.refresh[token])
    {
      assert FamilyOk(w, w.db.refresh[id]);
    }
  }

  // ---------------------------------------------------------------------
  // The refresh grant
  // ---------------------------------------------------------------------

  /** The lookup finds the token for this client and tenant. */
  predicate Presents(db: Db, presented: Id, client: Id, tenant: Id) {
    presented in db.refresh && db.refresh[presented].clientId == Some(client)
        && db.refresh[presented].tenantId == tenant
  }

  predicate Usable(db: Db, presented: Id, client: Id, tenant: Id, input: Input) {
    && Presents(db, presented, client, tenant) && !db.refresh[presented].revoked
    && input.now <= db.refresh[presented].expiresAt && input.userOk
  }

  /** The session's recorded score and the new one are at least 40 apart, and the engine enforces. */
  predicate Jumps(db: Db, rt: RefreshRow, risk: Risk) {
    && rt.sessionId.Some? && rt.sessionId.value in db.sessions && risk.Enforce?
    && db.sessions[rt.sessionId.value].riskScore.Some?
    && risk.score - db.sessions[rt.sessionId.value].riskScore.value >= 40
  }

  function ReuseAnswered(db: Db, rt: RefreshRow): Db {
    var killed := if rt.familyId.Some? then RevokeFamily(db, rt.familyId.value, rt.tenantId) else db;
    if rt.sessionId.Some? then SessionKilled(killed, rt.sessionId.value) else killed
  }

  lemma ReuseRuns(db: Db, presented: Id, client: Id, tenant: Id, input: Input)
    requires Presents(db, presented, client, tenant) && db.refresh[presented].revoked
    ensures Complete(db, RefreshLookup(presented, client, tenant), input)
        == (ReuseAnswered(db, db.refresh[presented]), Denied)
  {
    hide RevokeFamily, SessionKilled, Complete;
    var rt := db.refresh[presented];
    CompleteStep(db, RefreshLookup(presented, client, tenant), input);
    CompleteStep(db, ReuseDetected(rt), input);
    var killed := if rt.familyId.Some? then RevokeFamily(db, rt.familyId.value, rt.tenantId) else db;
    if rt.sessionId.Some? {
      KillSessionRuns(killed, rt.sessionId.value, Answer(Denied), input);
    } else {
      DoneRuns(killed, Denied, input);
    }
  }

  predicate SharesFamilyOrSession(row: RefreshRow, rt: RefreshRow) {
    (rt.familyId.Some? && row.familyId == rt.familyId) || (rt.sessionId.Some? && row.sessionId == rt.sessionId)
  }

  /** Exactly these rows are revoked: the token, whatever shares its family or session, and the access tokens under its
      session. */
  ghost predicate Killed(before: Db, after: Db, token: Id)
    requires token in before.refresh
  {
    var rt := before.refresh[token];
    && after == before.(refresh := after.refresh, access := after.access)
    && after.refresh.Keys == before.refresh.Keys && after.access.Keys == before.access.Keys
    && (forall id :: id in before.refresh ==>
          after.refresh[id] == (if id == token || SharesFamilyOrSession(before.refresh[id], rt)
                                then before.refresh[id].(revoked := true) else before.refresh[id]))
    && (forall id :: id in before.access ==>
          after.access[id] == (if rt.sessionId.Some? && before.access[id].sessionId == rt.sessionId
                               then before.access[id].(revoked := true) else before.access[id]))
  }

  /** Nothing of the token's family and nothing under its session is alive. */
  ghost predicate NothingLeft(db: Db, rt: RefreshRow) {
    && (rt.familyId.Some? ==> LiveFamily(db, rt.familyId.value) == {})
    && (rt.sessionId.Some? ==>
          LiveSessionAccess(db, rt.sessionId.value) == {} && LiveSessionRefresh(db, rt.sessionId.value) == {})
  }

  lemma KilledIsDead(before: Db, after: Db, token: Id)
    requires token in before.refresh && Killed(before, after, token)
    ensures NothingLeft(after, before.refresh[token])
  {
  }

  /** Presenting a rotated token kills its family and everything under its session, and nothing else. */
  lemma ReuseKillsFamilyAndSession(w: World, presented: Id, client: Id, tenant: Id, input: Input)
    requires Inv(w) && Presents(w.db, presented, client, tenant) && w.db.refresh[presented].revoked
    ensures
      var (db', outcome) := Complete(w.db, RefreshLookup(presented, client, tenant), input);
      outcome == Denied && Killed(w.db, db', presented) && NothingLeft(db', w.db.refresh[presented])
  {
    hide Inv, Complete, Killed, NothingLeft, ReuseAnswered;
    ReuseRuns(w.db, presented, client, tenant, input);
    var rt := w.db.refresh[presented];
    if rt.familyId.Some? { FamilyMates(w, presented, rt.familyId.value); }
    ReuseAnsweredIs(w.db, presented);
    KilledIsDead(w.db, ReuseAnswered(w.db, rt), presented);
  }

  lemma ReuseAnsweredIs(db: Db, presented: Id)
    requires presented in db.refresh && db.refresh[presented].revoked
    requires
      var rt := db.refresh[presented];
      rt.familyId.Some? ==> forall id :: id in db.refresh && db.refresh[id].familyId == rt.familyId ==>
          ProfileOf(db.refresh[id]) == ProfileOf(rt)
    ensures Killed(db, ReuseAnswered(db, db.refresh[presented]), presented)
  {
    hide RevokeFamily, SessionKilled, Killed, SessionDies;
    var rt := db.refresh[presented];
    var mid := if rt.familyId.Some? then RevokeFamily(db, rt.familyId.value, rt.tenantId) else db;
    if rt.familyId.Some? { FamilyRevokedIsDead(db, rt.familyId.value, rt.tenantId); }
    if rt.sessionId.Some? {
      SessionKilledRows(mid, rt.sessionId.value);
      KilledBySession(db, mid, SessionKilled(mid, rt.sessionId.value), presented);
    } else {
      KilledByFamily(db, mid, presented);
    }
  }

  /** Revoking what shares the session covers whatever of it was revoked before. */
  lemma KilledBySession(db: Db, mid: Db, after: Db, token: Id)
    requires token in db.refresh && db.refresh[token].sessionId.Some?
    requires forall id :: id in db.refresh && SharesFamilyOrSession(db.refresh[id], db.refresh[token]) ==>
      db.refresh[id].sessionId == db.refresh[token].sessionId
    requires mid == db.(refresh := mid.refresh) && mid.refresh.Keys == db.refresh.Keys
    requires forall id :: id in db.refresh ==>
      mid.refresh[id] == db.refresh[id]
      || (mid.refresh[id] == db.refresh[id].(revoked := true)
          && db.refresh[id].sessionId == db.refresh[token].sessionId)
    requires SessionDies(mid, after, db.refresh[token].sessionId.value)
    ensures Killed(db, after, token)
  {
  }

  lemma KilledByFamily(db: Db, after: Db, token: Id)
    requires token in db.refresh && db.refresh[token].sessionId.None?
    requires after == db.(refresh := after.refresh) && after.refresh.Keys == db.refresh.Keys
    requires forall id :: id in db.refresh ==>
      after.refresh[id] == (if id == token || SharesFamilyOrSession(db.refresh[id], db.refresh[token])
                            then db.refresh[id].(revoked := true) else db.refresh[id])
    ensures Killed(db, after, token)
  {
  }

  /** The tables between the successor's insert and the read of the session. */
  function Rotated(db: Db, presented: Id, rt: RefreshRow, now: nat): Db {
    IssueRefresh(RevokeRefreshById(db, presented), Successor(rt, now))
  }

  lemma RotationRuns(db: Db, presented: Id, client: Id, tenant: Id, input: Input)
    requires Usable(db, presented, client, tenant, input)
    ensures
      var rt := db.refresh[presented];
      Complete(db, RefreshLookup(presented, client, tenant), input)
      == Complete(Rotated(db, presented, rt, input.now),
                  AfterSession(Rotated(db, presented, rt, input.now), rt, input.risk), input)
  {
    hide Complete, IssueRefresh, RevokeRefreshById, AfterSession;
    var rt := db.refresh[presented];
    var claimed := RevokeRefreshById(db, presented);
    CompleteStep(db, RefreshLookup(presented, client, tenant), input);
    CompleteStep(db, ClaimRefresh(presented, rt), input);
    CompleteStep(claimed, InsertSuccessor(rt), input);
    CompleteStep(Rotated(db, presented, rt, input.now), ReadSession(rt), input);
  }

  /** The family the successor belongs to. */
  function SuccessorFamily(db: Db, rt: RefreshRow): Id {
    if rt.familyId.Some? then rt.familyId.value else db.nextId
  }

  /** A successor: the user, client, tenant, session and scope of the presented token, no code, for 7 or 30 days. */
  function SuccessorOf(rt: RefreshRow, family: Id, now: nat): RefreshRow {
    RefreshRow(rt.userId, rt.clientId, rt.tenantId, if rt.scope == "" then "openid" else rt.scope, Some(family),
               rt.sessionId, None, now + (if rt.rememberMe then 2_592_000_000 else 604_800_000), rt.rememberMe, false)
  }

  /** The access token beside it, for 15 minutes. */
  function AccessBeside(rt: RefreshRow, client: Id, now: nat): AccessRow {
    AccessRow(rt.userId, client, rt.tenantId, if rt.scope == "" then "openid" else rt.scope, rt.sessionId, None,
              now + 900_000, false)
  }

  /** The presented token is revoked, its successor is the family's one live token, and nothing else changes. */
  ghost predicate Handover(db: Db, presented: Id, now: nat, after: Db)
    requires presented in db.refresh
  {
    var rt := db.refresh[presented];
    && after.refresh.Keys == db.refresh.Keys + {db.nextId + 1}
    && after.refresh[db.nextId + 1] == SuccessorOf(rt, SuccessorFamily(db, rt), now)
    && after.refresh[presented] == rt.(revoked := true)
    && (forall id :: id in db.refresh && id != presented ==> after.refresh[id] == db.refresh[id])
    && LiveFamily(after, SuccessorFamily(db, rt)) == {db.nextId + 1}
  }

  lemma RotatedIs(w: World, presented: Id, now: nat)
    requires Inv(w) && ClaimsRefresh(w.db, presented)
    ensures
      var db' := Rotated(w.db, presented, w.db.refresh[presented], now);
      db' == w.db.(refresh := db'.refresh, nextId := w.db.nextId + 2) && Handover(w.db, presented, now, db')
  {
    hide Rotated, Inv, LiveFamily, SuccessorOf, SuccessorFamily;
    IdsBelow(w);
    NoOtherLive(w, presented);
    RotatedRows(w.db, presented, now);
    LiveAfterRotation(w.db, presented, now);
  }

  lemma IdsBelow(w: World)
    requires Inv(w)
    ensures forall id :: id in w.db.refresh ==> id < w.db.nextId
  {
  }

  lemma LiveAfterRotation(db: Db, presented: Id, now: nat)
    requires ClaimsRefresh(db, presented) && forall id :: id in db.refresh ==> id < db.nextId
    requires LiveFamily(db, SuccessorFamily(db, db.refresh[presented])) <= {presented}
    ensures LiveFamily(Rotated(db, presented, db.refresh[presented], now), SuccessorFamily(db, db.refresh[presented]))
        == {db.nextId + 1}
  {
    RotatedRows(db, presented, now);
    hide Rotated;
    var db' := Rotated(db, presented, db.refresh[presented], now);
    var f := SuccessorFamily(db, db.refresh[presented]);
    assert forall id :: id in LiveFamily(db', f) && id != db.nextId + 1 ==> id in LiveFamily(db, f);
  }

  lemma NoOtherLive(w: World, presented: Id)
    requires Inv(w) && ClaimsRefresh(w.db, presented)
    ensures LiveFamily(w.db, SuccessorFamily(w.db, w.db.refresh[presented])) <= {presented}
  {
    var rt := w.db.refresh[presented];
    var f := SuccessorFamily(w.db, rt);
    NobodyHoldsFresh(w);
    OneHolderOf(w);
    hide Inv;
    assert forall id :: id in LiveFamily(w.db, f) ==> Holds(w, Token(id), f);
    if rt.familyId.Some? {
      assert Holds(w, Token(presented), f);
    }
  }

  lemma OneHolderOf(w: World)
    requires Inv(w)
    ensures OneHolder(w)
  {
  }

  lemma RotatedRows(db: Db, presented: Id, now: nat)
    requires ClaimsRefresh(db, presented) && forall id :: id in db.refresh ==> id < db.nextId
    ensures
      var rt := db.refresh[presented];
      var db' := Rotated(db, presented, rt, now);
      && db' == db.(refresh := db'.refresh, nextId := db.nextId + 2)
      && db'.refresh.Keys == db.refresh.Keys + {db.nextId + 1}
      && db'.refresh[db.nextId + 1] == SuccessorOf(rt, SuccessorFamily(db, rt), now)
      && db'.refresh[presented] == rt.(revoked := true)
      && (forall id :: id in db.refresh && id != presented ==> db'.refresh[id] == db.refresh[id])
  {
  }

  /** The risk engine's score, recorded on the token's session unless the engine is off. */
  function Rescored(sessions: map<Id, SessionRow>, session: Option<Id>, risk: Risk): map<Id, SessionRow> {
    if session.Some? && session.value in sessions && !risk.Off?
    then sessions[session.value := sessions[session.value].(riskScore := Some(risk.score))] else sessions
  }

  /** From the read of the session on, without a jump: an access token is issued. */
  lemma GrantRuns(db: Db, rt: RefreshRow, input: Input)
    requires !Jumps(db, rt, input.risk)
    ensures
      var (db', outcome) := Complete(db, AfterSession(db, rt, input.risk), input);
      && outcome == Issued
      && db'.refresh == db.refresh && db'.codes == db.codes
      && db'.access == db.access[db.nextId := RefreshedAccess(rt, input.now)]
      && db'.sessions == Rescored(db.sessions, rt.sessionId, input.risk)
  {
    hide Complete;
    var pc := AfterSession(db, rt, input.risk);
    CompleteStep(db, pc, input);
    var (db1, pc1) := Step(db, pc, input);
    if pc.UpdateRisk? {
      CompleteStep(db1, pc1, input);
    }
    var last := if pc.UpdateRisk? then db1 else db;
    DoneRuns(InsertAccess(last, RefreshedAccess(rt, input.now)), Issued, input);
  }

  lemma JumpRuns(db: Db, rt: RefreshRow, input: Input)
    requires Jumps(db, rt, input.risk)
    ensures Complete(db, AfterSession(db, rt, input.risk), input)
         == (SessionEnded(SessionKilled(db, rt.sessionId.value), rt.sessionId.value, input.now, input.risk.score),
             Denied)
  {
    hide Complete, SessionKilled, SessionEnded;
    KillSessionRuns(db, rt.sessionId.value, EndSession(input.risk.score), input);
  }

  lemma UnusableDenied(db: Db, presented: Id, client: Id, tenant: Id, input: Input)
    requires !Usable(db, presented, client, tenant, input)
    ensures Complete(db, RefreshLookup(presented, client, tenant), input).1 == Denied
    ensures !Presents(db, presented, client, tenant) || !db.refresh[presented].revoked ==>
      Complete(db, RefreshLookup(presented, client, tenant), input).0 == db
  {
    if Presents(db, presented, client, tenant) && db.refresh[presented].revoked {
      ReuseRuns(db, presented, client, tenant, input);
    } else {
      hide Complete;
      CompleteStep(db, RefreshLookup(presented, client, tenant), input);
      DoneRuns(db, Denied, input);
    }
  }

  /** The grant issues exactly when the token is this client's, unrevoked, in time, its user active and the risk has not
      jumped. */
  lemma RefreshIssuesIff(w: World, presented: Id, client: Id, tenant: Id, input: Input)
    requires Inv(w)
    ensures Complete(w.db, RefreshLookup(presented, client, tenant), input).1 == Issued <==>
      Usable(w.db, presented, client, tenant, input) && !Jumps(w.db, w.db.refresh[presented], input.risk)
  {
    if Usable(w.db, presented, client, tenant, input) {
      var rt := w.db.refresh[presented];
      RotationRuns(w.db, presented, client, tenant, input);
      RotatedIs(w, presented, input.now);
      hide Rotated, Inv, AfterSession, Complete;
      var db' := Rotated(w.db, presented, rt, input.now);
      if Jumps(db', rt, input.risk) { JumpRuns(db', rt, input); } else { GrantRuns(db', rt, input); }
    } else {
      UnusableDenied(w.db, presented, client, tenant, input);
    }
  }

  lemma RefreshGrants(w: World, presented: Id, client: Id, tenant: Id, input: Input)
    requires Inv(w) && Usable(w.db, presented, client, tenant, input)
    requires !Jumps(w.db, w.db.refresh[presented], input.risk)
    ensures
      var (db', outcome) := Complete(w.db, RefreshLookup(presented, client, tenant), input);
      var db1 := Rotated(w.db, presented, w.db.refresh[presented], input.now);
      && outcome == Issued
      && db'.refresh == db1.refresh && db'.codes == db1.codes
          && db'.sessions == Rescored(db1.sessions, w.db.refresh[presented].sessionId, input.risk)
      && db'.access == db1.access[db1.nextId := RefreshedAccess(w.db.refresh[presented], input.now)]
  {
    var rt := w.db.refresh[presented];
    RotationRuns(w.db, presented, client, tenant, input);
    RotatedIs(w, presented, input.now);
    hide Rotated, Inv, AfterSession, Complete, RefreshedAccess, Successor, LiveFamily;
    GrantRuns(Rotated(w.db, presented, rt, input.now), rt, input);
  }

  /** A granted refresh: a handover, and one access token under the same session. */
  lemma RefreshRotates(w: World, presented: Id, client: Id, tenant: Id, input: Input)
    requires Inv(w) && Usable(w.db, presented, client, tenant, input)
    requires !Jumps(w.db, w.db.refresh[presented], input.risk)
    ensures
      var (db', outcome) := Complete(w.db, RefreshLookup(presented, client, tenant), input);
      && outcome == Issued
      && Handover(w.db, presented, input.now, db')
      && db'.access == w.db.access[w.db.nextId + 2 := AccessBeside(w.db.refresh[presented], client, input.now)]
      && db'.codes == w.db.codes
          && db'.sessions == Rescored(w.db.sessions, w.db.refresh[presented].sessionId, input.risk)
  {
    hide *;
    UsableClaims(w.db, presented, client, tenant, input);
    RefreshGrants(w, presented, client, tenant, input);
    RotatedIs(w, presented, input.now);
    var db1 := Rotated(w.db, presented, w.db.refresh[presented], input.now);
    var db' := Complete(w.db, RefreshLookup(presented, client, tenant), input).0;
    HandoverReads(w.db, presented, input.now, db1, db');
    RefreshedAccessIs(w.db.refresh[presented], client, input.now);
  }

  lemma UsableClaims(db: Db, presented: Id, client: Id, tenant: Id, input: Input)
    requires Usable(db, presented, client, tenant, input)
    ensures presented in db.refresh && ClaimsRefresh(db, presented) && db.refresh[presented].clientId == Some(client)
  {
  }

  lemma HandoverReads(db: Db, presented: Id, now: nat, after: Db, after': Db)
    requires presented in db.refresh && Handover(db, presented, now, after) && after'.refresh == after.refresh
    ensures Handover(db, presented, now, after')
  {
  }

  lemma RefreshedAccessIs(rt: RefreshRow, client: Id, now: nat)
    requires rt.clientId == Some(client)
    ensures RefreshedAccess(rt, now) == AccessBeside(rt, client, now)
  {
  }

  /** A risk jump ends the session and kills every token under it, the successor just minted included. */
  lemma JumpKillsSuccessor(w: World, presented: Id, client: Id, tenant: Id, input: Input)
    requires Inv(w) && Usable(w.db, presented, client, tenant, input)
    requires Jumps(w.db, w.db.refresh[presented], input.risk)
    ensures
      var (db', outcome) := Complete(w.db, RefreshLookup(presented, client, tenant), input);
      var rt := w.db.refresh[presented];
      var session := rt.sessionId.value;
      && outcome == Denied
      && LiveSessionAccess(db', session) == {} && LiveSessionRefresh(db', session) == {}
      && LiveFamily(db', SuccessorFamily(w.db, rt)) == {}
      && db'.refresh.Keys == w.db.refresh.Keys + {w.db.nextId + 1} && db'.refresh[w.db.nextId + 1].revoked
      && db'.sessions == w.db.sessions[session :=
           w.db.sessions[session].(terminatedAt := Some(input.now), riskScore := Some(input.risk.score))]
  {
    hide Complete, Rotated, Inv, AfterSession, SessionKilled, Handover, Successor;
    var rt := w.db.refresh[presented];
    var db1 := Rotated(w.db, presented, rt, input.now);
    RotationRuns(w.db, presented, client, tenant, input);
    RotatedIs(w, presented, input.now);
    JumpRuns(db1, rt, input);
    JumpKillsHandover(w.db, presented, input.now, db1);
    SessionKilledIsDead(db1, rt.sessionId.value);
    hide LiveFamily, LiveSessionAccess, LiveSessionRefresh, Usable;
  }

  lemma JumpKillsHandover(db: Db, presented: Id, now: nat, after: Db)
    requires presented in db.refresh && Handover(db, presented, now, after) && db.refresh[presented].sessionId.Some?
    ensures
      var db' := SessionKilled(after, db.refresh[presented].sessionId.value);
      && LiveFamily(db', SuccessorFamily(db, db.refresh[presented])) == {}
      && db'.refresh.Keys == db.refresh.Keys + {db.nextId + 1} && db'.refresh[db.nextId + 1].revoked
  {
    var session := db.refresh[presented].sessionId.value;
    SessionKilledRows(after, session);
    hide SessionKilled;
    var f := SuccessorFamily(db, db.refresh[presented]);
    assert forall id :: id in LiveFamily(SessionKilled(after, session), f) ==> id in LiveFamily(after, f);
  }

  // ---------------------------------------------------------------------
  // Revocation
  // ---------------------------------------------------------------------

  lemma RevokeByIdIs(db: Db, token: Id)
    requires token in db.refresh
    ensures
      var db' := RevokeRefreshById(db, token);
      db' == db.(refresh := db.refresh[token := db.refresh[token].(revoked := true)])
  {
    var db' := RevokeRefreshById(db, token);
    assert db'.refresh == db.refresh[token := db.refresh[token].(revoked := true)];
  }

  /** The tables after the revocation endpoint has been given a refresh token of the calling client. */
  function RefreshRevoked(db: Db, token: Id, rt: RefreshRow): Db {
    var db1 := RevokeRefreshById(db, token);
    if rt.sessionId.Some? then SessionKilled(db1, rt.sessionId.value)
    else if rt.familyId.Some? then RevokeFamily(db1, rt.familyId.value, rt.tenantId)
    else db1
  }

  lemma RevokeRuns(db: Db, token: Id, client: Id, tenant: Id, input: Input)
    requires Presents(db, token, client, tenant)
    ensures Complete(db, RevokeLookup(token, false, client, tenant), input)
         == (RefreshRevoked(db, token, db.refresh[token]), Acknowledged)
  {
    hide Complete, SessionKilled, RevokeFamily, RevokeRefreshById;
    var rt := db.refresh[token];
    var db1 := RevokeRefreshById(db, token);
    CompleteStep(db, RevokeLookup(token, false, client, tenant), input);
    CompleteStep(db, RevokeRefreshToken(token, rt), input);
    if rt.sessionId.Some? {
      KillSessionRuns(db1, rt.sessionId.value, Answer(Acknowledged), input);
    } else {
      if rt.familyId.Some? {
        CompleteStep(db1, RevokeWholeFamily(rt.familyId.value, rt.tenantId), input);
      }
      DoneRuns(RefreshRevoked(db, token, rt), Acknowledged, input);
    }
  }

  /** Revoking any member through either branch kills its whole family and everything under its session, and nothing
      else. */
  lemma RevokeKillsFamily(w: World, token: Id, client: Id, tenant: Id, input: Input)
    requires Inv(w) && Presents(w.db, token, client, tenant)
    ensures
      var (db', outcome) := Complete(w.db, RevokeLookup(token, false, client, tenant), input);
      outcome == Acknowledged && Killed(w.db, db', token) && NothingLeft(db', w.db.refresh[token])
  {
    hide Inv, Complete, Killed, NothingLeft, RefreshRevoked;
    var rt := w.db.refresh[token];
    RevokeRuns(w.db, token, client, tenant, input);
    if rt.familyId.Some? { FamilyMates(w, token, rt.familyId.value); }
    RefreshRevokedIs(w.db, token);
    KilledIsDead(w.db, RefreshRevoked(w.db, token, rt), token);
  }

  lemma RefreshRevokedIs(db: Db, token: Id)
    requires token in db.refresh
    requires
      var rt := db.refresh[token];
      rt.familyId.Some? ==> forall id :: id in db.refresh && db.refresh[id].familyId == rt.familyId ==>
          ProfileOf(db.refresh[id]) == ProfileOf(rt)
    ensures Killed(db, RefreshRevoked(db, token, db.refresh[token]), token)
  {
    hide RevokeRefreshById, SessionKilled, RevokeFamily, Killed, SessionDies;
    var rt := db.refresh[token];
    RevokeByIdIs(db, token);
    var mid := RevokeRefreshById(db, token);
    if rt.sessionId.Some? {
      SessionKilledRows(mid, rt.sessionId.value);
      KilledBySession(db, mid, SessionKilled(mid, rt.sessionId.value), token);
    } else {
      if rt.familyId.Some? { FamilyRevokedIsDead(mid, rt.familyId.value, rt.tenantId); }
      KilledByFamily(db, RefreshRevoked(db, token, rt), token);
    }
  }

  /** A token of another client or tenant, or none at all: acknowledged, and nothing changes. */
  lemma ForeignRevokeIsSilent(db: Db, token: Id, isAccess: bool, client: Id, tenant: Id, input: Input)
    requires
      if isAccess then !(token in db.access && db.access[token].tenantId == tenant
                         && db.access[token].clientId == client)
      else !Presents(db, token, client, tenant)
    ensures Complete(db, RevokeLookup(token, isAccess, client, tenant), input) == (db, Acknowledged)
  {
    hide Complete;
    CompleteStep(db, RevokeLookup(token, isAccess, client, tenant), input);
    DoneRuns(db, Acknowledged, input);
  }

  /** An access token of the calling client: that one row is revoked. */
  lemma RevokeAccessOnly(db: Db, token: Id, client: Id, tenant: Id, input: Input)
    requires token in db.access && db.access[token].tenantId == tenant && db.access[token].clientId == client
    ensures Complete(db, RevokeLookup(token, true, client, tenant), input)
         == (db.(access := db.access[token := db.access[token].(revoked := true)]), Acknowledged)
  {
    hide Complete, RevokeAccessById;
    CompleteStep(db, RevokeLookup(token, true, client, tenant), input);
    CompleteStep(db, RevokeAccessToken(token), input);
    DoneRuns(RevokeAccessById(db, token), Acknowledged, input);
    RevokeAccessByIdIs(db, token);
  }

  lemma RevokeAccessByIdIs(db: Db, token: Id)
    requires token in db.access
    ensures RevokeAccessById(db, token) == db.(access := db.access[token := db.access[token].(revoked := true)])
  {
    assert RevokeAccessById(db, token).access == db.access[token := db.access[token].(revoked := true)];
  }

  // ---------------------------------------------------------------------
  // Redeeming an authorization code
  // ---------------------------------------------------------------------

  /** The code is an unused one of this client and tenant, issued for this redirect URI. */
  predicate Unredeemed(db: Db, code: Id, client: Id, tenant: Id, redirectUri: string) {
    && code in db.codes && !db.codes[code].used && db.codes[code].clientId == client
    && db.codes[code].tenantId == tenant && db.codes[code].redirectUri == redirectUri
  }

  predicate Redeemable(db: Db, code: Id, client: Id, tenant: Id, redirectUri: string, input: Input) {
    && Unredeemed(db, code, client, tenant, redirectUri)
    && input.now <= db.codes[code].expiresAt && input.userOk && input.checksOk
  }

  lemma RedemptionRuns(db: Db, code: Id, client: Id, tenant: Id, redirectUri: string, input: Input)
    requires Redeemable(db, code, client, tenant, redirectUri, input)
    ensures
      var mint := CodeMint(db, code, db.codes[code]);
      Complete(db, ClaimCode(code, client, tenant, redirectUri), input)
      == (IssueRefresh(InsertAccess(UseCode(db, code), AccessFor(mint, input.now)), RefreshFor(mint, input.now)),
         Issued)
  {
    hide Complete, InsertAccess, IssueRefresh, AccessFor, RefreshFor;
    var row := db.codes[code];
    var used := UseCode(db, code);
    var mint := CodeMint(db, code, row);
    CompleteStep(db, ClaimCode(code, client, tenant, redirectUri), input);
    CompleteStep(used, FindSession(code, row), input);
    CompleteStep(used, MintAccess(mint), input);
    CompleteStep(InsertAccess(used, AccessFor(mint, input.now)), MintRefresh(mint), input);
    DoneRuns(IssueRefresh(InsertAccess(used, AccessFor(mint, input.now)), RefreshFor(mint, input.now)), Issued, input);
  }

  /** The session the code was issued in, if it is a session of the tenant. */
  function SessionOfCode(db: Db, code: Id, tenant: Id): Option<Id>
    requires code in db.codes
  {
    var sid := db.codes[code].sid;
    if sid.Some? && sid.value in db.sessions && db.sessions[sid.value].tenantId == tenant then sid else None
  }

  /** A redemption uses up the code and mints, for the code's user, client, tenant, scope and session, an access token
      for 15 minutes and a refresh token for 7 days in a family of its own, both carrying the code. */
  lemma RedemptionMints(db: Db, code: Id, client: Id, tenant: Id, redirectUri: string, input: Input)
    requires Redeemable(db, code, client, tenant, redirectUri, input)
    ensures
      var (db', outcome) := Complete(db, ClaimCode(code, client, tenant, redirectUri), input);
      var row, n, session := db.codes[code], db.nextId, SessionOfCode(db, code, tenant);
      var scope := if row.scope == "" then "openid" else row.scope;
      && outcome == Issued
      && db'.codes == db.codes[code := row.(used := true)] && db'.sessions == db.sessions
      && db'.access == db.access[
             n := AccessRow(row.userId, client, tenant, scope, session, Some(code), input.now + 900_000, false)]
      && db'.refresh == db.refresh[
             n + 2 := RefreshRow(row.userId, Some(client), tenant, scope, Some(n + 1), session, Some(code),
                                 input.now + 604_800_000, false, false)]
  {
    hide Complete;
    RedemptionRuns(db, code, client, tenant, redirectUri, input);
  }

  /** A presentation that does not match an unused code is refused without a trace: an unknown code, one of another
      tenant, or an unused one of another client or for another redirect URI. */
  lemma MismatchIsRefused(db: Db, code: Id, client: Id, tenant: Id, redirectUri: string, input: Input)
    requires code in db.codes && db.codes[code].tenantId == tenant ==>
      !db.codes[code].used && (db.codes[code].clientId != client || db.codes[code].redirectUri != redirectUri)
    ensures Complete(db, ClaimCode(code, client, tenant, redirectUri), input) == (db, Denied)
  {
    hide Complete;
    CompleteStep(db, ClaimCode(code, client, tenant, redirectUri), input);
    CompleteStep(db, FindReplay(code, tenant), input);
    DoneRuns(db, Denied, input);
  }

  /** A matching code presented too late, for a user who is not active, or without the proofs it asks for, is refused;
      it is used up, and nothing else changes. */
  lemma FailedRedemptionUsesCode(db: Db, code: Id, client: Id, tenant: Id, redirectUri: string, input: Input)
    requires Unredeemed(db, code, client, tenant, redirectUri)
    requires db.codes[code].expiresAt < input.now || !input.userOk || !input.checksOk
    ensures Complete(db, ClaimCode(code, client, tenant, redirectUri), input)
         == (db.(codes := db.codes[code := db.codes[code].(used := true)]), Denied)
  {
    hide Complete;
    var used := UseCode(db, code);
    CompleteStep(db, ClaimCode(code, client, tenant, redirectUri), input);
    if input.now <= db.codes[code].expiresAt && input.userOk && !db.codes[code].challenged {
      CompleteStep(used, FindSession(code, db.codes[code]), input);
    }
    DoneRuns(used, Denied, input);
  }

  /** The grant issues tokens exactly for an unused code of this client and tenant, issued for this redirect URI,
      presented in time, with an active user and the proofs in order. */
  lemma RedemptionIssuesIff(db: Db, code: Id, client: Id, tenant: Id, redirectUri: string, input: Input)
    ensures Complete(db, ClaimCode(code, client, tenant, redirectUri), input).1 == Issued <==>
      && code in db.codes && db.codes[code].clientId == client && db.codes[code].tenantId == tenant
      && db.codes[code].redirectUri == redirectUri && !db.codes[code].used
      && input.now <= db.codes[code].expiresAt && input.userOk && input.checksOk
  {
    hide Complete;
    if code in db.codes && db.codes[code].tenantId == tenant && db.codes[code].used {
      ReplayRuns(db, code, client, tenant, redirectUri, input);
    } else if !Unredeemed(db, code, client, tenant, redirectUri) {
      MismatchIsRefused(db, code, client, tenant, redirectUri, input);
    } else if Redeemable(db, code, client, tenant, redirectUri, input) {
      RedemptionRuns(db, code, client, tenant, redirectUri, input);
    } else {
      FailedRedemptionUsesCode(db, code, client, tenant, redirectUri, input);
    }
  }

  // ---------------------------------------------------------------------
  // Replay of an authorization code
  // ---------------------------------------------------------------------

  function ReplayAnswered(db: Db, code: Id): Db {
    RevokeCodeRefresh(RevokeCodeAccess(db, code), code)
  }

  lemma ReplayRuns(db: Db, code: Id, client: Id, tenant: Id, redirectUri: string, input: Input)
    requires code in db.codes && db.codes[code].used && db.codes[code].tenantId == tenant
    ensures Complete(db, ClaimCode(code, client, tenant, redirectUri), input) == (ReplayAnswered(db, code), Denied)
  {
    hide Complete, RevokeCodeAccess, RevokeCodeRefresh;
    CompleteStep(db, ClaimCode(code, client, tenant, redirectUri), input);
    CompleteStep(db, FindReplay(code, tenant), input);
    CompleteStep(db, KillCodeAccess(code), input);
    CompleteStep(RevokeCodeAccess(db, code), KillCodeRefresh(code), input);
    DoneRuns(ReplayAnswered(db, code), Denied, input);
  }

  /** Replaying a used code, by whichever client, kills what the code minted directly and nothing else:
      rotation drops the link to the code, so a rotated successor survives. */
  lemma ReplayKillsMinted(db: Db, code: Id, client: Id, tenant: Id, redirectUri: string, input: Input)
    requires code in db.codes && db.codes[code].used && db.codes[code].tenantId == tenant
    ensures
      var (db', outcome) := Complete(db, ClaimCode(code, client, tenant, redirectUri), input);
      && outcome == Denied
      && db'.refresh.Keys == db.refresh.Keys && db'.access.Keys == db.access.Keys
      && db'.codes == db.codes && db'.sessions == db.sessions
      && (forall id :: id in db.access ==>
            db'.access[id] == (if db.access[id].authCodeId == Some(code) then db.access[id].(revoked := true)
                               else db.access[id]))
      && (forall id :: id in db.refresh ==>
            db'.refresh[id] == (if db.refresh[id].authCodeId == Some(code) then db.refresh[id].(revoked := true)
                                else db.refresh[id]))
  {
    ReplayRuns(db, code, client, tenant, redirectUri, input);
    hide Complete;
  }

  /** An uninterrupted replay ends without a live token in the family exactly when every member live before it carried
      the code. What may come later, from a rotation in flight, is in TokenReplays. */
  lemma ReplayKillsFamilyIff(w: World, code: Id, client: Id, tenant: Id, redirectUri: string, input: Input, family: Id)
    requires Inv(w) && code in w.db.codes && w.db.codes[code].used && w.db.codes[code].tenantId == tenant
    ensures
      LiveFamily(Complete(w.db, ClaimCode(code, client, tenant, redirectUri), input).0, family) == {} <==>
      forall id :: id in LiveFamily(w.db, family) ==> w.db.refresh[id].authCodeId == Some(code)
  {
    ReplayKillsMinted(w.db, code, client, tenant, redirectUri, input);
    hide Complete, Inv;
    var db' := Complete(w.db, ClaimCode(code, client, tenant, redirectUri), input).0;
    assert forall id :: id in LiveFamily(db', family) <==>
        id in LiveFamily(w.db, family) && w.db.refresh[id].authCodeId != Some(code);
  }

  /** Redeem, refresh once, replay: the successor is still alive. */
  lemma RotatedSurvivesReplay(w: World, token: Id, code: Id, client: Id, tenant: Id, redirectUri: string, input: Input)
    requires Inv(w) && Usable(w.db, token, client, tenant, input) && !Jumps(w.db, w.db.refresh[token], input.risk)
    requires w.db.refresh[token].authCodeId == Some(code)
    requires code in w.db.codes && w.db.codes[code].used && w.db.codes[code].tenantId == tenant
    ensures
      var rotated := Complete(w.db, RefreshLookup(token, client, tenant), input).0;
      var (db', outcome) := Complete(rotated, ClaimCode(code, client, tenant, redirectUri), input);
      && outcome == Denied
      && LiveFamily(db', SuccessorFamily(w.db, w.db.refresh[token])) == {w.db.nextId + 1}
  {
    hide Complete, Inv, Handover, LiveFamily, Jumps;
    RefreshRotates(w, token, client, tenant, input);
    var rotated := Complete(w.db, RefreshLookup(token, client, tenant), input).0;
    ReplayKillsMinted(rotated, code, client, tenant, redirectUri, input);
    var db' := Complete(rotated, ClaimCode(code, client, tenant, redirectUri), input).0;
    ReplaySparesSuccessor(w.db, token, code, input.now, rotated, db');
  }

  lemma ReplaySparesSuccessor(db: Db, token: Id, code: Id, now: nat, rotated: Db, after: Db)
    requires token in db.refresh && Handover(db, token, now, rotated)
    requires after.refresh.Keys == rotated.refresh.Keys
    requires forall id :: id in rotated.refresh ==>
      after.refresh[id] == (if rotated.refresh[id].authCodeId == Some(code) then rotated.refresh[id].(revoked := true)
                            else rotated.refresh[id])
    ensures LiveFamily(after, SuccessorFamily(db, db.refresh[token])) == {db.nextId + 1}
  {
    var f := SuccessorFamily(db, db.refresh[token]);
    assert forall id :: id in LiveFamily(after, f) <==>
        id in LiveFamily(rotated, f) && rotated.refresh[id].authCodeId != Some(code);
  }
}
