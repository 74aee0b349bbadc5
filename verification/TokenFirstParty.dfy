/**
  The first-party refresh, which takes any refresh token, and what of its
  descendants a later reuse answer reaches.
 */
module TokenFirstParty {
  import opened Options
  import opened TokenTables
  import opened TokenRuns
  import opened TokenWorld
  import opened TokenAtomic

  /** The token the first-party refresh inserts: the presented one's user and client, but no family, no session, no
      code. */
  function Renewal(rt: RefreshRow, now: nat): RefreshRow {
    RefreshRow(rt.userId, rt.clientId, rt.tenantId, "openid", None, None, None,
               now + (if rt.rememberMe then 2_592_000_000 else 604_800_000), rt.rememberMe, false)
  }

  function RenewalAccess(rt: RefreshRow, now: nat): AccessRow {
    AccessRow(rt.userId, if rt.clientId.Some? then rt.clientId.value else 0, rt.tenantId, "openid", None, None,
              now + 900_000, false)
  }

  function Renewed(db: Db, token: Id, now: nat): Db
    requires token in db.refresh
  {
    var rt := db.refresh[token];
    db.(access := db.access[db.nextId := RenewalAccess(rt, now)],
        refresh := db.refresh[token := rt.(revoked := true)][db.nextId + 1 := Renewal(rt, now)],
        nextId := db.nextId + 2)
  }

  lemma FirstPartyRuns(db: Db, token: Id, input: Input)
    requires ClaimsRefresh(db, token) && input.userOk
    ensures Complete(db, FirstPartyLookup(token), input) == (Renewed(db, token, input.now), Issued)
  {
    hide Complete, RevokeRefreshById;
    var rt := db.refresh[token];
    var db1 := InsertAccess(db, RenewalAccess(rt, input.now));
    var db2 := RevokeRefreshById(db1, token);
    CompleteStep(db, FirstPartyLookup(token), input);
    CompleteStep(db, FirstPartyAccess(token, rt), input);
    CompleteStep(db1, FirstPartyRevoke(token, rt), input);
    CompleteStep(db2, FirstPartyInsert(rt), input);
    RevokeByIdIs(db1, token);
    DoneRuns(Renewed(db, token, input.now), Issued, input);
  }

  /** It issues exactly for an unrevoked token of an active user, whatever the token's client, tenant or expiry. */
  lemma FirstPartyIssuesIff(db: Db, token: Id, input: Input)
    ensures Complete(db, FirstPartyLookup(token), input).1 == Issued <==> ClaimsRefresh(db, token) && input.userOk
  {
    hide Complete;
    if ClaimsRefresh(db, token) && input.userOk {
      FirstPartyRuns(db, token, input);
    } else {
      CompleteStep(db, FirstPartyLookup(token), input);
      DoneRuns(db, Denied, input);
    }
  }

  predicate Alive(db: Db, token: Id) {
    token in db.refresh && !db.refresh[token].revoked
  }

  /** A reuse answer spares exactly the live tokens that share neither family nor session with the reused one. */
  lemma SurvivesReuseIff(w: World, presented: Id, client: Id, tenant: Id, input: Input, token: Id)
    requires Inv(w) && Presents(w.db, presented, client, tenant) && w.db.refresh[presented].revoked
    ensures
      Alive(Complete(w.db, RefreshLookup(presented, client, tenant), input).0, token) <==>
      Alive(w.db, token) && !SharesFamilyOrSession(w.db.refresh[token], w.db.refresh[presented])
  {
    hide Inv, Complete;
    ReuseKillsFamilyAndSession(w, presented, client, tenant, input);
  }

  /** A token renewed at the first-party refresh and presented again at the token endpoint: the reuse is answered, its
      family is dead, and the renewal is alive. */
  lemma RenewalSurvivesReuse(w: World, token: Id, client: Id, tenant: Id, input: Input)
    requires Inv(w) && Presents(w.db, token, client, tenant) && ClaimsRefresh(w.db, token) && input.userOk
    ensures
      var renewed := Complete(w.db, FirstPartyLookup(token), input).0;
      var (db', outcome) := Complete(renewed, RefreshLookup(token, client, tenant), input);
      && outcome == Denied && NothingLeft(db', w.db.refresh[token])
      && Alive(db', w.db.nextId + 1) && db'.refresh[w.db.nextId + 1] == Renewal(w.db.refresh[token], input.now)
  {
    hide Inv, Complete, Killed, NothingLeft, Presents, ReuseAnswered, RenewalAccess;
    var rt := w.db.refresh[token];
    FirstPartyRuns(w.db, token, input);
    IdsBelow(w);
    PresentsRow(w.db, token, client, tenant);
    var renewed := Renewed(w.db, token, input.now);
    PresentedAgain(w.db, renewed, token, client, tenant);
    ReuseRuns(renewed, token, client, tenant, input);
    if rt.familyId.Some? { FamilyMates(w, token, rt.familyId.value); }
    RenewedMates(w.db, token, input.now);
    ReuseAnsweredIs(renewed, token);
    KilledIsDead(renewed, ReuseAnswered(renewed, renewed.refresh[token]), token);
    RenewalSpared(w.db, token, input.now, ReuseAnswered(renewed, renewed.refresh[token]));
  }

  lemma PresentsRow(db: Db, token: Id, client: Id, tenant: Id)
    requires Presents(db, token, client, tenant)
    ensures token in db.refresh
  {
  }

  lemma PresentedAgain(db: Db, after: Db, token: Id, client: Id, tenant: Id)
    requires Presents(db, token, client, tenant) && token in after.refresh
        && after.refresh[token] == db.refresh[token].(revoked := true)
    ensures Presents(after, token, client, tenant)
  {
  }

  lemma RenewedMates(db: Db, token: Id, now: nat)
    requires token in db.refresh && forall id :: id in db.refresh ==> id < db.nextId
    requires
      var rt := db.refresh[token];
      rt.familyId.Some? ==> forall id :: id in db.refresh && db.refresh[id].familyId == rt.familyId ==>
          ProfileOf(db.refresh[id]) == ProfileOf(rt)
    ensures
      var after, rt := Renewed(db, token, now), db.refresh[token];
      && token in after.refresh && after.refresh[token] == rt.(revoked := true)
      && (rt.familyId.Some? ==> forall id :: id in after.refresh && after.refresh[id].familyId == rt.familyId ==>
            ProfileOf(after.refresh[id]) == ProfileOf(rt))
  {
  }

  lemma RenewalSpared(db: Db, token: Id, now: nat, after: Db)
    requires token in db.refresh && token < db.nextId && Killed(Renewed(db, token, now), after, token)
    ensures Alive(after, db.nextId + 1) && after.refresh[db.nextId + 1] == Renewal(db.refresh[token], now)
    ensures NothingLeft(after, Renewed(db, token, now).refresh[token]) ==> NothingLeft(after, db.refresh[token])
  {
  }
}
