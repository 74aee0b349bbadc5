/**
  The statements that serve no single request: the end of a user's tokens and
  the cleanup job, run to their ends and over every run.
 */
module TokenUpkeep {
  import opened Options
  import opened TokenTables
  import opened TokenRuns
  import opened TokenWorld
  import opened TokenInvariants
  import opened TokenTheorems
  import opened TokenAtomic

  // ---------------------------------------------------------------------
  // Run to their ends
  // ---------------------------------------------------------------------

  lemma UserKillRuns(db: Db, user: Id, input: Input)
    ensures Complete(db, KillUserAccess(user), input)
         == (RevokeUserRefresh(RevokeUserAccess(db, user), user), Acknowledged)
  {
    hide Complete, RevokeUserAccess, RevokeUserRefresh;
    CompleteStep(db, KillUserAccess(user), input);
    CompleteStep(RevokeUserAccess(db, user), KillUserRefresh(user), input);
    DoneRuns(RevokeUserRefresh(RevokeUserAccess(db, user), user), Acknowledged, input);
  }

  /** A password change and the like revoke exactly the user's tokens. */
  lemma UserTokensDie(db: Db, user: Id, input: Input)
    ensures
      var (after, outcome) := Complete(db, KillUserAccess(user), input);
      && outcome == Acknowledged && after == db.(refresh := after.refresh, access := after.access)
      && RefreshDies(db, after, (row: RefreshRow) => row.userId == user)
      && AccessDies(db, after, (row: AccessRow) => row.userId == user)
  {
    UserKillRuns(db, user, input);
    hide Complete;
  }

  lemma CleanupRuns(db: Db, cutoff: nat, input: Input)
    ensures Complete(db, CleanAccess(cutoff), input)
         == (DeleteExpiredCodes(DeleteExpiredRefresh(DeleteExpiredAccess(db, cutoff), cutoff), cutoff), Acknowledged)
  {
    var first := DeleteExpiredAccess(db, cutoff);
    var second := DeleteExpiredRefresh(first, cutoff);
    var third := DeleteExpiredCodes(second, cutoff);
    assert Step(db, CleanAccess(cutoff), input) == (first, CleanRefresh(cutoff));
    assert Step(first, CleanRefresh(cutoff), input) == (second, CleanCodes(cutoff));
    assert Step(second, CleanCodes(cutoff), input) == (third, Done(Acknowledged));
    hide *;
    CompleteStep(db, CleanAccess(cutoff), input);
    CompleteStep(first, CleanRefresh(cutoff), input);
    CompleteStep(second, CleanCodes(cutoff), input);
    DoneRuns(third, Acknowledged, input);
  }

  /** The cleanup deletes exactly the expired access tokens and codes, and the refresh tokens that are both expired and
      revoked; the rows it keeps it does not touch. */
  lemma CleanupDeletes(db: Db, cutoff: nat, input: Input)
    ensures
      var (after, outcome) := Complete(db, CleanAccess(cutoff), input);
      && outcome == Acknowledged
      && after == db.(refresh := after.refresh, access := after.access, codes := after.codes)
      && (forall id :: id in after.access <==> id in db.access && cutoff <= db.access[id].expiresAt)
      && (forall id :: id in after.access ==> after.access[id] == db.access[id])
      && (forall id :: id in after.codes <==> id in db.codes && cutoff <= db.codes[id].expiresAt)
      && (forall id :: id in after.codes ==> after.codes[id] == db.codes[id])
      && (forall id :: id in after.refresh <==>
            id in db.refresh && (cutoff <= db.refresh[id].expiresAt || !db.refresh[id].revoked))
      && (forall id :: id in after.refresh ==> after.refresh[id] == db.refresh[id])
  {
    CleanupRuns(db, cutoff, input);
    hide Complete;
  }

  // ---------------------------------------------------------------------
  // A rotated token is remembered until it expires
  // ---------------------------------------------------------------------

  /** A cleanup that may delete refresh tokens that expire then. */
  predicate Reaches(pc: Pc, expiresAt: nat) {
    (pc.CleanAccess? || pc.CleanRefresh?) && expiresAt < pc.cutoff
  }

  ghost predicate NoneReaches(w: World, expiresAt: nat) {
    forall run :: run in w.runs ==> !Reaches(w.runs[run], expiresAt)
  }

  predicate NoneStarts(events: seq<Event>, expiresAt: nat) {
    forall k :: 0 <= k < |events| ==> events[k].Start? ==> !Reaches(events[k].pc, expiresAt)
  }

  /** The token is still the row it was, and revoked. */
  predicate Remembered(db: Db, token: Id, row: RefreshRow) {
    token < db.nextId && token in db.refresh && db.refresh[token] == row && row.revoked
  }

  predicate RevokesFamilyOrSession(pc: Pc) {
    pc.ReuseDetected? || pc.KillRefresh? || pc.RevokeWholeFamily? || pc.KillCodeRefresh?
  }

  predicate RevokesOneOrUser(pc: Pc) {
    pc.ClaimRefresh? || pc.RevokeRefreshToken? || pc.FirstPartyRevoke? || pc.KillUserRefresh?
  }

  lemma FamilyOrSessionRemembers(db: Db, pc: Pc, input: Input, token: Id, row: RefreshRow)
    requires Remembered(db, token, row) && RevokesFamilyOrSession(pc)
    ensures Remembered(Step(db, pc, input).0, token, row)
  {
  }

  lemma OneOrUserRemembers(db: Db, pc: Pc, input: Input, token: Id, row: RefreshRow)
    requires Remembered(db, token, row) && RevokesOneOrUser(pc)
    ensures Remembered(Step(db, pc, input).0, token, row)
  {
  }

  lemma CleanupRemembers(db: Db, pc: Pc, input: Input, token: Id, row: RefreshRow)
    requires Remembered(db, token, row) && pc.CleanRefresh? && !Reaches(pc, row.expiresAt)
    ensures Remembered(Step(db, pc, input).0, token, row)
  {
  }

  lemma StepRemembers(db: Db, pc: Pc, input: Input, token: Id, row: RefreshRow)
    requires Remembered(db, token, row) && !Reaches(pc, row.expiresAt)
    ensures Remembered(Step(db, pc, input).0, token, row)
  {
    hide Step, Remembered, Reaches;
    if RevokesFamilyOrSession(pc) {
      FamilyOrSessionRemembers(db, pc, input, token, row);
    } else if RevokesOneOrUser(pc) {
      OneOrUserRemembers(db, pc, input, token, row);
    } else if pc.CleanRefresh? {
      CleanupRemembers(db, pc, input, token, row);
    } else {
      OtherRemembers(db, pc, input, token, row);
    }
  }

  /** The statements that neither revoke nor delete refresh tokens. */
  lemma OtherRemembers(db: Db, pc: Pc, input: Input, token: Id, row: RefreshRow)
    requires Remembered(db, token, row)
    requires !RevokesFamilyOrSession(pc) && !RevokesOneOrUser(pc) && !pc.CleanRefresh?
    ensures Remembered(Step(db, pc, input).0, token, row)
  {
    hide RevokeFamily, RevokeSessionRefresh, RevokeCodeRefresh, RevokeRefreshById, RevokeUserRefresh,
         DeleteExpiredRefresh;
  }

  lemma StepReaches(db: Db, pc: Pc, input: Input, expiresAt: nat)
    requires !Reaches(pc, expiresAt)
    ensures !Reaches(Step(db, pc, input).1, expiresAt)
  {
    hide RevokeFamily, RevokeSessionAccess, RevokeSessionRefresh, RevokeCodeAccess, RevokeCodeRefresh,
         RevokeRefreshById, RevokeAccessById, RevokeUserAccess, RevokeUserRefresh, IssueRefresh, InsertPlainRefresh,
         InsertAccess, UpdateSession, UseCode, DeleteExpiredAccess, DeleteExpiredRefresh, DeleteExpiredCodes,
         ClaimsCode;
  }

  lemma NextRemembers(w: World, e: Event, token: Id, row: RefreshRow)
    requires Remembered(w.db, token, row) && NoneReaches(w, row.expiresAt)
    requires e.Start? ==> !Reaches(e.pc, row.expiresAt)
    ensures Remembered(Next(w, e).db, token, row) && NoneReaches(Next(w, e), row.expiresAt)
  {
    hide Step;
    if e.Exec? && e.run in w.runs {
      StepRemembers(w.db, w.runs[e.run], e.input, token, row);
      StepReaches(w.db, w.runs[e.run], e.input, row.expiresAt);
    }
  }

  lemma AfterLast(events: seq<Event>, more: seq<Event>)
    requires more != []
    ensures After(events + more) == Next(After(events + more[..|more| - 1]), more[|more| - 1])
  {
    assert (events + more)[..|events + more| - 1] == events + more[..|more| - 1];
    hide Next;
  }

  lemma {:induction false} RememberedUntilExpiry(events: seq<Event>, more: seq<Event>, token: Id, row: RefreshRow)
    requires Remembered(After(events).db, token, row)
    requires NoneReaches(After(events), row.expiresAt) && NoneStarts(more, row.expiresAt)
    ensures Remembered(After(events + more).db, token, row) && NoneReaches(After(events + more), row.expiresAt)
    decreases |more|
  {
    if more == [] {
      assert events + more == events;
    } else {
      hide After, Remembered, NoneReaches, Next;
      var most, last := more[..|more| - 1], more[|more| - 1];
      RememberedUntilExpiry(events, most, token, row);
      AfterLast(events, more);
      NextRemembers(After(events + most), last, token, row);
    }
  }

  /** Once a refresh token is revoked, and as long as no cleanup reaches past its expiry, presenting it is detected as a
      reuse in every continuation: denied, and its family and session are killed. */
  lemma ReuseStaysDetected(events: seq<Event>, more: seq<Event>, token: Id, client: Id, tenant: Id, input: Input)
    requires token in After(events).db.refresh && After(events).db.refresh[token].revoked
    requires
      var row := After(events).db.refresh[token];
      && row.clientId == Some(client) && row.tenantId == tenant
      && NoneReaches(After(events), row.expiresAt) && NoneStarts(more, row.expiresAt)
    ensures
      var db := After(events + more).db;
      var (after, outcome) := Complete(db, RefreshLookup(token, client, tenant), input);
      && outcome == Denied && token in db.refresh && db.refresh[token] == After(events).db.refresh[token]
      && Killed(db, after, token) && NothingLeft(after, db.refresh[token])
  {
    hide After, Inv, Complete, Killed, NothingLeft;
    var row := After(events).db.refresh[token];
    AfterInv(events);
    AfterInv(events + more);
    BelowNext(After(events), token);
    RememberedUntilExpiry(events, more, token, row);
    ReuseKillsFamilyAndSession(After(events + more), token, client, tenant, input);
  }

  lemma BelowNext(w: World, token: Id)
    requires Inv(w) && token in w.db.refresh
    ensures token < w.db.nextId
  {
  }
}
