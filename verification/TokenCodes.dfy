/**
  What an authorization code ever mints: over a whole run, deletions included,
  one access and one refresh token.
 */
module TokenCodes {
  import opened Options
  import opened TokenTables
  import opened TokenRuns
  import opened TokenWorld
  import opened TokenInvariants
  import opened TokenRows
  import opened TokenTheorems

  datatype Kind = Access | Refresh

  /** The token carries the code. */
  predicate Carries(db: Db, kind: Kind, id: Id, code: Id) {
    match kind
    case Access => id in db.access && db.access[id].authCodeId == Some(code)
    case Refresh => id in db.refresh && db.refresh[id].authCodeId == Some(code)
  }

  predicate CarriesAlive(db: Db, kind: Kind, id: Id, code: Id) {
    Carries(db, kind, id, code) &&
    match kind
    case Access => !db.access[id].revoked
    case Refresh => !db.refresh[id].revoked
  }

  /** The handler has yet to mint a token of this kind for the code. */
  predicate Owes(pc: Pc, kind: Kind, code: Id) {
    || (pc.FindSession? && pc.code == code)
    || (pc.MintAccess? && pc.mint.authCodeId == Some(code))
    || (kind.Refresh? && pc.MintRefresh? && pc.mint.authCodeId == Some(code))
  }

  /** The code has been redeemed, and nobody has yet to mint for it. */
  ghost predicate Settled(w: World, kind: Kind, code: Id) {
    code in w.redeemedBy && forall run :: run in w.runs ==> !Owes(w.runs[run], kind, code)
  }

  /** Only a handler that owes it mints a token for a code, and nothing brings a revoked one back. */
  lemma StepMints(db: Db, pc: Pc, input: Input, kind: Kind, id: Id, code: Id)
    requires Carries(Step(db, pc, input).0, kind, id, code) && !Owes(pc, kind, code)
    ensures Carries(db, kind, id, code)
    ensures CarriesAlive(Step(db, pc, input).0, kind, id, code) ==> CarriesAlive(db, kind, id, code)
  {
    StepRows(db, pc, input);
    hide Step;
  }

  /** A handler comes to owe a token for a code only by redeeming it. */
  lemma StepOwes(db: Db, pc: Pc, input: Input, kind: Kind, code: Id)
    requires Owes(Step(db, pc, input).1, kind, code)
    ensures Owes(pc, kind, code) || (Redeems(db, pc) && pc.code == code)
  {
    hide RevokeFamily, RevokeSessionAccess, RevokeSessionRefresh, RevokeCodeAccess, RevokeCodeRefresh,
         RevokeRefreshById, RevokeAccessById, RevokeUserAccess, RevokeUserRefresh, IssueRefresh, InsertPlainRefresh,
         InsertAccess, UpdateSession, UseCode, DeleteExpiredAccess, DeleteExpiredRefresh, DeleteExpiredCodes,
         ClaimsRefresh;
  }

  /** A stored token's code is settled. */
  lemma CarriedIsSettled(w: World, kind: Kind, id: Id, code: Id)
    requires Inv(w) && Carries(w.db, kind, id, code)
    ensures Settled(w, kind, code)
  {
    assert CodesOk(w);
    forall run | run in w.runs ensures !Owes(w.runs[run], kind, code) {
      assert PcOk(w, run, w.runs[run]);
    }
  }

  lemma RedeemsUnredeemed(w: World, pc: Pc)
    requires Inv(w) && Redeems(w.db, pc)
    ensures pc.code !in w.redeemedBy
  {
    assert CodesOk(w);
  }

  lemma NextSettled(w: World, e: Event, kind: Kind, code: Id)
    requires Inv(w) && Settled(w, kind, code)
    ensures Settled(Next(w, e), kind, code)
    ensures forall id :: Carries(Next(w, e).db, kind, id, code) ==> Carries(w.db, kind, id, code)
    ensures forall id :: CarriesAlive(Next(w, e).db, kind, id, code) ==> CarriesAlive(w.db, kind, id, code)
  {
    hide Inv, Step;
    RecordsGrow(w, e);
    if e.Exec? && e.run in w.runs {
      var pc := w.runs[e.run];
      if Redeems(w.db, pc) { RedeemsUnredeemed(w, pc); }
      if Owes(Step(w.db, pc, e.input).1, kind, code) { StepOwes(w.db, pc, e.input, kind, code); }
      forall id | Carries(Next(w, e).db, kind, id, code) ensures Carries(w.db, kind, id, code) {
        StepMints(w.db, pc, e.input, kind, id, code);
      }
      forall id | CarriesAlive(Next(w, e).db, kind, id, code) ensures CarriesAlive(w.db, kind, id, code) {
        StepMints(w.db, pc, e.input, kind, id, code);
      }
    }
  }

  lemma {:induction false} SettledStays(events: seq<Event>, i: nat, j: nat, kind: Kind, code: Id)
    requires i <= j <= |events| && Settled(After(events[..i]), kind, code)
    ensures Settled(After(events[..j]), kind, code)
    ensures forall id :: Carries(After(events[..j]).db, kind, id, code) ==>
        Carries(After(events[..i]).db, kind, id, code)
    ensures forall id ::
      CarriesAlive(After(events[..j]).db, kind, id, code) ==> CarriesAlive(After(events[..i]).db, kind, id, code)
    decreases j
  {
    hide After, Inv, Next, Settled, Carries, CarriesAlive;
    if i == j {
    } else {
      SettledStays(events, i, j - 1, kind, code);
      AfterSnoc(events, j - 1);
      AfterInv(events[..j - 1]);
      NextSettled(After(events[..j - 1]), events[j - 1], kind, code);
    }
  }

  /** No two tokens of a kind that carry one code at one moment. */
  lemma OneCarrier(w: World, kind: Kind, x: Id, y: Id, code: Id)
    requires Inv(w) && Carries(w.db, kind, x, code) && Carries(w.db, kind, y, code)
    ensures x == y
  {
    assert CodesOk(w);
    match kind
    case Access => assert AccessOf(w, x, y);
    case Refresh => assert RefreshOf(w, x, y);
  }

  /** At most one access and one refresh token ever carry a given code: whatever carries it at one moment of a run and
      whatever carries it at another, even after the first was deleted, is the same token. */
  lemma OneTokenPairPerCode(events: seq<Event>, i: nat, j: nat, kind: Kind, x: Id, y: Id, code: Id)
    requires i <= |events| && j <= |events|
    requires Carries(After(events[..i]).db, kind, x, code) && Carries(After(events[..j]).db, kind, y, code)
    ensures x == y
  {
    hide After, Inv, Settled, Carries;
    var first := if i <= j then i else j;
    AfterInv(events[..i]);
    AfterInv(events[..j]);
    AfterInv(events[..first]);
    CarriedIsSettled(After(events[..first]), kind, if i <= j then x else y, code);
    SettledStays(events, first, if i <= j then j else i, kind, code);
    OneCarrier(After(events[..first]), kind, x, y, code);
  }
}
