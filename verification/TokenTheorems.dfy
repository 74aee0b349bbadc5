/**
  What the invariant gives for every interleaving of handlers over the token
  tables.
 */
module TokenTheorems {
  import opened Options
  import opened TokenTables
  import opened TokenRuns
  import opened TokenWorld
  import opened TokenInvariants

  lemma AtMostOneElement<T>(s: set<T>)
    requires forall x, y :: x in s && y in s ==> x == y
    ensures |s| <= 1
  {
    if s != {} {
      var x :| x in s;
      assert s == {x};
    }
  }

  /** In every interleaving, a refresh family has at most one unrevoked token or rotation in flight. */
  lemma FamilyAtMostOne(events: seq<Event>, family: Id)
    ensures |LiveFamily(After(events).db, family)| + |InFlight(After(events), family)| <= 1
  {
    AfterInv(events);
    var w := After(events);
    hide After, Inv;
    assert OneHolder(w) by { assert Inv(w) ==> OneHolder(w) by { InvGivesOneHolder(w); } }
    var live, flying := LiveFamily(w.db, family), InFlight(w, family);
    assert forall id :: id in live ==> Holds(w, Token(id), family);
    assert forall run :: run in flying ==> Holds(w, Rotation(run), family);
    AtMostOneElement(live);
    AtMostOneElement(flying);
    if id :| id in live {
      assert flying == {};
    }
  }

  lemma InvGivesOneHolder(w: World)
    ensures Inv(w) ==> OneHolder(w)
  {
  }

  // ---------------------------------------------------------------------
  // One shot
  // ---------------------------------------------------------------------

  /** Event i is the statement that rotates the token. */
  ghost predicate RotatesAt(events: seq<Event>, i: nat, token: Id) {
    && i < |events| && events[i].Exec?
    && var w := After(events[..i]);
    && events[i].run in w.runs && Rotates(w.db, w.runs[events[i].run]) && w.runs[events[i].run].id == token
  }

  ghost predicate RedeemsAt(events: seq<Event>, i: nat, code: Id) {
    && i < |events| && events[i].Exec?
    && var w := After(events[..i]);
    && events[i].run in w.runs && Redeems(w.db, w.runs[events[i].run]) && w.runs[events[i].run].code == code
  }

  lemma AfterSnoc(events: seq<Event>, i: nat)
    requires i < |events|
    ensures After(events[..i + 1]) == Next(After(events[..i]), events[i])
  {
    assert events[..i + 1][..i] == events[..i];
  }

  lemma RecordsGrow(w: World, e: Event)
    ensures w.rotatedBy.Keys <= Next(w, e).rotatedBy.Keys
    ensures w.redeemedBy.Keys <= Next(w, e).redeemedBy.Keys
  {
    hide Step;
  }

  lemma {:induction false} RecordsStay(events: seq<Event>, i: nat, j: nat)
    requires i <= j <= |events|
    ensures After(events[..i]).rotatedBy.Keys <= After(events[..j]).rotatedBy.Keys
    ensures After(events[..i]).redeemedBy.Keys <= After(events[..j]).redeemedBy.Keys
    decreases j
  {
    hide After;
    if i == j {
    } else {
      RecordsStay(events, i, j - 1);
      AfterSnoc(events, j - 1);
      RecordsGrow(After(events[..j - 1]), events[j - 1]);
    }
  }

  /** A rotation is on record from then on. */
  lemma RotatedSince(events: seq<Event>, i: nat, j: nat, token: Id)
    requires i < j <= |events| && RotatesAt(events, i, token)
    ensures token in After(events[..j]).rotatedBy
  {
    AfterSnoc(events, i);
    RecordsStay(events, i + 1, j);
    hide After, Step;
    assert token in After(events[..i + 1]).rotatedBy;
  }

  lemma NotRotatedBefore(events: seq<Event>, i: nat, token: Id)
    requires RotatesAt(events, i, token)
    ensures token !in After(events[..i]).rotatedBy
  {
    AfterInv(events[..i]);
    hide After;
    assert RotationsOk(After(events[..i]));
  }

  /** No refresh token is rotated twice, whatever runs concurrently. */
  lemma RotatedOnce(events: seq<Event>, i: nat, j: nat, token: Id)
    requires RotatesAt(events, i, token) && RotatesAt(events, j, token)
    ensures i == j
  {
    NotRotatedBefore(events, i, token);
    NotRotatedBefore(events, j, token);
    hide RotatesAt, After;
    if i < j {
      RotatedSince(events, i, j, token);
    } else if j < i {
      RotatedSince(events, j, i, token);
    }
  }

  lemma RedeemedSince(events: seq<Event>, i: nat, j: nat, code: Id)
    requires i < j <= |events| && RedeemsAt(events, i, code)
    ensures code in After(events[..j]).redeemedBy
  {
    AfterSnoc(events, i);
    RecordsStay(events, i + 1, j);
    hide After, Step;
    assert code in After(events[..i + 1]).redeemedBy;
  }

  lemma NotRedeemedBefore(events: seq<Event>, i: nat, code: Id)
    requires RedeemsAt(events, i, code)
    ensures code !in After(events[..i]).redeemedBy
  {
    AfterInv(events[..i]);
    hide After;
    assert CodesOk(After(events[..i]));
  }

  /** No authorization code is redeemed twice. */
  lemma RedeemedOnce(events: seq<Event>, i: nat, j: nat, code: Id)
    requires RedeemsAt(events, i, code) && RedeemsAt(events, j, code)
    ensures i == j
  {
    NotRedeemedBefore(events, i, code);
    NotRedeemedBefore(events, j, code);
    hide RedeemsAt, After;
    if i < j {
      RedeemedSince(events, i, j, code);
    } else if j < i {
      RedeemedSince(events, j, i, code);
    }
  }

  // ---------------------------------------------------------------------
  // Families
  // ---------------------------------------------------------------------

  /** All members of a family share user, client, tenant, scope and OIDC session. */
  lemma FamilyAgrees(events: seq<Event>, i: Id, j: Id)
    requires i in After(events).db.refresh && j in After(events).db.refresh
    requires After(events).db.refresh[i].familyId.Some?
    requires After(events).db.refresh[i].familyId == After(events).db.refresh[j].familyId
    ensures ProfileOf(After(events).db.refresh[i]) == ProfileOf(After(events).db.refresh[j])
  {
    AfterInv(events);
    var w := After(events);
    hide After;
    assert FamilyOk(w, w.db.refresh[i]) && FamilyOk(w, w.db.refresh[j]);
  }

  ghost predicate Dead(w: World, family: Id) {
    forall h :: !Holds(w, h, family)
  }

  /** A holder in the next world had a holder before it, or founds a family that did not exist. */
  lemma HoldersComeFromHolders(w: World, e: Event, family: Id)
    requires Inv(w) && Dead(w, family) && family < w.db.nextId
    ensures Dead(Next(w, e), family) && family < Next(w, e).db.nextId
  {
    if e.Exec? && e.run in w.runs {
      DeadExec(w, e.run, e.input, family);
    } else {
      NothingRuns(w, e, family);
    }
  }

  lemma NothingRuns(w: World, e: Event, family: Id)
    requires Dead(w, family) && family < w.db.nextId && (e.Exec? ==> e.run !in w.runs)
    ensures Dead(Next(w, e), family) && family < Next(w, e).db.nextId
  {
    hide ExecRun;
    forall h ensures !Holds(Next(w, e), h, family) {
      assert !Holds(w, h, family);
    }
  }

  lemma DeadExec(w: World, run: Id, input: Input, family: Id)
    requires Inv(w) && Dead(w, family) && family < w.db.nextId && run in w.runs
    ensures Dead(ExecRun(w, run, input), family) && family < ExecRun(w, run, input).db.nextId
  {
    var pc := w.runs[run];
    hide Inv, Dead, ExecRun;
    if Rotates(w.db, pc) {
      DeadClaim(w, run, input, family);
    } else if pc.InsertSuccessor? {
      SuccessorIs(w, run, input);
      DeadIssue(w, run, Successor(pc.rt, input.now), ReadSession(pc.rt), family);
    } else if pc.MintRefresh? {
      MintRefreshIs(w, run, input);
      DeadIssue(w, run, RefreshFor(pc.mint, input.now), Done(Issued), family);
    } else {
      NothingCome(w, run, input, family);
    }
  }

  lemma DeadClaim(w: World, run: Id, input: Input, family: Id)
    requires Inv(w) && Dead(w, family) && family < w.db.nextId && run in w.runs && Rotates(w.db, w.runs[run])
    ensures Dead(ExecRun(w, run, input), family) && family < ExecRun(w, run, input).db.nextId
  {
    assert PcOk(w, run, w.runs[run]);
    ClaimIs(w, run, input);
    hide ExecRun, Step;
    ClaimHolders(w, run, w.runs[run]);
    hide Holds;
  }

  lemma DeadIssue(w: World, run: Id, row: RefreshRow, next: Pc, family: Id)
    requires Dead(w, family) && family < w.db.nextId && run in w.runs
    requires !next.InsertSuccessor? && (w.runs[run].InsertSuccessor? ==> w.runs[run].rt.familyId == row.familyId)
    requires row.familyId.Some? ==> w.runs[run].InsertSuccessor?
    ensures Dead(WithIssued(w, run, row, next), family) && family < WithIssued(w, run, row, next).db.nextId
  {
    IssuedHolders(w, run, row, next);
    hide Holds;
  }

  /** A step whose handler neither holds a family nor takes one over. */
  lemma NothingCome(w: World, run: Id, input: Input, family: Id)
    requires Dead(w, family) && family < w.db.nextId && run in w.runs
    requires !Rotates(w.db, w.runs[run]) && !w.runs[run].InsertSuccessor? && !w.runs[run].MintRefresh?
    ensures Dead(ExecRun(w, run, input), family) && family < ExecRun(w, run, input).db.nextId
  {
    var w' := ExecRun(w, run, input);
    NoNewRefresh(w.db, w.runs[run], input);
    hide Step;
    forall h ensures !Holds(w', h, family) {
      assert !Holds(w, h, family);
      match h
      case Token(id) => if id in w.db.refresh { assert !Holds(w, Token(id), family); }
      case Rotation(r) => assert !Holds(w, Rotation(r), family);
    }
  }

  /** Such a step adds no refresh token to any family and puts no rotation in flight. */
  lemma NoNewRefresh(db: Db, pc: Pc, input: Input)
    requires !Rotates(db, pc) && !pc.InsertSuccessor? && !pc.MintRefresh?
    ensures
      var (db', next) := Step(db, pc, input);
      && !next.InsertSuccessor? && db.nextId <= db'.nextId
      && forall id :: id in db'.refresh && db'.refresh[id].familyId.Some? ==>
           id in db.refresh && SameToken(db.refresh[id], db'.refresh[id])
               && (db.refresh[id].revoked ==> db'.refresh[id].revoked)
  {
    if Plain(db, pc) && !Inserts(pc) {
      DyingStep(db, pc, input);
      NotInFlight(db, pc, input);
      hide Step;
    } else {
      NotInFlight(db, pc, input);
    }
  }

  lemma NotInFlight(db: Db, pc: Pc, input: Input)
    requires !Rotates(db, pc) && !pc.InsertSuccessor?
    ensures !Step(db, pc, input).1.InsertSuccessor?
  {
    hide RevokeFamily, RevokeSessionAccess, RevokeSessionRefresh, RevokeCodeAccess, RevokeCodeRefresh,
         RevokeRefreshById, RevokeAccessById, RevokeUserAccess, RevokeUserRefresh, IssueRefresh, InsertPlainRefresh,
         InsertAccess, UpdateSession, UseCode, DeleteExpiredAccess, DeleteExpiredRefresh, DeleteExpiredCodes;
  }

  /** A family without a live token and without a rotation in flight never comes back. */
  lemma {:induction false} DeadForever(events: seq<Event>, more: seq<Event>, family: Id)
    requires Dead(After(events), family) && family < After(events).db.nextId
    ensures Dead(After(events + more), family) && family < After(events + more).db.nextId
    decreases |more|
  {
    hide Next, Inv, Dead;
    if more == [] {
      assert events + more == events;
    } else {
      var most := more[..|more| - 1];
      DeadForever(events, most, family);
      AfterInv(events + most);
      assert (events + more)[..|events + more| - 1] == events + most;
      HoldersComeFromHolders(After(events + most), more[|more| - 1], family);
    }
  }

  // ---------------------------------------------------------------------
  // Reuse detection under concurrency
  // ---------------------------------------------------------------------

  /** The first statement of the answer to a reuse kills the family exactly when no rotation is in flight; with a
      session the answer goes on and catches successors inserted before its last statement. */
  lemma ReuseKillsUnlessInFlight(w: World, run: Id, input: Input, family: Id)
    requires Inv(w) && run in w.runs && w.runs[run].ReuseDetected? && w.runs[run].rt.familyId == Some(family)
    ensures LiveFamily(ExecRun(w, run, input).db, family) == {}
    ensures Dead(ExecRun(w, run, input), family) <==> InFlight(w, family) == {}
  {
    var w' := ExecRun(w, run, input);
    var rt := w.runs[run].rt;
    assert PcOk(w, run, w.runs[run]);
    assert w'.db == RevokeFamily(w.db, family, rt.tenantId) && w'.runs == w.runs[run := AfterReuse(rt)];
    hide Step, ExecRun;
    forall id | id in w'.db.refresh && w'.db.refresh[id].familyId == Some(family) ensures w'.db.refresh[id].revoked {
      assert FamilyOk(w, w.db.refresh[id]);
    }
    if InFlight(w, family) == {} {
      assert forall r :: Holds(w', Rotation(r), family) ==> r in InFlight(w, family);
      forall h ensures !Holds(w', h, family) {
      }
    } else {
      var r :| r in InFlight(w, family);
      assert Holds(w', Rotation(r), family);
    }
  }
}
