/**
  Every step of every handler keeps the invariant of the token tables, so every
  reachable world satisfies it.
 */
module TokenInvariants {
  import opened Options
  import FreshIds
  import opened TokenTables
  import opened TokenRuns
  import opened TokenWorld

  // ---------------------------------------------------------------------
  // Steps that only let rows die, or insert a row nothing else depends on
  // ---------------------------------------------------------------------

  /** Handlers that rely on nothing. */
  predicate Light(pc: Pc) {
    !pc.ClaimRefresh? && !pc.InsertSuccessor? && !pc.ReuseDetected? && !pc.FindSession? && !pc.MintAccess?
        && !pc.MintRefresh?
  }

  predicate SameCodes(db: Db, db': Db) {
    forall c :: c in db'.codes ==> c in db.codes && db'.codes[c].used == db.codes[c].used
  }

  lemma DyingKeepsInv(w: World, run: Id, db: Db, pc: Pc)
    requires Inv(w) && OnlyDies(w.db, db) && Light(pc) && SameCodes(w.db, db)
    ensures Inv(w.(db := db, runs := w.runs[run := pc]))
  {
    var w' := w.(db := db, runs := w.runs[run := pc]);
    hide RunsOk, CodesOk, RotationsOk, OneHolder;
    assert Frame(w, w', run);
    assert PcOk(w', run, pc);
    hide Frame, PcOk;
    HoldersShrink(w, w');
    FrameKeeps(w, w', run, pc);
  }

  lemma InsertAccessKeepsInv(w: World, run: Id, row: AccessRow, pc: Pc)
    requires Inv(w) && row.authCodeId.None? && Light(pc)
    ensures Inv(w.(db := InsertAccess(w.db, row), runs := w.runs[run := pc]))
  {
    var w' := w.(db := InsertAccess(w.db, row), runs := w.runs[run := pc]);
    hide RunsOk, CodesOk, RotationsOk, OneHolder;
    assert Frame(w, w', run);
    assert PcOk(w', run, pc);
    hide Frame, PcOk;
    HoldersShrink(w, w');
    FrameKeeps(w, w', run, pc);
  }

  lemma InsertPlainKeepsInv(w: World, run: Id, row: RefreshRow, pc: Pc)
    requires Inv(w) && row.familyId.None? && row.authCodeId.None? && Light(pc)
    ensures Inv(w.(db := InsertPlainRefresh(w.db, row), runs := w.runs[run := pc]))
  {
    var w' := w.(db := InsertPlainRefresh(w.db, row), runs := w.runs[run := pc]);
    hide RunsOk, CodesOk, RotationsOk, OneHolder;
    assert Frame(w, w', run);
    assert PcOk(w', run, pc);
    hide Frame, PcOk;
    HoldersShrink(w, w');
    FrameKeeps(w, w', run, pc);
  }

  // ---------------------------------------------------------------------
  // The refresh grant
  // ---------------------------------------------------------------------

  lemma LookupKeepsInv(w: World, run: Id, input: Input)
    requires Inv(w) && run in w.runs && w.runs[run].RefreshLookup?
    ensures Inv(ExecRun(w, run, input))
  {
    var w' := ExecRun(w, run, input);
    var pc := w'.runs[run];
    hide RunsOk, CodesOk, RotationsOk, OneHolder;
    assert w' == w.(runs := w.runs[run := pc]);
    assert PcOk(w', run, pc);
    assert pc.InsertSuccessor? ==> false;
    SameDbKeepsInv(w, run, pc);
  }

  /** A step that writes nothing. */
  lemma SameDbKeepsInv(w: World, run: Id, pc: Pc)
    requires Inv(w) && !pc.InsertSuccessor? && PcOk(w.(runs := w.runs[run := pc]), run, pc)
    ensures Inv(w.(runs := w.runs[run := pc]))
  {
    var w' := w.(runs := w.runs[run := pc]);
    hide RunsOk, CodesOk, RotationsOk, OneHolder, PcOk;
    assert Frame(w, w', run);
    hide Frame;
    HoldersShrink(w, w');
    FrameKeeps(w, w', run, pc);
  }

  function Claimed(w: World, run: Id, pc: Pc): World
    requires pc.ClaimRefresh?
  {
    w.(db := RevokeRefreshById(w.db, pc.id), runs := w.runs[run := InsertSuccessor(pc.rt)],
       rotatedBy := w.rotatedBy[pc.id := run])
  }

  lemma ClaimIs(w: World, run: Id, input: Input)
    requires run in w.runs && Rotates(w.db, w.runs[run])
    ensures ExecRun(w, run, input) == Claimed(w, run, w.runs[run])
  {
    hide RevokeRefresh;
  }

  lemma ClaimHolders(w: World, run: Id, pc: Pc)
    requires pc.ClaimRefresh? && ClaimsRefresh(w.db, pc.id) && PcOk(w, run, pc)
    ensures forall f, h :: Holds(Claimed(w, run, pc), h, f) ==>
      (h != Token(pc.id) && h != Rotation(run) && Holds(w, h, f)) || (h == Rotation(run) && Holds(w, Token(pc.id), f))
  {
  }

  lemma ClaimFrame(w: World, run: Id, pc: Pc)
    requires TablesOk(w) && pc.ClaimRefresh? && ClaimsRefresh(w.db, pc.id) && PcOk(w, run, pc)
    ensures Frame(w, Claimed(w, run, pc), run) && PcOk(Claimed(w, run, pc), run, InsertSuccessor(pc.rt))
  {
  }

  /** Claiming trades the family's live token for an in-flight rotation. */
  lemma ClaimKeepsInv(w: World, run: Id, input: Input)
    requires Inv(w) && run in w.runs && Rotates(w.db, w.runs[run])
    ensures Inv(ExecRun(w, run, input))
  {
    var pc := w.runs[run];
    var w' := Claimed(w, run, pc);
    ClaimIs(w, run, input);
    assert PcOk(w, run, pc);
    hide RunsOk, CodesOk, RotationsOk, OneHolder, ExecRun, Step;
    ClaimHolders(w, run, pc);
    ClaimFrame(w, run, pc);
    hide Holds, Frame, PcOk;
    HolderExchanged(w, w', Token(pc.id), Rotation(run));
    FrameKeeps(w, w', run, InsertSuccessor(pc.rt));
  }

  /** One holder gone, another in its place. */
  lemma HolderExchanged(w: World, w': World, gone: Holder, come: Holder)
    requires OneHolder(w)
    requires forall f, h :: Holds(w', h, f) ==>
        (h != gone && h != come && Holds(w, h, f)) || (h == come && Holds(w, gone, f))
    ensures OneHolder(w')
  {
    forall f, g, h | Holds(w', g, f) && Holds(w', h, f) ensures g == h {
      assert g == come ==> Holds(w, gone, f);
      assert h == come ==> Holds(w, gone, f);
    }
  }

  /** A holder of a family nobody held. */
  lemma HolderFounded(w: World, w': World, come: Holder, family: Id)
    requires OneHolder(w) && forall h :: !Holds(w, h, family)
    requires forall f, h :: Holds(w', h, f) ==> Holds(w, h, f) || (h == come && f == family)
    ensures OneHolder(w')
  {
  }

  lemma NobodyHoldsFresh(w: World)
    requires TablesOk(w) && RunsOk(w)
    ensures forall f: Id, h :: Holds(w, h, f) ==> f < w.db.nextId
  {
    forall f: Id, h | Holds(w, h, f) ensures f < w.db.nextId {
      match h
      case Token(id) => assert FamilyOk(w, w.db.refresh[id]);
      case Rotation(r) => assert PcOk(w, r, w.runs[r]);
    }
  }

  /** A refresh token inserted by a step of `run` to `next`; its family is founded if it has none. */
  function WithIssued(w: World, run: Id, row: RefreshRow, next: Pc): World {
    w.(db := IssueRefresh(w.db, row), runs := w.runs[run := next],
       families := if row.familyId.Some? then w.families else w.families[w.db.nextId := ProfileOf(row)])
  }

  lemma SuccessorIs(w: World, run: Id, input: Input)
    requires run in w.runs && w.runs[run].InsertSuccessor?
    ensures ExecRun(w, run, input)
        == WithIssued(w, run, Successor(w.runs[run].rt, input.now), ReadSession(w.runs[run].rt))
  {
  }

  lemma MintRefreshIs(w: World, run: Id, input: Input)
    requires run in w.runs && w.runs[run].MintRefresh?
    ensures ExecRun(w, run, input) == WithIssued(w, run, RefreshFor(w.runs[run].mint, input.now), Done(Outcome.Issued))
  {
  }

  /** The new token takes over from the in-flight rotation, or founds a family. */
  lemma IssuedHolders(w: World, run: Id, row: RefreshRow, next: Pc)
    requires run in w.runs && !next.InsertSuccessor?
        && (w.runs[run].InsertSuccessor? ==> w.runs[run].rt.familyId == row.familyId)
    requires row.familyId.Some? ==> w.runs[run].InsertSuccessor?
    ensures
      var come := Token(w.db.nextId + 1);
      if row.familyId.Some? then
        forall f, h :: Holds(WithIssued(w, run, row, next), h, f) ==>
          (h != Rotation(run) && h != come && Holds(w, h, f)) || (h == come && Holds(w, Rotation(run), f))
      else
        forall f, h :: Holds(WithIssued(w, run, row, next), h, f) ==> Holds(w, h, f) || (h == come && f == w.db.nextId)
  {
  }

  lemma IssuedOneHolder(w: World, run: Id, row: RefreshRow, next: Pc)
    requires TablesOk(w) && RunsOk(w) && OneHolder(w)
    requires run in w.runs && !next.InsertSuccessor?
        && (w.runs[run].InsertSuccessor? ==> w.runs[run].rt.familyId == row.familyId)
    requires row.familyId.Some? ==> w.runs[run].InsertSuccessor?
    ensures OneHolder(WithIssued(w, run, row, next))
  {
    NobodyHoldsFresh(w);
    IssuedHolders(w, run, row, next);
    hide Holds, RunsOk, TablesOk, OneHolder;
    var w' := WithIssued(w, run, row, next);
    if row.familyId.Some? {
      HolderExchanged(w, w', Rotation(run), Token(w.db.nextId + 1));
    } else {
      HolderFounded(w, w', Token(w.db.nextId + 1), w.db.nextId);
    }
  }

  /** The row fits its family, and a code it carries has minted no other. */
  ghost predicate FitsIn(w: World, run: Id, row: RefreshRow) {
    && row.scope != "" && FamilyOk(w, row)
    && (row.authCodeId.Some? ==> RedeemedBy(w, row.authCodeId.value, run) && NoRefreshOf(w, row.authCodeId.value))
  }

  lemma IssuedFrame(w: World, run: Id, row: RefreshRow, next: Pc)
    requires TablesOk(w) && FitsIn(w, run, row)
    ensures Frame(w, WithIssued(w, run, row, next), run)
  {
  }

  lemma LightPcOk(w: World, run: Id, pc: Pc)
    requires Light(pc)
    ensures PcOk(w, run, pc)
  {
  }

  lemma IssuedKeepsInv(w: World, run: Id, row: RefreshRow, next: Pc)
    requires Inv(w) && run in w.runs && FitsIn(w, run, row) && Light(next) && !next.InsertSuccessor?
    requires w.runs[run].InsertSuccessor? ==> w.runs[run].rt.familyId == row.familyId
    requires row.familyId.Some? ==> w.runs[run].InsertSuccessor?
    ensures Inv(WithIssued(w, run, row, next))
  {
    hide TablesOk, RunsOk, CodesOk, RotationsOk, OneHolder, Frame, PcOk, FitsIn;
    var w' := WithIssued(w, run, row, next);
    IssuedOneHolder(w, run, row, next);
    IssuedFrame(w, run, row, next);
    LightPcOk(w', run, next);
    FrameKeeps(w, w', run, next);
  }

  lemma RunIsOk(w: World, run: Id)
    requires Inv(w) && run in w.runs
    ensures PcOk(w, run, w.runs[run])
  {
  }

  /** Inserting the successor trades the in-flight rotation for a live token. */
  lemma SuccessorKeepsInv(w: World, run: Id, input: Input)
    requires Inv(w) && run in w.runs && w.runs[run].InsertSuccessor?
    ensures Inv(ExecRun(w, run, input))
  {
    hide Inv, ExecRun;
    var rt := w.runs[run].rt;
    RunIsOk(w, run);
    SuccessorIs(w, run, input);
    hide WithIssued;
    IssuedKeepsInv(w, run, Successor(rt, input.now), ReadSession(rt));
  }

  // ---------------------------------------------------------------------
  // The code grant and minting
  // ---------------------------------------------------------------------

  function Redeemed(w: World, run: Id, code: Id, next: Pc): World
    requires code in w.db.codes
  {
    w.(db := UseCode(w.db, code), runs := w.runs[run := next], redeemedBy := w.redeemedBy[code := run])
  }

  lemma CodeClaimIs(w: World, run: Id, input: Input)
    requires run in w.runs && Redeems(w.db, w.runs[run])
    ensures
      var code := w.runs[run].code;
      var next := ExecRun(w, run, input).runs[run];
      && ExecRun(w, run, input) == Redeemed(w, run, code, next)
      && (next == Done(Denied) || (next.FindSession? && next.code == code))
  {
  }

  lemma CodeClaimFrame(w: World, run: Id, code: Id, next: Pc)
    requires TablesOk(w) && CodesOk(w) && code in w.db.codes && !w.db.codes[code].used
    requires next == Done(Denied) || (next.FindSession? && next.code == code)
    ensures Frame(w, Redeemed(w, run, code, next), run) && PcOk(Redeemed(w, run, code, next), run, next)
  {
    NothingMintedYet(w, code);
  }

  lemma CodeClaimKeepsInv(w: World, run: Id, input: Input)
    requires Inv(w) && run in w.runs && Redeems(w.db, w.runs[run])
    ensures Inv(ExecRun(w, run, input))
  {
    CodeClaimIs(w, run, input);
    hide RunsOk, RotationsOk, OneHolder, CodesOk, ExecRun, Step;
    var next := ExecRun(w, run, input).runs[run];
    var code := w.runs[run].code;
    CodeClaimFrame(w, run, code, next);
    hide Frame, PcOk;
    HoldersShrink(w, Redeemed(w, run, code, next));
    FrameKeeps(w, Redeemed(w, run, code, next), run, next);
  }

  lemma NothingMintedYet(w: World, code: Id)
    requires CodesOk(w) && code in w.db.codes && !w.db.codes[code].used
    ensures code !in w.redeemedBy && NoAccessOf(w, code) && NoRefreshOf(w, code)
  {
  }

  lemma FindSessionKeepsInv(w: World, run: Id, input: Input)
    requires Inv(w) && run in w.runs && w.runs[run].FindSession?
    ensures Inv(ExecRun(w, run, input))
  {
    var w' := ExecRun(w, run, input);
    var pc := w'.runs[run];
    assert PcOk(w, run, w.runs[run]);
    assert w' == w.(runs := w.runs[run := pc]);
    assert PcOk(w', run, pc);
    SameDbKeepsInv(w, run, pc);
  }

  function WithAccess(w: World, run: Id, row: AccessRow, next: Pc): World {
    w.(db := InsertAccess(w.db, row), runs := w.runs[run := next])
  }

  lemma MintAccessIs(w: World, run: Id, input: Input)
    requires run in w.runs && w.runs[run].MintAccess?
    ensures ExecRun(w, run, input)
        == WithAccess(w, run, AccessFor(w.runs[run].mint, input.now), MintRefresh(w.runs[run].mint))
  {
  }

  lemma MintAccessFrame(w: World, run: Id, mint: Mint, now: nat)
    requires TablesOk(w) && PcOk(w, run, MintAccess(mint))
    ensures Frame(w, WithAccess(w, run, AccessFor(mint, now), MintRefresh(mint)), run)
    ensures PcOk(WithAccess(w, run, AccessFor(mint, now), MintRefresh(mint)), run, MintRefresh(mint))
  {
  }

  lemma MintAccessKeepsInv(w: World, run: Id, input: Input)
    requires Inv(w) && run in w.runs && w.runs[run].MintAccess?
    ensures Inv(ExecRun(w, run, input))
  {
    hide RunsOk, CodesOk, RotationsOk, OneHolder, TablesOk, ExecRun, Frame, PcOk;
    var mint := w.runs[run].mint;
    var w' := WithAccess(w, run, AccessFor(mint, input.now), MintRefresh(mint));
    RunIsOk(w, run);
    MintAccessIs(w, run, input);
    MintAccessFrame(w, run, mint, input.now);
    HoldersShrink(w, w');
    FrameKeeps(w, w', run, MintRefresh(mint));
  }

  lemma MintRefreshKeepsInv(w: World, run: Id, input: Input)
    requires Inv(w) && run in w.runs && w.runs[run].MintRefresh?
    ensures Inv(ExecRun(w, run, input))
  {
    hide Inv, ExecRun;
    RunIsOk(w, run);
    MintRefreshIs(w, run, input);
    hide WithIssued;
    IssuedKeepsInv(w, run, RefreshFor(w.runs[run].mint, input.now), Done(Outcome.Issued));
  }

  // ---------------------------------------------------------------------
  // All other steps
  // ---------------------------------------------------------------------

  predicate Plain(db: Db, pc: Pc) {
    && !pc.RefreshLookup? && !pc.InsertSuccessor? && !pc.FindSession? && !pc.MintAccess? && !pc.MintRefresh?
    && !Rotates(db, pc) && !Redeems(db, pc)
  }

  predicate Inserts(pc: Pc) {
    pc.InsertRefreshedAccess? || pc.FirstPartyAccess? || pc.FirstPartyInsert?
  }

  /** Steps whose one statement revokes tokens. */
  predicate RevokesTokens(pc: Pc) {
    || pc.ReuseDetected? || pc.KillAccess? || pc.KillRefresh? || pc.KillCodeAccess? || pc.KillCodeRefresh?
    || pc.RevokeAccessToken? || pc.RevokeRefreshToken? || pc.RevokeWholeFamily? || pc.FirstPartyRevoke?
    || pc.KillUserAccess? || pc.KillUserRefresh?
  }

  lemma RevokingStep(db: Db, pc: Pc, input: Input)
    requires RevokesTokens(pc)
    ensures OnlyDies(db, Step(db, pc, input).0) && SameCodes(db, Step(db, pc, input).0)
  {
    hide RevokeRefresh, RevokeAccess;
    if pc.ReuseDetected? && pc.rt.familyId.None? {
      SessionWriteDies(db, db);
    }
    hide OnlyDies;
  }

  lemma OtherDyingStep(db: Db, pc: Pc, input: Input)
    requires Plain(db, pc) && !Inserts(pc) && !RevokesTokens(pc)
    ensures OnlyDies(db, Step(db, pc, input).0) && SameCodes(db, Step(db, pc, input).0)
  {
    hide DeleteExpiredAccess, DeleteExpiredRefresh, OnlyDies;
    if !pc.CleanAccess? && !pc.CleanRefresh? {
      SessionWriteDies(db, Step(db, pc, input).0);
    }
  }

  lemma DyingStep(db: Db, pc: Pc, input: Input)
    requires Plain(db, pc) && !Inserts(pc)
    ensures OnlyDies(db, Step(db, pc, input).0) && SameCodes(db, Step(db, pc, input).0)
    ensures Light(Step(db, pc, input).1)
  {
    if RevokesTokens(pc) { RevokingStep(db, pc, input); } else { OtherDyingStep(db, pc, input); }
    hide OnlyDies, SameCodes, RevokeFamily, RevokeSessionAccess, RevokeSessionRefresh, RevokeCodeAccess,
         RevokeCodeRefresh, RevokeRefreshById, RevokeAccessById, RevokeUserAccess, RevokeUserRefresh, UpdateSession,
         DeleteExpiredAccess, DeleteExpiredRefresh, DeleteExpiredCodes;
  }

  lemma SessionWriteDies(db: Db, db': Db)
    requires db'.refresh == db.refresh && db'.access == db.access && db'.nextId == db.nextId
    ensures OnlyDies(db, db')
  {
  }

  lemma PlainKeepsInv(w: World, run: Id, input: Input)
    requires Inv(w) && run in w.runs && Plain(w.db, w.runs[run])
    ensures Inv(ExecRun(w, run, input))
  {
    hide Inv, OnlyDies, SameCodes;
    var pc := w.runs[run];
    var w' := ExecRun(w, run, input);
    if Inserts(pc) {
      if pc.FirstPartyInsert? {
        InsertPlainKeepsInv(w, run, w'.db.refresh[w.db.nextId], w'.runs[run]);
      } else {
        InsertAccessKeepsInv(w, run, w'.db.access[w.db.nextId], w'.runs[run]);
      }
    } else {
      DyingStep(w.db, pc, input);
      hide Step;
      DyingKeepsInv(w, run, w'.db, w'.runs[run]);
    }
  }

  lemma NextKeepsInv(w: World, e: Event)
    requires Inv(w)
    ensures Inv(Next(w, e))
  {
    hide Inv, Step;
    match e
    case Start(run, pc) => StartKeepsInv(w, run, pc);
    case Exec(run, input) => if run in w.runs { ExecKeepsInv(w, run, input); }
    case Authorize(code) => AuthorizeKeepsInv(w, code);
    case OpenSession(session) => OpenSessionKeepsInv(w, session);
  }

  lemma ExecKeepsInv(w: World, run: Id, input: Input)
    requires Inv(w) && run in w.runs
    ensures Inv(ExecRun(w, run, input))
  {
    hide Inv, ExecRun;
    var pc := w.runs[run];
    if pc.RefreshLookup? { LookupKeepsInv(w, run, input); }
    else if pc.InsertSuccessor? { SuccessorKeepsInv(w, run, input); }
    else if pc.FindSession? { FindSessionKeepsInv(w, run, input); }
    else if pc.MintAccess? { MintAccessKeepsInv(w, run, input); }
    else if pc.MintRefresh? { MintRefreshKeepsInv(w, run, input); }
    else if Rotates(w.db, pc) { ClaimKeepsInv(w, run, input); }
    else if Redeems(w.db, pc) { CodeClaimKeepsInv(w, run, input); }
    else { PlainKeepsInv(w, run, input); }
  }

  lemma StartKeepsInv(w: World, run: Id, pc: Pc)
    requires Inv(w)
    ensures Inv(Next(w, Start(run, pc)))
  {
    if run !in w.runs && IsEntry(pc) {
      assert PcOk(w.(runs := w.runs[run := pc]), run, pc);
      SameDbKeepsInv(w, run, pc);
    }
  }

  /** Inserting a fresh code or session, as a step of a handler that has already ended. */
  lemma AuthorizeKeepsInv(w: World, code: CodeRow)
    requires Inv(w)
    ensures Inv(Next(w, Authorize(code)))
  {
    InsertRowKeepsInv(w, Next(w, Authorize(code)));
  }

  lemma OpenSessionKeepsInv(w: World, session: SessionRow)
    requires Inv(w)
    ensures Inv(Next(w, OpenSession(session)))
  {
    InsertRowKeepsInv(w, Next(w, OpenSession(session)));
  }

  lemma InsertRowKeepsInv(w: World, w': World)
    requires Inv(w) && w' == w.(db := w'.db) && w'.db.refresh == w.db.refresh && w'.db.access == w.db.access
    requires w'.db.nextId == w.db.nextId + 1
    requires forall c :: c in w'.db.codes ==>
        (c in w.db.codes && w'.db.codes[c] == w.db.codes[c]) || (c !in w.db.codes && c == w.db.nextId)
    ensures Inv(w')
  {
    var idle := FreshRun(w);
    hide RunsOk, CodesOk, RotationsOk, OneHolder;
    assert Frame(w, w', idle);
    hide Frame;
    HoldersShrink(w, w');
    FrameTables(w, w', idle);
    FrameRotations(w, w', idle);
    FrameCodes(w, w', idle);
    FrameAllRuns(w, w', idle);
  }

  lemma FrameAllRuns(w: World, w': World, idle: Id)
    requires RunsOk(w) && Frame(w, w', idle) && w'.runs == w.runs && idle !in w.runs
    ensures RunsOk(w')
  {
    hide Frame, PcOk;
    forall q | q in w'.runs ensures PcOk(w', q, w'.runs[q]) {
      FrameRun(w, w', idle, q, w.runs[q]);
    }
  }

  /** A run id that is not in use. */
  lemma FreshRun(w: World) returns (run: Id)
    ensures run !in w.runs
  {
    run := FreshIds.Above(w.runs.Keys);
  }

  lemma {:induction false} AfterInv(events: seq<Event>)
    ensures Inv(After(events))
  {
    if events == [] {
    } else {
      AfterInv(events[..|events| - 1]);
      NextKeepsInv(After(events[..|events| - 1]), events[|events| - 1]);
    }
  }
}
