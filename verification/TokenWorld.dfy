/**
  Any number of handlers over the token tables, interleaved statement by
  statement, and the invariant they keep: one holder per refresh family,
  families that agree in everything, and codes and tokens that are used once.
 */
module TokenWorld {
  import opened Options
  import opened TokenTables
  import opened TokenRuns

  /** What the members of a refresh family share. */
  datatype Profile = Profile(userId: Id, clientId: Option<Id>, tenantId: Id, scope: string, sessionId: Option<Id>)

  /** The tables, the running handlers, and a record of what was minted, rotated and redeemed by whom. */
  datatype World = World(
    db: Db,
    runs: map<Id, Pc>,
    families: map<Id, Profile>,
    rotatedBy: map<Id, Id>,
    redeemedBy: map<Id, Id>
  )

  datatype Event =
    | Start(run: Id, pc: Pc)
    | Exec(run: Id, input: Input)
    | Authorize(code: CodeRow)
    | OpenSession(session: SessionRow)

  function ProfileOf(rt: RefreshRow): Profile {
    Profile(rt.userId, rt.clientId, rt.tenantId, rt.scope, rt.sessionId)
  }

  /** The refresh row a step is about to insert into a new family. */
  function FoundsFamily(pc: Pc, input: Input): Option<RefreshRow> {
    if pc.InsertSuccessor? && pc.rt.familyId.None? then Some(Successor(pc.rt, input.now))
    else if pc.MintRefresh? then Some(RefreshFor(pc.mint, input.now))
    else None
  }

  predicate Rotates(db: Db, pc: Pc) {
    pc.ClaimRefresh? && ClaimsRefresh(db, pc.id)
  }

  predicate Redeems(db: Db, pc: Pc) {
    pc.ClaimCode? && ClaimsCode(db, pc.code, pc.client, pc.tenant, pc.redirectUri)
  }

  function ExecRun(w: World, run: Id, input: Input): World
    requires run in w.runs
  {
    var pc := w.runs[run];
    var (db, next) := Step(w.db, pc, input);
    var founded := FoundsFamily(pc, input);
    World(db, w.runs[run := next],
          if founded.Some? then w.families[w.db.nextId := ProfileOf(founded.value)] else w.families,
          if Rotates(w.db, pc) then w.rotatedBy[pc.id := run] else w.rotatedBy,
          if Redeems(w.db, pc) then w.redeemedBy[pc.code := run] else w.redeemedBy)
  }

  function Next(w: World, e: Event): World {
    match e
    case Start(run, pc) => if run !in w.runs && IsEntry(pc) then w.(runs := w.runs[run := pc]) else w
    case Exec(run, input) => if run in w.runs then ExecRun(w, run, input) else w
    case Authorize(row) => w.(db := InsertCode(w.db, row.(used := false)))
    case OpenSession(row) => w.(db := InsertSession(w.db, row))
  }

  function Empty(): World {
    World(Db(map[], map[], map[], map[], 0), map[], map[], map[], map[])
  }

  function After(events: seq<Event>): World {
    if events == [] then Empty() else Next(After(events[..|events| - 1]), events[|events| - 1])
  }

  /** Runs that have claimed a token of the family and not yet inserted its successor. */
  function InFlight(w: World, family: Id): set<Id> {
    set run | run in w.runs && w.runs[run].InsertSuccessor? && w.runs[run].rt.familyId == Some(family)
  }

  // ---------------------------------------------------------------------
  // The invariant
  // ---------------------------------------------------------------------

  ghost predicate FamilyOk(w: World, rt: RefreshRow) {
    rt.familyId.Some? ==>
      rt.familyId.value in w.families && w.families[rt.familyId.value] == ProfileOf(rt) && rt.scope != ""
  }

  ghost predicate TablesOk(w: World) {
    && (forall id :: id in w.db.refresh ==> id < w.db.nextId && FamilyOk(w, w.db.refresh[id]))
    && (forall id :: id in w.db.access ==> id < w.db.nextId)
    && (forall id :: id in w.db.codes ==> id < w.db.nextId)
    && (forall f :: f in w.families ==> f < w.db.nextId)
  }

  ghost predicate NoAccessOf(w: World, code: Id) {
    forall id :: id in w.db.access ==> w.db.access[id].authCodeId != Some(code)
  }

  ghost predicate NoRefreshOf(w: World, code: Id) {
    forall id :: id in w.db.refresh ==> w.db.refresh[id].authCodeId != Some(code)
  }

  predicate RedeemedBy(w: World, code: Id, run: Id) {
    code in w.redeemedBy && w.redeemedBy[code] == run
  }

  /** What a handler may rely on before its next statement. */
  ghost predicate PcOk(w: World, run: Id, pc: Pc) {
    match pc
    case ClaimRefresh(id, rt) => id < w.db.nextId && (id in w.db.refresh ==> SameToken(w.db.refresh[id], rt))
        && FamilyOk(w, rt)
    case InsertSuccessor(rt) => FamilyOk(w, rt)
    case ReuseDetected(rt) => FamilyOk(w, rt)
    case FindSession(code, row) => RedeemedBy(w, code, run) && NoAccessOf(w, code) && NoRefreshOf(w, code)
    case MintAccess(mint) =>
      mint.scope != "" &&
      (mint.authCodeId.Some? ==>
         RedeemedBy(w, mint.authCodeId.value, run) && NoAccessOf(w, mint.authCodeId.value)
             && NoRefreshOf(w, mint.authCodeId.value))
    case MintRefresh(mint) =>
      mint.scope != "" &&
      (mint.authCodeId.Some? ==> RedeemedBy(w, mint.authCodeId.value, run) && NoRefreshOf(w, mint.authCodeId.value))
    case _ => true
  }

  ghost predicate RunsOk(w: World) {
    forall run :: run in w.runs ==> PcOk(w, run, w.runs[run])
  }

  /** What can keep a family going: an unrevoked token, or a rotation between its claim and its insert. */
  datatype Holder = Token(id: Id) | Rotation(run: Id)

  predicate Holds(w: World, h: Holder, family: Id) {
    match h
    case Token(id) => id in w.db.refresh && w.db.refresh[id].familyId == Some(family) && !w.db.refresh[id].revoked
    case Rotation(run) => run in w.runs && w.runs[run].InsertSuccessor? && w.runs[run].rt.familyId == Some(family)
  }

  ghost predicate OneHolder(w: World) {
    forall f, g, h :: Holds(w, g, f) && Holds(w, h, f) ==> g == h
  }

  ghost predicate RotationsOk(w: World) {
    forall id :: id in w.rotatedBy ==> id < w.db.nextId && (id in w.db.refresh ==> w.db.refresh[id].revoked)
  }

  ghost predicate CodesOk(w: World) {
    && (forall c :: c in w.db.codes && !w.db.codes[c].used ==> c !in w.redeemedBy)
    && (forall c :: c in w.redeemedBy ==> c < w.db.nextId)
    && (forall id :: id in w.db.access && w.db.access[id].authCodeId.Some? ==>
        w.db.access[id].authCodeId.value in w.redeemedBy)
    && (forall id :: id in w.db.refresh && w.db.refresh[id].authCodeId.Some? ==>
        w.db.refresh[id].authCodeId.value in w.redeemedBy)
    && (forall i, j :: AccessOf(w, i, j) ==> i == j)
    && (forall i, j :: RefreshOf(w, i, j) ==> i == j)
  }

  /** Two access tokens minted from one code. */
  predicate AccessOf(w: World, i: Id, j: Id) {
    && i in w.db.access && j in w.db.access
    && w.db.access[i].authCodeId.Some? && w.db.access[i].authCodeId == w.db.access[j].authCodeId
  }

  predicate RefreshOf(w: World, i: Id, j: Id) {
    && i in w.db.refresh && j in w.db.refresh
    && w.db.refresh[i].authCodeId.Some? && w.db.refresh[i].authCodeId == w.db.refresh[j].authCodeId
  }

  ghost predicate Inv(w: World) {
    TablesOk(w) && RunsOk(w) && OneHolder(w) && RotationsOk(w) && CodesOk(w)
  }

  // ---------------------------------------------------------------------
  // What every step leaves alone
  // ---------------------------------------------------------------------

  /** Old rows keep their identity and stay dead once dead; new rows fit their family and, if they
      carry a code, were minted by its redeemer, once. */
  ghost predicate RefreshFrame(w: World, w': World, run: Id) {
    forall id :: id in w'.db.refresh ==> OldRefresh(w.db, w'.db, id) || NewRefresh(w, w', run, id)
  }

  predicate OldRefresh(db: Db, db': Db, id: Id)
    requires id in db'.refresh
  {
    id < db.nextId && id in db.refresh && SameToken(db.refresh[id], db'.refresh[id])
    && (db.refresh[id].revoked ==> db'.refresh[id].revoked)
  }

  ghost predicate NewRefresh(w: World, w': World, run: Id, id: Id)
    requires id in w'.db.refresh
  {
    var code := w'.db.refresh[id].authCodeId;
    && w.db.nextId <= id == w'.db.nextId - 1
    && FamilyOk(w', w'.db.refresh[id])
    && (code.Some? ==> RedeemedBy(w', code.value, run) && NoRefreshOf(w, code.value))
  }

  ghost predicate AccessFrame(w: World, w': World, run: Id) {
    forall id :: id in w'.db.access ==> OldAccess(w.db, w'.db, id) || NewAccess(w, w', run, id)
  }

  predicate OldAccess(db: Db, db': Db, id: Id)
    requires id in db'.access
  {
    id < db.nextId && id in db.access && SameAccess(db.access[id], db'.access[id])
  }

  ghost predicate NewAccess(w: World, w': World, run: Id, id: Id)
    requires id in w'.db.access
  {
    var code := w'.db.access[id].authCodeId;
    && w.db.nextId <= id == w'.db.nextId - 1
    && (code.Some? ==> RedeemedBy(w', code.value, run) && NoAccessOf(w, code.value))
  }

  /** Codes stay used; a code enters the record of redemptions when its row turns used. */
  ghost predicate CodeFrame(w: World, w': World) {
    && (forall c :: c in w'.db.codes ==>
          if c in w.db.codes then (w.db.codes[c].used ==> w'.db.codes[c].used) else w.db.nextId <= c < w'.db.nextId)
    && (forall c :: c in w.redeemedBy ==> c in w'.redeemedBy && w'.redeemedBy[c] == w.redeemedBy[c])
    && (forall c :: c in w'.redeemedBy ==>
          c in w.redeemedBy || (c in w.db.codes && !w.db.codes[c].used && (c in w'.db.codes ==> w'.db.codes[c].used)))
  }

  ghost predicate RecordFrame(w: World, w': World) {
    && w.db.nextId <= w'.db.nextId
    && (forall f :: f in w.families ==> f in w'.families && w'.families[f] == w.families[f])
    && (forall f :: f in w'.families ==> f in w.families || w.db.nextId <= f < w'.db.nextId)
    && (forall id :: id in w'.rotatedBy ==>
          id in w.rotatedBy || (id in w.db.refresh && (id in w'.db.refresh ==> w'.db.refresh[id].revoked)))
  }

  ghost predicate Frame(w: World, w': World, run: Id) {
    RefreshFrame(w, w', run) && AccessFrame(w, w', run) && CodeFrame(w, w') && RecordFrame(w, w')
  }

  lemma FrameTables(w: World, w': World, run: Id)
    requires TablesOk(w) && Frame(w, w', run)
    ensures TablesOk(w')
  {
    forall id | id in w'.db.refresh ensures id < w'.db.nextId && FamilyOk(w', w'.db.refresh[id]) {
      if OldRefresh(w.db, w'.db, id) {
        assert FamilyOk(w, w.db.refresh[id]);
      }
    }
  }

  lemma FrameRotations(w: World, w': World, run: Id)
    requires TablesOk(w) && RotationsOk(w) && Frame(w, w', run)
    ensures RotationsOk(w')
  {
    forall id | id in w'.rotatedBy ensures id < w'.db.nextId && (id in w'.db.refresh ==> w'.db.refresh[id].revoked) {
      if id in w'.db.refresh && id in w.rotatedBy {
        assert OldRefresh(w.db, w'.db, id) || NewRefresh(w, w', run, id);
      }
    }
  }

  lemma FrameCodes(w: World, w': World, run: Id)
    requires TablesOk(w) && CodesOk(w) && Frame(w, w', run)
    ensures CodesOk(w')
  {
    forall id | id in w'.db.access && w'.db.access[id].authCodeId.Some?
      ensures w'.db.access[id].authCodeId.value in w'.redeemedBy
    {
      assert OldAccess(w.db, w'.db, id) || NewAccess(w, w', run, id);
    }
    forall id | id in w'.db.refresh && w'.db.refresh[id].authCodeId.Some?
      ensures w'.db.refresh[id].authCodeId.value in w'.redeemedBy
    {
      assert OldRefresh(w.db, w'.db, id) || NewRefresh(w, w', run, id);
    }
    forall i, j | AccessOf(w', i, j) ensures i == j {
      assert OldAccess(w.db, w'.db, i) || NewAccess(w, w', run, i);
      assert OldAccess(w.db, w'.db, j) || NewAccess(w, w', run, j);
      assert OldAccess(w.db, w'.db, i) && OldAccess(w.db, w'.db, j) ==> AccessOf(w, i, j);
    }
    forall i, j | RefreshOf(w', i, j) ensures i == j {
      assert OldRefresh(w.db, w'.db, i) || NewRefresh(w, w', run, i);
      assert OldRefresh(w.db, w'.db, j) || NewRefresh(w, w', run, j);
      assert OldRefresh(w.db, w'.db, i) && OldRefresh(w.db, w'.db, j) ==> RefreshOf(w, i, j);
    }
  }

  /** No other handler loses what it relies on. */
  lemma FrameRun(w: World, w': World, run: Id, q: Id, pc: Pc)
    requires Frame(w, w', run) && PcOk(w, q, pc) && q != run
    ensures PcOk(w', q, pc)
  {
    match pc
    case ClaimRefresh(id, rt) =>
      assert id in w'.db.refresh ==> OldRefresh(w.db, w'.db, id) || NewRefresh(w, w', run, id);
    case InsertSuccessor(rt) =>
    case ReuseDetected(rt) =>
    case FindSession(code, _) => FrameCode(w, w', run, q, code);
    case MintAccess(mint) => if mint.authCodeId.Some? { FrameCode(w, w', run, q, mint.authCodeId.value); }
    case MintRefresh(mint) => if mint.authCodeId.Some? { FrameCode(w, w', run, q, mint.authCodeId.value); }
    case _ =>
  }

  lemma FrameCode(w: World, w': World, run: Id, q: Id, code: Id)
    requires Frame(w, w', run) && q != run && RedeemedBy(w, code, q)
    ensures RedeemedBy(w', code, q)
    ensures NoAccessOf(w, code) ==> NoAccessOf(w', code)
    ensures NoRefreshOf(w, code) ==> NoRefreshOf(w', code)
  {
    if NoAccessOf(w, code) {
      forall id | id in w'.db.access ensures w'.db.access[id].authCodeId != Some(code) {
        assert OldAccess(w.db, w'.db, id) || NewAccess(w, w', run, id);
      }
    }
    if NoRefreshOf(w, code) {
      forall id | id in w'.db.refresh ensures w'.db.refresh[id].authCodeId != Some(code) {
        assert OldRefresh(w.db, w'.db, id) || NewRefresh(w, w', run, id);
      }
    }
  }

  lemma FrameRuns(w: World, w': World, run: Id, pc: Pc)
    requires RunsOk(w) && Frame(w, w', run)
    requires w'.runs == w.runs[run := pc] && PcOk(w', run, pc)
    ensures RunsOk(w')
  {
    hide Frame, PcOk;
    forall q | q in w'.runs ensures PcOk(w', q, w'.runs[q]) {
      if q != run {
        assert PcOk(w, q, w.runs[q]);
        FrameRun(w, w', run, q, w.runs[q]);
      }
    }
  }

  /** Everything but OneHolder, for a step of `run` to `pc`. */
  lemma FrameKeeps(w: World, w': World, run: Id, pc: Pc)
    requires Inv(w) && Frame(w, w', run)
    requires w'.runs == w.runs[run := pc] && PcOk(w', run, pc)
    requires OneHolder(w')
    ensures Inv(w')
  {
    FrameTables(w, w', run);
    FrameRotations(w, w', run);
    FrameCodes(w, w', run);
    FrameRuns(w, w', run, pc);
  }

  /** No new holder. */
  lemma HoldersShrink(w: World, w': World)
    requires OneHolder(w) && forall f, h :: Holds(w', h, f) ==> Holds(w, h, f)
    ensures OneHolder(w')
  {
  }
}
