/**
  Runs in which handlers interleave to an end their callers would not expect.
 */
module TokenRaces {
  import opened Options
  import opened TokenTables
  import opened TokenRuns
  import opened TokenWorld
  import opened TokenTheorems

  const MINT: Mint := Mint(10, 20, 30, "openid", None, None)
  const INPUT: Input := Input(0, true, true, Off)
  const TOKEN: RefreshRow := RefreshFor(MINT, 0).(familyId := Some(1))
  const DEAD: RefreshRow := TOKEN.(revoked := true)

  const MINTING: seq<Event> := [Start(0, MintAccess(MINT)), Exec(0, INPUT), Exec(0, INPUT)]

  lemma AfterPlus(events: seq<Event>, e: Event)
    ensures After(events + [e]) == Next(After(events), e)
  {
    assert (events + [e])[..|events|] == events;
  }

  lemma StartAt(events: seq<Event>, k: nat, run: Id, pc: Pc)
    requires k < |events| && events[k] == Start(run, pc) && IsEntry(pc) && run !in After(events[..k]).runs
    ensures
      var w, w' := After(events[..k]), After(events[..k + 1]);
      w'.db == w.db && w'.runs == w.runs[run := pc]
  {
    hide After, IsEntry;
    AfterSnoc(events, k);
  }

  lemma ExecAt(events: seq<Event>, k: nat, run: Id)
    requires k < |events| && events[k] == Exec(run, INPUT) && run in After(events[..k]).runs
    ensures
      var w, w' := After(events[..k]), After(events[..k + 1]);
      w'.db == Step(w.db, w.runs[run], INPUT).0 && w'.runs == w.runs[run := Step(w.db, w.runs[run], INPUT).1]
  {
    hide After, Step, Rotates, Redeems, FoundsFamily;
    AfterSnoc(events, k);
  }

  /** Run 0 mints the token 2 of family 1. */
  lemma Minted(events: seq<Event>)
    requires |events| >= 3 && events[..3] == MINTING
    ensures
      var w := After(events[..3]);
      w.db.refresh == map[2 := TOKEN] && w.db.sessions == map[] && w.db.nextId == 3 && w.runs == map[0 := Done(Issued)]
  {
    hide After;
    assert After([]) == Empty() by { EmptyRun(); }
    assert MINTING[..1] == [] + [MINTING[0]] && MINTING[..2] == MINTING[..1] + [MINTING[1]]
        && MINTING == MINTING[..2] + [MINTING[2]];
    AfterPlus([], MINTING[0]);
    AfterPlus(MINTING[..1], MINTING[1]);
    AfterPlus(MINTING[..2], MINTING[2]);
  }

  lemma EmptyRun()
    ensures After([]) == Empty()
  {
  }

  // ---------------------------------------------------------------------
  // The token is presented by runs 1 and 2. Run 2 arrives after run 1's claim, takes it for a reuse and
  // revokes the family; run 1 then inserts its successor.
  // ---------------------------------------------------------------------

  function Race(): seq<Event> {
    [Start(0, MintAccess(MINT)), Exec(0, INPUT), Exec(0, INPUT),
     Start(1, RefreshLookup(2, 20, 30)), Exec(1, INPUT), Exec(1, INPUT),
     Start(2, RefreshLookup(2, 20, 30)), Exec(2, INPUT), Exec(2, INPUT), Exec(1, INPUT)]
  }

  lemma RaceLooksUp()
    ensures
      var w := After(Race()[..5]);
      && w.db.refresh == map[2 := TOKEN] && w.db.nextId == 3
      && w.runs == map[0 := Done(Issued), 1 := ClaimRefresh(2, TOKEN)]
  {
    hide After, Next;
    Minted(Race());
    StartAt(Race(), 3, 1, RefreshLookup(2, 20, 30));
    ExecAt(Race(), 4, 1);
  }

  lemma RaceClaims()
    ensures
      var w := After(Race()[..6]);
      && w.db.refresh == map[2 := DEAD] && w.db.nextId == 3
      && w.runs == map[0 := Done(Issued), 1 := InsertSuccessor(TOKEN)]
  {
    hide After, Next, RevokeRefreshById;
    RaceLooksUp();
    var w := After(Race()[..5]);
    RevokedById(w.db, 2);
    assert ClaimsRefresh(w.db, 2);
    hide Race, Step;
    ExecAt(Race(), 5, 1);
    ClaimStep(w.db, 2, TOKEN);
  }

  lemma ClaimStep(db: Db, id: Id, rt: RefreshRow)
    requires ClaimsRefresh(db, id)
    ensures Step(db, ClaimRefresh(id, rt), INPUT) == (RevokeRefreshById(db, id), InsertSuccessor(rt))
  {
    hide RevokeRefreshById;
  }

  lemma RaceDetects()
    ensures
      var w := After(Race()[..8]);
      && w.db.refresh == map[2 := DEAD] && w.db.nextId == 3
      && w.runs == map[0 := Done(Issued), 1 := InsertSuccessor(TOKEN), 2 := ReuseDetected(DEAD)]
  {
    hide After, Next;
    RaceClaims();
    StartAt(Race(), 6, 2, RefreshLookup(2, 20, 30));
    ExecAt(Race(), 7, 2);
  }

  lemma RaceDenies()
    ensures
      var w := After(Race()[..9]);
      && w.db.refresh == map[2 := DEAD] && w.db.nextId == 3
      && w.runs == map[0 := Done(Issued), 1 := InsertSuccessor(TOKEN), 2 := Done(Denied)]
  {
    hide After, Next;
    RaceDetects();
    ExecAt(Race(), 8, 2);
  }

  /** The reuse was detected and answered, and yet the family ends with a live token. */
  lemma ReuseRacesWithRotation()
    ensures
      && After(Race()[..8]).runs == map[0 := Done(Issued), 1 := InsertSuccessor(TOKEN), 2 := ReuseDetected(DEAD)]
      && After(Race()[..9]).runs == map[0 := Done(Issued), 1 := InsertSuccessor(TOKEN), 2 := Done(Denied)]
      && LiveFamily(After(Race()[..9]).db, 1) == {}
      && LiveFamily(After(Race()).db, 1) == {4}
  {
    hide After, Next;
    RaceDetects();
    RaceDenies();
    ExecAt(Race(), 9, 1);
    assert Race()[..10] == Race();
  }

  // ---------------------------------------------------------------------
  // Runs 1 and 2 present the token at the first-party refresh; both read it before either revokes it.
  // ---------------------------------------------------------------------

  function FirstPartyRace(): seq<Event> {
    [Start(0, MintAccess(MINT)), Exec(0, INPUT), Exec(0, INPUT),
     Start(1, FirstPartyLookup(2)), Exec(1, INPUT), Start(2, FirstPartyLookup(2)), Exec(2, INPUT),
     Exec(1, INPUT), Exec(1, INPUT), Exec(1, INPUT), Exec(2, INPUT), Exec(2, INPUT), Exec(2, INPUT)]
  }

  const RENEWED: RefreshRow := TOKEN.(familyId := None)

  lemma FirstLooksUp()
    ensures
      var w := After(FirstPartyRace()[..5]);
      && w.db.refresh == map[2 := TOKEN] && w.db.nextId == 3
      && w.runs == map[0 := Done(Issued), 1 := FirstPartyAccess(2, TOKEN)]
  {
    hide After, Next;
    var events := FirstPartyRace();
    Minted(events);
    StartAt(events, 3, 1, FirstPartyLookup(2));
    ExecAt(events, 4, 1);
  }

  lemma LookupStep(db: Db)
    requires db.refresh == map[2 := TOKEN]
    ensures Step(db, FirstPartyLookup(2), INPUT) == (db, FirstPartyAccess(2, TOKEN))
  {
  }

  lemma BothLookUp()
    ensures
      var w := After(FirstPartyRace()[..7]);
      && w.db.refresh == map[2 := TOKEN] && w.db.nextId == 3
      && w.runs == map[0 := Done(Issued), 1 := FirstPartyAccess(2, TOKEN), 2 := FirstPartyAccess(2, TOKEN)]
  {
    hide After, Next;
    var events := FirstPartyRace();
    FirstLooksUp();
    StartAt(events, 5, 2, FirstPartyLookup(2));
    assert After(events[..6]).runs == map[0 := Done(Issued), 1 := FirstPartyAccess(2, TOKEN), 2 := FirstPartyLookup(2)];
    hide FirstPartyRace;
    LookupStep(After(events[..6]).db);
    hide Step;
    ExecAt(events, 6, 2);
  }

  /** What a first-party refresh does after its lookup, whatever has happened since. */
  lemma Renews(events: seq<Event>, k: nat, run: Id)
    requires k + 3 <= |events| && events[k] == events[k + 1] == events[k + 2] == Exec(run, INPUT)
    requires
      var w := After(events[..k]);
      run in w.runs && w.runs[run] == FirstPartyAccess(2, TOKEN) && 2 in w.db.refresh
    ensures
      var w, w' := After(events[..k]), After(events[..k + 3]);
      && w'.runs == w.runs[run := Done(Issued)] && w'.db.nextId == w.db.nextId + 2
      && w'.db.refresh == w.db.refresh[2 := w.db.refresh[2].(revoked := true)][w.db.nextId + 1 := RENEWED]
  {
    hide After, Next, RevokeRefreshById;
    ExecAt(events, k, run);
    ExecAt(events, k + 1, run);
    ExecAt(events, k + 2, run);
    var w1 := After(events[..k + 1]);
    RevokedById(w1.db, 2);
  }

  lemma RevokedById(db: Db, token: Id)
    requires token in db.refresh
    ensures RevokeRefreshById(db, token) == db.(refresh := db.refresh[token := db.refresh[token].(revoked := true)])
  {
    assert RevokeRefreshById(db, token).refresh == db.refresh[token := db.refresh[token].(revoked := true)];
  }

  lemma FirstRenewed()
    ensures
      var w := After(FirstPartyRace()[..10]);
      && w.runs == map[0 := Done(Issued), 1 := Done(Issued), 2 := FirstPartyAccess(2, TOKEN)]
      && w.db.refresh == map[2 := DEAD, 4 := RENEWED] && w.db.nextId == 5
  {
    hide After, Next, FirstPartyRace;
    BothLookUp();
    SecondPart();
    Renews(FirstPartyRace(), 7, 1);
  }

  /** One token, two first-party refreshes, two live successors. */
  lemma FirstPartyRefreshesTwice()
    ensures
      var w := After(FirstPartyRace());
      && w.runs == map[0 := Done(Issued), 1 := Done(Issued), 2 := Done(Issued)]
      && w.db.refresh == map[2 := DEAD, 4 := RENEWED, 6 := RENEWED]
  {
    hide After, Next, FirstPartyRace;
    FirstRenewed();
    SecondPart();
    Renews(FirstPartyRace(), 10, 2);
  }

  lemma SecondPart()
    ensures
      var events := FirstPartyRace();
      && |events| == 13 && events[..13] == events
      && events[7] == events[8] == events[9] == Exec(1, INPUT)
          && events[10] == events[11] == events[12] == Exec(2, INPUT)
  {
  }
}
