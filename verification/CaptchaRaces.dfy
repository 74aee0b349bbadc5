/**
  Captcha verifications statement by statement: the cache is read, and written
  only later. One uninterrupted verification is the handler; two that overlap
  may both win a pass.
 */
module CaptchaRaces {
  import opened Options
  import FreshIds
  import opened TimedMap
  import opened Captcha

  datatype Pc =
    | Read(challenge: Id)
    | Burn(challenge: Id)
    | Retry(challenge: Id, state: Challenge)
    | Win(challenge: Id, state: Challenge)
    | SetPass(challenge: Id, state: Challenge)
    | Done(outcome: Outcome)

  /** The cache, the running verifications, the challenges of the passes won and of the wrong guesses told so, and how
      many wrong guesses had been told when each verification read the cache. */
  datatype World = World(s: State, runs: map<Id, Pc>, won: seq<Id>, told: seq<Id>, readAt: map<Id, nat>)

  datatype Event =
    | Issue(identity: string, tenant: string, pieceX: int, now: nat)
    | Start(run: Id, challenge: Id)
    | Exec(run: Id, solves: Challenge -> bool, now: nat)

  /** What a verification does with what it read. */
  function AfterRead(challenge: Id, found: Option<Entry<Challenge>>, solves: Challenge -> bool, now: nat): Pc {
    if found.None? then Done(Expired)
    else
      var state := found.value.value;
      if now > state.expiresAt || state.attemptsRemaining == 0 then Burn(challenge)
      else if solves(state) then Win(challenge, state)
      else if state.attemptsRemaining == 1 then Burn(challenge)
      else Retry(challenge, state.(attemptsRemaining := state.attemptsRemaining - 1))
  }

  function Without(s: State, challenge: Id): State {
    s.(challenges := s.challenges - {challenge})
  }

  /** Runs one statement. */
  function Step(s: State, pc: Pc, solves: Challenge -> bool, now: nat): (State, Pc) {
    match pc
    case Read(challenge) => (s, AfterRead(challenge, Fetch(s.challenges, challenge, now), solves, now))
    case Burn(challenge) => (Without(s, challenge), Done(Expired))
    case Retry(challenge, state) =>
      var left := if state.expiresAt > now then state.expiresAt - now else 0;
      (s.(challenges := Put(s.challenges, challenge, state, SecondsLeft(left), now)),
       Done(Invalid(state.attemptsRemaining)))
    case Win(challenge, state) => (Without(s, challenge), SetPass(challenge, state))
    case SetPass(_, state) =>
      (s.(passes := Put(s.passes, s.nextPass, Pass(state.identity, state.tenant), PASS_TTL_S, now),
          nextPass := s.nextPass + 1),
       Done(Passed(s.nextPass)))
    case Done(_) => (s, pc)
  }

  function Next(w: World, e: Event): World {
    match e
    case Issue(identity, tenant, pieceX, now) => w.(s := Issued(w.s, identity, tenant, pieceX, now))
    case Start(run, challenge) => if run in w.runs then w else w.(runs := w.runs[run := Read(challenge)])
    case Exec(run, solves, now) =>
      if run !in w.runs then w
      else
        var (s, pc) := Step(w.s, w.runs[run], solves, now);
        World(s, w.runs[run := pc], if w.runs[run].SetPass? then w.won + [w.runs[run].challenge] else w.won,
              if w.runs[run].Retry? then w.told + [w.runs[run].challenge] else w.told,
              if w.runs[run].Read? then w.readAt[run := |w.told|] else w.readAt)
  }

  function After(w: World, events: seq<Event>): World {
    if events == [] then w else Next(After(w, events[..|events| - 1]), events[|events| - 1])
  }

  /** Nothing between its read and its last write comes in between: the handler of Captcha. */
  lemma UninterruptedIsHandler(s: State, challenge: Id, solves: Challenge -> bool, now: nat)
    ensures
      var (s1, pc1) := Step(s, Read(challenge), solves, now);
      var (s2, pc2) := Step(s1, pc1, solves, now);
      var (s3, pc3) := Step(s2, pc2, solves, now);
      pc3.Done? && (s3, pc3.outcome) == Verified(s, challenge, solves, now)
  {
  }

  // ---------------------------------------------------------------------
  // When no more passes can be won
  // ---------------------------------------------------------------------

  /** A verification that starts now can still read the challenge and win. */
  predicate Open(s: State, challenge: Id, now: nat) {
    var found := Fetch(s.challenges, challenge, now);
    found.Some? && now <= found.value.value.expiresAt && found.value.value.attemptsRemaining > 0
  }

  /** A verification that has read the challenge and may still win a pass with it, or open it again. */
  predicate InFlight(pc: Pc, challenge: Id, now: nat) {
    match pc
    case Win(c, _) => c == challenge
    case SetPass(c, _) => c == challenge
    case Retry(c, state) => c == challenge && now <= state.expiresAt && state.attemptsRemaining > 0
    case _ => false
  }

  /** The challenge has been issued, is open no more, and no verification of it is in flight. */
  ghost predicate Quiet(w: World, challenge: Id, now: nat) {
    && challenge < w.s.nextChallenge && !Open(w.s, challenge, now)
    && forall run :: run in w.runs ==> !InFlight(w.runs[run], challenge, now)
  }

  function PassesWon(w: World, challenge: Id): nat {
    multiset(w.won)[challenge]
  }

  predicate TimedFrom(e: Event, now: nat) {
    e.Start? || now <= e.now
  }

  lemma NextQuiet(w: World, e: Event, challenge: Id, now: nat)
    requires Quiet(w, challenge, now) && TimedFrom(e, now)
    ensures Quiet(Next(w, e), challenge, now) && PassesWon(Next(w, e), challenge) == PassesWon(w, challenge)
  {
    if e.Exec? && e.run in w.runs {
      assert !InFlight(w.runs[e.run], challenge, now);
      ExecQuiet(w.s, w.runs[e.run], e.solves, e.now, challenge, now);
      hide Step, Open;
    }
  }

  lemma ExecQuiet(s: State, pc: Pc, solves: Challenge -> bool, at: nat, challenge: Id, now: nat)
    requires !Open(s, challenge, now) && !InFlight(pc, challenge, now) && now <= at
    ensures
      var (s', pc') := Step(s, pc, solves, at);
      && !Open(s', challenge, now) && !InFlight(pc', challenge, now) && s'.nextChallenge == s.nextChallenge
  {
  }

  lemma {:induction false} NoMorePasses(w: World, events: seq<Event>, challenge: Id, now: nat)
    requires Quiet(w, challenge, now) && forall k :: 0 <= k < |events| ==> TimedFrom(events[k], now)
    ensures Quiet(After(w, events), challenge, now) && PassesWon(After(w, events), challenge) == PassesWon(w, challenge)
  {
    if events == [] {
    } else {
      NoMorePasses(w, events[..|events| - 1], challenge, now);
      hide Quiet, Next, PassesWon;
      NextQuiet(After(w, events[..|events| - 1]), events[|events| - 1], challenge, now);
    }
  }

  /** A verification past its winning decision wins its pass whatever has happened to the challenge. */
  lemma InFlightWins(w: World, run: Id, solves: Challenge -> bool, now: nat)
    requires run in w.runs && w.runs[run].Win?
    ensures
      var w' := Next(Next(w, Exec(run, solves, now)), Exec(run, solves, now));
      && w'.runs[run] == Done(Passed(w.s.nextPass))
      && w'.won == w.won + [w.runs[run].challenge]
  {
  }

  lemma AfterTwo(w: World, e: Event, f: Event)
    ensures After(w, [e]) == Next(w, e)
    ensures After(w, [e, f]) == Next(Next(w, e), f)
  {
    assert [e][..0] == [] && [e, f][..1] == [e];
  }

  lemma {:induction false} AfterInTwo(w: World, events: seq<Event>, more: seq<Event>)
    ensures After(w, events + more) == After(After(w, events), more)
  {
    if more == [] {
      assert events + more == events;
    } else {
      AfterInTwo(w, events, more[..|more| - 1]);
      assert (events + more)[..|events + more| - 1] == events + more[..|more| - 1];
    }
  }

  lemma FreshRun(w: World) returns (run: Id)
    ensures run !in w.runs
  {
    run := FreshIds.Above(w.runs.Keys);
  }

  /** An in-flight winner has one or two statements left. */
  lemma WinnerWins(w: World, run: Id, challenge: Id, now: nat) returns (events: seq<Event>)
    requires run in w.runs && (w.runs[run].Win? || w.runs[run].SetPass?) && w.runs[run].challenge == challenge
    ensures forall k :: 0 <= k < |events| ==> TimedFrom(events[k], now)
    ensures PassesWon(After(w, events), challenge) == PassesWon(w, challenge) + 1
  {
    var e := Exec(run, _ => true, now);
    AfterTwo(w, e, e);
    events := if w.runs[run].Win? then [e, e] else [e];
    hide After;
  }

  /** An open challenge can be read and solved. */
  lemma OpenWins(w: World, challenge: Id, now: nat) returns (events: seq<Event>)
    requires Open(w.s, challenge, now)
    ensures forall k :: 0 <= k < |events| ==> TimedFrom(events[k], now)
    ensures PassesWon(After(w, events), challenge) == PassesWon(w, challenge) + 1
  {
    var run := FreshRun(w);
    var e := Exec(run, _ => true, now);
    AfterTwo(w, Start(run, challenge), e);
    var w' := Next(Next(w, Start(run, challenge)), e);
    assert w'.won == w.won && w'.runs[run].Win? && w'.runs[run].challenge == challenge;
    hide After, Next;
    var rest := WinnerWins(w', run, challenge, now);
    AfterInTwo(w, [Start(run, challenge), e], rest);
    events := [Start(run, challenge), e] + rest;
  }

  /** A wrong guess on its way to the cache opens the challenge again. */
  lemma RetryWins(w: World, run: Id, challenge: Id, now: nat) returns (events: seq<Event>)
    requires run in w.runs && w.runs[run].Retry? && InFlight(w.runs[run], challenge, now)
    ensures forall k :: 0 <= k < |events| ==> TimedFrom(events[k], now)
    ensures PassesWon(After(w, events), challenge) == PassesWon(w, challenge) + 1
  {
    var e := Exec(run, _ => true, now);
    AfterTwo(w, e, e);
    var w' := Next(w, e);
    assert w'.won == w.won && Open(w'.s, challenge, now);
    hide After, Next, Open;
    var rest := OpenWins(w', challenge, now);
    AfterInTwo(w, [e], rest);
    events := [e] + rest;
  }

  ghost predicate NoneEver(w: World, challenge: Id, now: nat) {
    forall events ::
      (forall k :: 0 <= k < |events| ==> TimedFrom(events[k], now)) ==>
          PassesWon(After(w, events), challenge) == PassesWon(w, challenge)
  }

  /** From now on an issued challenge yields no further pass, whatever runs in whatever interleaving, if and only if it
      is open no more and no verification of it is in flight. */
  lemma NoMorePassesIff(w: World, challenge: Id, now: nat)
    requires challenge < w.s.nextChallenge
    ensures NoneEver(w, challenge, now) <==> Quiet(w, challenge, now)
  {
    hide After, PassesWon, Open;
    if Quiet(w, challenge, now) {
      forall events | forall k :: 0 <= k < |events| ==> TimedFrom(events[k], now)
        ensures PassesWon(After(w, events), challenge) == PassesWon(w, challenge)
      {
        NoMorePasses(w, events, challenge, now);
      }
    } else if Open(w.s, challenge, now) {
      var events := OpenWins(w, challenge, now);
    } else {
      var run :| run in w.runs && InFlight(w.runs[run], challenge, now);
      if w.runs[run].Retry? {
        var events := RetryWins(w, run, challenge, now);
      } else {
        var events := WinnerWins(w, run, challenge, now);
      }
    }
  }

  /** Two verifications that read the challenge before either deletes it both win a pass. */
  lemma TwoPasses(w: World, first: Id, second: Id, challenge: Id, solves: Challenge -> bool, now: nat)
    requires first !in w.runs && second !in w.runs && first != second
    requires
      var found := Fetch(w.s.challenges, challenge, now);
      found.Some? && now <= found.value.value.expiresAt && found.value.value.attemptsRemaining > 0
          && solves(found.value.value)
    ensures
      var read := Next(Next(Next(Next(w, Start(first, challenge)), Start(second, challenge)),
                            Exec(first, solves, now)), Exec(second, solves, now));
      var w1 := Next(Next(read, Exec(first, solves, now)), Exec(first, solves, now));
      var w2 := Next(Next(w1, Exec(second, solves, now)), Exec(second, solves, now));
      && w2.runs[first] == Done(Passed(w.s.nextPass)) && w2.runs[second] == Done(Passed(w.s.nextPass + 1))
      && w2.won == w.won + [challenge, challenge]
  {
    var started := Next(Next(w, Start(first, challenge)), Start(second, challenge));
    var read := Next(Next(started, Exec(first, solves, now)), Exec(second, solves, now));
    assert read.runs[first].Win? && read.runs[second].Win?;
    hide Step, AfterRead, Fetch;
    var w1 := Next(Next(read, Exec(first, solves, now)), Exec(first, solves, now));
    WinKeepsOthers(read, first, second, solves, now);
    InFlightWins(read, first, solves, now);
    InFlightWins(w1, second, solves, now);
    WinKeepsOthers(w1, second, first, solves, now);
    assert w.won + [challenge] + [challenge] == w.won + [challenge, challenge];
  }

  lemma WinKeepsOthers(w: World, run: Id, other: Id, solves: Challenge -> bool, now: nat)
    requires run in w.runs && w.runs[run].Win? && other in w.runs && other != run
    ensures
      var w' := Next(Next(w, Exec(run, solves, now)), Exec(run, solves, now));
      && other in w'.runs && w'.runs[other] == w.runs[other] && w'.s.nextPass == w.s.nextPass + 1
  {
  }
}
