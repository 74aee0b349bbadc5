/**
  How many wrong guesses a captcha challenge admits when verifications of it
  overlap, and what its stored attempts then are.
 */
module CaptchaGuesses {
  import opened Options
  import opened TimedMap
  import opened Captcha
  import opened CaptchaRaces

  /** How many wrong guesses at the challenge were told that attempts are left. */
  function Told(w: World, challenge: Id): nat {
    multiset(w.told)[challenge]
  }

  predicate AllTimedFrom(events: seq<Event>, now: nat) {
    forall k :: 0 <= k < |events| ==> TimedFrom(events[k], now)
  }

  // ---------------------------------------------------------------------
  // Any number of them
  // ---------------------------------------------------------------------

  /** A verification that starts now can read the challenge and leave attempts after a wrong guess. */
  predicate Guessable(s: State, challenge: Id, now: nat) {
    Open(s, challenge, now) && s.challenges[challenge].value.attemptsRemaining >= 2
  }

  // Any number of verifications read the challenge before the first of them writes.

  predicate AllRetry(w: World, runs: seq<Id>, challenge: Id, state: Challenge) {
    && (forall k :: 0 <= k < |runs| ==> runs[k] in w.runs && w.runs[runs[k]] == Retry(challenge, state))
    && (forall j, k :: 0 <= j < k < |runs| ==> runs[j] != runs[k])
  }

  lemma {:induction false} ReadMany(w: World, challenge: Id, now: nat, n: nat)
      returns (events: seq<Event>, runs: seq<Id>)
    requires Guessable(w.s, challenge, now)
    ensures AllTimedFrom(events, now)
    ensures
      var state := w.s.challenges[challenge].value;
      var w' := After(w, events);
      && |runs| == n && AllRetry(w', runs, challenge, state.(attemptsRemaining := state.attemptsRemaining - 1))
      && w'.s == w.s && w'.told == w.told
  {
    if n == 0 {
      events, runs := [], [];
    } else {
      var before, others := ReadMany(w, challenge, now, n - 1);
      var w1 := After(w, before);
      var run := FreshRun(w1);
      var more := [Start(run, challenge), Exec(run, _ => false, now)];
      AfterTwo(w1, more[0], more[1]);
      AfterInTwo(w, before, more);
      events, runs := before + more, others + [run];
      ReadsWrong(w1, run, challenge, now);
      hide After, Next, Guessable;
    }
  }

  lemma ReadsWrong(w: World, run: Id, challenge: Id, now: nat)
    requires Guessable(w.s, challenge, now) && run !in w.runs
    ensures
      var state := w.s.challenges[challenge].value;
      Next(Next(w, Start(run, challenge)), Exec(run, _ => false, now))
      == w.(runs := w.runs[run := Retry(challenge, state.(attemptsRemaining := state.attemptsRemaining - 1))],
            readAt := w.readAt[run := |w.told|])
  {
  }

  lemma {:induction false} WriteMany(w: World, runs: seq<Id>, challenge: Id, state: Challenge, now: nat)
      returns (events: seq<Event>)
    requires AllRetry(w, runs, challenge, state) && now <= state.expiresAt && state.attemptsRemaining > 0
    ensures AllTimedFrom(events, now)
    ensures
      var w' := After(w, events);
      && Told(w', challenge) == Told(w, challenge) + |runs|
      && (if runs == [] then w' == w else Open(w'.s, challenge, now))
    decreases |runs|
  {
    if runs == [] {
      events := [];
    } else {
      var e := Exec(runs[0], _ => false, now);
      var w1 := Next(w, e);
      AfterTwo(w, e, e);
      assert AllRetry(w1, runs[1..], challenge, state);
      assert Told(w1, challenge) == Told(w, challenge) + 1 && Open(w1.s, challenge, now);
      hide Next, Open, Told;
      var rest := WriteMany(w1, runs[1..], challenge, state, now);
      AfterInTwo(w, [e], rest);
      events := [e] + rest;
    }
  }

  /** An open challenge with at least two attempts left admits any number of wrong guesses, if so many verifications
      overlap, and is still open after them. */
  lemma AnyNumberOfWrongGuesses(w: World, challenge: Id, now: nat, n: nat) returns (events: seq<Event>)
    requires Guessable(w.s, challenge, now)
    ensures AllTimedFrom(events, now)
    ensures Told(After(w, events), challenge) == Told(w, challenge) + n && Open(After(w, events).s, challenge, now)
  {
    var state := w.s.challenges[challenge].value;
    var readings, runs := ReadMany(w, challenge, now, n);
    hide After, Next;
    var writes := WriteMany(After(w, readings), runs, challenge,
                            state.(attemptsRemaining := state.attemptsRemaining - 1), now);
    AfterInTwo(w, readings, writes);
    events := readings + writes;
  }

  // ---------------------------------------------------------------------
  // When their number is bounded
  // ---------------------------------------------------------------------

  predicate Retrying(pc: Pc, challenge: Id) {
    pc.Retry? && pc.challenge == challenge
  }

  /** The verifications that are about to write, and then tell, a wrong guess at the challenge. */
  function Pending(w: World, challenge: Id): set<Id> {
    set run | run in w.runs && Retrying(w.runs[run], challenge)
  }

  /** The write stores the challenge, alive and with two attempts or more. */
  predicate Reopens(pc: Pc, challenge: Id, now: nat) {
    Retrying(pc, challenge) && now <= pc.state.expiresAt && pc.state.attemptsRemaining >= 2
  }

  /** The challenge has been issued, and no verification can read two attempts or more any more. */
  ghost predicate Exhausted(w: World, challenge: Id, now: nat) {
    && challenge < w.s.nextChallenge && !Guessable(w.s, challenge, now)
    && forall run :: run in w.runs ==> !Reopens(w.runs[run], challenge, now)
  }

  lemma ExecExhausted(s: State, pc: Pc, solves: Challenge -> bool, at: nat, challenge: Id, now: nat)
    requires !Guessable(s, challenge, now) && !Reopens(pc, challenge, now) && now <= at
    ensures
      var (s', pc') := Step(s, pc, solves, at);
      && !Guessable(s', challenge, now) && !Retrying(pc', challenge) && s'.nextChallenge == s.nextChallenge
  {
  }

  lemma PendingAfter(w: World, e: Event, challenge: Id, now: nat)
    requires Exhausted(w, challenge, now) && TimedFrom(e, now) && e.Exec? && e.run in w.runs
    ensures Pending(Next(w, e), challenge) == Pending(w, challenge) - {e.run}
    ensures Told(Next(w, e), challenge) == Told(w, challenge) + if e.run in Pending(w, challenge) then 1 else 0
    ensures Exhausted(Next(w, e), challenge, now)
  {
    ExecExhausted(w.s, w.runs[e.run], e.solves, e.now, challenge, now);
    hide Step, Guessable;
  }

  lemma NextExhausted(w: World, e: Event, challenge: Id, now: nat)
    requires Exhausted(w, challenge, now) && TimedFrom(e, now)
    ensures
      var w' := Next(w, e);
      && Exhausted(w', challenge, now)
      && Told(w', challenge) + |Pending(w', challenge)| <= Told(w, challenge) + |Pending(w, challenge)|
  {
    if e.Exec? && e.run in w.runs {
      PendingAfter(w, e, challenge, now);
      hide *;
    } else {
      assert Pending(Next(w, e), challenge) == Pending(w, challenge);
    }
  }

  lemma {:induction false} ExhaustedStays(w: World, events: seq<Event>, challenge: Id, now: nat)
    requires Exhausted(w, challenge, now) && AllTimedFrom(events, now)
    ensures
      var w' := After(w, events);
      && Exhausted(w', challenge, now)
      && Told(w', challenge) + |Pending(w', challenge)| <= Told(w, challenge) + |Pending(w, challenge)|
  {
    if events == [] {
    } else {
      ExhaustedStays(w, events[..|events| - 1], challenge, now);
      hide Exhausted, Next, Told, Pending;
      NextExhausted(After(w, events[..|events| - 1]), events[|events| - 1], challenge, now);
    }
  }

  lemma RetryTells(w: World, run: Id, challenge: Id, now: nat)
    requires run in Pending(w, challenge)
    ensures
      var w' := Next(w, Exec(run, _ => false, now));
      && Pending(w', challenge) == Pending(w, challenge) - {run} && Told(w', challenge) == Told(w, challenge) + 1
      && (Reopens(w.runs[run], challenge, now) ==> Guessable(w'.s, challenge, now))
  {
  }

  /** Whoever is about to tell a wrong guess can go on and tell it. */
  lemma {:induction false} PendingTell(w: World, challenge: Id, now: nat) returns (events: seq<Event>)
    ensures AllTimedFrom(events, now)
    ensures Told(After(w, events), challenge) == Told(w, challenge) + |Pending(w, challenge)|
    decreases |Pending(w, challenge)|
  {
    if Pending(w, challenge) == {} {
      events := [];
    } else {
      var run :| run in Pending(w, challenge);
      var e := Exec(run, _ => false, now);
      RetryTells(w, run, challenge, now);
      AfterTwo(w, e, e);
      hide After, Next, Told, Pending;
      var rest := PendingTell(Next(w, e), challenge, now);
      AfterInTwo(w, [e], rest);
      events := [e] + rest;
    }
  }

  lemma ReopenedTells(w: World, run: Id, challenge: Id, now: nat, n: nat) returns (events: seq<Event>)
    requires run in w.runs && Reopens(w.runs[run], challenge, now)
    ensures AllTimedFrom(events, now) && Told(After(w, events), challenge) > n
  {
    var e := Exec(run, _ => false, now);
    RetryTells(w, run, challenge, now);
    AfterTwo(w, e, e);
    hide After, Next, Told, Guessable;
    var rest := AnyNumberOfWrongGuesses(Next(w, e), challenge, now, n + 1);
    AfterInTwo(w, [e], rest);
    events := [e] + rest;
  }

  /** At most n wrong guesses at the challenge are told, in all, in any continuation from `now` on. */
  ghost predicate AtMostTold(w: World, challenge: Id, now: nat, n: nat) {
    forall events :: AllTimedFrom(events, now) ==> Told(After(w, events), challenge) <= n
  }

  /** The wrong guesses at an issued challenge stay within a bound, whatever runs in whatever interleaving, if and only
      if nobody can read two attempts any more, now or after a write in flight, and those told and those in flight are
      within it. */
  lemma WrongGuessesBoundIff(w: World, challenge: Id, now: nat, n: nat)
    requires challenge < w.s.nextChallenge
    ensures AtMostTold(w, challenge, now, n) <==>
      Exhausted(w, challenge, now) && Told(w, challenge) + |Pending(w, challenge)| <= n
  {
    hide After, Told, Guessable, Reopens, Pending;
    if !Exhausted(w, challenge, now) {
      if Guessable(w.s, challenge, now) {
        var events := AnyNumberOfWrongGuesses(w, challenge, now, n + 1);
      } else {
        var run :| run in w.runs && Reopens(w.runs[run], challenge, now);
        var events := ReopenedTells(w, run, challenge, now, n);
      }
    } else if Told(w, challenge) + |Pending(w, challenge)| <= n {
      forall events | AllTimedFrom(events, now) ensures Told(After(w, events), challenge) <= n {
        ExhaustedStays(w, events, challenge, now);
      }
    } else {
      var events := PendingTell(w, challenge, now);
    }
  }

  /** No further wrong guess at an issued challenge is told, in any continuation from `now` on, if and only if it is not
      open with two attempts or more and no verification of it is about to tell one. */
  lemma NoMoreWrongGuessesIff(w: World, challenge: Id, now: nat)
    requires challenge < w.s.nextChallenge
    ensures AtMostTold(w, challenge, now, Told(w, challenge)) <==>
      && !Guessable(w.s, challenge, now)
      && forall run :: run in w.runs ==> !Retrying(w.runs[run], challenge)
  {
    WrongGuessesBoundIff(w, challenge, now, Told(w, challenge));
    hide AtMostTold, Guessable, Told;
    if run :| run in w.runs && Retrying(w.runs[run], challenge) {
      assert run in Pending(w, challenge);
    } else {
      assert Pending(w, challenge) == {};
    }
  }

  // ---------------------------------------------------------------------
  // What the stored attempts count
  // ---------------------------------------------------------------------

  /** The challenge has just been issued. */
  ghost predicate JustIssued(w: World, challenge: Id) {
    && challenge < w.s.nextChallenge && challenge in w.s.challenges
    && w.s.challenges[challenge].value.attemptsRemaining == 3 && challenge !in w.told
    && forall run :: run in w.runs ==> !Retrying(w.runs[run], challenge)
  }

  /** A wrong guess at the challenge has been told since the verification read the cache. */
  predicate ToldSinceRead(w: World, run: Id, challenge: Id) {
    run in w.readAt && w.readAt[run] <= |w.told| && challenge in w.told[w.readAt[run]..]
  }

  /** A verification writes its wrong guess although another one has been told since it read the challenge. */
  predicate Stale(w: World, e: Event, challenge: Id) {
    e.Exec? && e.run in w.runs && Retrying(w.runs[e.run], challenge) && ToldSinceRead(w, e.run, challenge)
  }

  ghost predicate NeverStale(w: World, events: seq<Event>, challenge: Id) {
    forall k :: 0 <= k < |events| ==> !Stale(After(w, events[..k]), events[k], challenge)
  }

  /** The challenge is stored with three attempts less one for every wrong guess told. */
  predicate AttemptsExact(w: World, challenge: Id)
    requires challenge in w.s.challenges
  {
    w.s.challenges[challenge].value.attemptsRemaining + Told(w, challenge) == 3
  }

  function ToldBefore(w: World, challenge: Id, k: nat): nat
    requires k <= |w.told|
  {
    multiset(w.told[..k])[challenge]
  }

  /** A verification about to write: what it read and when. */
  predicate ReadOk(w: World, run: Id, challenge: Id, stale: bool)
    requires run in w.runs && Retrying(w.runs[run], challenge)
  {
    && w.runs[run].state.attemptsRemaining >= 1 && run in w.readAt && w.readAt[run] <= |w.told|
    && (!stale ==> w.runs[run].state.attemptsRemaining + ToldBefore(w, challenge, w.readAt[run]) == 2)
  }

  /** Before the first stale write the attempts are exact, after it there are too many for good. */
  ghost predicate Tracked(w: World, challenge: Id, stale: bool) {
    && challenge < w.s.nextChallenge
    && (challenge in w.s.challenges ==>
          if stale then w.s.challenges[challenge].value.attemptsRemaining + Told(w, challenge) > 3
          else AttemptsExact(w, challenge))
    && (if stale then Told(w, challenge) >= 2 else Told(w, challenge) <= 2)
    && forall run :: run in w.runs && Retrying(w.runs[run], challenge) ==> ReadOk(w, run, challenge, stale)
  }

  lemma ToldSplit(w: World, challenge: Id, k: nat)
    requires k <= |w.told|
    ensures ToldBefore(w, challenge, k) <= Told(w, challenge)
    ensures ToldBefore(w, challenge, k) < Told(w, challenge) <==> challenge in w.told[k..]
  {
    assert w.told[..k] + w.told[k..] == w.told;
    assert multiset(w.told) == multiset(w.told[..k]) + multiset(w.told[k..]);
  }

  lemma SameRead(w: World, w': World, run: Id, challenge: Id, stale: bool, stale': bool)
    requires run in w.runs && Retrying(w.runs[run], challenge) && ReadOk(w, run, challenge, stale)
    requires run in w'.runs && w'.runs[run] == w.runs[run] && run in w'.readAt && w'.readAt[run] == w.readAt[run]
    requires w.told <= w'.told && (stale ==> stale')
    ensures ReadOk(w', run, challenge, stale')
  {
    assert w'.told[..w.readAt[run]] == w.told[..w.readAt[run]];
  }

  lemma WriteTracked(w: World, e: Event, challenge: Id, stale: bool)
    requires Tracked(w, challenge, stale) && e.Exec? && e.run in w.runs && w.runs[e.run].Retry?
    ensures Tracked(Next(w, e), challenge, stale || Stale(w, e, challenge))
  {
    var w' := Next(w, e);
    var stale' := stale || Stale(w, e, challenge);
    if Retrying(w.runs[e.run], challenge) {
      assert ReadOk(w, e.run, challenge, stale);
      ToldSplit(w, challenge, w.readAt[e.run]);
      assert Told(w', challenge) == Told(w, challenge) + 1;
    }
    forall run | run in w'.runs && Retrying(w'.runs[run], challenge) ensures ReadOk(w', run, challenge, stale') {
      SameRead(w, w', run, challenge, stale, stale');
    }
  }

  lemma OtherTracked(w: World, e: Event, challenge: Id, stale: bool)
    requires Tracked(w, challenge, stale) && e.Exec? && e.run in w.runs && !w.runs[e.run].Retry?
    ensures Tracked(Next(w, e), challenge, stale) && !Stale(w, e, challenge)
  {
    var w' := Next(w, e);
    assert w'.told[..|w'.told|] == w'.told;
    forall run | run in w'.runs && Retrying(w'.runs[run], challenge) ensures ReadOk(w', run, challenge, stale) {
      if run != e.run {
        SameRead(w, w', run, challenge, stale, stale);
      }
    }
  }

  lemma NextTracked(w: World, e: Event, challenge: Id, stale: bool)
    requires Tracked(w, challenge, stale)
    ensures Tracked(Next(w, e), challenge, stale || Stale(w, e, challenge))
  {
    if e.Exec? && e.run in w.runs {
      if w.runs[e.run].Retry? {
        WriteTracked(w, e, challenge, stale);
      } else {
        OtherTracked(w, e, challenge, stale);
      }
      hide *;
    }
  }

  lemma NeverStaleSnoc(w: World, events: seq<Event>, challenge: Id)
    requires events != []
    ensures
      var most, last := events[..|events| - 1], events[|events| - 1];
      NeverStale(w, events, challenge) <==> NeverStale(w, most, challenge) && !Stale(After(w, most), last, challenge)
  {
    hide After, Stale;
    var most := events[..|events| - 1];
    forall k | 0 <= k < |events|
      ensures k < |most| ==>
        (Stale(After(w, most[..k]), most[k], challenge) <==> Stale(After(w, events[..k]), events[k], challenge))
    {
      assert k < |most| ==> most[..k] == events[..k];
    }
  }

  lemma {:induction false} AfterTracked(w: World, events: seq<Event>, challenge: Id)
    requires JustIssued(w, challenge)
    ensures Tracked(After(w, events), challenge, !NeverStale(w, events, challenge))
  {
    if events == [] {
    } else {
      AfterTracked(w, events[..|events| - 1], challenge);
      NeverStaleSnoc(w, events, challenge);
      hide Next, Tracked, NeverStale, Stale;
      NextTracked(After(w, events[..|events| - 1]), events[|events| - 1], challenge,
                  !NeverStale(w, events[..|events| - 1], challenge));
    }
  }

  /** After its issue, and while it is stored, the challenge has three attempts less one for every wrong guess told if
      and only if no wrong guess was written after another one had been told since its read. */
  lemma AttemptsExactIff(w: World, events: seq<Event>, challenge: Id)
    requires JustIssued(w, challenge) && challenge in After(w, events).s.challenges
    ensures AttemptsExact(After(w, events), challenge) <==> NeverStale(w, events, challenge)
  {
    AfterTracked(w, events, challenge);
    hide After;
  }

  /** Without such a write at most two wrong guesses are told that attempts are left. */
  lemma TwoWrongGuesses(w: World, events: seq<Event>, challenge: Id)
    requires JustIssued(w, challenge) && NeverStale(w, events, challenge)
    ensures Told(After(w, events), challenge) <= 2
  {
    AfterTracked(w, events, challenge);
    hide After;
  }

  // Every issue in every run from nothing starts such a history.

  const NOTHING: World := World(State(map[], map[], map[], 0, 0), map[], [], [], map[])

  /** Nothing knows of a challenge not yet issued. */
  ghost predicate Known(w: World) {
    && (forall k :: 0 <= k < |w.told| ==> w.told[k] < w.s.nextChallenge)
    && (forall c :: c in w.s.challenges ==> c < w.s.nextChallenge)
    && (forall run :: run in w.runs && (w.runs[run].Retry? || w.runs[run].Win? || w.runs[run].SetPass?) ==>
          w.runs[run].challenge < w.s.nextChallenge)
  }

  lemma NextKnown(w: World, e: Event)
    requires Known(w)
    ensures Known(Next(w, e))
  {
  }

  lemma {:induction false} AfterKnown(events: seq<Event>)
    ensures Known(After(NOTHING, events))
  {
    if events == [] {
    } else {
      AfterKnown(events[..|events| - 1]);
      hide Next, Known;
      NextKnown(After(NOTHING, events[..|events| - 1]), events[|events| - 1]);
    }
  }

  /** An issue anywhere in a run from nothing leaves its challenge just issued. */
  lemma IssueStarts(events: seq<Event>, identity: string, tenant: string, pieceX: int, now: nat)
    ensures
      var w := After(NOTHING, events);
      JustIssued(Next(w, Issue(identity, tenant, pieceX, now)), w.s.nextChallenge)
  {
    AfterKnown(events);
    hide After;
  }
}
