/**
  Every run of the captcha protocol: what one challenge and one pass can lead
  to, and when a captcha is due.
 */
module CaptchaRuns {
  import opened Options
  import opened JsText
  import opened TimedMap
  import opened MemoryCache
  import opened RateLimit
  import opened Captcha

  datatype Event =
    | Fail(identity: string, now: nat)
    | Clear(identity: string, now: nat)
    | Issue(identity: string, tenant: string, pieceX: int, now: nat)
    | Verify(challenge: Id, solves: Challenge -> bool, now: nat)
    | Login(mode: Mode, identity: string, pass: Option<Id>, now: nat)

  /** What has come of a challenge so far. */
  datatype Story = Story(identity: string, tenant: string, pieceX: int, issuedAt: nat, wrong: nat, passes: seq<Id>)

  datatype Admission = Admission(identity: string, at: nat)

  /** Which challenge a pass was won with, when, whether it has been presented, and the logins it was accepted for. */
  datatype PassStory = PassStory(challenge: Id, at: nat, presented: bool, admissions: seq<Admission>)

  datatype World = World(s: State, stories: seq<Story>, passStories: seq<PassStory>)

  /** A login that needs a captcha presents a pass. */
  predicate Presents(s: State, e: Event) {
    e.Login? && e.mode == Enforce && Required(s, e.identity, e.now) && e.pass.Some?
  }

  function AfterPresenting(s: State, e: Event, story: PassStory): PassStory
    requires Presents(s, e)
  {
    story.(presented := true,
           admissions := if GoodPass(s, e.pass.value, e.identity, e.now)
                         then story.admissions + [Admission(e.identity, e.now)] else story.admissions)
  }

  function Next(w: World, e: Event): World {
    match e
    case Fail(identity, now) => w.(s := Failed(w.s, identity, now))
    case Clear(identity, now) => w.(s := Cleared(w.s, identity, now))
    case Issue(identity, tenant, pieceX, now) =>
      w.(s := Issued(w.s, identity, tenant, pieceX, now),
         stories := w.stories + [Story(identity, tenant, pieceX, now, 0, [])])
    case Verify(id, solves, now) =>
      var (s, outcome) := Verified(w.s, id, solves, now);
      var guessed := id < |w.stories| && Fetch(w.s.challenges, id, now).Some?;
      World(s,
            if !guessed then w.stories
            else if outcome.Passed?
            then w.stories[id := w.stories[id].(passes := w.stories[id].passes + [outcome.pass])]
            else w.stories[id := w.stories[id].(wrong := w.stories[id].wrong + 1)],
            if outcome.Passed? then w.passStories + [PassStory(id, now, false, [])] else w.passStories)
    case Login(mode, identity, pass, now) =>
      var s := Guarded(w.s, mode, identity, pass, now).0;
      World(s, w.stories,
            if Presents(w.s, e) && pass.value < |w.passStories|
            then w.passStories[pass.value := AfterPresenting(w.s, e, w.passStories[pass.value])]
            else w.passStories)
  }

  function Run(events: seq<Event>): World {
    if events == [] then World(State(map[], map[], map[], 0, 0), [], [])
    else Next(Run(events[..|events| - 1]), events[|events| - 1])
  }

  // ---------------------------------------------------------------------
  // The invariant
  // ---------------------------------------------------------------------

  /** A challenge still stored has no pass yet and as many attempts as wrong guesses leave. */
  predicate StoryOk(s: State, passStories: seq<PassStory>, id: Id, story: Story) {
    && (id in s.challenges ==>
          var state := s.challenges[id].value;
          && story.passes == [] && state.identity == story.identity
          && state.tenant == story.tenant && state.pieceX == story.pieceX
          && state.expiresAt == story.issuedAt + 120_000
          && 0 < state.attemptsRemaining && state.attemptsRemaining + story.wrong == 3)
    && |story.passes| <= 1
    && (story.passes != [] ==>
          story.wrong <= 2 && story.passes[0] < |passStories| && passStories[story.passes[0]].challenge == id)
  }

  predicate PassOk(s: State, stories: seq<Story>, id: Id, story: PassStory) {
    && story.challenge < |stories|
    && stories[story.challenge].passes == [id]
    && story.at <= stories[story.challenge].issuedAt + 120_000
    && (id in s.passes <==> !story.presented)
    && (!story.presented ==>
          && story.admissions == []
          && s.passes[id].value.identity == stories[story.challenge].identity
          && s.passes[id].expiresAt == Some(story.at + 120_000))
    && |story.admissions| <= 1
    && (forall a :: a in story.admissions ==>
        a.identity == stories[story.challenge].identity && a.at < story.at + 120_000)
  }

  ghost predicate Inv(w: World) {
    && |w.stories| == w.s.nextChallenge && |w.passStories| == w.s.nextPass
    && (forall id :: id in w.s.challenges ==> id < w.s.nextChallenge)
    && (forall id :: id in w.s.passes ==> id < w.s.nextPass)
    && (forall id :: 0 <= id < |w.stories| ==> StoryOk(w.s, w.passStories, id, w.stories[id]))
    && (forall id :: 0 <= id < |w.passStories| ==> PassOk(w.s, w.stories, id, w.passStories[id]))
  }

  lemma VerifyKeepsStories(w: World, e: Event)
    requires Inv(w) && e.Verify?
    ensures forall id :: 0 <= id < |Next(w, e).stories| ==>
        StoryOk(Next(w, e).s, Next(w, e).passStories, id, Next(w, e).stories[id])
  {
    var w' := Next(w, e);
    forall id | 0 <= id < |w'.stories| ensures StoryOk(w'.s, w'.passStories, id, w'.stories[id]) {
      assert StoryOk(w.s, w.passStories, id, w.stories[id]);
    }
  }

  lemma VerifyKeepsPasses(w: World, e: Event)
    requires Inv(w) && e.Verify?
    ensures forall id :: 0 <= id < |Next(w, e).passStories| ==>
        PassOk(Next(w, e).s, Next(w, e).stories, id, Next(w, e).passStories[id])
  {
    var w' := Next(w, e);
    forall id | 0 <= id < |w'.passStories| ensures PassOk(w'.s, w'.stories, id, w'.passStories[id]) {
      assert e.challenge < |w.stories| ==> StoryOk(w.s, w.passStories, e.challenge, w.stories[e.challenge]);
      if id < |w.passStories| {
        assert PassOk(w.s, w.stories, id, w.passStories[id]);
      }
    }
  }

  lemma VerifyKeepsInv(w: World, e: Event)
    requires Inv(w) && e.Verify?
    ensures Inv(Next(w, e))
  {
    hide StoryOk, PassOk;
    VerifyKeepsStories(w, e);
    VerifyKeepsPasses(w, e);
  }

  lemma IssueKeepsInv(w: World, e: Event)
    requires Inv(w) && e.Issue?
    ensures Inv(Next(w, e))
  {
    var w' := Next(w, e);
    forall id | 0 <= id < |w'.stories| ensures StoryOk(w'.s, w'.passStories, id, w'.stories[id]) {
      if id < |w.stories| {
        assert StoryOk(w.s, w.passStories, id, w.stories[id]);
      }
    }
    forall id | 0 <= id < |w'.passStories| ensures PassOk(w'.s, w'.stories, id, w'.passStories[id]) {
      assert PassOk(w.s, w.stories, id, w.passStories[id]);
    }
  }

  lemma LoginKeepsInv(w: World, e: Event)
    requires Inv(w) && e.Login?
    ensures Inv(Next(w, e))
  {
    var w' := Next(w, e);
    hide Required;
    forall id | 0 <= id < |w'.stories| ensures StoryOk(w'.s, w'.passStories, id, w'.stories[id]) {
      assert StoryOk(w.s, w.passStories, id, w.stories[id]);
    }
    forall id | 0 <= id < |w'.passStories| ensures PassOk(w'.s, w'.stories, id, w'.passStories[id]) {
      assert PassOk(w.s, w.stories, id, w.passStories[id]);
    }
  }

  lemma CountingKeepsInv(w: World, e: Event)
    requires Inv(w) && (e.Fail? || e.Clear?)
    ensures Inv(Next(w, e))
  {
    hide Stored;
    var w' := Next(w, e);
    forall id | 0 <= id < |w'.stories| ensures StoryOk(w'.s, w'.passStories, id, w'.stories[id]) {
      assert StoryOk(w.s, w.passStories, id, w.stories[id]);
    }
    forall id | 0 <= id < |w'.passStories| ensures PassOk(w'.s, w'.stories, id, w'.passStories[id]) {
      assert PassOk(w.s, w.stories, id, w.passStories[id]);
    }
  }

  lemma {:induction false} RunInv(events: seq<Event>)
    ensures Inv(Run(events))
  {
    if events == [] {
    } else {
      var e := events[|events| - 1];
      var w := Run(events[..|events| - 1]);
      RunInv(events[..|events| - 1]);
      hide Inv, Next;
      match e
      case Fail(_, _) => CountingKeepsInv(w, e);
      case Clear(_, _) => CountingKeepsInv(w, e);
      case Issue(_, _, _, _) => IssueKeepsInv(w, e);
      case Verify(_, _, _) => VerifyKeepsInv(w, e);
      case Login(_, _, _, _) => LoginKeepsInv(w, e);
    }
  }

  // ---------------------------------------------------------------------
  // What a challenge and a pass can lead to
  // ---------------------------------------------------------------------

  /** A challenge yields at most one pass, after at most two wrong guesses and within 120 s of its issue. */
  lemma OnePassPerChallenge(events: seq<Event>, id: Id)
    requires id < |Run(events).stories|
    ensures
      var w := Run(events);
      var story := w.stories[id];
      && |story.passes| <= 1
      && (story.passes != [] ==>
            && story.wrong <= 2 && story.passes[0] < |w.passStories|
            && w.passStories[story.passes[0]].challenge == id
            && w.passStories[story.passes[0]].at <= story.issuedAt + 120_000)
  {
    RunInv(events);
    var w := Run(events);
    hide Run;
    assert StoryOk(w.s, w.passStories, id, w.stories[id]);
    if w.stories[id].passes != [] {
      var p := w.stories[id].passes[0];
      assert PassOk(w.s, w.stories, p, w.passStories[p]);
    }
  }

  /** The challenge can still be solved, as far as guesses go. */
  predicate Unsolved(story: Story) {
    story.passes == [] && story.wrong <= 2
  }

  /** What a guess is held against. */
  function Puzzle(story: Story): Challenge
    requires story.wrong <= 2
  {
    Challenge(story.pieceX, story.tenant, story.identity, 3 - story.wrong, story.issuedAt + 120_000)
  }

  /** Up to its end an unsolved challenge is in the cache, and its entry lives at least as long. */
  predicate StoryKept(s: State, id: Id, story: Story, now: nat) {
    Unsolved(story) && now < story.issuedAt + 120_000 ==>
      && id in s.challenges && s.challenges[id].expiresAt.Some?
      && story.issuedAt + 120_000 <= s.challenges[id].expiresAt.value
  }

  ghost predicate KeptInTime(w: World, now: nat) {
    forall id :: 0 <= id < |w.stories| ==> StoryKept(w.s, id, w.stories[id], now)
  }

  lemma GuessKeeps(w: World, e: Event, before: nat)
    requires e.Verify? && e.challenge < |w.stories| && before <= e.now
    requires StoryOk(w.s, w.passStories, e.challenge, w.stories[e.challenge])
    requires StoryKept(w.s, e.challenge, w.stories[e.challenge], before)
    ensures StoryKept(Next(w, e).s, e.challenge, Next(w, e).stories[e.challenge], e.now)
  {
  }

  lemma OthersKept(w: World, e: Event, id: Id, before: nat)
    requires id < |w.stories| && before <= e.now && (e.Verify? ==> e.challenge != id)
    requires StoryKept(w.s, id, w.stories[id], before)
    requires e.Issue? ==> id != w.s.nextChallenge
    ensures id < |Next(w, e).stories| && StoryKept(Next(w, e).s, id, Next(w, e).stories[id], e.now)
  {
    hide Required, Stored;
  }

  lemma NextKeepsInTime(w: World, e: Event, before: nat)
    requires Inv(w) && KeptInTime(w, before) && before <= e.now
    ensures KeptInTime(Next(w, e), e.now)
  {
    var w' := Next(w, e);
    forall id | 0 <= id < |w'.stories| ensures StoryKept(w'.s, id, w'.stories[id], e.now) {
      if id < |w.stories| {
        assert StoryOk(w.s, w.passStories, id, w.stories[id]) && StoryKept(w.s, id, w.stories[id], before);
        hide StoryOk, PassOk, StoryKept, Next;
        if e.Verify? && e.challenge == id {
          GuessKeeps(w, e, before);
        } else {
          OthersKept(w, e, id, before);
        }
      } else {
        hide PassOk, StoryOk;
      }
    }
  }

  lemma {:induction false} RunKeepsInTime(events: seq<Event>, now: nat)
    requires EventsInOrder(events) && forall k :: 0 <= k < |events| ==> events[k].now <= now
    ensures KeptInTime(Run(events), now)
  {
    if events == [] {
    } else {
      hide Next, Inv, KeptInTime;
      var most, last := events[..|events| - 1], events[|events| - 1];
      RunKeepsInTime(most, last.now);
      RunInv(most);
      NextKeepsInTime(Run(most), last, last.now);
      KeptLater(Run(events), last.now, now);
    }
  }

  lemma KeptLater(w: World, before: nat, now: nat)
    requires KeptInTime(w, before) && before <= now
    ensures KeptInTime(w, now)
  {
    forall id | 0 <= id < |w.stories| ensures StoryKept(w.s, id, w.stories[id], now) {
      assert StoryKept(w.s, id, w.stories[id], before);
    }
  }

  /** Before the end, or in the very millisecond of it if the cache still has the challenge. */
  predicate InTime(s: State, story: Story, id: Id, now: nat) {
    now < story.issuedAt + 120_000 || (now == story.issuedAt + 120_000 && Fetch(s.challenges, id, now).Some?)
  }

  /** What a guess must be told, and leave: see GuessAnswered. */
  predicate AnswerOk(
    s: State, story: Story, id: Id, solves: Challenge -> bool, now: nat, after: State, outcome: Outcome
  ) {
    if Unsolved(story) && InTime(s, story, id, now) then
      if solves(Puzzle(story)) then
        && outcome == Passed(s.nextPass) && id !in after.challenges
        && after.passes == s.passes[s.nextPass := Entry(Pass(story.identity, story.tenant), Some(now + 120_000))]
      else
        && outcome == (if story.wrong == 2 then Expired else Invalid(2 - story.wrong))
        && after.passes == s.passes && (id in after.challenges <==> story.wrong < 2)
    else outcome == Expired && after.passes == s.passes
  }

  lemma GuessOf(s: State, passStories: seq<PassStory>, story: Story, id: Id, solves: Challenge -> bool, now: nat)
    requires StoryOk(s, passStories, id, story) && StoryKept(s, id, story, now)
    ensures var (after, outcome) := Verified(s, id, solves, now); AnswerOk(s, story, id, solves, now, after, outcome)
  {
    if id in s.challenges && Unsolved(story) {
      assert s.challenges[id].value == Puzzle(story);
    }
  }

  /** After any run: a guess at an unsolved challenge in time wins a pass for 120 s if it solves the puzzle as issued,
      and costs an attempt, the third time the challenge, if it does not; every other guess is told that the challenge
      has expired. */
  lemma GuessAnswered(events: seq<Event>, id: Id, solves: Challenge -> bool, now: nat)
    requires EventsInOrder(events) && forall k :: 0 <= k < |events| ==> events[k].now <= now
    ensures
      var w := Run(events);
      var (after, outcome) := Verified(w.s, id, solves, now);
      if id < |w.stories| then AnswerOk(w.s, w.stories[id], id, solves, now, after, outcome)
      else outcome == Expired && after == w.s
  {
    RunInv(events);
    RunKeepsInTime(events, now);
    var w := Run(events);
    hide Run, PassOk;
    if id < |w.stories| {
      assert StoryOk(w.s, w.passStories, id, w.stories[id]) && StoryKept(w.s, id, w.stories[id], now);
      hide Verified, StoryOk, StoryKept, AnswerOk;
      GuessOf(w.s, w.passStories, w.stories[id], id, solves, now);
    }
  }

  /** A pass is accepted for at most one login, of the identity its challenge was issued to, within 240 s of the
      issue. */
  lemma OneLoginPerPass(events: seq<Event>, pass: Id)
    requires pass < |Run(events).passStories|
    ensures
      var w := Run(events);
      var story := w.passStories[pass];
      && |story.admissions| <= 1
      && (story.admissions != [] ==>
            && story.challenge < |w.stories|
            && story.admissions[0].identity == w.stories[story.challenge].identity
            && story.admissions[0].at < w.stories[story.challenge].issuedAt + 240_000)
  {
    RunInv(events);
    var w := Run(events);
    hide Run;
    assert PassOk(w.s, w.stories, pass, w.passStories[pass]);
    if w.passStories[pass].admissions != [] {
      assert w.passStories[pass].admissions[0] in w.passStories[pass].admissions;
    }
  }

  /** A pass nobody has presented yet, won less than 120 s ago with a challenge issued to this identity. */
  predicate PassHolds(w: World, pass: Option<Id>, identity: string, now: nat) {
    && pass.Some? && pass.value < |w.passStories|
    && var story := w.passStories[pass.value];
    && !story.presented && story.challenge < |w.stories| && w.stories[story.challenge].identity == identity
    && now < story.at + 120_000
  }

  /** After any run, in enforce mode, a login that needs a captcha gets on exactly if it presents such a pass. */
  lemma AdmittedIff(events: seq<Event>, identity: string, pass: Option<Id>, now: nat)
    requires Required(Run(events).s, identity, now)
    ensures
      var w := Run(events);
      Guarded(w.s, Enforce, identity, pass, now).1 == Admitted <==> PassHolds(w, pass, identity, now)
  {
    RunInv(events);
    var w := Run(events);
    hide Run, Required;
    if pass.Some? && pass.value < |w.passStories| {
      assert PassOk(w.s, w.stories, pass.value, w.passStories[pass.value]);
    }
  }

  // ---------------------------------------------------------------------
  // When a captcha is due
  // ---------------------------------------------------------------------

  /** The identity's failures since its counter was last cleared. */
  function Failures(events: seq<Event>, identity: string): seq<nat> {
    if events == [] then [] else
      var most, last := events[..|events| - 1], events[|events| - 1];
      if last.Fail? && last.identity == identity then Failures(most, identity) + [last.now]
      else if last.Clear? && last.identity == identity then []
      else Failures(most, identity)
  }

  predicate EventsInOrder(events: seq<Event>) {
    forall j, k :: 0 <= j < k < |events| ==> events[j].now <= events[k].now
  }

  lemma FailKeysDiffer(a: string, b: string)
    ensures FailKey(a) == FailKey(b) <==> a == b
  {
    assert FailKey(a)[14..] == a && FailKey(b)[14..] == b;
  }

  lemma OthersKeepCounter(w: World, e: Event, identity: string)
    requires !((e.Fail? || e.Clear?) && e.identity == identity)
    ensures Fetch(Next(w, e).s.fails, FailKey(identity), e.now) == Fetch(w.s.fails, FailKey(identity), e.now)
  {
    hide FailKey, Required;
    if e.Fail? || e.Clear? {
      FailKeysDiffer(e.identity, identity);
    }
  }

  lemma {:induction false} FailuresCounted(events: seq<Event>, identity: string, now: nat)
    requires EventsInOrder(events) && forall k :: 0 <= k < |events| ==> events[k].now <= now
    ensures Fetch(Run(events).s.fails, FailKey(identity), now)
        == CounterEntry(Failures(events, identity), FAIL_TTL_S, now)
  {
    if events == [] {
    } else {
      hide CounterEntry, FailKey;
      var most, last := events[..|events| - 1], events[|events| - 1];
      var w := Run(most);
      FailuresCounted(most, identity, last.now);
      if last.Fail? && last.identity == identity {
        HitMeans(w.s.fails, Failures(most, identity), FailKey(identity), FAIL_TTL_S, last.now);
      } else if last.Clear? && last.identity == identity {
        NothingCounted(w.s.fails, FailKey(identity), last.now);
      } else {
        OthersKeepCounter(w, last, identity);
      }
      hide Run, Failures, Fetch;
      EntryLater(Run(events).s.fails, Failures(events, identity), FailKey(identity), FAIL_TTL_S, last.now, now);
    }
  }

  lemma NothingCounted(store: Store, key: string, now: nat)
    ensures Fetch(Stored(store, Del(key), now), key, now) == CounterEntry([], FAIL_TTL_S, now)
  {
  }

  /** The identity's current ten-minute window of failures, since the last clear, holds two or more. */
  predicate Due(events: seq<Event>, identity: string, now: nat) {
    var failures := Failures(events, identity);
    && failures != []
    && now < WindowAfter(failures, 600_000).start + 600_000
    && WindowAfter(failures, 600_000).count >= 2
  }

  lemma CountIsRead(n: nat)
    ensures Decimal(n) != "" && ParseInt(Decimal(n)) == Some(n)
  {
    ParseDecimal(n, []);
    assert Decimal(n) + [] == Decimal(n);
  }

  lemma RequiredByCounter(s: State, times: seq<nat>, identity: string, now: nat)
    requires Fetch(s.fails, FailKey(identity), now) == CounterEntry(times, FAIL_TTL_S, now)
    ensures Required(s, identity, now) <==>
      && times != [] && now < WindowAfter(times, 600_000).start + 600_000 && WindowAfter(times, 600_000).count >= 2
  {
    hide Fetch, FailKey, ParseInt, Decimal, WindowAfter;
    if times != [] {
      CountIsRead(WindowAfter(times, 600_000).count);
    }
  }

  /** A captcha is required exactly when it is due. */
  lemma RequiredIff(events: seq<Event>, identity: string, now: nat)
    requires EventsInOrder(events) && forall k :: 0 <= k < |events| ==> events[k].now <= now
    ensures Required(Run(events).s, identity, now) <==> Due(events, identity, now)
  {
    FailuresCounted(events, identity, now);
    hide Run, Failures, Fetch, FailKey, CounterEntry, Required, WindowAfter;
    RequiredByCounter(Run(events).s, Failures(events, identity), identity, now);
  }

  /** After any run, in every mode: the guard refuses a login exactly if it enforces, a captcha is due for the identity,
      and no pass that holds is presented; and it takes the presented pass away exactly if it enforces and a captcha is
      due. */
  lemma RefusedIff(events: seq<Event>, mode: Mode, identity: string, pass: Option<Id>, now: nat)
    requires EventsInOrder(events) && forall k :: 0 <= k < |events| ==> events[k].now <= now
    ensures
      var w := Run(events);
      var (s, verdict) := Guarded(w.s, mode, identity, pass, now);
      var asked := mode == Enforce && Due(events, identity, now);
      && (verdict == CaptchaRequired <==> asked && !PassHolds(w, pass, identity, now))
      && s == if asked && pass.Some? then w.s.(passes := w.s.passes - {pass.value}) else w.s
  {
    RequiredIff(events, identity, now);
    hide Run, Due, Required, PassHolds;
    if Required(Run(events).s, identity, now) {
      AdmittedIff(events, identity, pass, now);
    }
  }
}
