/**
  The login captcha: a failure counter decides whether a challenge is due, a
  solved challenge yields a pass, and a pass admits one login. Challenges and
  passes live in the timed map the cache stands for, the failure counter in the
  cache itself.
 */
module Captcha {
  import opened Options
  import opened JsText
  import opened TimedMap
  import opened MemoryCache

  type Id = nat

  const TRIGGER_THRESHOLD: nat := 2
  const FAIL_TTL_S: nat := 600
  const CHALLENGE_TTL_S: nat := 120
  const MAX_ATTEMPTS: nat := 3
  const PASS_TTL_S: nat := 120

  datatype Challenge = Challenge(pieceX: int, tenant: string, identity: string, attemptsRemaining: nat, expiresAt: nat)
  datatype Pass = Pass(identity: string, tenant: string)

  datatype Mode = Off | Shadow | Enforce
  datatype Verdict = Admitted | CaptchaRequired
  datatype Outcome = Passed(pass: Id) | Invalid(attemptsRemaining: nat) | Expired

  /** The cache's three key spaces, and the random ids not yet used. */
  datatype State = State(
    fails: Store, challenges: map<Id, Entry<Challenge>>, passes: map<Id, Entry<Pass>>, nextChallenge: Id, nextPass: Id
  )

  function FailKey(identity: string): string {
    "captcha:fails:" + identity
  }

  function Failed(s: State, identity: string, now: nat): State {
    s.(fails := Stored(s.fails, Incr(FailKey(identity), FAIL_TTL_S), now))
  }

  function Cleared(s: State, identity: string, now: nat): State {
    s.(fails := Stored(s.fails, Del(FailKey(identity)), now))
  }

  predicate Required(s: State, identity: string, now: nat) {
    var raw := ValueOf(Fetch(s.fails, FailKey(identity), now));
    var count := if raw.Some? && raw.value != "" then ParseInt(raw.value) else Some(0);
    count.Some? && count.value >= TRIGGER_THRESHOLD
  }

  function Issued(s: State, identity: string, tenant: string, pieceX: int, now: nat): State {
    s.(challenges := Put(s.challenges, s.nextChallenge,
                         Challenge(pieceX, tenant, identity, MAX_ATTEMPTS, now + CHALLENGE_TTL_S * 1000),
                         CHALLENGE_TTL_S, now),
       nextChallenge := s.nextChallenge + 1)
  }

  /** Math.max(1, Math.ceil(ms / 1000)) */
  function SecondsLeft(ms: nat): nat {
    var up := (ms + 999) / 1000;
    if up < 1 then 1 else up
  }

  /** verifyChallenge; `solves` is the puzzle's verdict on the submitted move. */
  function Verified(s: State, id: Id, solves: Challenge -> bool, now: nat): (State, Outcome) {
    var found := Fetch(s.challenges, id, now);
    if found.None? then (s, Expired)
    else
      var state := found.value.value;
      var burnt := s.(challenges := s.challenges - {id});
      if now > state.expiresAt || state.attemptsRemaining == 0 then (burnt, Expired)
      else if !solves(state) then
        if state.attemptsRemaining == 1 then (burnt, Expired)
        else
          (s.(challenges := Put(s.challenges, id, state.(attemptsRemaining := state.attemptsRemaining - 1),
                                SecondsLeft(state.expiresAt - now), now)),
           Invalid(state.attemptsRemaining - 1))
      else
        (burnt.(passes := Put(s.passes, s.nextPass, Pass(state.identity, state.tenant), PASS_TTL_S, now),
                nextPass := s.nextPass + 1),
         Passed(s.nextPass))
  }

  /** A pass is deleted by whoever presents it; it is good for its identity only. */
  predicate GoodPass(s: State, pass: Id, identity: string, now: nat) {
    var found := Fetch(s.passes, pass, now);
    found.Some? && found.value.value.identity == identity
  }

  function Consumed(s: State, pass: Id): State {
    s.(passes := s.passes - {pass})
  }

  /** captchaGuard, when the cache answers. */
  function Guarded(s: State, mode: Mode, identity: string, pass: Option<Id>, now: nat): (State, Verdict) {
    if mode.Off? || !Required(s, identity, now) || mode.Shadow? then (s, Admitted)
    else if pass.None? then (s, CaptchaRequired)
    else (Consumed(s, pass.value), if GoodPass(s, pass.value, identity, now) then Admitted else CaptchaRequired)
  }

  class CaptchaService {
    var s: State

    constructor ()
      ensures s == State(map[], map[], map[], 0, 0)
    {
      s := State(map[], map[], map[], 0, 0);
    }

    method RecordLoginFailure(identity: string, now: nat)
      modifies this
      ensures s == Failed(old(s), identity, now)
    {
      s := s.(fails := Stored(s.fails, Incr(FailKey(identity), FAIL_TTL_S), now));
    }

    method ClearLoginFailures(identity: string, now: nat)
      modifies this
      ensures s == Cleared(old(s), identity, now)
    {
      s := s.(fails := Stored(s.fails, Del(FailKey(identity)), now));
    }

    method IssueChallenge(identity: string, tenant: string, pieceX: int, now: nat) returns (id: Id)
      modifies this
      ensures s == Issued(old(s), identity, tenant, pieceX, now) && id == old(s).nextChallenge
    {
      id := s.nextChallenge;
      var state := Challenge(pieceX, tenant, identity, MAX_ATTEMPTS, now + CHALLENGE_TTL_S * 1000);
      s := s.(challenges := Put(s.challenges, id, state, CHALLENGE_TTL_S, now), nextChallenge := id + 1);
    }

    method VerifyChallenge(id: Id, solves: Challenge -> bool, now: nat) returns (outcome: Outcome)
      modifies this
      ensures (s, outcome) == Verified(old(s), id, solves, now)
    {
      var found := Fetch(s.challenges, id, now);
      if found.None? {
        return Expired;
      }
      var state := found.value.value;
      if now > state.expiresAt || state.attemptsRemaining == 0 {
        s := s.(challenges := s.challenges - {id});
        return Expired;
      }
      if !solves(state) {
        state := state.(attemptsRemaining := state.attemptsRemaining - 1);
        if state.attemptsRemaining == 0 {
          s := s.(challenges := s.challenges - {id});
          return Expired;
        }
        s := s.(challenges := Put(s.challenges, id, state, SecondsLeft(state.expiresAt - now), now));
        return Invalid(state.attemptsRemaining);
      }
      s := s.(challenges := s.challenges - {id});
      var pass := s.nextPass;
      s := s.(passes := Put(s.passes, pass, Pass(state.identity, state.tenant), PASS_TTL_S, now), nextPass := pass + 1);
      return Passed(pass);
    }

    method ConsumeCaptchaPass(pass: Id, identity: string, now: nat) returns (valid: bool)
      modifies this
      ensures s == Consumed(old(s), pass) && valid == GoodPass(old(s), pass, identity, now)
    {
      var found := Fetch(s.passes, pass, now);
      s := s.(passes := s.passes - {pass});
      return found.Some? && found.value.value.identity == identity;
    }

    /** A cache that fails lets everybody through, at the failure counter or at the presented pass, which it then has
        deleted or not. */
    method Guard(mode: Mode, identity: string, pass: Option<Id>, now: nat, failure: Failure) returns (verdict: Verdict)
      modifies this
      ensures failure.NoFailure? ==> (s, verdict) == Guarded(old(s), mode, identity, pass, now)
      ensures failure.AtCounter? ==> verdict == Admitted && s == old(s)
      ensures failure.AtPass? ==>
        if ReachesPass(old(s), mode, identity, pass, now)
        then verdict == Admitted && s == (if failure.deleted then Consumed(old(s), pass.value) else old(s))
        else (s, verdict) == Guarded(old(s), mode, identity, pass, now)
    {
      if mode.Off? || failure.AtCounter? {
        return Admitted;
      }
      if !Required(s, identity, now) || mode.Shadow? {
        return Admitted;
      }
      if pass.None? {
        return CaptchaRequired;
      }
      if failure.AtPass? {
        if failure.deleted {
          s := s.(passes := s.passes - {pass.value});
        }
        return Admitted;
      }
      var valid := ConsumeCaptchaPass(pass.value, identity, now);
      return if valid then Admitted else CaptchaRequired;
    }
  }

  /** Where a call of the cache fails. */
  datatype Failure = NoFailure | AtCounter | AtPass(deleted: bool)

  /** The guard comes to look at the presented pass. */
  predicate ReachesPass(s: State, mode: Mode, identity: string, pass: Option<Id>, now: nat) {
    mode.Enforce? && Required(s, identity, now) && pass.Some?
  }
}
