/** The per-tenant sliding-window limit on alerts. */
module AlertLimiter {
  const WINDOW_MS: nat := 60_000

  /** The timestamps less than a minute old. */
  function Recent(timestamps: seq<nat>, now: nat): (r: seq<nat>)
    ensures |r| <= |timestamps|
  {
    if timestamps == [] then [] else
      var last := timestamps[|timestamps| - 1];
      Recent(timestamps[..|timestamps| - 1], now) + (if now - last < WINDOW_MS then [last] else [])
  }

  function Stored(log: map<string, seq<nat>>, tenant: string): seq<nat> {
    if tenant in log then log[tenant] else []
  }

  predicate Admits(log: map<string, seq<nat>>, tenant: string, limit: int, now: nat) {
    |Recent(Stored(log, tenant), now)| < limit
  }

  function Checked(log: map<string, seq<nat>>, tenant: string, limit: int, now: nat): map<string, seq<nat>> {
    if Admits(log, tenant, limit, now) then log[tenant := Recent(Stored(log, tenant), now) + [now]] else log
  }

  class AlertRateLimit {
    var log: map<string, seq<nat>>

    constructor ()
      ensures log == map[]
    {
      log := map[];
    }

    method CheckRateLimit(tenant: string, maxPerMinute: int, now: nat) returns (admitted: bool)
      modifies this
      ensures admitted == Admits(old(log), tenant, maxPerMinute, now)
      ensures log == Checked(old(log), tenant, maxPerMinute, now)
    {
      var timestamps := if tenant in log then log[tenant] else [];
      var recent := Recent(timestamps, now);
      if |recent| >= maxPerMinute {
        return false;
      }
      recent := recent + [now];
      log := log[tenant := recent];
      return true;
    }
  }

  // ---------------------------------------------------------------------
  // Every sequence of calls, of any tenants
  // ---------------------------------------------------------------------

  datatype Call = Call(tenant: string, now: nat)

  function Run(calls: seq<Call>, limit: int): map<string, seq<nat>> {
    if calls == [] then map[] else
      var last := calls[|calls| - 1];
      Checked(Run(calls[..|calls| - 1], limit), last.tenant, limit, last.now)
  }

  /** When the tenant's admitted alerts were raised. */
  function Admitted(calls: seq<Call>, limit: int, tenant: string): seq<nat> {
    if calls == [] then [] else
      var last := calls[|calls| - 1];
      Admitted(calls[..|calls| - 1], limit, tenant)
      + (if last.tenant == tenant && Admits(Run(calls[..|calls| - 1], limit), tenant, limit, last.now)
         then [last.now] else [])
  }

  predicate InOrder(calls: seq<Call>) {
    forall j, k :: 0 <= j < k < |calls| ==> calls[j].now <= calls[k].now
  }

  /** How many of the times lie in the half-open minute from `from`. */
  function CountIn(times: seq<nat>, from: int): nat {
    if times == [] then 0 else
      CountIn(times[..|times| - 1], from) + (if from <= times[|times| - 1] < from + 60_000 then 1 else 0)
  }

  lemma {:induction false} RecentTwice(times: seq<nat>, then_: nat, now: nat)
    requires then_ <= now
    ensures Recent(Recent(times, then_), now) == Recent(times, now)
  {
    if times == [] {
    } else {
      var most, last := times[..|times| - 1], times[|times| - 1];
      RecentTwice(most, then_, now);
      var kept := Recent(most, then_);
      if then_ - last < WINDOW_MS {
        assert (kept + [last])[..|kept|] == kept;
      } else {
        assert kept + [] == kept;
        assert Recent(most, now) + [] == Recent(most, now);
      }
    }
  }

  predicate LastAdmitted(calls: seq<Call>, limit: int, tenant: string)
    requires calls != []
  {
    var last := calls[|calls| - 1];
    last.tenant == tenant && Admits(Run(calls[..|calls| - 1], limit), tenant, limit, last.now)
  }

  lemma LastCall(calls: seq<Call>, limit: int, tenant: string)
    requires calls != []
    ensures
      var most, now := calls[..|calls| - 1], calls[|calls| - 1].now;
      var before := Stored(Run(most, limit), tenant);
      && Stored(Run(calls, limit), tenant)
          == (if LastAdmitted(calls, limit, tenant) then Recent(before, now) + [now] else before)
      && Admitted(calls, limit, tenant) == Admitted(most, limit, tenant)
          + (if LastAdmitted(calls, limit, tenant) then [now] else [])
  {
  }

  /** Forgetting and not recording refusals loses nothing a later call would look at. */
  lemma {:induction false} StoredIsEnough(calls: seq<Call>, limit: int, tenant: string, now: nat)
    requires InOrder(calls) && forall k :: 0 <= k < |calls| ==> calls[k].now <= now
    ensures Recent(Stored(Run(calls, limit), tenant), now) == Recent(Admitted(calls, limit, tenant), now)
  {
    if calls == [] {
    } else {
      var most, last := calls[..|calls| - 1], calls[|calls| - 1];
      LastCall(calls, limit, tenant);
      StoredIsEnough(most, limit, tenant, now);
      hide Run, Admitted, Recent, LastAdmitted;
      if LastAdmitted(calls, limit, tenant) {
        StoredIsEnough(most, limit, tenant, last.now);
        RecentTwice(Stored(Run(most, limit), tenant), last.now, now);
        RecentSnoc(Recent(Stored(Run(most, limit), tenant), last.now), last.now, now);
        RecentSnoc(Admitted(most, limit, tenant), last.now, now);
      } else {
        assert Admitted(calls, limit, tenant) == Admitted(most, limit, tenant);
      }
    }
  }

  lemma RecentSnoc(times: seq<nat>, t: nat, now: nat)
    ensures Recent(times + [t], now) == Recent(times, now) + (if now - t < WINDOW_MS then [t] else [])
  {
    assert (times + [t])[..|times|] == times;
  }

  /** A call is refused exactly when the minute before it already holds that many admitted alerts of its tenant. */
  lemma RefusedIffFull(calls: seq<Call>, limit: int, tenant: string, now: nat)
    requires InOrder(calls + [Call(tenant, now)])
    ensures !Admits(Run(calls, limit), tenant, limit, now) <==>
        CountIn(Admitted(calls, limit, tenant), now - 59_999) >= limit
  {
    var all := calls + [Call(tenant, now)];
    forall j, k | 0 <= j < k < |calls| ensures calls[j].now <= calls[k].now {
      assert all[j].now <= all[k].now;
    }
    forall k | 0 <= k < |calls| ensures calls[k].now <= now {
      assert all[k].now <= all[|calls|].now;
    }
    StoredIsEnough(calls, limit, tenant, now);
    AdmittedBefore(calls, limit, tenant, now);
    RecentCounts(Admitted(calls, limit, tenant), now);
  }

  lemma {:induction false} AdmittedBefore(calls: seq<Call>, limit: int, tenant: string, now: nat)
    requires forall k :: 0 <= k < |calls| ==> calls[k].now <= now
    ensures forall k :: 0 <= k < |Admitted(calls, limit, tenant)| ==> Admitted(calls, limit, tenant)[k] <= now
  {
    if calls == [] {
    } else {
      AdmittedBefore(calls[..|calls| - 1], limit, tenant, now);
    }
  }

  lemma {:induction false} RecentCounts(times: seq<nat>, now: nat)
    requires forall k :: 0 <= k < |times| ==> times[k] <= now
    ensures |Recent(times, now)| == CountIn(times, now - 59_999)
  {
    if times == [] {
    } else {
      RecentCounts(times[..|times| - 1], now);
    }
  }

  /** Moving the window so that it ends at `now` loses nothing admitted up to `now`. */
  lemma {:induction false} WindowEndingNow(times: seq<nat>, from: int, now: nat)
    requires from <= now < from + 60_000
    requires forall k :: 0 <= k < |times| ==> times[k] <= now
    ensures CountIn(times, from) <= CountIn(times, now - 59_999)
  {
    if times == [] {
    } else {
      WindowEndingNow(times[..|times| - 1], from, now);
    }
  }

  /** An alert admitted in the minute from `from` found room there. */
  lemma LastFound(calls: seq<Call>, limit: nat, tenant: string, from: int)
    requires calls != [] && InOrder(calls) && LastAdmitted(calls, limit, tenant)
    requires from <= calls[|calls| - 1].now < from + 60_000
    ensures CountIn(Admitted(calls[..|calls| - 1], limit, tenant), from) < limit
  {
    hide Run, Admitted, Recent, CountIn;
    var most, last := calls[..|calls| - 1], calls[|calls| - 1];
    assert most + [Call(tenant, last.now)] == calls;
    RefusedIffFull(most, limit, tenant, last.now);
    AdmittedBefore(most, limit, tenant, last.now);
    WindowEndingNow(Admitted(most, limit, tenant), from, last.now);
  }

  lemma CountSnoc(times: seq<nat>, t: nat, from: int)
    ensures CountIn(times + [t], from) == CountIn(times, from) + (if from <= t < from + 60_000 then 1 else 0)
  {
    assert (times + [t])[..|times|] == times;
  }

  /** Every half-open minute holds at most maxPerMinute admitted alerts of a tenant. */
  lemma {:induction false} AtMostPerMinute(calls: seq<Call>, limit: nat, tenant: string, from: int)
    requires InOrder(calls)
    ensures CountIn(Admitted(calls, limit, tenant), from) <= limit
  {
    if calls == [] {
    } else {
      var most, last := calls[..|calls| - 1], calls[|calls| - 1];
      LastCall(calls, limit, tenant);
      AtMostPerMinute(most, limit, tenant, from);
      hide Run, Admitted, Recent, Admits, CountIn, LastAdmitted;
      if LastAdmitted(calls, limit, tenant) {
        CountSnoc(Admitted(most, limit, tenant), last.now, from);
        if from <= last.now < from + 60_000 {
          LastFound(calls, limit, tenant, from);
        }
      } else {
        assert Admitted(calls, limit, tenant) == Admitted(most, limit, tenant);
      }
    }
  }
}
