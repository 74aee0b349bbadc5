/** The fixed-window request limiter on top of the cache. */
module RateLimit {
  import opened Options
  import opened JsText
  import opened TimedMap
  import opened MemoryCache

  function LimiterKey(name: string, identity: string): string {
    "ratelimit:" + name + ":" + identity
  }

  /** A request told this count goes on; NaN is not above any limit. */
  predicate LetsThrough(answer: Answer, limit: int) {
    answer.Count? && (answer.count.Some? ==> answer.count.value <= limit)
  }

  /** rateLimit: whether the request goes on, and the remaining budget it is told. A failing cache admits everybody. */
  method Admit(cache: Cache, name: string, identity: string, limit: int, windowSec: nat, now: nat, cacheFails: bool)
      returns (admitted: bool, remaining: Option<int>)
    modifies cache
    ensures cacheFails ==> admitted && remaining == None && cache.store == old(cache.store)
    ensures !cacheFails ==> cache.store == Stored(old(cache.store), Incr(LimiterKey(name, identity), windowSec), now)
    ensures !cacheFails ==>
      var answer := Meaning(old(cache.store), Incr(LimiterKey(name, identity), windowSec), now).1;
      && admitted == LetsThrough(answer, limit)
      && remaining == (if answer.count.Some?
                       then Some(if limit - answer.count.value > 0 then limit - answer.count.value else 0) else None)
  {
    if cacheFails {
      return true, None;
    }
    var key := LimiterKey(name, identity);
    var count := cache.Increment(key, windowSec, now);
    remaining := if count.Some? then Some(if limit - count.value > 0 then limit - count.value else 0) else None;
    admitted := !(count.Some? && count.value > limit);
  }

  // ---------------------------------------------------------------------
  // The counter the cache keeps
  // ---------------------------------------------------------------------

  /** The window a counter is in: when it opened, and how many hits it has seen. */
  datatype Window = Window(start: nat, count: nat)

  /** The window of the last hit, for hits at the given times and windows of `span` milliseconds. */
  function WindowAfter(times: seq<nat>, span: nat): (w: Window)
    requires times != []
    ensures w.count > 0
  {
    var t := times[|times| - 1];
    if |times| == 1 then Window(t, 1) else
      var before := WindowAfter(times[..|times| - 1], span);
      if before.start + span <= t then Window(t, 1) else Window(before.start, before.count + 1)
  }

  /** The timed map after a history. */
  function MapRun(ops: seq<Timed>): Store {
    if ops == [] then map[] else
      var last := ops[|ops| - 1];
      Meaning(MapRun(ops[..|ops| - 1]), last.op, last.now).0
  }

  function CacheRun(ops: seq<Timed>): Store {
    if ops == [] then map[] else
      var last := ops[|ops| - 1];
      Stored(CacheRun(ops[..|ops| - 1]), last.op, last.now)
  }

  /** Whatever else the cache is used for, this key is only ever hit by its limiter. */
  predicate OnlyHits(ops: seq<Timed>, key: string, windowSec: nat) {
    forall k :: 0 <= k < |ops| ==> ops[k].op == Incr(key, windowSec) || LeavesAlone(ops[k].op, key)
  }

  function HitTimes(ops: seq<Timed>, key: string): seq<nat> {
    if ops == [] then [] else
      var last := ops[|ops| - 1];
      HitTimes(ops[..|ops| - 1], key) + (if last.op.Incr? && last.op.key == key then [last.now] else [])
  }

  /** The entry a counter has after hits at these times. */
  function CounterEntry(times: seq<nat>, windowSec: nat, now: nat): Option<Entry<string>> {
    if times == [] || WindowAfter(times, windowSec * 1000).start + windowSec * 1000 <= now then None
    else
      var w := WindowAfter(times, windowSec * 1000);
      Some(Entry(Decimal(w.count), Some(w.start + windowSec * 1000)))
  }

  lemma HitMeans(store: Store, times: seq<nat>, key: string, windowSec: nat, now: nat)
    requires Fetch(store, key, now) == CounterEntry(times, windowSec, now)
    ensures
      var (store', answer) := Meaning(store, Incr(key, windowSec), now);
      && answer == Count(Some(WindowAfter(times + [now], windowSec * 1000).count))
      && Fetch(store', key, now) == CounterEntry(times + [now], windowSec, now)
  {
    assert (times + [now])[..|times|] == times;
    if times != [] {
      var n := WindowAfter(times, windowSec * 1000).count;
      ParseDecimal(n, []);
      assert Decimal(n) + [] == Decimal(n);
    }
    assert Decimal(1) == "1";
  }

  lemma OtherOps(store: Store, op: Op, key: string, now: nat)
    requires LeavesAlone(op, key)
    ensures Fetch(Meaning(store, op, now).0, key, now) == Fetch(store, key, now)
  {
  }

  lemma EntryLater(store: Store, times: seq<nat>, key: string, windowSec: nat, now: nat, later: nat)
    requires Fetch(store, key, now) == CounterEntry(times, windowSec, now) && now <= later
    ensures Fetch(store, key, later) == CounterEntry(times, windowSec, later)
  {
    hide WindowAfter;
  }

  lemma {:induction false} CounterMeans(ops: seq<Timed>, key: string, windowSec: nat, now: nat)
    requires InOrder(ops, 0) && OnlyHits(ops, key, windowSec)
    requires forall k :: 0 <= k < |ops| ==> ops[k].now <= now
    ensures Fetch(MapRun(ops), key, now) == CounterEntry(HitTimes(ops, key), windowSec, now)
  {
    if ops != [] {
      hide Fetch, CounterEntry, Meaning;
      var most, last := ops[..|ops| - 1], ops[|ops| - 1];
      CounterMeans(most, key, windowSec, last.now);
      if last.op == Incr(key, windowSec) {
        HitMeans(MapRun(most), HitTimes(most, key), key, windowSec, last.now);
      } else {
        OtherOps(MapRun(most), last.op, key, last.now);
        assert HitTimes(ops, key) == HitTimes(most, key);
      }
      EntryLater(MapRun(ops), HitTimes(ops, key), key, windowSec, last.now, now);
    } else {
      assert MapRun(ops) == map[];
    }
  }

  lemma {:induction false} RunAgrees(ops: seq<Timed>, now: nat)
    requires InOrder(ops, 0) && forall k :: 0 <= k < |ops| ==> ops[k].now <= now
    ensures Agree(CacheRun(ops), MapRun(ops), now)
  {
    if ops == [] {
    } else {
      var most, last := ops[..|ops| - 1], ops[|ops| - 1];
      RunAgrees(most, last.now);
      hide Agree, Meaning, Stored;
      StepAgrees(CacheRun(most), MapRun(most), last.op, last.now);
      AgreeLater(CacheRun(ops), MapRun(ops), last.now, now);
    }
  }

  /** A hit is told its number in its window, however the cache was used and swept in between. */
  lemma HitNumber(ops: seq<Timed>, key: string, windowSec: nat, now: nat)
    requires InOrder(ops, 0) && OnlyHits(ops, key, windowSec)
    requires forall k :: 0 <= k < |ops| ==> ops[k].now <= now
    ensures Meaning(CacheRun(ops), Incr(key, windowSec), now).1
         == Count(Some(WindowAfter(HitTimes(ops, key) + [now], windowSec * 1000).count))
  {
    RunAgrees(ops, now);
    CounterMeans(ops, key, windowSec, now);
    HitMeans(MapRun(ops), HitTimes(ops, key), key, windowSec, now);
    hide MapRun, CacheRun, WindowAfter, HitTimes;
    StepAgrees(CacheRun(ops), MapRun(ops), Incr(key, windowSec), now);
  }

  // ---------------------------------------------------------------------
  // How many requests get through
  // ---------------------------------------------------------------------

  predicate Nondecreasing(times: seq<nat>) {
    forall j, k :: 0 <= j < k < |times| ==> times[j] <= times[k]
  }

  /** The last hit is admitted. */
  predicate LastAdmitted(times: seq<nat>, span: nat, limit: nat)
    requires times != []
  {
    WindowAfter(times, span).count <= limit
  }

  /** How many hits of the window opened at `start` were admitted. */
  function AdmittedOf(times: seq<nat>, span: nat, limit: nat, start: nat): nat {
    if times == [] then 0 else
      AdmittedOf(times[..|times| - 1], span, limit, start)
      + (if WindowAfter(times, span).start == start && LastAdmitted(times, span, limit) then 1 else 0)
  }

  /** How many hits in the half-open interval of length `span` from `from` were admitted. */
  function AdmittedIn(times: seq<nat>, span: nat, limit: nat, from: nat): nat {
    if times == [] then 0 else
      AdmittedIn(times[..|times| - 1], span, limit, from)
      + (if from <= times[|times| - 1] < from + span && LastAdmitted(times, span, limit) then 1 else 0)
  }

  function Least(a: nat, b: nat): nat {
    if a < b then a else b
  }

  lemma {:induction false} StartsInPast(times: seq<nat>, span: nat)
    requires times != [] && Nondecreasing(times)
    ensures WindowAfter(times, span).start <= times[|times| - 1]
  {
    if |times| <= 1 {
    } else {
      StartsInPast(times[..|times| - 1], span);
    }
  }

  lemma {:induction false} WindowSpends(times: seq<nat>, span: nat, limit: nat, start: nat)
    requires span > 0 && Nondecreasing(times)
    ensures AdmittedOf(times, span, limit, start) <= limit
    ensures times != [] && start > WindowAfter(times, span).start ==> AdmittedOf(times, span, limit, start) == 0
    ensures times != [] && start == WindowAfter(times, span).start ==>
      AdmittedOf(times, span, limit, start) == Least(WindowAfter(times, span).count, limit)
  {
    if times == [] {
    } else {
      var most := times[..|times| - 1];
      WindowSpends(most, span, limit, start);
    }
  }

  /** At most `limit` requests are admitted in one counter window. */
  lemma AtMostLimitPerWindow(times: seq<nat>, span: nat, limit: nat, start: nat)
    requires span > 0 && Nondecreasing(times)
    ensures AdmittedOf(times, span, limit, start) <= limit
  {
    WindowSpends(times, span, limit, start);
  }

  lemma {:induction false} IntervalSpends(times: seq<nat>, span: nat, limit: nat, from: nat)
    requires span > 0 && limit > 0 && Nondecreasing(times)
    ensures
      var n := AdmittedIn(times, span, limit, from);
      && n <= 2 * limit - 1
      && (times == [] || times[|times| - 1] < from ==> n == 0)
      && (times != [] ==>
            var w := WindowAfter(times, span);
            && (w.start < from ==> n <= Least(w.count, limit) - 1)
            && (from <= w.start < from + span ==> n <= limit - 1 + Least(w.count, limit)))
  {
    if times == [] {
    } else {
      var most := times[..|times| - 1];
      IntervalSpends(most, span, limit, from);
      StartsInPast(times, span);
      if most != [] {
        StartsInPast(most, span);
        assert most[|most| - 1] <= times[|times| - 1];
      }
    }
  }

  /** At most 2 * limit - 1 requests are admitted in any interval of one window's length. */
  lemma AtMostTwiceLessOne(times: seq<nat>, span: nat, limit: nat, from: nat)
    requires span > 0 && Nondecreasing(times)
    ensures AdmittedIn(times, span, limit, from) <= if limit == 0 then 0 else 2 * limit - 1
  {
    if limit > 0 {
      IntervalSpends(times, span, limit, from);
    } else {
      NobodyAdmitted(times, span, from);
    }
  }

  lemma {:induction false} NobodyAdmitted(times: seq<nat>, span: nat, from: nat)
    ensures AdmittedIn(times, span, 0, from) == 0
  {
    if times == [] {
    } else {
      NobodyAdmitted(times[..|times| - 1], span, from);
    }
  }

  /** How many requests under the key the cache let through in the half-open interval of one window's length from
      `from`, over a history of all the operations on it. */
  function PassedIn(ops: seq<Timed>, key: string, windowSec: nat, limit: nat, from: nat): nat {
    if ops == [] then 0 else
      var most, last := ops[..|ops| - 1], ops[|ops| - 1];
      PassedIn(most, key, windowSec, limit, from)
      + (if last.op == Incr(key, windowSec) && from <= last.now < from + windowSec * 1000
            && LetsThrough(Meaning(CacheRun(most), last.op, last.now).1, limit) then 1 else 0)
  }

  lemma PrefixOk(ops: seq<Timed>, key: string, windowSec: nat)
    requires ops != [] && InOrder(ops, 0) && OnlyHits(ops, key, windowSec)
    ensures InOrder(ops[..|ops| - 1], 0) && OnlyHits(ops[..|ops| - 1], key, windowSec)
    ensures var most := ops[..|ops| - 1]; forall k :: 0 <= k < |most| ==> most[k].now <= ops[|ops| - 1].now
  {
  }

  lemma {:induction false} HitsInOrder(ops: seq<Timed>, key: string, windowSec: nat)
    requires InOrder(ops, 0) && OnlyHits(ops, key, windowSec)
    ensures Nondecreasing(HitTimes(ops, key))
    ensures forall k :: 0 <= k < |HitTimes(ops, key)| ==> HitTimes(ops, key)[k] <= ops[|ops| - 1].now
  {
    if ops == [] {
    } else {
      PrefixOk(ops, key, windowSec);
      HitsInOrder(ops[..|ops| - 1], key, windowSec);
    }
  }

  lemma LastPasses(most: seq<Timed>, key: string, windowSec: nat, limit: nat, now: nat)
    requires InOrder(most, 0) && OnlyHits(most, key, windowSec) && forall k :: 0 <= k < |most| ==> most[k].now <= now
    ensures LetsThrough(Meaning(CacheRun(most), Incr(key, windowSec), now).1, limit)
       <==> LastAdmitted(HitTimes(most, key) + [now], windowSec * 1000, limit)
  {
    hide CacheRun, Meaning, WindowAfter, InOrder, OnlyHits, HitTimes;
    HitNumber(most, key, windowSec, now);
  }

  lemma AdmittedSnoc(times: seq<nat>, t: nat, span: nat, limit: nat, from: nat)
    ensures AdmittedIn(times + [t], span, limit, from)
         == AdmittedIn(times, span, limit, from)
             + (if from <= t < from + span && LastAdmitted(times + [t], span, limit) then 1 else 0)
  {
    hide LastAdmitted;
    assert (times + [t])[..|times|] == times;
  }

  lemma PassedSnoc(ops: seq<Timed>, key: string, windowSec: nat, limit: nat, from: nat)
    requires ops != []
    ensures
      var most, last := ops[..|ops| - 1], ops[|ops| - 1];
      && PassedIn(ops, key, windowSec, limit, from)
         == PassedIn(most, key, windowSec, limit, from)
            + (if last.op == Incr(key, windowSec) && from <= last.now < from + windowSec * 1000
                  && LetsThrough(Meaning(CacheRun(most), Incr(key, windowSec), last.now).1, limit) then 1 else 0)
  {
    hide CacheRun, Meaning, LetsThrough;
  }

  lemma HitSnoc(ops: seq<Timed>, key: string, windowSec: nat)
    requires ops != [] && OnlyHits(ops, key, windowSec)
    ensures
      var most, last := ops[..|ops| - 1], ops[|ops| - 1];
      HitTimes(ops, key) == if last.op == Incr(key, windowSec) then HitTimes(most, key) + [last.now]
          else HitTimes(most, key)
  {
    var most, last := ops[..|ops| - 1], ops[|ops| - 1];
    assert HitTimes(most, key) + [] == HitTimes(most, key);
  }

  lemma {:induction false} PassedIsAdmitted(ops: seq<Timed>, key: string, windowSec: nat, limit: nat, from: nat)
    requires InOrder(ops, 0) && OnlyHits(ops, key, windowSec)
    ensures PassedIn(ops, key, windowSec, limit, from) == AdmittedIn(HitTimes(ops, key), windowSec * 1000, limit, from)
  {
    if ops == [] {
    } else {
      hide *;
      var most, last := ops[..|ops| - 1], ops[|ops| - 1];
      PrefixOk(ops, key, windowSec);
      PassedIsAdmitted(most, key, windowSec, limit, from);
      PassedSnoc(ops, key, windowSec, limit, from);
      HitSnoc(ops, key, windowSec);
      if last.op == Incr(key, windowSec) {
        LastPasses(most, key, windowSec, limit, last.now);
        AdmittedSnoc(HitTimes(most, key), last.now, windowSec * 1000, limit, from);
      }
    }
  }

  /** However the cache is used and swept otherwise, a limiter lets through at most 2 * limit - 1 requests in any
      half-open interval of one window's length. */
  lemma LimiterBound(ops: seq<Timed>, key: string, windowSec: nat, limit: nat, from: nat)
    requires InOrder(ops, 0) && OnlyHits(ops, key, windowSec) && windowSec > 0
    ensures PassedIn(ops, key, windowSec, limit, from) <= if limit == 0 then 0 else 2 * limit - 1
  {
    PassedIsAdmitted(ops, key, windowSec, limit, from);
    HitsInOrder(ops, key, windowSec);
    hide *;
    AtMostTwiceLessOne(HitTimes(ops, key), windowSec * 1000, limit, from);
  }

  /** One hit to open a window, the rest of it at its very end, then a whole window more. */
  function Burst(span: nat, a: nat, b: nat): (times: seq<nat>)
    requires span > 0
    ensures |times| == 1 + a + b
  {
    seq(1 + a + b, k requires 0 <= k < 1 + a + b => if k == 0 then 0 else if k <= a then span - 1 else span)
  }

  lemma BurstOrdered(span: nat, a: nat, b: nat)
    requires span > 0
    ensures Nondecreasing(Burst(span, a, b))
  {
  }

  /** A burst ends with its last hit after the burst before it. */
  lemma BurstEnds(span: nat, a: nat, b: nat)
    requires span > 0
    ensures
      var times := Burst(span, a, b);
      && (b > 0 ==> times[..|times| - 1] == Burst(span, a, b - 1) && times[|times| - 1] == span)
      && (b == 0 && a > 0 ==> times[..|times| - 1] == Burst(span, a - 1, 0) && times[|times| - 1] == span - 1)
      && (b == 0 && a == 0 ==> times == [0])
  {
  }

  lemma {:induction false} BurstAdmitted(span: nat, limit: nat, a: nat, b: nat)
    requires span > 1 && a <= limit - 1 && b <= limit && (b > 0 ==> a == limit - 1)
    ensures WindowAfter(Burst(span, a, b), span) == if b == 0 then Window(0, a + 1) else Window(span, b)
    ensures AdmittedIn(Burst(span, a, b), span, limit, 1) == a + b
    decreases a + b
  {
    hide Burst;
    BurstEnds(span, a, b);
    if b > 0 {
      BurstAdmitted(span, limit, a, b - 1);
    } else if a > 0 {
      BurstAdmitted(span, limit, a - 1, 0);
    } else {
      assert Burst(span, a, b) == [0];
    }
  }

  /** The bound is met: no smaller one holds for every history. */
  lemma BoundIsTight(span: nat, limit: nat)
    requires span > 1 && limit > 0
    ensures Nondecreasing(Burst(span, limit - 1, limit))
    ensures AdmittedIn(Burst(span, limit - 1, limit), span, limit, 1) == 2 * limit - 1
  {
    BurstOrdered(span, limit - 1, limit);
    BurstAdmitted(span, limit, limit - 1, limit);
  }
}
