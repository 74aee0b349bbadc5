/**
  The in-process cache. It drops dead entries whenever it meets them and on
  every sweep; no caller can tell.
 */
module MemoryCache {
  import opened Options
  import opened JsText
  import opened TimedMap

  type Store = map<string, Entry<string>>

  datatype Op =
    | Get(key: string)
    | Set(key: string, value: string, ttlSec: Option<nat>)
    | Del(key: string)
    | Incr(key: string, windowSec: nat)
    | GetDel(key: string)
    | Sweep

  /** What a caller sees; a count is missing when the stored text is no number (NaN). */
  datatype Answer = Nothing | Text(text: Option<string>) | Count(count: Option<int>)

  function ValueOf(e: Option<Entry<string>>): Option<string> {
    if e.Some? then Some(e.value.value) else None
  }

  /** ttlSec ? Date.now() + ttlSec * 1000 : null */
  function SetExpiry(ttlSec: Option<nat>, now: nat): Option<nat> {
    if ttlSec.Some? && ttlSec.value > 0 then Some(now + ttlSec.value * 1000) else None
  }

  /** parseInt(value, 10) + 1 */
  function Bumped(value: string): Option<int> {
    var n := ParseInt(value);
    if n.Some? then Some(n.value + 1) else None
  }

  /** String(next) */
  function CountText(next: Option<int>): string {
    if next.Some? then IntText(next.value) else "NaN"
  }

  function Remove(store: Store, key: string): Store {
    store - {key}
  }

  function Swept(store: Store, now: nat): Store {
    map key | key in store && !Expired(store[key], now) :: store[key]
  }

  /** What an operation does to a timed map and answers. */
  function Meaning(store: Store, op: Op, now: nat): (Store, Answer) {
    match op
    case Get(key) => (store, Text(ValueOf(Fetch(store, key, now))))
    case Set(key, value, ttlSec) => (store[key := Entry(value, SetExpiry(ttlSec, now))], Nothing)
    case Del(key) => (Remove(store, key), Nothing)
    case Incr(key, ttlSec) =>
      var found := Fetch(store, key, now);
      if found.None? then (Put(store, key, "1", ttlSec, now), Count(Some(1)))
      else
        var next := Bumped(found.value.value);
        (store[key := found.value.(value := CountText(next))], Count(next))
    case GetDel(key) => (Remove(store, key), Text(ValueOf(Fetch(store, key, now))))
    case Sweep => (store, Nothing)
  }

  /** What the cache stores after the operation: the same, less some of the dead entries. */
  function Stored(store: Store, op: Op, now: nat): Store {
    match op
    case Get(key) => if key in store && Expired(store[key], now) then Remove(store, key) else store
    case Sweep => Swept(store, now)
    case _ => Meaning(store, op, now).0
  }

  class Cache {
    var store: Store

    constructor ()
      ensures store == map[]
    {
      store := map[];
    }

    method GetValue(key: string, now: nat) returns (value: Option<string>)
      modifies this
      ensures store == Stored(old(store), Get(key), now)
      ensures store == if key in old(store) && Expired(old(store)[key], now) then old(store) - {key} else old(store)
      ensures Text(value) == Meaning(old(store), Get(key), now).1
    {
      if key !in store || Expired(store[key], now) {
        if key in store {
          store := store - {key};
        }
        return None;
      }
      return Some(store[key].value);
    }

    method SetValue(key: string, value: string, ttlSec: Option<nat>, now: nat)
      modifies this
      ensures store == Stored(old(store), Set(key, value, ttlSec), now)
    {
      store := store[
        key := Entry(value, if ttlSec.Some? && ttlSec.value > 0 then Some(now + ttlSec.value * 1000) else None)];
    }

    method Delete(key: string)
      modifies this
      ensures forall now: nat :: store == Stored(old(store), Del(key), now)
    {
      store := store - {key};
    }

    method Increment(key: string, ttlSec: nat, now: nat) returns (count: Option<int>)
      modifies this
      ensures store == Stored(old(store), Incr(key, ttlSec), now)
      ensures Count(count) == Meaning(old(store), Incr(key, ttlSec), now).1
    {
      if key !in store || Expired(store[key], now) {
        store := store[key := Entry("1", Some(now + ttlSec * 1000))];
        return Some(1);
      }
      var entry := store[key];
      count := Bumped(entry.value);
      store := store[key := entry.(value := CountText(count))];
    }

    method GetAndDelete(key: string, now: nat) returns (value: Option<string>)
      modifies this
      ensures store == Stored(old(store), GetDel(key), now)
      ensures Text(value) == Meaning(old(store), GetDel(key), now).1
    {
      value := GetValue(key, now);
      store := store - {key};
    }

    /** Drops every dead entry and nothing else. */
    method SweepAll(now: nat)
      modifies this
      ensures store == Stored(old(store), Sweep, now)
      ensures forall key :: key in store <==> key in old(store) && !Expired(old(store)[key], now)
      ensures forall key :: key in store ==> store[key] == old(store)[key]
    {
      var left := store.Keys;
      ghost var was := store;
      while left != {}
        invariant left <= was.Keys
        invariant store == map key | key in was && (key in left || !Expired(was[key], now)) :: was[key]
        decreases left
      {
        var key :| key in left;
        left := left - {key};
        if Expired(store[key], now) {
          store := store - {key};
        }
      }
    }
  }

  // ---------------------------------------------------------------------
  // The cache against the timed map it stands for
  // ---------------------------------------------------------------------

  datatype Timed = Timed(op: Op, now: nat)

  predicate InOrder(ops: seq<Timed>, start: nat) {
    && (forall k :: 0 <= k < |ops| ==> start <= ops[k].now)
    && (forall j, k :: 0 <= j < k < |ops| ==> ops[j].now <= ops[k].now)
  }

  /** The answers of the cache; a sweep answers nobody. */
  function CacheAnswers(store: Store, ops: seq<Timed>): seq<Answer>
    decreases |ops|
  {
    if ops == [] then [] else
      (if ops[0].op.Sweep? then [] else [Meaning(store, ops[0].op, ops[0].now).1])
      + CacheAnswers(Stored(store, ops[0].op, ops[0].now), ops[1..])
  }

  /** The answers of a timed map that never drops an entry. */
  function MapAnswers(store: Store, ops: seq<Timed>): seq<Answer>
    decreases |ops|
  {
    if ops == [] then [] else
      [Meaning(store, ops[0].op, ops[0].now).1] + MapAnswers(Meaning(store, ops[0].op, ops[0].now).0, ops[1..])
  }

  function WithoutSweeps(ops: seq<Timed>): (rest: seq<Timed>)
    ensures forall t :: t in rest ==> t in ops && !t.op.Sweep?
  {
    if ops == [] then [] else (if ops[0].op.Sweep? then [] else [ops[0]]) + WithoutSweeps(ops[1..])
  }

  /** One operation: the same answer, and the same entries alive after it. */
  lemma StepAgrees(cache: Store, meant: Store, op: Op, now: nat)
    requires Agree(cache, meant, now)
    ensures Meaning(cache, op, now).1 == Meaning(meant, op, now).1
    ensures Agree(Stored(cache, op, now), Meaning(meant, op, now).0, now)
  {
    if !op.Sweep? { assert Fetch(cache, op.key, now) == Fetch(meant, op.key, now); }
    var cache', meant' := Stored(cache, op, now), Meaning(meant, op, now).0;
    forall key ensures Fetch(cache', key, now) == Fetch(meant', key, now) {
      assert Fetch(cache, key, now) == Fetch(meant, key, now);
    }
  }

  /** Whenever it sweeps and deletes, the cache gives the answers of the timed map, which does neither. */
  lemma {:induction false} CacheRefinesMap(cache: Store, meant: Store, ops: seq<Timed>, start: nat)
    requires Agree(cache, meant, start) && InOrder(ops, start)
    ensures CacheAnswers(cache, ops) == MapAnswers(meant, WithoutSweeps(ops))
    decreases |ops|
  {
    if ops == [] {
    } else {
      var op, now := ops[0].op, ops[0].now;
      hide Meaning, Stored, Agree;
      AgreeLater(cache, meant, start, now);
      StepAgrees(cache, meant, op, now);
      assert InOrder(ops[1..], now);
      CacheRefinesMap(Stored(cache, op, now), Meaning(meant, op, now).0, ops[1..], now);
      if op.Sweep? {
        SweepMeansNothing(meant, now);
        assert WithoutSweeps(ops) == WithoutSweeps(ops[1..]);
        assert [] + CacheAnswers(Stored(cache, op, now), ops[1..]) == CacheAnswers(Stored(cache, op, now), ops[1..]);
      } else {
        assert WithoutSweeps(ops)[1..] == WithoutSweeps(ops[1..]);
      }
    }
  }

  lemma SweepMeansNothing(store: Store, now: nat)
    ensures Meaning(store, Sweep, now).0 == store
  {
  }

  /** Two histories that differ only in when the cache was swept get the same answers. */
  lemma SweepsInvisible(ops: seq<Timed>, ops': seq<Timed>)
    requires InOrder(ops, 0) && InOrder(ops', 0) && WithoutSweeps(ops) == WithoutSweeps(ops')
    ensures CacheAnswers(map[], ops) == CacheAnswers(map[], ops')
  {
    CacheRefinesMap(map[], map[], ops, 0);
    CacheRefinesMap(map[], map[], ops', 0);
  }

  // ---------------------------------------------------------------------
  // Reading back
  // ---------------------------------------------------------------------

  /** The operation writes nothing under the key. */
  predicate LeavesAlone(op: Op, key: string) {
    op.Get? || op.Sweep? || op.key != key
  }

  /** What the cache stores after the operations. */
  function CacheAfter(store: Store, ops: seq<Timed>): Store {
    if ops == [] then store else Stored(CacheAfter(store, ops[..|ops| - 1]), ops[|ops| - 1].op, ops[|ops| - 1].now)
  }

  lemma StepSpares(store: Store, op: Op, key: string, now: nat, later: nat)
    requires LeavesAlone(op, key) && now <= later
    ensures Fetch(Stored(store, op, now), key, later) == Fetch(store, key, later)
  {
  }

  lemma {:induction false} OthersSpare(store: Store, ops: seq<Timed>, key: string, start: nat, now: nat)
    requires InOrder(ops, start) && forall k :: 0 <= k < |ops| ==> LeavesAlone(ops[k].op, key) && ops[k].now <= now
    ensures Fetch(CacheAfter(store, ops), key, now) == Fetch(store, key, now)
  {
    if ops == [] {
    } else {
      var most, last := ops[..|ops| - 1], ops[|ops| - 1];
      OthersSpare(store, most, key, start, now);
      StepSpares(CacheAfter(store, most), last.op, key, last.now, now);
    }
  }

  /** After a set, and whatever the cache is then used and swept for under other keys, the value is read back exactly
      until its TTL is over, for ever without one. */
  lemma {:induction false} ReadsLastSet(store: Store, key: string, value: string, ttlSec: Option<nat>, setAt: nat,
                                        ops: seq<Timed>, now: nat)
    requires InOrder(ops, setAt) && setAt <= now
    requires forall k :: 0 <= k < |ops| ==> LeavesAlone(ops[k].op, key) && ops[k].now <= now
    ensures
      var cache := CacheAfter(Stored(store, Set(key, value, ttlSec), setAt), ops);
      Meaning(cache, Get(key), now).1 == Meaning(cache, GetDel(key), now).1
      == Text(if ttlSec.None? || ttlSec.value == 0 || now < setAt + ttlSec.value * 1000 then Some(value) else None)
  {
    OthersSpare(Stored(store, Set(key, value, ttlSec), setAt), ops, key, setAt, now);
    hide CacheAfter;
  }

  /** An increment counts on from any integer the key holds alive, and keeps its expiry. */
  lemma IncrCountsOn(store: Store, key: string, n: int, expiresAt: Option<nat>, windowSec: nat, now: nat)
    requires Fetch(store, key, now) == Some(Entry(IntText(n), expiresAt))
    ensures
      var (after, answer) := Meaning(store, Incr(key, windowSec), now);
      answer == Count(Some(n + 1)) && after == store[key := Entry(IntText(n + 1), expiresAt)]
  {
    IntRoundTrip(n);
    hide IntText, ParseInt;
  }

  /** After a delete or a taking read, nothing is read until the key is written again. */
  lemma {:induction false} ReadsNothingOnceTaken(store: Store, op: Op, key: string, takenAt: nat, ops: seq<Timed>,
                                                 now: nat)
    requires (op == Del(key) || op == GetDel(key)) && InOrder(ops, takenAt) && takenAt <= now
    requires forall k :: 0 <= k < |ops| ==> LeavesAlone(ops[k].op, key) && ops[k].now <= now
    ensures Meaning(CacheAfter(Stored(store, op, takenAt), ops), Get(key), now).1 == Text(None)
    ensures Meaning(CacheAfter(Stored(store, op, takenAt), ops), GetDel(key), now).1 == Text(None)
  {
    OthersSpare(Stored(store, op, takenAt), ops, key, takenAt, now);
    hide CacheAfter;
  }
}
