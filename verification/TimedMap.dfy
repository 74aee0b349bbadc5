/**
  A map whose entries die at a given time: what the cache means, whatever it
  still stores. Dead entries are never removed here.
 */
module TimedMap {
  import opened Options

  datatype Entry<V> = Entry(value: V, expiresAt: Option<nat>)

  predicate Expired<V>(e: Entry<V>, now: nat) {
    e.expiresAt.Some? && e.expiresAt.value <= now
  }

  /** The entry under the key, unless it has died. */
  function Fetch<K, V>(store: map<K, Entry<V>>, key: K, now: nat): Option<Entry<V>> {
    if key in store && !Expired(store[key], now) then Some(store[key]) else None
  }

  function Put<K, V>(store: map<K, Entry<V>>, key: K, value: V, ttlSec: nat, now: nat): map<K, Entry<V>> {
    store[key := Entry(value, Some(now + ttlSec * 1000))]
  }

  /** The same entries are alive. */
  ghost predicate Agree<K(!new), V>(a: map<K, Entry<V>>, b: map<K, Entry<V>>, now: nat) {
    forall key :: Fetch(a, key, now) == Fetch(b, key, now)
  }

  /** The dead do not come back. */
  lemma AgreeLater<K(!new), V>(a: map<K, Entry<V>>, b: map<K, Entry<V>>, now: nat, later: nat)
    requires Agree(a, b, now) && now <= later
    ensures Agree(a, b, later)
  {
    forall key ensures Fetch(a, key, later) == Fetch(b, key, later) {
      assert Fetch(a, key, now) == Fetch(b, key, now);
    }
  }
}
