/**
  The signing_keys table and the statements the key service runs on it.
  Times are milliseconds. A key's id stands for its kid; ids are never reused.
 */
module SigningKeys {
  import opened Options

  datatype Status = Next | Active | Retired

  datatype KeyRow = KeyRow(status: Status, createdAt: nat, activatedAt: Option<nat>, expiresAt: Option<nat>)

  type Kid = nat
  type Table = map<Kid, KeyRow>

  const CACHE_TTL_MS: nat := 60_000
  const ROTATION_GRACE_MS: nat := 24 * 60 * 60 * 1000
  const ROTATION_PERIOD_MS: nat := 90 * 24 * 60 * 60 * 1000

  // ---------------------------------------------------------------------
  // Single statements
  // ---------------------------------------------------------------------

  /** INSERT of a fresh key row. */
  function InsertKey(table: Table, kid: Kid, status: Status, now: nat): Table {
    table[kid := KeyRow(status, now, if status == Active then Some(now) else None, None)]
  }

  /** UPDATE ... SET status = 'active', activated_at = at WHERE id = kid */
  function Promote(table: Table, kid: Kid, at: nat): Table {
    if kid in table then table[kid := table[kid].(status := Active, activatedAt := Some(at))] else table
  }

  /** UPDATE ... SET status = 'retired', expires_at = at + grace WHERE id = kid */
  function Retire(table: Table, kid: Kid, at: nat, graceMs: nat): Table {
    if kid in table then table[kid := table[kid].(status := Retired, expiresAt := Some(at + graceMs))] else table
  }

  /** DELETE ... WHERE status = 'retired' AND expires_at < cutoff */
  function DeleteExpired(table: Table, cutoff: nat): Table {
    map kid | kid in table && !ExpiredBefore(table[kid], cutoff) :: table[kid]
  }

  predicate ExpiredBefore(row: KeyRow, cutoff: nat) {
    row.status == Retired && row.expiresAt.Some? && row.expiresAt.value < cutoff
  }

  predicate HasStatus(table: Table, kid: Kid, status: Status) {
    kid in table && table[kid].status == status
  }

  /** A row the query for the active signer may return: ORDER BY created_at LIMIT 1. */
  predicate OldestActive(table: Table, kid: Kid) {
    && HasStatus(table, kid, Active)
    && forall k :: k in table && table[k].status == Active ==> table[kid].createdAt <= table[k].createdAt
  }

  /** What the verification lookup requires of the row it read. */
  predicate Verifiable(table: Table, kid: Kid, now: nat) {
    kid in table && !ExpiredBefore(table[kid], now)
  }

  /** Published in /.well-known/jwks.json. */
  predicate Published(table: Table, kid: Kid, now: nat) {
    kid in table && (table[kid].status == Retired && table[kid].expiresAt.Some? ==> table[kid].expiresAt.value > now)
  }

  /** The two views agree except in the one millisecond in which a retired key expires. */
  lemma PublishedIffVerifiable(table: Table, kid: Kid, now: nat)
    ensures Published(table, kid, now) ==> Verifiable(table, kid, now)
    ensures Verifiable(table, kid, now) && !Published(table, kid, now)
       <==> HasStatus(table, kid, Retired) && table[kid].expiresAt == Some(now)
  {
  }

  function Kids(table: Table, status: Status): set<Kid> {
    set kid | kid in table && table[kid].status == status
  }

  /** A row of the given status if there is none. */
  function Ensured(table: Table, nextKid: Kid, status: Status, now: nat): (Table, Kid) {
    if Kids(table, status) == {} then (InsertKey(table, nextKid, status, now), nextKid + 1) else (table, nextKid)
  }

  /** The boot transaction: an active row if there is none, then a next row if there is none. */
  function Initialized(table: Table, nextKid: Kid, now: nat): (Table, Kid) {
    var (t, k) := Ensured(table, nextKid, Active, now);
    Ensured(t, k, Next, now)
  }

  lemma EnsuredKids(table: Table, nextKid: Kid, status: Status, now: nat)
    requires forall kid :: kid in table ==> kid < nextKid
    ensures
      var (t, k) := Ensured(table, nextKid, status, now);
      && nextKid <= k && (forall kid :: kid in t ==> kid < k)
      && (forall kid :: kid in table ==> kid in t && t[kid] == table[kid])
      && |Kids(t, status)| == (if |Kids(table, status)| == 0 then 1 else |Kids(table, status)|)
      && (forall other :: other != status ==> Kids(t, other) == Kids(table, other))
  {
    InsertKids(table, nextKid, status, now);
    hide Kids;
  }

  /** Booting changes no existing row, leaves at least one active and one next key, adds at most
      one of each, and booting again adds nothing. */
  lemma InitializedOnce(table: Table, nextKid: Kid, now: nat, later: nat)
    requires forall kid :: kid in table ==> kid < nextKid
    ensures
      var (t, k) := Initialized(table, nextKid, now);
      && (forall kid :: kid in table ==> kid in t && t[kid] == table[kid])
      && |Kids(t, Active)| == (if |Kids(table, Active)| == 0 then 1 else |Kids(table, Active)|)
      && |Kids(t, Next)| == (if |Kids(table, Next)| == 0 then 1 else |Kids(table, Next)|)
      && Initialized(t, k, later) == (t, k)
  {
    hide Kids, Ensured;
    var (t1, k1) := Ensured(table, nextKid, Active, now);
    var (t2, k2) := Ensured(t1, k1, Next, now);
    EnsuredKids(table, nextKid, Active, now);
    EnsuredKids(t1, k1, Next, now);
    EnsuredAlready(t2, k2, Active, later);
    EnsuredAlready(t2, k2, Next, later);
  }

  lemma EnsuredAlready(table: Table, nextKid: Kid, status: Status, now: nat)
    requires |Kids(table, status)| > 0
    ensures Ensured(table, nextKid, status, now) == (table, nextKid)
  {
  }

  // ---------------------------------------------------------------------
  // The service: one instance per replica over the shared table
  // ---------------------------------------------------------------------

  class SigningKeyTable {
    var rows: Table
    var nextKid: Kid

    ghost predicate Valid()
      reads this
    {
      forall kid :: kid in rows ==> kid < nextKid
    }

    constructor ()
      ensures Valid() && rows == map[]
    {
      rows, nextKid := map[], 0;
    }

    method InsertKeyRow(status: Status, now: nat) returns (kid: Kid)
      requires Valid()
      modifies this
      ensures Valid() && kid == old(nextKid) && nextKid == kid + 1
      ensures kid !in old(rows) && rows == InsertKey(old(rows), kid, status, now)
    {
      kid := nextKid;
      rows := InsertKey(rows, kid, status, now);
      nextKid := nextKid + 1;
    }

    /** SELECT ... WHERE status = ... LIMIT 1, with no order: any matching row. */
    method SelectOne(status: Status) returns (found: Option<Kid>)
      ensures found.Some? ==> HasStatus(rows, found.value, status)
      ensures found.None? ==> Kids(rows, status) == {}
    {
      if kid :| kid in rows && rows[kid].status == status {
        found := Some(kid);
      } else {
        found := None;
      }
    }

    method SelectOldestActive() returns (found: Option<Kid>)
      ensures found.Some? ==> OldestActive(rows, found.value)
      ensures found.None? ==> Kids(rows, Active) == {}
    {
      var candidates := Kids(rows, Active);
      if candidates == {} {
        return None;
      }
      var best :| best in candidates;
      var rest := candidates - {best};
      while rest != {}
        invariant best in candidates && rest <= candidates
        invariant forall k :: k in candidates && k !in rest ==> rows[best].createdAt <= rows[k].createdAt
        decreases rest
      {
        var k :| k in rest;
        if rows[k].createdAt < rows[best].createdAt {
          best := k;
        }
        rest := rest - {k};
      }
      return Some(best);
    }
  }

  class KeyService {
    const table: SigningKeyTable
    var activeSignerCache: Option<(Kid, nat)>
    var verificationKeyCache: map<Kid, nat>

    constructor (table: SigningKeyTable)
      ensures this.table == table && activeSignerCache == None && verificationKeyCache == map[]
    {
      this.table := table;
      activeSignerCache, verificationKeyCache := None, map[];
    }

    method ClearKeyCache()
      modifies this
      ensures activeSignerCache == None && verificationKeyCache == map[]
    {
      activeSignerCache, verificationKeyCache := None, map[];
    }

    /** Boot, under its own advisory lock. */
    method EnsureKeysInitialized(now: nat)
      requires table.Valid()
      modifies this, table
      ensures table.Valid()
      ensures (table.rows, table.nextKid) == Initialized(old(table.rows), old(table.nextKid), now)
      ensures activeSignerCache == None && verificationKeyCache == map[]
    {
      var active := table.SelectOne(Active);
      if active.None? {
        var _ := table.InsertKeyRow(Active, now);
      } else {
        assert active.value in Kids(table.rows, Active);
      }
      var next := table.SelectOne(Next);
      if next.None? {
        var _ := table.InsertKeyRow(Next, now);
      } else {
        assert next.value in Kids(table.rows, Next);
      }
      ClearKeyCache();
    }

    /** The cached signer for 60 s, else the oldest active key, read at readAt and cached at cachedAt. */
    method GetActiveSigner(checkedAt: nat, cachedAt: nat) returns (signer: Option<Kid>)
      modifies this
      ensures verificationKeyCache == old(verificationKeyCache)
      ensures
        var cached := old(activeSignerCache);
        if cached.Some? && checkedAt - cached.value.1 < CACHE_TTL_MS
        then signer == Some(cached.value.0) && activeSignerCache == cached
        else if signer.Some?
        then OldestActive(table.rows, signer.value) && activeSignerCache == Some((signer.value, cachedAt))
        else Kids(table.rows, Active) == {} && activeSignerCache == cached
    {
      if activeSignerCache.Some? && checkedAt - activeSignerCache.value.1 < CACHE_TTL_MS {
        return Some(activeSignerCache.value.0);
      }
      var row := table.SelectOldestActive();
      if row.Some? {
        activeSignerCache := Some((row.value, cachedAt));
      }
      return row;
    }

    /** True when the key is usable: cached for less than 60 s, or present and not expired. */
    method GetVerificationKey(kid: Kid, now: nat) returns (available: bool)
      modifies this
      ensures activeSignerCache == old(activeSignerCache)
      ensures
        var cache := old(verificationKeyCache);
        if kid in cache && now - cache[kid] < CACHE_TTL_MS
        then available && verificationKeyCache == cache
        else (available == Verifiable(table.rows, kid, now)
              && verificationKeyCache == if available then cache[kid := now] else cache)
    {
      if kid in verificationKeyCache && now - verificationKeyCache[kid] < CACHE_TTL_MS {
        return true;
      }
      if kid !in table.rows {
        return false;
      }
      var row := table.rows[kid];
      if row.status == Retired && row.expiresAt.Some? && row.expiresAt.value < now {
        return false;
      }
      verificationKeyCache := verificationKeyCache[kid := now];
      return true;
    }

    /** Promotes next, retires the old active with a grace window, mints a new next.
        None when there is no next key (the source throws). */
    method RotateKeys(graceMs: nat, now: nat, insertedAt: nat) returns (r: Option<(Kid, Option<Kid>)>)
      requires table.Valid()
      modifies this, table
      ensures table.Valid()
      ensures r.None? <==> old(Kids(table.rows, Next)) == {}
      ensures r.None? ==>
        && table.rows == old(table.rows) && table.nextKid == old(table.nextKid)
        && activeSignerCache == old(activeSignerCache) && verificationKeyCache == old(verificationKeyCache)
      ensures r.Some? ==>
        var (newKid, retired) := r.value;
        && HasStatus(old(table.rows), newKid, Next)
        && (retired.Some? ==> HasStatus(old(table.rows), retired.value, Active))
        && (retired.None? ==> old(Kids(table.rows, Active)) == {})
        && RotatedRows(old(table.rows), table.rows, newKid, retired, old(table.nextKid), now, now + graceMs, insertedAt)
        && table.nextKid == old(table.nextKid) + 1
        && activeSignerCache == None && verificationKeyCache == map[]
    {
      var oldActive := table.SelectOne(Active);
      var next := table.SelectOne(Next);
      if next.None? {
        return None;
      }
      assert next.value in Kids(table.rows, Next);
      table.rows := Promote(table.rows, next.value, now);
      if oldActive.Some? {
        table.rows := Retire(table.rows, oldActive.value, now, graceMs);
      }
      var _ := table.InsertKeyRow(Next, insertedAt);
      ClearKeyCache();
      return Some((next.value, oldActive));
    }

    /** Rotates exactly when the active key it happens to read was activated at least 90 days ago.
        None when the rotation throws for want of a next key. */
    method RotateSigningKeyIfDue(now: nat, rotatedAt: nat, insertedAt: nat) returns (rotated: Option<bool>)
      requires table.Valid()
      modifies this, table
      ensures table.Valid()
      ensures rotated != Some(true) ==> table.rows == old(table.rows) && table.nextKid == old(table.nextKid)
      ensures JobRan(old(table.rows), old(table.nextKid), table.rows, rotated, now, rotatedAt, insertedAt)
      ensures rotated == Some(true) ==> table.nextKid == old(table.nextKid) + 1
    {
      var active := table.SelectOne(Active);
      if active.None? || table.rows[active.value].activatedAt.None? {
        return Some(false);
      }
      if now - table.rows[active.value].activatedAt.value < ROTATION_PERIOD_MS {
        return Some(false);
      }
      var r := RotateKeys(ROTATION_GRACE_MS, rotatedAt, insertedAt);
      return if r.Some? then Some(true) else None;
    }
  }

  /** Every row after a rotation: the next key is active from `now` on, the old one retired and kept until `expiry`, a
      fresh next key is there, and nothing else has changed. */
  ghost predicate RotatedRows(before: Table, after: Table, newKid: Kid, retired: Option<Kid>, nextKid: Kid, now: nat,
                              expiry: nat, insertedAt: nat)
    requires newKid in before && (retired.Some? ==> retired.value in before)
  {
    && after.Keys == before.Keys + {nextKid}
    && after[newKid] == KeyRow(Active, before[newKid].createdAt, Some(now), before[newKid].expiresAt)
    && (retired.Some? ==>
          var row := before[retired.value];
          after[retired.value] == KeyRow(Retired, row.createdAt, row.activatedAt, Some(expiry)))
    && after[nextKid] == KeyRow(Next, insertedAt, None, None)
    && forall kid :: kid in before && kid != newKid && Some(kid) != retired ==> after[kid] == before[kid]
  }

  /** The key was activated at least 90 days before `now`. */
  predicate Overdue(table: Table, kid: Kid, now: nat) {
    kid in table && table[kid].activatedAt.Some? && now - table[kid].activatedAt.value >= 7_776_000_000
  }

  /** What the rotation job may answer, and do to the table, depending on the keys it reads. */
  ghost predicate JobRan(before: Table, nextKid: Kid, after: Table, rotated: Option<bool>, now: nat, rotatedAt: nat,
                         insertedAt: nat) {
    match rotated
    case None => Kids(before, Next) == {} && exists kid :: HasStatus(before, kid, Active) && Overdue(before, kid, now)
    case Some(false) =>
      Kids(before, Active) == {} || exists kid :: HasStatus(before, kid, Active) && !Overdue(before, kid, now)
    case Some(true) =>
      && (exists kid :: HasStatus(before, kid, Active) && Overdue(before, kid, now))
      && exists active, next ::
           && HasStatus(before, active, Active) && HasStatus(before, next, Next)
           && RotatedRows(before, after, next, Some(active), nextKid, rotatedAt, rotatedAt + 86_400_000, insertedAt)
  }

  /** What inserting a fresh key does to the sets of kids by status. */
  lemma InsertKids(table: Table, kid: Kid, status: Status, now: nat)
    requires kid !in table
    ensures var t := InsertKey(table, kid, status, now);
            Kids(t, status) == Kids(table, status) + {kid}
            && forall s :: s != status ==> Kids(t, s) == Kids(table, s)
  {
    var t := InsertKey(table, kid, status, now);
    assert Kids(t, status) == Kids(table, status) + {kid};
    forall s | s != status ensures Kids(t, s) == Kids(table, s) {
      assert forall k :: k in Kids(t, s) <==> k in Kids(table, s);
    }
  }
}
