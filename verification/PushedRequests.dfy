/**
  Pushed authorization requests: a request_uri is stored for 90 seconds and
  resolved at most once. Each operation is one SQL statement, so sequences of
  operations are all the interleavings there are.
 */
module PushedRequests {
  import opened Options

  type Id = nat

  const PAR_TTL_MS: nat := 90_000

  datatype Request = Request(clientId: Id, tenantId: Id, payload: string, expiresAt: nat, usedAt: Option<nat>)

  class ParStore {
    var rows: map<Id, Request>
    var nextUri: Id

    constructor ()
      ensures rows == map[] && nextUri == 0
    {
      rows := map[];
      nextUri := 0;
    }

    /** handlePar: a fresh request_uri for the authenticated client's parameters. */
    method Push(client: Id, tenant: Id, payload: string, now: nat) returns (uri: Id)
      modifies this
      ensures uri == old(nextUri)
          && State(rows, nextUri) == Next(State(old(rows), old(nextUri)), Pushed(client, tenant, payload, now))
    {
      uri := nextUri;
      rows := rows[uri := Request(client, tenant, payload, now + PAR_TTL_MS, None)];
      nextUri := nextUri + 1;
    }

    /** resolvePar: UPDATE ... WHERE usedAt IS NULL RETURNING, then the expiry test. */
    method Resolve(uri: Id, client: Id, tenant: Id, now: nat) returns (payload: Option<string>)
      modifies this`rows
      ensures payload == Answer(State(old(rows), nextUri), Resolved(uri, client, tenant, now))
      ensures State(rows, nextUri) == Next(State(old(rows), nextUri), Resolved(uri, client, tenant, now))
    {
      if !Matches(rows, uri, client, tenant) {
        return None;
      }
      var row := rows[uri];
      rows := rows[uri := row.(usedAt := Some(now))];
      if row.expiresAt < now {
        return None;
      }
      return Some(row.payload);
    }

    /** peekPar: the same lookup without the claim. */
    method Peek(uri: Id, client: Id, tenant: Id, now: nat) returns (payload: Option<string>)
      ensures payload == Answer(State(rows, nextUri), Peeked(uri, client, tenant, now))
    {
      if !Matches(rows, uri, client, tenant) || rows[uri].expiresAt < now {
        return None;
      }
      return Some(rows[uri].payload);
    }
  }

  predicate Matches(rows: map<Id, Request>, uri: Id, client: Id, tenant: Id) {
    uri in rows && rows[uri].clientId == client && rows[uri].tenantId == tenant && rows[uri].usedAt.None?
  }

  // ---------------------------------------------------------------------
  // Every sequence of operations
  // ---------------------------------------------------------------------

  datatype State = State(rows: map<Id, Request>, nextUri: Id)

  datatype Op =
    | Pushed(client: Id, tenant: Id, payload: string, now: nat)
    | Resolved(uri: Id, client: Id, tenant: Id, now: nat)
    | Peeked(uri: Id, client: Id, tenant: Id, now: nat)
    | Cleaned(now: nat)

  function Next(s: State, op: Op): State {
    match op
    case Pushed(client, tenant, payload, now) =>
      State(s.rows[s.nextUri := Request(client, tenant, payload, now + PAR_TTL_MS, None)], s.nextUri + 1)
    case Resolved(uri, client, tenant, now) =>
      if Matches(s.rows, uri, client, tenant) then s.(rows := s.rows[uri := s.rows[uri].(usedAt := Some(now))]) else s
    case Peeked(_, _, _, _) => s
    case Cleaned(now) => s.(rows := map uri | uri in s.rows && !(s.rows[uri].expiresAt < now) :: s.rows[uri])
  }

  /** The payload an operation answers with, if any. */
  function Answer(s: State, op: Op): Option<string> {
    if (op.Resolved? || op.Peeked?) && Matches(s.rows, op.uri, op.client, op.tenant)
        && op.now <= s.rows[op.uri].expiresAt
    then Some(s.rows[op.uri].payload) else None
  }

  function Run(ops: seq<Op>): State {
    if ops == [] then State(map[], 0) else Next(Run(ops[..|ops| - 1]), ops[|ops| - 1])
  }

  /** A cleanup deletes exactly the expired requests. */
  lemma CleanedRows(s: State, now: nat)
    ensures
      var after := Next(s, Cleaned(now)).rows;
      && (forall uri :: uri in after <==> uri in s.rows && now <= s.rows[uri].expiresAt)
      && (forall uri :: uri in after ==> after[uri] == s.rows[uri])
  {
  }

  /** Neither resolving nor peeking can succeed any more. */
  ghost predicate Burnt(s: State, uri: Id) {
    uri < s.nextUri && (uri in s.rows ==> s.rows[uri].usedAt.Some?)
  }

  lemma {:induction false} UrisFresh(ops: seq<Op>)
    ensures forall uri :: uri in Run(ops).rows ==> uri < Run(ops).nextUri
  {
    if ops == [] {
    } else {
      UrisFresh(ops[..|ops| - 1]);
    }
  }

  lemma {:induction false} BurntForever(ops: seq<Op>, i: nat, j: nat, uri: Id)
    requires i <= j <= |ops| && Burnt(Run(ops[..i]), uri)
    ensures Burnt(Run(ops[..j]), uri)
    decreases j
  {
    if i == j {
    } else {
      BurntForever(ops, i, j - 1, uri);
      assert ops[..j][..j - 1] == ops[..j - 1];
    }
  }

  /** Once a request_uri has been matched by a resolve, in time or too late, no later resolve or peek gets a payload. */
  lemma ResolvedOnce(ops: seq<Op>, i: nat, j: nat, uri: Id)
    requires i < j < |ops| && ops[i].Resolved? && ops[i].uri == uri
    requires Matches(Run(ops[..i]).rows, uri, ops[i].client, ops[i].tenant)
    requires (ops[j].Resolved? || ops[j].Peeked?) && ops[j].uri == uri
    ensures Answer(Run(ops[..j]), ops[j]) == None
  {
    UrisFresh(ops[..i]);
    assert ops[..i + 1][..i] == ops[..i];
    BurntForever(ops, i + 1, j, uri);
  }

  /** Until it is resolved or expires, a pushed request answers its client, as often as it is peeked, with its
      payload. */
  lemma {:induction false} StillThere(ops: seq<Op>, i: nat, j: nat, client: Id, tenant: Id, now: nat)
    requires i < j <= |ops| && ops[i].Pushed? && ops[i].client == client && ops[i].tenant == tenant
    requires forall k :: i < k < j ==>
        !(ops[k].Resolved? && ops[k].uri == Run(ops[..i]).nextUri && ops[k].client == client && ops[k].tenant == tenant)
    requires forall k :: i < k < j && ops[k].Cleaned? ==> ops[k].now <= ops[i].now + PAR_TTL_MS
    ensures
      var uri := Run(ops[..i]).nextUri;
      && uri in Run(ops[..j]).rows
      && Run(ops[..j]).rows[uri] == Request(client, tenant, ops[i].payload, ops[i].now + PAR_TTL_MS, None)
      && uri < Run(ops[..j]).nextUri
      && Answer(Run(ops[..j]), Resolved(uri, client, tenant, now))
         == (if now <= ops[i].now + 90_000 then Some(ops[i].payload) else None)
    decreases j
  {
    assert ops[..j][..j - 1] == ops[..j - 1];
    if i + 1 == j {
    } else {
      StillThere(ops, i, j - 1, client, tenant, now);
    }
  }

  predicate TimesInOrder(ops: seq<Op>) {
    forall j, k :: 0 <= j < k < |ops| ==> ops[j].now <= ops[k].now
  }

  /** The k-th operation pushes this payload for this client and tenant under the uri. */
  predicate Pushes(ops: seq<Op>, k: nat, uri: Id, client: Id, tenant: Id, payload: string)
    requires k < |ops|
  {
    && ops[k].Pushed? && Run(ops[..k]).nextUri == uri
    && ops[k].client == client && ops[k].tenant == tenant && ops[k].payload == payload
  }

  /** The k-th operation is the client's own resolve of the uri. */
  predicate Takes(ops: seq<Op>, k: nat, uri: Id, client: Id, tenant: Id)
    requires k < |ops|
  {
    ops[k].Resolved? && ops[k].uri == uri && ops[k].client == client && ops[k].tenant == tenant
  }

  ghost predicate UntakenSince(ops: seq<Op>, k: nat, uri: Id, client: Id, tenant: Id) {
    forall j :: k < j < |ops| ==> !Takes(ops, j, uri, client, tenant)
  }

  /** The k-th operation is the push the row comes from. */
  ghost predicate ComesFrom(ops: seq<Op>, k: nat, uri: Id, row: Request) {
    && k < |ops| && Pushes(ops, k, uri, row.clientId, row.tenantId, row.payload)
    && row.expiresAt == ops[k].now + 90_000
    && (row.usedAt.None? ==> UntakenSince(ops, k, uri, row.clientId, row.tenantId))
  }

  lemma ComesFromLater(ops: seq<Op>, k: nat, uri: Id)
    requires ops != [] && uri in Run(ops).rows
    requires
      var most := ops[..|ops| - 1];
      uri in Run(most).rows && ComesFrom(most, k, uri, Run(most).rows[uri])
    ensures ComesFrom(ops, k, uri, Run(ops).rows[uri])
  {
    var most, op := ops[..|ops| - 1], ops[|ops| - 1];
    var before, row := Run(most).rows[uri], Run(ops).rows[uri];
    UrisFresh(most);
    assert most[..k] == ops[..k];
    assert row == before.(usedAt := row.usedAt) && (row.usedAt.None? ==> before.usedAt.None?);
    assert row.usedAt.None? ==> !Takes(ops, |ops| - 1, uri, row.clientId, row.tenantId);
    hide Run;
    forall j | k < j < |ops| && row.usedAt.None? ensures !Takes(ops, j, uri, row.clientId, row.tenantId) {
      if j < |most| { assert !Takes(most, j, uri, row.clientId, row.tenantId); }
    }
  }

  /** Every row comes from a push, and is unused only as long as its client has not resolved it. */
  lemma {:induction false} StoredRow(ops: seq<Op>, uri: Id) returns (k: nat)
    requires uri in Run(ops).rows
    ensures ComesFrom(ops, k, uri, Run(ops).rows[uri])
  {
    var most := ops[..|ops| - 1];
    UrisFresh(most);
    if uri in Run(most).rows {
      k := StoredRow(most, uri);
      hide Run, ComesFrom;
      ComesFromLater(ops, k, uri);
    } else {
      k := |ops| - 1;
    }
  }

  /** The pushing client asks in time, and has not resolved the request since. */
  ghost predicate MayHave(ops: seq<Op>, k: nat, op: Op, payload: string) {
    && (op.Resolved? || op.Peeked?) && k < |ops|
    && Pushes(ops, k, op.uri, op.client, op.tenant, payload)
    && op.now <= ops[k].now + 90_000 && UntakenSince(ops, k, op.uri, op.client, op.tenant)
  }

  lemma MayHaveGets(ops: seq<Op>, k: nat, op: Op, payload: string)
    requires TimesInOrder(ops + [op]) && MayHave(ops, k, op, payload)
    ensures Answer(Run(ops), op) == Some(payload)
  {
    var all := ops + [op];
    hide Run, TimesInOrder;
    forall j | k < j < |ops|
      ensures ops[j].now <= op.now && !Takes(ops, j, op.uri, op.client, op.tenant)
    {
      Ordered(all, j, |ops|);
    }
    StillThere(ops, k, |ops|, op.client, op.tenant, op.now);
    assert ops[..|ops|] == ops;
  }

  lemma Ordered(ops: seq<Op>, j: nat, k: nat)
    requires TimesInOrder(ops) && j < k < |ops|
    ensures ops[j].now <= ops[k].now
  {
  }

  /** Who gets a payload: a resolve or peek by the client and tenant that pushed it, at most 90 s after the push and
      before that client has resolved it; nobody else, and nothing else under that uri. */
  lemma AnsweredIff(ops: seq<Op>, op: Op, payload: string)
    requires TimesInOrder(ops + [op])
    ensures Answer(Run(ops), op) == Some(payload) <==> exists k :: MayHave(ops, k, op, payload)
  {
    if Answer(Run(ops), op) == Some(payload) {
      var k := StoredRow(ops, op.uri);
      hide Run;
      assert MayHave(ops, k, op, payload);
    } else if k :| MayHave(ops, k, op, payload) {
      MayHaveGets(ops, k, op, payload);
    }
  }
}
