/**
  OIDC sessions from their creation to the logout that ends every session of a
  browser, kills the tokens under them and queues one delivery per session.
 */
module EndSession {
  import opened Options
  import opened TokenTables
  import opened TokenRuns
  import opened TokenAtomic
  import BackchannelLogout

  type Delivery = BackchannelLogout.Delivery

  /** The token tables and the back-channel queue. */
  datatype State = State(db: Db, deliveries: seq<Delivery>)

  predicate BrowserSession(db: Db, id: Id, browser: Id, tenant: Id) {
    id in db.sessions && db.sessions[id].browserSessionId == browser && db.sessions[id].tenantId == tenant
  }

  predicate Live(db: Db, id: Id) {
    id in db.sessions && db.sessions[id].terminatedAt.None?
  }

  /** What the logout's SELECT returns: the browser's live sessions, each once, in any order. */
  ghost predicate SelectsLive(db: Db, ids: seq<Id>, browser: Id, tenant: Id) {
    && (forall k :: 0 <= k < |ids| ==> BrowserSession(db, ids[k], browser, tenant) && Live(db, ids[k]))
    && (forall j, k :: 0 <= j < k < |ids| ==> ids[j] != ids[k])
    && (forall id :: BrowserSession(db, id, browser, tenant) && Live(db, id) ==> id in ids)
  }

  /** One round of the logout's loop. */
  function EndOne(s: State, id: Id, uris: map<Id, string>, now: nat): State
    requires id in s.db.sessions
  {
    var row := s.db.sessions[id];
    State(SessionKilled(UpdateSession(s.db, id, row.(terminatedAt := Some(now))), id),
          s.deliveries + BackchannelLogout.QueuedFor(uris, id, row.clientId, now))
  }

  function EndAll(s: State, ids: seq<Id>, uris: map<Id, string>, now: nat): (after: State)
    requires forall k :: 0 <= k < |ids| ==> ids[k] in s.db.sessions
    ensures after.db.sessions.Keys == s.db.sessions.Keys
  {
    if ids == [] then s else EndOne(EndAll(s, ids[..|ids| - 1], uris, now), ids[|ids| - 1], uris, now)
  }

  class LogoutEndpoint {
    var db: Db
    var deliveries: seq<Delivery>
    const uris: map<Id, string>

    constructor (db: Db, uris: map<Id, string>)
      ensures this.db == db && deliveries == [] && this.uris == uris
    {
      this.db := db;
      deliveries := [];
      this.uris := uris;
    }

    /** The live session of this browser and client, or a new one. */
    method GetOrCreateOidcSession(browser: Id, user: Id, client: Id, tenant: Id) returns (session: Id)
      modifies this`db
      ensures BrowserSession(db, session, browser, tenant) && Live(db, session)
          && db.sessions[session].clientId == client
      ensures
        if Matching(old(db), browser, client, tenant) != {} then
          db == old(db) && session in Matching(old(db), browser, client, tenant)
        else
          db == InsertSession(old(db), SessionRow(browser, user, client, tenant, None, None))
              && session == old(db).nextId
    {
      var matching := Matching(db, browser, client, tenant);
      if matching != {} {
        session :| session in matching;
        return;
      }
      session := db.nextId;
      db := InsertSession(db, SessionRow(browser, user, client, tenant, None, None));
    }

    method SelectLive(browser: Id, tenant: Id) returns (ids: seq<Id>)
      ensures SelectsLive(db, ids, browser, tenant)
    {
      var left := set id | id in db.sessions && BrowserSession(db, id, browser, tenant) && Live(db, id);
      ids := [];
      ghost var all := left;
      while left != {}
        invariant left <= all && forall id :: id in all <==> id in left || id in ids
        invariant forall k :: 0 <= k < |ids| ==> ids[k] in all && ids[k] !in left
        invariant forall j, k :: 0 <= j < k < |ids| ==> ids[j] != ids[k]
        decreases left
      {
        var id :| id in left;
        left := left - {id};
        ids := ids + [id];
      }
    }

    /** POST /end_session/confirm */
    method Confirm(browser: Id, tenant: Id, now: nat) returns (ghost ended: seq<Id>)
      modifies this
      ensures SelectsLive(old(db), ended, browser, tenant)
      ensures State(db, deliveries) == EndAll(State(old(db), old(deliveries)), ended, uris, now)
    {
      var liveSessions := SelectLive(browser, tenant);
      ended := liveSessions;
      ghost var before := State(db, deliveries);
      hide UpdateSession, SessionKilled, BackchannelLogout.QueuedFor;
      var k := 0;
      while k < |liveSessions|
        invariant 0 <= k <= |liveSessions|
        invariant State(db, deliveries) == EndAll(before, liveSessions[..k], uris, now)
      {
        var id := liveSessions[k];
        assert liveSessions[..k + 1][..k] == liveSessions[..k];
        var row := db.sessions[id];
        db := UpdateSession(db, id, row.(terminatedAt := Some(now)));
        db := SessionKilled(db, id);
        deliveries := deliveries + BackchannelLogout.QueuedFor(uris, id, row.clientId, now);
        k := k + 1;
      }
      assert liveSessions[..k] == liveSessions;
    }
  }

  function Matching(db: Db, browser: Id, client: Id, tenant: Id): set<Id> {
    set id | id in db.sessions && BrowserSession(db, id, browser, tenant) && Live(db, id)
        && db.sessions[id].clientId == client
  }

  // ---------------------------------------------------------------------
  // One live session per browser and client
  // ---------------------------------------------------------------------

  ghost predicate OneLivePerClient(db: Db) {
    && (forall id :: id in db.sessions ==> id < db.nextId)
    && forall browser, client, tenant, i, j ::
         i in Matching(db, browser, client, tenant) && j in Matching(db, browser, client, tenant) ==> i == j
  }

  function Created(db: Db, browser: Id, user: Id, client: Id, tenant: Id): Db {
    InsertSession(db, SessionRow(browser, user, client, tenant, None, None))
  }

  lemma CreatedMatching(db: Db, browser: Id, user: Id, client: Id, tenant: Id)
    requires forall id :: id in db.sessions ==> id < db.nextId
    ensures forall b, c, t ::
      Matching(Created(db, browser, user, client, tenant), b, c, t)
      == if b == browser && c == client && t == tenant
         then Matching(db, b, c, t) + {db.nextId} else Matching(db, b, c, t)
  {
    var db' := Created(db, browser, user, client, tenant);
    forall b, c, t
      ensures Matching(db', b, c, t)
           == if b == browser && c == client && t == tenant
              then Matching(db, b, c, t) + {db.nextId} else Matching(db, b, c, t)
    {
      assert forall id :: id != db.nextId ==> (id in Matching(db', b, c, t) <==> id in Matching(db, b, c, t));
    }
  }

  /** The insert keeps one live session per browser, client and tenant exactly when there still is none: what the
      caller read before must not have changed. */
  lemma CreateKeepsOneLiveIff(db: Db, browser: Id, user: Id, client: Id, tenant: Id)
    requires OneLivePerClient(db)
    ensures OneLivePerClient(Created(db, browser, user, client, tenant)) <==>
        Matching(db, browser, client, tenant) == {}
  {
    CreatedMatching(db, browser, user, client, tenant);
    var db' := Created(db, browser, user, client, tenant);
    hide Matching;
    assert forall id :: id in db'.sessions ==> id < db'.nextId;
    if id :| id in Matching(db, browser, client, tenant) {
      MatchingIsStored(db, id, browser, client, tenant);
      assert id in Matching(db', browser, client, tenant) && db.nextId in Matching(db', browser, client, tenant);
    }
  }

  lemma MatchingIsStored(db: Db, id: Id, browser: Id, client: Id, tenant: Id)
    requires id in Matching(db, browser, client, tenant)
    ensures id in db.sessions
  {
  }

  /** Two calls that both find no session before either creates one create two. */
  lemma TwoCreators(db: Db, browser: Id, user: Id, client: Id, tenant: Id)
    requires OneLivePerClient(db) && Matching(db, browser, client, tenant) == {}
    ensures
      var db' := Created(Created(db, browser, user, client, tenant), browser, user, client, tenant);
      Matching(db', browser, client, tenant) == {db.nextId, db.nextId + 1} && !OneLivePerClient(db')
  {
    CreateKeepsOneLiveIff(db, browser, user, client, tenant);
    var db1 := Created(db, browser, user, client, tenant);
    CreatedMatching(db, browser, user, client, tenant);
    CreatedMatching(db1, browser, user, client, tenant);
    hide Matching, OneLivePerClient;
    CreateKeepsOneLiveIff(db1, browser, user, client, tenant);
  }

  // ---------------------------------------------------------------------
  // What a logout leaves
  // ---------------------------------------------------------------------

  predicate LinkedTo(session: Option<Id>, ids: seq<Id>) {
    session.Some? && session.value in ids
  }

  /** Every row of every table after the logout. */
  ghost predicate Ended(before: Db, after: Db, ids: seq<Id>, now: nat) {
    && after.codes == before.codes && after.nextId == before.nextId
    && after.sessions.Keys == before.sessions.Keys && after.refresh.Keys == before.refresh.Keys
        && after.access.Keys == before.access.Keys
    && (forall id :: id in before.sessions ==>
          after.sessions[id] == (if id in ids then before.sessions[id].(terminatedAt := Some(now))
                                 else before.sessions[id]))
    && (forall id :: id in before.refresh ==>
          after.refresh[id] == (if LinkedTo(before.refresh[id].sessionId, ids) then before.refresh[id].(revoked := true)
                                else before.refresh[id]))
    && (forall id :: id in before.access ==>
          after.access[id] == (if LinkedTo(before.access[id].sessionId, ids) then before.access[id].(revoked := true)
                               else before.access[id]))
  }

  lemma {:induction false} EndAllRows(s: State, ids: seq<Id>, uris: map<Id, string>, now: nat)
    requires forall k :: 0 <= k < |ids| ==> ids[k] in s.db.sessions
    ensures Ended(s.db, EndAll(s, ids, uris, now).db, ids, now)
  {
    if ids == [] {
    } else {
      var most, last := ids[..|ids| - 1], ids[|ids| - 1];
      EndAllRows(s, most, uris, now);
      var mid := EndAll(s, most, uris, now);
      hide EndAll, BackchannelLogout.QueuedFor;
      EndOneRows(mid, last, uris, now);
      EndedAndOne(s.db, mid.db, EndOne(mid, last, uris, now).db, most, last, now);
      assert ids == most + [last];
    }
  }

  lemma EndOneRows(s: State, id: Id, uris: map<Id, string>, now: nat)
    requires id in s.db.sessions
    ensures Ended(s.db, EndOne(s, id, uris, now).db, [id], now)
  {
    var updated := UpdateSession(s.db, id, s.db.sessions[id].(terminatedAt := Some(now)));
    SessionKilledIsDead(updated, id);
    hide SessionKilled, LiveSessionAccess, LiveSessionRefresh, BackchannelLogout.QueuedFor;
  }

  lemma EndedAndOne(before: Db, mid: Db, after: Db, most: seq<Id>, last: Id, now: nat)
    requires Ended(before, mid, most, now) && Ended(mid, after, [last], now)
    ensures Ended(before, after, most + [last], now)
  {
  }

  /** The deliveries queued for the ended sessions. */
  function Queued(db: Db, ids: seq<Id>, uris: map<Id, string>, now: nat): seq<Delivery>
    requires forall k :: 0 <= k < |ids| ==> ids[k] in db.sessions
  {
    if ids == [] then [] else
      Queued(db, ids[..|ids| - 1], uris, now)
      + BackchannelLogout.QueuedFor(uris, ids[|ids| - 1], db.sessions[ids[|ids| - 1]].clientId, now)
  }

  lemma {:induction false} EndAllQueues(s: State, ids: seq<Id>, uris: map<Id, string>, now: nat)
    requires forall k :: 0 <= k < |ids| ==> ids[k] in s.db.sessions
    ensures EndAll(s, ids, uris, now).deliveries == s.deliveries + Queued(s.db, ids, uris, now)
  {
    if ids == [] {
    } else {
      var most, last := ids[..|ids| - 1], ids[|ids| - 1];
      EndAllQueues(s, most, uris, now);
      EndAllRows(s, most, uris, now);
      hide BackchannelLogout.QueuedFor, SessionKilled;
      assert EndAll(s, most, uris, now).db.sessions[last].clientId == s.db.sessions[last].clientId;
    }
  }

  function CountFor(queue: seq<Delivery>, session: Id): nat {
    if queue == [] then 0 else
      CountFor(queue[..|queue| - 1], session) + (if queue[|queue| - 1].sessionId == session then 1 else 0)
  }

  predicate HasUri(uris: map<Id, string>, client: Id) {
    client in uris && uris[client] != ""
  }

  lemma {:induction false} QueuedOnce(db: Db, ids: seq<Id>, uris: map<Id, string>, now: nat, session: Id)
    requires forall k :: 0 <= k < |ids| ==> ids[k] in db.sessions
    requires forall j, k :: 0 <= j < k < |ids| ==> ids[j] != ids[k]
    ensures CountFor(Queued(db, ids, uris, now), session)
         == if session in ids && HasUri(uris, db.sessions[session].clientId) then 1 else 0
  {
    if ids == [] {
    } else {
      var most, last := ids[..|ids| - 1], ids[|ids| - 1];
      QueuedOnce(db, most, uris, now, session);
      assert ids == most + [last];
      CountOneMore(Queued(db, most, uris, now), uris, last, db.sessions[last].clientId, now, session);
      hide CountFor, BackchannelLogout.QueuedFor, HasUri;
    }
  }

  lemma CountOneMore(before: seq<Delivery>, uris: map<Id, string>, id: Id, client: Id, now: nat, session: Id)
    ensures CountFor(before + BackchannelLogout.QueuedFor(uris, id, client, now), session)
         == CountFor(before, session) + if id == session && HasUri(uris, client) then 1 else 0
  {
    var one := BackchannelLogout.QueuedFor(uris, id, client, now);
    if one != [] {
      assert (before + one)[..|before + one| - 1] == before;
    } else {
      assert before + one == before;
    }
  }

  /** Each queued delivery is for one of the ended sessions, goes to its client's URI, and is due and unattempted. */
  lemma {:induction false} QueuedRows(db: Db, ids: seq<Id>, uris: map<Id, string>, now: nat, d: Delivery)
    requires forall k :: 0 <= k < |ids| ==> ids[k] in db.sessions
    requires d in Queued(db, ids, uris, now)
    ensures
      && d.sessionId in ids && d.clientId == db.sessions[d.sessionId].clientId
      && d.clientId in uris && d.url == uris[d.clientId] && d.url != ""
      && d.status == BackchannelLogout.Pending && d.attempts == 0 && d.nextAttemptAt <= now
  {
    if ids == [] || d !in Queued(db, ids[..|ids| - 1], uris, now) {
    } else {
      QueuedRows(db, ids[..|ids| - 1], uris, now, d);
    }
  }

  /** After a logout no session of that browser and tenant is live, every token under a session it ended is
      revoked, and it queued exactly one delivery for each of them whose client has a back-channel URI. */
  lemma ConfirmEndsEverything(s: State, ids: seq<Id>, browser: Id, tenant: Id, uris: map<Id, string>, now: nat)
    requires SelectsLive(s.db, ids, browser, tenant)
    ensures
      var after := EndAll(s, ids, uris, now);
      && (forall id :: BrowserSession(after.db, id, browser, tenant) ==> !Live(after.db, id))
      && (forall id :: BrowserSession(s.db, id, browser, tenant) && Live(s.db, id) ==>
            LiveSessionAccess(after.db, id) == {} && LiveSessionRefresh(after.db, id) == {})
      && (forall id :: id in s.db.sessions && !BrowserSession(s.db, id, browser, tenant) ==>
          after.db.sessions[id] == s.db.sessions[id])
      && |s.deliveries| <= |after.deliveries| && after.deliveries[..|s.deliveries|] == s.deliveries
      && (forall id :: id in s.db.sessions ==>
            CountFor(after.deliveries[|s.deliveries|..], id)
            == if BrowserSession(s.db, id, browser, tenant) && Live(s.db, id)
                && HasUri(uris, s.db.sessions[id].clientId) then 1 else 0)
  {
    hide EndAll, CountFor, HasUri, LiveSessionAccess, LiveSessionRefresh;
    var after := EndAll(s, ids, uris, now);
    EndAllRows(s, ids, uris, now);
    EndAllQueues(s, ids, uris, now);
    assert after.deliveries[|s.deliveries|..] == Queued(s.db, ids, uris, now);
    forall id | BrowserSession(s.db, id, browser, tenant) && Live(s.db, id)
      ensures LiveSessionAccess(after.db, id) == {} && LiveSessionRefresh(after.db, id) == {}
    {
      EndedAccess(s.db, after.db, ids, now, id);
      EndedRefresh(s.db, after.db, ids, now, id);
    }
    forall id | id in s.db.sessions
      ensures CountFor(Queued(s.db, ids, uris, now), id)
           == if BrowserSession(s.db, id, browser, tenant) && Live(s.db, id)
               && HasUri(uris, s.db.sessions[id].clientId) then 1 else 0
    {
      QueuedOnce(s.db, ids, uris, now, id);
    }
  }

  /** An unrevoked token is linked to the session. */
  predicate HasToken(db: Db, session: Id) {
    LiveSessionAccess(db, session) != {} || LiveSessionRefresh(db, session) != {}
  }

  /** Exactly the sessions that had been ended before keep the tokens they have. */
  lemma TokensSurviveIff(s: State, ids: seq<Id>, browser: Id, tenant: Id, uris: map<Id, string>, now: nat, session: Id)
    requires SelectsLive(s.db, ids, browser, tenant) && BrowserSession(s.db, session, browser, tenant)
    ensures HasToken(EndAll(s, ids, uris, now).db, session) <==> HasToken(s.db, session) && !Live(s.db, session)
  {
    EndAllRows(s, ids, uris, now);
    var after := EndAll(s, ids, uris, now).db;
    assert session in ids <==> Live(s.db, session);
    hide *;
    EndedTokens(s.db, after, ids, now, session);
  }

  lemma EndedTokens(before: Db, after: Db, ids: seq<Id>, now: nat, session: Id)
    requires Ended(before, after, ids, now)
    ensures HasToken(after, session) <==> HasToken(before, session) && session !in ids
  {
    EndedAccess(before, after, ids, now, session);
    EndedRefresh(before, after, ids, now, session);
    hide Ended, LiveSessionAccess, LiveSessionRefresh;
  }

  lemma EndedAccess(before: Db, after: Db, ids: seq<Id>, now: nat, session: Id)
    requires Ended(before, after, ids, now)
    ensures LiveSessionAccess(after, session) == if session in ids then {} else LiveSessionAccess(before, session)
  {
  }

  lemma EndedRefresh(before: Db, after: Db, ids: seq<Id>, now: nat, session: Id)
    requires Ended(before, after, ids, now)
    ensures LiveSessionRefresh(after, session) == if session in ids then {} else LiveSessionRefresh(before, session)
  {
  }

  /** A code issued before the logout can be redeemed after it: its tokens live under the ended session,
      and the next logout does not reach them. */
  lemma CodeOutlivesLogout(s: State, code: Id, client: Id, redirectUri: string, input: Input, session: Id,
                           ids: seq<Id>, browser: Id, tenant: Id, uris: map<Id, string>, now: nat)
    requires Redeemable(s.db, code, client, tenant, redirectUri, input)
    requires s.db.codes[code].sid == Some(session)
    requires BrowserSession(s.db, session, browser, tenant) && !Live(s.db, session)
    ensures
      var (db', outcome) := Complete(s.db, ClaimCode(code, client, tenant, redirectUri), input);
      && outcome == Issued && HasToken(db', session)
      && (SelectsLive(db', ids, browser, tenant) ==>
          HasToken(EndAll(State(db', s.deliveries), ids, uris, now).db, session))
  {
    hide Complete, EndAll, SelectsLive;
    RedemptionMints(s.db, code, client, tenant, redirectUri, input);
    var db' := Complete(s.db, ClaimCode(code, client, tenant, redirectUri), input).0;
    assert SessionOfCode(s.db, code, tenant) == Some(session);
    assert s.db.nextId in LiveSessionAccess(db', session);
    if SelectsLive(db', ids, browser, tenant) {
      TokensSurviveIff(State(db', s.deliveries), ids, browser, tenant, uris, now, session);
    }
  }
}
