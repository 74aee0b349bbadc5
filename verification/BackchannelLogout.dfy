/**
  The back-channel logout queue: rows are appended by logouts and attempted by
  serialised drains. A row's position is its id; rows are never deleted.
 */
module BackchannelLogout {
  import opened Options

  type Id = nat

  datatype Status = Pending | Delivered | Failed

  datatype Delivery = Delivery(sessionId: Id, clientId: Id, url: string, attempts: nat, nextAttemptAt: nat,
                               status: Status)

  /** When the relying party was POSTed, how it answered, and when the answer (or the timeout) came. */
  datatype Reply = Reply(postedAt: nat, ok: bool, at: nat)

  const MAX_ATTEMPTS: nat := 3
  const BATCH: nat := 50

  /** BACKOFF_MS[attempts], or its last entry. */
  function Backoff(attempts: nat): nat {
    if attempts == 0 then 0 else if attempts == 1 then 5000 else 30000
  }

  function NewDelivery(session: Id, client: Id, url: string, now: nat): Delivery {
    Delivery(session, client, url, 0, now, Pending)
  }

  predicate Due(d: Delivery, now: nat) {
    d.status == Pending && d.nextAttemptAt <= now
  }

  /** A row after one attempt; without its session it fails and nothing is POSTed. */
  function Attempted(d: Delivery, found: bool, reply: Reply): Delivery {
    if !found then d.(status := Failed)
    else if reply.ok then d.(status := Delivered)
    else d.(attempts := d.attempts + 1,
            status := if d.attempts + 1 >= MAX_ATTEMPTS then Failed else Pending,
            nextAttemptAt := reply.at + Backoff(d.attempts + 1))
  }

  /** What the drain's SELECT may return: due rows, each once, in any order, at most 50, all if fewer. */
  predicate Selects(rows: seq<Delivery>, now: nat, picked: seq<Id>) {
    && |picked| <= 50
    && (forall i :: 0 <= i < |picked| ==> picked[i] < |rows| && Due(rows[picked[i]], now))
    && (forall i, j :: 0 <= i < j < |picked| ==> picked[i] != picked[j])
    && (|picked| < 50 ==> forall id :: 0 <= id < |rows| && Due(rows[id], now) ==> id in picked)
  }

  /** What one drain does to the whole table. */
  function Drained(rows: seq<Delivery>, picked: seq<Id>, sessions: set<Id>,
                   replies: Id -> Reply): (after: seq<Delivery>)
    ensures |after| == |rows|
  {
    seq(|rows|, id requires 0 <= id < |rows| =>
      if id in picked then Attempted(rows[id], rows[id].sessionId in sessions, replies(id)) else rows[id])
  }

  class DeliveryQueue {
    var rows: seq<Delivery>
    var uris: map<Id, string>

    constructor (uris: map<Id, string>)
      ensures rows == [] && this.uris == uris
    {
      rows := [];
      this.uris := uris;
    }

    /** enqueueBackchannelLogout: a row only for a client that registered a URI. */
    method Enqueue(session: Id, client: Id, now: nat)
      modifies this`rows
      ensures rows == old(rows) + QueuedFor(uris, session, client, now)
    {
      if client !in uris || uris[client] == "" {
        return;
      }
      rows := rows + [NewDelivery(session, client, uris[client], now)];
    }

    /** The due rows, the oldest first. */
    method SelectDue(now: nat) returns (picked: seq<Id>)
      ensures Selects(rows, now, picked)
    {
      picked := [];
      var id := 0;
      while id < |rows| && |picked| < BATCH
        invariant 0 <= id <= |rows| && |picked| <= BATCH
        invariant forall i :: 0 <= i < |picked| ==> picked[i] < id && Due(rows[picked[i]], now)
        invariant forall i, j :: 0 <= i < j < |picked| ==> picked[i] != picked[j]
        invariant forall k :: 0 <= k < id && Due(rows[k], now) ==> k in picked
      {
        if Due(rows[id], now) {
          picked := picked + [id];
        }
        id := id + 1;
      }
    }

    /** One round of the drain's loop. */
    method Deliver(id: Id, found: bool, reply: Reply) returns (ok: bool)
      requires id < |rows|
      modifies this`rows
      ensures rows == old(rows)[id := Attempted(old(rows)[id], found, reply)]
      ensures ok == (found && reply.ok)
    {
      var delivery := rows[id];
      if !found {
        rows := rows[id := delivery.(status := Failed)];
        return false;
      }
      if reply.ok {
        rows := rows[id := delivery.(status := Delivered)];
        return true;
      }
      var attempts := delivery.attempts + 1;
      var failed := attempts >= MAX_ATTEMPTS;
      rows := rows[id := delivery.(attempts := attempts, status := if failed then Failed else Pending,
                                   nextAttemptAt := reply.at + Backoff(attempts))];
      return false;
    }

    /** drainBackchannelQueue; `replies` stands for the network. */
    method Drain(now: nat, sessions: set<Id>, replies: Id -> Reply) returns (delivered: nat, ghost picked: seq<Id>)
      modifies this`rows
      ensures Selects(old(rows), now, picked)
      ensures rows == Drained(old(rows), picked, sessions, replies)
      ensures delivered == |Succeeding(old(rows), picked, sessions, replies)|
    {
      hide *;
      var pending := SelectDue(now);
      picked := pending;
      delivered := 0;
      ghost var was := rows;
      NothingDrained(was, sessions, replies);
      var k := 0;
      while k < |pending|
        invariant 0 <= k <= |pending|
        invariant rows == Drained(was, pending[..k], sessions, replies)
        invariant delivered == |Succeeding(was, pending[..k], sessions, replies)|
      {
        var id := pending[k];
        PickedOnce(was, now, pending, k);
        DrainedOneMore(was, pending[..k], id, sessions, replies);
        var ok := Deliver(id, rows[id].sessionId in sessions, replies(id));
        if ok {
          delivered := delivered + 1;
        }
        k := k + 1;
      }
      assert pending[..k] == pending;
    }
  }

  /** The rows a drain delivers. */
  function Succeeding(rows: seq<Delivery>, picked: seq<Id>, sessions: set<Id>, replies: Id -> Reply): set<Id> {
    set id | id in picked && id < |rows| && rows[id].sessionId in sessions && replies(id).ok
  }

  lemma PickedOnce(rows: seq<Delivery>, now: nat, picked: seq<Id>, k: nat)
    requires Selects(rows, now, picked) && k < |picked|
    ensures picked[k] < |rows| && picked[k] !in picked[..k] && picked[..k + 1] == picked[..k] + [picked[k]]
  {
  }

  lemma NothingDrained(rows: seq<Delivery>, sessions: set<Id>, replies: Id -> Reply)
    ensures Drained(rows, [], sessions, replies) == rows && Succeeding(rows, [], sessions, replies) == {}
  {
  }

  lemma DrainedOneMore(rows: seq<Delivery>, picked: seq<Id>, id: Id, sessions: set<Id>, replies: Id -> Reply)
    requires id < |rows| && id !in picked
    ensures
      var before := Drained(rows, picked, sessions, replies);
      && before[id] == rows[id]
      && Drained(rows, picked + [id], sessions, replies)
         == before[id := Attempted(rows[id], rows[id].sessionId in sessions, replies(id))]
    ensures
      var before := Succeeding(rows, picked, sessions, replies);
      && id !in before
      && Succeeding(rows, picked + [id], sessions, replies)
         == if rows[id].sessionId in sessions && replies(id).ok then before + {id} else before
  {
    forall other | 0 <= other < |rows| && other != id
      ensures Drained(rows, picked + [id], sessions, replies)[other] == Drained(rows, picked, sessions, replies)[other]
    {
      assert other in picked + [id] <==> other in picked;
    }
  }

  function QueuedFor(uris: map<Id, string>, session: Id, client: Id, now: nat): seq<Delivery> {
    if client in uris && uris[client] != "" then [NewDelivery(session, client, uris[client], now)] else []
  }

  // ---------------------------------------------------------------------
  // Every run of logouts and serialised drains
  // ---------------------------------------------------------------------

  datatype Event =
    | Logout(session: Id, client: Id, url: string, now: nat)
    | Drain(now: nat, picked: seq<Id>, sessions: set<Id>, replies: Id -> Reply)

  /** The table, and for each row the POSTs it has seen. */
  datatype Queue = Queue(rows: seq<Delivery>, posts: seq<seq<Reply>>)

  predicate Enabled(q: Queue, e: Event) {
    e.Drain? ==>
      && Selects(q.rows, e.now, e.picked)
      && forall id :: id in e.picked ==> e.now <= e.replies(id).postedAt <= e.replies(id).at
  }

  function Posted(q: Queue, e: Event): (posts: seq<seq<Reply>>)
    requires e.Drain? && |q.posts| == |q.rows|
    ensures |posts| == |q.rows|
  {
    seq(|q.rows|, id requires 0 <= id < |q.rows| =>
      if id in e.picked && q.rows[id].sessionId in e.sessions then q.posts[id] + [e.replies(id)] else q.posts[id])
  }

  function Next(q: Queue, e: Event): (after: Queue)
    requires |q.posts| == |q.rows|
    ensures |after.posts| == |after.rows|
  {
    match e
    case Logout(session, client, url, now) => Queue(q.rows + [NewDelivery(session, client, url, now)], q.posts + [[]])
    case Drain(_, picked, sessions, replies) => Queue(Drained(q.rows, picked, sessions, replies), Posted(q, e))
  }

  function Run(events: seq<Event>): (q: Queue)
    ensures |q.posts| == |q.rows|
  {
    if events == [] then Queue([], []) else
      var q := Run(events[..|events| - 1]);
      if Enabled(q, events[|events| - 1]) then Next(q, events[|events| - 1]) else q
  }

  /** How many POSTs a row in this state has seen. */
  predicate CountOk(d: Delivery, posts: nat) {
    match d.status
    case Pending => posts == d.attempts < MAX_ATTEMPTS
    case Delivered => posts == d.attempts + 1 <= MAX_ATTEMPTS
    case Failed => posts == d.attempts <= MAX_ATTEMPTS
  }

  /** Every POST of a row but the first comes the backoff after the reply to the one before. */
  predicate Spaced(posts: seq<Reply>) {
    forall k :: 1 <= k < |posts| ==> posts[k - 1].at + Backoff(k) <= posts[k].postedAt
  }

  /** A delivered row is one whose last POST was acknowledged; no other POST was. */
  predicate AcknowledgedLast(d: Delivery, posts: seq<Reply>) {
    && (forall k :: 0 <= k < |posts| - 1 ==> !posts[k].ok)
    && (d.status == Delivered <==> posts != [] && posts[|posts| - 1].ok)
  }

  predicate RowOk(d: Delivery, posts: seq<Reply>) {
    && CountOk(d, |posts|)
    && Spaced(posts) && AcknowledgedLast(d, posts)
    && (d.status == Pending && d.attempts > 0 ==> d.nextAttemptAt == posts[|posts| - 1].at + Backoff(d.attempts))
  }

  ghost predicate Inv(q: Queue) {
    |q.posts| == |q.rows| && forall id :: 0 <= id < |q.rows| ==> RowOk(q.rows[id], q.posts[id])
  }

  lemma AttemptKeepsRowOk(d: Delivery, posts: seq<Reply>, now: nat, live: bool, reply: Reply)
    requires RowOk(d, posts) && Due(d, now) && now <= reply.postedAt <= reply.at
    ensures RowOk(Attempted(d, live, reply), if live then posts + [reply] else posts)
  {
    var more := posts + [reply];
    forall k | 1 <= k < |more| ensures more[k - 1].at + Backoff(k) <= more[k].postedAt {
      if k < |posts| {
        assert posts[k - 1].at + Backoff(k) <= posts[k].postedAt;
      }
    }
  }

  lemma NextKeepsInv(q: Queue, e: Event)
    requires Inv(q) && Enabled(q, e)
    ensures Inv(Next(q, e))
  {
    var q' := Next(q, e);
    forall id | 0 <= id < |q'.rows| ensures RowOk(q'.rows[id], q'.posts[id]) {
      if id < |q.rows| {
        assert RowOk(q.rows[id], q.posts[id]);
        if e.Drain? && id in e.picked {
          AttemptKeepsRowOk(q.rows[id], q.posts[id], e.now, q.rows[id].sessionId in e.sessions, e.replies(id));
        }
      }
    }
  }

  lemma {:induction false} RunInv(events: seq<Event>)
    ensures Inv(Run(events))
  {
    if events == [] {
    } else {
      RunInv(events[..|events| - 1]);
      var q := Run(events[..|events| - 1]);
      if Enabled(q, events[|events| - 1]) {
        NextKeepsInv(q, events[|events| - 1]);
      }
    }
  }

  /** No delivery is ever POSTed more than three times; a delivered one was POSTed once more than it failed,
      and a failed one is out of attempts or lost its session. */
  lemma PostedAtMostThrice(events: seq<Event>, id: nat)
    requires id < |Run(events).rows|
    ensures |Run(events).posts[id]| <= 3
    ensures Run(events).rows[id].status == Delivered <==> |Run(events).posts[id]| == Run(events).rows[id].attempts + 1
  {
    RunInv(events);
    assert RowOk(Run(events).rows[id], Run(events).posts[id]);
  }

  /** A delivery counts as delivered exactly when the relying party has acknowledged a POST, which then is the last. */
  lemma DeliveredIffAcknowledged(events: seq<Event>, id: nat)
    requires id < |Run(events).rows|
    ensures
      var posts := Run(events).posts[id];
      && (Run(events).rows[id].status == Delivered <==> exists k :: 0 <= k < |posts| && posts[k].ok)
      && (forall k :: 0 <= k < |posts| && posts[k].ok ==> k == |posts| - 1)
  {
    RunInv(events);
    assert RowOk(Run(events).rows[id], Run(events).posts[id]);
  }

  /** The second POST comes at least 5 s after the first reply, the third at least 30 s after the second. */
  lemma RetriesBackOff(events: seq<Event>, id: nat)
    requires id < |Run(events).rows|
    ensures
      var posts := Run(events).posts[id];
      && (|posts| >= 2 ==> posts[0].at + 5_000 <= posts[1].postedAt)
      && (|posts| >= 3 ==> posts[1].at + 30_000 <= posts[2].postedAt)
  {
    RunInv(events);
    assert RowOk(Run(events).rows[id], Run(events).posts[id]);
  }

  /** A pending delivery is due when it is queued, then exactly 5 s after the first reply and 30 s after the second; in
      between no drain picks it. */
  lemma NextDue(events: seq<Event>, id: nat, now: nat)
    requires id < |Run(events).rows| && Run(events).rows[id].status == Pending
    ensures
      var row, posts := Run(events).rows[id], Run(events).posts[id];
      && |posts| <= 2
      && (|posts| >= 1 ==> row.nextAttemptAt == posts[|posts| - 1].at + if |posts| == 1 then 5_000 else 30_000)
      && (Due(row, now) <==> now >= row.nextAttemptAt)
  {
    RunInv(events);
    assert RowOk(Run(events).rows[id], Run(events).posts[id]);
  }

  /** A drain picks the row, and finds no session for it. */
  predicate LosesSession(e: Event, id: Id, session: Id) {
    e.Drain? && id in e.picked && session !in e.sessions
  }

  ghost predicate SessionLost(events: seq<Event>, id: Id, session: Id) {
    exists k :: 0 <= k < |events| && LosesSession(events[k], id, session)
  }

  /** A delivery fails only after three POSTs, or because a drain finds its session gone. */
  lemma {:induction false} FailsOnlyThen(events: seq<Event>, id: nat)
    requires id < |Run(events).rows| && Run(events).rows[id].status == Failed
    ensures |Run(events).posts[id]| == 3 || SessionLost(events, id, Run(events).rows[id].sessionId)
  {
    RunInv(events);
    var most, e := events[..|events| - 1], events[|events| - 1];
    var q := Run(most);
    RunInv(most);
    assert RowOk(Run(events).rows[id], Run(events).posts[id]);
    assert id < |q.rows| ==> RowOk(q.rows[id], q.posts[id]);
    hide Inv, Spaced;
    if id < |q.rows| && q.rows[id].status == Failed {
      FailsOnlyThen(most, id);
      assert most == events[..|most|];
      StaysFailed(q, e, id);
      if k :| 0 <= k < |most| && LosesSession(most[k], id, q.rows[id].sessionId) {
        assert events[k] == most[k];
      }
    } else if !(e.Drain? && q.rows[id].sessionId in e.sessions) {
      assert LosesSession(events[|events| - 1], id, q.rows[id].sessionId);
    }
  }

  lemma StaysFailed(q: Queue, e: Event, id: nat)
    requires |q.posts| == |q.rows| && id < |q.rows| && q.rows[id].status == Failed
    ensures Enabled(q, e) ==> Next(q, e).rows[id] == q.rows[id] && Next(q, e).posts[id] == q.posts[id]
  {
  }

  // ---------------------------------------------------------------------
  // Finished rows stay, and drains make progress
  // ---------------------------------------------------------------------

  /** Rows only move forward: they keep what identifies them, and a finished one never changes again. */
  predicate Forward(before: Queue, after: Queue) {
    && |before.posts| == |before.rows| <= |after.rows| == |after.posts|
    && forall id :: 0 <= id < |before.rows| ==>
         && after.rows[id].sessionId == before.rows[id].sessionId && after.rows[id].url == before.rows[id].url
         && before.rows[id].attempts <= after.rows[id].attempts
         && (before.rows[id].status != Pending ==>
             after.rows[id] == before.rows[id] && after.posts[id] == before.posts[id])
  }

  lemma {:induction false} FinishedStays(events: seq<Event>, more: seq<Event>)
    ensures Forward(Run(events), Run(events + more))
    decreases |more|
  {
    if more == [] {
      assert events + more == events;
    } else {
      var most := more[..|more| - 1];
      FinishedStays(events, most);
      assert (events + more)[..|events + more| - 1] == events + most;
      var e := more[|more| - 1];
      var mid := Run(events + most);
      assert Run(events + more) == if Enabled(mid, e) then Next(mid, e) else mid;
      if Enabled(mid, e) {
        StepForward(mid, e);
      }
    }
  }

  lemma StepForward(q: Queue, e: Event)
    requires |q.posts| == |q.rows| && Enabled(q, e)
    ensures Forward(q, Next(q, e))
  {
  }

  /** The attempts a row may still use. */
  function Owed(d: Delivery): nat {
    if d.status == Pending && d.attempts < MAX_ATTEMPTS then MAX_ATTEMPTS - d.attempts else 0
  }

  function TotalOwed(rows: seq<Delivery>): nat {
    if rows == [] then 0 else TotalOwed(rows[..|rows| - 1]) + Owed(rows[|rows| - 1])
  }

  lemma {:induction false} OwedPointwise(before: seq<Delivery>, after: seq<Delivery>)
    requires |before| == |after| && forall id :: 0 <= id < |before| ==> Owed(after[id]) <= Owed(before[id])
    ensures TotalOwed(after) <= TotalOwed(before)
    ensures (exists id :: 0 <= id < |before| && Owed(after[id]) < Owed(before[id])) ==>
        TotalOwed(after) < TotalOwed(before)
  {
    if before == [] {
    } else {
      OwedPointwise(before[..|before| - 1], after[..|after| - 1]);
      if id :| 0 <= id < |before| && Owed(after[id]) < Owed(before[id]) && id < |before| - 1 {
        assert Owed(after[..|after| - 1][id]) < Owed(before[..|before| - 1][id]);
      }
    }
  }

  /** A drain that finds a due row uses up an attempt; one that finds none changes nothing. */
  lemma DrainProgresses(events: seq<Event>, now: nat, picked: seq<Id>, sessions: set<Id>, replies: Id -> Reply)
    requires Selects(Run(events).rows, now, picked)
    ensures
      var rows := Run(events).rows;
      var after := Drained(rows, picked, sessions, replies);
      if exists id :: 0 <= id < |rows| && Due(rows[id], now) then TotalOwed(after) < TotalOwed(rows) else after == rows
  {
    RunInv(events);
    var q := Run(events);
    assert forall id :: 0 <= id < |q.rows| ==> RowOk(q.rows[id], q.posts[id]);
    hide Run;
    PickedOweLess(q.rows, now, picked, sessions, replies);
    OwedPointwise(q.rows, Drained(q.rows, picked, sessions, replies));
    if id :| 0 <= id < |q.rows| && Due(q.rows[id], now) {
      assert |picked| > 0 && picked[0] in picked;
    }
  }

  lemma PickedOweLess(rows: seq<Delivery>, now: nat, picked: seq<Id>, sessions: set<Id>, replies: Id -> Reply)
    requires Selects(rows, now, picked)
    requires forall id :: 0 <= id < |rows| && rows[id].status == Pending ==> rows[id].attempts < MAX_ATTEMPTS
    ensures forall id :: 0 <= id < |rows| ==>
      var after := Owed(Drained(rows, picked, sessions, replies)[id]);
      if id in picked then after < Owed(rows[id]) else after == Owed(rows[id])
  {
  }
}
