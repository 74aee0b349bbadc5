/**
  Calls that find or open a browser's session at a client, statement by
  statement, beside logouts: the lookup and the insert are two statements.
 */
module SessionRaces {
  import opened Options
  import FreshIds
  import opened TokenTables
  import opened EndSession

  /** Whose session a call is for. */
  datatype Key = Key(browser: Id, client: Id, tenant: Id)

  datatype Pc =
    | Lookup(key: Key, user: Id)
    | Insert(key: Key, user: Id)
    | Done(session: Id)

  datatype World = World(db: Db, runs: map<Id, Pc>)

  /** `found` is the live session the lookup's LIMIT 1 picks, if there is any; End is the update that terminates a
      session. */
  datatype Event =
    | Start(run: Id, key: Key, user: Id)
    | Exec(run: Id, found: Id)
    | End(session: Id, now: nat)

  function LiveOf(w: World, key: Key): set<Id> {
    Matching(w.db, key.browser, key.client, key.tenant)
  }

  function ExecRun(w: World, run: Id, found: Id): World
    requires run in w.runs
  {
    match w.runs[run]
    case Lookup(key, user) =>
      if LiveOf(w, key) == {} then w.(runs := w.runs[run := Insert(key, user)])
      else if found in LiveOf(w, key) then w.(runs := w.runs[run := Done(found)])
      else w
    case Insert(key, user) =>
      World(Created(w.db, key.browser, user, key.client, key.tenant), w.runs[run := Done(w.db.nextId)])
    case Done(_) => w
  }

  function Terminated(db: Db, session: Id, now: nat): Db {
    if session in db.sessions then UpdateSession(db, session, db.sessions[session].(terminatedAt := Some(now))) else db
  }

  function Next(w: World, e: Event): World {
    match e
    case Start(run, key, user) => if run in w.runs then w else w.(runs := w.runs[run := Lookup(key, user)])
    case Exec(run, found) => if run in w.runs then ExecRun(w, run, found) else w
    case End(session, now) => w.(db := Terminated(w.db, session, now))
  }

  function After(w: World, events: seq<Event>): World {
    if events == [] then w else Next(After(w, events[..|events| - 1]), events[|events| - 1])
  }

  /** A call nothing comes between is the handler of EndSession. */
  lemma UninterruptedIsHandler(w: World, run: Id, found: Id)
    requires run in w.runs && w.runs[run].Lookup?
    ensures
      var (key, user) := (w.runs[run].key, w.runs[run].user);
      var live := Matching(w.db, key.browser, key.client, key.tenant);
      if live == {} then
        var w' := ExecRun(ExecRun(w, run, found), run, found);
        w'.runs[run] == Done(w.db.nextId)
        && w'.db == InsertSession(w.db, SessionRow(key.browser, user, key.client, key.tenant, None, None))
      else found in live ==>
        var w' := ExecRun(w, run, found);
        w'.runs[run] == Done(found) && w'.db == w.db
  {
    hide Matching;
  }

  ghost predicate Valid(w: World) {
    forall id :: id in w.db.sessions ==> id < w.db.nextId
  }

  /** The calls that have not looked yet, and those that have found nothing and have yet to insert. */
  function Looking(w: World, key: Key): set<Id> {
    set run | run in w.runs && w.runs[run].Lookup? && w.runs[run].key == key
  }

  function Inserting(w: World, key: Key): set<Id> {
    set run | run in w.runs && w.runs[run].Insert? && w.runs[run].key == key
  }

  predicate NoStart(events: seq<Event>) {
    forall k :: 0 <= k < |events| ==> !events[k].Start?
  }

  /** However the calls under way and any logouts go on, there are never more than n live sessions. */
  ghost predicate NeverMore(w: World, key: Key, n: nat) {
    forall events :: NoStart(events) ==> |LiveOf(After(w, events), key)| <= n
  }

  /** What can be open at once: the live sessions and the inserts to come, or, once the sessions have ended, whatever
      the calls under way insert. */
  ghost predicate Within(w: World, key: Key, n: nat) {
    && |LiveOf(w, key)| + |Inserting(w, key)| <= n
    && |Looking(w, key)| + |Inserting(w, key)| <= n
  }

  // ---------------------------------------------------------------------
  // What one statement does to the sessions and the calls of a key
  // ---------------------------------------------------------------------

  lemma LookupStep(w: World, run: Id, found: Id, key: Key)
    requires run in w.runs && w.runs[run].Lookup? && w.runs[run].key == key
    ensures
      var w' := ExecRun(w, run, found);
      && w'.db == w.db
      && (w'.runs[run].Done? ==> w'.runs[run].session in LiveOf(w, key))
      && (if LiveOf(w, key) == {} then
            Looking(w', key) == Looking(w, key) - {run} && Inserting(w', key) == Inserting(w, key) + {run}
          else
            && (Looking(w', key) == Looking(w, key) || Looking(w', key) == Looking(w, key) - {run})
            && Inserting(w', key) == Inserting(w, key))
  {
    hide Matching;
  }

  lemma InsertStep(w: World, run: Id, found: Id, key: Key)
    requires Valid(w) && run in w.runs && w.runs[run].Insert? && w.runs[run].key == key
    ensures
      var w' := ExecRun(w, run, found);
      && Valid(w') && w.db.nextId !in LiveOf(w, key) && LiveOf(w', key) == LiveOf(w, key) + {w.db.nextId}
      && Looking(w', key) == Looking(w, key) && Inserting(w', key) == Inserting(w, key) - {run}
  {
    CreatedMatching(w.db, key.browser, w.runs[run].user, key.client, key.tenant);
    assert Valid(ExecRun(w, run, found));
    if w.db.nextId in LiveOf(w, key) {
      MatchingIsStored(w.db, w.db.nextId, key.browser, key.client, key.tenant);
    }
    hide Matching, Created;
  }

  lemma OtherStep(w: World, run: Id, found: Id, key: Key)
    requires Valid(w) && run in w.runs && (w.runs[run].Done? || w.runs[run].key != key)
    ensures
      var w' := ExecRun(w, run, found);
      && Valid(w') && LiveOf(w', key) == LiveOf(w, key)
      && Looking(w', key) == Looking(w, key) && Inserting(w', key) == Inserting(w, key)
  {
    if w.runs[run].Insert? {
      var other := w.runs[run].key;
      CreatedMatching(w.db, other.browser, w.runs[run].user, other.client, other.tenant);
      assert Valid(ExecRun(w, run, found));
    }
    hide Matching, Created;
  }

  lemma EndStep(w: World, session: Id, now: nat, key: Key)
    requires Valid(w)
    ensures
      var w' := Next(w, End(session, now));
      && Valid(w') && LiveOf(w', key) == LiveOf(w, key) - {session} && w'.runs == w.runs
      && Looking(w', key) == Looking(w, key) && Inserting(w', key) == Inserting(w, key)
  {
  }

  lemma NextWithin(w: World, e: Event, key: Key, n: nat)
    requires Valid(w) && Within(w, key, n) && !e.Start?
    ensures Valid(Next(w, e)) && Within(Next(w, e), key, n)
  {
    hide Matching, LiveOf, Looking, Inserting, Created;
    if e.End? {
      EndStep(w, e.session, e.now, key);
    } else if e.run in w.runs {
      if w.runs[e.run].Done? || w.runs[e.run].key != key {
        OtherStep(w, e.run, e.found, key);
      } else if w.runs[e.run].Lookup? {
        LookupStep(w, e.run, e.found, key);
        LookupIn(w, e.run, key);
        SameDb(w, Next(w, e), key);
      } else {
        InsertStep(w, e.run, e.found, key);
        InsertIn(w, e.run, key);
      }
    }
  }

  lemma LookupIn(w: World, run: Id, key: Key)
    requires run in w.runs && w.runs[run].Lookup? && w.runs[run].key == key
    ensures run in Looking(w, key) && run !in Inserting(w, key)
  {
  }

  lemma InsertIn(w: World, run: Id, key: Key)
    requires run in w.runs && w.runs[run].Insert? && w.runs[run].key == key
    ensures run in Inserting(w, key)
  {
  }

  lemma SameDb(w: World, w': World, key: Key)
    requires w'.db == w.db
    ensures LiveOf(w', key) == LiveOf(w, key)
  {
  }

  lemma {:induction false} AfterWithin(w: World, events: seq<Event>, key: Key, n: nat)
    requires Valid(w) && Within(w, key, n) && NoStart(events)
    ensures Valid(After(w, events)) && Within(After(w, events), key, n)
  {
    if events == [] {
    } else {
      AfterWithin(w, events[..|events| - 1], key, n);
      hide Valid, Within, Next;
      NextWithin(After(w, events[..|events| - 1]), events[|events| - 1], key, n);
    }
  }

  // ---------------------------------------------------------------------
  // And how many can come
  // ---------------------------------------------------------------------

  lemma AfterOne(w: World, e: Event)
    ensures After(w, [e]) == Next(w, e)
  {
    assert [e][..0] == [];
  }

  lemma {:induction false} AfterInTwo(w: World, events: seq<Event>, more: seq<Event>)
    ensures After(w, events + more) == After(After(w, events), more)
  {
    if more == [] {
      assert events + more == events;
    } else {
      AfterInTwo(w, events, more[..|more| - 1]);
      assert (events + more)[..|events + more| - 1] == events + more[..|more| - 1];
    }
  }

  /** All the inserts to come. */
  lemma {:induction false} InsertAll(w: World, key: Key) returns (events: seq<Event>)
    requires Valid(w)
    ensures NoStart(events)
    ensures |LiveOf(After(w, events), key)| == |LiveOf(w, key)| + |Inserting(w, key)|
    decreases |Inserting(w, key)|
  {
    if Inserting(w, key) == {} {
      events := [];
    } else {
      var run :| run in Inserting(w, key);
      InsertStep(w, run, 0, key);
      AfterOne(w, Exec(run, 0));
      hide After, LiveOf, Inserting, Looking, Valid;
      var rest := InsertAll(Next(w, Exec(run, 0)), key);
      AfterInTwo(w, [Exec(run, 0)], rest);
      events := [Exec(run, 0)] + rest;
    }
  }

  /** All the live sessions end. */
  lemma {:induction false} EndEach(w: World, key: Key) returns (events: seq<Event>)
    requires Valid(w)
    ensures NoStart(events) && Valid(After(w, events)) && LiveOf(After(w, events), key) == {}
    ensures After(w, events).runs == w.runs
    decreases |LiveOf(w, key)|
  {
    if LiveOf(w, key) == {} {
      events := [];
    } else {
      var session :| session in LiveOf(w, key);
      EndStep(w, session, 0, key);
      AfterOne(w, End(session, 0));
      hide After, LiveOf, Valid;
      var rest := EndEach(Next(w, End(session, 0)), key);
      AfterInTwo(w, [End(session, 0)], rest);
      events := [End(session, 0)] + rest;
    }
  }

  /** All the calls that have not looked yet look, and find nothing. */
  lemma {:induction false} LookAll(w: World, key: Key) returns (events: seq<Event>)
    requires Valid(w) && LiveOf(w, key) == {}
    ensures
      var w' := After(w, events);
      && NoStart(events) && Valid(w') && LiveOf(w', key) == {}
      && |Inserting(w', key)| == |Looking(w, key)| + |Inserting(w, key)|
    decreases |Looking(w, key)|
  {
    if Looking(w, key) == {} {
      events := [];
    } else {
      var run :| run in Looking(w, key);
      LookupStep(w, run, 0, key);
      LookupIn(w, run, key);
      AfterOne(w, Exec(run, 0));
      hide After, Inserting, Looking, Matching;
      var rest := LookAll(Next(w, Exec(run, 0)), key);
      AfterInTwo(w, [Exec(run, 0)], rest);
      events := [Exec(run, 0)] + rest;
    }
  }

  lemma EndLookInsert(w: World, key: Key) returns (events: seq<Event>)
    requires Valid(w)
    ensures NoStart(events)
    ensures |LiveOf(After(w, events), key)| == |Looking(w, key)| + |Inserting(w, key)|
  {
    var ends := EndEach(w, key);
    var ended := After(w, ends);
    assert Looking(ended, key) == Looking(w, key) && Inserting(ended, key) == Inserting(w, key);
    hide After, LiveOf, Looking, Inserting, Valid;
    var looks := LookAll(ended, key);
    var inserts := InsertAll(After(ended, looks), key);
    AfterInTwo(w, ends, looks);
    AfterInTwo(w, ends + looks, inserts);
    events := ends + looks + inserts;
  }

  /** A browser's live sessions at a client stay within n, however the calls under way and any logouts interleave, if
      and only if the live ones and the inserts to come are within n, and so are the calls that have yet to insert. */
  lemma LiveSessionsBoundIff(w: World, key: Key, n: nat)
    requires Valid(w)
    ensures NeverMore(w, key, n) <==> Within(w, key, n)
  {
    hide After, LiveOf, Looking, Inserting, Valid;
    if Within(w, key, n) {
      forall events | NoStart(events) ensures |LiveOf(After(w, events), key)| <= n {
        AfterWithin(w, events, key, n);
      }
    } else if |LiveOf(w, key)| + |Inserting(w, key)| > n {
      var events := InsertAll(w, key);
    } else {
      var events := EndLookInsert(w, key);
    }
  }

  // With calls that start anew there is no bound.

  lemma {:induction false} StartMany(w: World, key: Key, n: nat) returns (events: seq<Event>)
    requires Valid(w)
    ensures Valid(After(w, events)) && |Looking(After(w, events), key)| == |Looking(w, key)| + n
  {
    if n == 0 {
      events := [];
    } else {
      var before := StartMany(w, key, n - 1);
      var w1 := After(w, before);
      var run := FreshIds.Above(w1.runs.Keys);
      AfterOne(w1, Start(run, key, 0));
      assert Looking(Next(w1, Start(run, key, 0)), key) == Looking(w1, key) + {run};
      AfterInTwo(w, before, [Start(run, key, 0)]);
      events := before + [Start(run, key, 0)];
    }
  }

  /** Whatever there is, enough calls that start now can open more than n live sessions. */
  lemma AnyNumberOfSessions(w: World, key: Key, n: nat) returns (events: seq<Event>)
    requires Valid(w)
    ensures |LiveOf(After(w, events), key)| > n
  {
    var starts := StartMany(w, key, n + 1);
    hide After, LiveOf, Looking, Inserting, Valid;
    var rest := EndLookInsert(After(w, starts), key);
    AfterInTwo(w, starts, rest);
    events := starts + rest;
  }
}
