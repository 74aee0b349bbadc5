/**
  Logins of one user folded into the baseline while others are: each reads the
  row, and writes what it computed from it later.
 */
module BaselineRaces {
  import opened Options
  import opened Baseline

  datatype Pc =
    | Read(login: Login)
    | Write(values: Row, login: Login)
    | Done

  /** The user's row, the running updates, the logins in the order their updates wrote, and how many had been written
      when each update read the row. */
  datatype World = World(row: Option<Row>, runs: map<Id, Pc>, written: seq<Login>, readAt: map<Id, nat>)

  datatype Event =
    | Start(run: Id, login: Login)
    | Exec(run: Id)

  /** The update leaves the peer group as it finds it. */
  function Written(row: Option<Row>, values: Row): Row {
    values.(peerGroup := if row.Some? then row.value.peerGroup else None)
  }

  function ExecRun(w: World, run: Id): World
    requires run in w.runs
  {
    match w.runs[run]
    case Read(login) =>
      w.(runs := w.runs[run := Write(Folded(w.row, login), login)], readAt := w.readAt[run := |w.written|])
    case Write(values, login) =>
      w.(row := Some(Written(w.row, values)), runs := w.runs[run := Done], written := w.written + [login])
    case Done => w
  }

  function Next(w: World, e: Event): World {
    match e
    case Start(run, login) => if run in w.runs then w else w.(runs := w.runs[run := Read(login)])
    case Exec(run) => if run in w.runs then ExecRun(w, run) else w
  }

  /** From the row there is, with no update under way. */
  function Run(row: Option<Row>, events: seq<Event>): World {
    if events == [] then World(row, map[], [], map[])
    else Next(Run(row, events[..|events| - 1]), events[|events| - 1])
  }

  /** The two statements of one update, nothing in between, fold the login into the row. */
  lemma UninterruptedIsFold(w: World, run: Id)
    requires run in w.runs && w.runs[run].Read?
    ensures
      var after := ExecRun(ExecRun(w, run), run);
      after.row == Some(Folded(w.row, w.runs[run].login)) && after.runs == w.runs[run := Done]
  {
  }

  // ---------------------------------------------------------------------
  // When the row holds all the logins
  // ---------------------------------------------------------------------

  /** An update writes although the row has been written since it read it. */
  predicate Stale(w: World, e: Event) {
    && e.Exec? && e.run in w.runs && w.runs[e.run].Write?
    && e.run in w.readAt && w.readAt[e.run] != |w.written|
  }

  ghost predicate NeverStale(row: Option<Row>, events: seq<Event>) {
    forall k :: 0 <= k < |events| ==> !Stale(Run(row, events[..k]), events[k])
  }

  function Count(row: Option<Row>): nat {
    if row.Some? then row.value.loginCount else 0
  }

  /** An update about to write has the fold of its login into the row it read, and the row is still that one unless it
      has been written since. */
  predicate WriteOk(w: World, run: Id, initial: Option<Row>, stale: bool)
    requires run in w.runs && w.runs[run].Write?
  {
    && run in w.readAt && w.readAt[run] <= |w.written|
    && w.runs[run].values.loginCount <= Count(initial) + w.readAt[run] + 1
    && (w.readAt[run] == |w.written| ==> w.runs[run].values == Folded(w.row, w.runs[run].login))
  }

  /** Before the first stale write the row is the fold of the logins written, after it at least one of them is lost. */
  ghost predicate Tracked(w: World, initial: Option<Row>, stale: bool) {
    && (if stale then Count(w.row) < Count(initial) + |w.written|
        else w.row == FoldedFrom(initial, w.written) && Count(w.row) == Count(initial) + |w.written|)
    && forall run :: run in w.runs && w.runs[run].Write? ==> WriteOk(w, run, initial, stale)
  }

  lemma FoldedSnoc(row: Option<Row>, logins: seq<Login>, login: Login)
    ensures FoldedFrom(row, logins + [login]) == Some(Folded(FoldedFrom(row, logins), login))
  {
    assert (logins + [login])[..|logins|] == logins;
  }

  lemma WriteTracked(w: World, run: Id, initial: Option<Row>, stale: bool)
    requires Tracked(w, initial, stale) && run in w.runs && w.runs[run].Write?
    ensures Tracked(ExecRun(w, run), initial, stale || Stale(w, Exec(run)))
  {
    var w' := ExecRun(w, run);
    assert WriteOk(w, run, initial, stale);
    FoldedSnoc(initial, w.written, w.runs[run].login);
    hide FoldedFrom, Merge, AddHour;
    forall q | q in w'.runs && w'.runs[q].Write?
      ensures WriteOk(w', q, initial, stale || Stale(w, Exec(run)))
    {
      assert WriteOk(w, q, initial, stale);
    }
  }

  lemma NextTracked(w: World, e: Event, initial: Option<Row>, stale: bool)
    requires Tracked(w, initial, stale)
    ensures Tracked(Next(w, e), initial, stale || Stale(w, e))
  {
    hide FoldedFrom, Merge, AddHour;
    if e.Exec? && e.run in w.runs && w.runs[e.run].Write? {
      WriteTracked(w, e.run, initial, stale);
      hide *;
    } else {
      var w' := Next(w, e);
      forall run | run in w'.runs && w'.runs[run].Write? ensures WriteOk(w', run, initial, stale) {
        assert run in w.runs && w.runs[run].Write? ==> WriteOk(w, run, initial, stale);
      }
    }
  }

  lemma NeverStaleSnoc(row: Option<Row>, events: seq<Event>)
    requires events != []
    ensures
      var most, last := events[..|events| - 1], events[|events| - 1];
      NeverStale(row, events) <==> NeverStale(row, most) && !Stale(Run(row, most), last)
  {
    hide Run, Stale;
    var most := events[..|events| - 1];
    forall k | 0 <= k < |events|
      ensures k < |most| ==> (Stale(Run(row, most[..k]), most[k]) <==> Stale(Run(row, events[..k]), events[k]))
    {
      assert k < |most| ==> most[..k] == events[..k];
    }
  }

  lemma {:induction false} RunTracked(row: Option<Row>, events: seq<Event>)
    ensures Tracked(Run(row, events), row, !NeverStale(row, events))
  {
    if events == [] {
    } else {
      RunTracked(row, events[..|events| - 1]);
      NeverStaleSnoc(row, events);
      hide Next, Tracked, NeverStale, Stale;
      NextTracked(Run(row, events[..|events| - 1]), events[|events| - 1], row,
                  !NeverStale(row, events[..|events| - 1]));
    }
  }

  /** After any number of overlapping updates the row is the fold of all the logins written, in the order of their
      writes, if and only if none of them wrote after the row had been written since its read; and the count never
      exceeds theirs. */
  lemma AllLoginsCountIff(row: Option<Row>, events: seq<Event>)
    ensures
      var w := Run(row, events);
      && (w.row == FoldedFrom(row, w.written) <==> NeverStale(row, events))
      && (Count(w.row) == Count(row) + |w.written| <==> NeverStale(row, events))
      && Count(w.row) <= Count(row) + |w.written|
  {
    RunTracked(row, events);
    FoldedCount(row, Run(row, events).written);
    hide Run;
  }

  lemma {:induction false} FoldedCount(row: Option<Row>, logins: seq<Login>)
    ensures Count(FoldedFrom(row, logins)) == Count(row) + |logins|
  {
    if logins == [] {
    } else {
      FoldedCount(row, logins[..|logins| - 1]);
    }
  }

  lemma RunSnoc(row: Option<Row>, events: seq<Event>, e: Event)
    ensures Run(row, events + [e]) == Next(Run(row, events), e)
  {
    assert (events + [e])[..|events|] == events;
  }

  /** Two updates that both read before either writes. */
  function Overlapping(first: Login, second: Login): seq<Event> {
    [Start(0, first)] + [Start(1, second)] + [Exec(0)] + [Exec(1)] + [Exec(0)] + [Exec(1)]
  }

  lemma OverlappingRun(row: Option<Row>, first: Login, second: Login)
    ensures Run(row, Overlapping(first, second)) == Next(Next(Next(Next(Next(Next(
      World(row, map[], [], map[]), Start(0, first)), Start(1, second)), Exec(0)), Exec(1)), Exec(0)), Exec(1))
  {
    hide Next;
    assert [] + [Start(0, first)] == [Start(0, first)];
    RunSnoc(row, [], Start(0, first));
    RunSnoc(row, [Start(0, first)], Start(1, second));
    RunSnoc(row, [Start(0, first)] + [Start(1, second)], Exec(0));
    RunSnoc(row, [Start(0, first)] + [Start(1, second)] + [Exec(0)], Exec(1));
    RunSnoc(row, [Start(0, first)] + [Start(1, second)] + [Exec(0)] + [Exec(1)], Exec(0));
    RunSnoc(row, [Start(0, first)] + [Start(1, second)] + [Exec(0)] + [Exec(1)] + [Exec(0)], Exec(1));
  }

  /** Two overlapping logins: the row is the fold of the second one alone. */
  lemma LoginLost(row: Option<Row>, first: Login, second: Login)
    ensures
      var w := Run(row, Overlapping(first, second));
      && w.written == [first, second] && w.row == Some(Folded(row, second)) && Count(w.row) == Count(row) + 1
  {
    OverlappingRun(row, first, second);
    hide Run, Overlapping, Merge, AddHour;
  }
}
