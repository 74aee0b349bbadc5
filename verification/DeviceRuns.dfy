/**
  One device code under any number of concurrent polls, decisions and cleanup
  runs. A poll reads the row, and writes what it computed from it later.
 */
module DeviceRuns {
  import opened Options
  import opened DeviceCodes

  datatype Pc =
    | Lookup(client: Id, tenant: Id)
    | WritePoll(newInterval: Option<nat>, at: nat, newCount: nat)
    | Claim
    | Done(answer: Answer)

  /** The row, the running polls, how many poll writes were made and how many of them were for a slow_down,
      who approved the code and which poll redeemed it, and what both numbers were when each poll read the row. */
  datatype World = World(
    row: Option<DeviceRow>, runs: map<Id, Pc>, slow: nat, polls: nat, approvedFor: Option<Id>, redeemedBy: Option<Id>,
    slowAtRead: map<Id, nat>, pollsAtRead: map<Id, nat>
  )

  datatype Event =
    | Start(run: Id, client: Id, tenant: Id)
    | Exec(run: Id, now: nat, userExists: bool)
    | Approve(user: Id, tenant: Id, now: nat)
    | Deny(tenant: Id, now: nat)
    | Clean(now: nat)

  /** What a poll does after it has read the row. */
  function AfterRead(row: DeviceRow, now: nat): Pc {
    if row.expiresAt < now then Done(Expired)
    else match row.status
      case Denied => Done(AccessDenied)
      case Redeemed => Done(AlreadyRedeemed)
      case Pending => WritePoll(if TooSoon(row, now) then Some(row.interval + 5) else None, now, row.pollCount + 1)
      case Approved => Claim
  }

  function Written(row: DeviceRow, pc: Pc): DeviceRow
    requires pc.WritePoll?
  {
    row.(interval := if pc.newInterval.Some? then pc.newInterval.value else row.interval,
         lastPolledAt := Some(pc.at), pollCount := pc.newCount)
  }

  function ClaimAnswer(row: DeviceRow, userExists: bool): Answer {
    if row.userId.None? then NotApproved
    else if !userExists then UserNotFound
    else Tokens(row.userId.value, if row.scope == "" then "openid" else row.scope)
  }

  function ExecRun(w: World, run: Id, now: nat, userExists: bool): World
    requires run in w.runs
  {
    match w.runs[run]
    case Lookup(client, tenant) =>
      var found := w.row.Some? && w.row.value.clientId == client && w.row.value.tenantId == tenant;
      w.(runs := w.runs[run := if found then AfterRead(w.row.value, now) else Done(UnknownCode)],
         slowAtRead := w.slowAtRead[run := w.slow], pollsAtRead := w.pollsAtRead[run := w.polls])
    case WritePoll(newInterval, _, _) =>
      w.(row := if w.row.Some? then Some(Written(w.row.value, w.runs[run])) else None,
         runs := w.runs[run := Done(if newInterval.Some? then SlowDown else AuthorizationPending)],
         slow := w.slow + (if newInterval.Some? then 1 else 0), polls := w.polls + 1)
    case Claim =>
      if w.row.Some? && w.row.value.status == Approved
      then w.(row := Some(w.row.value.(status := Redeemed)),
              runs := w.runs[run := Done(ClaimAnswer(w.row.value, userExists))], redeemedBy := Some(run))
      else w.(runs := w.runs[run := Done(NotApproved)])
    case Done(_) => w
  }

  predicate Open(w: World, tenant: Id, now: nat) {
    w.row.Some? && w.row.value.tenantId == tenant && w.row.value.status == Pending && now < w.row.value.expiresAt
  }

  function Next(w: World, e: Event): World {
    match e
    case Start(run, client, tenant) => if run in w.runs then w else w.(runs := w.runs[run := Lookup(client, tenant)])
    case Exec(run, now, userExists) => if run in w.runs then ExecRun(w, run, now, userExists) else w
    case Approve(user, tenant, now) =>
      if Open(w, tenant, now)
      then w.(row := Some(w.row.value.(status := Approved, userId := Some(user))), approvedFor := Some(user)) else w
    case Deny(tenant, now) => if Open(w, tenant, now) then w.(row := Some(w.row.value.(status := Denied))) else w
    case Clean(now) =>
      if w.row.Some? && (w.row.value.expiresAt < now || w.row.value.status == Redeemed) then w.(row := None) else w
  }

  function Run(issued: DeviceRow, events: seq<Event>): World {
    if events == [] then World(Some(issued), map[], 0, 0, None, None, map[], map[])
    else Next(Run(issued, events[..|events| - 1]), events[|events| - 1])
  }

  // ---------------------------------------------------------------------
  // The invariant
  // ---------------------------------------------------------------------

  ghost predicate RowOk(w: World) {
    && (w.redeemedBy.Some? ==> w.row.None? || w.row.value.status == Redeemed)
    && (w.row.Some? ==>
          && (w.row.value.status == Redeemed ==> w.redeemedBy.Some?)
          && (w.row.value.status == Approved || w.row.value.status == Redeemed ==> w.approvedFor.Some?)
          && w.row.value.userId == w.approvedFor
          && (w.row.value.status == Pending ==> w.approvedFor.None?)
          && w.row.value.interval <= 5 + 5 * w.slow
          && w.row.value.pollCount <= w.polls)
  }

  predicate PcOk(w: World, run: Id, pc: Pc) {
    match pc
    case WritePoll(newInterval, _, newCount) =>
      && run in w.pollsAtRead && run in w.slowAtRead && w.pollsAtRead[run] <= w.polls && w.slowAtRead[run] <= w.slow
      && newCount <= w.pollsAtRead[run] + 1
      && (newInterval.Some? ==> newInterval.value <= 10 + 5 * w.slowAtRead[run])
      && (w.row.Some? ==>
            && (w.pollsAtRead[run] == w.polls ==> newCount == w.row.value.pollCount + 1)
            && (newInterval.Some? && w.slowAtRead[run] == w.slow ==> newInterval.value == w.row.value.interval + 5))
    case Done(answer) => answer.Tokens? ==> w.redeemedBy == Some(run) && w.approvedFor == Some(answer.userId)
    case _ => true
  }

  ghost predicate Inv(w: World) {
    RowOk(w) && forall run :: run in w.runs ==> PcOk(w, run, w.runs[run])
  }

  lemma WriteKeepsInv(w: World, run: Id, now: nat, userExists: bool)
    requires Inv(w) && run in w.runs && w.runs[run].WritePoll?
    ensures Inv(ExecRun(w, run, now, userExists))
  {
    var w' := ExecRun(w, run, now, userExists);
    assert PcOk(w, run, w.runs[run]);
    forall q | q in w'.runs ensures PcOk(w', q, w'.runs[q]) {
      assert PcOk(w, q, w.runs[q]);
    }
  }

  lemma LookupKeepsInv(w: World, run: Id, now: nat, userExists: bool)
    requires Inv(w) && run in w.runs && w.runs[run].Lookup?
    ensures Inv(ExecRun(w, run, now, userExists))
  {
    var w' := ExecRun(w, run, now, userExists);
    forall q | q in w'.runs ensures PcOk(w', q, w'.runs[q]) {
      assert PcOk(w, q, w.runs[q]);
    }
  }

  lemma ClaimKeepsInv(w: World, run: Id, now: nat, userExists: bool)
    requires Inv(w) && run in w.runs && w.runs[run].Claim?
    ensures Inv(ExecRun(w, run, now, userExists))
  {
    var w' := ExecRun(w, run, now, userExists);
    forall q | q in w'.runs ensures PcOk(w', q, w'.runs[q]) {
      assert PcOk(w, q, w.runs[q]);
    }
  }

  lemma DoneStays(w: World, run: Id, now: nat, userExists: bool)
    requires run in w.runs && w.runs[run].Done?
    ensures ExecRun(w, run, now, userExists) == w
  {
  }

  lemma NextKeepsInv(w: World, e: Event)
    requires Inv(w)
    ensures Inv(Next(w, e))
  {
    hide ExecRun;
    if e.Exec? && e.run in w.runs {
      match w.runs[e.run]
      case Lookup(_, _) => LookupKeepsInv(w, e.run, e.now, e.userExists);
      case WritePoll(_, _, _) => WriteKeepsInv(w, e.run, e.now, e.userExists);
      case Claim => ClaimKeepsInv(w, e.run, e.now, e.userExists);
      case Done(_) => DoneStays(w, e.run, e.now, e.userExists);
    } else {
      var w' := Next(w, e);
      forall run | run in w'.runs ensures PcOk(w', run, w'.runs[run]) {
        if run in w.runs {
          assert PcOk(w, run, w.runs[run]);
        }
      }
    }
  }

  lemma {:induction false} RunInv(client: Id, tenant: Id, scope: string, start: nat, events: seq<Event>)
    ensures Inv(Run(NewCode(client, tenant, scope, start), events))
  {
    if events == [] {
    } else {
      RunInv(client, tenant, scope, start, events[..|events| - 1]);
      NextKeepsInv(Run(NewCode(client, tenant, scope, start), events[..|events| - 1]), events[|events| - 1]);
    }
  }

  // ---------------------------------------------------------------------
  // What every interleaving keeps
  // ---------------------------------------------------------------------

  /** At most one poll ever gets tokens, and they are for the user who approved. */
  lemma OneRedemption(client: Id, tenant: Id, scope: string, start: nat, events: seq<Event>, i: Id, j: Id)
    ensures
      var w := Run(NewCode(client, tenant, scope, start), events);
      && (GotTokens(w, i) && GotTokens(w, j) ==> i == j)
      && (GotTokens(w, i) ==> w.approvedFor == Some(w.runs[i].answer.userId))
  {
    RunInv(client, tenant, scope, start, events);
    var w := Run(NewCode(client, tenant, scope, start), events);
    assert i in w.runs ==> PcOk(w, i, w.runs[i]);
    assert j in w.runs ==> PcOk(w, j, w.runs[j]);
  }

  /** The poll that turns an approved code redeemed answers with tokens for the approver exactly if that user exists; a
      claim that finds the code no longer approved changes nothing and gets none. */
  lemma ClaimAnswers(w: World, run: Id, now: nat, userExists: bool)
    requires Inv(w) && run in w.runs && w.runs[run].Claim?
    ensures
      var w' := ExecRun(w, run, now, userExists);
      if w.row.Some? && w.row.value.status == Approved then
        && w'.row == Some(w.row.value.(status := Redeemed)) && w'.redeemedBy == Some(run) && w.approvedFor.Some?
        && (GotTokens(w', run) <==> userExists)
        && w'.runs[run] == Done(if !userExists then UserNotFound
                                else Tokens(w.approvedFor.value,
                                            if w.row.value.scope != "" then w.row.value.scope else "openid"))
      else w'.row == w.row && w'.redeemedBy == w.redeemedBy && w'.runs[run] == Done(NotApproved)
  {
  }

  predicate GotTokens(w: World, run: Id) {
    run in w.runs && w.runs[run].Done? && w.runs[run].answer.Tokens?
  }

  /** A poll writes its count although another poll has written since it read the row. */
  predicate StaleCount(w: World, e: Event) {
    && e.Exec? && e.run in w.runs && w.runs[e.run].WritePoll?
    && e.run in w.pollsAtRead && w.pollsAtRead[e.run] != w.polls
  }

  /** A slow_down writes its interval although another slow_down has written since it read the row. */
  predicate StaleInterval(w: World, e: Event) {
    && e.Exec? && e.run in w.runs && w.runs[e.run].WritePoll? && w.runs[e.run].newInterval.Some?
    && e.run in w.slowAtRead && w.slowAtRead[e.run] != w.slow
  }

  ghost predicate Never(issued: DeviceRow, events: seq<Event>, test: (World, Event) -> bool) {
    forall k :: 0 <= k < |events| ==> !test(Run(issued, events[..k]), events[k])
  }

  lemma NeverSnoc(issued: DeviceRow, events: seq<Event>, test: (World, Event) -> bool)
    requires events != []
    ensures
      var most := events[..|events| - 1];
      Never(issued, events, test) <==> Never(issued, most, test) && !test(Run(issued, most), events[|events| - 1])
  {
    hide Run;
    var most := events[..|events| - 1];
    forall k | 0 <= k < |events|
      ensures k < |most| ==> (test(Run(issued, most[..k]), most[k]) <==> test(Run(issued, events[..k]), events[k]))
    {
      assert k < |most| ==> most[..k] == events[..k];
    }
  }

  /** One step keeps the counts exact, or inexact, unless it is a stale write, which makes them inexact. */
  lemma CountStep(w: World, e: Event)
    requires Inv(w) && Next(w, e).row.Some?
    ensures w.row.Some?
    ensures
      var w' := Next(w, e);
      && (w'.row.value.pollCount == w'.polls <==> w.row.value.pollCount == w.polls && !StaleCount(w, e))
      && (w'.row.value.interval == 5 + 5 * w'.slow <==> w.row.value.interval == 5 + 5 * w.slow && !StaleInterval(w, e))
  {
    if e.Exec? && e.run in w.runs {
      assert PcOk(w, e.run, w.runs[e.run]);
    }
  }

  /** While the row exists its poll count is the number of polls if and only if no poll wrote after another had written
      since its read, and its interval is five more than five per slow_down if and only if no slow_down wrote after
      another slow_down had written since its read. */
  lemma {:induction false} RecordsExactIff(client: Id, tenant: Id, scope: string, start: nat, events: seq<Event>)
    ensures
      var issued := NewCode(client, tenant, scope, start);
      var w := Run(issued, events);
      w.row.Some? ==>
        && (w.row.value.pollCount == w.polls <==> Never(issued, events, StaleCount))
        && (w.row.value.interval == 5 + 5 * w.slow <==> Never(issued, events, StaleInterval))
  {
    var issued := NewCode(client, tenant, scope, start);
    if events == [] {
      assert Run(issued, events).row == Some(issued);
    } else {
      var most, last := events[..|events| - 1], events[|events| - 1];
      RunInv(client, tenant, scope, start, most);
      NeverSnoc(issued, events, StaleCount);
      NeverSnoc(issued, events, StaleInterval);
      RecordsExactIff(client, tenant, scope, start, most);
      assert Run(issued, events) == Next(Run(issued, most), last);
      hide Run, Next, Inv, Never, StaleCount, StaleInterval, NewCode;
      if Next(Run(issued, most), last).row.Some? {
        CountStep(Run(issued, most), last);
      }
    }
  }

  /** Stale writes only lose counts and intervals, they never invent any. */
  lemma RacingPollsUndercount(client: Id, tenant: Id, scope: string, start: nat, events: seq<Event>)
    ensures
      var w := Run(NewCode(client, tenant, scope, start), events);
      w.row.Some? ==> w.row.value.interval <= 5 + 5 * w.slow && w.row.value.pollCount <= w.polls
  {
    RunInv(client, tenant, scope, start, events);
  }

  // Two polls read the row before either writes.

  function TwoPolls(first: Id, second: Id, now: nat): seq<Event> {
    [Start(first, 0, 0), Start(second, 0, 0), Exec(first, now, true), Exec(second, now, true),
     Exec(first, now, true), Exec(second, now, true)]
  }

  lemma RunSnoc(issued: DeviceRow, events: seq<Event>, e: Event)
    ensures Run(issued, events + [e]) == Next(Run(issued, events), e)
  {
    assert (events + [e])[..|events|] == events;
  }

  /** A run of two overlapping polls, from wherever it starts. */
  lemma TwoPollsRun(issued: DeviceRow, events: seq<Event>, first: Id, second: Id, now: nat)
    ensures
      var w := Run(issued, events);
      Run(issued, events + TwoPolls(first, second, now)) ==
        Next(Next(Next(Next(Next(Next(w, Start(first, 0, 0)), Start(second, 0, 0)),
                            Exec(first, now, true)), Exec(second, now, true)),
                  Exec(first, now, true)), Exec(second, now, true))
  {
    hide Run, Next;
    var t := TwoPolls(first, second, now);
    assert events + t[..1] == events + [t[0]];
    RunSnoc(issued, events, t[0]);
    RunSnoc(issued, events + t[..1], t[1]);
    assert events + t[..1] + [t[1]] == events + t[..2];
    RunSnoc(issued, events + t[..2], t[2]);
    assert events + t[..2] + [t[2]] == events + t[..3];
    RunSnoc(issued, events + t[..3], t[3]);
    assert events + t[..3] + [t[3]] == events + t[..4];
    RunSnoc(issued, events + t[..4], t[4]);
    assert events + t[..4] + [t[4]] == events + t[..5];
    RunSnoc(issued, events + t[..5], t[5]);
    assert events + t[..5] + [t[5]] == events + t;
  }

  /** Two overlapping first polls are both told authorization_pending, and one of them is not counted. */
  lemma PollLost()
    ensures
      var w := Run(NewCode(0, 0, "", 0), TwoPolls(1, 2, 0));
      && w.row == Some(NewCode(0, 0, "", 0).(lastPolledAt := Some(0), pollCount := 1)) && w.polls == 2 && w.slow == 0
      && w.runs == map[1 := Done(AuthorizationPending), 2 := Done(AuthorizationPending)]
  {
    TwoPollsRun(NewCode(0, 0, "", 0), [], 1, 2, 0);
    assert [] + TwoPolls(1, 2, 0) == TwoPolls(1, 2, 0);
  }

  /** Two overlapping polls right after them are both told slow_down, and the interval grows by five only once. */
  lemma SlowDownLost()
    ensures
      var w := Run(NewCode(0, 0, "", 0), TwoPolls(1, 2, 0) + TwoPolls(3, 4, 1));
      && w.row.Some? && w.row.value.interval == 10 && w.slow == 2
      && 3 in w.runs && w.runs[3] == Done(SlowDown) && 4 in w.runs && w.runs[4] == Done(SlowDown)
  {
    PollLost();
    hide Run;
    TwoPollsRun(NewCode(0, 0, "", 0), TwoPolls(1, 2, 0), 3, 4, 1);
  }

  /** pending to approved to redeemed, or pending to denied. */
  predicate Leads(from: Status, to: Status) {
    from == to || from == Pending || (from == Approved && to == Redeemed)
  }

  /** One step either keeps the status or takes one edge of the path, whatever stale poll it writes. */
  lemma StatusStep(w: World, e: Event)
    requires w.row.Some? && Next(w, e).row.Some?
    ensures
      var from, to := w.row.value.status, Next(w, e).row.value.status;
      from == to || (from == Pending && (to == Approved || to == Denied)) || (from == Approved && to == Redeemed)
    ensures e.Exec? && w.row.value.status != Next(w, e).row.value.status ==>
      e.run in w.runs && w.runs[e.run].Claim? && w.row.value.status == Approved
  {
  }

  lemma {:induction false} StatusPath(issued: DeviceRow, events: seq<Event>, more: seq<Event>)
    requires Run(issued, events).row.Some? && Run(issued, events + more).row.Some?
    ensures Leads(Run(issued, events).row.value.status, Run(issued, events + more).row.value.status)
    decreases |more|
  {
    if more == [] {
      assert events + more == events;
    } else {
      var most := more[..|more| - 1];
      assert (events + more)[..|events + more| - 1] == events + most;
      var mid := Run(issued, events + most);
      StatusStep(mid, more[|more| - 1]);
      StatusPath(issued, events, most);
    }
  }

  /** A poll nothing comes between is the sequential device's poll. */
  lemma UninterruptedPoll(w: World, run: Id, now: nat, userExists: bool)
    requires run in w.runs && w.runs[run].Lookup? && w.row.Some?
    requires w.row.value.clientId == w.runs[run].client && w.row.value.tenantId == w.runs[run].tenant
    ensures
      var after := ExecRun(ExecRun(w, run, now, userExists), run, now, userExists);
      var (row, answer) := Polled(w.row.value, now, userExists);
      after.row == Some(row) && after.runs[run] == Done(answer)
  {
  }

  /** A poll that finds no row of its client and tenant is told so and writes nothing; another one is told what the row
      says, or goes on to write its poll or to claim the code. */
  lemma LookupAnswers(w: World, run: Id, now: nat, userExists: bool)
    requires run in w.runs && w.runs[run].Lookup?
    ensures
      var next := ExecRun(w, run, now, userExists).runs[run];
      && ExecRun(w, run, now, userExists).row == w.row
      && if w.row.None? || w.row.value.clientId != w.runs[run].client || w.row.value.tenantId != w.runs[run].tenant then
           next == Done(UnknownCode)
         else
           var row := w.row.value;
           && (row.expiresAt < now <==> next == Done(Expired))
           && (row.expiresAt >= now && row.status == Denied <==> next == Done(AccessDenied))
           && (row.expiresAt >= now && row.status == Redeemed <==> next == Done(AlreadyRedeemed))
           && (row.expiresAt >= now && row.status == Pending <==> next.WritePoll?)
           && (row.expiresAt >= now && row.status == Approved <==> next.Claim?)
  {
  }

  /** A poll a client starts for a code of another client or tenant, or a code that is gone, is told just that. */
  lemma ForeignPollUnknown(w: World, run: Id, client: Id, tenant: Id, now: nat, userExists: bool)
    requires run !in w.runs
    ensures
      var w' := Next(Next(w, Start(run, client, tenant)), Exec(run, now, userExists));
      && w'.row == w.row
      && (w'.runs[run] == Done(UnknownCode) <==>
            w.row.None? || w.row.value.clientId != client || w.row.value.tenantId != tenant)
  {
  }

  // ---------------------------------------------------------------------
  // The first decision counts
  // ---------------------------------------------------------------------

  predicate TimesInOrder(events: seq<Event>) {
    forall j, k :: 0 <= j < k < |events| && !events[j].Start? && !events[k].Start? ==> events[j].now <= events[k].now
  }

  /** The user approves or denies, in the code's tenant and before it expires. */
  predicate Decides(issued: DeviceRow, e: Event) {
    (e.Approve? || e.Deny?) && e.tenant == issued.tenantId && e.now < issued.expiresAt
  }

  function FirstDecision(issued: DeviceRow, events: seq<Event>): Option<Event> {
    if events == [] then None
    else
      var before := FirstDecision(issued, events[..|events| - 1]);
      if before.Some? || !Decides(issued, events[|events| - 1]) then before else Some(events[|events| - 1])
  }

  ghost predicate CleanedLate(issued: DeviceRow, events: seq<Event>) {
    exists k :: 0 <= k < |events| && events[k].Clean? && issued.expiresAt < events[k].now
  }

  /** What the first decision makes of the code. */
  ghost predicate DecidedBy(issued: DeviceRow, w: World, first: Option<Event>) {
    && w.approvedFor == (if first.Some? && first.value.Approve? then Some(first.value.user) else None)
    && (w.row.Some? ==>
          var row := w.row.value;
          && row.clientId == issued.clientId && row.tenantId == issued.tenantId && row.scope == issued.scope
          && row.expiresAt == issued.expiresAt
          && (row.status == Pending <==> first.None?)
          && (row.status == Denied <==> first.Some? && first.value.Deny?))
  }

  lemma DecisionStep(issued: DeviceRow, w: World, e: Event, first: Option<Event>)
    requires Inv(w) && DecidedBy(issued, w, first) && (first.Some? ==> first.value.Approve? || first.value.Deny?)
    requires w.row.None? ==> first.Some? || !Decides(issued, e)
    ensures DecidedBy(issued, Next(w, e), if first.Some? || !Decides(issued, e) then first else Some(e))
    ensures w.row.Some? && Next(w, e).row.None? ==> e.Clean? && (issued.expiresAt < e.now || first.Some?)
    ensures w.row.None? ==> Next(w, e).row.None?
  {
    if e.Exec? && e.run in w.runs { assert PcOk(w, e.run, w.runs[e.run]); }
  }

  /** In every run in order of time: the code is decided by the first approval or denial in its tenant before it
      expires, and by no other; until then it is pending, and approved for nobody. */
  lemma {:induction false} FirstDecisionCounts(client: Id, tenant: Id, scope: string, start: nat, events: seq<Event>)
    requires TimesInOrder(events)
    ensures
      var issued := NewCode(client, tenant, scope, start);
      var w, first := Run(issued, events), FirstDecision(issued, events);
      && DecidedBy(issued, w, first) && (first.Some? ==> first.value.Approve? || first.value.Deny?)
      && (w.row.None? ==> first.Some? || CleanedLate(issued, events))
  {
    var issued := NewCode(client, tenant, scope, start);
    if events == [] {
    } else {
      var most, e := events[..|events| - 1], events[|events| - 1];
      FirstDecisionCounts(client, tenant, scope, start, most);
      RunInv(client, tenant, scope, start, most);
      var w, first := Run(issued, most), FirstDecision(issued, most);
      hide Inv, Next, DecidedBy;
      if CleanedLate(issued, most) {
        CleanedBefore(issued, events);
      }
      DecisionStep(issued, w, e, first);
      if w.row.Some? && e.Clean? && issued.expiresAt < e.now {
        assert events[|events| - 1] == e;
      }
    }
  }

  lemma CleanedBefore(issued: DeviceRow, events: seq<Event>)
    requires TimesInOrder(events) && events != [] && CleanedLate(issued, events[..|events| - 1])
    ensures CleanedLate(issued, events) && !Decides(issued, events[|events| - 1])
  {
    var most := events[..|events| - 1];
    var k :| 0 <= k < |most| && most[k].Clean? && issued.expiresAt < most[k].now;
    assert events[k] == most[k];
  }

  /** The row goes exactly when a cleanup finds it expired or redeemed. */
  lemma RemovedIff(issued: DeviceRow, events: seq<Event>, e: Event)
    requires Run(issued, events).row.Some?
    ensures
      var row := Run(issued, events).row.value;
      Run(issued, events + [e]).row.None? <==> e.Clean? && (row.expiresAt < e.now || row.status == Redeemed)
  {
    RunSnoc(issued, events, e);
    hide Run;
  }
}
