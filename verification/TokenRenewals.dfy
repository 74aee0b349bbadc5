/**
  When the first-party refresh renews a token no more, whatever else is going on.
 */
module TokenRenewals {
  import opened Options
  import opened TokenTables
  import opened TokenRuns
  import opened TokenWorld
  import opened TokenInvariants
  import opened TokenTheorems
  import opened TokenRows
  import opened TokenAnswers

  /** A first-party refresh that has taken the token and has yet to revoke it and insert its renewal. */
  predicate Renewing(pc: Pc, token: Id) {
    (pc.FirstPartyAccess? || pc.FirstPartyRevoke?) && pc.id == token
  }

  /** The event renews the token: it runs the update after which the renewal is inserted. */
  predicate Renews(w: World, e: Event, token: Id) {
    e.Exec? && e.run in w.runs && w.runs[e.run].FirstPartyRevoke? && w.runs[e.run].id == token
  }

  function Renewals(events: seq<Event>, token: Id): nat {
    if events == [] then 0
    else
      Renewals(events[..|events| - 1], token)
      + if Renews(After(events[..|events| - 1]), events[|events| - 1], token) then 1 else 0
  }

  /** No continuation renews the token once more. */
  ghost predicate RenewedNoMore(events: seq<Event>, token: Id) {
    forall more :: Renewals(events + more, token) == Renewals(events, token)
  }

  /** The token is revoked or gone, and no first-party refresh has it in hand. */
  ghost predicate Spent(w: World, token: Id) {
    && token < w.db.nextId && (token in w.db.refresh ==> w.db.refresh[token].revoked)
    && forall run :: run in w.runs ==> !Renewing(w.runs[run], token)
  }

  /** Only a live token is taken. */
  lemma StepTakes(db: Db, pc: Pc, input: Input, token: Id)
    requires Renewing(Step(db, pc, input).1, token)
    ensures Renewing(pc, token) || ClaimsRefresh(db, token)
  {
    hide RevokeFamily, RevokeSessionAccess, RevokeSessionRefresh, RevokeCodeAccess, RevokeCodeRefresh,
         RevokeRefreshById, RevokeAccessById, RevokeUserAccess, RevokeUserRefresh, IssueRefresh, InsertPlainRefresh,
         InsertAccess, UpdateSession, UseCode, DeleteExpiredAccess, DeleteExpiredRefresh, DeleteExpiredCodes,
         ClaimsCode;
  }

  lemma NextSpent(w: World, e: Event, token: Id)
    requires Spent(w, token)
    ensures Spent(Next(w, e), token) && !Renews(w, e, token)
  {
    hide Step;
    if e.Exec? && e.run in w.runs {
      var pc := w.runs[e.run];
      StepRows(w.db, pc, e.input);
      if Renewing(Step(w.db, pc, e.input).1, token) {
        StepTakes(w.db, pc, e.input, token);
      }
    }
  }

  lemma RenewalsSnoc(events: seq<Event>, e: Event, token: Id)
    ensures Renewals(events + [e], token) == Renewals(events, token) + if Renews(After(events), e, token) then 1 else 0
    ensures After(events + [e]) == Next(After(events), e)
  {
    assert (events + [e])[..|events|] == events;
    hide Next, Renews;
  }

  lemma {:induction false} SpentStays(events: seq<Event>, more: seq<Event>, token: Id)
    requires Spent(After(events), token)
    ensures Spent(After(events + more), token) && Renewals(events + more, token) == Renewals(events, token)
    decreases |more|
  {
    if more == [] {
      assert events + more == events;
    } else {
      var most, last := more[..|more| - 1], more[|more| - 1];
      SpentStays(events, most, token);
      assert events + more == events + most + [last];
      hide After, Next, Spent, Renews, Renewals;
      RenewalsSnoc(events + most, last, token);
      NextSpent(After(events + most), last, token);
    }
  }

  const ACCEPTED: Input := Input(0, true, true, Off)

  /** A refresh that has the token in hand renews it, whatever has become of it. */
  lemma InHandRenews(events: seq<Event>, run: Id, token: Id) returns (more: seq<Event>)
    requires run in After(events).runs && Renewing(After(events).runs[run], token)
    ensures Renewals(events + more, token) > Renewals(events, token)
  {
    var e := Exec(run, ACCEPTED);
    var pc := After(events).runs[run];
    RenewalsSnoc(events, e, token);
    RenewalsSnoc(events + [e], e, token);
    assert events + [e] + [e] == events + [e, e];
    assert pc.FirstPartyAccess? ==> After(events + [e]).runs[run] == FirstPartyRevoke(token, pc.rt);
    more := if pc.FirstPartyAccess? then [e, e] else [e];
    hide After, Next, Renewals;
  }

  /** A live token can be taken. */
  lemma LiveRenews(events: seq<Event>, token: Id) returns (more: seq<Event>)
    requires ClaimsRefresh(After(events).db, token)
    ensures Renewals(events + more, token) > Renewals(events, token)
  {
    var run := FreshRun(After(events));
    var start, take := Start(run, FirstPartyLookup(token)), Exec(run, ACCEPTED);
    RenewalsSnoc(events, start, token);
    RenewalsSnoc(events + [start], take, token);
    var taken := events + [start] + [take];
    assert Renewing(After(taken).runs[run], token);
    hide After, Next, Renewals, Renews, Renewing;
    var rest := InHandRenews(taken, run, token);
    more := [start, take] + rest;
    assert taken + rest == events + more;
  }

  /** A token is renewed no more, in any continuation of the run, if and only if it is revoked or gone and no
      first-party refresh has it in hand. */
  lemma RenewedNoMoreIff(events: seq<Event>, token: Id)
    requires token < After(events).db.nextId
    ensures RenewedNoMore(events, token) <==> Spent(After(events), token)
  {
    hide After, Renewals;
    if Spent(After(events), token) {
      forall more ensures Renewals(events + more, token) == Renewals(events, token) {
        SpentStays(events, more, token);
      }
    } else if ClaimsRefresh(After(events).db, token) {
      var more := LiveRenews(events, token);
    } else {
      var run :| run in After(events).runs && Renewing(After(events).runs[run], token);
      var more := InHandRenews(events, run, token);
    }
  }
}
