/**
  What holds of the keys in every run, whatever the grace window: how many are
  active and next (one of each, plus what abandoned rotations leave behind and
  later boots mint), and that statuses only move forward.
 */
module KeyCounts {
  import opened SigningKeys
  import opened KeyRotation
  import opened KeyRotationLimits
  import opened Options

  // ---------------------------------------------------------------------
  // What unbalances the keys
  // ---------------------------------------------------------------------

  /** A rotation is abandoned after the promotion, before the old key is retired. */
  predicate AbandonsBeforeRetiring(w: World, step: Step) {
    step.AbortRotation? && w.rotation.Promoted?
  }

  /** A rotation is abandoned after the promotion, before a new next key is inserted. */
  predicate AbandonsBeforeInserting(w: World, step: Step) {
    step.AbortRotation? && (w.rotation.Promoted? || w.rotation.Swapped?)
  }

  /** A boot finds keys, but no next key, and mints one. */
  predicate MintsNext(w: World, step: Step) {
    step.Boot? && w.table != map[] && Kids(w.table, Next) == {}
  }

  function CountSteps(p: Params, steps: seq<Step>, test: (World, Step) -> bool): nat {
    if steps == [] then 0
    else
      CountSteps(p, steps[..|steps| - 1], test)
      + if test(Run(p, steps[..|steps| - 1]), steps[|steps| - 1]) then 1 else 0
  }

  // ---------------------------------------------------------------------
  // The counts, at every moment of a rotation
  // ---------------------------------------------------------------------

  predicate RotationKnown(w: World) {
    match w.rotation
    case Idle => true
    case Swapped => true
    case Selected(from, next, _) => from.Some? && HasStatus(w.table, from.value, Active)
        && HasStatus(w.table, next, Next)
    case Promoted(from, _) => from.Some? && HasStatus(w.table, from.value, Active)
  }

  /** `unretired` and `uninserted` rotations were abandoned and `minted` next keys came from later boots. */
  ghost predicate Tallied(w: World, unretired: nat, uninserted: nat, minted: nat) {
    && (forall kid :: kid in w.table ==> kid < w.nextKid)
    && RotationKnown(w)
    && if w.table == map[] then w.rotation.Idle? && unretired == uninserted == minted == 0
       else
         && |Kids(w.table, Active)| == 1 + unretired + (if w.rotation.Promoted? then 1 else 0)
         && |Kids(w.table, Next)|
            == 1 + minted - uninserted - (if w.rotation.Promoted? || w.rotation.Swapped? then 1 else 0)
  }

  lemma PromoteKids(table: Table, kid: Kid, at: nat)
    requires HasStatus(table, kid, Next)
    ensures |Kids(Promote(table, kid, at), Active)| == |Kids(table, Active)| + 1
    ensures |Kids(Promote(table, kid, at), Next)| == |Kids(table, Next)| - 1
  {
    assert Kids(Promote(table, kid, at), Active) == Kids(table, Active) + {kid};
    assert Kids(Promote(table, kid, at), Next) == Kids(table, Next) - {kid};
  }

  lemma RetireKids(table: Table, kid: Kid, at: nat, graceMs: nat)
    requires HasStatus(table, kid, Active)
    ensures Kids(Retire(table, kid, at, graceMs), Active) == Kids(table, Active) - {kid}
    ensures |Kids(Retire(table, kid, at, graceMs), Active)| == |Kids(table, Active)| - 1
    ensures Kids(Retire(table, kid, at, graceMs), Next) == Kids(table, Next)
  {
    assert Kids(Retire(table, kid, at, graceMs), Active) == Kids(table, Active) - {kid};
    assert forall k :: k in Kids(Retire(table, kid, at, graceMs), Next) <==> k in Kids(table, Next);
  }

  lemma DeleteExpiredKids(table: Table, cutoff: nat, status: Status)
    requires status != Retired
    ensures Kids(DeleteExpired(table, cutoff), status) == Kids(table, status)
  {
    assert forall k :: k in Kids(DeleteExpired(table, cutoff), status) <==> k in Kids(table, status);
  }

  lemma SomeKid(table: Table, kid: Kid, status: Status)
    requires HasStatus(table, kid, status)
    ensures |Kids(table, status)| > 0 && table != map[]
  {
    assert kid in Kids(table, status);
  }

  lemma NonEmpty(table: Table, status: Status)
    requires |Kids(table, status)| > 0
    ensures table != map[]
  {
    var kid :| kid in Kids(table, status);
  }

  lemma StartTallied(p: Params, w: World, step: Step, unretired: nat, uninserted: nat, minted: nat)
    requires Tallied(w, unretired, uninserted, minted) && step.StartRotation? && Enabled(p, w, step)
    ensures Tallied(Apply(p, w, step), unretired, uninserted, minted)
  {
    SomeKid(w.table, step.next, Next);
  }

  lemma PromoteTallied(p: Params, w: World, unretired: nat, uninserted: nat, minted: nat)
    requires Tallied(w, unretired, uninserted, minted) && w.rotation.Selected?
    ensures Tallied(Apply(p, w, PromoteNext), unretired, uninserted, minted)
  {
    SomeKid(w.table, w.rotation.next, Next);
    PromoteKids(w.table, w.rotation.next, w.rotation.startedAt);
    NonEmpty(Promote(w.table, w.rotation.next, w.rotation.startedAt), Active);
    hide Kids;
  }

  lemma RetireTallied(p: Params, w: World, unretired: nat, uninserted: nat, minted: nat)
    requires Tallied(w, unretired, uninserted, minted) && Enabled(p, w, RetireOld)
    ensures Tallied(Apply(p, w, RetireOld), unretired, uninserted, minted)
  {
    var from := w.rotation.oldActive.value;
    SomeKid(w.table, from, Active);
    RetireKids(w.table, from, w.rotation.startedAt, p.graceMs);
    NonEmpty(Retire(w.table, from, w.rotation.startedAt, p.graceMs), Active);
    hide Kids;
  }

  lemma InsertTallied(p: Params, w: World, r: nat, unretired: nat, uninserted: nat, minted: nat)
    requires Tallied(w, unretired, uninserted, minted) && w.rotation == Swapped
    ensures Tallied(Apply(p, w, InsertNext(r)), unretired, uninserted, minted)
  {
    InsertKids(w.table, w.nextKid, Next, w.now);
    assert w.nextKid !in Kids(w.table, Next);
  }

  lemma CleanupTallied(p: Params, w: World, cutoff: nat, unretired: nat, uninserted: nat, minted: nat)
    requires Tallied(w, unretired, uninserted, minted) && cutoff <= w.now
    ensures Tallied(Apply(p, w, Cleanup(cutoff)), unretired, uninserted, minted)
  {
    DeleteExpiredKids(w.table, cutoff, Active);
    DeleteExpiredKids(w.table, cutoff, Next);
    if w.table != map[] {
      NonEmpty(DeleteExpired(w.table, cutoff), Active);
    }
    hide Kids;
  }

  /** The first boot mints one key of each kind. */
  lemma FirstBoot(table: Table, nextKid: Kid, now: nat)
    requires table == map[]
    ensures
      var (t, k) := Initialized(table, nextKid, now);
      && Kids(t, Active) == {nextKid} && Kids(t, Next) == {nextKid + 1} && k == nextKid + 2
      && t.Keys == {nextKid, nextKid + 1}
  {
    var t1 := InsertKey(table, nextKid, Active, now);
    assert Kids(table, Active) == {} && Kids(table, Next) == {};
    InsertKids(table, nextKid, Active, now);
    InsertKids(t1, nextKid + 1, Next, now);
  }

  /** A later boot mints at most a next key. */
  lemma LaterBoot(table: Table, nextKid: Kid, now: nat)
    requires Kids(table, Active) != {} && forall kid :: kid in table ==> kid < nextKid
    ensures
      var (t, k) := Initialized(table, nextKid, now);
      && Kids(t, Active) == Kids(table, Active)
      && |Kids(t, Next)| == (if Kids(table, Next) == {} then 1 else |Kids(table, Next)|)
      && (t, k) == (if Kids(table, Next) == {} then (InsertKey(table, nextKid, Next, now), nextKid + 1)
                    else (table, nextKid))
  {
    InsertKids(table, nextKid, Next, now);
    hide Kids;
  }

  lemma BootTallied(p: Params, w: World, r: nat, unretired: nat, uninserted: nat, minted: nat)
    requires Tallied(w, unretired, uninserted, minted)
    ensures Tallied(Apply(p, w, Boot(r)), unretired, uninserted, minted + if MintsNext(w, Boot(r)) then 1 else 0)
  {
    hide Initialized, Kids;
    if w.table == map[] {
      FirstBoot(w.table, w.nextKid, w.now);
    } else {
      LaterBoot(w.table, w.nextKid, w.now);
    }
  }

  lemma AdvanceTallied(p: Params, w: World, step: Step, unretired: nat, uninserted: nat, minted: nat)
    requires Tallied(w, unretired, uninserted, minted)
    ensures
      Tallied(Advance(p, w, step), unretired + (if AbandonsBeforeRetiring(w, step) then 1 else 0),
              uninserted + (if AbandonsBeforeInserting(w, step) then 1 else 0),
              minted + (if MintsNext(w, step) then 1 else 0))
  {
    if Enabled(p, w, step) {
      match step
      case Tick(_) =>
      case ReadSigner(_, _) =>
      case CacheSigner(_, _) =>
      case Sign(_) =>
      case Verify(_, _) =>
      case StartRotation(_, _) => StartTallied(p, w, step, unretired, uninserted, minted);
      case PromoteNext => PromoteTallied(p, w, unretired, uninserted, minted);
      case RetireOld => RetireTallied(p, w, unretired, uninserted, minted);
      case InsertNext(r) => InsertTallied(p, w, r, unretired, uninserted, minted);
      case AbortRotation =>
      case Boot(r) => BootTallied(p, w, r, unretired, uninserted, minted);
      case Cleanup(cutoff) => CleanupTallied(p, w, cutoff, unretired, uninserted, minted);
    }
    hide Kids;
  }

  lemma {:induction false} RunTallied(p: Params, steps: seq<Step>)
    ensures Tallied(Run(p, steps), CountSteps(p, steps, AbandonsBeforeRetiring),
                    CountSteps(p, steps, AbandonsBeforeInserting),
                    CountSteps(p, steps, MintsNext))
  {
    if steps == [] {
      assert Run(p, steps) == Start();
    } else {
      var most, last := steps[..|steps| - 1], steps[|steps| - 1];
      RunTallied(p, most);
      AdvanceTallied(p, Run(p, most), last, CountSteps(p, most, AbandonsBeforeRetiring),
                     CountSteps(p, most, AbandonsBeforeInserting), CountSteps(p, most, MintsNext));
      hide Tallied, Advance, AbandonsBeforeRetiring, AbandonsBeforeInserting, MintsNext;
    }
  }

  /** Between rotations, once booted: one active key and one more for every rotation abandoned before it retired
      the old key; one next key, one more for every one a later boot minted, and one less for every rotation
      abandoned between promoting the next key and inserting a new one. */
  lemma KeysBetweenRotations(p: Params, steps: seq<Step>)
    requires Run(p, steps).rotation == Idle && Run(p, steps).table != map[]
    ensures
      var table := Run(p, steps).table;
      && |Kids(table, Active)| == 1 + CountSteps(p, steps, AbandonsBeforeRetiring)
      && |Kids(table, Next)| == 1 + CountSteps(p, steps, MintsNext) - CountSteps(p, steps, AbandonsBeforeInserting)
  {
    RunTallied(p, steps);
    hide Run, CountSteps, Kids;
  }

  /** Exactly one active and one next key, between rotations of a booted run, if and only if no rotation was abandoned
      before retiring and later boots minted a next key for each one abandoned before inserting, and no more. */
  lemma OneActiveOneNextIff(p: Params, steps: seq<Step>)
    requires Run(p, steps).rotation == Idle && Run(p, steps).table != map[]
    ensures
      |Kids(Run(p, steps).table, Active)| == 1 && |Kids(Run(p, steps).table, Next)| == 1 <==>
      && CountSteps(p, steps, AbandonsBeforeRetiring) == 0
      && CountSteps(p, steps, MintsNext) == CountSteps(p, steps, AbandonsBeforeInserting)
  {
    KeysBetweenRotations(p, steps);
    hide Run, CountSteps, Kids;
  }

  // ---------------------------------------------------------------------
  // Statuses
  // ---------------------------------------------------------------------

  function Rank(status: Status): nat {
    match status case Next => 0 case Active => 1 case Retired => 2
  }

  /** A statement moves a key's status at most one place along next, active, retired; only an expired retired key
      disappears, and no key number comes back. */
  lemma StatusStep(p: Params, w: World, step: Step, kid: Kid)
    requires (forall k :: k in w.table ==> k < w.nextKid) && RotationKnown(w)
    ensures
      var w' := Advance(p, w, step);
      && w.nextKid <= w'.nextKid
      && (kid in w.table ==>
            if kid in w'.table
            then Rank(w.table[kid].status) <= Rank(w'.table[kid].status) <= Rank(w.table[kid].status) + 1
            else ExpiredBefore(w.table[kid], w.now))
      && (kid !in w.table && kid < w.nextKid ==> kid !in w'.table)
  {
    BootedKeeps(w);
    BootedAdds(w);
  }

  /** A cleanup deletes exactly the retired keys that expired before its clock reading, and leaves the others as they
      are. */
  lemma CleanupRemoves(p: Params, w: World, cutoff: nat)
    requires cutoff <= w.now
    ensures
      var after := Advance(p, w, Cleanup(cutoff)).table;
      && (forall kid :: kid in after <==>
            kid in w.table
            && (w.table[kid].status == Retired ==>
                  w.table[kid].expiresAt.None? || cutoff <= w.table[kid].expiresAt.value))
      && (forall kid :: kid in after ==> after[kid] == w.table[kid])
  {
  }

  lemma BootedAdds(w: World)
    ensures w.nextKid <= Booted(w).nextKid
    ensures forall kid :: kid in Booted(w).table ==> kid in w.table || w.nextKid <= kid
  {
  }

  /** Over any continuation of any run, whatever its parameters, a key's status never moves back, and a key once deleted
      never comes back. */
  lemma {:induction false} StatusNeverFalls(p: Params, steps: seq<Step>, i: nat, j: nat, kid: Kid)
    requires i <= j <= |steps| && kid < Run(p, steps[..i]).nextKid
    ensures
      var w, w' := Run(p, steps[..i]), Run(p, steps[..j]);
      && kid < w'.nextKid
      && (kid !in w.table ==> kid !in w'.table)
      && (kid in w.table && kid in w'.table ==> Rank(w.table[kid].status) <= Rank(w'.table[kid].status))
    decreases j
  {
    hide Run, Advance;
    if i == j {
    } else {
      StatusNeverFalls(p, steps, i, j - 1, kid);
      RunTallied(p, steps[..j - 1]);
      PrefixStep(p, steps, j - 1);
      hide CountSteps;
      StatusStep(p, Run(p, steps[..j - 1]), steps[j - 1], kid);
    }
  }

  // ---------------------------------------------------------------------
  // Dates
  // ---------------------------------------------------------------------

  /** The dates of a key follow its status: made, then activated, then given an expiry. */
  predicate RowDated(row: KeyRow, now: nat) {
    && row.createdAt <= now
    && (row.activatedAt.Some? <==> row.status != Next)
    && (row.activatedAt.Some? ==> row.createdAt <= row.activatedAt.value <= now)
    && (row.expiresAt.Some? <==> row.status == Retired)
  }

  ghost predicate Dated(w: World) {
    && (forall kid :: kid in w.table ==> RowDated(w.table[kid], w.now))
    && (w.rotation.Selected? ==>
          && w.rotation.startedAt <= w.now
          && (w.rotation.next in w.table ==> w.table[w.rotation.next].createdAt <= w.rotation.startedAt))
  }

  lemma AdvanceDated(p: Params, w: World, step: Step)
    requires (forall kid :: kid in w.table ==> kid < w.nextKid) && RotationKnown(w) && Dated(w)
    ensures Dated(Advance(p, w, step))
  {
    if step.Boot? {
      BootDated(w);
    }
    hide Initialized;
  }

  lemma BootDated(w: World)
    requires (forall kid :: kid in w.table ==> kid < w.nextKid) && Dated(w)
    ensures
      var b := Booted(w);
      && (forall kid :: kid in b.table ==> RowDated(b.table[kid], w.now))
      && (forall kid :: kid in w.table ==> kid in b.table && b.table[kid] == w.table[kid])
  {
  }

  /** In every run, whatever its parameters, a key has an activation date exactly if it is or was active, and an expiry
      exactly if it is retired. */
  lemma {:induction false} KeysDated(p: Params, steps: seq<Step>)
    ensures Dated(Run(p, steps))
  {
    if steps == [] {
    } else {
      var most := steps[..|steps| - 1];
      KeysDated(p, most);
      RunTallied(p, most);
      hide Advance, Dated, CountSteps;
      AdvanceDated(p, Run(p, most), steps[|steps| - 1]);
    }
  }

  // ---------------------------------------------------------------------
  // Runs that leave other counts
  // ---------------------------------------------------------------------

  const ABANDONED: seq<Step> := [Boot(0), Boot(1), StartRotation(Some(0), 1), PromoteNext, AbortRotation]

  lemma Promotes(p: Params, steps: seq<Step>)
    requires |steps| >= 4 && steps[..4] == ABANDONED[..4]
    ensures
      var w := Run(p, steps[..4]);
      && w.now == 0 && w.nextKid == 2 && w.rotation == Promoted(Some(0), 0)
      && HasStatus(w.table, 0, Active) && Kids(w.table, Active) == {0, 1} && Kids(w.table, Next) == {}
      && (forall kid :: kid in w.table ==> kid < 2)
  {
    BootTwice(p);
    hide Run;
    assert steps[..2] == steps[..4][..2] == [Boot(0), Boot(1)];
    assert steps[2] == steps[..4][2] && steps[3] == steps[..4][3];
    PrefixStep(p, steps, 2);
    PrefixStep(p, steps, 3);
    var w := Run(p, steps[..4]);
    assert Kids(w.table, Active) == {0, 1} && Kids(w.table, Next) == {};
  }

  /** A rotation abandoned after the promotion leaves two active keys and no next key. */
  lemma AbandonedRotation(p: Params)
    ensures
      var w := Run(p, ABANDONED);
      w.rotation == Idle && Kids(w.table, Active) == {0, 1} && Kids(w.table, Next) == {}
  {
    Promotes(p, ABANDONED);
    hide Run;
    PrefixStep(p, ABANDONED, 4);
    assert ABANDONED[..5] == ABANDONED;
  }

  const RACED_BOOT: seq<Step> :=
      [Boot(0), Boot(1), StartRotation(Some(0), 1), PromoteNext, Boot(1), RetireOld, InsertNext(0)]

  lemma RacedBootMints(p: Params)
    ensures
      var w := Run(p, RACED_BOOT[..5]);
      && w.now == 0 && w.nextKid == 3 && w.rotation == Promoted(Some(0), 0)
      && HasStatus(w.table, 0, Active) && Kids(w.table, Next) == {2}
      && (forall kid :: kid in w.table ==> kid < 3)
  {
    Promotes(p, RACED_BOOT);
    hide Run;
    var w4 := Run(p, RACED_BOOT[..4]);
    assert 0 in Kids(w4.table, Active);
    InsertKids(w4.table, 2, Next, 0);
    PrefixStep(p, RACED_BOOT, 4);
  }

  /** A boot between promotion and the end of the rotation mints a second next key. */
  lemma BootInsideRotation(p: Params)
    ensures Run(p, RACED_BOOT).rotation == Idle
    ensures Kids(Run(p, RACED_BOOT).table, Next) == {2, 3}
  {
    RacedBootMints(p);
    hide Run;
    var steps := RACED_BOOT;
    var w5 := Run(p, steps[..5]);
    PrefixStep(p, steps, 5);
    RetireKids(w5.table, 0, 0, p.graceMs);
    var w6 := Run(p, steps[..6]);
    assert Kids(w6.table, Next) == {2} && w6.rotation == Swapped && 3 !in w6.table;
    PrefixStep(p, steps, 6);
    InsertKids(w6.table, 3, Next, 0);
    assert steps[..7] == steps;
  }
}
