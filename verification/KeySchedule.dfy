/**
  The rotation job over the years: one boot, then runs of the job, one after
  the other, at any times. The signing key never grows older than the rotation
  period without the next run of the job replacing it.
 */
module KeySchedule {
  import opened Options
  import opened SigningKeys

  /** When the job reads the clock, when its rotation does, and when the new key is inserted. */
  datatype Visit = Visit(now: nat, rotatedAt: nat, insertedAt: nat)

  datatype Stage = Stage(table: Table, nextKid: Kid)

  /** One active key, dated, one next key, and only used numbers. */
  ghost predicate Steady(s: Stage) {
    && (forall kid :: kid in s.table ==> kid < s.nextKid)
    && |Kids(s.table, Active)| == 1 && |Kids(s.table, Next)| == 1
    && forall kid :: HasStatus(s.table, kid, Active) ==> s.table[kid].activatedAt.Some?
  }

  /** What one run of the job does, by its contract. */
  ghost predicate Visited(before: Stage, v: Visit, rotated: Option<bool>, after: Stage) {
    && JobRan(before.table, before.nextKid, after.table, rotated, v.now, v.rotatedAt, v.insertedAt)
    && (rotated != Some(true) ==> after == before)
    && (rotated == Some(true) ==> after.nextKid == before.nextKid + 1)
  }

  lemma OnlyKid(table: Table, status: Status, a: Kid, b: Kid)
    requires |Kids(table, status)| == 1 && HasStatus(table, a, status) && HasStatus(table, b, status)
    ensures a == b
  {
    assert |Kids(table, status) - {a}| == 0;
    assert b !in Kids(table, status) - {a};
  }

  lemma SomeKid(table: Table, status: Status) returns (kid: Kid)
    requires |Kids(table, status)| == 1
    ensures HasStatus(table, kid, status) && Kids(table, status) == {kid}
  {
    kid :| kid in Kids(table, status);
    forall other | other in Kids(table, status) ensures other == kid {
      OnlyKid(table, status, kid, other);
    }
  }

  /** A table with one active key and a next key: the job rotates if and only if the active key was activated at least
      90 days ago, and it never fails. */
  lemma RotatesIffDue(before: Stage, v: Visit, rotated: Option<bool>, after: Stage, active: Kid)
    requires Steady(before) && Visited(before, v, rotated, after) && HasStatus(before.table, active, Active)
    ensures rotated == Some(before.table[active].activatedAt.value + 7_776_000_000 <= v.now)
  {
    var next := SomeKid(before.table, Next);
    forall kid | HasStatus(before.table, kid, Active) ensures kid == active {
      OnlyKid(before.table, Active, kid, active);
    }
    assert active in Kids(before.table, Active) && next in Kids(before.table, Next);
  }

  lemma RotationKids(before: Stage, after: Table, active: Kid, next: Kid, now: nat, expiry: nat, insertedAt: nat)
    requires Steady(before) && HasStatus(before.table, active, Active) && HasStatus(before.table, next, Next)
    requires RotatedRows(before.table, after, next, Some(active), before.nextKid, now, expiry, insertedAt)
    ensures Kids(after, Active) == {next} && Kids(after, Next) == {before.nextKid}
  {
    forall kid | kid in after ensures kid in Kids(after, Active) <==> kid == next {
      if HasStatus(before.table, kid, Active) { OnlyKid(before.table, Active, kid, active); }
    }
    forall kid | kid in after ensures kid in Kids(after, Next) <==> kid == before.nextKid {
      if HasStatus(before.table, kid, Next) { OnlyKid(before.table, Next, kid, next); }
    }
  }

  /** The job keeps one active and one next key, and leaves no active key activated 90 days or more before its clock
      readings. */
  lemma VisitSteady(before: Stage, v: Visit, rotated: Option<bool>, after: Stage)
    requires Steady(before) && Visited(before, v, rotated, after) && v.now <= v.rotatedAt
    ensures Steady(after)
    ensures forall kid :: HasStatus(after.table, kid, Active) ==> !Overdue(after.table, kid, v.now)
  {
    var active := SomeKid(before.table, Active);
    RotatesIffDue(before, v, rotated, after, active);
    if rotated == Some(true) {
      var was, next :| HasStatus(before.table, was, Active) && HasStatus(before.table, next, Next)
        && RotatedRows(before.table, after.table, next, Some(was), before.nextKid, v.rotatedAt,
                       v.rotatedAt + 86_400_000, v.insertedAt);
      RotationKids(before, after.table, was, next, v.rotatedAt, v.rotatedAt + 86_400_000, v.insertedAt);
      assert forall kid :: HasStatus(after.table, kid, Active) ==> kid in Kids(after.table, Active);
    } else {
      assert forall kid :: HasStatus(after.table, kid, Active) ==> kid in Kids(after.table, Active);
    }
  }

  /** A boot of the empty table, and then the stages the visits of the job lead to. */
  ghost predicate Schedule(bootedAt: nat, visits: seq<Visit>, answers: seq<Option<bool>>, stages: seq<Stage>) {
    && |stages| == |visits| + 1 == |answers| + 1
    && (stages[0].table, stages[0].nextKid) == Initialized(map[], 0, bootedAt)
    && (forall k :: 0 <= k < |visits| ==> visits[k].now <= visits[k].rotatedAt)
    && (forall k :: 0 <= k < |visits| ==> Visited(stages[k], visits[k], answers[k], stages[k + 1]))
  }

  lemma BootSteady(bootedAt: nat)
    ensures
      var (table, nextKid) := Initialized(map[], 0, bootedAt);
      && Steady(Stage(table, nextKid))
      && forall kid :: HasStatus(table, kid, Active) ==> table[kid].activatedAt == Some(bootedAt)
  {
    var (table, nextKid) := Initialized(map[], 0, bootedAt);
    assert table == map[0 := KeyRow(Active, bootedAt, Some(bootedAt), None), 1 := KeyRow(Next, bootedAt, None, None)];
    assert Kids(table, Active) == {0} && Kids(table, Next) == {1};
  }

  lemma {:induction false} AlwaysSteady(bootedAt: nat, visits: seq<Visit>, answers: seq<Option<bool>>,
                                        stages: seq<Stage>, k: nat)
    requires Schedule(bootedAt, visits, answers, stages) && k <= |visits|
    ensures Steady(stages[k])
  {
    if k == 0 {
      BootSteady(bootedAt);
    } else {
      AlwaysSteady(bootedAt, visits, answers, stages, k - 1);
      hide Steady, Visited, Initialized;
      assert Visited(stages[k - 1], visits[k - 1], answers[k - 1], stages[k]);
      VisitSteady(stages[k - 1], visits[k - 1], answers[k - 1], stages[k]);
    }
  }

  /** However often and whenever the job runs after a boot: it rotates exactly when the one active key is 90 days old,
      and after every run there are one active key, younger than that, and one next key. */
  lemma NeverOverdue(bootedAt: nat, visits: seq<Visit>, answers: seq<Option<bool>>, stages: seq<Stage>, k: nat)
    requires Schedule(bootedAt, visits, answers, stages) && k < |visits|
    ensures
      var before := stages[k].table;
      forall kid :: HasStatus(before, kid, Active) ==>
        && before[kid].activatedAt.Some?
        && answers[k] == Some(before[kid].activatedAt.value + 7_776_000_000 <= visits[k].now)
    ensures
      var after := stages[k + 1].table;
      && |Kids(after, Active)| == 1 && |Kids(after, Next)| == 1
      && forall kid :: HasStatus(after, kid, Active) ==>
           after[kid].activatedAt.Some? && visits[k].now < after[kid].activatedAt.value + 7_776_000_000
  {
    AlwaysSteady(bootedAt, visits, answers, stages, k);
    hide Kids, Initialized, JobRan;
    assert Visited(stages[k], visits[k], answers[k], stages[k + 1]);
    VisitSteady(stages[k], visits[k], answers[k], stages[k + 1]);
    forall kid | HasStatus(stages[k].table, kid, Active)
      ensures answers[k] == Some(stages[k].table[kid].activatedAt.value + 7_776_000_000 <= visits[k].now)
    {
      RotatesIffDue(stages[k], visits[k], answers[k], stages[k + 1], kid);
    }
  }
}
