/**
  The behaviour baseline of a user: folded in login by login, and recomputed
  nightly from the login events.
 */
module Baseline {
  import opened Options
  import opened JsText

  type Id = nat

  const LIST_CAP: nat := 20

  /** A login as both forms read it. The user may be missing in the event table. */
  datatype Login = Login(
    userId: Option<Id>, tenantId: Id, country: Option<string>, asn: Option<string>, device: Option<string>, hour: nat
  )

  datatype Row = Row(
    tenantId: Id, countries: seq<string>, asns: seq<string>, devices: seq<string>, hours: seq<nat>, loginCount: nat,
    peerGroup: Option<Id>
  )

  /** Neither null nor empty. */
  predicate Given(value: Option<string>) {
    value.Some? && value.value != ""
  }

  function LastCap<T>(list: seq<T>): (r: seq<T>)
    ensures |r| <= LIST_CAP
  {
    if |list| <= LIST_CAP then list else list[|list| - LIST_CAP..]
  }

  // ---------------------------------------------------------------------
  // One login at a time
  // ---------------------------------------------------------------------

  /** mergeCapped */
  function Merge(list: seq<string>, value: Option<string>): seq<string> {
    if !Given(value) || value.value in list then list else LastCap(list + [value.value])
  }

  function AddHour(hours: seq<nat>, hour: nat): seq<nat> {
    if hour in hours then hours else hours + [hour]
  }

  function Folded(row: Option<Row>, login: Login): Row {
    var r := if row.Some? then row.value else Row(login.tenantId, [], [], [], [], 0, None);
    Row(login.tenantId, Merge(r.countries, login.country), Merge(r.asns, login.asn), Merge(r.devices, login.device),
        AddHour(r.hours, login.hour), r.loginCount + 1, r.peerGroup)
  }

  /** The row after a user's logins, folded in one by one. */
  function FoldedFrom(row: Option<Row>, logins: seq<Login>): Option<Row> {
    if logins == [] then row else Some(Folded(FoldedFrom(row, logins[..|logins| - 1]), logins[|logins| - 1]))
  }

  function Incremental(history: seq<Login>): Option<Row> {
    FoldedFrom(None, history)
  }

  // ---------------------------------------------------------------------
  // The nightly recompute
  // ---------------------------------------------------------------------

  /** A user's bucket; a list stands for a JavaScript Set in insertion order. */
  datatype Bucket = Bucket(
    tenantId: Id, countries: seq<string>, asns: seq<string>, devices: seq<string>, hours: seq<nat>, count: nat
  )

  /** if (value) set.add(value) */
  function Insert(list: seq<string>, value: Option<string>): seq<string> {
    if !Given(value) || value.value in list then list else list + [value.value]
  }

  function Filled(bucket: Option<Bucket>, login: Login): Bucket {
    var b := if bucket.Some? then bucket.value else Bucket(login.tenantId, [], [], [], [], 0);
    Bucket(b.tenantId, Insert(b.countries, login.country), Insert(b.asns, login.asn), Insert(b.devices, login.device),
           AddHour(b.hours, login.hour), b.count + 1)
  }

  function BucketOf(history: seq<Login>): Option<Bucket> {
    if history == [] then None else Some(Filled(BucketOf(history[..|history| - 1]), history[|history| - 1]))
  }

  function RowOf(b: Bucket, peerGroup: Option<Id>): Row {
    Row(b.tenantId, LastCap(b.countries), LastCap(b.asns), LastCap(b.devices), b.hours, b.count, peerGroup)
  }

  /** A row of login_events. */
  datatype Event = Event(login: Login, success: bool, createdAt: int)

  const LOOKBACK_MS: nat := 90 * 24 * 60 * 60 * 1000

  /** The job's query: successful logins of the last 90 days. */
  function Queried(events: seq<Event>, since: int): (logins: seq<Login>)
    ensures forall login :: login in logins ==>
        exists e :: e in events && e.success && e.createdAt >= since && e.login == login
  {
    if events == [] then [] else
      var last := events[|events| - 1];
      Queried(events[..|events| - 1], since) + (if last.success && last.createdAt >= since then [last.login] else [])
  }

  /** The query keeps the order of the events, and each event by itself: exactly the successful logins since then. */
  lemma {:induction false} QueriedInTwo(a: seq<Event>, b: seq<Event>, since: int)
    ensures Queried(a + b, since) == Queried(a, since) + Queried(b, since)
  {
    if b == [] {
      assert a + b == a && Queried(a, since) + [] == Queried(a, since);
    } else {
      QueriedInTwo(a, b[..|b| - 1], since);
      assert (a + b)[..|a + b| - 1] == a + b[..|b| - 1];
    }
  }

  lemma QueriedOne(e: Event, now: int)
    ensures Queried([e], now - LOOKBACK_MS) == if e.success && now - e.createdAt <= 7_776_000_000 then [e.login] else []
  {
  }

  /** The first group of the user's memberships. */
  function FirstGroup(memberships: seq<(Id, Id)>, user: Id): Option<Id> {
    if memberships == [] then None
    else if memberships[0].0 == user then Some(memberships[0].1)
    else FirstGroup(memberships[1..], user)
  }

  /** The group of the first membership that names the user, and none without one. */
  lemma {:induction false} FirstGroupIs(memberships: seq<(Id, Id)>, user: Id, group: Option<Id>)
    ensures FirstGroup(memberships, user) == group <==>
      if group.None? then forall k :: 0 <= k < |memberships| ==> memberships[k].0 != user
      else exists k :: 0 <= k < |memberships| && memberships[k] == (user, group.value)
                       && forall j :: 0 <= j < k ==> memberships[j].0 != user
    decreases |memberships|
  {
    if memberships == [] {
    } else {
      FirstGroupIs(memberships[1..], user, group);
      assert forall k :: 1 <= k < |memberships| ==> memberships[k] == memberships[1..][k - 1];
      if memberships[0].0 != user && group.Some? {
        forall k | 0 <= k < |memberships[1..]| && memberships[1..][k] == (user, group.value)
          && (forall j :: 0 <= j < k ==> memberships[1..][j].0 != user)
          ensures forall j :: 0 <= j < k + 1 ==> memberships[j].0 != user
        {
          assert forall j :: 1 <= j < k + 1 ==> memberships[j] == memberships[1..][j - 1];
        }
      }
    }
  }

  function GroupIn(groups: map<Id, Id>, user: Id): Option<Id> {
    if user in groups then Some(groups[user]) else None
  }

  function OfUser(logins: seq<Login>, user: Id): seq<Login> {
    if logins == [] then [] else
      OfUser(logins[..|logins| - 1], user)
      + (if logins[|logins| - 1].userId == Some(user) then [logins[|logins| - 1]] else [])
  }

  predicate HasLogin(logins: seq<Login>, user: Id) {
    OfUser(logins, user) != []
  }

  class BaselineTable {
    var rows: map<Id, Row>

    constructor ()
      ensures rows == map[]
    {
      rows := map[];
    }

    /** updateBaseline */
    method UpdateBaseline(user: Id, login: Login)
      modifies this
      ensures rows == old(rows)[user := Folded(if user in old(rows) then Some(old(rows)[user]) else None, login)]
    {
      var existing := if user in rows then Some(rows[user]) else None;
      var countries := if existing.Some? then existing.value.countries else [];
      var asns := if existing.Some? then existing.value.asns else [];
      var devices := if existing.Some? then existing.value.devices else [];
      var usualHours := if existing.Some? then existing.value.hours else [];
      var nextHours := if login.hour in usualHours then usualHours else usualHours + [login.hour];
      rows := rows[user := Row(login.tenantId, Merge(countries, login.country), Merge(asns, login.asn),
                               Merge(devices, login.device), nextHours,
                               (if existing.Some? then existing.value.loginCount else 0) + 1,
                               if existing.Some? then existing.value.peerGroup else None)];
    }

    /** runUebaBaselineJob */
    method Recompute(events: seq<Event>, memberships: seq<(Id, Id)>, now: int) returns (processed: nat)
      modifies this
      ensures
        var buckets := Buckets(Queried(events, now - LOOKBACK_MS));
        rows == Overwritten(old(rows), buckets, memberships) && processed == |buckets|
    {
      hide *;
      var byUser := FillBuckets(Queried(events, now - LOOKBACK_MS));
      var peerGroups := LoadPeerGroups(memberships, byUser.Keys);
      processed := 0;
      var left := byUser.Keys;
      ghost var was := rows;
      ghost var done: set<Id> := {};
      OverwrittenBy(was, byUser, memberships, done);
      while left != {}
        invariant done !! left && done + left == byUser.Keys && processed == |done|
        invariant rows == Overwritten(was, Part(byUser, done), memberships)
        decreases left
      {
        var user :| user in left;
        OneMore(was, byUser, memberships, done, user);
        left := left - {user};
        done := done + {user};
        rows := rows[user := RowOf(byUser[user], GroupIn(peerGroups, user))];
        processed := processed + 1;
      }
      assert done == byUser.Keys;
      WholePart(byUser);
    }

    /** loadPeerGroups: the first group listed for each of the users. */
    method LoadPeerGroups(memberships: seq<(Id, Id)>, users: set<Id>) returns (groups: map<Id, Id>)
      ensures forall user :: user in users ==> GroupIn(groups, user) == FirstGroup(memberships, user)
    {
      groups := map[];
      var k := 0;
      assert memberships[0..] == memberships;
      while k < |memberships|
        invariant 0 <= k <= |memberships|
        invariant forall user :: user in users ==>
          FirstGroup(memberships, user)
              == (if user in groups then Some(groups[user]) else FirstGroup(memberships[k..], user))
      {
        var (user, group) := memberships[k];
        assert memberships[k..][1..] == memberships[k + 1..];
        if user in users && user !in groups {
          groups := groups[user := group];
        }
        k := k + 1;
      }
    }

    /** The job's first loop. */
    method FillBuckets(logins: seq<Login>) returns (byUser: map<Id, Bucket>)
      ensures byUser == Buckets(logins)
    {
      byUser := map[];
      hide Filled;
      var k := 0;
      while k < |logins|
        invariant 0 <= k <= |logins|
        invariant byUser == Buckets(logins[..k])
      {
        var row := logins[k];
        assert logins[..k + 1][..k] == logins[..k];
        if row.userId.Some? {
          var id := row.userId.value;
          byUser := byUser[id := Filled(if id in byUser then Some(byUser[id]) else None, row)];
        }
        k := k + 1;
      }
      assert logins[..k] == logins;
    }
  }

  function Buckets(logins: seq<Login>): map<Id, Bucket> {
    if logins == [] then map[] else
      var before, last := Buckets(logins[..|logins| - 1]), logins[|logins| - 1];
      if last.userId.None? then before
      else
        before[last.userId.value :=
                 Filled(if last.userId.value in before then Some(before[last.userId.value]) else None, last)]
  }

  function Overwritten(rows: map<Id, Row>, buckets: map<Id, Bucket>, memberships: seq<(Id, Id)>): map<Id, Row> {
    rows + map user | user in buckets :: RowOf(buckets[user], FirstGroup(memberships, user))
  }

  ghost function Part(buckets: map<Id, Bucket>, users: set<Id>): map<Id, Bucket> {
    map user | user in users && user in buckets :: buckets[user]
  }

  lemma OverwrittenBy(rows: map<Id, Row>, buckets: map<Id, Bucket>, memberships: seq<(Id, Id)>, none: set<Id>)
    requires none == {}
    ensures Overwritten(rows, Part(buckets, none), memberships) == rows
  {
  }

  lemma OneMore(rows: map<Id, Row>, buckets: map<Id, Bucket>, memberships: seq<(Id, Id)>, users: set<Id>, user: Id)
    requires user in buckets
    ensures Overwritten(rows, Part(buckets, users + {user}), memberships)
         == Overwritten(rows, Part(buckets, users), memberships)[
              user := RowOf(buckets[user], FirstGroup(memberships, user))]
  {
    hide RowOf, FirstGroup;
  }

  lemma WholePart(buckets: map<Id, Bucket>)
    ensures Part(buckets, buckets.Keys) == buckets
  {
  }

  /** Each user's bucket comes from that user's logins alone. */
  lemma {:induction false} BucketsSeparate(logins: seq<Login>, user: Id)
    ensures (if user in Buckets(logins) then Some(Buckets(logins)[user]) else None) == BucketOf(OfUser(logins, user))
  {
    if logins == [] {
    } else {
      hide Filled;
      var before := OfUser(logins[..|logins| - 1], user);
      BucketsSeparate(logins[..|logins| - 1], user);
      assert (before + [logins[|logins| - 1]])[..|before|] == before;
      assert before + [] == before;
    }
  }

  /** After the nightly job every user with a successful login in the last 90 days has the row of a recompute of those
      logins and the first of the user's groups; other rows stay. */
  lemma JobPerUser(rows: map<Id, Row>, events: seq<Event>, memberships: seq<(Id, Id)>, now: int, user: Id)
    ensures
      var logins := Queried(events, now - 7_776_000_000);
      var after := Overwritten(rows, Buckets(Queried(events, now - LOOKBACK_MS)), memberships);
      if HasLogin(logins, user) then user in after
          && Some(after[user]) == Batch(OfUser(logins, user), FirstGroup(memberships, user))
      else (user in after <==> user in rows) && (user in rows ==> after[user] == rows[user])
  {
    BucketsSeparate(Queried(events, now - LOOKBACK_MS), user);
    hide RowOf, Filled, FirstGroup, Queried;
  }

  /** The nightly recompute of one user's logins. */
  function Batch(history: seq<Login>, peerGroup: Option<Id>): Option<Row> {
    var b := BucketOf(history);
    if b.Some? then Some(RowOf(b.value, peerGroup)) else None
  }

  // ---------------------------------------------------------------------
  // One list under both
  // ---------------------------------------------------------------------

  function MergedFrom(list: seq<string>, values: seq<Option<string>>): seq<string> {
    if values == [] then list else Merge(MergedFrom(list, values[..|values| - 1]), values[|values| - 1])
  }

  function InsertedFrom(list: seq<string>, values: seq<Option<string>>): seq<string> {
    if values == [] then list else Insert(InsertedFrom(list, values[..|values| - 1]), values[|values| - 1])
  }

  function Merged(values: seq<Option<string>>): seq<string> {
    MergedFrom([], values)
  }

  /** The distinct values in the order first seen. */
  function Inserted(values: seq<Option<string>>): seq<string> {
    InsertedFrom([], values)
  }

  /** The value was seen before, but the cap has pushed it out of the list. */
  predicate Returns(seen: seq<string>, value: Option<string>) {
    Given(value) && value.value in seen && value.value !in LastCap(seen)
  }

  /** None of the values returns, when `seen` have been seen before. */
  predicate NoReturnAfter(seen: seq<string>, values: seq<Option<string>>) {
    forall k :: 0 <= k < |values| ==> !Returns(InsertedFrom(seen, values[..k]), values[k])
  }

  predicate NoReturn(values: seq<Option<string>>) {
    NoReturnAfter([], values)
  }

  predicate Distinct(list: seq<string>) {
    forall i, j :: 0 <= i < j < |list| ==> list[i] != list[j]
  }

  /** From a list on which both agree, one more login keeps them agreeing exactly when its value is not one
      that was seen and pushed out. */
  lemma StaysEqualIff(seen: seq<string>, value: Option<string>)
    ensures Merge(LastCap(seen), value) == LastCap(Insert(seen, value)) <==> !Returns(seen, value)
  {
    var list := LastCap(seen);
    if Given(value) && value.value !in list {
      var merged := list + [value.value];
      assert LastCap(merged)[|LastCap(merged)| - 1] == value.value;
      if value.value !in seen {
        assert LastCap(merged) == LastCap(seen + [value.value]);
      } else {
        assert |list| == LIST_CAP && value.value !in list;
        assert list[|list| - 1] in list;
      }
    } else if Given(value) {
      assert value.value in seen;
    }
  }

  lemma {:induction false} ListsEqualAfter(seen: seq<string>, values: seq<Option<string>>)
    requires NoReturnAfter(seen, values)
    ensures MergedFrom(LastCap(seen), values) == LastCap(InsertedFrom(seen, values))
  {
    if values == [] {
    } else {
      var most := values[..|values| - 1];
      assert forall k :: 0 <= k < |most| ==> most[..k] == values[..k];
      assert NoReturnAfter(seen, most);
      ListsEqualAfter(seen, most);
      StaysEqualIff(InsertedFrom(seen, most), values[|values| - 1]);
    }
  }

  /** The fold and the recompute agree after every prefix of the values. */
  ghost predicate AgreeThroughout(seen: seq<string>, values: seq<Option<string>>) {
    forall k :: 0 <= k <= |values| ==>
        MergedFrom(LastCap(seen), values[..k]) == LastCap(InsertedFrom(seen, values[..k]))
  }

  lemma AgreeSnoc(seen: seq<string>, values: seq<Option<string>>)
    requires values != []
    ensures AgreeThroughout(seen, values) <==>
      && AgreeThroughout(seen, values[..|values| - 1])
      && MergedFrom(LastCap(seen), values) == LastCap(InsertedFrom(seen, values))
  {
    hide MergedFrom, InsertedFrom, LastCap;
    var most := values[..|values| - 1];
    assert forall k :: 0 <= k <= |most| ==> most[..k] == values[..k];
    assert values[..|values|] == values;
  }

  lemma NoReturnSnoc(seen: seq<string>, values: seq<Option<string>>)
    requires values != []
    ensures
      var most := values[..|values| - 1];
      NoReturnAfter(seen, values) <==>
        NoReturnAfter(seen, most) && !Returns(InsertedFrom(seen, most), values[|values| - 1])
  {
    hide InsertedFrom, Returns;
    var most := values[..|values| - 1];
    assert forall k :: 0 <= k <= |most| ==> most[..k] == values[..k];
  }

  /** They agree throughout if and only if none of the values returns after the cap has pushed it out. */
  lemma {:induction false} AgreeThroughoutIff(seen: seq<string>, values: seq<Option<string>>)
    ensures AgreeThroughout(seen, values) <==> NoReturnAfter(seen, values)
  {
    if values == [] {
      assert values[..0] == [];
    } else {
      var most, last := values[..|values| - 1], values[|values| - 1];
      hide AgreeThroughout, NoReturnAfter, Returns, LastCap, Merge, Insert;
      AgreeThroughoutIff(seen, most);
      AgreeSnoc(seen, values);
      NoReturnSnoc(seen, values);
      if NoReturnAfter(seen, most) {
        ListsEqualAfter(seen, most);
        StaysEqualIff(InsertedFrom(seen, most), last);
      }
    }
  }

  lemma {:induction false} InsertedInTwo(first: seq<Option<string>>, more: seq<Option<string>>)
    ensures Inserted(first + more) == InsertedFrom(Inserted(first), more)
  {
    if more == [] {
      assert first + more == first;
    } else {
      InsertedInTwo(first, more[..|more| - 1]);
      assert (first + more)[..|first + more| - 1] == first + more[..|more| - 1];
    }
  }

  lemma {:induction false} InsertedGrows(values: seq<Option<string>>, k: nat)
    requires k <= |values|
    ensures |Inserted(values[..k])| <= |Inserted(values)|
  {
    if k < |values| {
      InsertedGrows(values[..|values| - 1], k);
      assert values[..|values| - 1][..k] == values[..k];
    } else {
      assert values[..k] == values;
    }
  }

  /** With at most twenty different values nothing is ever pushed out. */
  lemma FewValuesNoReturn(values: seq<Option<string>>)
    requires |Inserted(values)| <= LIST_CAP
    ensures NoReturn(values)
  {
    forall k | 0 <= k < |values| ensures !Returns(Inserted(values[..k]), values[k]) {
      InsertedGrows(values, k);
    }
  }

  /** No duplicates, at most twenty entries, none empty and none but the values, the latest among them. */
  ghost predicate KeepsLatest(list: seq<string>, values: seq<Option<string>>) {
    && Distinct(list) && |list| <= 20
    && (forall v :: v in list ==> v != "" && Some(v) in values)
    && (values != [] && values[|values| - 1] != None && values[|values| - 1] != Some("") ==>
          values[|values| - 1].value in list)
  }

  lemma MergeKeeps(list: seq<string>, values: seq<Option<string>>, last: Option<string>)
    requires KeepsLatest(list, values)
    ensures KeepsLatest(Merge(list, last), values + [last])
  {
    var merged, all := Merge(list, last), values + [last];
    assert all[|all| - 1] == last;
    forall v | v in merged ensures v != "" && Some(v) in all {
      if v in list {
        assert Some(v) in values;
      } else {
        assert v in list + [last.value] && last in all;
      }
    }
    if Given(last) && last.value !in list {
      assert merged[|merged| - 1] == last.value;
    }
  }

  lemma {:induction false} MergedKeeps(values: seq<Option<string>>)
    ensures KeepsLatest(Merged(values), values)
  {
    if values == [] {
    } else {
      MergedKeeps(values[..|values| - 1]);
      hide KeepsLatest, Merge;
      MergeKeeps(Merged(values[..|values| - 1]), values[..|values| - 1], values[|values| - 1]);
      assert values == values[..|values| - 1] + [values[|values| - 1]];
    }
  }

  // ---------------------------------------------------------------------
  // Whole rows
  // ---------------------------------------------------------------------

  function Countries(history: seq<Login>): seq<Option<string>> {
    seq(|history|, k requires 0 <= k < |history| => history[k].country)
  }

  function Asns(history: seq<Login>): seq<Option<string>> {
    seq(|history|, k requires 0 <= k < |history| => history[k].asn)
  }

  function Devices(history: seq<Login>): seq<Option<string>> {
    seq(|history|, k requires 0 <= k < |history| => history[k].device)
  }

  function HoursFrom(hours: seq<nat>, history: seq<Login>): seq<nat> {
    if history == [] then hours else AddHour(HoursFrom(hours, history[..|history| - 1]), history[|history| - 1].hour)
  }

  function Hours(history: seq<Login>): seq<nat> {
    HoursFrom([], history)
  }

  /** The lists a row starts from. */
  function Lists(row: Option<Row>): Row {
    if row.Some? then row.value else Row(0, [], [], [], [], 0, None)
  }

  lemma {:induction false} FoldedIs(row: Option<Row>, logins: seq<Login>)
    requires logins != []
    ensures FoldedFrom(row, logins) ==
      Some(Row(logins[|logins| - 1].tenantId, MergedFrom(Lists(row).countries, Countries(logins)),
               MergedFrom(Lists(row).asns, Asns(logins)), MergedFrom(Lists(row).devices, Devices(logins)),
               HoursFrom(Lists(row).hours, logins), Lists(row).loginCount + |logins|, Lists(row).peerGroup))
  {
    var most := logins[..|logins| - 1];
    assert Countries(logins)[..|logins| - 1] == Countries(most);
    assert Asns(logins)[..|logins| - 1] == Asns(most);
    assert Devices(logins)[..|logins| - 1] == Devices(most);
    if most == [] {
    } else {
      FoldedIs(row, most);
      hide Merge, AddHour;
    }
  }

  lemma {:induction false} BucketIs(history: seq<Login>)
    requires history != []
    ensures BucketOf(history) ==
      Some(Bucket(history[0].tenantId, InsertedFrom([], Countries(history)), InsertedFrom([], Asns(history)),
                  InsertedFrom([], Devices(history)), HoursFrom([], history), |history|))
  {
    var most := history[..|history| - 1];
    assert Countries(history)[..|history| - 1] == Countries(most);
    assert Asns(history)[..|history| - 1] == Asns(most);
    assert Devices(history)[..|history| - 1] == Devices(most);
    if most == [] {
    } else {
      BucketIs(most);
      hide Insert, AddHour;
    }
  }

  lemma {:induction false} HoursInTwo(history: seq<Login>, more: seq<Login>)
    ensures Hours(history + more) == HoursFrom(Hours(history), more)
  {
    if more == [] {
      assert history + more == history;
    } else {
      HoursInTwo(history, more[..|more| - 1]);
      assert (history + more)[..|history + more| - 1] == history + more[..|more| - 1];
    }
  }

  lemma BatchIs(history: seq<Login>, group: Option<Id>)
    ensures
      var lists := Lists(Batch(history, group));
      && lists.countries == LastCap(Inserted(Countries(history))) && lists.asns == LastCap(Inserted(Asns(history)))
      && lists.devices == LastCap(Inserted(Devices(history))) && lists.hours == Hours(history)
          && lists.loginCount == |history|
      && lists.peerGroup == (if history == [] then None else group)
      && (history != [] ==> lists.tenantId == history[0].tenantId)
      && (Batch(history, group).Some? <==> history != [])
  {
    if history == [] {
    } else {
      BucketIs(history);
      hide BucketOf, InsertedFrom, HoursFrom;
    }
  }

  /** The row folded from the job's row is the recompute of all the logins, the tenant aside: the fold stores the latest
      login's, the recompute the first one's. */
  predicate RowAgrees(history: seq<Login>, group: Option<Id>, more: seq<Login>)
    requires more != []
  {
    var folded, batch := FoldedFrom(Batch(history, group), more), Batch(history + more, group);
    && folded.Some? && batch.Some?
    && folded.value.tenantId == more[|more| - 1].tenantId && batch.value.tenantId == (history + more)[0].tenantId
    && folded.value == batch.value.(tenantId := folded.value.tenantId)
  }

  /** The three lists agree. */
  predicate ListsAgree(history: seq<Login>, more: seq<Login>) {
    && ListAgrees(Inserted(Countries(history)), Countries(more))
    && ListAgrees(Inserted(Asns(history)), Asns(more))
    && ListAgrees(Inserted(Devices(history)), Devices(more))
  }

  predicate ListAgrees(seen: seq<string>, values: seq<Option<string>>) {
    MergedFrom(LastCap(seen), values) == LastCap(InsertedFrom(seen, values))
  }

  /** Hours and counts always agree. */
  lemma RowAgreesIff(history: seq<Login>, group: Option<Id>, more: seq<Login>)
    requires more != [] && (history == [] ==> group == None)
    ensures RowAgrees(history, group, more) <==> ListsAgree(history, more)
  {
    hide FoldedFrom, Batch, MergedFrom, InsertedFrom, Inserted, LastCap, Countries, Asns, Devices, HoursFrom, Hours,
         Lists;
    FoldedIs(Batch(history, group), more);
    BatchIs(history, group);
    BatchIs(history + more, group);
    ValuesInTwo(history, more);
    InsertedInTwo(Countries(history), Countries(more));
    InsertedInTwo(Asns(history), Asns(more));
    InsertedInTwo(Devices(history), Devices(more));
    HoursInTwo(history, more);
    ListsOf(Batch(history + more, group));
  }

  /** Whatever happened before the job, logins folded into the row it wrote keep that row what a recompute of all the
      logins gives, after every one of them, if and only if none of their values was seen and pushed out before. */
  lemma FoldAfterRecomputeIff(history: seq<Login>, group: Option<Id>, more: seq<Login>)
    requires history == [] ==> group == None
    ensures
      (forall k :: 1 <= k <= |more| ==> RowAgrees(history, group, more[..k])) <==>
      && NoReturnAfter(Inserted(Countries(history)), Countries(more))
      && NoReturnAfter(Inserted(Asns(history)), Asns(more))
      && NoReturnAfter(Inserted(Devices(history)), Devices(more))
  {
    hide RowAgrees, NoReturnAfter, Inserted;
    var c, a, d := Inserted(Countries(history)), Inserted(Asns(history)), Inserted(Devices(history));
    AgreeThroughoutIff(c, Countries(more));
    AgreeThroughoutIff(a, Asns(more));
    AgreeThroughoutIff(d, Devices(more));
    forall k | 1 <= k <= |more| ensures RowAgrees(history, group, more[..k]) <==> ListsAgree(history, more[..k]) {
      RowAgreesIff(history, group, more[..k]);
    }
    forall k | 0 <= k <= |more|
      ensures
        && Countries(more[..k]) == Countries(more)[..k] && Asns(more[..k]) == Asns(more)[..k]
        && Devices(more[..k]) == Devices(more)[..k]
    {
    }
    NothingMerged(c, Countries(more));
    NothingMerged(a, Asns(more));
    NothingMerged(d, Devices(more));
    hide MergedFrom, InsertedFrom, LastCap, Countries, Asns, Devices;
    PrefixesAgree(history, more);
  }

  lemma NothingMerged(seen: seq<string>, values: seq<Option<string>>)
    ensures ListAgrees(seen, values[..0])
  {
  }

  lemma PrefixesAgree(history: seq<Login>, more: seq<Login>)
    requires forall k :: 0 <= k <= |more| ==>
      && Countries(more[..k]) == Countries(more)[..k] && Asns(more[..k]) == Asns(more)[..k]
      && Devices(more[..k]) == Devices(more)[..k]
    requires |Countries(more)| == |Asns(more)| == |Devices(more)| == |more|
    requires ListAgrees(Inserted(Countries(history)), Countries(more)[..0])
    requires ListAgrees(Inserted(Asns(history)), Asns(more)[..0])
    requires ListAgrees(Inserted(Devices(history)), Devices(more)[..0])
    ensures (forall k :: 1 <= k <= |more| ==> ListsAgree(history, more[..k])) <==>
      && AgreeThroughout(Inserted(Countries(history)), Countries(more))
      && AgreeThroughout(Inserted(Asns(history)), Asns(more))
      && AgreeThroughout(Inserted(Devices(history)), Devices(more))
  {
    hide MergedFrom, InsertedFrom, LastCap, Countries, Asns, Devices, Inserted;
    var c, a, d := Inserted(Countries(history)), Inserted(Asns(history)), Inserted(Devices(history));
    if forall k :: 1 <= k <= |more| ==> ListsAgree(history, more[..k]) {
      forall k | 0 <= k <= |more|
        ensures ListAgrees(c, Countries(more)[..k]) && ListAgrees(a, Asns(more)[..k])
            && ListAgrees(d, Devices(more)[..k])
      {
        if k > 0 {
          assert ListsAgree(history, more[..k]);
        }
      }
    } else {
      var k :| 1 <= k <= |more| && !ListsAgree(history, more[..k]);
      assert !(ListAgrees(c, Countries(more)[..k]) && ListAgrees(a, Asns(more)[..k])
               && ListAgrees(d, Devices(more)[..k]));
    }
  }

  lemma ValuesInTwo(history: seq<Login>, more: seq<Login>)
    ensures Countries(history + more) == Countries(history) + Countries(more)
    ensures Asns(history + more) == Asns(history) + Asns(more)
    ensures Devices(history + more) == Devices(history) + Devices(more)
  {
  }

  lemma ListsOf(row: Option<Row>)
    ensures row.Some? ==> Lists(row) == row.value
  {
  }

  /** From nothing: the fold is the recompute after every login of a history if and only if no value of it returns. */
  lemma IncrementalIsBatchIff(history: seq<Login>)
    ensures
      (forall k :: 1 <= k <= |history| ==> RowAgrees([], None, history[..k])) <==>
      NoReturn(Countries(history)) && NoReturn(Asns(history)) && NoReturn(Devices(history))
  {
    NothingInserted();
    hide RowAgrees, Inserted, NoReturnAfter, Countries, Asns, Devices;
    FoldAfterRecomputeIff([], None, history);
  }

  lemma NothingInserted()
    ensures Inserted(Countries([])) == [] && Inserted(Asns([])) == [] && Inserted(Devices([])) == []
  {
  }

  lemma NothingBatched()
    ensures Batch([], None) == None
  {
  }

  /** In particular for histories with at most twenty different values per list: folding login by login and one
      recompute give the same lists, hours and count. */
  lemma IncrementalIsBatchForFew(history: seq<Login>)
    requires history != []
    requires |Inserted(Countries(history))| <= 20 && |Inserted(Asns(history))| <= 20
        && |Inserted(Devices(history))| <= 20
    ensures Incremental(history).Some? && Batch(history, None).Some?
    ensures
      var folded, batch := Incremental(history).value, Batch(history, None).value;
      && folded.tenantId == history[|history| - 1].tenantId && batch.tenantId == history[0].tenantId
      && folded == batch.(tenantId := folded.tenantId)
  {
    hide FoldedFrom, Batch, Inserted, NoReturn;
    FewValuesNoReturn(Countries(history));
    FewValuesNoReturn(Asns(history));
    FewValuesNoReturn(Devices(history));
    NothingBatched();
    IncrementalIsBatchIff(history);
    assert history[..|history|] == history && [] + history == history;
    assert RowAgrees([], None, history[..|history|]);
  }

  /** The first value that does come back makes them differ. */
  lemma ReturnBreaks(values: seq<Option<string>>, value: Option<string>)
    requires NoReturn(values)
    ensures Merged(values + [value]) == LastCap(Inserted(values + [value])) <==> !Returns(Inserted(values), value)
  {
    assert (values + [value])[..|values|] == values;
    ListsEqualAfter([], values);
    StaysEqualIff(Inserted(values), value);
  }

  /** Values 0 to n - 1, as texts. */
  function Numbered(n: nat): seq<Option<string>> {
    seq(n, k requires 0 <= k < n => Some(Decimal(k)))
  }

  lemma {:induction false} NumberedInserted(n: nat)
    ensures |Inserted(Numbered(n))| == n && forall k :: 0 <= k < n ==> Inserted(Numbered(n))[k] == Decimal(k)
  {
    if n == 0 {
    } else {
      NumberedInserted(n - 1);
      hide Decimal;
      assert Numbered(n)[..n - 1] == Numbered(n - 1);
      forall k | 0 <= k < n - 1 ensures Decimal(k) != Decimal(n - 1) {
        if Decimal(k) == Decimal(n - 1) { DecimalInjective(k, n - 1); }
      }
    }
  }

  /** Twenty-one different values and the first of them again: the fold and the recompute end with different lists. */
  lemma TwentyOneDiffer()
    ensures |Inserted(Numbered(21))| == 21
    ensures Merged(Numbered(21) + [Some("0")]) != LastCap(Inserted(Numbered(21) + [Some("0")]))
  {
    NumberedInserted(21);
    assert Decimal(0) == "0";
    hide Decimal;
    forall k: nat | 0 < k ensures Decimal(k) != Decimal(0) {
      if Decimal(k) == Decimal(0) { DecimalInjective(k, 0); }
    }
    var seen := Inserted(Numbered(21));
    assert seen[0] == "0";
    assert forall i :: 0 <= i < 20 ==> LastCap(seen)[i] == Decimal(i + 1);
    NumberedNoReturn(21);
    ReturnBreaks(Numbered(21), Some("0"));
  }

  /** Returns may cancel out: the same twenty-one values twice over end with equal lists again. */
  lemma TwiceRoundEqual()
    ensures Merged(Numbered(21) + Numbered(21)) == LastCap(Inserted(Numbered(21) + Numbered(21)))
  {
    FirstRound();
    SecondRound(21);
    InsertedTwice(21);
    assert forall k :: 0 <= k < 20 ==> Wheel(21)[k] == Decimal(k + 1);
    hide Decimal;
    NumberedInserted(21);
    assert LastCap(Inserted(Numbered(21))) == Wheel(21);
    assert Numbered(21)[..21] == Numbered(21);
  }

  /** The list after the second round's first j values: the twenty values before value j, in a circle of twenty-one. */
  function Wheel(j: nat): (list: seq<string>)
    ensures |list| == 20 && forall k :: 0 <= k < 20 ==> list[k] == Decimal((j + 1 + k) % 21)
  {
    seq(20, k requires 0 <= k < 20 => Decimal((j + 1 + k) % 21))
  }

  lemma FirstRound()
    ensures Merged(Numbered(21)) == Wheel(0)
  {
    hide Decimal, InsertedFrom, MergedFrom, Numbered, NoReturnAfter;
    NumberedInserted(21);
    NumberedNoReturn(21);
    ListsEqualAfter([], Numbered(21));
    NothingSeen();
    assert LastCap(Inserted(Numbered(21))) == Wheel(0);
  }

  lemma WheelTurns(j: nat)
    requires j < 21
    ensures Merge(Wheel(j), Some(Decimal(j))) == Wheel(j + 1)
  {
    DecimalRoundTrip(j);
    hide Decimal;
    forall k | 0 <= k < 20 ensures Wheel(j)[k] != Decimal(j) {
      if Decimal((j + 1 + k) % 21) == Decimal(j) { DecimalInjective((j + 1 + k) % 21, j); }
    }
    assert Decimal(j) != "";
    var longer := Wheel(j) + [Decimal(j)];
    assert LastCap(longer) == longer[1..];
    assert longer[1..] == Wheel(j + 1);
  }

  lemma {:induction false} SecondRound(j: nat)
    requires j <= 21
    ensures Merged(Numbered(21) + Numbered(21)[..j]) == Wheel(j)
  {
    if j == 0 {
      FirstRound();
      assert Numbered(21) + Numbered(21)[..0] == Numbered(21);
    } else {
      SecondRound(j - 1);
      WheelTurns(j - 1);
      var all := Numbered(21) + Numbered(21)[..j];
      assert all[..|all| - 1] == Numbered(21) + Numbered(21)[..j - 1];
      hide Merge, Wheel, Decimal;
      assert all[|all| - 1] == Some(Decimal(j - 1));
    }
  }

  lemma {:induction false} InsertedTwice(j: nat)
    requires j <= 21
    ensures Inserted(Numbered(21) + Numbered(21)[..j]) == Inserted(Numbered(21))
  {
    if j == 0 {
      assert Numbered(21) + Numbered(21)[..0] == Numbered(21);
    } else {
      InsertedTwice(j - 1);
      NumberedInserted(21);
      var all := Numbered(21) + Numbered(21)[..j];
      assert all[..|all| - 1] == Numbered(21) + Numbered(21)[..j - 1];
      hide Decimal;
      assert all[|all| - 1] == Some(Decimal(j - 1));
      assert Inserted(Numbered(21))[j - 1] in Inserted(Numbered(21));
    }
  }

  lemma NothingSeen()
    ensures LastCap<string>([]) == []
  {
  }

  lemma NumberedNoReturn(n: nat)
    ensures NoReturn(Numbered(n))
  {
    hide Decimal;
    forall k | 0 <= k < n ensures !Returns(Inserted(Numbered(n)[..k]), Numbered(n)[k]) {
      assert Numbered(n)[..k] == Numbered(k);
      NotSeen(k);
    }
  }

  lemma NotSeen(k: nat)
    ensures Decimal(k) !in Inserted(Numbered(k))
  {
    NumberedInserted(k);
    hide Decimal;
    forall j | 0 <= j < k ensures Decimal(j) != Decimal(k) {
      if Decimal(j) == Decimal(k) { DecimalInjective(j, k); }
    }
  }

  lemma {:induction false} HoursDistinct(history: seq<Login>)
    ensures
      var hours := HoursFrom([], history);
      && (forall i, j :: 0 <= i < j < |hours| ==> hours[i] != hours[j])
      && (forall k :: 0 <= k < |history| ==> history[k].hour in hours)
  {
    if history == [] {
    } else {
      HoursDistinct(history[..|history| - 1]);
      assert history == history[..|history| - 1] + [history[|history| - 1]];
    }
  }

  /** Whatever the history, a folded row has no duplicates, keeps to its cap, and knows the latest login. */
  lemma IncrementalKeeps(history: seq<Login>)
    requires history != []
    ensures
      var row, last := Incremental(history), history[|history| - 1];
      && row.Some? && row.value.loginCount == |history| && row.value.tenantId == last.tenantId
      && KeepsLatest(row.value.countries, Countries(history)) && KeepsLatest(row.value.asns, Asns(history))
      && KeepsLatest(row.value.devices, Devices(history))
      && (forall k :: 0 <= k < |history| ==> history[k].hour in row.value.hours)
      && (forall i, j :: 0 <= i < j < |row.value.hours| ==> row.value.hours[i] != row.value.hours[j])
  {
    FoldedIs(None, history);
    HoursDistinct(history);
    MergedKeeps(Countries(history));
    MergedKeeps(Asns(history));
    MergedKeeps(Devices(history));
    hide Merged, Hours, Incremental, KeepsLatest;
  }
}
