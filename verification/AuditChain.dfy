/**
  What the hash chain proves: the verification report is exact after every run
  of appends, rolled-back appends and purges, and two intact logs with the same
  last hash agree on every hashed field of every row.
 */
module AuditChain {
  import opened Options
  import opened JsText
  import opened AuditLog

  /** The idealisation of SHA-256 and of ISO timestamps: no two inputs share an output. */
  ghost predicate CollisionFree(digest: Digest) {
    && (forall s, t :: digest.sha256(s) == digest.sha256(t) ==> s == t)
    && (forall a, b :: digest.iso(a) == digest.iso(b) ==> a == b)
  }

  // ---------------------------------------------------------------------
  // The JSON text determines the hashed fields
  // ---------------------------------------------------------------------

  /** The payload after the user id. */
  function PayloadTail(digest: Digest, h: Hashed): string {
    ",\"details\":" + (Quoted(h.details) +
    (",\"createdAt\":" + (Quoted(digest.iso(h.createdAt)) +
    (",\"prevHash\":" + (QuotedOrNull(h.prevHash) + "}")))))
  }

  lemma Cancel(p: string, x: string, y: string)
    requires p + x == p + y
    ensures x == y
  {
    assert x == (p + x)[|p|..] && y == (p + y)[|p|..];
  }

  lemma TailDetermines(digest: Digest, a: Hashed, b: Hashed)
    requires forall x, y :: digest.iso(x) == digest.iso(y) ==> x == y
    requires PayloadTail(digest, a) == PayloadTail(digest, b)
    ensures a.details == b.details && a.createdAt == b.createdAt && a.prevHash == b.prevHash
  {
    hide Quoted, QuotedOrNull;
    var a2 := QuotedOrNull(a.prevHash) + "}";
    var b2 := QuotedOrNull(b.prevHash) + "}";
    var a1 := Quoted(digest.iso(a.createdAt)) + (",\"prevHash\":" + a2);
    var b1 := Quoted(digest.iso(b.createdAt)) + (",\"prevHash\":" + b2);
    Cancel(",\"details\":", Quoted(a.details) + (",\"createdAt\":" + a1), Quoted(b.details) + (",\"createdAt\":" + b1));
    QuotedPrefix(a.details, b.details, ",\"createdAt\":" + a1, ",\"createdAt\":" + b1);
    Cancel(",\"createdAt\":", a1, b1);
    QuotedPrefix(digest.iso(a.createdAt), digest.iso(b.createdAt), ",\"prevHash\":" + a2, ",\"prevHash\":" + b2);
    Cancel(",\"prevHash\":", a2, b2);
    QuotedOrNullPrefix(a.prevHash, b.prevHash, "}", "}");
  }

  /** No two different rows have the same payload text, whatever quotes, braces or commas they contain. */
  lemma PayloadDetermines(digest: Digest, a: Hashed, b: Hashed)
    requires forall x, y :: digest.iso(x) == digest.iso(y) ==> x == y
    requires PayloadText(digest, a) == PayloadText(digest, b)
    ensures a == b
  {
    hide Quoted, QuotedOrNull, Decimal, PayloadTail;
    var a4, b4 := PayloadTail(digest, a), PayloadTail(digest, b);
    var a3, b3 := QuotedOrNull(a.userId) + a4, QuotedOrNull(b.userId) + b4;
    var a2, b2 := Quoted(a.action) + (",\"userId\":" + a3), Quoted(b.action) + (",\"userId\":" + b3);
    var a1, b1 := Quoted(a.tenantId) + (",\"action\":" + a2), Quoted(b.tenantId) + (",\"action\":" + b2);
    PayloadSplit(digest, a);
    PayloadSplit(digest, b);
    Cancel("{\"seq\":", Decimal(a.seqNo) + (",\"tenantId\":" + a1), Decimal(b.seqNo) + (",\"tenantId\":" + b1));
    DecimalPrefix(a.seqNo, b.seqNo, ",\"tenantId\":" + a1, ",\"tenantId\":" + b1);
    Cancel(",\"tenantId\":", a1, b1);
    QuotedPrefix(a.tenantId, b.tenantId, ",\"action\":" + a2, ",\"action\":" + b2);
    Cancel(",\"action\":", a2, b2);
    QuotedPrefix(a.action, b.action, ",\"userId\":" + a3, ",\"userId\":" + b3);
    Cancel(",\"userId\":", a3, b3);
    QuotedOrNullPrefix(a.userId, b.userId, a4, b4);
    TailDetermines(digest, a, b);
  }

  lemma PayloadSplit(digest: Digest, h: Hashed)
    ensures PayloadText(digest, h) ==
      "{\"seq\":" + (Decimal(h.seqNo) + (",\"tenantId\":" + (Quoted(h.tenantId) + (",\"action\":" + (Quoted(h.action) +
      (",\"userId\":" + (QuotedOrNull(h.userId) + PayloadTail(digest, h))))))))
  {
    hide Quoted, QuotedOrNull, Decimal;
  }

  lemma HashDetermines(digest: Digest, a: Hashed, b: Hashed)
    requires CollisionFree(digest)
    requires ComputeAuditHash(digest, a) == ComputeAuditHash(digest, b)
    ensures a == b
  {
    PayloadDetermines(digest, a, b);
  }

  /** A stored row whose hashed fields are no longer those its hash was made of is reported to every reader who sees it
      and fewer than `limit` newer rows. */
  lemma AlterationReported(digest: Digest, rows: seq<Row>, tenant: Option<string>, limit: nat, row: Row, was: Hashed)
    requires CollisionFree(digest) && Ascending(rows)
    requires Sees(rows, tenant, row) && |Newer(rows, tenant, row)| < limit
    requires row.hash == Some(ComputeAuditHash(digest, was)) && was != HashedFields(row)
    ensures row in Window(rows, tenant, limit)
    ensures Issue(row.seqNo, ContentTampered) in Issues(digest, rows, Window(rows, tenant, limit))
  {
    WindowIsNewest(rows, tenant, limit);
    if ContentIntact(digest, row) {
      HashDetermines(digest, was, HashedFields(row));
    }
    hide CollisionFree, Ascending, ComputeAuditHash, Window, Sees, Newer;
    TamperedIn(digest, rows, Window(rows, tenant, limit), row);
  }

  lemma {:induction false} TamperedIn(digest: Digest, rows: seq<Row>, window: seq<Row>, row: Row)
    requires row in window && !ContentIntact(digest, row)
    ensures Issue(row.seqNo, ContentTampered) in Issues(digest, rows, window)
  {
    hide ContentIntact, ChainIntact;
    if row == window[|window| - 1] {
    } else {
      TamperedIn(digest, rows, window[..|window| - 1], row);
    }
  }

  // ---------------------------------------------------------------------
  // Tamper evidence
  // ---------------------------------------------------------------------

  /** A log over the numbers 1..n in which the full verification finds nothing. */
  ghost predicate Clean(digest: Digest, rows: seq<Row>) {
    && (forall i :: 0 <= i < |rows| ==> rows[i].seqNo == i + 1)
    && Issues(digest, rows, rows) == []
  }

  lemma {:induction false} HashAtNumber(rows: seq<Row>, i: nat)
    requires i < |rows| && forall k :: 0 <= k < |rows| ==> rows[k].seqNo == k + 1
    ensures HashAt(rows, i + 1) == Some(if rows[i].hash.Some? then rows[i].hash.value else "")
  {
    if i == |rows| - 1 {
    } else {
      HashAtNumber(rows[..|rows| - 1], i);
    }
  }

  lemma CleanRow(digest: Digest, rows: seq<Row>, i: nat)
    requires Clean(digest, rows) && i < |rows|
    ensures rows[i].hash == Some(ComputeAuditHash(digest, HashedFields(rows[i])))
    ensures i > 0 ==> rows[i].prevHash == rows[i - 1].hash
  {
    NoIssuesMeansIntact(digest, rows, rows);
    hide ComputeAuditHash;
    assert ContentIntact(digest, rows[i]) && ChainIntact(rows, rows[i]);
    if i > 0 {
      assert ContentIntact(digest, rows[i - 1]);
      HashAtNumber(rows, i - 1);
    }
  }

  /** From row n down to row 1: the same hash forces the same fields and the same previous hash. */
  lemma {:induction false} SameHashSamePast(digest: Digest, a: seq<Row>, b: seq<Row>, n: nat)
    requires CollisionFree(digest) && Clean(digest, a) && Clean(digest, b)
    requires 0 < n <= |a| && n <= |b| && a[n - 1].hash == b[n - 1].hash
    ensures forall i :: 0 <= i < n ==> HashedFields(a[i]) == HashedFields(b[i])
    decreases n
  {
    hide Clean, ComputeAuditHash, CollisionFree;
    CleanRow(digest, a, n - 1);
    CleanRow(digest, b, n - 1);
    HashDetermines(digest, HashedFields(a[n - 1]), HashedFields(b[n - 1]));
    if n == 1 {
    } else {
      SameHashSamePast(digest, a, b, n - 1);
    }
  }

  /** Two clean logs with the same last hash have the same length and agree on every hashed field. */
  lemma TamperEvident(digest: Digest, a: seq<Row>, b: seq<Row>)
    requires CollisionFree(digest) && Clean(digest, a) && Clean(digest, b)
    requires a != [] && b != [] && a[|a| - 1].hash == b[|b| - 1].hash
    ensures |a| == |b|
    ensures forall i :: 0 <= i < |a| ==> HashedFields(a[i]) == HashedFields(b[i])
  {
    CleanRow(digest, a, |a| - 1);
    CleanRow(digest, b, |b| - 1);
    HashDetermines(digest, HashedFields(a[|a| - 1]), HashedFields(b[|b| - 1]));
    SameHashSamePast(digest, a, b, |a|);
  }

  /** The limit of the evidence: logs that differ only in target, IP address and user agent get
      the same report. */
  lemma {:induction false} UnhashedFieldsUnprotected(digest: Digest, a: seq<Row>, b: seq<Row>, u: seq<Row>, v: seq<Row>)
    requires |u| == |v| && forall i :: 0 <= i < |u| ==> SameButUnhashed(u[i], v[i])
    requires |a| == |b| && forall i :: 0 <= i < |a| ==> SameButUnhashed(a[i], b[i])
    ensures Issues(digest, a, u) == Issues(digest, b, v)
    decreases |u|
  {
    if u == [] {
    } else {
      hide ContentIntact, ChainIntact, SameButUnhashed, RowIssues;
      UnhashedFieldsUnprotected(digest, a, b, u[..|u| - 1], v[..|v| - 1]);
      SameRowIssues(digest, a, b, u[|u| - 1], v[|v| - 1]);
    }
  }

  lemma SameRowIssues(digest: Digest, a: seq<Row>, b: seq<Row>, x: Row, y: Row)
    requires SameButUnhashed(x, y) && |a| == |b| && forall i :: 0 <= i < |a| ==> SameButUnhashed(a[i], b[i])
    ensures RowIssues(digest, a, x) == RowIssues(digest, b, y)
  {
    SameLookups(a, b, if x.seqNo > 1 then x.seqNo - 1 else 0);
    hide HashAt, ComputeAuditHash;
  }

  predicate SameButUnhashed(x: Row, y: Row) {
    HashedFields(x) == HashedFields(y) && x.hash == y.hash
  }

  lemma {:induction false} SameLookups(a: seq<Row>, b: seq<Row>, n: nat)
    requires |a| == |b| && forall i :: 0 <= i < |a| ==> SameButUnhashed(a[i], b[i])
    ensures HashAt(a, n) == HashAt(b, n)
  {
    if a == [] {
    } else {
      SameLookups(a[..|a| - 1], b[..|b| - 1], n);
    }
  }

  // ---------------------------------------------------------------------
  // Runs
  // ---------------------------------------------------------------------

  /** An append (after `burnt` serial numbers were lost to rollbacks), or one tenant's purge. */
  datatype Event = Append(entry: Entry, burnt: nat) | Purge(tenant: string, cutoff: int)

  /** The stored log, and for every number ever stored the number of the row it was chained to. */
  datatype State = State(rows: seq<Row>, lastSerial: nat, chainedTo: map<nat, Option<nat>>)

  function Last(rows: seq<Row>): Option<nat> {
    if rows == [] then None else Some(rows[|rows| - 1].seqNo)
  }

  function Step(digest: Digest, s: State, event: Event): State {
    match event
    case Append(e, burnt) =>
      var serial := s.lastSerial + burnt + 1;
      State(s.rows + [AppendedRow(digest, s.rows, e, serial)], serial, s.chainedTo[serial := Last(s.rows)])
    case Purge(tenant, cutoff) => s.(rows := Retained(s.rows, tenant, cutoff))
  }

  function Run(digest: Digest, events: seq<Event>): State {
    if events == [] then State([], 0, map[])
    else Step(digest, Run(digest, events[..|events| - 1]), events[|events| - 1])
  }

  /** The number the row's hash was computed over. */
  function HashedNumber(s: State, n: nat): nat
    requires n in s.chainedTo
  {
    if s.chainedTo[n].None? then 1 else s.chainedTo[n].value + 1
  }

  ghost predicate Stored(s: State, n: nat) {
    exists i :: 0 <= i < |s.rows| && s.rows[i].seqNo == n
  }

  /** The link of row n still leads to a stored row just before it, or n started a chain. */
  ghost predicate Linked(s: State, n: nat)
    requires n in s.chainedTo
  {
    var from := s.chainedTo[n];
    from.None? || (from.value + 1 == n && Stored(s, from.value))
  }

  /** What verification must say about row n. */
  ghost function ExpectedIssues(s: State, window: seq<Row>): seq<Issue>
    requires forall row :: row in window ==> row.seqNo in s.chainedTo
  {
    if window == [] then []
    else
      var last := window[|window| - 1];
      assert last in window;
      ExpectedIssues(s, window[..|window| - 1])
      + (if HashedNumber(s, last.seqNo) == last.seqNo then [] else [Issue(last.seqNo, ContentTampered)])
      + (if Linked(s, last.seqNo) then [] else [Issue(last.seqNo, ChainBroken)])
  }

  /** What the hash of a stored row is over. */
  function Sealed(s: State, row: Row): Hashed
    requires row.seqNo in s.chainedTo
  {
    HashedFields(row).(seqNo := HashedNumber(s, row.seqNo))
  }

  /** A stored row carries its hash, and its link to the row that was last when it was appended. */
  ghost predicate RowSealed(digest: Digest, s: State, row: Row) {
    && row.seqNo in s.chainedTo
    && row.hash == Some(ComputeAuditHash(digest, Sealed(s, row)))
    && (row.prevHash.Some? <==> s.chainedTo[row.seqNo].Some?)
    && (s.chainedTo[row.seqNo].Some? ==> s.chainedTo[row.seqNo].value < row.seqNo)
    && (forall other :: other in s.rows && other.seqNo < row.seqNo ==>
          s.chainedTo[row.seqNo].Some? && other.seqNo <= s.chainedTo[row.seqNo].value)
    && (forall other :: other in s.rows && s.chainedTo[row.seqNo] == Some(other.seqNo) ==> row.prevHash == other.hash)
  }

  ghost predicate Good(digest: Digest, s: State) {
    && Ascending(s.rows)
    && (forall row :: row in s.rows ==> row.seqNo <= s.lastSerial && RowSealed(digest, s, row))
    && (forall n :: n in s.chainedTo ==> n <= s.lastSerial)
  }

  lemma AppendGood(digest: Digest, s: State, e: Entry, burnt: nat)
    requires Good(digest, s)
    ensures Good(digest, Step(digest, s, Append(e, burnt)))
  {
    var s' := Step(digest, s, Append(e, burnt));
    var row := s'.rows[|s.rows|];
    AscendingSnoc(s.rows, row);
    hide ComputeAuditHash, RowSealed;
    forall r | r in s'.rows ensures r.seqNo <= s'.lastSerial && RowSealed(digest, s', r) {
      if r in s.rows {
        OldRowSealed(digest, s, e, burnt, r);
      } else {
        assert r == row;
        NewRowSealed(digest, s, e, burnt);
      }
    }
  }

  lemma OldRowSealed(digest: Digest, s: State, e: Entry, burnt: nat, r: Row)
    requires Good(digest, s) && r in s.rows
    ensures RowSealed(digest, Step(digest, s, Append(e, burnt)), r)
  {
    var s' := Step(digest, s, Append(e, burnt));
    assert s'.rows[|s.rows|].seqNo == s'.lastSerial;
    hide ComputeAuditHash, AppendedRow;
    assert RowSealed(digest, s, r);
    assert r.seqNo != s'.lastSerial;
    assert Sealed(s', r) == Sealed(s, r);
  }

  lemma NewRowSealed(digest: Digest, s: State, e: Entry, burnt: nat)
    requires Good(digest, s)
    ensures var s' := Step(digest, s, Append(e, burnt)); RowSealed(digest, s', s'.rows[|s.rows|])
  {
    hide ComputeAuditHash;
    var s' := Step(digest, s, Append(e, burnt));
    var row := s'.rows[|s.rows|];
    if s.rows != [] {
      var last := s.rows[|s.rows| - 1];
      assert last in s.rows && RowSealed(digest, s, last);
    }
    forall other | other in s'.rows && s'.chainedTo[row.seqNo] == Some(other.seqNo) ensures row.prevHash == other.hash {
      assert other in s.rows;
    }
  }

  lemma PurgeGood(digest: Digest, s: State, tenant: string, cutoff: int)
    requires Good(digest, s)
    ensures Good(digest, Step(digest, s, Purge(tenant, cutoff)))
  {
    hide ComputeAuditHash;
    var s' := Step(digest, s, Purge(tenant, cutoff));
    RetainedAscending(s.rows, tenant, cutoff);
    hide Ascending;
    forall row | row in s'.rows ensures RowSealed(digest, s', row) {
      assert RowSealed(digest, s, row);
      assert Sealed(s', row) == Sealed(s, row);
    }
  }

  lemma {:induction false} RunGood(digest: Digest, events: seq<Event>)
    ensures Good(digest, Run(digest, events))
  {
    if events == [] {
    } else {
      RunGood(digest, events[..|events| - 1]);
      var s := Run(digest, events[..|events| - 1]);
      match events[|events| - 1]
      case Append(e, burnt) => AppendGood(digest, s, e, burnt);
      case Purge(tenant, cutoff) => PurgeGood(digest, s, tenant, cutoff);
    }
  }

  // ---------------------------------------------------------------------
  // The report is exact
  // ---------------------------------------------------------------------

  lemma RowReportExact(digest: Digest, s: State, row: Row)
    requires CollisionFree(digest) && Good(digest, s) && row in s.rows
    ensures ContentIntact(digest, row) <==> HashedNumber(s, row.seqNo) == row.seqNo
    ensures ChainIntact(s.rows, row) <==> Linked(s, row.seqNo)
  {
    hide ComputeAuditHash;
    assert RowSealed(digest, s, row);
    if ContentIntact(digest, row) {
      HashDetermines(digest, HashedFields(row), Sealed(s, row));
    }
    hide CollisionFree, Ascending;
    var from := s.chainedTo[row.seqNo];
    var n: nat := if row.seqNo > 1 then row.seqNo - 1 else 0;
    if other :| other in s.rows && other.seqNo == n {
      assert RowSealed(digest, s, other);
      HashAtStored(s.rows, other);
      assert Stored(s, n);
    } else {
      HashAtMissing(s.rows, n);
      assert !Stored(s, n);
    }
  }

  lemma {:induction false} WindowReportExact(digest: Digest, s: State, window: seq<Row>)
    requires CollisionFree(digest) && Good(digest, s) && forall row :: row in window ==> row in s.rows
    ensures forall row :: row in window ==> row.seqNo in s.chainedTo
    ensures Issues(digest, s.rows, window) == ExpectedIssues(s, window)
  {
    hide ComputeAuditHash;
    ChainedRows(digest, s, window);
    hide Good, CollisionFree, ContentIntact, ChainIntact, Linked, HashedNumber;
    if window == [] {
    } else {
      assert window[|window| - 1] in window;
      WindowReportExact(digest, s, window[..|window| - 1]);
      RowReportExact(digest, s, window[|window| - 1]);
    }
  }

  lemma ChainedRows(digest: Digest, s: State, window: seq<Row>)
    requires Good(digest, s) && forall row :: row in window ==> row in s.rows
    ensures forall row :: row in window ==> row.seqNo in s.chainedTo
  {
    hide ComputeAuditHash;
    forall row | row in window ensures row.seqNo in s.chainedTo {
      assert RowSealed(digest, s, row);
    }
  }

  /** After any run, for any reader and limit: content_tampered exactly at the rows that were not
      given the number they were hashed under, chain_broken exactly at the rows whose link leads
      elsewhere than to a stored row just before them. */
  lemma ReportExact(digest: Digest, events: seq<Event>, tenant: Option<string>, limit: nat)
    requires CollisionFree(digest)
    ensures
      var s := Run(digest, events);
      var window := Window(s.rows, tenant, limit);
      && (forall row :: row in window ==> row.seqNo in s.chainedTo)
      && Issues(digest, s.rows, window) == ExpectedIssues(s, window)
  {
    RunGood(digest, events);
    var s := Run(digest, events);
    WindowReportExact(digest, s, Window(s.rows, tenant, limit));
  }

  // ---------------------------------------------------------------------
  // Gap-free runs
  // ---------------------------------------------------------------------

  /** No serial number is lost, and no purge deletes the newest row. */
  ghost predicate GapFree(digest: Digest, events: seq<Event>) {
    events == [] ||
    (var before, event := events[..|events| - 1], events[|events| - 1];
     && GapFree(digest, before)
     && match event
        case Append(_, burnt) => burnt == 0
        case Purge(tenant, cutoff) =>
          Last(Retained(Run(digest, before).rows, tenant, cutoff)) == Last(Run(digest, before).rows))
  }

  lemma {:induction false} GapFreeChains(digest: Digest, events: seq<Event>)
    requires GapFree(digest, events)
    ensures
      var s := Run(digest, events);
      && Last(s.rows) == (if s.lastSerial == 0 then None else Some(s.lastSerial))
      && forall n :: n in s.chainedTo ==> s.chainedTo[n] == if n <= 1 then None else Some(n - 1)
  {
    hide ComputeAuditHash, Retained;
    if events == [] {
    } else {
      GapFreeChains(digest, events[..|events| - 1]);
    }
  }

  /** Rows whose predecessor is gone. */
  ghost function Orphans(s: State, window: seq<Row>): seq<Issue> {
    if window == [] then []
    else
      var last := window[|window| - 1];
      Orphans(s, window[..|window| - 1])
      + if last.seqNo > 1 && !Stored(s, last.seqNo - 1) then [Issue(last.seqNo, ChainBroken)] else []
  }

  lemma {:induction false} ExpectedAreOrphans(s: State, window: seq<Row>)
    requires forall row :: row in window ==> row.seqNo in s.chainedTo && row.seqNo >= 1
    requires forall n :: n in s.chainedTo ==> s.chainedTo[n] == if n <= 1 then None else Some(n - 1)
    ensures ExpectedIssues(s, window) == Orphans(s, window)
  {
    if window == [] {
    } else {
      assert window[|window| - 1] in window;
      ExpectedAreOrphans(s, window[..|window| - 1]);
    }
  }

  /** Under retention: exactly chain_broken, exactly at the rows whose predecessor was purged. */
  lemma RetentionReport(digest: Digest, events: seq<Event>, tenant: Option<string>, limit: nat)
    requires CollisionFree(digest) && GapFree(digest, events)
    ensures
      var s := Run(digest, events);
      var window := Window(s.rows, tenant, limit);
      Issues(digest, s.rows, window) == Orphans(s, window)
  {
    hide *;
    ReportExact(digest, events, tenant, limit);
    GapFreeChains(digest, events);
    RunGood(digest, events);
    var s := Run(digest, events);
    NumberedFromOne(digest, s, Window(s.rows, tenant, limit));
    ExpectedAreOrphans(s, Window(s.rows, tenant, limit));
  }

  lemma NumberedFromOne(digest: Digest, s: State, window: seq<Row>)
    requires Good(digest, s) && forall row :: row in window ==> row in s.rows
    ensures forall row :: row in window ==> row.seqNo >= 1
  {
    hide RowSealed;
  }

  ghost predicate OnlyAppends(events: seq<Event>) {
    forall i :: 0 <= i < |events| ==> events[i].Append? && events[i].burnt == 0
  }

  lemma {:induction false} AppendsNumberRows(digest: Digest, events: seq<Event>)
    requires OnlyAppends(events)
    ensures GapFree(digest, events)
    ensures
      var s := Run(digest, events);
      s.lastSerial == |s.rows| == |events| && forall i :: 0 <= i < |s.rows| ==> s.rows[i].seqNo == i + 1
  {
    if events == [] {
    } else {
      AppendsNumberRows(digest, events[..|events| - 1]);
    }
  }

  lemma {:induction false} NoOrphans(s: State, window: seq<Row>)
    requires forall i :: 0 <= i < |s.rows| ==> s.rows[i].seqNo == i + 1
    requires forall row :: row in window ==> row in s.rows
    ensures Orphans(s, window) == []
  {
    if window == [] {
    } else {
      NoOrphans(s, window[..|window| - 1]);
      var last := window[|window| - 1];
      assert last in window;
      if last.seqNo > 1 {
        var i :| 0 <= i < |s.rows| && s.rows[i] == last;
        assert s.rows[i - 1].seqNo == last.seqNo - 1;
      }
    }
  }

  /** Complete: appends alone never raise an issue, in any tenant's window of any size. */
  lemma AppendsVerify(digest: Digest, events: seq<Event>, tenant: Option<string>, limit: nat)
    requires CollisionFree(digest) && OnlyAppends(events)
    ensures var s := Run(digest, events); Issues(digest, s.rows, Window(s.rows, tenant, limit)) == []
  {
    AppendsNumberRows(digest, events);
    RetentionReport(digest, events, tenant, limit);
    var s := Run(digest, events);
    NoOrphans(s, Window(s.rows, tenant, limit));
  }

  /** A rolled-back append is reported as tampering: one lost number, and the next row fails. */
  lemma RollbackReported(digest: Digest, e: Entry, burnt: nat)
    requires CollisionFree(digest)
    ensures
      var s := Run(digest, [Append(e, burnt)]);
      Issues(digest, s.rows, s.rows) == if burnt == 0 then [] else [Issue(burnt + 1, ContentTampered)]
  {
    var events := [Append(e, burnt)];
    var s := Run(digest, events);
    RunGood(digest, events);
    RunOne(digest, e, burnt);
    hide Run, Good, AppendedRow, CollisionFree, Issues;
    WindowReportExact(digest, s, s.rows);
    ExpectedOne(s, s.rows[0]);
    assert s.rows == [s.rows[0]];
  }

  lemma RunOne(digest: Digest, e: Entry, burnt: nat)
    ensures
      var s := Run(digest, [Append(e, burnt)]);
      |s.rows| == 1 && s.rows[0].seqNo == burnt + 1 && burnt + 1 in s.chainedTo && s.chainedTo[burnt + 1] == None
  {
    hide ComputeAuditHash;
    assert [Append(e, burnt)][..0] == [];
    assert Run(digest, []) == State([], 0, map[]);
  }

  lemma ExpectedOne(s: State, row: Row)
    requires row.seqNo in s.chainedTo && s.chainedTo[row.seqNo] == None
    ensures ExpectedIssues(s, [row]) == if row.seqNo == 1 then [] else [Issue(row.seqNo, ContentTampered)]
  {
    assert [row][..0] == [];
  }
}
