/**
  The audit log: the hash over a row, the append under the advisory lock, the
  verification endpoint, the export loop and the retention purge. SHA-256 and
  Date.toISOString are parameters; the JSON text between them is written out.
 */
module AuditLog {
  import opened Options
  import opened JsText

  /** sha256: hex digest of a text. iso: toISOString of a millisecond timestamp. */
  datatype Digest = Digest(sha256: string -> string, iso: int -> string)

  datatype Row = Row(
    seqNo: nat,
    tenantId: Option<string>,
    action: string,
    userId: Option<string>,
    targetId: Option<string>,
    ipAddress: Option<string>,
    userAgent: Option<string>,
    details: Option<string>,
    createdAt: int,
    prevHash: Option<string>,
    hash: Option<string>
  )

  /** What logAudit is called with; `tenant` overrides the request's own tenant. */
  datatype Entry = Entry(
    tenant: Option<string>, requestTenant: Option<string>, action: string, userId: Option<string>,
        targetId: Option<string>,
    ipAddress: string, userAgent: string, details: string, createdAt: int
  ) {
    /** params.tenantId || req.tenantId || 'default' */
    function TenantId(): (t: string)
      ensures t != ""
      ensures tenant.Some? && tenant.value != "" ==> Some(t) == tenant
      ensures tenant.None? || tenant.value == "" ==>
        t == if requestTenant.Some? && requestTenant.value != "" then requestTenant.value else "default"
    {
      if tenant.Some? && tenant.value != "" then tenant.value else OrDefault(requestTenant)
    }
  }

  /** The fields computeAuditHash sees. */
  datatype Hashed = Hashed(
    seqNo: nat, tenantId: string, action: string, userId: Option<string>, details: string, createdAt: int,
    prevHash: Option<string>
  )

  datatype IssueKind = ContentTampered | ChainBroken

  datatype Issue = Issue(seqNo: nat, kind: IssueKind)

  // ---------------------------------------------------------------------
  // The hash
  // ---------------------------------------------------------------------

  /** The JSON.stringify text of the hashed fields, in their order. */
  function PayloadText(digest: Digest, h: Hashed): string {
    "{\"seq\":" + (Decimal(h.seqNo) +
    (",\"tenantId\":" + (Quoted(h.tenantId) +
    (",\"action\":" + (Quoted(h.action) +
    (",\"userId\":" + (QuotedOrNull(h.userId) +
    (",\"details\":" + (Quoted(h.details) +
    (",\"createdAt\":" + (Quoted(digest.iso(h.createdAt)) +
    (",\"prevHash\":" + (QuotedOrNull(h.prevHash) + "}")))))))))))))
  }

  function ComputeAuditHash(digest: Digest, h: Hashed): string {
    digest.sha256(PayloadText(digest, h))
  }

  /** The fields of a stored row as the verification endpoint hashes them. */
  function HashedFields(row: Row): Hashed {
    Hashed(row.seqNo, OrDefault(row.tenantId), row.action, row.userId,
           if row.details.Some? then row.details.value else "", row.createdAt, row.prevHash)
  }

  /** tenantId || 'default' */
  function OrDefault(tenantId: Option<string>): (t: string)
    ensures t != ""
  {
    if tenantId.Some? && tenantId.value != "" then tenantId.value else "default"
  }

  // ---------------------------------------------------------------------
  // Append and purge
  // ---------------------------------------------------------------------

  /** The row logAudit inserts when bigserial hands it the number `serial`: the hash is over
      the number after the last row's, whatever number the row then gets. */
  function AppendedRow(digest: Digest, rows: seq<Row>, e: Entry, serial: nat): Row {
    var prevHash := if rows == [] then None else rows[|rows| - 1].hash;
    var predicted := if rows == [] then 1 else rows[|rows| - 1].seqNo + 1;
    var hash := ComputeAuditHash(digest,
                                 Hashed(predicted, e.TenantId(), e.action, e.userId, e.details, e.createdAt, prevHash));
    Row(serial, Some(e.TenantId()), e.action, e.userId, e.targetId, Some(e.ipAddress), Some(e.userAgent),
        Some(e.details), e.createdAt, prevHash, Some(hash))
  }

  predicate Purged(row: Row, tenant: string, cutoff: int) {
    row.tenantId == Some(tenant) && row.createdAt < cutoff
  }

  /** The rows a DELETE for one tenant leaves. */
  function Retained(rows: seq<Row>, tenant: string, cutoff: int): (kept: seq<Row>)
    ensures forall row :: row in kept <==> row in rows && !Purged(row, tenant, cutoff)
    ensures |kept| <= |rows|
  {
    if rows == [] then []
    else
      var last := rows[|rows| - 1];
      var before := Retained(rows[..|rows| - 1], tenant, cutoff);
      assert rows == rows[..|rows| - 1] + [last];
      if Purged(last, tenant, cutoff) then before else before + [last]
  }

  // ---------------------------------------------------------------------
  // Verification
  // ---------------------------------------------------------------------

  /** The rows a (possibly tenant-filtered) reader sees. */
  function Visible(rows: seq<Row>, tenant: Option<string>): (visible: seq<Row>)
    ensures forall row :: row in visible <==> row in rows && (tenant.Some? ==> row.tenantId == tenant)
  {
    if rows == [] then []
    else
      var last := rows[|rows| - 1];
      var before := Visible(rows[..|rows| - 1], tenant);
      assert rows == rows[..|rows| - 1] + [last];
      if tenant.Some? && last.tenantId != tenant then before else before + [last]
  }

  /** The newest `limit` visible rows, oldest first. */
  function Window(rows: seq<Row>, tenant: Option<string>, limit: nat): (window: seq<Row>)
    ensures forall row :: row in window ==> row in rows
  {
    var visible := Visible(rows, tenant);
    if |visible| <= limit then visible else visible[|visible| - limit..]
  }

  /** The hash of the row numbered n, '' standing for a stored NULL; None without such a row. */
  function HashAt(rows: seq<Row>, n: nat): Option<string> {
    if rows == [] then None
    else
      var last := rows[|rows| - 1];
      if last.seqNo == n then Some(if last.hash.Some? then last.hash.value else "")
      else HashAt(rows[..|rows| - 1], n)
  }

  predicate ContentIntact(digest: Digest, row: Row) {
    row.hash == Some(ComputeAuditHash(digest, HashedFields(row)))
  }

  predicate ChainIntact(rows: seq<Row>, row: Row) {
    row.prevHash == if row.seqNo > 1 then HashAt(rows, row.seqNo - 1) else None
  }

  function RowIssues(digest: Digest, rows: seq<Row>, row: Row): seq<Issue> {
    (if ContentIntact(digest, row) then [] else [Issue(row.seqNo, ContentTampered)])
    + (if ChainIntact(rows, row) then [] else [Issue(row.seqNo, ChainBroken)])
  }

  function Issues(digest: Digest, rows: seq<Row>, window: seq<Row>): seq<Issue> {
    if window == [] then []
    else Issues(digest, rows, window[..|window| - 1]) + RowIssues(digest, rows, window[|window| - 1])
  }

  /** parseInt(limit ?? '2000') || 2000, between 1 and 20000. */
  function EffectiveLimit(parsed: Option<int>): (limit: nat)
    ensures 1 <= limit <= 20000
    ensures parsed.None? || parsed.value == 0 ==> limit == 2000
    ensures parsed.Some? && parsed.value != 0 ==>
      if 1 <= parsed.value <= 20000 then limit == parsed.value else limit == 1 <==> parsed.value < 0
  {
    var requested := if parsed.None? || parsed.value == 0 then 2000 else parsed.value;
    if requested < 1 then 1 else if requested > 20000 then 20000 else requested
  }

  /** Rows in insertion order carry increasing numbers from 1 up. */
  ghost predicate Ascending(rows: seq<Row>) {
    && (forall i :: 0 <= i < |rows| ==> rows[i].seqNo >= 1)
    && (forall i, j :: 0 <= i < j < |rows| ==> rows[i].seqNo < rows[j].seqNo)
  }

  // ---------------------------------------------------------------------
  // The service
  // ---------------------------------------------------------------------

  class AuditStore {
    const digest: Digest
    var rows: seq<Row>
    var lastSerial: nat

    ghost predicate Valid()
      reads this
    {
      Ascending(rows) && forall i :: 0 <= i < |rows| ==> rows[i].seqNo <= lastSerial
    }

    constructor (digest: Digest)
      ensures Valid() && this.digest == digest && rows == [] && lastSerial == 0
    {
      this.digest := digest;
      rows, lastSerial := [], 0;
    }

    /** logAudit; `burnt` serial numbers were consumed by transactions that rolled back. */
    method LogAudit(e: Entry, burnt: nat)
      requires Valid()
      modifies this
      ensures Valid()
      ensures lastSerial == old(lastSerial) + burnt + 1
      ensures rows == old(rows) + [AppendedRow(digest, old(rows), e, lastSerial)]
      ensures
        var row := rows[|old(rows)|];
        && row.seqNo == lastSerial && row.tenantId == Some(e.TenantId()) && row.action == e.action
        && row.userId == e.userId && row.targetId == e.targetId && row.ipAddress == Some(e.ipAddress)
        && row.userAgent == Some(e.userAgent) && row.details == Some(e.details) && row.createdAt == e.createdAt
        && row.prevHash == (if old(rows) == [] then None else old(rows)[|old(rows)| - 1].hash)
    {
      var prevHash, predicted := None, 1;
      if rows != [] {
        prevHash, predicted := rows[|rows| - 1].hash, rows[|rows| - 1].seqNo + 1;
      }
      var hash := ComputeAuditHash(digest,
                                   Hashed(predicted, e.TenantId(), e.action, e.userId, e.details, e.createdAt,
                                          prevHash));
      lastSerial := lastSerial + burnt + 1;
      rows := rows + [Row(lastSerial, Some(e.TenantId()), e.action, e.userId, e.targetId, Some(e.ipAddress),
                          Some(e.userAgent), Some(e.details), e.createdAt, prevHash, Some(hash))];
    }

    /** GET /audit/verify */
    method Verify(limitParam: Option<int>, tenant: Option<string>)
      returns (checked: nat, intact: bool, reported: seq<Issue>, ghost newest: seq<Row>)
      requires Valid()
      ensures NewestRows(rows, tenant, EffectiveLimit(limitParam), newest) && checked == |newest|
      ensures
        var seen, limit := SeenCount(rows, tenant), EffectiveLimit(limitParam);
        checked == if seen <= limit then seen else limit
      ensures intact <==> AllHold(digest, rows, newest)
      ensures
        var all := Issues(digest, rows, newest);
        (intact <==> all == []) && reported == if |all| <= 100 then all else all[..100]
    {
      assert Ascending(rows);
      hide *;
      var limit := EffectiveLimit(limitParam);
      var window := Window(rows, tenant, limit);
      newest := window;
      WindowIsNewest(rows, tenant, limit);
      NewestCount(rows, tenant, limit);
      WindowAscending(rows, tenant, limit);
      CleanIff(digest, rows, window);
      var issues := CheckRows(window);
      return |window|, issues == [], if |issues| <= 100 then issues else issues[..100], window;
    }

    /** The verification loop, oldest row first. */
    method CheckRows(window: seq<Row>) returns (issues: seq<Issue>)
      requires Valid() && Ascending(window) && forall row :: row in window ==> row in rows
      ensures issues == Issues(digest, rows, window)
    {
      hide *;
      var hashLookup := Bridge(window);
      issues := [];
      NoIssues(digest, rows);
      for i := 0 to |window|
        invariant issues == Issues(digest, rows, window[..i])
      {
        var row := window[i];
        IssuesSnoc(digest, rows, window, i);
        var expectedPrevHash := None;
        if row.seqNo > 1 && row.seqNo - 1 in hashLookup {
          expectedPrevHash := Some(hashLookup[row.seqNo - 1]);
        }
        var found := CheckRow(row, expectedPrevHash);
        issues := issues + found;
      }
      assert window[..|window|] == window;
    }

    /** The body of the verification loop: recompute the content hash, compare the link. */
    method CheckRow(row: Row, expectedPrevHash: Option<string>) returns (issues: seq<Issue>)
      requires expectedPrevHash == if row.seqNo > 1 then HashAt(rows, row.seqNo - 1) else None
      ensures issues == RowIssues(digest, rows, row)
    {
      issues := [];
      var expectedHash := ComputeAuditHash(digest, HashedFields(row));
      if Some(expectedHash) != row.hash {
        issues := issues + [Issue(row.seqNo, ContentTampered)];
      }
      if row.prevHash != expectedPrevHash {
        issues := issues + [Issue(row.seqNo, ChainBroken)];
      }
    }

    /** The {seq, hash} pairs of every row, of any tenant, from just before the window to its end. */
    method Bridge(window: seq<Row>) returns (hashLookup: map<nat, string>)
      requires Valid() && forall row :: row in window ==> row in rows
      requires Ascending(window)
      ensures forall row :: row in window && row.seqNo > 1 ==>
        HashAt(rows, row.seqNo - 1) ==
          if row.seqNo - 1 in hashLookup then Some(hashLookup[row.seqNo - 1]) else None
    {
      hashLookup := map[];
      if window == [] {
        return;
      }
      var minSeq, maxSeq := window[0].seqNo, window[|window| - 1].seqNo;
      for i := 0 to |rows|
        invariant forall n :: minSeq - 1 <= n <= maxSeq ==>
          HashAt(rows[..i], n) == if n in hashLookup then Some(hashLookup[n]) else None
      {
        assert rows[..i + 1][..i] == rows[..i] && rows[..i + 1][i] == rows[i];
        if minSeq - 1 <= rows[i].seqNo <= maxSeq {
          hashLookup := hashLookup[rows[i].seqNo := if rows[i].hash.Some? then rows[i].hash.value else ""];
        }
      }
      assert rows[..|rows|] == rows;
    }

    /** GET /audit/export; `later` are the visible rows at the queries after the first page's. */
    method Export(tenant: Option<string>, pageSize: nat, later: seq<seq<Row>>, ghost bound: nat) returns (out: seq<Row>)
      requires Valid() && pageSize > 0 && TablesOk([Visible(rows, tenant)] + later, bound)
      ensures Ascending(out)
      ensures forall row :: InAll([Visible(rows, tenant)] + later, row) ==> row in out
      ensures forall row :: row in out ==> InSome([Visible(rows, tenant)] + later, row)
      ensures later == [] ==> out == Visible(rows, tenant)
    {
      hide *;
      var tables := [Visible(rows, tenant)] + later;
      out := ExportPages(tables, pageSize, bound);
      if later == [] {
        OneTableGrows(tables);
        assert out == tables[0];
      }
    }

    /** DELETE ... WHERE tenant_id = tenant AND created_at < cutoff */
    method Delete(tenant: string, cutoff: int) returns (count: nat)
      requires Valid()
      modifies this
      ensures Valid() && lastSerial == old(lastSerial)
      ensures rows == Retained(old(rows), tenant, cutoff) && count == |old(rows)| - |rows|
    {
      var kept := Retained(rows, tenant, cutoff);
      RetainedAscending(rows, tenant, cutoff);
      assert forall i :: 0 <= i < |kept| ==> kept[i] in rows;
      count := |rows| - |kept|;
      rows := kept;
    }

    /** purgeExpiredAuditLogs over the tenants' policies. */
    method PurgeExpired(policies: seq<Policy>) returns (purged: nat)
      requires Valid()
      modifies this
      ensures Valid() && lastSerial == old(lastSerial)
      ensures rows == AfterPolicies(old(rows), policies)
      ensures purged == |old(rows)| - |rows|
    {
      hide Retained, Ascending, Cutoff;
      purged := 0;
      for i := 0 to |policies|
        invariant Valid() && lastSerial == old(lastSerial)
        invariant rows == AfterPolicies(old(rows), policies[..i])
        invariant purged == |old(rows)| - |rows|
      {
        assert policies[..i + 1][..i] == policies[..i] && policies[..i + 1][i] == policies[i];
        var policy := policies[i];
        if policy.days.Some? && policy.days.value > 0.0 {
          var deleted := Delete(policy.tenant, Cutoff(policy));
          purged := purged + deleted;
        }
      }
      assert policies[..|policies|] == policies;
    }
  }

  lemma NoIssues(digest: Digest, rows: seq<Row>)
    ensures Issues(digest, rows, []) == []
  {
  }

  lemma IssuesSnoc(digest: Digest, rows: seq<Row>, window: seq<Row>, i: nat)
    requires i < |window|
    ensures Issues(digest, rows, window[..i + 1]) == Issues(digest, rows, window[..i])
        + RowIssues(digest, rows, window[i])
  {
    hide RowIssues;
    assert window[..i + 1][..i] == window[..i] && window[..i + 1][i] == window[i];
  }

  /** The row is there at every page's query. */
  ghost predicate InAll(tables: seq<seq<Row>>, row: Row) {
    forall k :: 0 <= k < |tables| ==> row in tables[k]
  }

  ghost predicate InSome(tables: seq<seq<Row>>, row: Row) {
    exists k :: 0 <= k < |tables| && row in tables[k]
  }

  /** Nothing is purged in between: each table starts with the one before it. */
  ghost predicate Growing(tables: seq<seq<Row>>) {
    forall j, k :: 0 <= j <= k < |tables| ==> |tables[j]| <= |tables[k]| && tables[j] == tables[k][..|tables[j]|]
  }

  ghost predicate TablesOk(tables: seq<seq<Row>>, bound: nat) {
    && tables != []
    && forall k :: 0 <= k < |tables| ==> Ascending(tables[k]) && forall row :: row in tables[k] ==> row.seqNo <= bound
  }

  /** What is written so far is in order, comes from the tables, and holds every row up to lastSeq that is there
      throughout. */
  ghost predicate Written(tables: seq<seq<Row>>, out: seq<Row>, lastSeq: nat) {
    && Ascending(out) && (forall row :: row in out ==> row.seqNo <= lastSeq && InSome(tables, row))
    && (forall row :: InAll(tables, row) && row.seqNo <= lastSeq ==> row in out)
  }

  /** The export loop: pages of rows numbered above the last one written, while rows are appended and purged. `tables`
      are the visible rows at each page's query; after the last one nothing changes any more. Everything there
      throughout is written, in order and once, and everything written was there; without purges the export is a prefix
      of the last table and holds all of the first. */
  method ExportPages(tables: seq<seq<Row>>, pageSize: nat, ghost bound: nat) returns (out: seq<Row>)
    requires TablesOk(tables, bound) && pageSize > 0
    ensures Ascending(out)
    ensures forall row :: InAll(tables, row) ==> row in out
    ensures forall row :: row in out ==> InSome(tables, row)
    ensures Growing(tables) ==> |tables[0]| <= |out| <= |tables[|tables| - 1]| && out == tables[|tables| - 1][..|out|]
  {
    hide *;
    out := [];
    var lastSeq := 0;
    var k := 0;
    NothingWritten(tables, bound);
    while true
      invariant 0 <= k < |tables|
      invariant Written(tables, out, lastSeq)
      invariant lastSeq <= bound && (if out == [] then lastSeq == 0 else lastSeq == out[|out| - 1].seqNo)
      invariant Growing(tables) ==> |out| <= |tables[k]| && out == tables[k][..|out|]
      decreases bound - lastSeq
    {
      TableOk(tables, bound, k);
      var page, start := PageAfter(tables[k], lastSeq, pageSize);
      if page != [] {
        PageWritten(tables, bound, k, out, lastSeq, page, start);
      }
      if Growing(tables) {
        PageGrows(tables[k], out, lastSeq, page, start);
      }
      if page == [] || |page| < pageSize {
        LastPage(tables, bound, k, out, lastSeq, page, start);
        if Growing(tables) {
          PrefixOfLast(tables, k, out + page);
        }
        return out + page;
      }
      out := out + page;
      lastSeq := page[|page| - 1].seqNo;
      if Growing(tables) && k + 1 < |tables| {
        PrefixOfNext(tables, k, out);
      }
      k := if k + 1 < |tables| then k + 1 else k;
    }
  }

  lemma OneTableGrows(tables: seq<seq<Row>>)
    requires |tables| == 1
    ensures Growing(tables)
  {
  }

  lemma NothingWritten(tables: seq<seq<Row>>, bound: nat)
    requires TablesOk(tables, bound)
    ensures |tables| > 0 && Written(tables, [], 0) && (Growing(tables) ==> [] == tables[0][..0])
  {
    forall row | InAll(tables, row) ensures row.seqNo > 0 {
      assert row in tables[0];
    }
  }

  lemma TableOk(tables: seq<seq<Row>>, bound: nat, k: nat)
    requires TablesOk(tables, bound) && k < |tables|
    ensures Ascending(tables[k])
  {
  }

  /** A page: the rows from `start`, which are those above lastSeq. */
  predicate IsPage(table: seq<Row>, lastSeq: nat, page: seq<Row>, start: nat) {
    && start + |page| <= |table| && page == table[start..start + |page|]
    && (start > 0 ==> table[start - 1].seqNo <= lastSeq) && (start < |table| ==> table[start].seqNo > lastSeq)
  }

  lemma PageWritten(tables: seq<seq<Row>>, bound: nat, k: nat, out: seq<Row>, lastSeq: nat, page: seq<Row>, start: nat)
    requires TablesOk(tables, bound) && k < |tables| && IsPage(tables[k], lastSeq, page, start) && page != []
    requires Written(tables, out, lastSeq)
    ensures lastSeq < page[|page| - 1].seqNo <= bound
    ensures Written(tables, out + page, page[|page| - 1].seqNo)
  {
    var table, last := tables[k], page[|page| - 1].seqNo;
    assert page[|page| - 1] == table[start + |page| - 1] && table[start + |page| - 1] in table;
    PageOrder(table, lastSeq, page, start);
    forall row | row in page ensures row.seqNo <= last && InSome(tables, row) {
      assert row in table;
    }
    forall row | InAll(tables, row) && lastSeq < row.seqNo <= last ensures row in page {
      assert row in table;
    }
    hide Ascending, InAll, InSome, TablesOk, IsPage;
    AscendingAppend(out, page, lastSeq);
    assert forall row :: row in out + page <==> row in out || row in page;
  }

  lemma PageOrder(table: seq<Row>, lastSeq: nat, page: seq<Row>, start: nat)
    requires Ascending(table) && IsPage(table, lastSeq, page, start) && page != []
    ensures Ascending(page) && lastSeq < page[|page| - 1].seqNo
    ensures forall row :: row in page ==> lastSeq < row.seqNo <= page[|page| - 1].seqNo
    ensures forall row :: row in table && lastSeq < row.seqNo <= page[|page| - 1].seqNo ==> row in page
  {
    forall i | 0 <= i < |page| ensures lastSeq < page[i].seqNo <= page[|page| - 1].seqNo && page[i].seqNo >= 1 {
      PageRow(table, lastSeq, page, start, i);
    }
    forall i, j | 0 <= i < j < |page| ensures page[i].seqNo < page[j].seqNo {
      assert page[i] == table[start + i] && page[j] == table[start + j];
    }
    forall row | row in table && lastSeq < row.seqNo <= page[|page| - 1].seqNo ensures row in page {
      var i :| 0 <= i < |table| && table[i] == row;
      RowOfPage(table, lastSeq, page, start, i);
    }
  }

  lemma PageRow(table: seq<Row>, lastSeq: nat, page: seq<Row>, start: nat, i: nat)
    requires Ascending(table) && IsPage(table, lastSeq, page, start) && i < |page|
    ensures lastSeq < page[i].seqNo <= page[|page| - 1].seqNo && page[i].seqNo >= 1
  {
    assert page[i] == table[start + i] && page[|page| - 1] == table[start + |page| - 1];
  }

  lemma RowOfPage(table: seq<Row>, lastSeq: nat, page: seq<Row>, start: nat, i: nat)
    requires Ascending(table) && IsPage(table, lastSeq, page, start) && page != [] && i < |table|
    requires lastSeq < table[i].seqNo <= page[|page| - 1].seqNo
    ensures table[i] in page
  {
    assert page[|page| - 1] == table[start + |page| - 1];
    assert start <= i < start + |page|;
    assert page[i - start] == table[i];
  }

  lemma AscendingAppend(out: seq<Row>, page: seq<Row>, lastSeq: nat)
    requires Ascending(out) && Ascending(page)
    requires (forall row :: row in out ==> row.seqNo <= lastSeq) && forall row :: row in page ==> lastSeq < row.seqNo
    ensures Ascending(out + page)
  {
  }

  lemma PageGrows(table: seq<Row>, out: seq<Row>, lastSeq: nat, page: seq<Row>, start: nat)
    requires Ascending(table) && IsPage(table, lastSeq, page, start)
    requires |out| <= |table| && out == table[..|out|]
    requires if out == [] then lastSeq == 0 else lastSeq == out[|out| - 1].seqNo
    ensures start == |out| && |out + page| <= |table| && out + page == table[..|out + page|]
  {
    if out != [] { assert out[|out| - 1] == table[|out| - 1]; }
  }

  lemma LastPage(tables: seq<seq<Row>>, bound: nat, k: nat, out: seq<Row>, lastSeq: nat, page: seq<Row>, start: nat)
    requires TablesOk(tables, bound) && k < |tables| && IsPage(tables[k], lastSeq, page, start)
    requires start + |page| == |tables[k]| && Written(tables, out, lastSeq)
    requires page != [] ==> Written(tables, out + page, page[|page| - 1].seqNo)
    ensures Ascending(out + page)
    ensures forall row :: InAll(tables, row) ==> row in out + page
    ensures forall row :: row in out + page ==> InSome(tables, row)
  {
    var table := tables[k];
    if page == [] { assert out + page == out; }
    forall row | InAll(tables, row) ensures row in out + page {
      assert row in table;
      NotAbove(table, lastSeq, page, start, row);
    }
  }

  lemma NotAbove(table: seq<Row>, lastSeq: nat, page: seq<Row>, start: nat, row: Row)
    requires Ascending(table) && IsPage(table, lastSeq, page, start) && start + |page| == |table| && row in table
    ensures row.seqNo <= if page == [] then lastSeq else page[|page| - 1].seqNo
  {
    if page != [] { assert page[|page| - 1] == table[|table| - 1]; }
  }

  lemma PrefixOfLast(tables: seq<seq<Row>>, k: nat, out: seq<Row>)
    requires Growing(tables) && k < |tables| && out == tables[k]
    ensures |tables[0]| <= |out| <= |tables[|tables| - 1]| && out == tables[|tables| - 1][..|out|]
  {
    assert |tables[0]| <= |tables[k]| && |tables[k]| <= |tables[|tables| - 1]|;
  }

  lemma PrefixOfNext(tables: seq<seq<Row>>, k: nat, out: seq<Row>)
    requires Growing(tables) && k + 1 < |tables| && |out| <= |tables[k]| && out == tables[k][..|out|]
    ensures |out| <= |tables[k + 1]| && out == tables[k + 1][..|out|]
  {
    assert tables[k] == tables[k + 1][..|tables[k]|];
    assert tables[k + 1][..|tables[k]|][..|out|] == tables[k + 1][..|out|];
  }

  /** SELECT ... WHERE seq > lastSeq ORDER BY seq LIMIT pageSize. */
  method PageAfter(table: seq<Row>, lastSeq: nat, pageSize: nat) returns (page: seq<Row>, ghost start: nat)
    requires Ascending(table) && pageSize > 0
    ensures IsPage(table, lastSeq, page, start)
    ensures |page| == if pageSize <= |table| - start then pageSize else |table| - start
  {
    var from := 0;
    while from < |table| && table[from].seqNo <= lastSeq
      invariant 0 <= from <= |table| && (from > 0 ==> table[from - 1].seqNo <= lastSeq)
    {
      from := from + 1;
    }
    start := from;
    page := table[from..if from + pageSize <= |table| then from + pageSize else |table|];
  }

  /** A tenant's days of retention, missing when unset or unparsable, and the clock when its turn comes. */
  datatype Policy = Policy(tenant: string, days: Option<real>, now: int)

  /** The time value of new Date(now - days * 24 * 60 * 60 * 1000), cut off to whole milliseconds. */
  function Cutoff(policy: Policy): int
    requires policy.days.Some?
  {
    var ms := policy.now as real - policy.days.value * 86_400_000.0;
    if ms >= 0.0 then ms.Floor else -((-ms).Floor)
  }

  function AfterPolicies(rows: seq<Row>, policies: seq<Policy>): seq<Row> {
    if policies == [] then rows
    else
      var before, policy := AfterPolicies(rows, policies[..|policies| - 1]), policies[|policies| - 1];
      if policy.days.None? || policy.days.value <= 0.0 then before else Retained(before, policy.tenant, Cutoff(policy))
  }

  /** The policy's tenant owns the row, and the row is older than its days of retention: by a whole millisecond, or at
      all if the policy reaches back before 1970. */
  predicate PastRetention(policy: Policy, row: Row) {
    && policy.days.Some? && policy.days.value > 0.0 && row.tenantId == Some(policy.tenant)
    && var age, kept := (policy.now - row.createdAt) as real, policy.days.value * 24.0 * 3600.0 * 1000.0;
    if kept <= policy.now as real then age >= kept + 1.0 else age > kept
  }

  lemma PastRetentionIff(policy: Policy, row: Row)
    requires policy.days.Some? && policy.days.value > 0.0
    ensures PastRetention(policy, row) <==> row.tenantId == Some(policy.tenant) && row.createdAt < Cutoff(policy)
  {
    var ms := policy.now as real - policy.days.value * 86_400_000.0;
    assert policy.days.value * 24.0 * 3600.0 * 1000.0 == policy.days.value * 86_400_000.0;
    assert (policy.now - row.createdAt) as real == policy.now as real - row.createdAt as real;
    if ms >= 0.0 {
      assert row.createdAt < ms.Floor <==> row.createdAt as real + 1.0 <= ms;
    } else {
      assert row.createdAt < -((-ms).Floor) <==> (row.createdAt as real) < ms;
    }
  }

  lemma LastPolicy(rows: seq<Row>, policies: seq<Policy>, row: Row)
    requires policies != []
    ensures row in AfterPolicies(rows, policies) <==>
      row in AfterPolicies(rows, policies[..|policies| - 1]) && !PastRetention(policies[|policies| - 1], row)
  {
    hide Retained, Cutoff;
    var before, policy := AfterPolicies(rows, policies[..|policies| - 1]), policies[|policies| - 1];
    if policy.days.Some? && policy.days.value > 0.0 {
      PastRetentionIff(policy, row);
      hide PastRetention;
      assert AfterPolicies(rows, policies) == Retained(before, policy.tenant, Cutoff(policy));
      hide AfterPolicies;
    }
  }

  predicate Spared(policies: seq<Policy>, row: Row) {
    forall i :: 0 <= i < |policies| ==> !PastRetention(policies[i], row)
  }

  lemma SparedByAll(policies: seq<Policy>, row: Row)
    requires policies != []
    ensures Spared(policies, row) <==>
        Spared(policies[..|policies| - 1], row) && !PastRetention(policies[|policies| - 1], row)
  {
    hide PastRetention;
    var most := policies[..|policies| - 1];
    assert forall i :: 0 <= i < |most| ==> policies[i] == most[i];
  }

  /** A purge deletes a row exactly when some policy has it past its retention. */
  lemma {:induction false} PurgedIffPastRetention(rows: seq<Row>, policies: seq<Policy>, row: Row)
    ensures row in AfterPolicies(rows, policies) <==> row in rows && Spared(policies, row)
  {
    if policies == [] {
      assert AfterPolicies(rows, policies) == rows;
    } else {
      hide AfterPolicies, Spared, PastRetention;
      PurgedIffPastRetention(rows, policies[..|policies| - 1], row);
      LastPolicy(rows, policies, row);
      SparedByAll(policies, row);
    }
  }

  // ---------------------------------------------------------------------
  // What verification looks at
  // ---------------------------------------------------------------------

  ghost predicate Sees(rows: seq<Row>, tenant: Option<string>, row: Row) {
    row in rows && (tenant.Some? ==> row.tenantId == tenant)
  }

  ghost function SeenCount(rows: seq<Row>, tenant: Option<string>): nat {
    |set row | row in rows && Sees(rows, tenant, row)|
  }

  /** The rows the reader sees that are newer than this one. */
  ghost function Newer(rows: seq<Row>, tenant: Option<string>, row: Row): set<Row> {
    set r | r in rows && Sees(rows, tenant, r) && r.seqNo > row.seqNo
  }

  /** Exactly the rows the reader sees with fewer than `limit` newer ones, oldest first. */
  ghost predicate NewestRows(rows: seq<Row>, tenant: Option<string>, limit: nat, newest: seq<Row>) {
    && Ascending(newest)
    && forall row :: row in newest <==> Sees(rows, tenant, row) && |Newer(rows, tenant, row)| < limit
  }

  /** The row's hash is that of its fields. */
  predicate Untouched(digest: Digest, row: Row) {
    row.hash == Some(digest.sha256(PayloadText(digest, HashedFields(row))))
  }

  /** The row names the hash of the row numbered just before it, of whatever tenant, and none without such a row. */
  ghost predicate LinkHolds(rows: seq<Row>, row: Row) {
    if other :| other in rows && other.seqNo + 1 == row.seqNo
    then row.prevHash == Some(if other.hash.Some? then other.hash.value else "")
    else row.prevHash == None
  }

  ghost predicate AllHold(digest: Digest, rows: seq<Row>, checked: seq<Row>) {
    forall row :: row in checked ==> Untouched(digest, row) && LinkHolds(rows, row)
  }

  lemma LinkHoldsIff(rows: seq<Row>, row: Row)
    requires Ascending(rows)
    ensures ChainIntact(rows, row) <==> LinkHolds(rows, row)
  {
    var n: nat := if row.seqNo > 1 then row.seqNo - 1 else 0;
    if other :| other in rows && other.seqNo + 1 == row.seqNo {
      HashAtStored(rows, other);
    } else {
      HashAtMissing(rows, n);
    }
  }

  lemma {:induction false} HashAtStored(rows: seq<Row>, row: Row)
    requires Ascending(rows) && row in rows
    ensures HashAt(rows, row.seqNo) == Some(if row.hash.Some? then row.hash.value else "")
  {
    if row == rows[|rows| - 1] {
    } else {
      AscendingInit(rows);
      HashAtStored(rows[..|rows| - 1], row);
    }
  }

  lemma {:induction false} HashAtMissing(rows: seq<Row>, n: nat)
    requires forall row :: row in rows ==> row.seqNo != n
    ensures HashAt(rows, n) == None
  {
    if rows == [] {
    } else {
      assert rows[|rows| - 1] in rows;
      HashAtMissing(rows[..|rows| - 1], n);
    }
  }

  lemma {:induction false} NoIssuesMeansIntact(digest: Digest, rows: seq<Row>, window: seq<Row>)
    ensures Issues(digest, rows, window) == [] <==>
            forall i :: 0 <= i < |window| ==> ContentIntact(digest, window[i]) && ChainIntact(rows, window[i])
  {
    hide ContentIntact, ChainIntact;
    if window == [] {
    } else {
      NoIssuesMeansIntact(digest, rows, window[..|window| - 1]);
      assert RowIssues(digest, rows, window[|window| - 1]) == [] <==>
             ContentIntact(digest, window[|window| - 1]) && ChainIntact(rows, window[|window| - 1]);
    }
  }

  lemma CleanIff(digest: Digest, rows: seq<Row>, window: seq<Row>)
    requires Ascending(rows)
    ensures Issues(digest, rows, window) == [] <==> AllHold(digest, rows, window)
  {
    hide HashedFields, PayloadText, Ascending, ChainIntact, LinkHolds;
    NoIssuesMeansIntact(digest, rows, window);
    forall row ensures ChainIntact(rows, row) <==> LinkHolds(rows, row) {
      LinkHoldsIff(rows, row);
    }
  }

  lemma {:induction false} SizeOfAscending(rows: seq<Row>)
    requires Ascending(rows)
    ensures |set row | row in rows| == |rows|
  {
    if rows == [] {
    } else {
      var most, last := rows[..|rows| - 1], rows[|rows| - 1];
      AscendingInit(rows);
      SizeOfAscending(most);
      assert (set row | row in rows) == (set row | row in most) + {last};
      assert last !in most;
    }
  }

  /** In ascending order the rows newer than the k-th are those after it. */
  lemma NewerCome(rows: seq<Row>, k: nat)
    requires Ascending(rows) && k < |rows|
    ensures |set row | row in rows && row.seqNo > rows[k].seqNo| == |rows| - 1 - k
  {
    var tail := rows[k + 1..];
    SizeOfAscending(tail);
    forall row | row in rows && row.seqNo > rows[k].seqNo ensures row in tail {
      var i :| 0 <= i < |rows| && rows[i] == row;
      assert tail[i - k - 1] == row;
    }
    assert (set row | row in rows && row.seqNo > rows[k].seqNo) == set row | row in tail;
  }

  lemma NewerSeen(rows: seq<Row>, tenant: Option<string>, k: nat)
    requires Ascending(Visible(rows, tenant)) && k < |Visible(rows, tenant)|
    ensures |Newer(rows, tenant, Visible(rows, tenant)[k])| == |Visible(rows, tenant)| - 1 - k
  {
    var visible := Visible(rows, tenant);
    NewerCome(visible, k);
    hide Ascending;
    assert Newer(rows, tenant, visible[k]) == set row | row in visible && row.seqNo > visible[k].seqNo;
  }

  lemma InWindow(visible: seq<Row>, window: seq<Row>, limit: nat, k: nat)
    requires Ascending(visible) && k < |visible|
    requires window == if |visible| <= limit then visible else visible[|visible| - limit..]
    ensures visible[k] in window <==> |visible| - 1 - k < limit
  {
    if |visible| > limit && k >= |visible| - limit {
      assert window[k - (|visible| - limit)] == visible[k];
    }
  }

  lemma WindowIsNewest(rows: seq<Row>, tenant: Option<string>, limit: nat)
    requires Ascending(rows)
    ensures NewestRows(rows, tenant, limit, Window(rows, tenant, limit))
  {
    hide *;
    VisibleAscending(rows, tenant);
    WindowAscending(rows, tenant, limit);
    WindowOfVisible(rows, tenant, limit);
    var visible, window := Visible(rows, tenant), Window(rows, tenant, limit);
    forall row ensures row in window <==> Sees(rows, tenant, row) && |Newer(rows, tenant, row)| < limit {
      if row in visible {
        var k :| 0 <= k < |visible| && visible[k] == row;
        NewerSeen(rows, tenant, k);
        InWindow(visible, window, limit, k);
      }
    }
    IsNewest(rows, tenant, limit, window);
  }

  lemma WindowOfVisible(rows: seq<Row>, tenant: Option<string>, limit: nat)
    ensures
      var visible, window := Visible(rows, tenant), Window(rows, tenant, limit);
      && window == (if |visible| <= limit then visible else visible[|visible| - limit..])
      && (forall row :: row in window ==> row in visible)
      && (forall row :: row in visible <==> Sees(rows, tenant, row))
  {
  }

  lemma IsNewest(rows: seq<Row>, tenant: Option<string>, limit: nat, newest: seq<Row>)
    requires Ascending(newest)
    requires forall row :: row in newest <==> Sees(rows, tenant, row) && |Newer(rows, tenant, row)| < limit
    ensures NewestRows(rows, tenant, limit, newest)
  {
  }

  /** The check covers min(limit, all) of the rows the reader sees. */
  lemma NewestCount(rows: seq<Row>, tenant: Option<string>, limit: nat)
    requires Ascending(rows)
    ensures |Window(rows, tenant, limit)| == if SeenCount(rows, tenant) <= limit then SeenCount(rows, tenant) else limit
  {
    VisibleAscending(rows, tenant);
    SizeOfAscending(Visible(rows, tenant));
    hide Ascending;
    assert (set row | row in rows && Sees(rows, tenant, row)) == set row | row in Visible(rows, tenant);
  }

  // ---------------------------------------------------------------------
  // Order
  // ---------------------------------------------------------------------

  lemma AscendingSnoc(rows: seq<Row>, last: Row)
    requires Ascending(rows) && last.seqNo >= 1 && forall row :: row in rows ==> row.seqNo < last.seqNo
    ensures Ascending(rows + [last])
  {
  }

  lemma AscendingInit(rows: seq<Row>)
    requires Ascending(rows) && rows != []
    ensures Ascending(rows[..|rows| - 1])
    ensures forall row :: row in rows[..|rows| - 1] ==> row.seqNo < rows[|rows| - 1].seqNo
  {
  }

  lemma {:induction false} VisibleAscending(rows: seq<Row>, tenant: Option<string>)
    requires Ascending(rows)
    ensures Ascending(Visible(rows, tenant))
  {
    if rows == [] {
    } else {
      AscendingInit(rows);
      VisibleAscending(rows[..|rows| - 1], tenant);
      AscendingSnoc(Visible(rows[..|rows| - 1], tenant), rows[|rows| - 1]);
    }
  }

  lemma WindowAscending(rows: seq<Row>, tenant: Option<string>, limit: nat)
    requires Ascending(rows)
    ensures Ascending(Window(rows, tenant, limit))
  {
    VisibleAscending(rows, tenant);
    hide Visible;
  }

  lemma {:induction false} RetainedAscending(rows: seq<Row>, tenant: string, cutoff: int)
    requires Ascending(rows)
    ensures Ascending(Retained(rows, tenant, cutoff))
  {
    if rows == [] {
    } else {
      AscendingInit(rows);
      RetainedAscending(rows[..|rows| - 1], tenant, cutoff);
      AscendingSnoc(Retained(rows[..|rows| - 1], tenant, cutoff), rows[|rows| - 1]);
    }
  }
}
