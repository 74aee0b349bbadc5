/**
  The device authorization grant: the polling arithmetic of a sequential
  device, and the status of a code when polls, decisions and cleanup interleave
  statement by statement.
 */
module DeviceCodes {
  import opened Options

  type Id = nat

  const LIFETIME_MS: nat := 10 * 60 * 1000
  const FIRST_INTERVAL: nat := 5

  datatype Status = Pending | Approved | Denied | Redeemed

  datatype DeviceRow = DeviceRow(
    clientId: Id, tenantId: Id, scope: string, status: Status, userId: Option<Id>,
    interval: nat, lastPolledAt: Option<nat>, pollCount: nat, expiresAt: nat
  )

  datatype Answer =
    | UnknownCode | Expired | AccessDenied | AlreadyRedeemed | SlowDown | AuthorizationPending
    | NotApproved | UserNotFound
    | Tokens(userId: Id, scope: string)

  function NewCode(client: Id, tenant: Id, scope: string, now: nat): DeviceRow {
    DeviceRow(client, tenant, scope, Pending, None, FIRST_INTERVAL, None, 0, now + LIFETIME_MS)
  }

  /** The poll came before the interval was over. */
  predicate TooSoon(row: DeviceRow, now: nat) {
    row.lastPolledAt.Some? && now - row.lastPolledAt.value < row.interval * 1000
  }

  /** A poll of a row, run without interruption: the new row and the answer. */
  function Polled(row: DeviceRow, now: nat, userExists: bool): (DeviceRow, Answer) {
    if row.expiresAt < now then (row, Expired)
    else match row.status
      case Denied => (row, AccessDenied)
      case Redeemed => (row, AlreadyRedeemed)
      case Pending =>
        var seen := row.(lastPolledAt := Some(now), pollCount := row.pollCount + 1);
        if TooSoon(row, now) then (seen.(interval := row.interval + 5), SlowDown) else (seen, AuthorizationPending)
      case Approved =>
        (row.(status := Redeemed),
         if row.userId.None? then NotApproved
         else if !userExists then UserNotFound
         else Tokens(row.userId.value, if row.scope == "" then "openid" else row.scope))
  }

  /** When a poll gets which answer: one case for each, in the words of the grant. */
  predicate AnswerFits(row: DeviceRow, now: nat, userExists: bool, answer: Answer) {
    var inTime := now <= row.expiresAt;
    var waited := row.lastPolledAt.None? || row.lastPolledAt.value + 1000 * row.interval <= now;
    match answer
    case UnknownCode => false
    case Expired => !inTime
    case AccessDenied => inTime && row.status == Denied
    case AlreadyRedeemed => inTime && row.status == Redeemed
    case SlowDown => inTime && row.status == Pending && !waited
    case AuthorizationPending => inTime && row.status == Pending && waited
    case NotApproved => inTime && row.status == Approved && row.userId == None
    case UserNotFound => inTime && row.status == Approved && row.userId.Some? && !userExists
    case Tokens(user, scope) =>
      && inTime && row.status == Approved && row.userId == Some(user) && userExists
      && (if row.scope != "" then scope == row.scope else scope == "openid")
  }

  /** What a poll writes: the poll itself while the code is pending, five seconds more after a slow_down, and the
      redemption of an approved code, whether or not its user still exists. */
  predicate RowFits(before: DeviceRow, after: DeviceRow, now: nat, answer: Answer) {
    match answer
    case SlowDown =>
      after == before.(interval := before.interval + 5, lastPolledAt := Some(now), pollCount := before.pollCount + 1)
    case AuthorizationPending => after == before.(lastPolledAt := Some(now), pollCount := before.pollCount + 1)
    case Tokens(_, _) => after == before.(status := Redeemed)
    case UserNotFound => after == before.(status := Redeemed)
    case NotApproved => after == before.(status := Redeemed)
    case _ => after == before
  }

  lemma PolledFits(row: DeviceRow, now: nat, userExists: bool)
    ensures
      var (after, answer) := Polled(row, now, userExists);
      AnswerFits(row, now, userExists, answer) && RowFits(row, after, now, answer)
  {
  }

  lemma PollFits(rows: map<Id, DeviceRow>, code: Id, now: nat, userExists: bool)
    ensures code in rows ==>
      var (after, answer) := Polled(rows[code], now, userExists);
      AnswerFits(rows[code], now, userExists, answer) && RowFits(rows[code], after, now, answer)
  {
    hide *;
    if code in rows { PolledFits(rows[code], now, userExists); }
  }

  /** The cases exclude each other, so each answer is given exactly in its case: tokens exactly for an approved code of
      an existing user, in time. */
  lemma AnswerIff(row: DeviceRow, now: nat, userExists: bool, answer: Answer)
    ensures Polled(row, now, userExists).1 == answer <==> AnswerFits(row, now, userExists, answer)
  {
  }

  class DeviceCodeTable {
    var rows: map<Id, DeviceRow>

    constructor ()
      ensures rows == map[]
    {
      rows := map[];
    }

    /** The token endpoint's device_code grant. */
    method Handle(code: Id, client: Id, tenant: Id, now: nat, userExists: bool) returns (answer: Answer)
      modifies this
      ensures
        if code in old(rows) && old(rows)[code].clientId == client && old(rows)[code].tenantId == tenant then
          rows == old(rows)[code := Polled(old(rows)[code], now, userExists).0]
          && answer == Polled(old(rows)[code], now, userExists).1
        else rows == old(rows) && answer == UnknownCode
      ensures code in old(rows) && old(rows)[code].clientId == client && old(rows)[code].tenantId == tenant ==>
        AnswerFits(old(rows)[code], now, userExists, answer) && RowFits(old(rows)[code], rows[code], now, answer)
    {
      PollFits(rows, code, now, userExists);
      hide AnswerFits, RowFits;
      if code !in rows || rows[code].clientId != client || rows[code].tenantId != tenant {
        return UnknownCode;
      }
      var row := rows[code];
      assert rows == rows[code := row];
      if row.expiresAt < now {
        return Expired;
      }
      if row.status == Denied {
        return AccessDenied;
      }
      if row.status == Redeemed {
        return AlreadyRedeemed;
      }
      if row.status == Pending {
        if row.lastPolledAt.Some? && now - row.lastPolledAt.value < row.interval * 1000 {
          var newInterval := row.interval + 5;
          rows := rows[code := row.(interval := newInterval, lastPolledAt := Some(now),
                                    pollCount := row.pollCount + 1)];
          return SlowDown;
        }
        rows := rows[code := row.(lastPolledAt := Some(now), pollCount := row.pollCount + 1)];
        return AuthorizationPending;
      }
      rows := rows[code := row.(status := Redeemed)];
      if row.userId.None? {
        return NotApproved;
      }
      if !userExists {
        return UserNotFound;
      }
      return Tokens(row.userId.value, if row.scope == "" then "openid" else row.scope);
    }

    /** POST /device/approve */
    method Approve(code: Id, tenant: Id, user: Id, now: nat) returns (approved: bool)
      modifies this
      ensures approved <==>
        && code in old(rows) && old(rows)[code].tenantId == tenant && old(rows)[code].status == Pending
        && now < old(rows)[code].expiresAt
      ensures rows == if approved then old(rows)[code := old(rows)[code].(status := Approved, userId := Some(user))]
          else old(rows)
    {
      approved := Decidable(rows, code, tenant, now);
      if approved {
        rows := rows[code := rows[code].(status := Approved, userId := Some(user))];
      }
    }

    /** POST /device/deny */
    method Deny(code: Id, tenant: Id, now: nat) returns (denied: bool)
      modifies this
      ensures denied <==>
        && code in old(rows) && old(rows)[code].tenantId == tenant && old(rows)[code].status == Pending
        && now < old(rows)[code].expiresAt
      ensures rows == if denied then old(rows)[code := old(rows)[code].(status := Denied)] else old(rows)
    {
      denied := Decidable(rows, code, tenant, now);
      if denied {
        rows := rows[code := rows[code].(status := Denied)];
      }
    }
  }

  /** The WHERE clause of approve and deny. */
  predicate Decidable(rows: map<Id, DeviceRow>, code: Id, tenant: Id, now: nat) {
    code in rows && rows[code].tenantId == tenant && rows[code].status == Pending && now < rows[code].expiresAt
  }

  // ---------------------------------------------------------------------
  // A device polling a pending code, one poll after the other
  // ---------------------------------------------------------------------

  /** The row after polls at the given times, starting from a new code. */
  function After(issued: DeviceRow, times: seq<nat>): DeviceRow {
    if times == [] then issued
    else Polled(After(issued, times[..|times| - 1]), times[|times| - 1], true).0
  }

  function AnswerTo(issued: DeviceRow, times: seq<nat>, k: nat): Answer
    requires k < |times|
  {
    Polled(After(issued, times[..k]), times[k], true).1
  }

  /** How many of the polls got this answer. */
  function Count(issued: DeviceRow, times: seq<nat>, answer: Answer): nat {
    if times == [] then 0 else
      Count(issued, times[..|times| - 1], answer)
      + if AnswerTo(issued, times, |times| - 1) == answer then 1 else 0
  }

  predicate InOrder(times: seq<nat>, start: nat) {
    && (forall k :: 0 <= k < |times| ==> start <= times[k])
    && (forall j, k :: 0 <= j < k < |times| ==> times[j] <= times[k])
  }

  lemma PrefixInOrder(times: seq<nat>, start: nat)
    requires times != [] && InOrder(times, start)
    ensures InOrder(times[..|times| - 1], start)
  {
  }

  /** What a pending code has recorded after any sequential polling. */
  ghost predicate Recorded(issued: DeviceRow, times: seq<nat>, start: nat) {
    var row := After(issued, times);
    && row == issued.(interval := row.interval, lastPolledAt := row.lastPolledAt, pollCount := row.pollCount)
    && row.interval == 5 + 5 * Count(issued, times, SlowDown)
    && row.pollCount == Count(issued, times, SlowDown) + Count(issued, times, AuthorizationPending)
    && (row.lastPolledAt.None? <==> row.pollCount == 0)
    && (row.lastPolledAt.Some? ==>
          && |times| > 0 && row.lastPolledAt.value <= times[|times| - 1]
          && row.lastPolledAt.value <= issued.expiresAt
          && start + 5000 * (Count(issued, times, AuthorizationPending) - 1) <= row.lastPolledAt.value)
    && |times| == row.pollCount + Count(issued, times, Expired)
  }

  lemma {:induction false} PollingRecorded(client: Id, tenant: Id, scope: string, start: nat, times: seq<nat>)
    requires InOrder(times, start)
    ensures Recorded(NewCode(client, tenant, scope, start), times, start)
  {
    var issued := NewCode(client, tenant, scope, start);
    if times == [] {
    } else {
      PrefixInOrder(times, start);
      PollingRecorded(client, tenant, scope, start, times[..|times| - 1]);
      assert times[..|times| - 1][..|times| - 1] == times[..|times| - 1];
    }
  }

  /** The interval grows by five for every slow_down, every poll in time is counted, and at most 121
      authorization_pending answers fit into the ten minutes a code lives. */
  lemma PollingArithmetic(client: Id, tenant: Id, scope: string, start: nat, times: seq<nat>)
    requires InOrder(times, start)
    ensures
      var issued := NewCode(client, tenant, scope, start);
      var row := After(issued, times);
      && row.status == Pending
      && row.interval == 5 + 5 * Count(issued, times, SlowDown)
      && row.pollCount == Count(issued, times, SlowDown) + Count(issued, times, AuthorizationPending)
          == |times| - Count(issued, times, Expired)
      && Count(issued, times, AuthorizationPending) <= 121
  {
    PollingRecorded(client, tenant, scope, start, times);
  }

  /** An authorization_pending answer comes at least the interval after the poll before it, whatever that one was
      told. */
  lemma {:induction false} PendingWaited(client: Id, tenant: Id, scope: string, start: nat, times: seq<nat>, k: nat)
    requires InOrder(times, start) && 0 < k < |times|
    requires AnswerTo(NewCode(client, tenant, scope, start), times, k) == AuthorizationPending
    ensures times[k - 1] + After(NewCode(client, tenant, scope, start), times[..k]).interval * 1000 <= times[k]
  {
    var issued := NewCode(client, tenant, scope, start);
    PollingRecorded(client, tenant, scope, start, times[..k - 1]);
    PollingRecorded(client, tenant, scope, start, times[..k]);
    assert times[..k][..k - 1] == times[..k - 1];
    assert times[k - 1] <= times[k] <= issued.expiresAt;
  }

  /** Polls every five seconds, from the moment the code was issued. */
  function EveryFive(start: nat, n: nat): (times: seq<nat>)
    ensures |times| == n && forall k :: 0 <= k < n ==> times[k] == start + 5000 * k
  {
    seq(n, k requires 0 <= k < n => start + 5000 * k)
  }

  lemma {:induction false} EveryFivePending(issued: DeviceRow, start: nat, n: nat)
    requires n <= 121 && issued == NewCode(issued.clientId, issued.tenantId, issued.scope, start)
    ensures Count(issued, EveryFive(start, n), AuthorizationPending) == n
    ensures After(issued, EveryFive(start, n)).interval == 5 && After(issued, EveryFive(start, n)).status == Pending
    ensures After(issued, EveryFive(start, n)).expiresAt == issued.expiresAt
    ensures After(issued, EveryFive(start, n)).lastPolledAt == if n == 0 then None else Some(start + 5000 * (n - 1))
  {
    if n == 0 {
    } else {
      EveryFivePending(issued, start, n - 1);
      assert EveryFive(start, n)[..n - 1] == EveryFive(start, n - 1);
    }
  }

  /** The bound of 121 is met by a device that polls every five seconds. */
  lemma BoundIsTight(client: Id, tenant: Id, scope: string, start: nat)
    ensures InOrder(EveryFive(start, 121), start)
    ensures Count(NewCode(client, tenant, scope, start), EveryFive(start, 121), AuthorizationPending) == 121
  {
    EveryFivePending(NewCode(client, tenant, scope, start), start, 121);
    hide Count;
  }
}
