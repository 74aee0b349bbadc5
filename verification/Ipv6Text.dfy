/** IPv6 addresses as texts: the validator, the expansion, and the addresses the accepted texts stand for. */
module Ipv6Text {
  import opened Options
  import opened JsBits
  import opened JsText
  import opened Ipv4Text

  // ---------------------------------------------------------------------
  // The code's functions
  // ---------------------------------------------------------------------

  /** s.split('::') */
  function SplitPairs(s: string): (parts: seq<string>)
    ensures parts != []
    decreases |s|
  {
    if |s| < 2 then [s]
    else if s[0] == ':' && s[1] == ':' then [""] + SplitPairs(s[2..])
    else
      var rest := SplitPairs(s[1..]);
      [[s[0]] + rest[0]] + rest[1..]
  }

  /** g ? g.split(':') : [] */
  function GroupsOf(part: string): seq<string> {
    if part == "" then [] else Split(part, ':')
  }

  function AllGroups(parts: seq<string>): seq<string> {
    if parts == [] then [] else GroupsOf(parts[0]) + AllGroups(parts[1..])
  }

  predicate IsHexChar(c: char) {
    '0' <= c <= '9' || 'a' <= c <= 'f' || 'A' <= c <= 'F'
  }

  /** /^[0-9a-fA-F]{1,4}$/ */
  predicate IsGroup(g: string) {
    1 <= |g| <= 4 && forall c :: c in g ==> IsHexChar(c)
  }

  /** A group is one to four hexadecimal digits of either case. */
  lemma GroupIff(g: string)
    ensures IsGroup(g) <==> 0 < |g| < 5 && forall k :: 0 <= k < |g| ==> g[k] in "0123456789abcdefABCDEF"
  {
    forall c: char ensures IsHexChar(c) <==> c in "0123456789abcdefABCDEF" {
      HexChars(c);
    }
  }

  lemma HexChars(c: char)
    ensures IsHexChar(c) <==> c in "0123456789abcdefABCDEF"
  {
    if IsHexChar(c) {
      var digits := "0123456789abcdefABCDEF";
      if '0' <= c <= '9' { assert digits[c as int - 48] == c; }
      else if 'a' <= c <= 'f' { assert digits[10 + c as int - 97] == c; }
      else { assert digits[16 + c as int - 65] == c; }
    }
  }

  lemma HexDigits(v: nat)
    requires v < 16
    ensures HexCharValue("0123456789abcdef"[v]) == v && HexCharValue("0123456789ABCDEF"[v]) == v
  {
  }

  predicate IsValidIpv6(ip: string) {
    var parts := SplitPairs(ip);
    var groups := AllGroups(parts);
    && |parts| <= 2
    && |groups| <= (if |parts| == 2 then 7 else 8)
    && forall g :: g in groups ==> IsGroup(g)
  }

  /** g.padStart(4, '0') */
  function Pad4(g: string): string {
    if |g| >= 4 then g else "0000"[|g|..] + g
  }

  function Padded(groups: seq<string>): (padded: seq<string>)
    ensures |padded| == |groups| && forall k :: 0 <= k < |groups| ==> padded[k] == Pad4(groups[k])
  {
    seq(|groups|, k requires 0 <= k < |groups| => Pad4(groups[k]))
  }

  function Zeros(n: nat): (z: seq<string>)
    ensures |z| == n && forall k :: 0 <= k < n ==> z[k] == "0000"
  {
    seq(n, _ => "0000")
  }

  /** expandIpv6; None where Array(missing) throws. */
  function ExpandIpv6(ip: string): Option<string> {
    var parts := SplitPairs(ip);
    if |parts| > 1 then
      var left, right := GroupsOf(parts[0]), GroupsOf(parts[1]);
      var missing := 8 - |left| - |right|;
      if missing < 0 then None else Some(Join(Padded(left + Zeros(missing) + right), ':'))
    else Some(Join(Padded(Split(ip, ':')), ':'))
  }

  function HexCharValue(c: char): (v: nat)
    ensures v < 16
  {
    if '0' <= c <= '9' then (c - '0') as nat
    else if 'a' <= c <= 'f' then (c - 'a') as nat + 10
    else if 'A' <= c <= 'F' then (c - 'A') as nat + 10
    else 0
  }

  function LeadingHex(s: string): (p: string)
    ensures forall c :: c in p ==> IsHexChar(c)
  {
    if s == [] || !IsHexChar(s[0]) then [] else [s[0]] + LeadingHex(s[1..])
  }

  function HexNumber(digits: string): nat {
    if digits == [] then 0 else HexNumber(digits[..|digits| - 1]) * 16 + HexCharValue(digits[|digits| - 1])
  }

  /** parseInt(s, 16) of a text without sign and 0x; None is NaN. */
  function ParseHex(s: string): Option<nat> {
    var digits := LeadingHex(s);
    if digits == [] then None else Some(HexNumber(digits))
  }

  /** The reduce of ipv6ToBigInt; None where BigInt(NaN) throws. */
  function Shifted(groups: seq<string>, acc: nat): Option<nat> {
    if groups == [] then Some(acc) else
      var n := ParseHex(groups[0]);
      if n.None? then None else Shifted(groups[1..], Or(acc * Pow2(16), n.value))
  }

  function Ipv6ToBigInt(ip: string): Option<nat> {
    Shifted(Split(ip, ':'), 0)
  }

  // ---------------------------------------------------------------------
  // The addresses the texts stand for
  // ---------------------------------------------------------------------

  /** An address written in full, or with one "::". */
  datatype Address = Full(groups: seq<string>) | Compressed(left: seq<string>, right: seq<string>)

  predicate AreGroups(groups: seq<string>) {
    forall g :: g in groups ==> IsGroup(g)
  }

  predicate WellFormed(a: Address) {
    match a
    case Full(groups) => AreGroups(groups) && |groups| <= 8
    case Compressed(left, right) => AreGroups(left) && AreGroups(right) && |left| + |right| <= 7
  }

  function Text6(a: Address): string {
    match a
    case Full(groups) => Join(groups, ':')
    case Compressed(left, right) => Join(left, ':') + "::" + Join(right, ':')
  }

  /** The groups written out: "::" stands for as many zero groups as are missing. */
  function Written(a: Address): seq<string>
    requires WellFormed(a)
  {
    match a
    case Full(groups) => if groups == [] then [""] else groups
    case Compressed(left, right) => left + Zeros(8 - |left| - |right|) + right
  }

  function GroupsValue(groups: seq<string>): nat {
    if groups == [] then 0 else GroupsValue(groups[..|groups| - 1]) * 65536 + HexNumber(groups[|groups| - 1])
  }

  function Value6(a: Address): nat
    requires WellFormed(a)
  {
    GroupsValue(Written(a))
  }

  // ---------------------------------------------------------------------
  // Splitting at "::"
  // ---------------------------------------------------------------------

  predicate NoPair(s: string) {
    forall k :: 0 <= k < |s| - 1 ==> !(s[k] == ':' && s[k + 1] == ':')
  }

  lemma {:induction false} SplitNoPair(s: string)
    requires NoPair(s)
    ensures SplitPairs(s) == [s]
    decreases |s|
  {
    if |s| < 2 {
    } else {
      assert NoPair(s[1..]);
      SplitNoPair(s[1..]);
      assert !(s[0] == ':' && s[0 + 1] == ':');
      assert [s[0]] + s[1..] == s;
    }
  }

  lemma {:induction false} SplitOnePair(left: string, right: string)
    requires NoPair(left) && (left == [] || left[|left| - 1] != ':')
    ensures SplitPairs(left + "::" + right) == [left] + SplitPairs(right)
    decreases |left|
  {
    var s := left + "::" + right;
    if left == [] {
      assert s == "::" + right && s[2..] == right;
    } else {
      var rest := left[1..];
      assert NoPair(rest);
      SplitOnePair(rest, right);
      assert s[1..] == rest + "::" + right;
      assert s[0] == left[0] && (|left| > 1 ==> s[1] == left[1]);
      assert !(s[0] == ':' && s[1] == ':');
      assert ([rest] + SplitPairs(right))[1..] == SplitPairs(right);
      assert [left[0]] + rest == left;
    }
  }

  lemma GroupHasNoColon(g: string)
    requires IsGroup(g)
    ensures ':' !in g && '/' !in g && '.' !in g
  {
  }

  /** Joined groups hold no pair of colons and neither start nor end with one. */
  lemma {:induction false} JoinedGroups(groups: seq<string>)
    requires AreGroups(groups)
    ensures NoPair(Join(groups, ':'))
    ensures groups != [] ==>
      var s := Join(groups, ':');
      s != [] && s[0] != ':' && s[|s| - 1] != ':'
    ensures '/' !in Join(groups, ':') && '.' !in Join(groups, ':')
  {
    if groups == [] {
    } else if |groups| == 1 {
      GroupHasNoColon(groups[0]);
      assert Join(groups, ':') == groups[0];
    } else {
      var head, tail := groups[0], Join(groups[1..], ':');
      JoinedGroups(groups[1..]);
      GroupHasNoColon(head);
      JoinTwo(head, tail);
      assert Join(groups, ':') == head + ":" + tail;
    }
  }

  lemma JoinTwo(head: string, tail: string)
    requires head != [] && ':' !in head && NoPair(tail) && tail != [] && tail[0] != ':' && tail[|tail| - 1] != ':'
    requires '/' !in head && '.' !in head && '/' !in tail && '.' !in tail
    ensures
      var s := head + ":" + tail;
      NoPair(s) && s != [] && s[0] != ':' && s[|s| - 1] != ':' && '/' !in s && '.' !in s
  {
    var s := head + ":" + tail;
    forall k | 0 <= k < |s| - 1 ensures !(s[k] == ':' && s[k + 1] == ':') {
      if k < |head| {
        assert s[k] == head[k] && head[k] in head;
      } else if k > |head| {
        assert s[k] == tail[k - |head| - 1] && s[k + 1] == tail[k - |head|];
      }
    }
  }

  lemma JoinedSplits(groups: seq<string>)
    requires AreGroups(groups)
    ensures GroupsOf(Join(groups, ':')) == groups
    ensures groups != [] ==> Split(Join(groups, ':'), ':') == groups
  {
    if groups != [] {
      JoinedGroups(groups);
      forall g | g in groups ensures ':' !in g {
        GroupHasNoColon(g);
      }
      SplitJoin(groups, ':');
    }
  }

  lemma TextSplits6(a: Address)
    requires WellFormed(a)
    ensures SplitPairs(Text6(a)) == match a
                                    case Full(groups) => [Join(groups, ':')]
                                    case Compressed(left, right) => [Join(left, ':'), Join(right, ':')]
  {
    match a
    case Full(groups) =>
      JoinedGroups(groups);
      SplitNoPair(Join(groups, ':'));
    case Compressed(left, right) =>
      JoinedGroups(left);
      JoinedGroups(right);
      SplitNoPair(Join(right, ':'));
      SplitOnePair(Join(left, ':'), Join(right, ':'));
  }

  /** Every well-formed address is accepted. */
  lemma AddressIsValid(a: Address)
    requires WellFormed(a)
    ensures IsValidIpv6(Text6(a))
  {
    TextSplits6(a);
    hide SplitPairs, GroupsOf, Join, IsGroup;
    match a
    case Full(groups) =>
      JoinedSplits(groups);
      OneGroups(Join(groups, ':'));
    case Compressed(left, right) =>
      JoinedSplits(left);
      JoinedSplits(right);
      TwoGroups(Join(left, ':'), Join(right, ':'));
  }

  lemma OneGroups(a: string)
    ensures AllGroups([a]) == GroupsOf(a)
  {
    hide GroupsOf;
    assert AllGroups([a][1..]) == [];
  }

  lemma TwoGroups(a: string, b: string)
    ensures AllGroups([a, b]) == GroupsOf(a) + GroupsOf(b)
  {
    hide GroupsOf;
    OneGroups(b);
    assert [a, b][1..] == [b];
  }

  /** The address a valid text stands for. */
  function AddressOf(ip: string): Address {
    var parts := SplitPairs(ip);
    if |parts| == 2 then Compressed(GroupsOf(parts[0]), GroupsOf(parts[1])) else Full(GroupsOf(parts[0]))
  }

  lemma {:induction false} JoinPairs(s: string)
    ensures |SplitPairs(s)| == 1 ==> SplitPairs(s)[0] == s
    ensures |SplitPairs(s)| == 2 ==> SplitPairs(s)[0] + "::" + SplitPairs(s)[1] == s
    decreases |s|
  {
    if |s| < 2 {
    } else {
      if s[0] == ':' && s[1] == ':' {
        JoinPairs(s[2..]);
        assert s == "::" + s[2..];
      } else {
        JoinPairs(s[1..]);
        assert s == [s[0]] + s[1..];
      }
    }
  }

  lemma GroupsJoin(part: string)
    ensures Join(GroupsOf(part), ':') == part
  {
    if part != "" {
      JoinSplit(part, ':');
    }
  }

  /** Nothing but well-formed addresses is accepted. */
  lemma ValidIsAddress(ip: string)
    requires IsValidIpv6(ip)
    ensures WellFormed(AddressOf(ip)) && Text6(AddressOf(ip)) == ip
  {
    var parts := SplitPairs(ip);
    JoinPairs(ip);
    hide SplitPairs, GroupsOf, Join, IsGroup;
    GroupsJoin(parts[0]);
    if |parts| == 2 {
      assert parts == [parts[0], parts[1]];
      GroupsJoin(parts[1]);
      TwoGroups(parts[0], parts[1]);
    } else {
      assert parts == [parts[0]];
      OneGroups(parts[0]);
    }
  }
}
