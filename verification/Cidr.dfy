/**
  CIDR entries of a tenant's IP whitelist: parsing an entry, and whether an
  address matches it.
 */
module Cidr {
  import opened Options
  import opened JsBits
  import opened JsText
  import opened CidrBits
  import opened Ipv4Text
  import opened Ipv6Text
  import Ipv6Values

  datatype Version = V4 | V6

  datatype Parsed = Parsed(ip: string, prefix: nat, version: Version)

  /** parseCidr */
  function ParseCidr(cidr: string): Option<Parsed> {
    var parts := Split(cidr, '/');
    if |parts| != 2 then None
    else
      var prefix := ParseInt(parts[1]);
      if prefix.None? || IntText(prefix.value) != parts[1] then None
      else if IsValidIpv4(parts[0]) && 0 <= prefix.value <= 32 then Some(Parsed(parts[0], prefix.value, V4))
      else if IsValidIpv6(parts[0]) && 0 <= prefix.value <= 128 then Some(Parsed(parts[0], prefix.value, V6))
      else None
  }

  /** The value isIpv6InCidr masks. */
  function BigIntOf(ip: string): Option<nat> {
    var e := ExpandIpv6(ip);
    if e.None? then None else Ipv6ToBigInt(e.value)
  }

  /** isIpInCidr */
  predicate IsIpInCidr(ip: string, cidr: string) {
    var parsed := ParseCidr(cidr);
    if parsed.None? then false
    else
      var Parsed(network, prefix, version) := parsed.value;
      if version.V4? then
        IsValidIpv4(ip) && prefix <= 32 && MaskTest4(Ipv4ToInt(ip), Ipv4ToInt(network), prefix)
      else
        var a, b := BigIntOf(ip), BigIntOf(network);
        IsValidIpv6(ip) && prefix <= 128 && a.Some? && b.Some? && MaskTest6(a.value, b.value, prefix)
  }

  /** ipWhitelistGuard: no entries, or one that matches. */
  method Allows(clientIp: string, entries: seq<string>) returns (allowed: bool)
    ensures allowed <==> entries == [] || exists k :: 0 <= k < |entries| && IsIpInCidr(clientIp, entries[k])
  {
    hide *;
    if |entries| == 0 {
      return true;
    }
    var k := 0;
    while k < |entries|
      invariant 0 <= k <= |entries|
      invariant forall j :: 0 <= j < k ==> !IsIpInCidr(clientIp, entries[j])
    {
      if IsIpInCidr(clientIp, entries[k]) {
        return true;
      }
      k := k + 1;
    }
    return false;
  }

  // ---------------------------------------------------------------------
  // Parsing
  // ---------------------------------------------------------------------

  function EntryText(network: string, prefix: nat): string {
    network + "/" + Decimal(prefix)
  }

  lemma EntrySplits(network: string, prefix: nat)
    requires '/' !in network
    ensures Split(EntryText(network, prefix), '/') == [network, Decimal(prefix)]
    ensures ParseInt(Decimal(prefix)) == Some(prefix)
  {
    DecimalHasNo(prefix, '/');
    hide Decimal, Split, ParseInt;
    SplitFirst(network, '/', Decimal(prefix));
    SplitFirst(Decimal(prefix), '/', []);
    ParseDecimal(prefix, []);
    assert Decimal(prefix) + [] == Decimal(prefix);
    assert network + ['/'] + Decimal(prefix) == EntryText(network, prefix);
  }

  lemma {:induction false} SplitPresent(s: string, c: char, d: char)
    requires d !in s
    ensures forall p :: p in Split(s, c) ==> d !in p
    decreases |s|
  {
    if s == [] {
    } else {
      forall e | e in s[1..] ensures e != d {
        assert e in s;
      }
      SplitPresent(s[1..], c, d);
      assert s[0] in s;
    }
  }

  lemma {:induction false} SplitAbsent(s: string, c: char)
    requires c !in s
    ensures Split(s, c) == [s]
  {
    SplitFirst(s, c, []);
  }

  lemma QuadHasNoSlash(o: seq<nat>)
    requires Octets(o)
    ensures '/' !in Text4(o) && ':' !in Text4(o)
  {
    forall p | p in Parts(o) ensures '/' !in p && ':' !in p {
      var k :| 0 <= k < 4 && p == Parts(o)[k];
      DecimalHasNo(o[k], '/');
      DecimalHasNo(o[k], ':');
    }
    JoinHasNo(Parts(o), '.', '/');
    JoinHasNo(Parts(o), '.', ':');
  }

  lemma {:induction false} JoinHasNo(parts: seq<string>, c: char, d: char)
    requires c != d && forall p :: p in parts ==> d !in p
    ensures d !in Join(parts, c)
  {
    if |parts| <= 1 {
    } else {
      JoinHasNo(parts[1..], c, d);
    }
  }

  lemma AddressHasNo(a: Address)
    requires WellFormed(a)
    ensures '/' !in Text6(a) && '.' !in Text6(a)
  {
    hide IsGroup, Join;
    match a
    case Full(groups) => JoinedGroups(groups);
    case Compressed(left, right) =>
      JoinedGroups(left);
      JoinedGroups(right);
  }

  /** A text with a dot is no IPv6 address, one without is no IPv4 address. */
  lemma NotBoth(ip: string)
    ensures !(IsValidIpv4(ip) && IsValidIpv6(ip))
  {
    if IsValidIpv6(ip) {
      ValidIsAddress(ip);
      AddressHasNo(AddressOf(ip));
      SplitAbsent(ip, '.');
    }
  }

  // ---------------------------------------------------------------------
  // Matching
  // ---------------------------------------------------------------------

  /** An IPv4 address matches an IPv4 entry exactly when their leading prefix bits agree. */
  lemma Ipv4Matches(ip: seq<nat>, network: seq<nat>, prefix: nat)
    requires Octets(ip) && Octets(network) && prefix <= 32
    ensures ParseCidr(EntryText(Text4(network), prefix)) == Some(Parsed(Text4(network), prefix, V4))
    ensures IsIpInCidr(Text4(ip), EntryText(Text4(network), prefix)) <==>
      Leading(Value4(ip), 32 - prefix) == Leading(Value4(network), 32 - prefix)
  {
    hide MaskTest4, IsValidIpv4, IsValidIpv6, Ipv4ToInt, Split, ParseInt, Text4, Value4, Leading, Octets, EntryText;
    QuadHasNoSlash(network);
    EntrySplits(Text4(network), prefix);
    QuadIsRead(ip);
    QuadIsRead(network);
    Mask4IsPrefixEquality(Value4(ip), Value4(network), prefix);
  }

  lemma ReadAddress(a: Address)
    requires WellFormed(a)
    ensures BigIntOf(Text6(a)) == Some(Value6(a)) && Value6(a) < Pow2(128)
  {
    Ipv6Values.ExpansionKeepsValue(a);
    assert |Written(a)| <= 8;
    hide Pow2, Value6, Text6, ExpandIpv6, Ipv6ToBigInt;
    Pow2Grows(16 * |Written(a)|, 128);
  }

  /** An IPv6 address matches an IPv6 entry exactly when their leading prefix bits agree. */
  lemma Ipv6Matches(ip: Address, network: Address, prefix: nat)
    requires WellFormed(ip) && WellFormed(network) && prefix <= 128
    ensures ParseCidr(EntryText(Text6(network), prefix)) == Some(Parsed(Text6(network), prefix, V6))
    ensures IsIpInCidr(Text6(ip), EntryText(Text6(network), prefix)) <==>
      Leading(Value6(ip), 128 - prefix) == Leading(Value6(network), 128 - prefix)
  {
    hide MaskTest6, MaskTest4, IsValidIpv4, IsValidIpv6, BigIntOf, Split, ParseInt, Text6, Value6, Leading, WellFormed,
         EntryText, Pow2;
    AddressHasNo(network);
    EntrySplits(Text6(network), prefix);
    AddressIsValid(ip);
    AddressIsValid(network);
    NotBoth(Text6(network));
    ReadAddress(ip);
    ReadAddress(network);
    Mask6IsPrefixEquality(Value6(ip), Value6(network), prefix);
  }

  /** What an entry is read as is written in it. */
  lemma ParsedEntry(cidr: string)
    requires ParseCidr(cidr).Some?
    ensures
      var Parsed(network, prefix, version) := ParseCidr(cidr).value;
      && cidr == EntryText(network, prefix)
      && (if version.V4? then IsValidIpv4(network) && prefix <= 32 else IsValidIpv6(network) && prefix <= 128)
  {
    var parts := Split(cidr, '/');
    JoinSplit(cidr, '/');
    assert parts == [parts[0], parts[1]];
    hide Split, ParseInt, IsValidIpv4, IsValidIpv6;
    assert parts[1..] == [parts[1]];
    assert Join(parts, '/') == parts[0] + ['/'] + parts[1];
  }

  /** Only an address and an entry of the same version ever match, and then their leading bits agree. */
  lemma MatchesOnly(ip: string, cidr: string)
    requires IsIpInCidr(ip, cidr)
    ensures ParseCidr(cidr).Some?
    ensures
      var Parsed(network, prefix, version) := ParseCidr(cidr).value;
      if version.V4? then
        && IsValidIpv4(ip) && IsValidIpv4(network) && prefix <= 32
        && Octets(OctetsOf(ip)) && Octets(OctetsOf(network))
        && Leading(Value4(OctetsOf(ip)), 32 - prefix) == Leading(Value4(OctetsOf(network)), 32 - prefix)
      else
        && IsValidIpv6(ip) && IsValidIpv6(network) && prefix <= 128
        && WellFormed(AddressOf(ip)) && WellFormed(AddressOf(network))
        && Leading(Value6(AddressOf(ip)), 128 - prefix) == Leading(Value6(AddressOf(network)), 128 - prefix)
  {
    ParsedEntry(cidr);
    hide MaskTest4, MaskTest6, IsValidIpv4, IsValidIpv6, Ipv4ToInt, BigIntOf, ParseCidr, Text4, Text6, EntryText,
         Leading, OctetsOf, AddressOf, Octets, WellFormed, Value4, Value6;
    var Parsed(network, prefix, version) := ParseCidr(cidr).value;
    if version.V4? {
      OnlyQuads(ip);
      OnlyQuads(network);
      Ipv4Matches(OctetsOf(ip), OctetsOf(network), prefix);
    } else {
      ValidIsAddress(ip);
      ValidIsAddress(network);
      Ipv6Matches(AddressOf(ip), AddressOf(network), prefix);
    }
  }

  /** An entry's text is read as the network and prefix in it. */
  lemma ReadBack(network: string, prefix: nat)
    requires '/' !in network && ParseCidr(EntryText(network, prefix)).Some?
    ensures
      var parsed := ParseCidr(EntryText(network, prefix)).value;
      parsed.ip == network && parsed.prefix == prefix
  {
    hide Split, ParseInt, IsValidIpv4, IsValidIpv6, EntryText;
    EntrySplits(network, prefix);
  }

  lemma Shorter4(ip: seq<nat>, network: seq<nat>, prefix: nat, shorter: nat)
    requires Octets(ip) && Octets(network) && shorter <= prefix <= 32
    requires Leading(Value4(ip), 32 - prefix) == Leading(Value4(network), 32 - prefix)
    ensures IsIpInCidr(Text4(ip), EntryText(Text4(network), shorter))
  {
    hide *;
    ShorterPrefix(Value4(ip), Value4(network), 32, prefix, shorter);
    Ipv4Matches(ip, network, shorter);
  }

  lemma Shorter6(ip: Address, network: Address, prefix: nat, shorter: nat)
    requires WellFormed(ip) && WellFormed(network) && shorter <= prefix <= 128
    requires Leading(Value6(ip), 128 - prefix) == Leading(Value6(network), 128 - prefix)
    ensures IsIpInCidr(Text6(ip), EntryText(Text6(network), shorter))
  {
    hide *;
    ShorterPrefix(Value6(ip), Value6(network), 128, prefix, shorter);
    Ipv6Matches(ip, network, shorter);
  }

  /** Whatever matches an entry matches it with every shorter prefix. */
  lemma ShorterPrefixMatches(ip: string, network: string, prefix: nat, shorter: nat)
    requires IsIpInCidr(ip, EntryText(network, prefix)) && shorter <= prefix
    requires '/' !in network
    ensures IsIpInCidr(ip, EntryText(network, shorter))
  {
    hide *;
    MatchesOnly(ip, EntryText(network, prefix));
    ReadBack(network, prefix);
    if ParseCidr(EntryText(network, prefix)).value.version.V4? {
      OnlyQuads(ip);
      OnlyQuads(network);
      Shorter4(OctetsOf(ip), OctetsOf(network), prefix, shorter);
    } else {
      ValidIsAddress(ip);
      ValidIsAddress(network);
      Shorter6(AddressOf(ip), AddressOf(network), prefix, shorter);
    }
  }
}
