/** IPv4 addresses as texts and as 32-bit numbers. */
module Ipv4Text {
  import opened Options
  import opened JsBits
  import opened JsText

  /** String(parseInt(p, 10)) === p and 0..255 */
  predicate IsOctet(part: string) {
    var n := ParseInt(part);
    n.Some? && IntText(n.value) == part && 0 <= n.value <= 255
  }

  predicate IsValidIpv4(ip: string) {
    var parts := Split(ip, '.');
    |parts| == 4 && forall k :: 0 <= k < 4 ==> IsOctet(parts[k])
  }

  /** The reduce of ipv4ToInt; a part that is no number counts as 0. */
  function Reduced(parts: seq<string>, acc: int): int {
    if parts == [] then acc else
      var octet := ParseInt(parts[0]);
      Reduced(parts[1..], NumOr(NumShl(acc, 8), if octet.Some? then octet.value else 0))
  }

  function Ipv4ToInt(ip: string): nat {
    ToUint32(Reduced(Split(ip, '.'), 0))
  }

  // ---------------------------------------------------------------------
  // The addresses the texts stand for
  // ---------------------------------------------------------------------

  predicate Octets(o: seq<nat>) {
    |o| == 4 && forall k :: 0 <= k < 4 ==> o[k] <= 255
  }

  function Parts(o: seq<nat>): (parts: seq<string>)
    ensures |parts| == |o| && forall k :: 0 <= k < |o| ==> parts[k] == Decimal(o[k])
  {
    seq(|o|, k requires 0 <= k < |o| => Decimal(o[k]))
  }

  function Text4(o: seq<nat>): string {
    Join(Parts(o), '.')
  }

  function Value4(o: seq<nat>): (v: nat)
    requires Octets(o)
    ensures v < TWO_32
  {
    ((o[0] * 256 + o[1]) * 256 + o[2]) * 256 + o[3]
  }

  lemma DecimalHasNo(n: nat, c: char)
    requires !IsDigit(c)
    ensures c !in Decimal(n)
  {
    DecimalRoundTrip(n);
  }

  lemma OctetText(n: nat)
    requires n <= 255
    ensures IsOctet(Decimal(n)) && ParseInt(Decimal(n)) == Some(n) && '.' !in Decimal(n)
  {
    ParseDecimal(n, []);
    assert Decimal(n) + [] == Decimal(n);
    DecimalHasNo(n, '.');
  }

  lemma TextSplits(o: seq<nat>)
    requires Octets(o)
    ensures Split(Text4(o), '.') == Parts(o)
  {
    forall p | p in Parts(o) ensures '.' !in p {
      var k :| 0 <= k < 4 && p == Parts(o)[k];
      DecimalHasNo(o[k], '.');
    }
    SplitJoin(Parts(o), '.');
  }

  /** One round of the reduce, as long as nothing is shifted out. */
  lemma ReduceStep(acc: int, octet: nat)
    requires ToUint32(acc) < 0x100_0000 && octet <= 255
    ensures ToUint32(NumOr(NumShl(acc, 8), octet)) == ToUint32(acc) * 256 + octet
  {
    var v := ToUint32(acc);
    Pow2Values();
    hide Pow2, Or;
    assert ToUint32(v * 256) == v * 256;
    DisjointBits(v, octet, 8);
  }

  /** Every dotted quad is valid and is read as its value. */
  lemma QuadIsRead(o: seq<nat>)
    requires Octets(o)
    ensures IsValidIpv4(Text4(o)) && Ipv4ToInt(Text4(o)) == Value4(o)
  {
    TextSplits(o);
    forall k | 0 <= k < 4 ensures IsOctet(Parts(o)[k]) && ParseInt(Parts(o)[k]) == Some(o[k]) {
      OctetText(o[k]);
    }
    hide IsOctet, Split, Text4, ParseInt, NumOr, NumShl, ToUint32, Parts;
    var parts := Parts(o);
    var a := NumOr(NumShl(0, 8), o[0]);
    var b := NumOr(NumShl(a, 8), o[1]);
    var c := NumOr(NumShl(b, 8), o[2]);
    var d := NumOr(NumShl(c, 8), o[3]);
    assert ToUint32(0) == 0 by { ZeroBits(); }
    ReduceStep(0, o[0]);
    ReduceStep(a, o[1]);
    ReduceStep(b, o[2]);
    ReduceStep(c, o[3]);
    FourRounds(parts, o);
  }

  lemma ZeroBits()
    ensures ToUint32(0) == 0
  {
  }

  lemma OneRound(parts: seq<string>, acc: int, octet: nat)
    requires parts != [] && ParseInt(parts[0]) == Some(octet)
    ensures Reduced(parts, acc) == Reduced(parts[1..], NumOr(NumShl(acc, 8), octet))
  {
    hide ParseInt, NumOr, NumShl;
  }

  lemma FourRounds(parts: seq<string>, o: seq<nat>)
    requires |parts| == 4 && |o| == 4 && forall k :: 0 <= k < 4 ==> ParseInt(parts[k]) == Some(o[k])
    ensures Reduced(parts, 0)
        == NumOr(NumShl(NumOr(NumShl(NumOr(NumShl(NumOr(NumShl(0, 8), o[0]), 8), o[1]), 8), o[2]), 8), o[3])
  {
    hide ParseInt, NumOr, NumShl, Reduced;
    var a := NumOr(NumShl(0, 8), o[0]);
    var b := NumOr(NumShl(a, 8), o[1]);
    var c := NumOr(NumShl(b, 8), o[2]);
    OneRound(parts, 0, o[0]);
    OneRound(parts[1..], a, o[1]);
    assert parts[1..][1..] == parts[2..] && parts[2..][1..] == parts[3..] && parts[3..][1..] == [];
    OneRound(parts[2..], b, o[2]);
    OneRound(parts[3..], c, o[3]);
    NoRound(NumOr(NumShl(c, 8), o[3]));
  }

  lemma NoRound(acc: int)
    ensures Reduced([], acc) == acc
  {
  }

  /** The octets of a valid text. */
  function OctetsOf(ip: string): (o: seq<nat>)
    requires IsValidIpv4(ip)
    ensures |o| == 4
  {
    var parts := Split(ip, '.');
    seq(4, k requires 0 <= k < 4 => ParseInt(parts[k]).value)
  }

  /** Nothing but dotted quads is valid. */
  lemma OnlyQuads(ip: string)
    requires IsValidIpv4(ip)
    ensures Octets(OctetsOf(ip)) && Text4(OctetsOf(ip)) == ip
  {
    var parts := Split(ip, '.');
    var o := OctetsOf(ip);
    forall k | 0 <= k < 4 ensures o[k] <= 255 && parts[k] == Decimal(o[k]) {
      assert IsOctet(parts[k]);
    }
    assert Parts(o) == parts;
    JoinSplit(ip, '.');
  }

  lemma {:induction false} JoinSplit(s: string, c: char)
    ensures Join(Split(s, c), c) == s
    decreases |s|
  {
    if s == [] {
    } else {
      JoinSplit(s[1..], c);
      var rest := Split(s[1..], c);
      if s[0] != c && |rest| > 1 {
        assert ([[s[0]] + rest[0]] + rest[1..])[1..] == rest[1..];
        assert [s[0]] + rest[0] + [c] + Join(rest[1..], c) == [s[0]] + (rest[0] + [c] + Join(rest[1..], c));
      }
      if s[0] == c {
        assert ([""] + rest)[1..] == rest;
      }
    }
  }
}
