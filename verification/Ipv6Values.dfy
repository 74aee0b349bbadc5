/**
  What expansion does to valid IPv6 texts: it undoes every "::" compression, is
  idempotent and keeps the value.
 */
module Ipv6Values {
  import opened Options
  import opened JsBits
  import opened JsText
  import opened Ipv6Text

  /** Four hexadecimal digits. */
  predicate IsQuad(g: string) {
    |g| == 4 && IsGroup(g)
  }

  predicate AreQuads(groups: seq<string>) {
    forall k :: 0 <= k < |groups| ==> IsQuad(groups[k])
  }

  lemma {:induction false} ZerosVanish(zeros: string, g: string)
    requires forall k :: 0 <= k < |zeros| ==> zeros[k] == '0'
    ensures HexNumber(zeros + g) == HexNumber(g)
    decreases |zeros| + |g|
  {
    var all := zeros + g;
    if zeros == [] && g == [] {
    } else if g != [] {
      ZerosVanish(zeros, g[..|g| - 1]);
      assert all[..|all| - 1] == zeros + g[..|g| - 1];
    } else {
      ZerosVanish(zeros[..|zeros| - 1], []);
      assert all[..|all| - 1] == zeros[..|zeros| - 1] + [];
    }
  }

  lemma PadKeepsValue(g: string)
    requires IsGroup(g) || g == ""
    ensures IsQuad(Pad4(g)) && HexNumber(Pad4(g)) == HexNumber(g)
  {
    if |g| < 4 {
      ZerosVanish("0000"[|g|..], g);
    }
  }

  /** A group of zeros is padded to 0000. */
  lemma ZeroGroup(g: string)
    requires IsGroup(g) && HexNumber(g) == 0
    ensures Pad4(g) == "0000"
  {
    AllZeros(g);
    var p := Pad4(g);
    assert forall k :: 0 <= k < |g| ==> g[k] in g;
    assert forall k :: 0 <= k < 4 ==> p[k] == '0';
    assert p == "0000";
  }

  lemma {:induction false} AllZeros(g: string)
    requires (forall c :: c in g ==> IsHexChar(c)) && HexNumber(g) == 0
    ensures forall c :: c in g ==> c == '0'
  {
    if g == [] {
    } else {
      AllZeros(g[..|g| - 1]);
      assert g == g[..|g| - 1] + [g[|g| - 1]];
      assert g[|g| - 1] in g;
    }
  }

  lemma WrittenPadded(a: Address)
    requires WellFormed(a)
    ensures AreQuads(Padded(Written(a))) && 1 <= |Written(a)| <= 8
    ensures forall k :: 0 <= k < |Written(a)| ==> HexNumber(Padded(Written(a))[k]) == HexNumber(Written(a)[k])
  {
    hide IsGroup, HexNumber, Pad4, IsQuad;
    assert IsGroup("0000") by { ZeroIsGroup(); }
    forall k | 0 <= k < |Written(a)| ensures IsQuad(Pad4(Written(a)[k]))
        && HexNumber(Pad4(Written(a)[k])) == HexNumber(Written(a)[k]) {
      PadKeepsValue(Written(a)[k]);
    }
  }

  lemma ZeroIsGroup()
    ensures IsGroup("0000")
  {
  }

  lemma ExpandFull(groups: seq<string>)
    requires WellFormed(Full(groups))
    ensures ExpandIpv6(Text6(Full(groups))) == Some(Join(Padded(Written(Full(groups))), ':'))
  {
    hide SplitPairs, GroupsOf, IsGroup, Pad4, Split, Padded;
    TextSplits6(Full(groups));
    if groups == [] {
      SplitNothing();
    } else {
      JoinedSplits(groups);
    }
    hide Join;
  }

  lemma SplitNothing()
    ensures Split("", ':') == [""] && Join([], ':') == ""
  {
  }

  lemma ExpandCompressed(left: seq<string>, right: seq<string>)
    requires WellFormed(Compressed(left, right))
    ensures ExpandIpv6(Text6(Compressed(left, right))) == Some(Join(Padded(Written(Compressed(left, right))), ':'))
  {
    hide SplitPairs, GroupsOf, IsGroup, Pad4, Join, Split;
    TextSplits6(Compressed(left, right));
    JoinedSplits(left);
    JoinedSplits(right);
  }

  /** Expansion writes out all groups, four digits each. */
  lemma ExpandText(a: Address)
    requires WellFormed(a)
    ensures ExpandIpv6(Text6(a)) == Some(Join(Padded(Written(a)), ':'))
  {
    hide *;
    match a
    case Full(groups) => ExpandFull(groups);
    case Compressed(left, right) => ExpandCompressed(left, right);
  }

  lemma QuadsUnchanged(groups: seq<string>)
    requires AreQuads(groups)
    ensures AreGroups(groups) && Padded(groups) == groups
  {
  }

  // ---------------------------------------------------------------------
  // Values
  // ---------------------------------------------------------------------

  lemma {:induction false} HexNumberFits(g: string)
    requires |g| <= 4
    ensures HexNumber(g) < Pow2(4 * |g|) <= 65536
  {
    Pow2Values();
    if g == [] {
    } else {
      HexNumberFits(g[..|g| - 1]);
      Pow2Add(4 * (|g| - 1), 4);
      FourBits(|g|);
    }
  }

  lemma FourBits(n: nat)
    requires n <= 4
    ensures Pow2(4 * n) <= 65536
  {
    Pow2Values();
    assert Pow2(12) == 4096;
  }

  lemma {:induction false} HexOnly(g: string)
    requires forall c :: c in g ==> IsHexChar(c)
    ensures LeadingHex(g) == g
  {
    if g == [] {
    } else {
      HexOnly(g[1..]);
    }
  }

  lemma QuadIsRead(g: string)
    requires IsQuad(g)
    ensures ParseHex(g) == Some(HexNumber(g)) && HexNumber(g) < 65536
  {
    HexOnly(g);
    HexNumberFits(g);
  }

  lemma {:induction false} ShiftedSnoc(groups: seq<string>, g: string, acc: nat)
    requires AreQuads(groups) && IsQuad(g)
    ensures Shifted(groups, acc).Some?
    ensures Shifted(groups + [g], acc) == Some(Shifted(groups, acc).value * 65536 + HexNumber(g))
  {
    hide IsQuad, ParseHex, HexNumber, Or, Pow2;
    if groups == [] {
      QuadIsRead(g);
      Sixteen(acc, HexNumber(g));
      assert Shifted([g][1..], acc * 65536 + HexNumber(g)) == Some(acc * 65536 + HexNumber(g));
      assert groups + [g] == [g];
    } else {
      QuadIsRead(groups[0]);
      var n := Or(acc * Pow2(16), HexNumber(groups[0]));
      ShiftedSnoc(groups[1..], g, n);
      assert (groups + [g])[1..] == groups[1..] + [g];
    }
  }

  lemma Sixteen(acc: nat, low: nat)
    requires low < 65536
    ensures Pow2(16) == 65536 && Or(acc * Pow2(16), low) == acc * 65536 + low
  {
    Pow2Values();
    DisjointBits(acc, low, 16);
  }

  lemma {:induction false} QuadsValue(groups: seq<string>)
    requires AreQuads(groups)
    ensures Shifted(groups, 0) == Some(GroupsValue(groups))
  {
    if groups == [] {
    } else {
      var most, last := groups[..|groups| - 1], groups[|groups| - 1];
      QuadsValue(most);
      ShiftedSnoc(most, last, 0);
      assert most + [last] == groups;
      hide HexNumber, Shifted;
    }
  }

  lemma {:induction false} SameValues(a: seq<string>, b: seq<string>)
    requires |a| == |b| && forall k :: 0 <= k < |a| ==> HexNumber(a[k]) == HexNumber(b[k])
    ensures GroupsValue(a) == GroupsValue(b)
  {
    if a == [] {
    } else {
      SameValues(a[..|a| - 1], b[..|b| - 1]);
    }
  }

  lemma {:induction false} GroupsFit(groups: seq<string>)
    requires AreQuads(groups)
    ensures GroupsValue(groups) < Pow2(16 * |groups|)
  {
    if groups != [] {
      hide IsQuad, HexNumber, Pow2;
      var most, last := groups[..|groups| - 1], groups[|groups| - 1];
      GroupsFit(most);
      QuadIsRead(last);
      Pow2Add(16 * |most|, 16);
      assert Pow2(16) == 65536 by { Pow2Values(); }
    } else {
      assert Pow2(0) >= 1;
    }
  }

  /** The expansion of a valid text reads as the address's value. */
  lemma ExpansionKeepsValue(a: Address)
    requires WellFormed(a)
    ensures ExpandIpv6(Text6(a)).Some? && Ipv6ToBigInt(ExpandIpv6(Text6(a)).value) == Some(Value6(a))
    ensures Value6(a) < Pow2(16 * |Written(a)|)
  {
    hide ExpandIpv6, Text6, Join, Split, AreQuads, HexNumber, GroupsValue, Shifted, Pow2;
    var quads := Padded(Written(a));
    ExpandText(a);
    WrittenPadded(a);
    QuadsUnchanged(quads);
    JoinedSplits(quads);
    QuadsValue(quads);
    GroupsFit(quads);
    SameValues(Written(a), quads);
  }

  /** Expanding twice is expanding once, for every accepted text; the result is accepted and has the same value. */
  lemma ExpandIdempotent(ip: string)
    requires IsValidIpv6(ip)
    ensures
      var e := ExpandIpv6(ip);
      && e.Some? && IsValidIpv6(e.value) && ExpandIpv6(e.value) == e
      && WellFormed(AddressOf(ip)) && Ipv6ToBigInt(e.value) == Some(Value6(AddressOf(ip)))
  {
    ValidIsAddress(ip);
    hide IsValidIpv6, ExpandIpv6, Join, AreQuads, AddressOf, Value6, Written, Ipv6ToBigInt, AreGroups;
    var a := AddressOf(ip);
    var quads := Padded(Written(a));
    ExpandText(a);
    ExpansionKeepsValue(a);
    WrittenPadded(a);
    QuadsUnchanged(quads);
    FullQuads(quads);
  }

  lemma FullQuads(quads: seq<string>)
    requires AreQuads(quads) && AreGroups(quads) && 1 <= |quads| <= 8
    ensures IsValidIpv6(Join(quads, ':')) && ExpandIpv6(Join(quads, ':')) == Some(Join(quads, ':'))
  {
    hide IsValidIpv6, ExpandIpv6, Join, IsGroup, IsQuad;
    assert WellFormed(Full(quads)) && Text6(Full(quads)) == Join(quads, ':');
    AddressIsValid(Full(quads));
    ExpandText(Full(quads));
    QuadsUnchanged(quads);
  }

  /** Replacing any run of zero groups of an eight-group address by "::" changes neither its expansion nor its value. */
  lemma CompressionUndone(groups: seq<string>, i: nat, j: nat)
    requires AreGroups(groups) && |groups| == 8 && i < j <= 8
    requires forall k :: i <= k < j ==> HexNumber(groups[k]) == 0
    ensures
      var short := Compressed(groups[..i], groups[j..]);
      && WellFormed(short) && WellFormed(Full(groups))
      && ExpandIpv6(Text6(short)) == ExpandIpv6(Text6(Full(groups)))
      && Value6(short) == Value6(Full(groups))
  {
    hide ExpandIpv6, Text6, Join, IsGroup, HexNumber, Pad4, Ipv6ToBigInt, GroupsValue;
    var short := Compressed(groups[..i], groups[j..]);
    ExpandText(short);
    ExpandText(Full(groups));
    ExpansionKeepsValue(short);
    ExpansionKeepsValue(Full(groups));
    assert Pad4("0000") == "0000" by { ZeroPads(); }
    forall k | 0 <= k < 8 ensures Pad4(Written(short)[k]) == Pad4(groups[k]) {
      if i <= k < j {
        ZeroGroup(groups[k]);
      }
    }
    assert Padded(Written(short)) == Padded(groups);
  }

  lemma ZeroPads()
    ensures Pad4("0000") == "0000"
  {
  }

  lemma {:induction false} LeadingZeroGroups(n: nat, groups: seq<string>)
    ensures GroupsValue(Zeros(n) + groups) == GroupsValue(groups)
    decreases n + |groups|
  {
    var all := Zeros(n) + groups;
    if n == 0 && groups == [] {
    } else if groups != [] {
      LeadingZeroGroups(n, groups[..|groups| - 1]);
      assert all[..|all| - 1] == Zeros(n) + groups[..|groups| - 1];
    } else {
      LeadingZeroGroups(n - 1, []);
      assert all[..|all| - 1] == Zeros(n - 1) + [];
      assert HexNumber("0000") == 0 by { ZerosVanish("0000", []); assert "0000" + [] == "0000"; }
    }
  }

  /** A text of fewer than eight groups without "::" is accepted, and means what it means after "::". */
  lemma ShortTextsAccepted(groups: seq<string>)
    requires AreGroups(groups) && 1 <= |groups| <= 7
    ensures IsValidIpv6(Join(groups, ':')) && |Split(Join(groups, ':'), ':')| == |groups|
    ensures WellFormed(Full(groups)) && WellFormed(Compressed([], groups))
        && Value6(Full(groups)) == Value6(Compressed([], groups))
  {
    hide IsValidIpv6, IsGroup, HexNumber, GroupsValue, Join, Split;
    assert Text6(Full(groups)) == Join(groups, ':');
    AddressIsValid(Full(groups));
    JoinedSplits(groups);
    LeadingZeroGroups(8 - |groups|, groups);
    assert [] + Zeros(8 - |groups|) + groups == Zeros(8 - |groups|) + groups;
  }

  /** The empty text is accepted, too, and means zero. */
  lemma EmptyTextAccepted()
    ensures IsValidIpv6("") && ExpandIpv6("") == Some("0000")
  {
    SplitNothing();
    assert AllGroups([""][1..]) == [];
    assert Pad4("") == "0000";
    assert Padded([""]) == ["0000"];
  }
}
