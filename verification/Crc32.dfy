/**
  Table-driven CRC-32, as the PNG encoder's fallback computes it, against the
  bit-at-a-time CRC of section 3.4 and the appendix (section 15) of RFC 2083.
 */
module Crc32 {
  import opened JsBits

  newtype byte = b: int | 0 <= b < 256

  const POLYNOMIAL: nat := 0xedb8_8320
  const ALL_ONES: nat := 0xffff_ffff

  // ---------------------------------------------------------------------
  // Reference: one message bit at a time
  // ---------------------------------------------------------------------

  /** One clock of the CRC shift register with the message bit `bit` at its input. */
  function ShiftIn(register: nat, bit: nat): nat {
    if register % 2 != bit then Xor(POLYNOMIAL, register / 2) else register / 2
  }

  /** Feeds the n low bits of w, least significant first. */
  function ShiftInBits(register: nat, w: nat, n: nat): nat
    decreases n
  {
    if n == 0 then register else ShiftInBits(ShiftIn(register, w % 2), w / 2, n - 1)
  }

  function ShiftInByte(register: nat, b: byte): nat {
    ShiftInBits(register, b as nat, 8)
  }

  /** The register after a whole message. */
  function ShiftInAll(register: nat, message: seq<byte>): nat
    decreases |message|
  {
    if message == [] then register
    else ShiftInAll(ShiftInByte(register, message[0]), message[1..])
  }

  /** CRC-32 of a message, by definition: preset to ones, shift every bit in, complement. */
  function Crc(message: seq<byte>): nat {
    Xor(ShiftInAll(ALL_ONES, message), ALL_ONES)
  }

  // ---------------------------------------------------------------------
  // Table steps: clocks with no message bit
  // ---------------------------------------------------------------------

  function TableStep(c: nat): nat {
    ShiftIn(c, 0)
  }

  function TableSteps(c: nat, n: nat): nat
    decreases n
  {
    if n == 0 then c else TableSteps(TableStep(c), n - 1)
  }

  lemma TableStepsFirst(c: nat, n: nat)
    requires n > 0
    ensures TableSteps(c, n) == TableSteps(TableStep(c), n - 1)
  {
  }

  lemma TableStepsNone(c: nat)
    ensures TableSteps(c, 0) == c
  {
  }

  lemma TableStepFits(c: nat)
    requires c < TWO_32
    ensures TableStep(c) < TWO_32
  {
    Pow2Values();
    XorFits(POLYNOMIAL, c / 2, 32);
  }

  lemma {:induction false} TableStepsFit(c: nat, n: nat)
    requires c < TWO_32
    ensures TableSteps(c, n) < TWO_32
    decreases n
  {
    if n == 0 {
    } else {
      TableStepFits(c);
      TableStepsFit(TableStep(c), n - 1);
    }
  }

  lemma OneBitIsTableStep(register: nat, w: nat)
    ensures TableStep(Xor(register, w)) == Xor(ShiftIn(register, w % 2), w / 2)
  {
    var a, b := register / 2, w / 2;
    assert Xor(register, w) / 2 == Xor(a, b);
    assert Xor(register, w) % 2 == if register % 2 == w % 2 then 0 else 1;
    hide Xor;
    XorAssoc(POLYNOMIAL, a, b);
  }

  /** Feeding n bits of w is n table steps on register ^ w, up to the bits of w left over. */
  lemma {:induction false} BitsAreTableSteps(register: nat, w: nat, n: nat)
    ensures Xor(ShiftInBits(register, w, n), Shr(w, n)) == TableSteps(Xor(register, w), n)
    decreases n
  {
    if n == 0 {
    } else {
      OneBitIsTableStep(register, w);
      BitsAreTableSteps(ShiftIn(register, w % 2), w / 2, n - 1);
    }
  }

  lemma TableStepLinear(x: nat, y: nat)
    ensures TableStep(Xor(x, y)) == Xor(TableStep(x), TableStep(y))
  {
    var a, b := x / 2, y / 2;
    assert Xor(x, y) / 2 == Xor(a, b);
    assert Xor(x, y) % 2 == if x % 2 == y % 2 then 0 else 1;
    hide Xor;
    if x % 2 == 1 && y % 2 == 1 {
      XorSwap(POLYNOMIAL, a, POLYNOMIAL, b);
      XorSelf(POLYNOMIAL);
      XorZero(Xor(a, b));
    } else if x % 2 == 1 {
      XorAssoc(POLYNOMIAL, a, b);
    } else if y % 2 == 1 {
      XorComm(a, b);
      XorAssoc(POLYNOMIAL, b, a);
      XorComm(Xor(POLYNOMIAL, b), a);
    }
  }

  lemma {:induction false} TableStepsLinear(x: nat, y: nat, n: nat)
    ensures TableSteps(Xor(x, y), n) == Xor(TableSteps(x, n), TableSteps(y, n))
    decreases n
  {
    if n == 0 {
    } else {
      TableStepLinear(x, y);
      TableStepsLinear(TableStep(x), TableStep(y), n - 1);
    }
  }

  lemma {:induction false} TableStepsAdd(c: nat, m: nat, n: nat)
    ensures TableSteps(c, m + n) == TableSteps(TableSteps(c, m), n)
    decreases m
  {
    if m == 0 {
    } else {
      TableStepsAdd(TableStep(c), m - 1, n);
    }
  }

  /** With zeros in the low n bits, n steps are a plain shift. */
  lemma {:induction false} ZeroBitsShift(y: nat, n: nat)
    requires Low(y, n) == 0
    ensures TableSteps(y, n) == Shr(y, n)
    decreases n
  {
    if n == 0 {
    } else {
      ZeroBitsShift(y / 2, n - 1);
    }
  }

  lemma ByteIsTableSteps(register: nat, b: byte)
    ensures ShiftInByte(register, b) == TableSteps(Xor(register, b as nat), 8)
  {
    BitsAreTableSteps(register, b as nat, 8);
    Pow2Values();
    DivMod(b as nat, 8);
    XorZero(ShiftInByte(register, b));
  }

  /** Splitting a register into its low byte and the rest. */
  lemma SplitLowByte(x: nat)
    ensures x == Xor(Shr(x, 8) * 256, Low(x, 8))
    ensures Low(Shr(x, 8) * 256, 8) == 0 && Shr(Shr(x, 8) * 256, 8) == Shr(x, 8)
  {
    hide Xor, Shr, Low;
    Pow2Values();
    DivMod(x, 8);
    DisjointBits(Shr(x, 8), Low(x, 8), 8);
    DivMod(Shr(x, 8) * 256, 8);
  }

  /** One table lookup on the low byte, folded into the rest, is eight message-bit clocks. */
  lemma LookupIsEightBits(crc: nat, b: byte)
    ensures Xor(TableSteps(Low(Xor(crc, b as nat), 8), 8), Shr(crc, 8)) == ShiftInByte(crc, b)
  {
    var x := Xor(crc, b as nat);
    var low, rest := Low(x, 8), Shr(x, 8) * 256;
    ByteIsTableSteps(crc, b);
    SplitLowByte(x);
    TableStepsLinear(rest, low, 8);
    ZeroBitsShift(rest, 8);
    XorComm(TableSteps(low, 8), Shr(x, 8));
    XorShr(crc, b as nat, 8);
    Pow2Values();
    DivMod(b as nat, 8);
    XorZero(Shr(crc, 8));
  }

  // ---------------------------------------------------------------------
  // The source's loops, on JavaScript's signed 32-bit results
  // ---------------------------------------------------------------------

  lemma NumXorPattern(x: int, y: int)
    ensures ToUint32(NumXor(x, y)) == Xor(ToUint32(x), ToUint32(y))
  {
    Pow2Values();
    XorFits(ToUint32(x), ToUint32(y), 32);
  }

  /** c & 1 ? 0xedb88320 ^ (c >>> 1) : c >>> 1 */
  function NumTableStep(c: int): int {
    if NumAnd(c, 1) != 0 then NumXor(POLYNOMIAL, NumUshr(c, 1)) else NumUshr(c, 1)
  }

  lemma LowBit(c: int)
    ensures NumAnd(c, 1) == ToUint32(c) % 2
  {
    var u := ToUint32(c);
    assert Low(u, 1) == u % 2;
    hide And, Low, Pow2;
    Pow2Values();
    AndLowMask(u, 1);
  }

  lemma HalfShift(c: int)
    ensures NumUshr(c, 1) == ToUint32(c) / 2
  {
    assert Shr(ToUint32(c), 1) == ToUint32(c) / 2;
  }

  lemma NumTableStepPattern(c: int)
    ensures ToUint32(NumTableStep(c)) == TableStep(ToUint32(c))
  {
    hide Xor, NumAnd, NumUshr, NumXor;
    LowBit(c);
    HalfShift(c);
    NumXorPattern(POLYNOMIAL, ToUint32(c) / 2);
  }

  lemma LookupIndexPattern(crc: int, b: byte)
    ensures NumAnd(NumXor(crc, b as int), 0xff) == Low(Xor(ToUint32(crc), b as nat), 8) < 256
  {
    hide Xor, And, Low, Pow2;
    var u := ToUint32(NumXor(crc, b as int));
    NumXorPattern(crc, b as int);
    Pow2Values();
    AndLowMask(u, 8);
    DivMod(u, 8);
  }

  /** table[(crc ^ b) & 0xff] ^ (crc >>> 8), and the index it uses. */
  function LookupIndex(crc: int, b: byte): (index: nat)
    ensures index == Low(Xor(ToUint32(crc), b as nat), 8) && index < 256
  {
    LookupIndexPattern(crc, b);
    NumAnd(NumXor(crc, b as int), 0xff)
  }

  lemma NumLookupPattern(crc: int, b: byte, entry: nat)
    requires entry == TableSteps(LookupIndex(crc, b), 8)
    ensures ToUint32(NumXor(entry, NumUshr(crc, 8))) == ShiftInByte(ToUint32(crc), b)
  {
    hide Xor, Shr, Low, Pow2, TableSteps, ShiftInBits;
    var u := ToUint32(crc);
    TableStepsFit(LookupIndex(crc, b), 8);
    Pow2Values();
    DivMod(u, 8);
    assert NumUshr(crc, 8) == Shr(u, 8) < TWO_32;
    NumXorPattern(entry, NumUshr(crc, 8));
    LookupIsEightBits(u, b);
  }

  function TableEntry(n: nat): nat {
    TableSteps(n, 8)
  }

  /** Every entry is eight table steps from its index. */
  ghost predicate IsCrcTable(table: seq<nat>) {
    |table| == 256 && forall n :: 0 <= n < 256 ==> table[n] == TableEntry(n)
  }

  method BuildTable() returns (table: array<nat>)
    ensures fresh(table) && IsCrcTable(table[..])
  {
    hide TableStep, Xor, And, Pow2, NumAnd, NumXor, NumUshr;
    table := new nat[256];
    for n := 0 to 256
      invariant forall m :: 0 <= m < n ==> table[m] == TableEntry(m)
    {
      var c: int := n;
      for k := 0 to 8
        invariant forall m :: 0 <= m < n ==> table[m] == TableEntry(m)
        invariant TableSteps(ToUint32(c), 8 - k) == TableEntry(n)
      {
        TableStepsFirst(ToUint32(c), 8 - k);
        NumTableStepPattern(c);
        c := if NumAnd(c, 1) != 0 then NumXor(POLYNOMIAL, NumUshr(c, 1)) else NumUshr(c, 1);
      }
      TableStepsNone(ToUint32(c));
      table[n] := ToUint32(c);
    }
  }

  /** The lazily built table (a module variable in the source) and the checksum that uses it. */
  class Crc32Fallback {
    var table: array?<nat>

    ghost predicate Valid()
      reads this, table
    {
      table != null ==> IsCrcTable(table[..])
    }

    constructor ()
      ensures Valid()
    {
      table := null;
    }

    method Compute(buf: seq<byte>) returns (r: nat)
      requires Valid()
      modifies this`table
      ensures Valid() && table != null
      ensures old(table) != null ==> table == old(table)
      ensures r == Crc(buf)
    {
      if table == null {
        var t := BuildTable();
        table := t;
      }
      var crc: int := ALL_ONES;
      assert buf[0..] == buf;
      for i := 0 to |buf|
        invariant table != null && IsCrcTable(table[..])
        invariant old(table) != null ==> table == old(table)
        invariant ShiftInAll(ToUint32(crc), buf[i..]) == ShiftInAll(ALL_ONES, buf)
      {
        var index := LookupIndex(crc, buf[i]);
        NumLookupPattern(crc, buf[i], table[..][index]);
        assert buf[i..][1..] == buf[i + 1..];
        crc := NumXor(table[index], NumUshr(crc, 8));
      }
      NumXorPattern(crc, ALL_ONES);
      r := ToUint32(NumXor(crc, ALL_ONES));
    }
  }

  // ---------------------------------------------------------------------
  // What the checksum is for: it detects every burst of up to 32 bits
  // ---------------------------------------------------------------------

  lemma TableStepInjective(x: nat, y: nat)
    requires x < TWO_32 && y < TWO_32
    requires TableStep(x) == TableStep(y)
    ensures x == y
  {
    Pow2Values();
    XorCancel(POLYNOMIAL, x / 2);
    XorCancel(POLYNOMIAL, y / 2);
    TopBitSet(x / 2);
    TopBitSet(y / 2);
  }

  /** The polynomial's top bit marks the steps that folded it in. */
  lemma TopBitSet(a: nat)
    requires a < TWO_31
    ensures Xor(POLYNOMIAL, a) >= TWO_31
  {
    Pow2Values();
    XorShr(POLYNOMIAL, a, 31);
    DivMod(POLYNOMIAL, 31);
    DivMod(a, 31);
    DivMod(Xor(POLYNOMIAL, a), 31);
    assert Xor(1, 0) == 1;
  }

  lemma {:induction false} TableStepsInjective(x: nat, y: nat, n: nat)
    requires x < TWO_32 && y < TWO_32
    requires TableSteps(x, n) == TableSteps(y, n)
    ensures x == y
    decreases n
  {
    if n == 0 {
    } else {
      TableStepFits(x);
      TableStepFits(y);
      TableStepsInjective(TableStep(x), TableStep(y), n - 1);
      TableStepInjective(x, y);
    }
  }

  lemma ByteStepFits(register: nat, b: byte)
    requires register < TWO_32
    ensures Xor(register, b as nat) < TWO_32
    ensures ShiftInByte(register, b) < TWO_32
  {
    Pow2Values();
    XorFits(register, b as nat, 32);
    ByteIsTableSteps(register, b);
    TableStepsFit(Xor(register, b as nat), 8);
  }

  lemma {:induction false} ShiftInAllAppend(register: nat, a: seq<byte>, b: seq<byte>)
    ensures ShiftInAll(register, a + b) == ShiftInAll(ShiftInAll(register, a), b)
    decreases |a|
  {
    if a == [] {
      assert a + b == b;
    } else {
      assert (a + b)[1..] == a[1..] + b;
      ShiftInAllAppend(ShiftInByte(register, a[0]), a[1..], b);
    }
  }

  lemma {:induction false} ShiftInAllFits(register: nat, message: seq<byte>)
    requires register < TWO_32
    ensures ShiftInAll(register, message) < TWO_32
    decreases |message|
  {
    if message == [] {
    } else {
      ByteStepFits(register, message[0]);
      ShiftInAllFits(ShiftInByte(register, message[0]), message[1..]);
    }
  }

  /** The same message takes different registers to different registers. */
  lemma {:induction false} ShiftInAllInjective(x: nat, y: nat, message: seq<byte>)
    requires x < TWO_32 && y < TWO_32
    requires ShiftInAll(x, message) == ShiftInAll(y, message)
    ensures x == y
    decreases |message|
  {
    if message == [] {
    } else {
      var b := message[0];
      ByteStepFits(x, b);
      ByteStepFits(y, b);
      ShiftInAllInjective(ShiftInByte(x, b), ShiftInByte(y, b), message[1..]);
      ByteIsTableSteps(x, b);
      ByteIsTableSteps(y, b);
      TableStepsInjective(Xor(x, b as nat), Xor(y, b as nat), 8);
      XorCancel(x, b as nat);
      XorCancel(y, b as nat);
    }
  }

  /** Up to four bytes as one little-endian word. */
  function Word(window: seq<byte>): nat {
    if window == [] then 0 else Word(window[1..]) * 256 + window[0] as nat
  }

  lemma {:induction false} WordFits(window: seq<byte>)
    ensures Word(window) < Pow2(8 * |window|)
  {
    if window == [] {
    } else {
      WordFits(window[1..]);
      Pow2Values();
      Pow2Add(8, 8 * |window[1..]|);
    }
  }

  lemma {:induction false} WordInjective(u: seq<byte>, v: seq<byte>)
    requires |u| == |v| && Word(u) == Word(v)
    ensures u == v
  {
    if u == [] {
    } else {
      DivUnique(Word(u), 256, Word(u[1..]), u[0] as nat);
      DivUnique(Word(u), 256, Word(v[1..]), v[0] as nat);
      WordInjective(u[1..], v[1..]);
      assert u == [u[0]] + u[1..] && v == [v[0]] + v[1..];
    }
  }

  /** Eight steps consume the low byte of a word and leave the rest of it to come. */
  lemma FirstByteStep(register: nat, b: byte, rest: nat)
    ensures TableSteps(Xor(register, rest * 256 + b as nat), 8) == Xor(ShiftInByte(register, b), rest)
  {
    hide *;
    var x := Xor(register, b as nat);
    Pow2Values();
    DisjointBits(rest, b as nat, 8);
    XorComm(rest * 256, b as nat);
    XorAssoc(register, b as nat, rest * 256);
    TableStepsLinear(x, rest * 256, 8);
    DivMod(rest * 256, 8);
    ZeroBitsShift(rest * 256, 8);
    ByteIsTableSteps(register, b);
  }

  lemma FirstOfWindow(register: nat, window: seq<byte>)
    requires window != []
    ensures ShiftInAll(register, window) == ShiftInAll(ShiftInByte(register, window[0]), window[1..])
    ensures Word(window) == Word(window[1..]) * 256 + window[0] as nat
  {
    hide ShiftInByte;
  }

  lemma EmptyWindow(register: nat, window: seq<byte>)
    requires window == []
    ensures ShiftInAll(register, window) == TableSteps(Xor(register, Word(window)), 8 * |window|)
  {
    XorZero(register);
    TableStepsNone(register);
    hide TableSteps, Xor;
  }

  lemma {:induction false} WindowIsTableSteps(register: nat, window: seq<byte>)
    ensures ShiftInAll(register, window) == TableSteps(Xor(register, Word(window)), 8 * |window|)
    decreases |window|
  {
    hide *;
    if window == [] {
      EmptyWindow(register, window);
    } else {
      FirstOfWindow(register, window);
      FirstByteStep(register, window[0], Word(window[1..]));
      TableStepsAdd(Xor(register, Word(window)), 8, 8 * |window[1..]|);
      WindowIsTableSteps(ShiftInByte(register, window[0]), window[1..]);
    }
  }

  /** Distinct windows of at most four bytes take one register to distinct registers. */
  lemma WindowInjective(register: nat, u: seq<byte>, v: seq<byte>)
    requires register < TWO_32 && |u| == |v| <= 4
    requires ShiftInAll(register, u) == ShiftInAll(register, v)
    ensures u == v
  {
    hide *;
    var n := 8 * |u|;
    WordFits(u);
    WordFits(v);
    Pow2Add(n, 32 - n);
    MultipleGrows(Pow2(32 - n), Pow2(n));
    Pow2Values();
    XorFits(register, Word(u), 32);
    XorFits(register, Word(v), 32);
    WindowIsTableSteps(register, u);
    WindowIsTableSteps(register, v);
    TableStepsInjective(Xor(register, Word(u)), Xor(register, Word(v)), n);
    XorCancel(register, Word(u));
    XorCancel(register, Word(v));
    WordInjective(u, v);
  }

  /** Two messages that differ only inside a window of at most four bytes never share a CRC. */
  lemma BurstDetected(before: seq<byte>, u: seq<byte>, v: seq<byte>, after: seq<byte>)
    requires |u| == |v| <= 4 && u != v
    ensures Crc(before + u + after) != Crc(before + v + after)
  {
    if Crc(before + u + after) == Crc(before + v + after) {
      var r := ShiftInAll(ALL_ONES, before);
      var x, y := ShiftInAll(r, u), ShiftInAll(r, v);
      ShiftInAllAppend(ALL_ONES, before + u, after);
      ShiftInAllAppend(ALL_ONES, before, u);
      ShiftInAllAppend(ALL_ONES, before + v, after);
      ShiftInAllAppend(ALL_ONES, before, v);
      XorCancel(ShiftInAll(x, after), ALL_ONES);
      XorCancel(ShiftInAll(y, after), ALL_ONES);
      ShiftInAllFits(ALL_ONES, before);
      ShiftInAllFits(r, u);
      ShiftInAllFits(r, v);
      ShiftInAllInjective(x, y, after);
      WindowInjective(r, u, v);
    }
  }

  // ---------------------------------------------------------------------
  // Check values
  // ---------------------------------------------------------------------

  /** The polynomial of the appendix of RFC 2083, x^32 aside, with x^0 in bit 31 and x^31 in bit 0. */
  lemma PolynomialTerms()
    ensures POLYNOMIAL ==
      Pow2(31 - 26) + Pow2(31 - 23) + Pow2(31 - 22) + Pow2(31 - 16) + Pow2(31 - 12) + Pow2(31 - 11) + Pow2(31 - 10)
      + Pow2(31 - 8) + Pow2(31 - 7) + Pow2(31 - 5) + Pow2(31 - 4) + Pow2(31 - 2) + Pow2(31 - 1) + Pow2(31 - 0)
  {
    Pow2Values();
    assert Pow2(5) == 32;
    Pow2Add(4, 4);
    assert Pow2(9) == 512;
    Pow2Add(8, 7);
    assert Pow2(7) == 128;
    Pow2Add(16, 3);
    Pow2Add(16, 4);
    assert Pow2(3) == 8;
    Pow2Add(16, 5);
    Pow2Add(16, 7);
    Pow2Add(24, 2);
    Pow2Add(24, 3);
    Pow2Add(24, 5);
    assert Pow2(30) * 2 == Pow2(31);
    Pow2Add(24, 4);
    hide Pow2;
  }

  lemma {:induction false} XorOnes(x: nat, n: nat)
    requires x < Pow2(n)
    ensures Xor(x, Pow2(n) - 1) == Pow2(n) - 1 - x
  {
    if n == 0 {
    } else {
      XorOnes(x / 2, n - 1);
      assert (Pow2(n) - 1) / 2 == Pow2(n - 1) - 1 && (Pow2(n) - 1) % 2 == 1;
    }
  }

  lemma {:induction false} ZeroStays(n: nat)
    ensures TableSteps(0, n) == 0
    decreases n
  {
    if n == 0 {
    } else {
      XorZero(0);
      ZeroStays(n - 1);
    }
  }

  const FOUR_ONES: seq<byte> := [0xff, 0xff, 0xff, 0xff]

  /** Four bytes of ones empty the preset register. */
  lemma OnesVanish()
    ensures ShiftInAll(ALL_ONES, FOUR_ONES) == 0
  {
    hide ShiftInAll, Xor, TableSteps;
    assert FOUR_ONES[1..][1..][1..] == [0xff] && [0xff][1..] == [];
    assert Word(FOUR_ONES[1..][1..]) == 0xffff;
    assert Word(FOUR_ONES[1..]) == 0xff_ffff;
    assert Word(FOUR_ONES) == ALL_ONES;
    WindowIsTableSteps(ALL_ONES, FOUR_ONES);
    XorSelf(ALL_ONES);
    ZeroStays(8 * |FOUR_ONES|);
  }

  /** A single one at the end of a byte leaves the polynomial in an empty register. */
  lemma LastBit()
    ensures ShiftInByte(0, 0x80) == POLYNOMIAL
  {
    assert Low(0x80, 7) == 0 && Shr(0x80, 7) == 1;
    XorZero(POLYNOMIAL);
    assert TableStep(1) == POLYNOMIAL;
    hide *;
    ByteIsTableSteps(0, 0x80);
    XorZero(0x80);
    XorComm(0, 0x80);
    TableStepsAdd(0x80, 7, 1);
    ZeroBitsShift(0x80, 7);
    TableStepsFirst(1, 1);
    TableStepsNone(TableStep(1));
  }

  /** CRC-32 of FF FF FF FF is FFFFFFFF, and with 80 after it 12477CDF; that of nothing is 0. */
  lemma CheckValues()
    ensures Crc([]) == 0
    ensures Crc([0xff, 0xff, 0xff, 0xff]) == 0xffff_ffff
    ensures Crc([0xff, 0xff, 0xff, 0xff, 0x80]) == 0x1247_7cdf
  {
    hide Xor, ShiftInByte, Pow2;
    Pow2Values();
    XorSelf(ALL_ONES);
    XorOnes(0, 32);
    XorOnes(POLYNOMIAL, 32);
    OnesVanish();
    LastBit();
    assert ShiftInAll(0, [0x80]) == ShiftInAll(ShiftInByte(0, 0x80), []) == POLYNOMIAL;
    ShiftInAllAppend(ALL_ONES, FOUR_ONES, [0x80]);
    assert ShiftInAll(ALL_ONES, []) == ALL_ONES;
    hide ShiftInAll;
    assert FOUR_ONES + [0x80] == [0xff, 0xff, 0xff, 0xff, 0x80];
  }
}
