/** The table-driven CRC-32 of benchmarks/lib/crc32.ts, against bit-by-bit reflected division by
    0xEDB88320 (IEEE 802.3 clause 3.2.9; section 8 of RFC 1952). */
module Crc32 {
  import opened Words

  /** A UTF-16 code unit of a JavaScript string. */
  type CodeUnit = bv16

  const POLYNOMIAL: bv32 := 0xEDB8_8320
  const ALL_ONES: bv32 := 0xFFFF_FFFF

  /** `charCodeAt(i) & 0xFF`: Latin-1 keeps the low byte of every code unit. */
  function LowByte(u: CodeUnit): (b: bv32)
    ensures b <= 0xFF
  {
    (u & 0xFF) as bv32
  }

  // ---------------------------------------------------------------------------------------------
  // Reference: the shift register, one message bit at a time, least significant bit first.

  /** One register shift: subtract the reflected generator when the bit leaving is one. */
  function Shift(c: bv32): bv32 {
    if c & 1 == 1 then Xor(POLYNOMIAL, c >> 1) else c >> 1
  }

  /** Divide in the lowest `k` bits of `b`. */
  function FeedBits(c: bv32, b: bv32, k: nat): bv32
    decreases k
  {
    if k == 0 then c else FeedBits(Shift(Xor(c, b & 1)), b >> 1, k - 1)
  }

  function FeedByte(c: bv32, u: CodeUnit): bv32 {
    FeedBits(c, LowByte(u), 8)
  }

  /** The register after dividing in every bit of the message. */
  function Register(c: bv32, text: seq<CodeUnit>): bv32
    decreases |text|
  {
    if text == [] then c else Register(FeedByte(c, text[0]), text[1..])
  }

  /** The checksum by definition: preset to ones, divide bit by bit, complement. */
  function Checksum(text: seq<CodeUnit>): bv32 {
    Xor(Register(ALL_ONES, text), ALL_ONES)
  }

  // ---------------------------------------------------------------------------------------------
  // Shifting is linear over exclusive or, and plain halving while only zeros leave.

  function Shifts(c: bv32, k: nat): bv32
    decreases k
  {
    if k == 0 then c else Shifts(Shift(c), k - 1)
  }

  function Halves(c: bv32, k: nat): bv32
    decreases k
  {
    if k == 0 then c else Halves(c >> 1, k - 1)
  }

  ghost predicate ZerosLeave(c: bv32, k: nat)
    decreases k
  {
    k == 0 || (c & 1 == 0 && ZerosLeave(c >> 1, k - 1))
  }

  lemma ShiftXor(a: bv32, b: bv32)
    ensures Shift(Xor(a, b)) == Xor(Shift(a), Shift(b))
  {
    XorHalves(a, b);
    LowBits(a, b);
    var x, y := a >> 1, b >> 1;
    if a & 1 == 1 && b & 1 == 1 {
      XorRegroups(POLYNOMIAL, x, POLYNOMIAL, y);
      XorUndoes(0, POLYNOMIAL);
      XorZeroLeft(POLYNOMIAL);
      XorZeroLeft(Xor(x, y));
    } else if a & 1 == 1 {
      XorAssociates(POLYNOMIAL, x, y);
    } else if b & 1 == 1 {
      XorAssociates(x, POLYNOMIAL, y);
      XorCommutes(x, POLYNOMIAL);
      XorAssociates(POLYNOMIAL, x, y);
    }
  }

  lemma {:induction false} ShiftsXor(a: bv32, b: bv32, k: nat)
    ensures Shifts(Xor(a, b), k) == Xor(Shifts(a, k), Shifts(b, k))
    decreases k
  {
    if k > 0 {
      ShiftXor(a, b);
      ShiftsXor(Shift(a), Shift(b), k - 1);
    }
  }

  lemma {:induction false} ShiftsAdd(c: bv32, j: nat, k: nat)
    ensures Shifts(c, j + k) == Shifts(Shifts(c, j), k)
    decreases j
  {
    if j > 0 {
      ShiftsAdd(Shift(c), j - 1, k);
    }
  }

  lemma {:induction false} ZerosShiftAsHalves(c: bv32, k: nat)
    requires ZerosLeave(c, k)
    ensures Shifts(c, k) == Halves(c, k)
    decreases k
  {
    if k > 0 {
      ZerosShiftAsHalves(c >> 1, k - 1);
    }
  }

  lemma HalvesOfEight(c: bv32)
    ensures Halves(c, 8) == c >> 8
    ensures c & 0xFF == 0 ==> ZerosLeave(c, 8)
  {
  }

  /** Eight shifts drop a zero low byte and nothing else. */
  lemma ShiftsOfHighBytes(c: bv32)
    requires c & 0xFF == 0
    ensures Shifts(c, 8) == c >> 8
  {
  }

  // ---------------------------------------------------------------------------------------------
  // Feeding bits one at a time equals shifting the whole byte, which equals one table step.

  lemma LowBitOff(b: bv32)
    ensures Xor(b & 1, b & 0xFFFF_FFFE) == b
    ensures Shift(b & 0xFFFF_FFFE) == b >> 1
  {
  }

  lemma {:induction false} FeedBitsAsShifts(c: bv32, b: bv32, k: nat)
    ensures FeedBits(c, b, k) == Xor(Shifts(Xor(c, b), k), Halves(b, k))
    decreases k
  {
    if k == 0 {
      XorUndoes(c, b);
    } else {
      LowBitOff(b);
      XorAssociates(c, b & 1, b & 0xFFFF_FFFE);
      ShiftXor(Xor(c, b & 1), b & 0xFFFF_FFFE);
      FeedBitsAsShifts(Shift(Xor(c, b & 1)), b >> 1, k - 1);
    }
  }

  lemma FeedByteAsShifts(c: bv32, u: CodeUnit)
    ensures FeedByte(c, u) == Shifts(Xor(c, LowByte(u)), 8)
  {
    var b := LowByte(u);
    FeedBitsAsShifts(c, b, 8);
    HalvesOfEight(b);
    assert b >> 8 == 0;
    XorZero(Shifts(Xor(c, b), 8));
  }

  lemma SplitLowByte(c: bv32, b: bv32)
    requires b <= 0xFF
    ensures Xor(Xor(c, b) & 0xFF, Xor(c, b) & 0xFFFF_FF00) == Xor(c, b)
    ensures (Xor(c, b) & 0xFFFF_FF00) & 0xFF == 0
    ensures (Xor(c, b) & 0xFFFF_FF00) >> 8 == c >> 8
  {
  }

  /** The table step: one look-up replaces eight shifts. */
  lemma TableStep(c: bv32, u: CodeUnit)
    ensures FeedByte(c, u) == Xor(Shifts(Xor(c, LowByte(u)) & 0xFF, 8), c >> 8)
  {
    var x := Xor(c, LowByte(u));
    FeedByteAsShifts(c, u);
    SplitLowByte(c, LowByte(u));
    ShiftsXor(x & 0xFF, x & 0xFFFF_FF00, 8);
    ShiftsOfHighBytes(x & 0xFFFF_FF00);
  }

  lemma {:induction false} RegisterConcat(c: bv32, a: seq<CodeUnit>, b: seq<CodeUnit>)
    ensures Register(c, a + b) == Register(Register(c, a), b)
    decreases |a|
  {
    if a == [] {
      assert a + b == b;
    } else {
      assert (a + b)[1..] == a[1..] + b;
      RegisterConcat(FeedByte(c, a[0]), a[1..], b);
    }
  }

  lemma RegisterSnoc(c: bv32, a: seq<CodeUnit>, u: CodeUnit)
    ensures Register(c, a + [u]) == FeedByte(Register(c, a), u)
  {
    hide FeedByte;
    RegisterConcat(c, a, [u]);
    assert [u][1..] == [];
  }

  // ---------------------------------------------------------------------------------------------
  // The program.

  /** `TABLE`: entry `n` is `n` shifted eight times. */
  method BuildTable() returns (table: array<bv32>)
    ensures fresh(table) && table.Length == 256
    ensures forall n: nat :: n < 256 ==> table[n] == Shifts(n as bv32, 8)
  {
    hide Xor, Shift;
    table := new bv32[256];
    for n := 0 to 256
      invariant forall m: nat :: m < n ==> table[m] == Shifts(m as bv32, 8)
    {
      var c := n as bv32;
      for k := 0 to 8
        invariant Shifts(c, 8 - k) == Shifts(n as bv32, 8)
      {
        c := Shift(c);
      }
      table[n] := c;
    }
  }

  lemma IndexRoundTrip(x: bv32)
    requires x <= 0xFF
    ensures 0 <= x as int < 256 && (x as int) as bv32 == x
  {
  }

  /** `crc32Latin1`: the table-driven loop computes the bit-by-bit checksum of every message. */
  method Crc32Latin1(text: seq<CodeUnit>) returns (crc: bv32)
    ensures crc == Checksum(text)
  {
    hide Xor, Shift, LowByte;
    var table := BuildTable();
    var c := ALL_ONES;
    for i := 0 to |text|
      invariant forall n: nat :: n < 256 ==> table[n] == Shifts(n as bv32, 8)
      invariant c == Register(ALL_ONES, text[..i])
    {
      var entry := Xor(c, LowByte(text[i])) & 0xFF;
      IndexRoundTrip(entry);
      TableStep(c, text[i]);
      var index: nat := entry as int;
      RegisterSnoc(ALL_ONES, text[..i], text[i]);
      assert text[..i + 1] == text[..i] + [text[i]];
      c := Xor(table[index], c >> 8);
    }
    assert text[..|text|] == text;
    crc := Xor(c, ALL_ONES);
  }

  // ---------------------------------------------------------------------------------------------
  // The checksum is affine.

  function Xor3(a: seq<CodeUnit>, b: seq<CodeUnit>, c: seq<CodeUnit>): seq<CodeUnit>
    requires |a| == |b| == |c|
  {
    seq(|a|, i requires 0 <= i < |a| => XorUnits(a[i], b[i], c[i]))
  }

  function XorUnits(a: CodeUnit, b: CodeUnit, c: CodeUnit): CodeUnit {
    a ^ b ^ c
  }

  lemma LowByteXor(a: CodeUnit, b: CodeUnit, c: CodeUnit)
    ensures LowByte(XorUnits(a, b, c)) == Xor(Xor(LowByte(a), LowByte(b)), LowByte(c))
  {
  }

  lemma FeedByteXor3(x: bv32, y: bv32, z: bv32, a: CodeUnit, b: CodeUnit, c: CodeUnit)
    ensures FeedByte(Xor(Xor(x, y), z), XorUnits(a, b, c)) == Xor(Xor(FeedByte(x, a), FeedByte(y, b)), FeedByte(z, c))
  {
    var p, q, r := LowByte(a), LowByte(b), LowByte(c);
    LowByteXor(a, b, c);
    FeedByteAsShifts(Xor(Xor(x, y), z), XorUnits(a, b, c));
    FeedByteAsShifts(x, a);
    FeedByteAsShifts(y, b);
    FeedByteAsShifts(z, c);
    XorRegroups(Xor(x, y), z, Xor(p, q), r);
    XorRegroups(x, y, p, q);
    ShiftsXor(Xor(Xor(x, p), Xor(y, q)), Xor(z, r), 8);
    ShiftsXor(Xor(x, p), Xor(y, q), 8);
  }

  lemma {:induction false} RegisterXor3(x: bv32, y: bv32, z: bv32, a: seq<CodeUnit>, b: seq<CodeUnit>, c: seq<CodeUnit>)
    requires |a| == |b| == |c|
    ensures Register(Xor(Xor(x, y), z), Xor3(a, b, c)) == Xor(Xor(Register(x, a), Register(y, b)), Register(z, c))
    decreases |a|
  {
    if a != [] {
      FeedByteXor3(x, y, z, a[0], b[0], c[0]);
      var d := Xor3(a, b, c);
      assert d[0] == XorUnits(a[0], b[0], c[0]);
      assert d[1..] == Xor3(a[1..], b[1..], c[1..]);
      RegisterXor3(FeedByte(x, a[0]), FeedByte(y, b[0]), FeedByte(z, c[0]), a[1..], b[1..], c[1..]);
    }
  }

  /** crc(a) ^ crc(b) ^ crc(c) == crc(a ^ b ^ c) for texts of one length. */
  lemma ChecksumAffine(a: seq<CodeUnit>, b: seq<CodeUnit>, c: seq<CodeUnit>)
    requires |a| == |b| == |c|
    ensures Xor(Xor(Checksum(a), Checksum(b)), Checksum(c)) == Checksum(Xor3(a, b, c))
  {
    RegisterXor3(ALL_ONES, ALL_ONES, ALL_ONES, a, b, c);
    XorUndoes(ALL_ONES, ALL_ONES);
    var x, y, z := Register(ALL_ONES, a), Register(ALL_ONES, b), Register(ALL_ONES, c);
    XorRegroups(Xor(x, y), z, Xor(ALL_ONES, ALL_ONES), ALL_ONES);
    XorRegroups(x, y, ALL_ONES, ALL_ONES);
  }

  // ---------------------------------------------------------------------------------------------
  // Every change confined to four consecutive bytes is detected.

  ghost predicate SameLowBytes(a: seq<CodeUnit>, b: seq<CodeUnit>) {
    |a| == |b| && forall i :: 0 <= i < |a| ==> LowByte(a[i]) == LowByte(b[i])
  }

  function Up(x: bv32): bv32 {
    x << 8
  }

  /** Up to four bytes as one little-endian word. */
  function Word(w: seq<CodeUnit>): bv32
    requires |w| <= 4
  {
    if w == [] then 0 else Xor(LowByte(w[0]), Up(Word(w[1..])))
  }

  lemma WordFits(w: seq<CodeUnit>)
    requires |w| <= 3
    ensures Word(w) <= 0xFF_FFFF
    ensures |w| <= 2 ==> Word(w) <= 0xFFFF
    ensures |w| <= 1 ==> Word(w) <= 0xFF
    ensures |w| == 0 ==> Word(w) == 0
  {
  }

  lemma UpKeeps(x: bv32)
    requires x <= 0xFF_FFFF
    ensures Up(x) & 0xFF == 0 && Up(x) >> 8 == x
  {
  }

  lemma LowByteOfWord(b: bv32, x: bv32)
    requires b <= 0xFF
    ensures Xor(b, Up(x)) & 0xFF == b
  {
  }

  lemma {:induction false} WordInjective(v: seq<CodeUnit>, w: seq<CodeUnit>)
    requires |v| == |w| <= 4
    requires Word(v) == Word(w)
    ensures SameLowBytes(v, w)
  {
    hide Xor, LowByte, Up;
    if v != [] {
      WordFits(v[1..]);
      WordFits(w[1..]);
      LowByteOfWord(LowByte(v[0]), Word(v[1..]));
      LowByteOfWord(LowByte(w[0]), Word(w[1..]));
      XorCancels(LowByte(v[0]), Up(Word(v[1..])), Up(Word(w[1..])));
      UpKeeps(Word(v[1..]));
      UpKeeps(Word(w[1..]));
      WordInjective(v[1..], w[1..]);
      SameLowBytesCons(v, w);
    }
  }

  lemma SameLowBytesCons(v: seq<CodeUnit>, w: seq<CodeUnit>)
    requires v != [] && w != []
    requires LowByte(v[0]) == LowByte(w[0]) && SameLowBytes(v[1..], w[1..])
    ensures SameLowBytes(v, w)
  {
  }

  lemma FeedByteThenShifts(c: bv32, u: CodeUnit, x: bv32, k: nat)
    requires x <= 0xFF_FFFF
    ensures Shifts(Xor(FeedByte(c, u), x), k) == Shifts(Xor(c, Xor(LowByte(u), Up(x))), 8 + k)
  {
    hide Xor, Shift, Up, LowByte, FeedByte;
    UpKeeps(x);
    FeedByteAsShifts(c, u);
    ShiftsOfHighBytes(Up(x));
    ShiftsXor(Xor(c, LowByte(u)), Up(x), 8);
    XorAssociates(c, LowByte(u), Up(x));
    ShiftsAdd(Xor(c, Xor(LowByte(u), Up(x))), 8, k);
  }

  /** Dividing in at most four bytes is shifting their word. */
  lemma {:induction false} RegisterOfWord(c: bv32, w: seq<CodeUnit>)
    requires |w| <= 4
    ensures Register(c, w) == Shifts(Xor(c, Word(w)), 8 * |w|)
    decreases |w|
  {
    hide Xor, Shift, Up, LowByte, FeedByte;
    if w == [] {
      XorZero(c);
    } else {
      WordFits(w[1..]);
      RegisterOfWord(FeedByte(c, w[0]), w[1..]);
      FeedByteThenShifts(c, w[0], Word(w[1..]), 8 * |w[1..]|);
    }
  }

  /** The generator's top bit is set, so a shift loses nothing. */
  lemma ShiftInjective(a: bv32, b: bv32)
    requires Shift(a) == Shift(b)
    ensures a == b
  {
  }

  lemma {:induction false} ShiftsInjective(a: bv32, b: bv32, k: nat)
    requires Shifts(a, k) == Shifts(b, k)
    ensures a == b
    decreases k
  {
    if k > 0 {
      ShiftsInjective(Shift(a), Shift(b), k - 1);
      ShiftInjective(a, b);
    }
  }

  lemma {:induction false} RegisterInjective(a: bv32, b: bv32, text: seq<CodeUnit>)
    requires Register(a, text) == Register(b, text)
    ensures a == b
    decreases |text|
  {
    if text != [] {
      var byte := LowByte(text[0]);
      RegisterInjective(FeedByte(a, text[0]), FeedByte(b, text[0]), text[1..]);
      FeedByteAsShifts(a, text[0]);
      FeedByteAsShifts(b, text[0]);
      ShiftsInjective(Xor(a, byte), Xor(b, byte), 8);
      XorCancels(byte, a, b);
    }
  }

  lemma {:induction false} RegisterOfSameBytes(c: bv32, v: seq<CodeUnit>, w: seq<CodeUnit>)
    requires SameLowBytes(v, w)
    ensures Register(c, v) == Register(c, w)
    decreases |v|
  {
    if v != [] {
      assert SameLowBytes(v[1..], w[1..]);
      RegisterOfSameBytes(FeedByte(c, v[0]), v[1..], w[1..]);
    }
  }

  lemma RegisterSplit(before: seq<CodeUnit>, v: seq<CodeUnit>, after: seq<CodeUnit>)
    ensures Register(ALL_ONES, before + v + after) == Register(Register(Register(ALL_ONES, before), v), after)
  {
    RegisterConcat(ALL_ONES, before + v, after);
    RegisterConcat(ALL_ONES, before, v);
  }

  /** Two texts that share a prefix and a suffix around at most four code units have the same
      checksum exactly when those code units have the same low bytes. */
  lemma BurstDetected(before: seq<CodeUnit>, v: seq<CodeUnit>, w: seq<CodeUnit>, after: seq<CodeUnit>)
    requires |v| == |w| <= 4
    ensures Checksum(before + v + after) == Checksum(before + w + after) <==> SameLowBytes(v, w)
  {
    var c := Register(ALL_ONES, before);
    RegisterSplit(before, v, after);
    RegisterSplit(before, w, after);
    if Checksum(before + v + after) == Checksum(before + w + after) {
      XorCancels(ALL_ONES, Register(Register(c, v), after), Register(Register(c, w), after));
      RegisterInjective(Register(c, v), Register(c, w), after);
      RegisterOfWord(c, v);
      RegisterOfWord(c, w);
      ShiftsInjective(Xor(c, Word(v)), Xor(c, Word(w)), 8 * |v|);
      XorCancels(c, Word(v), Word(w));
      WordInjective(v, w);
    }
    if SameLowBytes(v, w) {
      RegisterOfSameBytes(c, v, w);
    }
  }

  // ---------------------------------------------------------------------------------------------
  // The check value.

  lemma RegisterStep(c: bv32, u: CodeUnit, rest: seq<CodeUnit>)
    ensures Register(c, [u] + rest) == Register(FeedByte(c, u), rest)
  {
    hide FeedByte;
    assert ([u] + rest)[1..] == rest;
  }

  lemma Complemented()
    ensures Xor(0x340B_C6D9, ALL_ONES) == 0xCBF4_3926 && ALL_ONES == 0xFFFF_FFFF
  {
  }

  /** The checksum of the digits one to nine is the check value of this CRC. */
  lemma CheckValue()
    ensures Checksum([0x31, 0x32, 0x33, 0x34, 0x35, 0x36, 0x37, 0x38, 0x39]) == 0xCBF4_3926
  {
    hide FeedByte;
    var t9: seq<CodeUnit> := [];
    Digit9();
    var t8 := [0x39] + t9;
    RegisterStep(0x651F_2550, 0x39, t9);
    Digit8();
    var t7 := [0x38] + t8;
    RegisterStep(0xAFFC_9660, 0x38, t8);
    Digit7();
    var t6 := [0x37] + t7;
    RegisterStep(0xF68D_2C9E, 0x37, t7);
    Digit6();
    var t5 := [0x36] + t6;
    RegisterStep(0x340A_C5E3, 0x36, t6);
    Digit5();
    var t4 := [0x35] + t5;
    RegisterStep(0x641C_1F5C, 0x35, t5);
    Digit4();
    var t3 := [0x34] + t4;
    RegisterStep(0x77B7_9C2D, 0x34, t4);
    Digit3();
    var t2 := [0x33] + t3;
    RegisterStep(0xB0AC_BB32, 0x33, t3);
    Digit2();
    var t1 := [0x32] + t2;
    RegisterStep(0x7C23_1048, 0x32, t2);
    Digit1();
    var t0 := [0x31] + t1;
    RegisterStep(0xFFFF_FFFF, 0x31, t1);
    assert t0 == [0x31, 0x32, 0x33, 0x34, 0x35, 0x36, 0x37, 0x38, 0x39];
    Complemented();
  }

  lemma Digit1()
    ensures FeedByte(0xFFFF_FFFF, 0x31) == 0x7C23_1048
  {
  }

  lemma Digit2()
    ensures FeedByte(0x7C23_1048, 0x32) == 0xB0AC_BB32
  {
  }

  lemma Digit3()
    ensures FeedByte(0xB0AC_BB32, 0x33) == 0x77B7_9C2D
  {
  }

  lemma Digit4()
    ensures FeedByte(0x77B7_9C2D, 0x34) == 0x641C_1F5C
  {
  }

  lemma Digit5()
    ensures FeedByte(0x641C_1F5C, 0x35) == 0x340A_C5E3
  {
  }

  lemma Digit6()
    ensures FeedByte(0x340A_C5E3, 0x36) == 0xF68D_2C9E
  {
  }

  lemma Digit7()
    ensures FeedByte(0xF68D_2C9E, 0x37) == 0xAFFC_9660
  {
  }

  lemma Digit8()
    ensures FeedByte(0xAFFC_9660, 0x38) == 0x651F_2550
  {
  }

  lemma Digit9()
    ensures FeedByte(0x651F_2550, 0x39) == 0x340B_C6D9
  {
  }
}
