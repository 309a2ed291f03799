/**
 The key schedule of FIPS 46-3: the two halves of the key register, shifted round by round, and
 permuted choice 2.  The key words that deskey collects and rearranges hold its six-bit groups.
 */
module FipsKeys {
  import opened DesCipher
  import opened DesKeys
  import opened FipsTables

  // ----- the key schedule -----

  /** The left shifts of round n. */
  function LeftShifts(n: nat): nat {
    if n == 1 || n == 2 || n == 9 || n == 16 then 1 else 2
  }

  /** One half of the key register after n rounds. */
  function Shifted(c: seq<bool>, n: nat): (r: seq<bool>)
    requires |c| == 28 && n <= 16
    ensures |r| == 28
  {
    if n == 0 then c
    else
      var p := Shifted(c, n - 1);
      p[LeftShifts(n)..] + p[..LeftShifts(n)]
  }

  /** Bit p of C and D in round n. */
  predicate RegisterBit(reg: seq<bool>, n: nat, p: nat)
    requires |reg| == 56 && n <= 16 && 1 <= p <= 56
  {
    if p <= 28 then Shifted(reg[..28], n)[p - 1] else Shifted(reg[28..], n)[p - 29]
  }

  function KeyRow(reg: seq<bool>, n: nat, p1: nat, p2: nat, p3: nat, p4: nat, p5: nat, p6: nat): bv32
    requires |reg| == 56 && n <= 16
    requires 1 <= p1 <= 56 && 1 <= p2 <= 56 && 1 <= p3 <= 56 && 1 <= p4 <= 56 && 1 <= p5 <= 56 && 1 <= p6 <= 56
  {
    Six(RegisterBit(reg, n, p1), RegisterBit(reg, n, p2), RegisterBit(reg, n, p3), RegisterBit(reg, n, p4), RegisterBit(reg, n, p5), RegisterBit(reg, n, p6))
  }

  /** Row j of permuted choice 2 in round n: the key bits for table j. */
  function K(reg: seq<bool>, n: nat, j: nat): bv32
    requires |reg| == 56 && n <= 16 && 1 <= j <= 8
  {
    match j
    case 1 => KeyRow(reg, n, 14, 17, 11, 24, 1, 5)
    case 2 => KeyRow(reg, n, 3, 28, 15, 6, 21, 10)
    case 3 => KeyRow(reg, n, 23, 19, 12, 4, 26, 8)
    case 4 => KeyRow(reg, n, 16, 7, 27, 20, 13, 2)
    case 5 => KeyRow(reg, n, 41, 52, 31, 37, 47, 55)
    case 6 => KeyRow(reg, n, 30, 40, 51, 45, 33, 48)
    case 7 => KeyRow(reg, n, 44, 49, 39, 56, 34, 53)
    case _ => KeyRow(reg, n, 46, 42, 50, 36, 29, 32)
  }

  lemma TotalStep(n: nat)
    requires 1 <= n <= 16
    ensures TotalRotation(n - 1) == (if n == 1 then 0 else TotalRotation(n - 2)) + LeftShifts(n)
  {
  }

  lemma RotateOnce(c: seq<bool>, t: nat, s: nat)
    requires t + s <= |c|
    ensures var p := c[t..] + c[..t]; p[s..] + p[..s] == c[t + s..] + c[..t + s]
  {
    var p := c[t..] + c[..t];
    assert p[s..] == c[t + s..] + c[..t];
    assert c[..t + s] == c[..t] + c[t..t + s];
  }

  /** The rotations of the rounds so far, one after the other, are one rotation. */
  lemma {:induction false} ShiftedInAll(c: seq<bool>, n: nat)
    requires |c| == 28 && 1 <= n <= 16
    ensures Shifted(c, n) == c[TotalRotation(n - 1)..] + c[..TotalRotation(n - 1)]
  {
    hide LeftShifts, TotalRotation;
    TotalStep(n);
    if n == 1 {
      assert Shifted(c, 0) == c[0..] + c[..0];
      RotateOnce(c, 0, LeftShifts(1));
    } else {
      ShiftedInAll(c, n - 1);
      RotateOnce(c, TotalRotation(n - 2), LeftShifts(n));
    }
  }

  lemma RotatedIsShifted(reg: seq<bool>, i: nat, j: nat)
    requires |reg| == 56 && i < 16 && j < 56
    ensures Rotated(reg, i, j) == RegisterBit(reg, i + 1, j + 1)
  {
    hide Shifted, TotalRotation;
    if j < 28 {
      ShiftedInAll(reg[..28], i + 1);
      RotatedAt(reg[..28], TotalRotation(i), j);
    } else {
      ShiftedInAll(reg[28..], i + 1);
      RotatedAt(reg[28..], TotalRotation(i), j - 28);
    }
  }

  lemma RotatedAt(c: seq<bool>, t: nat, j: nat)
    requires |c| == 28 && t <= 28 && j < 28
    ensures (c[t..] + c[..t])[j] == if j + t < 28 then c[j + t] else c[j + t - 28]
  {
  }

  /** Bit j of permuted choice 2, from 0, in a raw key word. */
  predicate RawBit(reg: seq<bool>, i: nat, j: nat)
    requires |reg| == 56 && i < 16 && j < 48
  {
    Rotated(reg, i, Pc2(j))
  }

  function SixFrom(reg: seq<bool>, i: nat, j: nat): bv32
    requires |reg| == 56 && i < 16 && j <= 42
  {
    Six(RawBit(reg, i, j), RawBit(reg, i, j + 1), RawBit(reg, i, j + 2), RawBit(reg, i, j + 3), RawBit(reg, i, j + 4), RawBit(reg, i, j + 5))
  }

  function Pick(b: bool, m: bv32): bv32 {
    if b then m else 0
  }

  lemma OneByOne(w: bv32, p1: bv32, p2: bv32, p3: bv32, p4: bv32, p5: bv32, p6: bv32)
    ensures Or(Or(Or(Or(Or(Or(w, p1), p2), p3), p4), p5), p6) == Or(w, Or(Or(Or(Or(Or(p1, p2), p3), p4), p5), p6))
  {
    hide Or;
    OrTogether(w, p1, p2);
    OrTogether(w, Or(p1, p2), p3);
    OrTogether(w, Or(Or(p1, p2), p3), p4);
    OrTogether(w, Or(Or(Or(p1, p2), p3), p4), p5);
    OrTogether(w, Or(Or(Or(Or(p1, p2), p3), p4), p5), p6);
  }

  lemma OrTogether(a: bv32, b: bv32, c: bv32)
    ensures Or(Or(a, b), c) == Or(a, Or(b, c))
  {
  }

  lemma BigBytes()
    ensures BigByte(0) == 0x800000 && BigByte(1) == 0x400000 && BigByte(2) == 0x200000 && BigByte(3) == 0x100000
    ensures BigByte(4) == 0x080000 && BigByte(5) == 0x040000 && BigByte(6) == 0x020000 && BigByte(7) == 0x010000
    ensures BigByte(8) == 0x008000 && BigByte(9) == 0x004000 && BigByte(10) == 0x002000 && BigByte(11) == 0x001000
    ensures BigByte(12) == 0x000800 && BigByte(13) == 0x000400 && BigByte(14) == 0x000200 && BigByte(15) == 0x000100
    ensures BigByte(16) == 0x000080 && BigByte(17) == 0x000040 && BigByte(18) == 0x000020 && BigByte(19) == 0x000010
    ensures BigByte(20) == 0x000008 && BigByte(21) == 0x000004 && BigByte(22) == 0x000002 && BigByte(23) == 0x000001
  {
  }

  lemma RawStep(reg: seq<bool>, i: nat, off: nat, j: nat)
    requires |reg| == 56 && i < 16 && (off == 0 || off == 24) && j < 24
    ensures RawWord(reg, i, off, j + 1) == Or(RawWord(reg, i, off, j), Pick(RawBit(reg, i, off + j), BigByte(j)))
  {
    hide Rotated, Pc2, BigByte;
  }

  lemma Placed1(b1: bool, b2: bool, b3: bool, b4: bool, b5: bool, b6: bool, p1: bv32, p2: bv32, p3: bv32, p4: bv32, p5: bv32, p6: bv32)
    requires p1 == (if b1 then 0x800000 else 0) && p2 == (if b2 then 0x400000 else 0) && p3 == (if b3 then 0x200000 else 0)
    requires p4 == (if b4 then 0x100000 else 0) && p5 == (if b5 then 0x080000 else 0) && p6 == (if b6 then 0x040000 else 0)
    ensures Or(Or(Or(Or(Or(p1, p2), p3), p4), p5), p6) == ShiftUp(Six(b1, b2, b3, b4, b5, b6), 18)
  {
  }

  lemma Collected1(w: bv32, b1: bool, b2: bool, b3: bool, b4: bool, b5: bool, b6: bool)
    ensures Or(Or(Or(Or(Or(Or(w, Pick(b1, 0x800000)), Pick(b2, 0x400000)), Pick(b3, 0x200000)), Pick(b4, 0x100000)), Pick(b5, 0x080000)), Pick(b6, 0x040000)) ==
            Or(w, ShiftUp(Six(b1, b2, b3, b4, b5, b6), 18))
  {
    hide Or, ShiftUp, Six;
    OneByOne(w, Pick(b1, 0x800000), Pick(b2, 0x400000), Pick(b3, 0x200000), Pick(b4, 0x100000), Pick(b5, 0x080000), Pick(b6, 0x040000));
    Placed1(b1, b2, b3, b4, b5, b6, Pick(b1, 0x800000), Pick(b2, 0x400000), Pick(b3, 0x200000), Pick(b4, 0x100000), Pick(b5, 0x080000), Pick(b6, 0x040000));
  }

  lemma RawSix1(reg: seq<bool>, i: nat, off: nat)
    requires |reg| == 56 && i < 16 && (off == 0 || off == 24)
    ensures RawWord(reg, i, off, 6) == Or(RawWord(reg, i, off, 0), ShiftUp(SixFrom(reg, i, off + 0), 18))
  {
    hide Or, Pick, ShiftUp, Six, RawWord, RawBit, BigByte;
    BigBytes();
    RawStep(reg, i, off, 0);
    RawStep(reg, i, off, 1);
    RawStep(reg, i, off, 2);
    RawStep(reg, i, off, 3);
    RawStep(reg, i, off, 4);
    RawStep(reg, i, off, 5);
    Collected1(RawWord(reg, i, off, 0), RawBit(reg, i, off + 0), RawBit(reg, i, off + 1), RawBit(reg, i, off + 2), RawBit(reg, i, off + 3), RawBit(reg, i, off + 4), RawBit(reg, i, off + 5));
  }

  lemma Placed2(b1: bool, b2: bool, b3: bool, b4: bool, b5: bool, b6: bool, p1: bv32, p2: bv32, p3: bv32, p4: bv32, p5: bv32, p6: bv32)
    requires p1 == (if b1 then 0x020000 else 0) && p2 == (if b2 then 0x010000 else 0) && p3 == (if b3 then 0x008000 else 0)
    requires p4 == (if b4 then 0x004000 else 0) && p5 == (if b5 then 0x002000 else 0) && p6 == (if b6 then 0x001000 else 0)
    ensures Or(Or(Or(Or(Or(p1, p2), p3), p4), p5), p6) == ShiftUp(Six(b1, b2, b3, b4, b5, b6), 12)
  {
  }

  lemma Collected2(w: bv32, b1: bool, b2: bool, b3: bool, b4: bool, b5: bool, b6: bool)
    ensures Or(Or(Or(Or(Or(Or(w, Pick(b1, 0x020000)), Pick(b2, 0x010000)), Pick(b3, 0x008000)), Pick(b4, 0x004000)), Pick(b5, 0x002000)), Pick(b6, 0x001000)) ==
            Or(w, ShiftUp(Six(b1, b2, b3, b4, b5, b6), 12))
  {
    hide Or, ShiftUp, Six;
    OneByOne(w, Pick(b1, 0x020000), Pick(b2, 0x010000), Pick(b3, 0x008000), Pick(b4, 0x004000), Pick(b5, 0x002000), Pick(b6, 0x001000));
    Placed2(b1, b2, b3, b4, b5, b6, Pick(b1, 0x020000), Pick(b2, 0x010000), Pick(b3, 0x008000), Pick(b4, 0x004000), Pick(b5, 0x002000), Pick(b6, 0x001000));
  }

  lemma RawSix2(reg: seq<bool>, i: nat, off: nat)
    requires |reg| == 56 && i < 16 && (off == 0 || off == 24)
    ensures RawWord(reg, i, off, 12) == Or(RawWord(reg, i, off, 6), ShiftUp(SixFrom(reg, i, off + 6), 12))
  {
    hide Or, Pick, ShiftUp, Six, RawWord, RawBit, BigByte;
    BigBytes();
    RawStep(reg, i, off, 6);
    RawStep(reg, i, off, 7);
    RawStep(reg, i, off, 8);
    RawStep(reg, i, off, 9);
    RawStep(reg, i, off, 10);
    RawStep(reg, i, off, 11);
    Collected2(RawWord(reg, i, off, 6), RawBit(reg, i, off + 6), RawBit(reg, i, off + 7), RawBit(reg, i, off + 8), RawBit(reg, i, off + 9), RawBit(reg, i, off + 10), RawBit(reg, i, off + 11));
  }

  lemma Placed3(b1: bool, b2: bool, b3: bool, b4: bool, b5: bool, b6: bool, p1: bv32, p2: bv32, p3: bv32, p4: bv32, p5: bv32, p6: bv32)
    requires p1 == (if b1 then 0x000800 else 0) && p2 == (if b2 then 0x000400 else 0) && p3 == (if b3 then 0x000200 else 0)
    requires p4 == (if b4 then 0x000100 else 0) && p5 == (if b5 then 0x000080 else 0) && p6 == (if b6 then 0x000040 else 0)
    ensures Or(Or(Or(Or(Or(p1, p2), p3), p4), p5), p6) == ShiftUp(Six(b1, b2, b3, b4, b5, b6), 6)
  {
  }

  lemma Collected3(w: bv32, b1: bool, b2: bool, b3: bool, b4: bool, b5: bool, b6: bool)
    ensures Or(Or(Or(Or(Or(Or(w, Pick(b1, 0x000800)), Pick(b2, 0x000400)), Pick(b3, 0x000200)), Pick(b4, 0x000100)), Pick(b5, 0x000080)), Pick(b6, 0x000040)) ==
            Or(w, ShiftUp(Six(b1, b2, b3, b4, b5, b6), 6))
  {
    hide Or, ShiftUp, Six;
    OneByOne(w, Pick(b1, 0x000800), Pick(b2, 0x000400), Pick(b3, 0x000200), Pick(b4, 0x000100), Pick(b5, 0x000080), Pick(b6, 0x000040));
    Placed3(b1, b2, b3, b4, b5, b6, Pick(b1, 0x000800), Pick(b2, 0x000400), Pick(b3, 0x000200), Pick(b4, 0x000100), Pick(b5, 0x000080), Pick(b6, 0x000040));
  }

  lemma RawSix3(reg: seq<bool>, i: nat, off: nat)
    requires |reg| == 56 && i < 16 && (off == 0 || off == 24)
    ensures RawWord(reg, i, off, 18) == Or(RawWord(reg, i, off, 12), ShiftUp(SixFrom(reg, i, off + 12), 6))
  {
    hide Or, Pick, ShiftUp, Six, RawWord, RawBit, BigByte;
    BigBytes();
    RawStep(reg, i, off, 12);
    RawStep(reg, i, off, 13);
    RawStep(reg, i, off, 14);
    RawStep(reg, i, off, 15);
    RawStep(reg, i, off, 16);
    RawStep(reg, i, off, 17);
    Collected3(RawWord(reg, i, off, 12), RawBit(reg, i, off + 12), RawBit(reg, i, off + 13), RawBit(reg, i, off + 14), RawBit(reg, i, off + 15), RawBit(reg, i, off + 16), RawBit(reg, i, off + 17));
  }

  lemma Placed4(b1: bool, b2: bool, b3: bool, b4: bool, b5: bool, b6: bool, p1: bv32, p2: bv32, p3: bv32, p4: bv32, p5: bv32, p6: bv32)
    requires p1 == (if b1 then 0x000020 else 0) && p2 == (if b2 then 0x000010 else 0) && p3 == (if b3 then 0x000008 else 0)
    requires p4 == (if b4 then 0x000004 else 0) && p5 == (if b5 then 0x000002 else 0) && p6 == (if b6 then 0x000001 else 0)
    ensures Or(Or(Or(Or(Or(p1, p2), p3), p4), p5), p6) == ShiftUp(Six(b1, b2, b3, b4, b5, b6), 0)
  {
  }

  lemma Collected4(w: bv32, b1: bool, b2: bool, b3: bool, b4: bool, b5: bool, b6: bool)
    ensures Or(Or(Or(Or(Or(Or(w, Pick(b1, 0x000020)), Pick(b2, 0x000010)), Pick(b3, 0x000008)), Pick(b4, 0x000004)), Pick(b5, 0x000002)), Pick(b6, 0x000001)) ==
            Or(w, ShiftUp(Six(b1, b2, b3, b4, b5, b6), 0))
  {
    hide Or, ShiftUp, Six;
    OneByOne(w, Pick(b1, 0x000020), Pick(b2, 0x000010), Pick(b3, 0x000008), Pick(b4, 0x000004), Pick(b5, 0x000002), Pick(b6, 0x000001));
    Placed4(b1, b2, b3, b4, b5, b6, Pick(b1, 0x000020), Pick(b2, 0x000010), Pick(b3, 0x000008), Pick(b4, 0x000004), Pick(b5, 0x000002), Pick(b6, 0x000001));
  }

  lemma RawSix4(reg: seq<bool>, i: nat, off: nat)
    requires |reg| == 56 && i < 16 && (off == 0 || off == 24)
    ensures RawWord(reg, i, off, 24) == Or(RawWord(reg, i, off, 18), ShiftUp(SixFrom(reg, i, off + 18), 0))
  {
    hide Or, Pick, ShiftUp, Six, RawWord, RawBit, BigByte;
    BigBytes();
    RawStep(reg, i, off, 18);
    RawStep(reg, i, off, 19);
    RawStep(reg, i, off, 20);
    RawStep(reg, i, off, 21);
    RawStep(reg, i, off, 22);
    RawStep(reg, i, off, 23);
    Collected4(RawWord(reg, i, off, 18), RawBit(reg, i, off + 18), RawBit(reg, i, off + 19), RawBit(reg, i, off + 20), RawBit(reg, i, off + 21), RawBit(reg, i, off + 22), RawBit(reg, i, off + 23));
  }

  function Four(a: bv32, b: bv32, c: bv32, d: bv32): bv32 { (a << 18) | (b << 12) | (c << 6) | d }

  lemma FourPlaces(a: bv32, b: bv32, c: bv32, d: bv32)
    ensures Or(Or(Or(Or(0, ShiftUp(a, 18)), ShiftUp(b, 12)), ShiftUp(c, 6)), ShiftUp(d, 0)) == Four(a, b, c, d)
  {
  }

  /** A raw key word is four rows of permuted choice 2. */
  lemma RawFour(reg: seq<bool>, i: nat, off: nat)
    requires |reg| == 56 && i < 16 && (off == 0 || off == 24)
    ensures RawWord(reg, i, off, 24) == Four(SixFrom(reg, i, off), SixFrom(reg, i, off + 6), SixFrom(reg, i, off + 12), SixFrom(reg, i, off + 18))
  {
    NoRawBits(reg, i, off);
    RawSix1(reg, i, off);
    RawSix2(reg, i, off);
    RawSix3(reg, i, off);
    RawSix4(reg, i, off);
    hide Or, ShiftUp, RawWord, SixFrom, Four;
    FourPlaces(SixFrom(reg, i, off), SixFrom(reg, i, off + 6), SixFrom(reg, i, off + 12), SixFrom(reg, i, off + 18));
  }

  lemma NoRawBits(reg: seq<bool>, i: nat, off: nat)
    requires |reg| == 56 && i < 16 && (off == 0 || off == 24)
    ensures RawWord(reg, i, off, 0) == 0
  {
  }

  /** A number of at most six bits. */
  predicate IsSix(w: bv32) { w & 0x3f == w }

  lemma CookedField1(a1: bv32, a2: bv32, a3: bv32, a4: bv32, a5: bv32, a6: bv32, a7: bv32, a8: bv32)
    requires IsSix(a1) && IsSix(a2) && IsSix(a3) && IsSix(a4) && IsSix(a5) && IsSix(a6) && IsSix(a7) && IsSix(a8)
    ensures Field(Cook0(Four(a1, a2, a3, a4), Four(a5, a6, a7, a8)), 24) == a1
  {
  }

  lemma CookedField3(a1: bv32, a2: bv32, a3: bv32, a4: bv32, a5: bv32, a6: bv32, a7: bv32, a8: bv32)
    requires IsSix(a1) && IsSix(a2) && IsSix(a3) && IsSix(a4) && IsSix(a5) && IsSix(a6) && IsSix(a7) && IsSix(a8)
    ensures Field(Cook0(Four(a1, a2, a3, a4), Four(a5, a6, a7, a8)), 16) == a3
  {
  }

  lemma CookedField5(a1: bv32, a2: bv32, a3: bv32, a4: bv32, a5: bv32, a6: bv32, a7: bv32, a8: bv32)
    requires IsSix(a1) && IsSix(a2) && IsSix(a3) && IsSix(a4) && IsSix(a5) && IsSix(a6) && IsSix(a7) && IsSix(a8)
    ensures Field(Cook0(Four(a1, a2, a3, a4), Four(a5, a6, a7, a8)), 8) == a5
  {
  }

  lemma CookedField7(a1: bv32, a2: bv32, a3: bv32, a4: bv32, a5: bv32, a6: bv32, a7: bv32, a8: bv32)
    requires IsSix(a1) && IsSix(a2) && IsSix(a3) && IsSix(a4) && IsSix(a5) && IsSix(a6) && IsSix(a7) && IsSix(a8)
    ensures Field(Cook0(Four(a1, a2, a3, a4), Four(a5, a6, a7, a8)), 0) == a7
  {
  }

  lemma CookedField2(a1: bv32, a2: bv32, a3: bv32, a4: bv32, a5: bv32, a6: bv32, a7: bv32, a8: bv32)
    requires IsSix(a1) && IsSix(a2) && IsSix(a3) && IsSix(a4) && IsSix(a5) && IsSix(a6) && IsSix(a7) && IsSix(a8)
    ensures Field(Cook1(Four(a1, a2, a3, a4), Four(a5, a6, a7, a8)), 24) == a2
  {
  }

  lemma CookedField4(a1: bv32, a2: bv32, a3: bv32, a4: bv32, a5: bv32, a6: bv32, a7: bv32, a8: bv32)
    requires IsSix(a1) && IsSix(a2) && IsSix(a3) && IsSix(a4) && IsSix(a5) && IsSix(a6) && IsSix(a7) && IsSix(a8)
    ensures Field(Cook1(Four(a1, a2, a3, a4), Four(a5, a6, a7, a8)), 16) == a4
  {
  }

  lemma CookedField6(a1: bv32, a2: bv32, a3: bv32, a4: bv32, a5: bv32, a6: bv32, a7: bv32, a8: bv32)
    requires IsSix(a1) && IsSix(a2) && IsSix(a3) && IsSix(a4) && IsSix(a5) && IsSix(a6) && IsSix(a7) && IsSix(a8)
    ensures Field(Cook1(Four(a1, a2, a3, a4), Four(a5, a6, a7, a8)), 8) == a6
  {
  }

  lemma CookedField8(a1: bv32, a2: bv32, a3: bv32, a4: bv32, a5: bv32, a6: bv32, a7: bv32, a8: bv32)
    requires IsSix(a1) && IsSix(a2) && IsSix(a3) && IsSix(a4) && IsSix(a5) && IsSix(a6) && IsSix(a7) && IsSix(a8)
    ensures Field(Cook1(Four(a1, a2, a3, a4), Four(a5, a6, a7, a8)), 0) == a8
  {
  }

  lemma Pc2Row1()
    ensures Pc2(0) == 13 && Pc2(1) == 16 && Pc2(2) == 10
    ensures Pc2(3) == 23 && Pc2(4) == 0 && Pc2(5) == 4
  {
  }

  lemma Pc2Row2()
    ensures Pc2(6) == 2 && Pc2(7) == 27 && Pc2(8) == 14
    ensures Pc2(9) == 5 && Pc2(10) == 20 && Pc2(11) == 9
  {
  }

  lemma Pc2Row3()
    ensures Pc2(12) == 22 && Pc2(13) == 18 && Pc2(14) == 11
    ensures Pc2(15) == 3 && Pc2(16) == 25 && Pc2(17) == 7
  {
  }

  lemma Pc2Row4()
    ensures Pc2(18) == 15 && Pc2(19) == 6 && Pc2(20) == 26
    ensures Pc2(21) == 19 && Pc2(22) == 12 && Pc2(23) == 1
  {
  }

  lemma Pc2Row5()
    ensures Pc2(24) == 40 && Pc2(25) == 51 && Pc2(26) == 30
    ensures Pc2(27) == 36 && Pc2(28) == 46 && Pc2(29) == 54
  {
  }

  lemma Pc2Row6()
    ensures Pc2(30) == 29 && Pc2(31) == 39 && Pc2(32) == 50
    ensures Pc2(33) == 44 && Pc2(34) == 32 && Pc2(35) == 47
  {
  }

  lemma Pc2Row7()
    ensures Pc2(36) == 43 && Pc2(37) == 48 && Pc2(38) == 38
    ensures Pc2(39) == 55 && Pc2(40) == 33 && Pc2(41) == 52
  {
  }

  lemma Pc2Row8()
    ensures Pc2(42) == 45 && Pc2(43) == 41 && Pc2(44) == 49
    ensures Pc2(45) == 35 && Pc2(46) == 28 && Pc2(47) == 31
  {
  }

  lemma RawBitIs(reg: seq<bool>, i: nat, j: nat)
    requires |reg| == 56 && i < 16 && j < 48
    ensures RawBit(reg, i, j) == RegisterBit(reg, i + 1, Pc2(j) + 1)
  {
    hide Pc2, Rotated, RegisterBit;
    RotatedIsShifted(reg, i, Pc2(j));
  }

  lemma RowOfKey1(reg: seq<bool>, i: nat)
    requires |reg| == 56 && i < 16
    ensures SixFrom(reg, i, 0) == K(reg, i + 1, 1)
  {
    hide Pc2, RawBit, RegisterBit, Six;
    Pc2Row1();
    RawBitIs(reg, i, 0);
    RawBitIs(reg, i, 1);
    RawBitIs(reg, i, 2);
    RawBitIs(reg, i, 3);
    RawBitIs(reg, i, 4);
    RawBitIs(reg, i, 5);
  }

  lemma RowOfKey2(reg: seq<bool>, i: nat)
    requires |reg| == 56 && i < 16
    ensures SixFrom(reg, i, 6) == K(reg, i + 1, 2)
  {
    hide Pc2, RawBit, RegisterBit, Six;
    Pc2Row2();
    RawBitIs(reg, i, 6);
    RawBitIs(reg, i, 7);
    RawBitIs(reg, i, 8);
    RawBitIs(reg, i, 9);
    RawBitIs(reg, i, 10);
    RawBitIs(reg, i, 11);
  }

  lemma RowOfKey3(reg: seq<bool>, i: nat)
    requires |reg| == 56 && i < 16
    ensures SixFrom(reg, i, 12) == K(reg, i + 1, 3)
  {
    hide Pc2, RawBit, RegisterBit, Six;
    Pc2Row3();
    RawBitIs(reg, i, 12);
    RawBitIs(reg, i, 13);
    RawBitIs(reg, i, 14);
    RawBitIs(reg, i, 15);
    RawBitIs(reg, i, 16);
    RawBitIs(reg, i, 17);
  }

  lemma RowOfKey4(reg: seq<bool>, i: nat)
    requires |reg| == 56 && i < 16
    ensures SixFrom(reg, i, 18) == K(reg, i + 1, 4)
  {
    hide Pc2, RawBit, RegisterBit, Six;
    Pc2Row4();
    RawBitIs(reg, i, 18);
    RawBitIs(reg, i, 19);
    RawBitIs(reg, i, 20);
    RawBitIs(reg, i, 21);
    RawBitIs(reg, i, 22);
    RawBitIs(reg, i, 23);
  }

  lemma RowOfKey5(reg: seq<bool>, i: nat)
    requires |reg| == 56 && i < 16
    ensures SixFrom(reg, i, 24) == K(reg, i + 1, 5)
  {
    hide Pc2, RawBit, RegisterBit, Six;
    Pc2Row5();
    RawBitIs(reg, i, 24);
    RawBitIs(reg, i, 25);
    RawBitIs(reg, i, 26);
    RawBitIs(reg, i, 27);
    RawBitIs(reg, i, 28);
    RawBitIs(reg, i, 29);
  }

  lemma RowOfKey6(reg: seq<bool>, i: nat)
    requires |reg| == 56 && i < 16
    ensures SixFrom(reg, i, 30) == K(reg, i + 1, 6)
  {
    hide Pc2, RawBit, RegisterBit, Six;
    Pc2Row6();
    RawBitIs(reg, i, 30);
    RawBitIs(reg, i, 31);
    RawBitIs(reg, i, 32);
    RawBitIs(reg, i, 33);
    RawBitIs(reg, i, 34);
    RawBitIs(reg, i, 35);
  }

  lemma RowOfKey7(reg: seq<bool>, i: nat)
    requires |reg| == 56 && i < 16
    ensures SixFrom(reg, i, 36) == K(reg, i + 1, 7)
  {
    hide Pc2, RawBit, RegisterBit, Six;
    Pc2Row7();
    RawBitIs(reg, i, 36);
    RawBitIs(reg, i, 37);
    RawBitIs(reg, i, 38);
    RawBitIs(reg, i, 39);
    RawBitIs(reg, i, 40);
    RawBitIs(reg, i, 41);
  }

  lemma RowOfKey8(reg: seq<bool>, i: nat)
    requires |reg| == 56 && i < 16
    ensures SixFrom(reg, i, 42) == K(reg, i + 1, 8)
  {
    hide Pc2, RawBit, RegisterBit, Six;
    Pc2Row8();
    RawBitIs(reg, i, 42);
    RawBitIs(reg, i, 43);
    RawBitIs(reg, i, 44);
    RawBitIs(reg, i, 45);
    RawBitIs(reg, i, 46);
    RawBitIs(reg, i, 47);
  }

  predicate KeyFields(reg: seq<bool>, n: nat, k0: bv32, k1: bv32)
    requires |reg| == 56 && n <= 16
  {
    && Field(k0, 24) == K(reg, n, 1) && Field(k1, 24) == K(reg, n, 2) && Field(k0, 16) == K(reg, n, 3) && Field(k1, 16) == K(reg, n, 4)
    && Field(k0, 8) == K(reg, n, 5) && Field(k1, 8) == K(reg, n, 6) && Field(k0, 0) == K(reg, n, 7) && Field(k1, 0) == K(reg, n, 8)
  }

  lemma KeyIsSix(reg: seq<bool>, n: nat, j: nat)
    requires |reg| == 56 && n <= 16 && 1 <= j <= 8
    ensures IsSix(K(reg, n, j))
  {
    hide RegisterBit;
  }

  /** The two cooked words of round i hold the eight rows of the key of round i + 1. */
  lemma CookedRows(reg: seq<bool>, i: nat)
    requires |reg| == 56 && i < 16
    ensures var raw0, raw1 := RawWord(reg, i, 0, 24), RawWord(reg, i, 24, 24);
            KeyFields(reg, i + 1, Cook0(raw0, raw1), Cook1(raw0, raw1))
  {
    hide RawWord, SixFrom, Four, Cook0, Cook1, Field, K, IsSix;
    var n := i + 1;
    RawFour(reg, i, 0);
    RawFour(reg, i, 24);
    RowOfKey1(reg, i);
    KeyIsSix(reg, n, 1);
    RowOfKey2(reg, i);
    KeyIsSix(reg, n, 2);
    RowOfKey3(reg, i);
    KeyIsSix(reg, n, 3);
    RowOfKey4(reg, i);
    KeyIsSix(reg, n, 4);
    RowOfKey5(reg, i);
    KeyIsSix(reg, n, 5);
    RowOfKey6(reg, i);
    KeyIsSix(reg, n, 6);
    RowOfKey7(reg, i);
    KeyIsSix(reg, n, 7);
    RowOfKey8(reg, i);
    KeyIsSix(reg, n, 8);
    CookedField1(K(reg, n, 1), K(reg, n, 2), K(reg, n, 3), K(reg, n, 4), K(reg, n, 5), K(reg, n, 6), K(reg, n, 7), K(reg, n, 8));
    CookedField2(K(reg, n, 1), K(reg, n, 2), K(reg, n, 3), K(reg, n, 4), K(reg, n, 5), K(reg, n, 6), K(reg, n, 7), K(reg, n, 8));
    CookedField3(K(reg, n, 1), K(reg, n, 2), K(reg, n, 3), K(reg, n, 4), K(reg, n, 5), K(reg, n, 6), K(reg, n, 7), K(reg, n, 8));
    CookedField4(K(reg, n, 1), K(reg, n, 2), K(reg, n, 3), K(reg, n, 4), K(reg, n, 5), K(reg, n, 6), K(reg, n, 7), K(reg, n, 8));
    CookedField5(K(reg, n, 1), K(reg, n, 2), K(reg, n, 3), K(reg, n, 4), K(reg, n, 5), K(reg, n, 6), K(reg, n, 7), K(reg, n, 8));
    CookedField6(K(reg, n, 1), K(reg, n, 2), K(reg, n, 3), K(reg, n, 4), K(reg, n, 5), K(reg, n, 6), K(reg, n, 7), K(reg, n, 8));
    CookedField7(K(reg, n, 1), K(reg, n, 2), K(reg, n, 3), K(reg, n, 4), K(reg, n, 5), K(reg, n, 6), K(reg, n, 7), K(reg, n, 8));
    CookedField8(K(reg, n, 1), K(reg, n, 2), K(reg, n, 3), K(reg, n, 4), K(reg, n, 5), K(reg, n, 6), K(reg, n, 7), K(reg, n, 8));
  }
}
