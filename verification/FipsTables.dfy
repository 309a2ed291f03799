/**
 The Data Encryption Standard as FIPS 46-3 describes it: its tables, with bits numbered from 1 at the
 most significant end.  The masks, shifts and rotations of EncryptDES are its initial permutation and
 its selection E.
 */
module FipsTables {
  import opened DesCipher

  // ----- bits -----

  /** The place of bit n of a word. */
  function Mask(n: nat): bv32
    requires 1 <= n <= 32
  {
    match n
    case 1 => 0x80000000 case 2 => 0x40000000 case 3 => 0x20000000 case 4 => 0x10000000
    case 5 => 0x08000000 case 6 => 0x04000000 case 7 => 0x02000000 case 8 => 0x01000000
    case 9 => 0x00800000 case 10 => 0x00400000 case 11 => 0x00200000 case 12 => 0x00100000
    case 13 => 0x00080000 case 14 => 0x00040000 case 15 => 0x00020000 case 16 => 0x00010000
    case 17 => 0x00008000 case 18 => 0x00004000 case 19 => 0x00002000 case 20 => 0x00001000
    case 21 => 0x00000800 case 22 => 0x00000400 case 23 => 0x00000200 case 24 => 0x00000100
    case 25 => 0x00000080 case 26 => 0x00000040 case 27 => 0x00000020 case 28 => 0x00000010
    case 29 => 0x00000008 case 30 => 0x00000004 case 31 => 0x00000002 case _ => 0x00000001
  }

  predicate Has(w: bv32, m: bv32) { w & m != 0 }

  lemma Masks1()
    ensures Mask(1) == 0x80000000 && Mask(2) == 0x40000000 && Mask(3) == 0x20000000 && Mask(4) == 0x10000000
  {
  }

  lemma Masks5()
    ensures Mask(5) == 0x08000000 && Mask(6) == 0x04000000 && Mask(7) == 0x02000000 && Mask(8) == 0x01000000
  {
  }

  lemma Masks9()
    ensures Mask(9) == 0x00800000 && Mask(10) == 0x00400000 && Mask(11) == 0x00200000 && Mask(12) == 0x00100000
  {
  }

  lemma Masks13()
    ensures Mask(13) == 0x00080000 && Mask(14) == 0x00040000 && Mask(15) == 0x00020000 && Mask(16) == 0x00010000
  {
  }

  lemma Masks17()
    ensures Mask(17) == 0x00008000 && Mask(18) == 0x00004000 && Mask(19) == 0x00002000 && Mask(20) == 0x00001000
  {
  }

  lemma Masks21()
    ensures Mask(21) == 0x00000800 && Mask(22) == 0x00000400 && Mask(23) == 0x00000200 && Mask(24) == 0x00000100
  {
  }

  lemma Masks25()
    ensures Mask(25) == 0x00000080 && Mask(26) == 0x00000040 && Mask(27) == 0x00000020 && Mask(28) == 0x00000010
  {
  }

  lemma Masks29()
    ensures Mask(29) == 0x00000008 && Mask(30) == 0x00000004 && Mask(31) == 0x00000002 && Mask(32) == 0x00000001
  {
  }

  lemma Masks()
    ensures Mask(1) == 0x80000000 && Mask(2) == 0x40000000 && Mask(3) == 0x20000000 && Mask(4) == 0x10000000
    ensures Mask(5) == 0x08000000 && Mask(6) == 0x04000000 && Mask(7) == 0x02000000 && Mask(8) == 0x01000000
    ensures Mask(9) == 0x00800000 && Mask(10) == 0x00400000 && Mask(11) == 0x00200000 && Mask(12) == 0x00100000
    ensures Mask(13) == 0x00080000 && Mask(14) == 0x00040000 && Mask(15) == 0x00020000 && Mask(16) == 0x00010000
    ensures Mask(17) == 0x00008000 && Mask(18) == 0x00004000 && Mask(19) == 0x00002000 && Mask(20) == 0x00001000
    ensures Mask(21) == 0x00000800 && Mask(22) == 0x00000400 && Mask(23) == 0x00000200 && Mask(24) == 0x00000100
    ensures Mask(25) == 0x00000080 && Mask(26) == 0x00000040 && Mask(27) == 0x00000020 && Mask(28) == 0x00000010
    ensures Mask(29) == 0x00000008 && Mask(30) == 0x00000004 && Mask(31) == 0x00000002 && Mask(32) == 0x00000001
  {
    hide Mask;
    Masks1();
    Masks5();
    Masks9();
    Masks13();
    Masks17();
    Masks21();
    Masks25();
    Masks29();
  }

  predicate BitOf(w: bv32, n: nat)
    requires 1 <= n <= 32
  {
    Has(w, Mask(n))
  }

  /** Bit n of a block of two words. */
  predicate BlockBit(a: bv32, b: bv32, n: nat)
    requires 1 <= n <= 64
  {
    if n <= 32 then BitOf(a, n) else BitOf(b, n - 32)
  }

  // ----- the initial permutation -----

  /** Eight bits of l and r from first on are these bits of a and b. */
  predicate Row(l: bv32, r: bv32, first: nat, a: bv32, b: bv32, n1: nat, n2: nat, n3: nat, n4: nat, n5: nat, n6: nat, n7: nat, n8: nat)
    requires 1 <= first <= 57
    requires 1 <= n1 <= 64 && 1 <= n2 <= 64 && 1 <= n3 <= 64 && 1 <= n4 <= 64 && 1 <= n5 <= 64 && 1 <= n6 <= 64 && 1 <= n7 <= 64 && 1 <= n8 <= 64
  {
    && BlockBit(l, r, first) == BlockBit(a, b, n1) && BlockBit(l, r, first + 1) == BlockBit(a, b, n2)
    && BlockBit(l, r, first + 2) == BlockBit(a, b, n3) && BlockBit(l, r, first + 3) == BlockBit(a, b, n4)
    && BlockBit(l, r, first + 4) == BlockBit(a, b, n5) && BlockBit(l, r, first + 5) == BlockBit(a, b, n6)
    && BlockBit(l, r, first + 6) == BlockBit(a, b, n7) && BlockBit(l, r, first + 7) == BlockBit(a, b, n8)
  }

  /** IP: the halves l and r of the permuted block. */
  predicate InitialTable(a: bv32, b: bv32, l: bv32, r: bv32) {
    && Row(l, r, 1, a, b, 58, 50, 42, 34, 26, 18, 10, 2)
    && Row(l, r, 9, a, b, 60, 52, 44, 36, 28, 20, 12, 4)
    && Row(l, r, 17, a, b, 62, 54, 46, 38, 30, 22, 14, 6)
    && Row(l, r, 25, a, b, 64, 56, 48, 40, 32, 24, 16, 8)
    && Row(l, r, 33, a, b, 57, 49, 41, 33, 25, 17, 9, 1)
    && Row(l, r, 41, a, b, 59, 51, 43, 35, 27, 19, 11, 3)
    && Row(l, r, 49, a, b, 61, 53, 45, 37, 29, 21, 13, 5)
    && Row(l, r, 57, a, b, 63, 55, 47, 39, 31, 23, 15, 7)
  }

  /** A bit of one word is a bit of another one. */
  predicate Same(w: bv32, m: bv32, x: bv32, q: bv32) {
    (w & m != 0) == (x & q != 0)
  }

  lemma Initial1(a: bv32, b: bv32)
    ensures var (l, r) := Initial(a, b); var w := RotateRight(l);
            Same(w, 0x80000000, b, 0x00000040) && Same(w, 0x40000000, b, 0x00004000) && Same(w, 0x20000000, b, 0x00400000) && Same(w, 0x10000000, b, 0x40000000)
  {
  }

  lemma Initial5(a: bv32, b: bv32)
    ensures var (l, r) := Initial(a, b); var w := RotateRight(l);
            Same(w, 0x08000000, a, 0x00000040) && Same(w, 0x04000000, a, 0x00004000) && Same(w, 0x02000000, a, 0x00400000) && Same(w, 0x01000000, a, 0x40000000)
  {
  }

  lemma Initial9(a: bv32, b: bv32)
    ensures var (l, r) := Initial(a, b); var w := RotateRight(l);
            Same(w, 0x00800000, b, 0x00000010) && Same(w, 0x00400000, b, 0x00001000) && Same(w, 0x00200000, b, 0x00100000) && Same(w, 0x00100000, b, 0x10000000)
  {
  }

  lemma Initial13(a: bv32, b: bv32)
    ensures var (l, r) := Initial(a, b); var w := RotateRight(l);
            Same(w, 0x00080000, a, 0x00000010) && Same(w, 0x00040000, a, 0x00001000) && Same(w, 0x00020000, a, 0x00100000) && Same(w, 0x00010000, a, 0x10000000)
  {
  }

  lemma Initial17(a: bv32, b: bv32)
    ensures var (l, r) := Initial(a, b); var w := RotateRight(l);
            Same(w, 0x00008000, b, 0x00000004) && Same(w, 0x00004000, b, 0x00000400) && Same(w, 0x00002000, b, 0x00040000) && Same(w, 0x00001000, b, 0x04000000)
  {
  }

  lemma Initial21(a: bv32, b: bv32)
    ensures var (l, r) := Initial(a, b); var w := RotateRight(l);
            Same(w, 0x00000800, a, 0x00000004) && Same(w, 0x00000400, a, 0x00000400) && Same(w, 0x00000200, a, 0x00040000) && Same(w, 0x00000100, a, 0x04000000)
  {
  }

  lemma Initial25(a: bv32, b: bv32)
    ensures var (l, r) := Initial(a, b); var w := RotateRight(l);
            Same(w, 0x00000080, b, 0x00000001) && Same(w, 0x00000040, b, 0x00000100) && Same(w, 0x00000020, b, 0x00010000) && Same(w, 0x00000010, b, 0x01000000)
  {
  }

  lemma Initial29(a: bv32, b: bv32)
    ensures var (l, r) := Initial(a, b); var w := RotateRight(l);
            Same(w, 0x00000008, a, 0x00000001) && Same(w, 0x00000004, a, 0x00000100) && Same(w, 0x00000002, a, 0x00010000) && Same(w, 0x00000001, a, 0x01000000)
  {
  }

  lemma Initial33(a: bv32, b: bv32)
    ensures var (l, r) := Initial(a, b); var w := RotateRight(r);
            Same(w, 0x80000000, b, 0x00000080) && Same(w, 0x40000000, b, 0x00008000) && Same(w, 0x20000000, b, 0x00800000) && Same(w, 0x10000000, b, 0x80000000)
  {
  }

  lemma Initial37(a: bv32, b: bv32)
    ensures var (l, r) := Initial(a, b); var w := RotateRight(r);
            Same(w, 0x08000000, a, 0x00000080) && Same(w, 0x04000000, a, 0x00008000) && Same(w, 0x02000000, a, 0x00800000) && Same(w, 0x01000000, a, 0x80000000)
  {
  }

  lemma Initial41(a: bv32, b: bv32)
    ensures var (l, r) := Initial(a, b); var w := RotateRight(r);
            Same(w, 0x00800000, b, 0x00000020) && Same(w, 0x00400000, b, 0x00002000) && Same(w, 0x00200000, b, 0x00200000) && Same(w, 0x00100000, b, 0x20000000)
  {
  }

  lemma Initial45(a: bv32, b: bv32)
    ensures var (l, r) := Initial(a, b); var w := RotateRight(r);
            Same(w, 0x00080000, a, 0x00000020) && Same(w, 0x00040000, a, 0x00002000) && Same(w, 0x00020000, a, 0x00200000) && Same(w, 0x00010000, a, 0x20000000)
  {
  }

  lemma Initial49(a: bv32, b: bv32)
    ensures var (l, r) := Initial(a, b); var w := RotateRight(r);
            Same(w, 0x00008000, b, 0x00000008) && Same(w, 0x00004000, b, 0x00000800) && Same(w, 0x00002000, b, 0x00080000) && Same(w, 0x00001000, b, 0x08000000)
  {
  }

  lemma Initial53(a: bv32, b: bv32)
    ensures var (l, r) := Initial(a, b); var w := RotateRight(r);
            Same(w, 0x00000800, a, 0x00000008) && Same(w, 0x00000400, a, 0x00000800) && Same(w, 0x00000200, a, 0x00080000) && Same(w, 0x00000100, a, 0x08000000)
  {
  }

  lemma Initial57(a: bv32, b: bv32)
    ensures var (l, r) := Initial(a, b); var w := RotateRight(r);
            Same(w, 0x00000080, b, 0x00000002) && Same(w, 0x00000040, b, 0x00000200) && Same(w, 0x00000020, b, 0x00020000) && Same(w, 0x00000010, b, 0x02000000)
  {
  }

  lemma Initial61(a: bv32, b: bv32)
    ensures var (l, r) := Initial(a, b); var w := RotateRight(r);
            Same(w, 0x00000008, a, 0x00000002) && Same(w, 0x00000004, a, 0x00000200) && Same(w, 0x00000002, a, 0x00020000) && Same(w, 0x00000001, a, 0x02000000)
  {
  }

  lemma Row1(a: bv32, b: bv32)
    ensures var (l, r) := Initial(a, b); Row(RotateRight(l), RotateRight(r), 1, a, b, 58, 50, 42, 34, 26, 18, 10, 2)
  {
    Initial1(a, b);
    Initial5(a, b);
    Masks();
    hide Initial, RotateRight, Mask;
  }

  lemma Row9(a: bv32, b: bv32)
    ensures var (l, r) := Initial(a, b); Row(RotateRight(l), RotateRight(r), 9, a, b, 60, 52, 44, 36, 28, 20, 12, 4)
  {
    Initial9(a, b);
    Initial13(a, b);
    Masks();
    hide Initial, RotateRight, Mask;
  }

  lemma Row17(a: bv32, b: bv32)
    ensures var (l, r) := Initial(a, b); Row(RotateRight(l), RotateRight(r), 17, a, b, 62, 54, 46, 38, 30, 22, 14, 6)
  {
    Initial17(a, b);
    Initial21(a, b);
    Masks();
    hide Initial, RotateRight, Mask;
  }

  lemma Row25(a: bv32, b: bv32)
    ensures var (l, r) := Initial(a, b); Row(RotateRight(l), RotateRight(r), 25, a, b, 64, 56, 48, 40, 32, 24, 16, 8)
  {
    Initial25(a, b);
    Initial29(a, b);
    Masks();
    hide Initial, RotateRight, Mask;
  }

  lemma Row33(a: bv32, b: bv32)
    ensures var (l, r) := Initial(a, b); Row(RotateRight(l), RotateRight(r), 33, a, b, 57, 49, 41, 33, 25, 17, 9, 1)
  {
    Initial33(a, b);
    Initial37(a, b);
    Masks();
    hide Initial, RotateRight, Mask;
  }

  lemma Row41(a: bv32, b: bv32)
    ensures var (l, r) := Initial(a, b); Row(RotateRight(l), RotateRight(r), 41, a, b, 59, 51, 43, 35, 27, 19, 11, 3)
  {
    Initial41(a, b);
    Initial45(a, b);
    Masks();
    hide Initial, RotateRight, Mask;
  }

  lemma Row49(a: bv32, b: bv32)
    ensures var (l, r) := Initial(a, b); Row(RotateRight(l), RotateRight(r), 49, a, b, 61, 53, 45, 37, 29, 21, 13, 5)
  {
    Initial49(a, b);
    Initial53(a, b);
    Masks();
    hide Initial, RotateRight, Mask;
  }

  lemma Row57(a: bv32, b: bv32)
    ensures var (l, r) := Initial(a, b); Row(RotateRight(l), RotateRight(r), 57, a, b, 63, 55, 47, 39, 31, 23, 15, 7)
  {
    Initial57(a, b);
    Initial61(a, b);
    Masks();
    hide Initial, RotateRight, Mask;
  }

  /** Initial makes the halves of the table, each rotated left by one place. */
  lemma InitialIsTable(a: bv32, b: bv32)
    ensures var (l, r) := Initial(a, b); InitialTable(a, b, RotateRight(l), RotateRight(r))
  {
    hide Initial, RotateRight, Row;
    Row1(a, b);
    Row9(a, b);
    Row17(a, b);
    Row25(a, b);
    Row33(a, b);
    Row41(a, b);
    Row49(a, b);
    Row57(a, b);
  }

  // ----- the selection E -----

  /** Six bits, the first one most significant. */
  function Six(b1: bool, b2: bool, b3: bool, b4: bool, b5: bool, b6: bool): (w: bv32)
    ensures w & 0x3f == w
  {
    (if b1 then 0x20 else 0) | (if b2 then 0x10 else 0) | (if b3 then 0x08 else 0) | (if b4 then 0x04 else 0)
    | (if b5 then 0x02 else 0) | (if b6 then 0x01 else 0)
  }

  function Select(h: bv32, n1: nat, n2: nat, n3: nat, n4: nat, n5: nat, n6: nat): bv32
    requires 1 <= n1 <= 32 && 1 <= n2 <= 32 && 1 <= n3 <= 32 && 1 <= n4 <= 32 && 1 <= n5 <= 32 && 1 <= n6 <= 32
  {
    Six(BitOf(h, n1), BitOf(h, n2), BitOf(h, n3), BitOf(h, n4), BitOf(h, n5), BitOf(h, n6))
  }

  // The rows of E.

  function E1(h: bv32): bv32 { Select(h, 32, 1, 2, 3, 4, 5) }

  function E2(h: bv32): bv32 { Select(h, 4, 5, 6, 7, 8, 9) }

  function E3(h: bv32): bv32 { Select(h, 8, 9, 10, 11, 12, 13) }

  function E4(h: bv32): bv32 { Select(h, 12, 13, 14, 15, 16, 17) }

  function E5(h: bv32): bv32 { Select(h, 16, 17, 18, 19, 20, 21) }

  function E6(h: bv32): bv32 { Select(h, 20, 21, 22, 23, 24, 25) }

  function E7(h: bv32): bv32 { Select(h, 24, 25, 26, 27, 28, 29) }

  function E8(h: bv32): bv32 { Select(h, 28, 29, 30, 31, 32, 1) }

  lemma Selection1(h: bv32)
    ensures var right := RotateLeft(h); var w := Turned(right);
            Field(w, 24) == Six(Has(h, 0x00000001), Has(h, 0x80000000), Has(h, 0x40000000), Has(h, 0x20000000), Has(h, 0x10000000), Has(h, 0x08000000))
  {
  }

  lemma Selection2(h: bv32)
    ensures var right := RotateLeft(h); var w := right;
            Field(w, 24) == Six(Has(h, 0x10000000), Has(h, 0x08000000), Has(h, 0x04000000), Has(h, 0x02000000), Has(h, 0x01000000), Has(h, 0x00800000))
  {
  }

  lemma Selection3(h: bv32)
    ensures var right := RotateLeft(h); var w := Turned(right);
            Field(w, 16) == Six(Has(h, 0x01000000), Has(h, 0x00800000), Has(h, 0x00400000), Has(h, 0x00200000), Has(h, 0x00100000), Has(h, 0x00080000))
  {
  }

  lemma Selection4(h: bv32)
    ensures var right := RotateLeft(h); var w := right;
            Field(w, 16) == Six(Has(h, 0x00100000), Has(h, 0x00080000), Has(h, 0x00040000), Has(h, 0x00020000), Has(h, 0x00010000), Has(h, 0x00008000))
  {
  }

  lemma Selection5(h: bv32)
    ensures var right := RotateLeft(h); var w := Turned(right);
            Field(w, 8) == Six(Has(h, 0x00010000), Has(h, 0x00008000), Has(h, 0x00004000), Has(h, 0x00002000), Has(h, 0x00001000), Has(h, 0x00000800))
  {
  }

  lemma Selection6(h: bv32)
    ensures var right := RotateLeft(h); var w := right;
            Field(w, 8) == Six(Has(h, 0x00001000), Has(h, 0x00000800), Has(h, 0x00000400), Has(h, 0x00000200), Has(h, 0x00000100), Has(h, 0x00000080))
  {
  }

  lemma Selection7(h: bv32)
    ensures var right := RotateLeft(h); var w := Turned(right);
            Field(w, 0) == Six(Has(h, 0x00000100), Has(h, 0x00000080), Has(h, 0x00000040), Has(h, 0x00000020), Has(h, 0x00000010), Has(h, 0x00000008))
  {
  }

  lemma Selection8(h: bv32)
    ensures var right := RotateLeft(h); var w := right;
            Field(w, 0) == Six(Has(h, 0x00000010), Has(h, 0x00000008), Has(h, 0x00000004), Has(h, 0x00000002), Has(h, 0x00000001), Has(h, 0x80000000))
  {
  }
}
