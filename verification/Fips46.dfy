/**
 The cipher of FIPS 46-3 on unrotated half-blocks.  The block function of EncryptDES under its key
 schedules is this cipher.  The eight tables stay parameters: an entry is an S-box value, permuted by P
 and rotated left by one place.
 */
module Fips46 {
  import opened DesCipher
  import opened DesKeys
  import opened FipsTables
  import opened FipsKeys

  // ----- the round function -----

  /** The six bits for one table, taken before or after the key is added. */
  lemma KeyAdded24(w: bv32, k: bv32)
    ensures Field(Xor(w, k), 24) == Xor(Field(w, 24), Field(k, 24))
  {
  }

  lemma KeyAdded16(w: bv32, k: bv32)
    ensures Field(Xor(w, k), 16) == Xor(Field(w, 16), Field(k, 16))
  {
  }

  lemma KeyAdded8(w: bv32, k: bv32)
    ensures Field(Xor(w, k), 8) == Xor(Field(w, 8), Field(k, 8))
  {
  }

  lemma KeyAdded0(w: bv32, k: bv32)
    ensures Field(Xor(w, k), 0) == Xor(Field(w, 0), Field(k, 0))
  {
  }

  predicate OddRows(h: bv32, w: bv32) {
    Field(w, 24) == E1(h) && Field(w, 16) == E3(h) && Field(w, 8) == E5(h) && Field(w, 0) == E7(h)
  }

  predicate EvenRows(h: bv32, w: bv32) {
    Field(w, 24) == E2(h) && Field(w, 16) == E4(h) && Field(w, 8) == E6(h) && Field(w, 0) == E8(h)
  }

  lemma OddRowsAre(h: bv32)
    ensures OddRows(h, Turned(RotateLeft(h)))
  {
    Selection1(h);
    Selection3(h);
    Selection5(h);
    Selection7(h);
    Masks();
    hide RotateLeft, Turned, Six, Field, Has, Mask;
  }

  lemma EvenRowsAre(h: bv32)
    ensures EvenRows(h, RotateLeft(h))
  {
    Selection2(h);
    Selection4(h);
    Selection6(h);
    Selection8(h);
    Masks();
    hide RotateLeft, Turned, Six, Field, Has, Mask;
  }

  lemma EntriesInOrder(bx: Boxes, w0: bv32, w1: bv32)
    ensures Entries(bx, w0, w1) ==
            bx.sp1(Field(w0, 24)) | bx.sp2(Field(w1, 24)) | bx.sp3(Field(w0, 16)) | bx.sp4(Field(w1, 16))
            | bx.sp5(Field(w0, 8)) | bx.sp6(Field(w1, 8)) | bx.sp7(Field(w0, 0)) | bx.sp8(Field(w1, 0))
  {
    hide Field;
  }

  lemma KeyedOdd(h: bv32, k: bv32)
    ensures var w := Xor(Turned(RotateLeft(h)), k);
            Field(w, 24) == Xor(E1(h), Field(k, 24)) && Field(w, 16) == Xor(E3(h), Field(k, 16))
            && Field(w, 8) == Xor(E5(h), Field(k, 8)) && Field(w, 0) == Xor(E7(h), Field(k, 0))
  {
    var w := Turned(RotateLeft(h));
    OddRowsAre(h);
    KeyAdded24(w, k);
    KeyAdded16(w, k);
    KeyAdded8(w, k);
    KeyAdded0(w, k);
    hide RotateLeft, Xor, E1, E3, E5, E7, Field, Turned;
  }

  lemma KeyedEven(h: bv32, k: bv32)
    ensures var w := Xor(RotateLeft(h), k);
            Field(w, 24) == Xor(E2(h), Field(k, 24)) && Field(w, 16) == Xor(E4(h), Field(k, 16))
            && Field(w, 8) == Xor(E6(h), Field(k, 8)) && Field(w, 0) == Xor(E8(h), Field(k, 0))
  {
    var w := RotateLeft(h);
    EvenRowsAre(h);
    KeyAdded24(w, k);
    KeyAdded16(w, k);
    KeyAdded8(w, k);
    KeyAdded0(w, k);
    hide RotateLeft, Xor, E2, E4, E6, E8, Field;
  }

  /** The entries of the eight tables for the rows of E and six key bits each. */
  function Entered(bx: Boxes, h: bv32, k1: bv32, k2: bv32, k3: bv32, k4: bv32, k5: bv32, k6: bv32, k7: bv32, k8: bv32): bv32 {
    bx.sp1(E1(h) ^ k1) | bx.sp2(E2(h) ^ k2) | bx.sp3(E3(h) ^ k3) | bx.sp4(E4(h) ^ k4)
    | bx.sp5(E5(h) ^ k5) | bx.sp6(E6(h) ^ k6) | bx.sp7(E7(h) ^ k7) | bx.sp8(E8(h) ^ k8)
  }

  /**
   On a half rotated left by one place, the round function takes from each table the entry selected by
   a row of E, exclusive-or the six bits that the key words hold for that table.
   */
  lemma ScrambleIsStandard(bx: Boxes, h: bv32, k0: bv32, k1: bv32)
    ensures Scramble(bx, RotateLeft(h), k0, k1) ==
            Entered(bx, h, Field(k0, 24), Field(k1, 24), Field(k0, 16), Field(k1, 16), Field(k0, 8), Field(k1, 8), Field(k0, 0), Field(k1, 0))
  {
    hide RotateLeft, E1, E2, E3, E4, E5, E6, E7, E8, Field, Turned, Entries;
    KeyedOdd(h, k0);
    KeyedEven(h, k1);
    EntriesInOrder(bx, Xor(Turned(RotateLeft(h)), k0), Xor(RotateLeft(h), k1));
  }

  // ----- the cipher -----

  /** The entries selected by E and the key of round n. */
  function Selected(bx: Boxes, reg: seq<bool>, n: nat, h: bv32): bv32
    requires |reg| == 56 && n <= 16
  {
    Entered(bx, h, K(reg, n, 1), K(reg, n, 2), K(reg, n, 3), K(reg, n, 4), K(reg, n, 5), K(reg, n, 6), K(reg, n, 7), K(reg, n, 8))
  }

  /** What round n adds to a half: the rotation in the entries taken back. */
  function CipherFunction(bx: Boxes, reg: seq<bool>, n: nat, h: bv32): bv32
    requires |reg| == 56 && n <= 16
  {
    RotateRight(Selected(bx, reg, n, h))
  }

  /** L and R after n rounds; deciphering takes the keys from the last to the first. */
  function Halves(bx: Boxes, reg: seq<bool>, decipher: bool, n: nat, l0: bv32, r0: bv32): (bv32, bv32)
    requires |reg| == 56 && n <= 16
  {
    if n == 0 then (l0, r0)
    else
      var (l, r) := Halves(bx, reg, decipher, n - 1, l0, r0);
      (r, l ^ CipherFunction(bx, reg, if decipher then 17 - n else n, r))
  }

  /** The output is the inverse permutation of R16 and L16: its initial permutation is R16 and L16. */
  predicate Standard(bx: Boxes, reg: seq<bool>, decipher: bool, a: bv32, b: bv32, l0: bv32, r0: bv32, outA: bv32, outB: bv32)
    requires |reg| == 56
  {
    var (l, r) := Halves(bx, reg, decipher, 16, l0, r0);
    InitialTable(a, b, l0, r0) && InitialTable(outA, outB, r, l)
  }

  lemma RotatedXor(l: bv32, f: bv32)
    ensures Xor(RotateLeft(l), f) == RotateLeft(l ^ RotateRight(f))
  {
  }

  lemma ScrambleSelects(bx: Boxes, reg: seq<bool>, n: nat, k0: bv32, k1: bv32, h: bv32)
    requires |reg| == 56 && n <= 16 && KeyFields(reg, n, k0, k1)
    ensures Scramble(bx, RotateLeft(h), k0, k1) == Selected(bx, reg, n, h)
  {
    hide Scramble, RotateLeft, Entered, K, Field;
    ScrambleIsStandard(bx, h, k0, k1);
  }

  /** With key words that hold the key of round n, the round function is the cipher function. */
  lemma RoundFunction(bx: Boxes, reg: seq<bool>, n: nat, k0: bv32, k1: bv32, l: bv32, r: bv32)
    requires |reg| == 56 && n <= 16 && KeyFields(reg, n, k0, k1)
    ensures Xor(RotateLeft(l), Scramble(bx, RotateLeft(r), k0, k1)) == RotateLeft(l ^ CipherFunction(bx, reg, n, r))
  {
    hide Scramble, Xor, RotateLeft, RotateRight, Selected, KeyFields;
    ScrambleSelects(bx, reg, n, k0, k1, r);
    RotatedXor(l, Selected(bx, reg, n, r));
  }

  /** The words of round r of the schedule hold the key of the standard's round. */
  lemma ScheduleFields(key: KeyBytes, decipher: bool, r: nat)
    requires r < 16
    ensures KeyFields(Register(key), if decipher then 16 - r else r + 1, Schedule(key, decipher)[2 * r], Schedule(key, decipher)[2 * r + 1])
  {
    hide Register, RawWord, Cook0, Cook1, KeyFields;
    CookedRows(Register(key), if decipher then 15 - r else r);
    assert 2 * r / 2 == r && (2 * r + 1) / 2 == r;
  }

  /** The rounds on halves rotated left by one place are those of the standard. */
  lemma {:induction false} RoundsStandard(bx: Boxes, key: KeyBytes, decipher: bool, n: nat, l0: bv32, r0: bv32)
    requires n <= 16
    ensures var (l, r) := Halves(bx, Register(key), decipher, n, l0, r0);
            Rounds(bx, Schedule(key, decipher), 0, n, RotateLeft(l0), RotateLeft(r0)) == (RotateLeft(l), RotateLeft(r))
  {
    hide Scramble, Xor, RotateLeft, Register, Schedule, KeyFields, CipherFunction, Rounds;
    var keys, reg := Schedule(key, decipher), Register(key);
    if n == 0 {
      NoRounds(bx, keys, 0, RotateLeft(l0), RotateLeft(r0));
    } else {
      var (l, r) := Halves(bx, reg, decipher, n - 1, l0, r0);
      RoundsStandard(bx, key, decipher, n - 1, l0, r0);
      RoundsSplit(bx, keys, 0, n - 1, 1, RotateLeft(l0), RotateLeft(r0));
      LastRound(bx, keys, n - 1, RotateLeft(l), RotateLeft(r));
      ScheduleFields(key, decipher, n - 1);
      RoundFunction(bx, reg, if decipher then 17 - n else n, keys[2 * (n - 1)], keys[2 * (n - 1) + 1], l, r);
    }
  }

  /**
   The block function under the schedules of a key is the cipher of FIPS 46-3, enciphering and
   deciphering, for every block, every key and all tables.
   */
  lemma CryptIsStandard(bx: Boxes, key: KeyBytes, decipher: bool, b: DESBlock)
    ensures var out := Crypt(bx, Schedule(key, decipher), b);
            exists l0, r0 :: Standard(bx, Register(key), decipher, Swap32(b.d0), Swap32(b.d1), l0, r0, Swap32(out.d0), Swap32(out.d1))
  {
    hide Initial, Final, Rounds, Swap32, InitialTable, RotateLeft, RotateRight, Halves, Schedule, Register;
    var (l, r) := Initial(Swap32(b.d0), Swap32(b.d1));
    var (l0, r0) := (RotateRight(l), RotateRight(r));
    Rotations(l);
    Rotations(r);
    InitialIsTable(Swap32(b.d0), Swap32(b.d1));
    RoundsStandard(bx, key, decipher, 16, l0, r0);
    var (l16, r16) := Halves(bx, Register(key), decipher, 16, l0, r0);
    Rotations(l16);
    Rotations(r16);
    var (l1, r1) := (RotateLeft(l16), RotateLeft(r16));
    var (l2, r2) := Final(l1, r1);
    InitialFinal(l1, r1);
    InitialIsTable(r2, l2);
    Swap32Twice(r2);
    Swap32Twice(l2);
    var out := Crypt(bx, Schedule(key, decipher), b);
    assert out == Reversed(DESBlock(r2, l2));
    assert Standard(bx, Register(key), decipher, Swap32(b.d0), Swap32(b.d1), l0, r0, Swap32(out.d0), Swap32(out.d1));
  }
}
