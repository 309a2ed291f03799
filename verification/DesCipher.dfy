/**
 The DES block cipher of EncryptDES: key schedule, the swap-and-mask permutations and sixteen
 rounds, on 32-bit words.  The S-box tables are a parameter: deciphering undoes enciphering
 whatever they hold.
 */
module DesCipher {
  /** Two words, as they lie in memory. */
  datatype DESBlock = DESBlock(d0: bv32, d1: bv32)

  /** The eight combined S-box and P-box tables. */
  datatype Boxes = Boxes(sp1: bv32 -> bv32, sp2: bv32 -> bv32, sp3: bv32 -> bv32, sp4: bv32 -> bv32,
                         sp5: bv32 -> bv32, sp6: bv32 -> bv32, sp7: bv32 -> bv32, sp8: bv32 -> bv32)

  type Keys = k: seq<bv32> | |k| == 32 witness seq(32, i => 0)

  function Xor(a: bv32, b: bv32): bv32 { a ^ b }

  function Or(a: bv32, b: bv32): bv32 { a | b }

  function ShiftUp(w: bv32, k: bv32): bv32
    requires k < 32
  {
    w << k
  }

  // ----- one round -----

  /** Six bits of a word, the lowest in place k. */
  function Field(w: bv32, k: bv32): bv32
    requires k < 32
  {
    (w >> k) & 0x3f
  }

  function Turned(w: bv32): bv32 { (w << 28) | (w >> 4) }

  /** The entries that two words select from the odd and from the even tables. */
  function Entries(bx: Boxes, w0: bv32, w1: bv32): bv32 {
    bx.sp7(Field(w0, 0)) | bx.sp5(Field(w0, 8)) | bx.sp3(Field(w0, 16)) | bx.sp1(Field(w0, 24))
    | bx.sp8(Field(w1, 0)) | bx.sp6(Field(w1, 8)) | bx.sp4(Field(w1, 16)) | bx.sp2(Field(w1, 24))
  }

  /** What a round adds to the left half: table entries selected by the right half and two key words. */
  function Scramble(bx: Boxes, right: bv32, k0: bv32, k1: bv32): bv32 {
    Entries(bx, Xor(Turned(right), k0), Xor(right, k1))
  }

  /** n rounds from round r on; the halves change places in every round. */
  function Rounds(bx: Boxes, keys: Keys, r: nat, n: nat, left: bv32, right: bv32): (bv32, bv32)
    requires r + n <= 16
    decreases n
  {
    if n == 0 then (left, right)
    else Rounds(bx, keys, r + 1, n - 1, right, Xor(left, Scramble(bx, right, keys[2 * r], keys[2 * r + 1])))
  }

  // ----- the permutations -----

  /** Where the bits of a, k places further up, and those of b differ under the mask m. */
  function SwapWork(a: bv32, b: bv32, k: bv32, m: bv32): bv32
    requires k < 32
  {
    ((a >> k) ^ b) & m
  }

  /** Exchanges the bits of a and b selected by m: those of a lie k places further up. */
  function SwapA(a: bv32, b: bv32, k: bv32, m: bv32): bv32
    requires k < 32
  {
    Xor(a, ShiftUp(SwapWork(a, b, k, m), k))
  }

  function SwapB(a: bv32, b: bv32, k: bv32, m: bv32): bv32
    requires k < 32
  {
    Xor(b, SwapWork(a, b, k, m))
  }

  function RotateLeft(w: bv32): bv32 { (w << 1) | ((w >> 31) & 1) }

  function RotateRight(w: bv32): bv32 { (w << 31) | (w >> 1) }

  /** Exchanging twice is exchanging nothing; the masks used leave room above. */
  lemma SwapTwice4(a: bv32, b: bv32)
    ensures SwapA(SwapA(a, b, 4, 0x0f0f0f0f), SwapB(a, b, 4, 0x0f0f0f0f), 4, 0x0f0f0f0f) == a
    ensures SwapB(SwapA(a, b, 4, 0x0f0f0f0f), SwapB(a, b, 4, 0x0f0f0f0f), 4, 0x0f0f0f0f) == b
  {
  }

  lemma SwapTwice16(a: bv32, b: bv32)
    ensures SwapA(SwapA(a, b, 16, 0x0000ffff), SwapB(a, b, 16, 0x0000ffff), 16, 0x0000ffff) == a
    ensures SwapB(SwapA(a, b, 16, 0x0000ffff), SwapB(a, b, 16, 0x0000ffff), 16, 0x0000ffff) == b
  {
  }

  lemma SwapTwice2(a: bv32, b: bv32)
    ensures SwapA(SwapA(a, b, 2, 0x33333333), SwapB(a, b, 2, 0x33333333), 2, 0x33333333) == a
    ensures SwapB(SwapA(a, b, 2, 0x33333333), SwapB(a, b, 2, 0x33333333), 2, 0x33333333) == b
  {
  }

  lemma SwapTwice8(a: bv32, b: bv32)
    ensures SwapA(SwapA(a, b, 8, 0x00ff00ff), SwapB(a, b, 8, 0x00ff00ff), 8, 0x00ff00ff) == a
    ensures SwapB(SwapA(a, b, 8, 0x00ff00ff), SwapB(a, b, 8, 0x00ff00ff), 8, 0x00ff00ff) == b
  {
  }

  lemma Rotations(w: bv32)
    ensures RotateRight(RotateLeft(w)) == w && RotateLeft(RotateRight(w)) == w
  {
  }

  /** The one-bit step in the middle, between the two rotations. */
  function MixWork(a: bv32, b: bv32): bv32 { (a ^ b) & 0xaaaaaaaa }

  function MixA(a: bv32, b: bv32): bv32 { Xor(a, MixWork(a, b)) }

  function MixB(a: bv32, b: bv32): bv32 { Xor(b, MixWork(a, b)) }

  /** The halves have changed places before the step is taken again. */
  lemma MixTwice(a: bv32, b: bv32)
    ensures MixA(MixB(a, b), MixA(a, b)) == b && MixB(MixB(a, b), MixA(a, b)) == a
  {
  }

  function Initial(left: bv32, right: bv32): (bv32, bv32) {
    var (l1, r1) := (SwapA(left, right, 4, 0x0f0f0f0f), SwapB(left, right, 4, 0x0f0f0f0f));
    var (l2, r2) := (SwapA(l1, r1, 16, 0x0000ffff), SwapB(l1, r1, 16, 0x0000ffff));
    var (l3, r3) := (SwapB(r2, l2, 2, 0x33333333), SwapA(r2, l2, 2, 0x33333333));
    var (l4, r4) := (SwapB(r3, l3, 8, 0x00ff00ff), SwapA(r3, l3, 8, 0x00ff00ff));
    var r5 := RotateLeft(r4);
    (RotateLeft(MixA(l4, r5)), MixB(l4, r5))
  }

  /** The final permutation, on the halves as the last round leaves them. */
  function Final(left: bv32, right: bv32): (bv32, bv32) {
    var r1 := RotateRight(right);
    var (l2, r2) := (RotateRight(MixA(left, r1)), MixB(left, r1));
    var (l3, r3) := (SwapA(l2, r2, 8, 0x00ff00ff), SwapB(l2, r2, 8, 0x00ff00ff));
    var (l4, r4) := (SwapA(l3, r3, 2, 0x33333333), SwapB(l3, r3, 2, 0x33333333));
    var (l5, r5) := (SwapB(r4, l4, 16, 0x0000ffff), SwapA(r4, l4, 16, 0x0000ffff));
    (SwapB(r5, l5, 4, 0x0f0f0f0f), SwapA(r5, l5, 4, 0x0f0f0f0f))
  }

  /** The final permutation takes back the initial one: it expects the halves exchanged. */
  lemma FinalInitial(left: bv32, right: bv32)
    ensures var (l, r) := Initial(left, right); Final(r, l) == (right, left)
  {
    hide SwapA, SwapB, RotateLeft, RotateRight, MixA, MixB;
    var (l1, r1) := (SwapA(left, right, 4, 0x0f0f0f0f), SwapB(left, right, 4, 0x0f0f0f0f));
    var (l2, r2) := (SwapA(l1, r1, 16, 0x0000ffff), SwapB(l1, r1, 16, 0x0000ffff));
    var (l3, r3) := (SwapB(r2, l2, 2, 0x33333333), SwapA(r2, l2, 2, 0x33333333));
    var (l4, r4) := (SwapB(r3, l3, 8, 0x00ff00ff), SwapA(r3, l3, 8, 0x00ff00ff));
    var r5 := RotateLeft(r4);
    Rotations(MixA(l4, r5));
    MixTwice(l4, r5);
    Rotations(r4);
    SwapTwice8(r3, l3);
    SwapTwice2(r2, l2);
    SwapTwice16(l1, r1);
    SwapTwice4(left, right);
  }

  /** And the initial one takes back the final one. */
  lemma InitialFinal(left: bv32, right: bv32)
    ensures var (l, r) := Final(left, right); Initial(r, l) == (right, left)
  {
    hide SwapA, SwapB, RotateLeft, RotateRight, MixA, MixB;
    var r1 := RotateRight(right);
    var (l2, r2) := (RotateRight(MixA(left, r1)), MixB(left, r1));
    var (l3, r3) := (SwapA(l2, r2, 8, 0x00ff00ff), SwapB(l2, r2, 8, 0x00ff00ff));
    var (l4, r4) := (SwapA(l3, r3, 2, 0x33333333), SwapB(l3, r3, 2, 0x33333333));
    var (l5, r5) := (SwapB(r4, l4, 16, 0x0000ffff), SwapA(r4, l4, 16, 0x0000ffff));
    SwapTwice4(r5, l5);
    SwapTwice16(r4, l4);
    SwapTwice2(l3, r3);
    SwapTwice8(l2, r2);
    Rotations(MixA(left, r1));
    MixTwice(left, r1);
    Rotations(right);
  }

  // ----- the block function -----

  /** bswap */
  function Swap32(w: bv32): bv32 {
    (w << 24) | ((w & 0xff00) << 8) | ((w >> 8) & 0xff00) | (w >> 24)
  }

  lemma Swap32Twice(w: bv32)
    ensures Swap32(Swap32(w)) == w
  {
  }

  /** reverseBytes */
  function Reversed(b: DESBlock): DESBlock {
    DESBlock(Swap32(b.d0), Swap32(b.d1))
  }

  /** encryptBlock: the same function enciphers and deciphers, by its key schedule. */
  function Crypt(bx: Boxes, keys: Keys, b: DESBlock): DESBlock {
    var (l, r) := Initial(Swap32(b.d0), Swap32(b.d1));
    var (l1, r1) := Rounds(bx, keys, 0, 16, l, r);
    var (l2, r2) := Final(l1, r1);
    Reversed(DESBlock(r2, l2))
  }

  /** The pairs of key words in the opposite order. */
  predicate Opposite(k: Keys, k': Keys) {
    forall i :: 0 <= i < 16 ==> k'[2 * i] == k[2 * (15 - i)] && k'[2 * i + 1] == k[2 * (15 - i) + 1]
  }

  lemma {:induction false} RoundsSplit(bx: Boxes, keys: Keys, r: nat, n: nat, m: nat, left: bv32, right: bv32)
    requires r + n + m <= 16
    ensures var (l, q) := Rounds(bx, keys, r, n, left, right);
            Rounds(bx, keys, r, n + m, left, right) == Rounds(bx, keys, r + n, m, l, q)
    decreases n
  {
    hide Scramble, Xor;
    if n > 0 {
      RoundsSplit(bx, keys, r + 1, n - 1, m, right, Xor(left, Scramble(bx, right, keys[2 * r], keys[2 * r + 1])));
    }
  }

  lemma XorTwice(a: bv32, f: bv32)
    ensures Xor(Xor(a, f), f) == a
  {
  }

  /** The last n rounds, run again from the exchanged halves with the opposite schedule, take them back. */
  lemma {:induction false} RoundsBack(bx: Boxes, k: Keys, k': Keys, n: nat, left: bv32, right: bv32)
    requires n <= 16 && Opposite(k, k')
    ensures var (l, r) := Rounds(bx, k, 16 - n, n, left, right);
            Rounds(bx, k', 0, n, r, l) == (right, left)
    decreases n
  {
    hide Scramble, Rounds, Xor, Opposite;
    if n == 0 {
      NoRounds(bx, k, 16, left, right);
      NoRounds(bx, k', 0, right, left);
    } else {
      var i := 16 - n;
      var f := Scramble(bx, right, k[2 * i], k[2 * i + 1]);
      var (l, r) := Rounds(bx, k, i, n, left, right);
      FirstRound(bx, k, i, n, left, right);
      RoundsBack(bx, k, k', n - 1, right, Xor(left, f));
      RoundsSplit(bx, k', 0, n - 1, 1, r, l);
      LastRound(bx, k', n - 1, Xor(left, f), right);
      OppositePair(k, k', n - 1);
      XorTwice(left, f);
    }
  }

  lemma OppositePair(k: Keys, k': Keys, i: nat)
    requires Opposite(k, k') && i < 16
    ensures k'[2 * i] == k[2 * (15 - i)] && k'[2 * i + 1] == k[2 * (15 - i) + 1]
  {
  }

  lemma NoRounds(bx: Boxes, k: Keys, r: nat, left: bv32, right: bv32)
    requires r <= 16
    ensures Rounds(bx, k, r, 0, left, right) == (left, right)
  {
  }

  lemma FirstRound(bx: Boxes, k: Keys, r: nat, n: nat, left: bv32, right: bv32)
    requires r + n <= 16 && n > 0
    ensures Rounds(bx, k, r, n, left, right) == Rounds(bx, k, r + 1, n - 1, right, Xor(left, Scramble(bx, right, k[2 * r], k[2 * r + 1])))
  {
    hide Scramble, Xor;
  }

  lemma LastRound(bx: Boxes, k: Keys, r: nat, left: bv32, right: bv32)
    requires r < 16
    ensures Rounds(bx, k, r, 1, left, right) == (right, Xor(left, Scramble(bx, right, k[2 * r], k[2 * r + 1])))
  {
    hide Scramble, Xor;
  }

  /** For every block and all tables, the block function under the opposite schedule undoes itself. */
  lemma CryptInverse(bx: Boxes, k: Keys, k': Keys, b: DESBlock)
    requires Opposite(k, k')
    ensures Crypt(bx, k', Crypt(bx, k, b)) == b
  {
    hide Initial, Final, Rounds, Swap32, Opposite;
    var (l, r) := Initial(Swap32(b.d0), Swap32(b.d1));
    var (l1, r1) := Rounds(bx, k, 0, 16, l, r);
    var (l2, r2) := Final(l1, r1);
    Swap32Twice(r2);
    Swap32Twice(l2);
    InitialFinal(l1, r1);
    RoundsBack(bx, k, k', 16, l, r);
    FinalInitial(Swap32(b.d0), Swap32(b.d1));
    Swap32Twice(b.d0);
    Swap32Twice(b.d1);
  }
}
