/** Keys of EncryptDES: parity, the 56-bit register, and the schedules of key words for both directions. */
module DesKeys {
  import opened DesCipher

  type Index64 = n: nat | n < 64
  type Index56 = n: nat | n < 56

  /** The j-th bit that permuted choice 1 selects. */
  function Pc1(j: Index56): Index64 {
    if j < 28 then 56 - 8 * (j % 8) + j / 8
    else if j < 52 then 62 - 8 * ((j - 28) % 8) - (j - 28) / 8
    else 27 - 8 * (j - 52)
  }

  /** The table as the source lists it: the rows for the left half of the register. */
  lemma Pc1TableLeft()
    ensures [Pc1(0), Pc1(1), Pc1(2), Pc1(3), Pc1(4), Pc1(5), Pc1(6), Pc1(7)] == [56, 48, 40, 32, 24, 16, 8, 0]
    ensures [Pc1(8), Pc1(9), Pc1(10), Pc1(11), Pc1(12), Pc1(13), Pc1(14), Pc1(15)] == [57, 49, 41, 33, 25, 17, 9, 1]
    ensures [Pc1(16), Pc1(17), Pc1(18), Pc1(19), Pc1(20), Pc1(21), Pc1(22), Pc1(23)] == [58, 50, 42, 34, 26, 18, 10, 2]
    ensures [Pc1(24), Pc1(25), Pc1(26), Pc1(27)] == [59, 51, 43, 35]
  {
  }

  /** And its rows for the right half of the register. */
  lemma Pc1TableRight()
    ensures [Pc1(28), Pc1(29), Pc1(30), Pc1(31), Pc1(32), Pc1(33), Pc1(34), Pc1(35)] == [62, 54, 46, 38, 30, 22, 14, 6]
    ensures [Pc1(36), Pc1(37), Pc1(38), Pc1(39), Pc1(40), Pc1(41), Pc1(42), Pc1(43)] == [61, 53, 45, 37, 29, 21, 13, 5]
    ensures [Pc1(44), Pc1(45), Pc1(46), Pc1(47), Pc1(48), Pc1(49), Pc1(50), Pc1(51)] == [60, 52, 44, 36, 28, 20, 12, 4]
    ensures [Pc1(52), Pc1(53), Pc1(54), Pc1(55)] == [27, 19, 11, 3]
  {
  }

  /** The j-th bit that permuted choice 2 selects from the rotated half-registers. */
  function Pc2(j: nat): Index56
    requires j < 48
  {
    match j
    case 0 => 13 case 1 => 16 case 2 => 10 case 3 => 23 case 4 => 0 case 5 => 4 case 6 => 2 case 7 => 27
    case 8 => 14 case 9 => 5 case 10 => 20 case 11 => 9 case 12 => 22 case 13 => 18 case 14 => 11 case 15 => 3
    case 16 => 25 case 17 => 7 case 18 => 15 case 19 => 6 case 20 => 26 case 21 => 19 case 22 => 12 case 23 => 1
    case 24 => 40 case 25 => 51 case 26 => 30 case 27 => 36 case 28 => 46 case 29 => 54 case 30 => 29 case 31 => 39
    case 32 => 50 case 33 => 44 case 34 => 32 case 35 => 47 case 36 => 43 case 37 => 48 case 38 => 38 case 39 => 55
    case 40 => 33 case 41 => 52 case 42 => 45 case 43 => 41 case 44 => 49 case 45 => 35 case 46 => 28 case _ => 31
  }

  type Rotation = n: nat | n <= 28

  /** How far the half-registers are rotated in all for round i. */
  function TotalRotation(i: nat): Rotation
    requires i < 16
  {
    match i
    case 0 => 1 case 1 => 2 case 2 => 4 case 3 => 6 case 4 => 8 case 5 => 10 case 6 => 12 case 7 => 14
    case 8 => 15 case 9 => 17 case 10 => 19 case 11 => 21 case 12 => 23 case 13 => 25 case 14 => 27 case _ => 28
  }

  /** Eight key bytes. */
  type KeyBytes = k: seq<bv8> | |k| == 8 witness seq(8, i => 0)

  // ----- parity -----

  /** The bits of a byte folded to one. */
  predicate OddParity(b: bv8) {
    var x := b ^ (b >> 4);
    var y := x ^ (x >> 2);
    (y ^ (y >> 1)) & 1 == 1
  }

  /** Bit 7 as processKey computes it: set when the other seven bits have an even number of ones. */
  function ParityBit(c: bv8): bv8 {
    0x80 ^ ((c << 1) & 0x80) ^ ((c << 2) & 0x80) ^ ((c << 3) & 0x80) ^ ((c << 4) & 0x80) ^ ((c << 5) & 0x80)
    ^ ((c << 6) & 0x80) ^ ((c << 7) & 0x80)
  }

  function KeyByte(c: bv8): bv8 {
    (c & 0x7f) | ParityBit(c)
  }

  /** Every processed byte has odd parity and keeps the low seven bits, and it is the only one that does. */
  lemma KeyByteParity(c: bv8, b: bv8)
    ensures b == KeyByte(c) <==> OddParity(b) && b & 0x7f == c & 0x7f
  {
  }

  /** processKey: a key of up to eight characters, each with its parity, padded with zeros of odd parity. */
  function LocalKey(key: seq<bv8>): (r: KeyBytes)
    requires |key| <= 8
  {
    seq(8, j requires 0 <= j < 8 => if j < |key| then KeyByte(key[j]) else 0x80)
  }

  // ----- the key register -----

  /** Bit l of the key, counted from the top of the first byte. */
  function KeyBit(key: KeyBytes, l: Index64): bool {
    key[l / 8] & ((0x80 as bv8) >> (l % 8)) != 0
  }

  /** The eight bits of byte i, from the top. */
  lemma KeyBits(key: KeyBytes, i: nat)
    requires i < 8
    ensures KeyBit(key, 8 * i) == (key[i] & 0x80 != 0) && KeyBit(key, 8 * i + 1) == (key[i] & 0x40 != 0)
    ensures KeyBit(key, 8 * i + 2) == (key[i] & 0x20 != 0) && KeyBit(key, 8 * i + 3) == (key[i] & 0x10 != 0)
    ensures KeyBit(key, 8 * i + 4) == (key[i] & 0x08 != 0) && KeyBit(key, 8 * i + 5) == (key[i] & 0x04 != 0)
    ensures KeyBit(key, 8 * i + 6) == (key[i] & 0x02 != 0) && KeyBit(key, 8 * i + 7) == (key[i] & 0x01 != 0)
  {
    hide KeyBit;
    Shifts();
    BitOfByte(key, i, 0);
    BitOfByte(key, i, 1);
    BitOfByte(key, i, 2);
    BitOfByte(key, i, 3);
    BitOfByte(key, i, 4);
    BitOfByte(key, i, 5);
    BitOfByte(key, i, 6);
    BitOfByte(key, i, 7);
  }

  lemma BitOfByte(key: KeyBytes, i: nat, b: nat)
    requires i < 8 && b < 8
    ensures KeyBit(key, 8 * i + b) == (key[i] & ((0x80 as bv8) >> b) != 0)
  {
    assert (8 * i + b) / 8 == i && (8 * i + b) % 8 == b;
  }

  /** The 56 bits that pc1 selects. */
  function Register(key: KeyBytes): (r: seq<bool>)
    ensures |r| == 56
  {
    seq(56, j requires 0 <= j < 56 => KeyBit(key, Pc1(j)))
  }

  /** The half-registers rotated for round i. */
  function Rotated(reg: seq<bool>, i: nat, j: nat): bool
    requires |reg| == 56 && i < 16 && j < 56
  {
    var l := j + TotalRotation(i);
    if l < (if j < 28 then 28 else 56) then reg[l] else reg[l - 28]
  }

  function BigByte(j: nat): bv32
    requires j < 24
  {
    (0x800000 as bv32) >> j
  }

  /** The first n bits of a raw key word: those of the permuted register from place off on. */
  function RawWord(reg: seq<bool>, i: nat, off: nat, n: nat): bv32
    requires |reg| == 56 && i < 16 && (off == 0 || off == 24) && n <= 24
  {
    if n == 0 then 0
    else RawWord(reg, i, off, n - 1) | (if Rotated(reg, i, Pc2(off + n - 1)) then BigByte(n - 1) else 0)
  }

  /** The two raw words of a round, rearranged for the round function. */
  function Cook0(raw0: bv32, raw1: bv32): bv32 {
    ((raw0 & 0x00fc0000) << 6) | ((raw0 & 0x00000fc0) << 10) | ((raw1 & 0x00fc0000) >> 10) | ((raw1 & 0x00000fc0) >> 6)
  }

  function Cook1(raw0: bv32, raw1: bv32): bv32 {
    ((raw0 & 0x0003f000) << 12) | ((raw0 & 0x0000003f) << 16) | ((raw1 & 0x0003f000) >> 4) | (raw1 & 0x0000003f)
  }

  /** Raw word w of the 32 that deskey collects: deciphering stores the rounds from the last to the first. */
  function Raw(reg: seq<bool>, decipher: bool, w: nat): bv32
    requires |reg| == 56 && w < 32
  {
    RawWord(reg, if decipher then 15 - w / 2 else w / 2, if w % 2 == 0 then 0 else 24, 24)
  }

  /** Key word w of the schedule. */
  function Cooked(reg: seq<bool>, decipher: bool, w: nat): bv32
    requires |reg| == 56 && w < 32
  {
    var m := 2 * (w / 2);
    if w % 2 == 0 then Cook0(Raw(reg, decipher, m), Raw(reg, decipher, m + 1))
    else Cook1(Raw(reg, decipher, m), Raw(reg, decipher, m + 1))
  }

  function Schedule(key: KeyBytes, decipher: bool): Keys {
    seq(32, w requires 0 <= w < 32 => Cooked(Register(key), decipher, w))
  }

  /** deskey: the decipher schedule is exactly the encipher schedule with its round pairs reversed. */
  lemma SchedulesOpposite(key: KeyBytes)
    ensures Opposite(Schedule(key, false), Schedule(key, true))
    ensures Opposite(Schedule(key, true), Schedule(key, false))
  {
    hide Cook0, Cook1, RawWord, Register;
    forall i | 0 <= i < 16
      ensures Schedule(key, true)[2 * i] == Schedule(key, false)[2 * (15 - i)]
      ensures Schedule(key, true)[2 * i + 1] == Schedule(key, false)[2 * (15 - i) + 1]
    {
      PairReversed(Register(key), i);
    }
    forall i | 0 <= i < 16
      ensures Schedule(key, false)[2 * i] == Schedule(key, true)[2 * (15 - i)]
      ensures Schedule(key, false)[2 * i + 1] == Schedule(key, true)[2 * (15 - i) + 1]
    {
      PairReversed(Register(key), 15 - i);
    }
  }

  lemma PairReversed(reg: seq<bool>, i: nat)
    requires |reg| == 56 && i < 16
    ensures Cooked(reg, true, 2 * i) == Cooked(reg, false, 2 * (15 - i))
    ensures Cooked(reg, true, 2 * i + 1) == Cooked(reg, false, 2 * (15 - i) + 1)
  {
    hide Cook0, Cook1, RawWord;
    assert 2 * i / 2 == i && (2 * i + 1) / 2 == i && 2 * (15 - i) / 2 == 15 - i && (2 * (15 - i) + 1) / 2 == 15 - i;
  }

  // ----- distinct keys -----

  /** Where permuted choice 1 puts bit l. */
  function PlaceOf(l: Index64): int {
    var b, r := l % 8, l / 8;
    if b <= 2 then 8 * b + 7 - r
    else if b == 3 then (if r >= 4 then 31 - r else 55 - r)
    else 28 + 8 * (6 - b) + 7 - r
  }

  /** pc1 reads every bit of the key but the lowest of each byte. */
  lemma Pc1Reads(l: Index64)
    requires l % 8 != 7
    ensures 0 <= PlaceOf(l) < 56 && Pc1(PlaceOf(l)) == l
  {
    var b, r := l % 8, l / 8;
    assert l == 8 * r + b && 0 <= r < 8 && 0 <= b < 7;
    if b <= 2 {
      assert PlaceOf(l) % 8 == 7 - r && PlaceOf(l) / 8 == b;
    } else if b >= 4 {
      assert (PlaceOf(l) - 28) % 8 == 7 - r && (PlaceOf(l) - 28) / 8 == 6 - b;
    }
  }

  lemma LowBits(a: int, b: nat)
    requires b < 7
    ensures (8 * a + b) % 8 != 7
  {
  }

  /** And never a lowest bit. */
  lemma Pc1SkipsLowest(j: Index56)
    ensures Pc1(j) % 8 != 7
  {
    if j < 28 {
      LowBits(7 - j % 8, j / 8);
    } else if j < 52 {
      LowBits(7 - (j - 28) % 8, 6 - (j - 28) / 8);
    } else {
      LowBits(3 - (j - 52), 3);
    }
  }

  /** A character key: one to eight non-zero seven-bit characters. */
  predicate IsTextKey(key: seq<bv8>) {
    1 <= |key| <= 8 && forall i :: 0 <= i < |key| ==> key[i] != 0 && key[i] & 0x80 == 0
  }

  /** Bytes of odd parity that agree on their seven upper bits agree. */
  lemma UpperBitsDecide(a: bv8, b: bv8)
    requires OddParity(a) && OddParity(b) && a & 0xfe == b & 0xfe
    ensures a == b
  {
  }

  lemma UpperBits(a: bv8, b: bv8)
    requires (a & 0x80 != 0) == (b & 0x80 != 0) && (a & 0x40 != 0) == (b & 0x40 != 0) && (a & 0x20 != 0) == (b & 0x20 != 0)
    requires (a & 0x10 != 0) == (b & 0x10 != 0) && (a & 0x08 != 0) == (b & 0x08 != 0) && (a & 0x04 != 0) == (b & 0x04 != 0)
    requires (a & 0x02 != 0) == (b & 0x02 != 0)
    ensures a & 0xfe == b & 0xfe
  {
  }

  lemma Shifts()
    ensures (0x80 as bv8) >> 0 == 0x80 && (0x80 as bv8) >> 1 == 0x40 && (0x80 as bv8) >> 2 == 0x20 && (0x80 as bv8) >> 3 == 0x10
    ensures (0x80 as bv8) >> 4 == 0x08 && (0x80 as bv8) >> 5 == 0x04 && (0x80 as bv8) >> 6 == 0x02 && (0x80 as bv8) >> 7 == 0x01
  {
  }

  lemma SameBit(k: KeyBytes, k': KeyBytes, l: Index64)
    requires Register(k) == Register(k') && l % 8 != 7
    ensures KeyBit(k, l) == KeyBit(k', l)
  {
    hide KeyBit;
    Pc1Reads(l);
    var j := PlaceOf(l);
    assert Register(k)[j] == KeyBit(k, l) && Register(k')[j] == KeyBit(k', l);
  }

  lemma SameBitOf(k: KeyBytes, k': KeyBytes, i: nat, b: nat)
    requires i < 8 && b < 7 && Register(k) == Register(k')
    ensures (k[i] & ((0x80 as bv8) >> b) != 0) == (k'[i] & ((0x80 as bv8) >> b) != 0)
  {
    hide Register;
    SameBit(k, k', 8 * i + b);
    assert (8 * i + b) / 8 == i && (8 * i + b) % 8 == b;
  }

  /** Equal registers come from equal bytes, although the low bits are never read: parity determines them. */
  lemma SameByte(k: KeyBytes, k': KeyBytes, i: nat)
    requires i < 8 && Register(k) == Register(k') && OddParity(k[i]) && OddParity(k'[i])
    ensures k[i] == k'[i]
  {
    hide OddParity;
    SameBitOf(k, k', i, 0);
    SameBitOf(k, k', i, 1);
    SameBitOf(k, k', i, 2);
    SameBitOf(k, k', i, 3);
    SameBitOf(k, k', i, 4);
    SameBitOf(k, k', i, 5);
    SameBitOf(k, k', i, 6);
    Shifts();
    UpperBits(k[i], k'[i]);
    UpperBitsDecide(k[i], k'[i]);
  }

  lemma LocalKeyOdd(key: seq<bv8>, i: nat)
    requires |key| <= 8 && i < 8
    ensures OddParity(LocalKey(key)[i])
    ensures LocalKey(key)[i] & 0x7f == if i < |key| then key[i] & 0x7f else 0
  {
    if i < |key| {
      KeyByteParity(key[i], KeyByte(key[i]));
    } else {
      PadParity();
    }
  }

  lemma PadParity()
    ensures OddParity(0x80) && (0x80 as bv8) & 0x7f == 0
  {
  }

  /** Different text keys select different 56-bit registers. */
  lemma KeysDistinct(key: seq<bv8>, key': seq<bv8>)
    requires IsTextKey(key) && IsTextKey(key')
    ensures Register(LocalKey(key)) == Register(LocalKey(key')) <==> key == key'
  {
    hide OddParity, KeyByte, KeyBit, Register;
    if Register(LocalKey(key)) == Register(LocalKey(key')) {
      forall i: nat | i < 8
        ensures (if i < |key| then key[i] & 0x7f else 0) == (if i < |key'| then key'[i] & 0x7f else 0)
      {
        LocalKeyOdd(key, i);
        LocalKeyOdd(key', i);
        SameByte(LocalKey(key), LocalKey(key'), i);
      }
      SameText(key, key');
    }
  }

  lemma SevenBits(c: bv8)
    requires c & 0x80 == 0
    ensures c & 0x7f == c
  {
  }

  predicate SameCharacters(key: seq<bv8>, key': seq<bv8>) {
    forall i: nat :: i < 8 ==> (if i < |key| then key[i] & 0x7f else 0) == (if i < |key'| then key'[i] & 0x7f else 0)
  }

  lemma SameAt(key: seq<bv8>, key': seq<bv8>, i: nat)
    requires IsTextKey(key) && IsTextKey(key') && SameCharacters(key, key') && i < 8
    ensures (i < |key|) == (i < |key'|) && (i < |key| ==> key[i] == key'[i])
  {
    if i < |key| {
      SevenBits(key[i]);
    }
    if i < |key'| {
      SevenBits(key'[i]);
    }
  }

  lemma SameText(key: seq<bv8>, key': seq<bv8>)
    requires IsTextKey(key) && IsTextKey(key') && SameCharacters(key, key')
    ensures key == key'
  {
    hide SameCharacters;
    if |key| < 8 {
      SameAt(key, key', |key|);
    }
    if |key'| < 8 {
      SameAt(key, key', |key'|);
    }
    forall i: nat | i < |key|
      ensures key[i] == key'[i]
    {
      SameAt(key, key', i);
    }
  }
}
