/** Numbers below 256 and bytes. */
module Octets {
  lemma OctetValue(v: nat)
    requires v < 256
    ensures (v as bv8) as nat == v
  {
  }
}

/**
 The EncryptDES class: a buffer of ciphertext, the key schedule in use, and encryption and
 decryption in cipher block chaining mode with a last block that says how many of its bytes count.
 */
module EncryptDes {
  import opened Options
  import opened DesCipher
  import opened DesKeys
  import opened Octets

  // ----- bytes and blocks -----

  /** Four bytes, least significant first. */
  function WordAt(b: seq<bv8>, at: nat): bv32
    requires at + 4 <= |b|
  {
    (b[at] as bv32) | ((b[at + 1] as bv32) << 8) | ((b[at + 2] as bv32) << 16) | ((b[at + 3] as bv32) << 24)
  }

  function BlockAt(b: seq<bv8>, at: nat): DESBlock
    requires at + 8 <= |b|
  {
    DESBlock(WordAt(b, at), WordAt(b, at + 4))
  }

  function WordBytes(w: bv32): (r: seq<bv8>)
    ensures |r| == 4
  {
    [(w & 0xff) as bv8, ((w >> 8) & 0xff) as bv8, ((w >> 16) & 0xff) as bv8, ((w >> 24) & 0xff) as bv8]
  }

  function BlockBytes(b: DESBlock): (r: seq<bv8>)
    ensures |r| == 8
  {
    WordBytes(b.d0) + WordBytes(b.d1)
  }

  lemma WordOfBytes(w: bv32)
    ensures WordAt(WordBytes(w), 0) == w
  {
  }

  lemma BytesOfWord(b: seq<bv8>, at: nat)
    requires at + 4 <= |b|
    ensures WordBytes(WordAt(b, at)) == b[at..at + 4]
  {
    hide WordBytes;
    ByteFields(b[at], b[at + 1], b[at + 2], b[at + 3]);
    assert [b[at], b[at + 1], b[at + 2], b[at + 3]] == b[at..at + 4];
  }

  lemma ByteFields(b0: bv8, b1: bv8, b2: bv8, b3: bv8)
    ensures var w := (b0 as bv32) | ((b1 as bv32) << 8) | ((b2 as bv32) << 16) | ((b3 as bv32) << 24);
            WordBytes(w) == [b0, b1, b2, b3]
  {
  }

  /** A block and its eight bytes determine each other. */
  lemma BlockOfBytes(b: DESBlock, rest: seq<bv8>)
    ensures BlockAt(BlockBytes(b) + rest, 0) == b
  {
    hide WordBytes;
    var s := BlockBytes(b) + rest;
    WordOfBytes(b.d0);
    WordOfBytes(b.d1);
    SameWord(s, 0, WordBytes(b.d0));
    SameWord(s, 4, WordBytes(b.d1));
  }

  lemma SameWord(s: seq<bv8>, at: nat, w: seq<bv8>)
    requires at + 4 <= |s| && |w| == 4 && s[at..at + 4] == w
    ensures WordAt(s, at) == WordAt(w, 0)
  {
    assert s[at] == w[0] && s[at + 1] == w[1] && s[at + 2] == w[2] && s[at + 3] == w[3];
  }

  lemma BytesOfBlock(b: seq<bv8>)
    requires |b| >= 8
    ensures BlockBytes(BlockAt(b, 0)) == b[..8]
  {
    hide WordAt, WordBytes;
    BytesOfWord(b, 0);
    BytesOfWord(b, 4);
    assert b[0..4] + b[4..8] == b[..8];
  }

  function XorBlock(a: DESBlock, b: DESBlock): DESBlock {
    DESBlock(Xor(a.d0, b.d0), Xor(a.d1, b.d1))
  }

  lemma XorBlockTwice(a: DESBlock, b: DESBlock)
    ensures XorBlock(XorBlock(a, b), b) == a
  {
    hide Xor;
    XorTwice(a.d0, b.d0);
    XorTwice(a.d1, b.d1);
  }

  const ZERO := DESBlock(0, 0)

  // ----- cipher block chaining -----

  function Zeros(n: nat): (r: seq<bv8>)
    ensures |r| == n
  {
    seq(n, i => 0)
  }

  /** The block that ends every message: what is left of it, zeros, and the number of bytes left. */
  function LastBytes(tail: seq<bv8>): (r: seq<bv8>)
    requires |tail| < 8
    ensures |r| == 8
  {
    tail + Zeros(7 - |tail|) + [|tail| as bv8]
  }

  function Encipher(bx: Boxes, keys: Keys, src: seq<bv8>, last: DESBlock): seq<bv8>
    decreases |src|
  {
    if |src| >= 8 then
      var c := Crypt(bx, keys, XorBlock(BlockAt(src, 0), last));
      BlockBytes(c) + Encipher(bx, keys, src[8..], c)
    else
      BlockBytes(Crypt(bx, keys, XorBlock(BlockAt(LastBytes(src), 0), last)))
  }

  function Prepend(p: seq<bv8>, r: Option<seq<bv8>>): Option<seq<bv8>> {
    match r case None => None case Some(s) => Some(p + s)
  }

  /** None when the last byte is not a length, as with a wrong key. */
  function Decipher(bx: Boxes, keys: Keys, buf: seq<bv8>, last: DESBlock): Option<seq<bv8>>
    decreases |buf|
  {
    if |buf| < 8 then None
    else
      var b := BlockBytes(XorBlock(Crypt(bx, keys, BlockAt(buf, 0)), last));
      if |buf| > 8 then Prepend(b, Decipher(bx, keys, buf[8..], BlockAt(buf, 0))) else LastMessage(b)
  }

  /** What the final block holds: as many bytes as its last byte says, if that is a length. */
  function LastMessage(b: seq<bv8>): Option<seq<bv8>>
    requires |b| == 8
  {
    if b[7] > 7 then None else Some(b[..b[7] as nat])
  }

  lemma EncipherMore(bx: Boxes, keys: Keys, src: seq<bv8>, last: DESBlock)
    requires |src| >= 8
    ensures var c := Crypt(bx, keys, XorBlock(BlockAt(src, 0), last));
            Encipher(bx, keys, src, last) == BlockBytes(c) + Encipher(bx, keys, src[8..], c)
  {
    hide Crypt, XorBlock, BlockAt, BlockBytes;
  }

  lemma EncipherLast(bx: Boxes, keys: Keys, src: seq<bv8>, last: DESBlock)
    requires |src| < 8
    ensures Encipher(bx, keys, src, last) == BlockBytes(Crypt(bx, keys, XorBlock(BlockAt(LastBytes(src), 0), last)))
  {
    hide Crypt, XorBlock, BlockAt, BlockBytes, LastBytes;
  }

  lemma DecipherMore(bx: Boxes, keys: Keys, buf: seq<bv8>, last: DESBlock)
    requires |buf| >= 8
    ensures var b := BlockBytes(XorBlock(Crypt(bx, keys, BlockAt(buf, 0)), last));
            Decipher(bx, keys, buf, last) == if |buf| > 8 then Prepend(b, Decipher(bx, keys, buf[8..], BlockAt(buf, 0))) else LastMessage(b)
  {
    hide Crypt, XorBlock, BlockAt, BlockBytes, LastMessage;
  }

  /** A message becomes its whole blocks and one more. */
  lemma {:induction false} EncipherLength(bx: Boxes, keys: Keys, src: seq<bv8>, last: DESBlock)
    ensures |Encipher(bx, keys, src, last)| == 8 * (|src| / 8 + 1)
    decreases |src|
  {
    hide Crypt, XorBlock, BlockAt, BlockBytes, LastBytes, Encipher;
    if |src| >= 8 {
      EncipherMore(bx, keys, src, last);
      EncipherLength(bx, keys, src[8..], Crypt(bx, keys, XorBlock(BlockAt(src, 0), last)));
    } else {
      EncipherLast(bx, keys, src, last);
    }
  }

  lemma LastByte(tail: seq<bv8>)
    requires |tail| < 8
    ensures var b := LastBytes(tail); b[7] <= 7 && b[7] as nat == |tail| && b[..|tail|] == tail
  {
    SmallByte(|tail|);
  }

  lemma SmallByte(n: nat)
    requires n < 8
    ensures (n as bv8) as nat == n && (n as bv8) <= 7
  {
  }

  /**
   Deciphering with the opposite schedule gives back every message, of any length, with that length:
   the chaining values agree at every block, and the last block says how many bytes it holds.
   */
  lemma {:induction false} CbcRoundTrip(bx: Boxes, k: Keys, k': Keys, src: seq<bv8>, last: DESBlock)
    requires Opposite(k, k')
    ensures Decipher(bx, k', Encipher(bx, k, src, last), last) == Some(src)
    decreases |src|
  {
    hide Crypt, BlockAt, BlockBytes, XorBlock, Opposite, LastBytes, Encipher, Decipher;
    var b := BlockAt(if |src| >= 8 then src else LastBytes(src), 0);
    var c := Crypt(bx, k, XorBlock(b, last));
    var e := Encipher(bx, k, src, last);
    CryptInverse(bx, k, k', XorBlock(b, last));
    XorBlockTwice(b, last);
    if |src| >= 8 {
      var rest := Encipher(bx, k, src[8..], c);
      EncipherMore(bx, k, src, last);
      EncipherLength(bx, k, src[8..], c);
      BlockOfBytes(c, rest);
      DecipherMore(bx, k', e, last);
      assert e[8..] == rest;
      BytesOfBlock(src);
      CbcRoundTrip(bx, k, k', src[8..], c);
      assert src[..8] + src[8..] == src;
    } else {
      EncipherLast(bx, k, src, last);
      assert e == BlockBytes(c) + [];
      BlockOfBytes(c, []);
      DecipherMore(bx, k', e, last);
      BytesOfBlock(LastBytes(src));
      assert LastBytes(src)[..8] == LastBytes(src);
      LastByte(src);
    }
  }

  /** With a character key: what encrypt stores, decrypt gives back. */
  lemma RoundTrip(bx: Boxes, key: seq<bv8>, message: seq<bv8>)
    requires |key| <= 8
    ensures Decipher(bx, Schedule(LocalKey(key), true), Encipher(bx, Schedule(LocalKey(key), false), message, ZERO), ZERO) == Some(message)
  {
    hide Encipher, Decipher, Schedule, LocalKey, Opposite;
    SchedulesOpposite(LocalKey(key));
    CbcRoundTrip(bx, Schedule(LocalKey(key), false), Schedule(LocalKey(key), true), message, ZERO);
  }

  // ----- hexadecimal -----

  function NibToHex(nib: nat): char
    requires nib < 16
  {
    if nib > 9 then 'A' + (nib - 10) as char else '0' + nib as char
  }

  function ToUpper(c: char): char {
    if 'a' <= c <= 'z' then c - 32 as char else c
  }

  /** Meaningful for hexadecimal digits; other characters give a number too. */
  function HexToNib(c: char): int {
    var u := ToUpper(c);
    if u >= 'A' then u as int - 'A' as int + 10 else u as int - '0' as int
  }

  type Octet = n: nat | n < 256

  function ToHex(b: seq<Octet>): (s: string)
    ensures |s| == 2 * |b|
  {
    if b == [] then [] else [NibToHex(b[0] / 16), NibToHex(b[0] % 16)] + ToHex(b[1..])
  }

  function FromHex(s: string): (b: seq<Octet>)
    ensures |b| == |s| / 2
  {
    if |s| < 2 then [] else [(16 * HexToNib(s[0]) + HexToNib(s[1])) % 256] + FromHex(s[2..])
  }

  predicate IsHexDigit(c: char) {
    '0' <= c <= '9' || 'A' <= c <= 'F' || 'a' <= c <= 'f'
  }

  function Upper(s: string): (r: string)
    ensures |r| == |s|
  {
    seq(|s|, i requires 0 <= i < |s| => ToUpper(s[i]))
  }

  lemma NibRoundTrip(n: nat)
    requires n < 16
    ensures HexToNib(NibToHex(n)) == n && IsHexDigit(NibToHex(n)) && ToUpper(NibToHex(n)) == NibToHex(n)
  {
  }

  lemma DigitRoundTrip(c: char)
    requires IsHexDigit(c)
    ensures 0 <= HexToNib(c) < 16 && NibToHex(HexToNib(c)) == ToUpper(c)
  {
  }

  /** Importing what was exported gives the bytes back. */
  lemma {:induction false} HexRoundTrip(b: seq<Octet>)
    ensures FromHex(ToHex(b)) == b
    decreases |b|
  {
    hide NibToHex, HexToNib, ToHex, FromHex;
    if b == [] {
      NothingHex();
    } else {
      NibRoundTrip(b[0] / 16);
      NibRoundTrip(b[0] % 16);
      HexRoundTrip(b[1..]);
      ToHexMore(b);
      assert ToHex(b)[2..] == ToHex(b[1..]);
      FromHexMore(ToHex(b));
      assert b == [b[0]] + b[1..];
    }
  }

  /** The value of a digit as binaryToHex writes it. */
  function DigitValue(c: char): nat
    requires '0' <= c <= '9' || 'A' <= c <= 'F'
  {
    if c <= '9' then (c - '0') as nat else 10 + (c - 'A') as nat
  }

  /** Byte i is written as two digits of base sixteen, the more significant one first. */
  lemma {:induction false} HexDigits(b: seq<Octet>, i: nat)
    requires i < |b|
    ensures var c, d := ToHex(b)[2 * i], ToHex(b)[2 * i + 1];
            && ('0' <= c <= '9' || 'A' <= c <= 'F') && ('0' <= d <= '9' || 'A' <= d <= 'F')
            && b[i] == 16 * DigitValue(c) + DigitValue(d)
    decreases i
  {
    hide ToHex, NibToHex, DigitValue;
    ToHexMore(b);
    if i > 0 {
      HexDigits(b[1..], i - 1);
    } else {
      NibDigit(b[0] / 16);
      NibDigit(b[0] % 16);
    }
  }

  lemma NibDigit(n: nat)
    requires n < 16
    ensures var c := NibToHex(n); ('0' <= c <= '9' || 'A' <= c <= 'F') && DigitValue(c) == n
  {
  }

  lemma NothingHex()
    ensures ToHex([]) == [] && FromHex([]) == []
  {
  }

  lemma ToHexMore(b: seq<Octet>)
    requires b != []
    ensures ToHex(b) == [NibToHex(b[0] / 16), NibToHex(b[0] % 16)] + ToHex(b[1..])
  {
    hide NibToHex;
  }

  /** Exporting what was imported gives the text back, in upper case, exactly when the text is whole bytes of digits. */
  lemma {:induction false} TextRoundTrip(s: string)
    ensures ToHex(FromHex(s)) == Upper(s) <==> |s| % 2 == 0 && forall i :: 0 <= i < |s| ==> IsHexDigit(s[i])
    decreases |s|
  {
    if |s| >= 2 {
      TextRoundTrip(s[2..]);
      var n := (16 * HexToNib(s[0]) + HexToNib(s[1])) % 256;
      var two := [NibToHex(n / 16), NibToHex(n % 16)];
      assert ToHex(FromHex(s)) == two + ToHex(FromHex(s[2..]));
      assert Upper(s) == [ToUpper(s[0]), ToUpper(s[1])] + Upper(s[2..]);
      TwoDigits(s[0], s[1]);
      TailDigits(s);
      if ToHex(FromHex(s)) == Upper(s) {
        assert ToHex(FromHex(s))[..2] == two && Upper(s)[..2] == [ToUpper(s[0]), ToUpper(s[1])];
        assert ToHex(FromHex(s))[2..] == ToHex(FromHex(s[2..])) && Upper(s)[2..] == Upper(s[2..]);
      }
    }
  }

  lemma TailDigits(s: string)
    requires |s| >= 2
    ensures (forall i :: 0 <= i < |s| ==> IsHexDigit(s[i])) <==>
            IsHexDigit(s[0]) && IsHexDigit(s[1]) && forall i :: 0 <= i < |s[2..]| ==> IsHexDigit(s[2..][i])
  {
    hide IsHexDigit;
    if forall i :: 0 <= i < |s[2..]| ==> IsHexDigit(s[2..][i]) {
      assert forall i :: 2 <= i < |s| ==> s[i] == s[2..][i - 2];
    }
  }

  /** Only a digit is written as itself: of the sixteen values none is written as another character. */
  lemma OnlyDigits(n: nat, c: char)
    requires n < 16 && NibToHex(n) == ToUpper(c)
    ensures IsHexDigit(c)
  {
  }

  lemma TwoDigits(a: char, b: char)
    ensures var n := (16 * HexToNib(a) + HexToNib(b)) % 256;
            NibToHex(n / 16) == ToUpper(a) && NibToHex(n % 16) == ToUpper(b) <==> IsHexDigit(a) && IsHexDigit(b)
  {
    hide NibToHex, ToUpper, IsHexDigit, HexToNib;
    var n := (16 * HexToNib(a) + HexToNib(b)) % 256;
    if IsHexDigit(a) && IsHexDigit(b) {
      DigitRoundTrip(a);
      DigitRoundTrip(b);
      TwoNibbles(HexToNib(a), HexToNib(b));
    } else if NibToHex(n / 16) == ToUpper(a) && NibToHex(n % 16) == ToUpper(b) {
      OnlyDigits(n / 16, a);
      OnlyDigits(n % 16, b);
    }
  }

  lemma TwoNibbles(a: nat, b: nat)
    requires a < 16 && b < 16
    ensures (16 * a + b) % 256 == 16 * a + b && (16 * a + b) / 16 == a && (16 * a + b) % 16 == b
  {
  }

  // ----- steps of the loops -----

  /** Exclusive or of the upper bits of c shifted left once, twice, up to k times. */
  function UpperBitsOf(c: bv8, k: nat): bv8
    decreases k
  {
    if k == 0 then 0 else ((c << 1) & 0x80) ^ UpperBitsOf(c << 1, k - 1)
  }

  lemma StepParity(parity: bv8, c: bv8, k: nat)
    requires k > 0
    ensures (parity ^ ((c << 1) & 0x80)) ^ UpperBitsOf(c << 1, k - 1) == parity ^ UpperBitsOf(c, k)
  {
    XorAssociates(parity, (c << 1) & 0x80, UpperBitsOf(c << 1, k - 1));
  }

  lemma XorAssociates(a: bv8, b: bv8, c: bv8)
    ensures (a ^ b) ^ c == a ^ (b ^ c)
  {
  }

  lemma NoSteps(parity: bv8, c: bv8)
    ensures parity ^ UpperBitsOf(c, 0) == parity
  {
  }

  lemma SevenSteps(c: bv8)
    ensures 0x80 ^ UpperBitsOf(c, 7) == ParityBit(c)
  {
    hide UpperBitsOf;
    MoreUpperBits(c, 7);
    MoreUpperBits(c << 1, 6);
    MoreUpperBits(c << 1 << 1, 5);
    MoreUpperBits(c << 1 << 1 << 1, 4);
    MoreUpperBits(c << 1 << 1 << 1 << 1, 3);
    MoreUpperBits(c << 1 << 1 << 1 << 1 << 1, 2);
    MoreUpperBits(c << 1 << 1 << 1 << 1 << 1 << 1, 1);
    NoUpperBits(c << 1 << 1 << 1 << 1 << 1 << 1 << 1);
    ParityShifts(c);
  }

  lemma MoreUpperBits(c: bv8, k: nat)
    requires k > 0
    ensures UpperBitsOf(c, k) == ((c << 1) & 0x80) ^ UpperBitsOf(c << 1, k - 1)
  {
  }

  lemma NoUpperBits(c: bv8)
    ensures UpperBitsOf(c, 0) == 0
  {
  }

  lemma ParityShifts(c: bv8)
    ensures 0x80 ^ (((c << 1) & 0x80) ^ (((c << 1 << 1) & 0x80) ^ (((c << 1 << 1 << 1) & 0x80) ^ (((c << 1 << 1 << 1 << 1) & 0x80)
            ^ (((c << 1 << 1 << 1 << 1 << 1) & 0x80) ^ (((c << 1 << 1 << 1 << 1 << 1 << 1) & 0x80)
            ^ (((c << 1 << 1 << 1 << 1 << 1 << 1 << 1) & 0x80) ^ 0))))))) == ParityBit(c)
  {
  }

  lemma OneMoreBit(reg: seq<bool>, i: nat, off: nat, j: nat)
    requires |reg| == 56 && i < 16 && (off == 0 || off == 24) && j < 24
    ensures RawWord(reg, i, off, j + 1) == if Rotated(reg, i, Pc2(off + j)) then Or(RawWord(reg, i, off, j), BigByte(j)) else RawWord(reg, i, off, j)
  {
    hide Rotated, BigByte, Pc2;
    var w := RawWord(reg, i, off, j);
    hide RawWord;
    OrZero(w);
  }

  lemma NoBits(reg: seq<bool>, i: nat)
    requires |reg| == 56 && i < 16
    ensures RawWord(reg, i, 0, 0) == 0 && RawWord(reg, i, 24, 0) == 0
  {
  }

  lemma OrZero(w: bv32)
    ensures w | 0 == w
  {
  }

  function OctetsOf(b: seq<bv8>): (r: seq<Octet>)
    ensures |r| == |b|
  {
    seq(|b|, i requires 0 <= i < |b| => b[i] as nat)
  }

  lemma FromHexMore(p: string)
    requires |p| >= 2
    ensures FromHex(p) == [(16 * HexToNib(p[0]) + HexToNib(p[1])) % 256] + FromHex(p[2..])
  {
    hide HexToNib;
  }

  lemma OctetsSnoc(b: seq<bv8>, v: Octet)
    ensures OctetsOf(b + [v as bv8]) == OctetsOf(b) + [v]
  {
    OctetValue(v);
    var w: bv8 := v as bv8;
    OctetsOne(b, w);
  }

  lemma OctetsOne(b: seq<bv8>, w: bv8)
    ensures OctetsOf(b + [w]) == OctetsOf(b) + [w as nat]
  {
  }

  /** One more block deciphered. */
  lemma DecipherStep(bx: Boxes, keys: Keys, held: seq<bv8>, i: nat, last: DESBlock, front: seq<bv8>, more: seq<bv8>)
    requires 8 * (i + 1) < |held|
    requires Decipher(bx, keys, held, ZERO) == Prepend(front, Decipher(bx, keys, held[8 * i..], last))
    requires more == front + BlockBytes(XorBlock(Crypt(bx, keys, BlockAt(held[8 * i..], 0)), last))
    ensures Decipher(bx, keys, held, ZERO) == Prepend(more, Decipher(bx, keys, held[8 * (i + 1)..], BlockAt(held[8 * i..], 0)))
  {
    hide Crypt, BlockBytes, BlockAt, XorBlock, Decipher;
    var rest := held[8 * i..];
    assert rest[8..] == held[8 * (i + 1)..];
    DecipherMore(bx, keys, rest, last);
    var b, r := BlockBytes(XorBlock(Crypt(bx, keys, BlockAt(rest, 0)), last)), Decipher(bx, keys, rest[8..], BlockAt(rest, 0));
    PrependTwice(front, b, r);
  }

  lemma PrependTwice(a: seq<bv8>, b: seq<bv8>, r: Option<seq<bv8>>)
    ensures Prepend(a, Prepend(b, r)) == Prepend(a + b, r) && Prepend([], r) == r
  {
    if r.Some? {
      assert a + (b + r.value) == a + b + r.value;
      assert [] + r.value == r.value;
    }
  }

  /** What decrypt returns and leaves in its destination: the message and a zero after it, or -1. */
  ghost predicate Delivered(m: Option<seq<bv8>>, n: int, dest: seq<bv8>) {
    match m
    case None => n == -1
    case Some(s) => n == |s| <= |dest| && dest[..n] == s && (n < |dest| ==> dest[n] == 0)
  }

  /** decrypt leaves out what is over after the last whole block. */
  function WholeBlocks(held: seq<bv8>): (r: seq<bv8>)
    ensures |r| % 8 == 0 && |held| - 8 < |r| <= |held| && r <= held
  {
    held[..8 * (|held| / 8)]
  }

  lemma AllWhole(held: seq<bv8>)
    requires |held| % 8 == 0
    ensures WholeBlocks(held) == held
  {
  }

  class EncryptDES {
    const bx: Boxes
    var buf: array?<bv8>
    var bufSize: nat
    const processedKey: array<bv32>

    ghost predicate Valid()
      reads this, buf
    {
      && processedKey.Length == 32
      && (if buf == null then bufSize == 0 else buf.Length == bufSize)
    }

    /** The ciphertext held. */
    ghost function Held(): seq<bv8>
      requires Valid()
      reads this, buf
    {
      if buf == null then [] else buf[..]
    }

    constructor (bx: Boxes)
      ensures Valid() && this.bx == bx && buf == null && fresh(processedKey)
    {
      this.bx := bx;
      buf := null;
      bufSize := 0;
      processedKey := new bv32[32](i => 0);
    }

    method Clear()
      modifies this`buf, this`bufSize
      ensures buf == null && bufSize == 0
    {
      buf := null;
      bufSize := 0;
    }

    // ----- keys -----

    /** The parity loop of processKey, for one character. */
    method Parity(ch: bv8) returns (parity: bv8)
      ensures parity == ParityBit(ch)
    {
      var c := ch;
      parity := 0x80;
      var bit := 0;
      while bit < 7
        invariant 0 <= bit <= 7
        invariant parity ^ UpperBitsOf(c, 7 - bit) == 0x80 ^ UpperBitsOf(ch, 7)
      {
        StepParity(parity, c, 7 - bit);
        c := c << 1;
        parity := parity ^ (c & 0x80);
        bit := bit + 1;
      }
      SevenSteps(ch);
      NoSteps(parity, c);
    }

    method ProcessKey(key: seq<bv8>, decipher: bool)
      requires Valid() && 1 <= |key| <= 8
      modifies processedKey
      ensures processedKey[..] == Schedule(LocalKey(key), decipher)
    {
      var localKey := new bv8[8];
      var j := 0;
      while j < |key|
        invariant 0 <= j <= |key|
        invariant forall i :: 0 <= i < j ==> localKey[i] == KeyByte(key[i])
      {
        var parity := Parity(key[j]);
        localKey[j] := (key[j] & 0x7f) | parity;
        j := j + 1;
      }
      while j < 8
        invariant |key| <= j <= 8
        invariant forall i :: 0 <= i < |key| ==> localKey[i] == KeyByte(key[i])
        invariant forall i :: |key| <= i < j ==> localKey[i] == 0x80
      {
        localKey[j] := 0x80;
        j := j + 1;
      }
      assert localKey[..] == LocalKey(key);
      DesKey(localKey[..], decipher);
    }

    /** The half-registers rotated for round i, first the left one and then the right one. */
    method Rotate(reg: array<bool>, pcr: array<bool>, i: nat)
      requires reg.Length == 56 && pcr.Length == 56 && i < 16 && pcr != reg
      modifies pcr
      ensures forall k :: 0 <= k < 56 ==> pcr[k] == Rotated(reg[..], i, k)
    {
      var j: int := 0;
      while j < 28
        invariant 0 <= j <= 28
        invariant forall k :: 0 <= k < j ==> pcr[k] == Rotated(reg[..], i, k)
      {
        var l: int := j + TotalRotation(i);
        pcr[j] := if l < 28 then reg[l] else reg[l - 28];
        j := j + 1;
      }
      while j < 56
        invariant 28 <= j <= 56
        invariant forall k :: 0 <= k < j ==> pcr[k] == Rotated(reg[..], i, k)
      {
        var l: int := j + TotalRotation(i);
        pcr[j] := if l < 56 then reg[l] else reg[l - 28];
        j := j + 1;
      }
    }

    /** One more bit of the raw word in place m, if the rotated register has it. */
    static method AddBit(ghost reg: seq<bool>, ghost i: nat, ghost off: nat, kn: array<bv32>, m: nat, on: bool, j: nat)
      requires |reg| == 56 && i < 16 && (off == 0 || off == 24) && j < 24 && m < kn.Length
      requires on == Rotated(reg, i, Pc2(off + j)) && kn[m] == RawWord(reg, i, off, j)
      modifies kn
      ensures kn[m] == RawWord(reg, i, off, j + 1)
      ensures forall w :: 0 <= w < kn.Length && w != m ==> kn[w] == old(kn[w])
    {
      hide Rotated, RawWord, BigByte, Pc2;
      OneMoreBit(reg, i, off, j);
      if on {
        kn[m] := Or(kn[m], BigByte(j));
      }
    }

    /** The raw words of one round from its rotated register, in the places m and n of kn. */
    method CollectBits(ghost reg: seq<bool>, pcr: array<bool>, kn: array<bv32>, ghost i: nat, m: nat, n: nat)
      requires |reg| == 56 && pcr.Length == 56 && kn.Length == 32 && i < 16 && m < 32 && n < 32 && m != n
      requires forall k :: 0 <= k < 56 ==> pcr[k] == Rotated(reg, i, k)
      modifies kn
      ensures kn[m] == RawWord(reg, i, 0, 24) && kn[n] == RawWord(reg, i, 24, 24)
      ensures forall w :: 0 <= w < 32 && w != m && w != n ==> kn[w] == old(kn[w])
    {
      hide Rotated, BigByte, RawWord, Pc2;
      NoBits(reg, i);
      kn[m] := 0;
      kn[n] := 0;
      var j := 0;
      while j < 24
        invariant 0 <= j <= 24
        invariant kn[m] == RawWord(reg, i, 0, j) && kn[n] == RawWord(reg, i, 24, j)
        invariant forall w :: 0 <= w < 32 && w != m && w != n ==> kn[w] == old(kn[w])
      {
        AddBit(reg, i, 0, kn, m, pcr[Pc2(j)], j);
        AddBit(reg, i, 24, kn, n, pcr[Pc2(j + 24)], j);
        j := j + 1;
      }
    }

    /** The raw words of one round, in the places m and m + 1 of kn. */
    method RawRound(reg: array<bool>, pcr: array<bool>, kn: array<bv32>, i: nat, m: nat)
      requires reg.Length == 56 && pcr.Length == 56 && kn.Length == 32 && i < 16 && m < 31 && pcr != reg
      modifies pcr, kn
      ensures kn[m] == RawWord(reg[..], i, 0, 24) && kn[m + 1] == RawWord(reg[..], i, 24, 24)
      ensures forall w :: 0 <= w < 32 && w != m && w != m + 1 ==> kn[w] == old(kn[w])
    {
      hide Rotated, RawWord;
      Rotate(reg, pcr, i);
      CollectBits(reg[..], pcr, kn, i, m, m + 1);
    }

    /** The raw key words of all rounds, in the order of the direction. */
    method RawWords(pc1m: array<bool>, decipher: bool) returns (kn: array<bv32>)
      requires pc1m.Length == 56
      ensures fresh(kn) && kn.Length == 32 && forall w :: 0 <= w < 32 ==> kn[w] == Raw(pc1m[..], decipher, w)
    {
      hide RawWord;
      kn := new bv32[32];
      var pcr := new bool[56];
      var i := 0;
      while i < 16
        invariant 0 <= i <= 16
        invariant forall w :: 0 <= w < 32 && (if decipher then w >= 2 * (16 - i) else w < 2 * i) ==> kn[w] == Raw(pc1m[..], decipher, w)
      {
        var m := if decipher then 2 * (15 - i) else 2 * i;
        RawRound(pc1m, pcr, kn, i, m);
        assert m / 2 == (m + 1) / 2 == if decipher then 15 - i else i;
        i := i + 1;
      }
    }

    method DesKey(key: KeyBytes, decipher: bool)
      requires Valid()
      modifies processedKey
      ensures processedKey[..] == Schedule(key, decipher)
    {
      hide KeyBit, Cook0, Cook1, RawWord;
      var pc1m := new bool[56];
      var j := 0;
      while j < 56
        invariant 0 <= j <= 56
        invariant forall k :: 0 <= k < j ==> pc1m[k] == KeyBit(key, Pc1(k))
      {
        pc1m[j] := KeyBit(key, Pc1(j));
        j := j + 1;
      }
      assert pc1m[..] == Register(key);
      var kn := RawWords(pc1m, decipher);
      CookAll(kn, Register(key), decipher);
    }

    /** The rearrangement that ends deskey. */
    method CookAll(kn: array<bv32>, ghost reg: seq<bool>, ghost decipher: bool)
      requires Valid() && kn.Length == 32 && kn != processedKey && |reg| == 56
      requires forall w :: 0 <= w < 32 ==> kn[w] == Raw(reg, decipher, w)
      modifies processedKey
      ensures forall w :: 0 <= w < 32 ==> processedKey[w] == Cooked(reg, decipher, w)
    {
      hide Cook0, Cook1, Raw;
      var i := 0;
      while i < 16
        invariant 0 <= i <= 16
        invariant forall w :: 0 <= w < 2 * i ==> processedKey[w] == Cooked(reg, decipher, w)
      {
        var raw0, raw1 := kn[2 * i], kn[2 * i + 1];
        assert (2 * i) / 2 == i && (2 * i + 1) / 2 == i;
        processedKey[2 * i] := Cook0(raw0, raw1);
        processedKey[2 * i + 1] := Cook1(raw0, raw1);
        i := i + 1;
      }
    }

    // ----- blocks -----

    /** encryptBlock: one block under the schedule in use. */
    method EncryptBlock(src: DESBlock) returns (r: DESBlock)
      requires Valid()
      ensures r == Crypt(bx, processedKey[..], src)
    {
      hide Scramble, Swap32, Xor, SwapA, SwapB, RotateLeft, RotateRight, MixA, MixB, Rounds;
      var left, right := InitialPermutation(Swap32(src.d0), Swap32(src.d1));
      ghost var l, q := left, right;
      var round := 0;
      while round < 16
        invariant 0 <= round <= 16
        invariant Rounds(bx, processedKey[..], round, 16 - round, left, right) == Rounds(bx, processedKey[..], 0, 16, l, q)
      {
        FirstRound(bx, processedKey[..], round, 16 - round, left, right);
        var fval := Scramble(bx, right, processedKey[2 * round], processedKey[2 * round + 1]);
        left := Xor(left, fval);
        left, right := right, left;
        round := round + 1;
      }
      NoRounds(bx, processedKey[..], 16, left, right);
      left, right := FinalPermutation(left, right);
      r := Reversed(DESBlock(right, left));
    }

    /** One swap-and-mask step on two words. */
    static method Exchange(a: bv32, b: bv32, k: bv32, m: bv32) returns (a': bv32, b': bv32)
      requires k < 32
      ensures a' == SwapA(a, b, k, m) && b' == SwapB(a, b, k, m)
    {
      hide SwapWork, Xor, ShiftUp;
      var work := SwapWork(a, b, k, m);
      b' := Xor(b, work);
      a' := Xor(a, ShiftUp(work, k));
    }

    /** The step between the rotations. */
    static method Mix(a: bv32, b: bv32) returns (a': bv32, b': bv32)
      ensures a' == MixA(a, b) && b' == MixB(a, b)
    {
      hide MixWork, Xor;
      var work := MixWork(a, b);
      a' := Xor(a, work);
      b' := Xor(b, work);
    }

    static method InitialPermutation(left0: bv32, right0: bv32) returns (left: bv32, right: bv32)
      ensures (left, right) == Initial(left0, right0)
    {
      hide SwapA, SwapB, MixA, MixB, RotateLeft;
      left, right := Exchange(left0, right0, 4, 0x0f0f0f0f);
      left, right := Exchange(left, right, 16, 0x0000ffff);
      right, left := Exchange(right, left, 2, 0x33333333);
      right, left := Exchange(right, left, 8, 0x00ff00ff);
      right := RotateLeft(right);
      left, right := Mix(left, right);
      left := RotateLeft(left);
    }

    static method FinalPermutation(left0: bv32, right0: bv32) returns (left: bv32, right: bv32)
      ensures (left, right) == Final(left0, right0)
    {
      hide SwapA, SwapB, MixA, MixB, RotateRight;
      left, right := left0, RotateRight(right0);
      left, right := Mix(left, right);
      left := RotateRight(left);
      left, right := Exchange(left, right, 8, 0x00ff00ff);
      left, right := Exchange(left, right, 2, 0x33333333);
      right, left := Exchange(right, left, 16, 0x0000ffff);
      right, left := Exchange(right, left, 4, 0x0f0f0f0f);
    }

    // ----- messages -----

    /** One block in place i of a buffer. */
    static method StoreBlock(a: array<bv8>, i: nat, b: DESBlock)
      requires 8 * i + 8 <= a.Length
      modifies a
      ensures a[8 * i..8 * i + 8] == BlockBytes(b)
      ensures a[..8 * i] == old(a[..8 * i]) && a[8 * i + 8..] == old(a[8 * i + 8..])
    {
      var bytes, k := BlockBytes(b), 0;
      while k < 8
        invariant 0 <= k <= 8
        invariant a[8 * i..8 * i + k] == bytes[..k]
        invariant a[..8 * i] == old(a[..8 * i]) && a[8 * i + 8..] == old(a[8 * i + 8..])
      {
        a[8 * i + k] := bytes[k];
        k := k + 1;
      }
    }

    /**
     encrypt: -1 for a key of the wrong length, otherwise the number of bytes now held, which are the
     chained ciphertext of the whole message and its final block.
     */
    method Encrypt(key: seq<bv8>, src: seq<bv8>) returns (n: int)
      requires Valid()
      modifies this`buf, this`bufSize, processedKey
      ensures Valid() && (buf == null || fresh(buf))
      ensures 1 <= |key| <= 8 ==> n == 8 * (|src| / 8 + 1) && Held() == Encipher(bx, Schedule(LocalKey(key), false), src, ZERO)
      ensures !(1 <= |key| <= 8) ==> n == -1 && Held() == []
    {
      hide Schedule, Crypt, BlockBytes, BlockAt, XorBlock, LastBytes, LocalKey, Encipher;
      Clear();
      if |key| < 1 || |key| > 8 {
        return -1;
      }
      var numBlocks, extra := |src| / 8, |src| % 8;
      bufSize := (numBlocks + 1) * 8;
      var dest := new bv8[bufSize];
      buf := dest;
      ProcessKey(key, false);
      EncryptBlocks(dest, src, numBlocks, Schedule(LocalKey(key), false));
      n := (numBlocks + 1) * 8;
    }

    /** The whole blocks of the message, then what is left with its length. */
    method EncryptBlocks(dest: array<bv8>, src: seq<bv8>, numBlocks: nat, ghost keys: Keys)
      requires Valid() && numBlocks == |src| / 8 && dest.Length == 8 * (numBlocks + 1)
      requires processedKey[..] == keys
      modifies dest
      ensures dest[..] == Encipher(bx, keys, src, ZERO)
    {
      hide Crypt, BlockBytes, BlockAt, XorBlock, LastBytes, Encipher;
      var lastBlock, i := ZERO, 0;
      assert src[8 * i..] == src && dest[..0] == [];
      while i < numBlocks
        invariant 0 <= i <= numBlocks && processedKey[..] == keys
        invariant dest[..8 * i] + Encipher(bx, keys, src[8 * i..], lastBlock) == Encipher(bx, keys, src, ZERO)
      {
        EncipherMore(bx, keys, src[8 * i..], lastBlock);
        var block := XorBlock(BlockAt(src[8 * i..], 0), lastBlock);
        block := EncryptBlock(block);
        lastBlock := block;
        StoreBlock(dest, i, block);
        assert src[8 * i..][8..] == src[8 * (i + 1)..];
        assert dest[..8 * (i + 1)] == dest[..8 * i] + BlockBytes(block);
        i := i + 1;
      }
      var tail := src[8 * numBlocks..];
      EncipherLast(bx, keys, tail, lastBlock);
      var block := EncryptBlock(XorBlock(BlockAt(LastBytes(tail), 0), lastBlock));
      StoreBlock(dest, numBlocks, block);
      assert dest[..] == dest[..8 * numBlocks] + BlockBytes(block);
    }

    /**
     decrypt: -1 for a key of the wrong length, a destination that is too short, or a last block
     without a length; otherwise the message in the whole blocks, its length, and a zero after it if
     there is room.
     */
    method Decrypt(key: seq<bv8>, dest: array<bv8>) returns (n: int)
      requires Valid() && dest != buf && (buf != null ==> bufSize >= 8)
      modifies dest, processedKey
      ensures !(1 <= |key| <= 8) ==> n == -1 && dest[..] == old(dest[..])
      ensures 1 <= |key| <= 8 && buf == null ==> n == 0 && (dest.Length > 0 ==> dest[0] == 0)
      ensures 1 <= |key| <= 8 && buf != null && dest.Length < bufSize ==> n == -1 && dest[..] == old(dest[..])
      ensures 1 <= |key| <= 8 && buf != null && dest.Length >= bufSize ==>
                match Decipher(bx, Schedule(LocalKey(key), true), WholeBlocks(Held()), ZERO)
                case None => n == -1
                case Some(s) => n == |s| <= dest.Length && dest[..n] == s && (n < dest.Length ==> dest[n] == 0)
    {
      hide Schedule, Crypt, BlockBytes, BlockAt, XorBlock, LocalKey, Decipher;
      if |key| < 1 || |key| > 8 {
        return -1;
      }
      if buf == null {
        if dest.Length > 0 {
          dest[0] := 0;
        }
        return 0;
      }
      var numBlocks := bufSize / 8;
      if dest.Length < bufSize {
        return -1;
      }
      ProcessKey(key, true);
      n := DecryptBlocks(dest, numBlocks, Schedule(LocalKey(key), true), WholeBlocks(buf[..]));
    }

    /** All blocks but the last, then the last. */
    method DecryptBlocks(dest: array<bv8>, numBlocks: nat, ghost keys: Keys, ghost held: seq<bv8>) returns (n: int)
      requires Valid() && buf != null && dest != buf && held <= buf[..] && numBlocks >= 1 && |held| == 8 * numBlocks <= dest.Length
      requires processedKey[..] == keys
      modifies dest
      ensures Delivered(Decipher(bx, keys, held, ZERO), n, dest[..])
    {
      hide Crypt, BlockBytes, BlockAt, XorBlock, Decipher, Prepend, Delivered;
      var lastBlock, i := ZERO, 0;
      assert held[8 * i..] == held && dest[..0] == [];
      PrependTwice([], [], Decipher(bx, keys, held, ZERO));
      while i < numBlocks - 1
        invariant 0 <= i <= numBlocks - 1 && processedKey[..] == keys && held <= buf[..]
        invariant Decipher(bx, keys, held, ZERO) == Prepend(dest[..8 * i], Decipher(bx, keys, held[8 * i..], lastBlock))
      {
        assert buf[8 * i..8 * numBlocks] == held[8 * i..];
        var origBlock := BlockAt(buf[8 * i..8 * numBlocks], 0);
        var block := EncryptBlock(origBlock);
        block := XorBlock(block, lastBlock);
        ghost var was := lastBlock;
        lastBlock := origBlock;
        StoreBlock(dest, i, block);
        DecipherStep(bx, keys, held, i, was, dest[..8 * i], dest[..8 * (i + 1)]);
        i := i + 1;
      }
      n := FinishDecrypt(dest, numBlocks, lastBlock, keys, held);
    }

    /** The last block: its length byte, and as many of its bytes as it says. */
    method FinishDecrypt(dest: array<bv8>, numBlocks: nat, lastBlock: DESBlock, ghost keys: Keys, ghost held: seq<bv8>) returns (n: int)
      requires Valid() && buf != null && dest != buf && held <= buf[..] && numBlocks >= 1 && |held| == 8 * numBlocks <= dest.Length
      requires processedKey[..] == keys
      requires Decipher(bx, keys, held, ZERO) == Prepend(dest[..8 * (numBlocks - 1)], Decipher(bx, keys, held[8 * (numBlocks - 1)..], lastBlock))
      modifies dest
      ensures Delivered(Decipher(bx, keys, held, ZERO), n, dest[..])
    {
      hide Crypt, BlockBytes, BlockAt, XorBlock, Decipher;
      var at := 8 * (numBlocks - 1);
      DecipherMore(bx, keys, held[at..], lastBlock);
      ghost var front := dest[..at];
      assert buf[at..8 * numBlocks] == held[at..];
      var block := EncryptBlock(BlockAt(buf[at..8 * numBlocks], 0));
      block := XorBlock(block, lastBlock);
      var bytes := BlockBytes(block);
      if bytes[7] > 7 {
        return -1;
      }
      var extra := bytes[7] as nat;
      var k := 0;
      while k < extra
        invariant 0 <= k <= extra
        invariant dest[..at] == front && dest[at..at + k] == bytes[..k]
      {
        dest[at + k] := bytes[k];
        k := k + 1;
      }
      n := at + extra;
      assert dest[..n] == front + bytes[..extra];
      if n < dest.Length {
        dest[n] := 0;
      }
      assert dest[..n] == front + bytes[..extra];
    }

    // ----- export and import -----

    /** binaryToHex on the buffer. */
    method ExportHex() returns (s: string)
      requires Valid()
      ensures s == ToHex(OctetsOf(Held()))
    {
      s := [];
      if bufSize == 0 {
        assert OctetsOf(Held()) == [];
        return;
      }
      var i := 0;
      while i < bufSize
        invariant 0 <= i <= bufSize
        invariant s + ToHex(OctetsOf(buf[i..])) == ToHex(OctetsOf(buf[..]))
      {
        var b := buf[i] as nat;
        assert OctetsOf(buf[i..])[1..] == OctetsOf(buf[i + 1..]);
        s := s + [NibToHex(b / 16), NibToHex(b % 16)];
        i := i + 1;
      }
    }

    /** hexToBinary into a new buffer. */
    method ImportHex(s: string)
      requires Valid()
      modifies this`buf, this`bufSize
      ensures Valid() && buf != null && fresh(buf) && OctetsOf(Held()) == FromHex(s)
    {
      hide HexToNib;
      Clear();
      bufSize := |s| / 2;
      var dest := new bv8[bufSize];
      buf := dest;
      var i, p := 0, s;
      while |p| >= 2
        invariant 0 <= i <= bufSize && |p| == |s| - 2 * i && buf == dest && dest.Length == bufSize == |s| / 2
        invariant OctetsOf(dest[..i]) + FromHex(p) == FromHex(s)
        decreases |p|
      {
        FromHexMore(p);
        hide FromHex, OctetsOf;
        ghost var was := dest[..i];
        var v := (16 * HexToNib(p[0]) + HexToNib(p[1])) % 256;
        dest[i] := v as bv8;
        assert dest[..i + 1] == was + [v as bv8];
        OctetsSnoc(was, v);
        p := p[2..];
        i := i + 1;
      }
      assert dest[..i] == dest[..];
    }
  }

  lemma SameOctets(a: seq<bv8>, b: seq<bv8>)
    requires OctetsOf(a) == OctetsOf(b)
    ensures a == b
  {
    forall i | 0 <= i < |a|
      ensures |a| == |b| && a[i] == b[i]
    {
      assert OctetsOf(a)[i] == OctetsOf(b)[i];
      ByteOf(a[i]);
      ByteOf(b[i]);
    }
  }

  lemma ByteOf(b: bv8)
    ensures b as nat < 256 && (b as nat) as bv8 == b
  {
  }

  /** What EncryptCString makes of a text. */
  function CipherText(bx: Boxes, key: seq<bv8>, source: seq<bv8>): string
    requires |key| <= 8
  {
    ToHex(OctetsOf(Encipher(bx, Schedule(LocalKey(key), false), source, ZERO)))
  }

  /** The ciphertext bytes behind such a text are those that were enciphered, and decipher to it. */
  lemma CipherTextBack(bx: Boxes, key: seq<bv8>, source: seq<bv8>, held: seq<bv8>)
    requires |key| <= 8 && OctetsOf(held) == FromHex(CipherText(bx, key, source))
    ensures Decipher(bx, Schedule(LocalKey(key), true), held, ZERO) == Some(source)
  {
    hide Encipher, Decipher, Schedule, LocalKey, OctetsOf, ToHex, FromHex;
    var e := Encipher(bx, Schedule(LocalKey(key), false), source, ZERO);
    HexRoundTrip(OctetsOf(e));
    SameOctets(held, e);
    RoundTrip(bx, key, source);
  }

  /** It is whole blocks. */
  lemma CipherTextWhole(bx: Boxes, key: seq<bv8>, source: seq<bv8>, held: seq<bv8>)
    requires |key| <= 8 && OctetsOf(held) == FromHex(CipherText(bx, key, source))
    ensures WholeBlocks(held) == held
  {
    hide Encipher, Schedule, LocalKey, OctetsOf, ToHex, FromHex;
    var e := Encipher(bx, Schedule(LocalKey(key), false), source, ZERO);
    HexRoundTrip(OctetsOf(e));
    EncipherLength(bx, Schedule(LocalKey(key), false), source, ZERO);
    AllWhole(held);
  }

  /** EncryptCString: nothing for a key of the wrong length. */
  method EncryptCString(bx: Boxes, key: seq<bv8>, source: seq<bv8>) returns (hex: string)
    ensures hex == if 1 <= |key| <= 8 then CipherText(bx, key, source) else []
  {
    hide Encipher, Schedule, LocalKey;
    var des := new EncryptDES(bx);
    var n := des.Encrypt(key, source);
    hex := des.ExportHex();
  }

  /** The machine bytes with these values. */
  function BytesOf(o: seq<Octet>): (r: seq<bv8>)
    ensures OctetsOf(r) == o
    decreases |o|
  {
    if o == [] then []
    else
      var front, v := BytesOf(o[..|o| - 1]), o[|o| - 1];
      OctetsSnoc(front, v);
      front + [v as bv8]
  }

  /**
   DecryptCString: gives back every text that EncryptCString made with the same key; None when
   decrypt reports an error.
   */
  method DecryptCString(bx: Boxes, key: seq<bv8>, hex: string) returns (s: Option<seq<bv8>>)
    requires |hex| >= 16
    ensures 1 <= |key| <= 8 ==> s == Decipher(bx, Schedule(LocalKey(key), true), WholeBlocks(BytesOf(FromHex(hex))), ZERO)
    ensures 1 <= |key| <= 8 ==> forall source :: hex == CipherText(bx, key, source) ==> s == Some(source)
    ensures !(1 <= |key| <= 8) ==> s == None
  {
    hide Encipher, Decipher, Schedule, LocalKey, CipherText, FromHex;
    var des := new EncryptDES(bx);
    des.ImportHex(hex);
    var dest := new bv8[des.bufSize];
    HexLength(hex);
    ghost var held := des.Held();
    SameOctets(held, BytesOf(FromHex(hex)));
    var n := des.Decrypt(key, dest);
    if n < 0 {
      s := None;
    } else {
      s := Some(dest[..n]);
    }
    if 1 <= |key| <= 8 {
      forall source | hex == CipherText(bx, key, source)
        ensures s == Some(source)
      {
        CipherTextBack(bx, key, source, held);
        CipherTextWhole(bx, key, source, held);
      }
    }
  }

  lemma HexLength(hex: string)
    requires |hex| >= 16
    ensures |FromHex(hex)| >= 8
  {
  }
}
