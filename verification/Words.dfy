/** Bytes, 32-bit machine words and the fixnum tagging of Lisp.h. */
module Words {
  type Byte = b: int | 0 <= b < 0x100
  type Word = w: int | 0 <= w < 0x1_0000_0000

  const FIXNUM_MAX := 0x0FFF_FFFF
  const FIXNUM_MIN := -0x1000_0000

  /** The 32-bit pattern of an integer (conversion to `unsigned long`). */
  function Wrap32(n: int): Word {
    n % 0x1_0000_0000
  }

  /** The two's complement reading of a word (conversion to `long`). */
  function Signed(w: Word): int {
    if w < 0x8000_0000 then w else w - 0x1_0000_0000
  }

  /** isFixnum: the low three bits hold the fixnum tag, zero. */
  predicate IsFixnum(w: Word) {
    w % 8 == 0
  }

  /** wrapInteger: shift left by three, dropping what leaves the word. */
  function WrapInteger(n: int): Word {
    Wrap32(8 * n)
  }

  /** integer: arithmetic shift right by three. */
  function Integer(w: Word): int {
    Signed(w) / 8
  }

  /** What `integer(wrapInteger(n))` leaves of n: its low 29 bits, sign-extended. */
  function Trunc29(n: int): int {
    Integer(WrapInteger(n))
  }

  predicate InFixnumRange(n: int) {
    FIXNUM_MIN <= n <= FIXNUM_MAX
  }

  /** Tagging and untagging are inverse exactly on the 29-bit range. */
  lemma Trunc29Exact(n: int)
    ensures Trunc29(n) == n <==> -0x1000_0000 <= n < 0x1000_0000
    ensures InFixnumRange(n) <==> -0x1000_0000 <= n < 0x1000_0000
    ensures InFixnumRange(Trunc29(n))
  {
    var q := (8 * n) / 0x1_0000_0000;
    assert 8 * n == q * 0x1_0000_0000 + WrapInteger(n);
  }

  /** A tagged word is the tagging of exactly one fixnum. */
  lemma FixnumWord(w: Word)
    requires IsFixnum(w)
    ensures InFixnumRange(Integer(w)) && WrapInteger(Integer(w)) == w && Signed(w) == 8 * Integer(w)
  {
  }

  /** Little-endian bytes of a word, least significant first. */
  function LE32(w: Word): (r: seq<Byte>)
    ensures |r| == 4
  {
    [w % 0x100, (w / 0x100) % 0x100, (w / 0x1_0000) % 0x100, w / 0x100_0000]
  }

  function FromLE(b0: Byte, b1: Byte, b2: Byte, b3: Byte): Word {
    b0 + 0x100 * b1 + 0x1_0000 * b2 + 0x100_0000 * b3
  }

  lemma FromLE32(w: Word)
    ensures var b := LE32(w); FromLE(b[0], b[1], b[2], b[3]) == w
  {
    assert (w / 0x100) / 0x100 == w / 0x1_0000;
    assert (w / 0x1_0000) / 0x100 == w / 0x100_0000;
  }

  /** And four bytes are those of the word they make up. */
  lemma LEBytes(b0: Byte, b1: Byte, b2: Byte, b3: Byte)
    ensures LE32(FromLE(b0, b1, b2, b3)) == [b0, b1, b2, b3]
  {
    var w := FromLE(b0, b1, b2, b3);
    assert w / 0x100 == b1 + 0x100 * b2 + 0x1_0000 * b3;
    assert w / 0x1_0000 == b2 + 0x100 * b3;
    assert w / 0x100_0000 == b3;
  }

  lemma SignedWrap32(n: int)
    requires -0x8000_0000 <= n < 0x8000_0000
    ensures Signed(Wrap32(n)) == n
  {
  }
}
