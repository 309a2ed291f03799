/**
 Cipher block chaining, block by block: each ciphertext block is the cipher of a message block
 exclusive-or the ciphertext block before it, and what deciphering gives is said byte for byte, for
 ciphertext and for any other whole blocks.
 */
module Chaining {
  import opened Options
  import opened DesCipher
  import opened EncryptDes

  /** Byte k of the blocks that are enciphered: the message, zeros, and in the last place the bytes left over. */
  function PlainByte(src: seq<bv8>, k: nat): bv8 {
    if k < |src| then src[k] else if k % 8 == 7 then Small(|src| % 8) else 0
  }

  function Small(n: nat): bv8
    requires n < 8
  {
    n as bv8
  }

  /** A block as two numbers with its first byte most significant: what the cipher is applied to. */
  lemma BigEndian(b: seq<bv8>, at: nat)
    requires at + 8 <= |b|
    ensures Swap32(BlockAt(b, at).d0) == ((b[at] as bv32) << 24) | ((b[at + 1] as bv32) << 16) | ((b[at + 2] as bv32) << 8) | (b[at + 3] as bv32)
    ensures Swap32(BlockAt(b, at).d1) == ((b[at + 4] as bv32) << 24) | ((b[at + 5] as bv32) << 16) | ((b[at + 6] as bv32) << 8) | (b[at + 7] as bv32)
  {
    SwappedWord(b, at);
    SwappedWord(b, at + 4);
  }

  lemma SwappedWord(b: seq<bv8>, at: nat)
    requires at + 4 <= |b|
    ensures Swap32(WordAt(b, at)) == ((b[at] as bv32) << 24) | ((b[at + 1] as bv32) << 16) | ((b[at + 2] as bv32) << 8) | (b[at + 3] as bv32)
  {
    SwappedBytes(b[at], b[at + 1], b[at + 2], b[at + 3]);
  }

  lemma SwappedBytes(b0: bv8, b1: bv8, b2: bv8, b3: bv8)
    ensures Swap32((b0 as bv32) | ((b1 as bv32) << 8) | ((b2 as bv32) << 16) | ((b3 as bv32) << 24)) ==
            ((b0 as bv32) << 24) | ((b1 as bv32) << 16) | ((b2 as bv32) << 8) | (b3 as bv32)
  {
  }

  function PlainBlock(src: seq<bv8>, i: nat): DESBlock {
    BlockAt(PlainBytes(src, i), 0)
  }

  function PlainBytes(src: seq<bv8>, i: nat): (r: seq<bv8>)
    ensures |r| == 8
  {
    [PlainByte(src, 8 * i), PlainByte(src, 8 * i + 1), PlainByte(src, 8 * i + 2), PlainByte(src, 8 * i + 3),
     PlainByte(src, 8 * i + 4), PlainByte(src, 8 * i + 5), PlainByte(src, 8 * i + 6), PlainByte(src, 8 * i + 7)]
  }

  /** The ciphertext block before block i, or the block that chaining starts with. */
  function Before(e: seq<bv8>, i: nat, last: DESBlock): DESBlock
    requires 8 * i <= |e|
  {
    if i == 0 then last else BlockAt(e, 8 * (i - 1))
  }

  lemma SameBlock(a: seq<bv8>, at: nat, b: seq<bv8>, from: nat)
    requires at + 8 <= |a| && from + 8 <= |b| && a[at..at + 8] == b[from..from + 8]
    ensures BlockAt(a, at) == BlockAt(b, from)
  {
    hide WordAt;
    assert a[at..at + 4] == a[at..at + 8][..4] && b[from..from + 4] == b[from..from + 8][..4];
    assert a[at + 4..at + 8] == a[at..at + 8][4..] && b[from + 4..from + 8] == b[from..from + 8][4..];
    SameWord(a, at, a[at..at + 4]);
    SameWord(b, from, a[at..at + 4]);
    SameWord(a, at + 4, a[at + 4..at + 8]);
    SameWord(b, from + 4, a[at + 4..at + 8]);
  }

  lemma FirstBlock(src: seq<bv8>)
    requires |src| >= 8
    ensures PlainBlock(src, 0) == BlockAt(src, 0)
  {
    assert PlainBytes(src, 0)[0..8] == src[0..8];
    SameBlock(PlainBytes(src, 0), 0, src, 0);
  }

  lemma FinalByte(src: seq<bv8>, k: nat)
    requires |src| < 8 && k < 8
    ensures PlainByte(src, k) == LastBytes(src)[k]
  {
  }

  lemma ListedByte(src: seq<bv8>, i: nat, k: nat)
    requires k < 8
    ensures PlainBytes(src, i)[k] == PlainByte(src, 8 * i + k)
  {
    hide PlainByte;
  }

  lemma LaterByte(src: seq<bv8>, i: nat, k: nat)
    requires |src| >= 8 && i > 0 && k < 8
    ensures PlainByte(src, 8 * i + k) == PlainByte(src[8..], 8 * (i - 1) + k)
  {
    hide Small;
    assert |src| % 8 == |src[8..]| % 8;
  }

  lemma FinalBlock(src: seq<bv8>)
    requires |src| < 8
    ensures PlainBlock(src, 0) == BlockAt(LastBytes(src), 0)
  {
    hide PlainByte, LastBytes, BlockAt;
    forall k: nat | k < 8
      ensures PlainBytes(src, 0)[k] == LastBytes(src)[k]
    {
      FinalByte(src, k);
      ListedByte(src, 0, k);
    }
    assert PlainBytes(src, 0) == LastBytes(src);
  }

  lemma LaterBlock(src: seq<bv8>, i: nat)
    requires |src| >= 8 && i > 0
    ensures PlainBlock(src, i) == PlainBlock(src[8..], i - 1)
  {
    hide PlainByte, BlockAt;
    forall k: nat | k < 8
      ensures PlainBytes(src, i)[k] == PlainBytes(src[8..], i - 1)[k]
    {
      LaterByte(src, i, k);
      ListedByte(src, i, k);
      ListedByte(src[8..], i - 1, k);
    }
    assert PlainBytes(src, i) == PlainBytes(src[8..], i - 1);
  }

  /** Block i of e is the cipher of block i of the message exclusive-or the block before. */
  predicate Chained(bx: Boxes, keys: Keys, src: seq<bv8>, e: seq<bv8>, i: nat, last: DESBlock)
    requires 8 * i + 8 <= |e|
  {
    BlockAt(e, 8 * i) == Crypt(bx, keys, XorBlock(PlainBlock(src, i), Before(e, i, last)))
  }

  /** The chaining equation, for every block of every message. */
  lemma CipherBlocks(bx: Boxes, keys: Keys, src: seq<bv8>, last: DESBlock, i: nat)
    requires i <= |src| / 8
    ensures var e := Encipher(bx, keys, src, last);
            && |e| == 8 * (|src| / 8 + 1)
            && var p, c := PlainBlock(src, i), Before(e, i, last);
               BlockAt(e, 8 * i) == Crypt(bx, keys, DESBlock(Xor(p.d0, c.d0), Xor(p.d1, c.d1)))
  {
    hide Crypt, BlockAt, Encipher, PlainBlock, Xor;
    EncipherLength(bx, keys, src, last);
    ChainedAll(bx, keys, src, last, i);
  }

  lemma {:induction false} ChainedAll(bx: Boxes, keys: Keys, src: seq<bv8>, last: DESBlock, i: nat)
    requires i <= |src| / 8
    ensures var e := Encipher(bx, keys, src, last);
            |e| == 8 * (|src| / 8 + 1) && Chained(bx, keys, src, e, i, last)
    decreases i
  {
    hide Crypt, BlockAt, BlockBytes, LastBytes, Encipher, PlainBlock, Chained, XorBlock;
    EncipherLength(bx, keys, src, last);
    if i == 0 {
      ChainedFirst(bx, keys, src, last);
    } else {
      var c := Crypt(bx, keys, XorBlock(BlockAt(src, 0), last));
      var rest := Encipher(bx, keys, src[8..], c);
      EncipherMore(bx, keys, src, last);
      EncipherLength(bx, keys, src[8..], c);
      ChainedAll(bx, keys, src[8..], c, i - 1);
      BlockOfBytes(c, rest);
      ChainedLater(bx, keys, src, BlockBytes(c), rest, i, c, last);
    }
  }

  lemma ChainedFirst(bx: Boxes, keys: Keys, src: seq<bv8>, last: DESBlock)
    ensures var e := Encipher(bx, keys, src, last); |e| >= 8 && Chained(bx, keys, src, e, 0, last)
  {
    hide Crypt, BlockAt, BlockBytes, LastBytes, Encipher, PlainBlock, XorBlock;
    var c := Crypt(bx, keys, XorBlock(PlainBlock(src, 0), last));
    if |src| < 8 {
      EncipherLast(bx, keys, src, last);
      FinalBlock(src);
      BlockOfBytes(c, []);
      assert BlockBytes(c) + [] == BlockBytes(c);
    } else {
      EncipherMore(bx, keys, src, last);
      FirstBlock(src);
      BlockOfBytes(c, Encipher(bx, keys, src[8..], c));
    }
  }

  lemma ChainedLater(bx: Boxes, keys: Keys, src: seq<bv8>, first: seq<bv8>, rest: seq<bv8>, i: nat, c: DESBlock, last: DESBlock)
    requires |first| == 8 && |src| >= 8 && i > 0 && 8 * i <= |rest| && BlockAt(first + rest, 0) == c
    requires Chained(bx, keys, src[8..], rest, i - 1, c)
    ensures Chained(bx, keys, src, first + rest, i, last)
  {
    hide Crypt, BlockAt, PlainBlock, XorBlock;
    LaterBlock(src, i);
    ShiftedBlock(first, rest, i);
    if i > 1 {
      ShiftedBlock(first, rest, i - 1);
    }
  }

  lemma ShiftedBlock(first: seq<bv8>, rest: seq<bv8>, i: nat)
    requires |first| == 8 && i > 0 && 8 * i <= |rest|
    ensures BlockAt(first + rest, 8 * i) == BlockAt(rest, 8 * (i - 1))
  {
    hide BlockAt;
    var e := first + rest;
    assert e[8 * i..8 * i + 8] == rest[8 * (i - 1)..8 * (i - 1) + 8];
    SameBlock(e, 8 * i, rest, 8 * (i - 1));
  }

  /** Block i of what whole blocks decipher to. */
  function ClearBlock(bx: Boxes, keys: Keys, buf: seq<bv8>, i: nat, last: DESBlock): DESBlock
    requires 8 * i + 8 <= |buf|
  {
    XorBlock(Crypt(bx, keys, BlockAt(buf, 8 * i)), Before(buf, i, last))
  }

  /** The blocks from n on of buf are those of a buffer that lacks the first block. */
  lemma ClearLater(bx: Boxes, keys: Keys, buf: seq<bv8>, i: nat, last: DESBlock)
    requires i > 0 && 8 * i + 8 <= |buf|
    ensures ClearBlock(bx, keys, buf, i, last) == ClearBlock(bx, keys, buf[8..], i - 1, BlockAt(buf, 0))
  {
    hide Crypt, BlockAt, XorBlock;
    assert buf == buf[..8] + buf[8..];
    ShiftedBlock(buf[..8], buf[8..], i);
    if i > 1 {
      ShiftedBlock(buf[..8], buf[8..], i - 1);
    }
  }

  /** What n + 1 whole blocks decipher to: n blocks and as many bytes of the last as its last byte says. */
  ghost predicate Cleared(bx: Boxes, keys: Keys, buf: seq<bv8>, n: nat, last: DESBlock, r: Option<seq<bv8>>)
    requires |buf| == 8 * n + 8
  {
    var end := BlockBytes(ClearBlock(bx, keys, buf, n, last));
    match r
    case None => end[7] > 7
    case Some(s) =>
      && end[7] <= 7 && |s| == 8 * n + end[7] as nat
      && (forall i :: 0 <= i < n ==> s[8 * i..8 * i + 8] == BlockBytes(ClearBlock(bx, keys, buf, i, last)))
      && s[8 * n..] == end[..end[7] as nat]
  }

  /** For any whole blocks, ciphertext or not: an error exactly when the last byte is above seven. */
  lemma {:induction false} DecipherBlocks(bx: Boxes, keys: Keys, buf: seq<bv8>, n: nat, last: DESBlock)
    requires |buf| == 8 * n + 8
    ensures Cleared(bx, keys, buf, n, last, Decipher(bx, keys, buf, last))
    decreases n
  {
    hide Crypt, BlockAt, BlockBytes, XorBlock, Decipher, ClearBlock, LastMessage;
    DecipherMore(bx, keys, buf, last);
    FirstClear(bx, keys, buf, last);
    var b := BlockBytes(ClearBlock(bx, keys, buf, 0, last));
    if n == 0 {
      EndClear(b);
    } else {
      var rest, c := buf[8..], BlockAt(buf, 0);
      DecipherBlocks(bx, keys, rest, n - 1, c);
      ClearedMore(bx, keys, buf, n, last, Decipher(bx, keys, rest, c));
    }
  }

  lemma FirstClear(bx: Boxes, keys: Keys, buf: seq<bv8>, last: DESBlock)
    requires |buf| >= 8
    ensures ClearBlock(bx, keys, buf, 0, last) == XorBlock(Crypt(bx, keys, BlockAt(buf, 0)), last)
  {
    hide Crypt, BlockAt, XorBlock;
  }

  lemma EndClear(b: seq<bv8>)
    requires |b| == 8
    ensures LastMessage(b) == None <==> b[7] > 7
    ensures LastMessage(b) != None ==> b[7] as nat <= 7 && LastMessage(b).value == b[..b[7] as nat]
  {
  }

  lemma ClearedMore(bx: Boxes, keys: Keys, buf: seq<bv8>, n: nat, last: DESBlock, r: Option<seq<bv8>>)
    requires n > 0 && |buf| == 8 * n + 8 && Cleared(bx, keys, buf[8..], n - 1, BlockAt(buf, 0), r)
    ensures Cleared(bx, keys, buf, n, last, Prepend(BlockBytes(ClearBlock(bx, keys, buf, 0, last)), r))
  {
    hide Crypt, BlockAt, BlockBytes, ClearBlock;
    ClearLater(bx, keys, buf, n, last);
    if r.Some? {
      var b := BlockBytes(ClearBlock(bx, keys, buf, 0, last));
      var s := b + r.value;
      assert s[8 * n..] == r.value[8 * (n - 1)..];
      forall i | 0 <= i < n
        ensures s[8 * i..8 * i + 8] == BlockBytes(ClearBlock(bx, keys, buf, i, last))
      {
        if i > 0 {
          ClearLater(bx, keys, buf, i, last);
          assert s[8 * i..8 * i + 8] == r.value[8 * (i - 1)..8 * (i - 1) + 8];
        } else {
          assert s[..8] == b;
        }
      }
    }
  }
}
