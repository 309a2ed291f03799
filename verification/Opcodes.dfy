/** The bytes of each assembler macro that generated code uses, as a table. */
module Opcodes {
  import opened Words
  import opened X86

  lemma StackBytes()
    ensures Encode(Push(EAX)) == [0x50] && Encode(Push(EDX)) == [0x52] && Encode(Push(EBP)) == [0x55] && Encode(Push(EDI)) == [0x57]
    ensures Encode(Pop(EAX)) == [0x58] && Encode(Pop(EDX)) == [0x5a] && Encode(Pop(EBP)) == [0x5d] && Encode(Ret) == [0xc3]
  {
  }

  lemma RegisterBytes()
    ensures Encode(Mov(EDX, EAX)) == [0x8b, 0xd0] && Encode(Mov(EBP, ESP)) == [0x8b, 0xec] && Encode(Mov(ESP, EBP)) == [0x8b, 0xe5]
    ensures Encode(XorSelf(EAX)) == [0x33, 0xc0] && Encode(XorSelf(EDX)) == [0x33, 0xd2]
  {
  }

  lemma ConstantBytes(w: Word)
    ensures Encode(MovImm(EAX, w)) == [0xb8] + LE32(w) && Encode(MovImm(ECX, w)) == [0xb9] + LE32(w) && Encode(MovImm(EDX, w)) == [0xba] + LE32(w)
    ensures Encode(PushImm(w)) == [0x68] + LE32(w) && Encode(CmpImm(w)) == [0x3d] + LE32(w)
  {
    hide LE32;
  }

  lemma ArithmeticBytes()
    ensures Encode(AddEaxEdx) == [0x03, 0xc2] && Encode(SubEaxEdx) == [0x2b, 0xc2] && Encode(CmpEaxEdx) == [0x3b, 0xc2] && Encode(DecEdx) == [0x4a]
  {
  }

  lemma TestBytes()
    ensures Encode(TestAl(7)) == [0xa8, 0x07] && Encode(TestDl(7)) == [0xf6, 0xc2, 0x07]
    ensures Encode(CmpMem(ESI, 0)) == [0x3b, 0x06] && Encode(CmpMem(ESI, 4)) == [0x3b, 0x46, 0x04]
  {
  }

  /** The constants at ESI and the values of binding cells. */
  lemma CellBytes()
    ensures Encode(Load(EAX, ESI, 0)) == [0x8b, 0x06] && Encode(Load(EAX, ESI, 4)) == [0x8b, 0x46, 0x04] && Encode(PushMem(ESI, 0)) == [0xff, 0x36] && Encode(Load(EDI, ESI, 0)) == [0x8b, 0x3e]
    ensures Encode(Load(EAX, EAX, -4)) == [0x8b, 0x40, 0xfc] && Encode(Store(EDI, -4)) == [0x89, 0x47, 0xfc]
  {
  }

  /** Frame slots near EBP. */
  lemma NearBytes(d: int)
    requires 0 < d <= 128
    ensures Encode(Load(EAX, EBP, -d)) == [0x8b, 0x45, 0x100 - d] && Encode(Store(EBP, -d)) == [0x89, 0x45, 0x100 - d] && Encode(PushMem(EBP, -d)) == [0xff, 0x75, 0x100 - d]
  {
    hide Long;
  }

  /** Frame slots further away, and table entries. */
  lemma FarBytes(d: int)
    requires d < -128 || 127 < d
    ensures Encode(Load(EAX, EBP, d)) == [0x8b, 0x85] + Long(d) && Encode(Store(EBP, d)) == [0x89, 0x85] + Long(d)
  {
    hide Long;
  }

  lemma FarPushBytes(d: int)
    requires d < -128 || 127 < d
    ensures Encode(PushMem(EBP, d)) == [0xff, 0xb5] + Long(d) && Encode(AddEsp(d)) == [0x81, 0xc4] + Long(d)
  {
    hide Long;
  }

  lemma TableBytes(d: int)
    requires d < -128 || 127 < d
    ensures Encode(Load(EAX, ESI, d)) == [0x8b, 0x86] + Long(d) && Encode(Load(EDI, ESI, d)) == [0x8b, 0xbe] + Long(d)
  {
    hide Long;
  }

  lemma ShortBranchBytes(d: Byte)
    requires d < 0x80
    ensures Encode(Jcc8(NO, d)) == [0x71, d] && Encode(Jcc8(NE, d)) == [0x75, d] && Encode(Jcc8(E, d)) == [0x74, d] && Encode(Jcc8(L, d)) == [0x7c, d]
  {
  }

  lemma MoreBranchBytes(d: Byte)
    requires d < 0x80
    ensures Encode(Jcc8(GE, d)) == [0x7d, d] && Encode(Jcc8(LE, d)) == [0x7e, d] && Encode(Jcc8(G, d)) == [0x7f, d] && Encode(Jmp8(d)) == [0xeb, d]
  {
  }

  lemma SmallBytes(d: Byte)
    requires d < 0x80
    ensures Encode(AddEsp(d)) == [0x83, 0xc4, d] && Encode(Jcc8(G, -4)) == [0x7f, 0xfc]
  {
    hide Long;
  }

  lemma LongBranchBytes(n: int)
    ensures Encode(Jcc32(E, n)) == [0x0f, 0x84] + Long(n) && Encode(Jcc32(NE, n)) == [0x0f, 0x85] + Long(n)
    ensures Encode(Jmp32(n)) == [0xe9] + Long(n) && Encode(Call(n)) == [0xff, 0x96] + Long(n)
  {
    hide Long;
  }

  /** Four bytes stand for a number of twenty-nine bits, the least significant one first. */
  lemma LongBytes(n: int, b0: Byte, b1: Byte, b2: Byte, b3: Byte)
    requires InFixnumRange(n)
    ensures Long(n) == [b0, b1, b2, b3] <==>
            var w: int := b0 + 0x100 * b1 + 0x1_0000 * b2 + 0x100_0000 * b3; n == if b3 < 0x80 then w else w - 0x1_0000_0000
  {
    hide LE32, Wrap32;
    Trunc29Exact(n);
    var w := FromLE(b0, b1, b2, b3);
    LEBytes(b0, b1, b2, b3);
    FromLE32(Wrap32(n));
    SignedWrap32(n);
    Unsigned(n, w);
  }

  lemma Unsigned(n: int, w: Word)
    requires -0x8000_0000 <= n < 0x8000_0000
    ensures Wrap32(n) == w <==> n == Signed(w)
  {
  }
}
