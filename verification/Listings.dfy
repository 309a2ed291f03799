/** The bytes of two small forms, worked out in full. */
module Listings {
  import opened Words
  import opened X86
  import opened Runtime
  import opened Machine
  import opened Lisp
  import opened CodeGen
  import opened Encoding
  import opened Assembler
  import opened Opcodes

  lemma Concatenated(a: Code, b: Code, c: Code, d: Code)
    ensures BytesOf(a + b + c + d) == BytesOf(a) + BytesOf(b) + BytesOf(c) + BytesOf(d)
  {
    hide BytesOf;
    BytesConcat(a + b + c, d);
    BytesConcat(a + b, c);
    BytesConcat(a, b);
  }

  lemma BytesFirst(it: Item, rest: Code)
    ensures BytesOf([it] + rest) == Encode(InstrOf(it)) + BytesOf(rest)
  {
    hide Encode;
    assert ([it] + rest)[1..] == rest;
  }

  lemma TestedSum(rt: Runtime)
    ensures BytesOf(ArithTail(rt, Plus, true, false)) == [0xa8, 0x07, 0x75, 0x06, 0x03, 0xc2, 0x71, 0x08, 0x2b, 0xc2] + ([0xff, 0x96] + Long(rt.slot(GenericPlus)))
  {
    hide Encode, BytesOf, Long;
    var call := CallRoutine(rt, GenericPlus);
    var c5 := [Plain(SubEaxEdx)] + [call];
    var c4 := [Plain(Jcc8(NO, 8))] + c5;
    var c3 := [Plain(AddEaxEdx)] + c4;
    var c2 := [Plain(Jcc8(NE, 6))] + c3;
    assert ArithTail(rt, Plus, true, false) == [Plain(TestAl(7))] + c2;
    BytesFirst(Plain(TestAl(7)), c2);
    BytesFirst(Plain(Jcc8(NE, 6)), c3);
    BytesFirst(Plain(AddEaxEdx), c4);
    BytesFirst(Plain(Jcc8(NO, 8)), c5);
    BytesFirst(Plain(SubEaxEdx), [call]);
    OneItem(call);
    TestBytes();
    ShortBranchBytes(6);
    ShortBranchBytes(8);
    ArithmeticBytes();
    LongBranchBytes(rt.slot(GenericPlus));
  }

  lemma SumCode(rt: Runtime, n: Name, d: int, w: Word, si: int, env: int, check: bool)
    requires w != 0 && w % 8 == 0
    ensures Gen(rt, ArithCall(Plus, Var(n), Lit(w)), ToEax, Context([LetRec(n, -d)], si, env, check)) ==
            [Plain(Load(EAX, EBP, -d))] + [Plain(MovImm(EDX, w))] + ArithTail(rt, Plus, true, false) + [Plain(MovImm(ECX, 1))]
  {
    hide ArithTail;
    var x, cx := ArithCall(Plus, Var(n), Lit(w)), Context([LetRec(n, -d)], si, env, check);
    assert GenVar(rt, n, ToOperand, cx) == [Plain(Load(EAX, EBP, -d))];
    assert Gen2(rt, x, x.arg1, x.arg2, cx) == [Plain(Load(EAX, EBP, -d))] + [Plain(MovImm(EDX, w))];
    assert CallTail(rt, x, ToEax, check) == ArithTail(rt, Plus, true, false) + [Plain(MovImm(ECX, 1))];
  }

  /**
   The sum of a variable and a fixnum literal: the variable from its slot, the literal in EDX, one tag
   test for the variable alone, the sum with its overflow check, and the generic routine.
   */
  lemma SumListing(rt: Runtime, n: Name, d: int, w: Word, si: int, env: int, check: bool)
    requires 0 < d <= 128 && w != 0 && w % 8 == 0
    ensures BytesOf(Gen(rt, ArithCall(Plus, Var(n), Lit(w)), ToEax, Context([LetRec(n, -d)], si, env, check))) ==
            [0x8b, 0x45, 0x100 - d] + ([0xba] + LE32(w))
            + ([0xa8, 0x07, 0x75, 0x06, 0x03, 0xc2, 0x71, 0x08, 0x2b, 0xc2] + ([0xff, 0x96] + Long(rt.slot(GenericPlus)))) + ([0xb9] + LE32(1))
  {
    hide LE32, Long, Encode, BytesOf, Gen, ArithTail;
    SumCode(rt, n, d, w, si, env, check);
    Concatenated([Plain(Load(EAX, EBP, -d))], [Plain(MovImm(EDX, w))], ArithTail(rt, Plus, true, false), [Plain(MovImm(ECX, 1))]);
    TestedSum(rt);
    OneItem(Plain(Load(EAX, EBP, -d)));
    OneItem(Plain(MovImm(EDX, w)));
    OneItem(Plain(MovImm(ECX, 1)));
    NearBytes(d);
    ConstantBytes(w);
    ConstantBytes(1);
  }

  lemma UntestedEqual(rt: Runtime)
    ensures BytesOf(PredicateTail(rt, GenericEqual, NE, false, false)) == [0x3b, 0xc2, 0x8b, 0x06, 0x75, 0x05, 0x8b, 0x46, 0x04, 0xeb, 0x00]
  {
    hide Encode, BytesOf;
    var c4 := [LoadT()] + [Plain(Jmp8(0))];
    var c3 := [Plain(Jcc8(NE, 5))] + c4;
    var c2 := [LoadNil()] + c3;
    assert PredicateTail(rt, GenericEqual, NE, false, false) == [Plain(CmpEaxEdx)] + c2;
    BytesFirst(Plain(CmpEaxEdx), c2);
    BytesFirst(LoadNil(), c3);
    BytesFirst(Plain(Jcc8(NE, 5)), c4);
    BytesFirst(LoadT(), [Plain(Jmp8(0))]);
    OneItem(Plain(Jmp8(0)));
    ArithmeticBytes();
    CellBytes();
    ShortBranchBytes(5);
    MoreBranchBytes(0);
  }

  lemma EqualCode(rt: Runtime, w: Word, v: Word, cx: Context)
    requires w != 0 && w % 8 == 0 && v != 0 && v % 8 == 0
    ensures Gen(rt, NumEqual(Lit(w), Lit(v)), ToEax, cx) ==
            ([Plain(MovImm(EAX, w))] + [Plain(Mov(EDX, EAX))]) + [Plain(MovImm(EAX, v))]
            + PredicateTail(rt, GenericEqual, NE, false, false) + [Plain(MovImm(ECX, 1))]
  {
    hide PredicateTail;
    var x := NumEqual(Lit(w), Lit(v));
    assert Gen(rt, x.arg1, ToOperand, cx) == [Plain(MovImm(EAX, w))];
    assert Gen(rt, x.arg2, ToOperand, Next(cx, x.arg1, ToOperand)) == [Plain(MovImm(EAX, v))];
    assert Gen2(rt, x, x.arg1, x.arg2, cx) == ([Plain(MovImm(EAX, w))] + [Plain(Mov(EDX, EAX))]) + [Plain(MovImm(EAX, v))];
    assert CallTail(rt, x, ToEax, cx.check) == PredicateTail(rt, GenericEqual, NE, false, false) + [Plain(MovImm(ECX, 1))];
  }

  /** Two literals compared: both stay in registers, neither is tested, and no generic call is left. */
  lemma EqualListing(rt: Runtime, w: Word, v: Word, cx: Context)
    requires w != 0 && w % 8 == 0 && v != 0 && v % 8 == 0
    ensures BytesOf(Gen(rt, NumEqual(Lit(w), Lit(v)), ToEax, cx)) ==
            ([0xb8] + LE32(w)) + [0x8b, 0xd0] + ([0xb8] + LE32(v))
            + [0x3b, 0xc2, 0x8b, 0x06, 0x75, 0x05, 0x8b, 0x46, 0x04, 0xeb, 0x00] + ([0xb9] + LE32(1))
  {
    hide LE32, Encode, BytesOf, Gen, PredicateTail;
    EqualCode(rt, w, v, cx);
    var a, b := [Plain(MovImm(EAX, w))], [Plain(Mov(EDX, EAX))];
    Concatenated(a + b, [Plain(MovImm(EAX, v))], PredicateTail(rt, GenericEqual, NE, false, false), [Plain(MovImm(ECX, 1))]);
    BytesConcat(a, b);
    UntestedEqual(rt);
    OneItem(Plain(MovImm(EAX, w)));
    OneItem(Plain(Mov(EDX, EAX)));
    OneItem(Plain(MovImm(EAX, v)));
    OneItem(Plain(MovImm(ECX, 1)));
    RegisterBytes();
    ConstantBytes(w);
    ConstantBytes(v);
    ConstantBytes(1);
  }

  /** Which operands get a tag test: a literal never, a variable always, a form typed FIXNUM when types are checked. */
  lemma TestedOperands(n: Name, w: Word, check: bool)
    requires w % 8 == 0
    ensures !NeedsTest(Lit(w), check) && NeedsTest(Var(n), check) && NeedsTest(Lit(w + 1), check)
    ensures NeedsTest(Progn(Forms(Lit(w), NoForms)), check) <==> check
    ensures NeedsTest(Setq(Binds(n, Lit(w), NoBinds)), check) <==> check
    ensures NeedsTest(LetStar(Bind(n, Var(n), Body(Forms(Lit(w), NoForms)))), check) <==> check
    ensures NeedsTest(ReturnFrom(n, Lit(w)), check) <==> check
  {
    assert TypedFixnum(Lit(w));
    assert TypedFixnumForms(Forms(Lit(w), NoForms));
    assert TypedFixnumBinds(Binds(n, Lit(w), NoBinds));
    assert TypedFixnumChain(Body(Forms(Lit(w), NoForms)));
    assert TypedFixnumChain(Bind(n, Var(n), Body(Forms(Lit(w), NoForms))));
  }
}
