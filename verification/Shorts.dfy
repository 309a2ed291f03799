/** The short branches of the arithmetic templates, emitted as zero and patched once their target is reached. */
module Shorts {
  import opened Words
  import opened X86
  import opened Runtime
  import opened Machine
  import opened Lisp
  import opened CodeGen
  import opened Tails
  import opened Predicates
  import opened Calls
  import opened Parts
  import opened Encoding
  import opened Assembler
  import opened Patching
  import opened Stages

  function PlainAll(list: seq<Instr>): (c: Code)
    ensures |c| == |list|
  {
    seq(|list|, i requires 0 <= i < |list| => Plain(list[i]))
  }

  function EffectOf(list: seq<Instr>): int {
    if list == [] then 0 else EffectOf(list[..|list| - 1]) + StackEffect(list[|list| - 1])
  }

  lemma PlainSnoc(list: seq<Instr>, k: nat)
    requires k < |list|
    ensures PlainAll(list[..k + 1]) == PlainAll(list[..k]) + [Plain(list[k])]
    ensures EffectOf(list[..k + 1]) == EffectOf(list[..k]) + StackEffect(list[k])
  {
    assert list[..k + 1][..k] == list[..k];
  }

  /** A tag test whose branch is patched to reach over b. */
  lemma TestPatched(p: Progress, a: Code, t: Instr, b: Code, q: Progress, addr: int, d: int)
    requires t == TestAl(7) || t == TestDl(7)
    requires Grew(p, a + TagTest(true, t, 0) + b, q)
    requires addr == |p.code| + Size(a) + Size(TagTest(true, t, 0))
    ensures 1 <= addr <= |q.code|
    ensures Grew(p, a + TagTest(true, t, d) + b, q.(code := Patched(q.code, addr - 1, [Byte8(d)])))
  {
    hide Emitted, Encode, Size, Patched, Len, Byte8;
    var test, j0, j := Plain(t), Plain(Jcc8(NE, 0)), Plain(Jcc8(NE, d));
    assert a + TagTest(true, t, 0) + b == a + [test] + [j0] + b;
    assert a + TagTest(true, t, d) + b == a + [test] + [j] + b;
    assert TagTest(true, t, 0) == [test, j0];
    SizePair(test, j0);
    SizeConcat(a, [test]);
    OneItem(test);
    BranchLens(NE, 0);
    BranchLens(NE, d);
    GrewContext(p, a + [test] + [j0] + b, q, true);
    SizeConcat(a + [test], [j0]);
    SizeConcat(a + [test] + [j0], b);
    OneItem(j0);
    ShortDisplacement(NE, d);
    PatchedAs(p, a + [test], j0, j, b, q, addr - 1, q.(code := Patched(q.code, addr - 1, [Byte8(d)])));
  }

  lemma ShortDisplacement(cc: Cond, d: int)
    ensures Displacement(Plain(Jcc8(cc, d))) == [Byte8(d)] && Displacement(Plain(Jmp8(d))) == [Byte8(d)]
    ensures SameBranch(Plain(Jcc8(cc, 0)), Plain(Jcc8(cc, d))) && SameBranch(Plain(Jmp8(0)), Plain(Jmp8(d)))
  {
  }

  lemma TestSizes(needed: bool, t: Instr, d: int)
    requires t == TestAl(7) || t == TestDl(7)
    ensures Size(TagTest(needed, t, d)) == if !needed then 0 else if t.TestAl? then 4 else 5
  {
    hide Encode;
    if needed {
      SizePair(Plain(t), Plain(Jcc8(NE, d)));
      TestLens(t, d);
    }
  }

  lemma TestLens(t: Instr, d: int)
    requires t == TestAl(7) || t == TestDl(7)
    ensures Len(Plain(t)) == (if t.TestAl? then 2 else 3) && Len(Plain(Jcc8(NE, d))) == 2
  {
  }

  /** The instructions between a comparison and its result. */
  function Middle(cc: Cond, d: int, jump: bool, d2: int): Code {
    [Plain(CmpEaxEdx), LoadNil(), Plain(Jcc8(cc, d)), LoadT()] + (if jump then [Plain(Jmp8(d2))] else [])
  }

  lemma MiddleSize(cc: Cond, d: int, jump: bool, d2: int)
    ensures Size(Middle(cc, d, jump, d2)) == if jump then 11 else 9
    ensures Size([Plain(CmpEaxEdx), LoadNil()]) == 4 && Size([LoadT()]) == 3 && Size([Plain(Jmp8(d2))]) == 2
  {
    hide Encode;
    var front := [Plain(CmpEaxEdx)] + SelectCode(cc, d);
    SelectSize(CmpEaxEdx, cc, d);
    MiddleLens(d2);
    OneItem(Plain(Jmp8(d2)));
    OneItem(LoadT());
    SizePair(Plain(CmpEaxEdx), LoadNil());
    SizeConcat(front, if jump then [Plain(Jmp8(d2))] else []);
    assert Middle(cc, d, jump, d2) == front + (if jump then [Plain(Jmp8(d2))] else []);
  }

  lemma MiddleLens(d2: int)
    ensures Len(Plain(CmpEaxEdx)) == 2 && Len(LoadNil()) == 2 && Len(LoadT()) == 3 && Len(Plain(Jmp8(d2))) == 2
  {
  }

  lemma NoneYet(list: seq<Instr>)
    ensures PlainAll(list[..0]) == [] && EffectOf(list[..0]) == 0
  {
  }

  lemma PairEffect(t: Instr)
    requires t == TestAl(7) || t == TestDl(7)
    ensures EffectOf([t, Jcc8(NE, 0)]) == 0
  {
    var list := [t, Jcc8(NE, 0)];
    assert list[..1] == [t] && [t][..0] == [];
    assert EffectOf([t]) == 0;
  }

  lemma SizeOfNothing()
    ensures Size([]) == 0
  {
  }

  lemma ShortLens(it: Item, settled: Item)
    requires SameBranch(it, settled) && (it.ins.Jcc8? || it.ins.Jmp8?)
    ensures Len(it) == 2 && Len(settled) == 2 && Displacement(settled) == [Byte8(settled.ins.disp)]
  {
  }

  lemma ArithStart(fn: Arith)
    ensures var (op, undo, r) := ArithParts(fn);
            && PlainAll([op, Jcc8(NO, 0)]) == [Plain(op), Plain(Jcc8(NO, 0))] && EffectOf([op, Jcc8(NO, 0)]) == 0
            && StackEffect(undo) == 0
  {
    var (op, undo, r) := ArithParts(fn);
    var list := [op, Jcc8(NO, 0)];
    assert list[..1] == [op] && [op][..0] == [];
    assert EffectOf([op]) == 0;
  }

  lemma ArithSizes(rt: Runtime, fn: Arith, al: bool, dl: bool)
    ensures var (op, undo, r) := ArithParts(fn);
            && Size([Plain(op), Plain(Jcc8(NO, 0))]) == 4
            && Size([Plain(op), Plain(Jcc8(NO, 0)), Plain(undo)]) == 6
            && Size([Plain(undo), CallRoutine(rt, r)]) == 8
    ensures Size(TagTests(al, dl, 6) + [Plain(ArithParts(fn).0)]) == Size(TagTest(al, TestAl(7), 0)) + Size(TagTest(dl, TestDl(7), 0)) + 2
  {
    hide Encode, Size, TagTest;
    var (op, undo, r) := ArithParts(fn);
    ArithLens(rt, fn);
    SizePair(Plain(op), Plain(Jcc8(NO, 0)));
    SizePair(Plain(undo), CallRoutine(rt, r));
    SizeConcat([Plain(op), Plain(Jcc8(NO, 0))], [Plain(undo)]);
    assert [Plain(op), Plain(Jcc8(NO, 0))] + [Plain(undo)] == [Plain(op), Plain(Jcc8(NO, 0)), Plain(undo)];
    OneItem(Plain(undo));
    OneItem(Plain(op));
    SizeConcat(TagTests(al, dl, 6), [Plain(op)]);
    SizeConcat(TagTest(al, TestAl(7), 6 + (if dl then 5 else 0)), TagTest(dl, TestDl(7), 6));
    TestSizes(al, TestAl(7), 0);
    TestSizes(al, TestAl(7), 6 + (if dl then 5 else 0));
    TestSizes(dl, TestDl(7), 0);
    TestSizes(dl, TestDl(7), 6);
  }

  lemma ArithLens(rt: Runtime, fn: Arith)
    ensures var (op, undo, r) := ArithParts(fn);
            Len(Plain(op)) == 2 && Len(Plain(undo)) == 2 && Len(Plain(Jcc8(NO, 0))) == 2 && Len(CallRoutine(rt, r)) == 6
  {
  }

  lemma PushesEffect()
    ensures EffectOf([Push(EDX), Push(EAX), Load(EDI, ESI, 0), MovImm(ECX, 2)]) == 8
  {
    var list := [Push(EDX), Push(EAX), Load(EDI, ESI, 0), MovImm(ECX, 2)];
    assert list[..3][..2] == list[..2] && list[..2][..1] == list[..1] && list[..1][..0] == [];
    assert EffectOf(list[..1]) == 4;
    assert EffectOf(list[..2]) == 8;
    assert EffectOf(list[..3]) == 8;
  }

  lemma MiddleEffect(cc: Cond)
    ensures EffectOf([CmpEaxEdx, Load(EAX, ESI, 0), Jcc8(cc, 0)]) == 0
  {
    SelectEffect(CmpEaxEdx);
    var list := [CmpEaxEdx, Load(EAX, ESI, 0), Jcc8(cc, 0)];
    assert list[..2][..1] == list[..1] && list[..1][..0] == [];
    assert EffectOf(list[..1]) == 0;
    assert EffectOf(list[..2]) == 0;
  }

  lemma SelectEffect(cmp: Instr)
    requires cmp == CmpEaxEdx || cmp == CmpMem(ESI, 0)
    ensures EffectOf([cmp, Load(EAX, ESI, 0), Jcc8(NE, 0)]) == 0
  {
    var list := [cmp, Load(EAX, ESI, 0), Jcc8(NE, 0)];
    assert list[..2][..1] == list[..1] && list[..1][..0] == [];
    assert EffectOf(list[..1]) == 0;
    assert EffectOf(list[..2]) == 0;
  }

  lemma TestsSize(al: bool, dl: bool, d: int)
    ensures Size(TagTests(al, dl, d)) == Size(TagTest(al, TestAl(7), 0)) + Size(TagTest(dl, TestDl(7), 0))
  {
    hide Encode, Size, TagTest;
    SizeConcat(TagTest(al, TestAl(7), d + (if dl then 5 else 0)), TagTest(dl, TestDl(7), d));
    TestSizes(al, TestAl(7), 0);
    TestSizes(al, TestAl(7), d + (if dl then 5 else 0));
    TestSizes(dl, TestDl(7), 0);
    TestSizes(dl, TestDl(7), d);
  }

  lemma NoTests(c: Code)
    ensures TagTest(false, TestAl(7), 0) + TagTest(false, TestDl(7), 0) + c == c && [] + c + [] == c && Size([]) == 0
    ensures Size(TagTest(false, TestAl(7), 0)) == 0 && Size(TagTest(false, TestDl(7), 0)) == 0
  {
    assert TagTest(false, TestAl(7), 0) == [] && TagTest(false, TestDl(7), 0) == [];
  }

  lemma MiddleTail(jump: bool, rest: Code)
    ensures Size([LoadT()] + (if jump then [Plain(Jmp8(0))] else []) + rest) == (if jump then 5 else 3) + Size(rest)
  {
    hide Encode, Size;
    var j := if jump then [Plain(Jmp8(0))] else [];
    MiddleSize(E, 0, jump, 0);
    SizeOfNothing();
    SizeConcat([LoadT()], j);
    SizeConcat([LoadT()] + j, rest);
  }

  lemma MiddleFront(a: Code, cc: Cond, d: int)
    ensures Size(a + [Plain(CmpEaxEdx), LoadNil()] + [Plain(Jcc8(cc, d))] + [LoadT()]) == Size(a) + 9
  {
    hide Encode, Size;
    var m := Middle(cc, d, false, 0);
    assert a + [Plain(CmpEaxEdx), LoadNil()] + [Plain(Jcc8(cc, d))] + [LoadT()] == a + m;
    SizeConcat(a, m);
    MiddleSize(cc, d, false, 0);
  }

  lemma MiddleFrontSize(cc: Cond)
    ensures Size([Plain(CmpEaxEdx), LoadNil(), Plain(Jcc8(cc, 0))]) == 6
  {
    hide Encode, Size;
    MiddleSize(cc, 0, false, 0);
    SizeConcat([Plain(CmpEaxEdx), LoadNil(), Plain(Jcc8(cc, 0))], [LoadT()]);
    assert [Plain(CmpEaxEdx), LoadNil(), Plain(Jcc8(cc, 0))] + [LoadT()] == Middle(cc, 0, false, 0);
  }

  lemma FlagSizes(al: bool, dl: bool)
    ensures Size([Plain(CmpEaxEdx), Plain(Jmp8(0))]) == 4
    ensures Size(TagTests(al, dl, 4)) == Size(TagTest(al, TestAl(7), 0)) + Size(TagTest(dl, TestDl(7), 0))
  {
    hide Encode;
    MiddleLens(0);
    SizePair(Plain(CmpEaxEdx), Plain(Jmp8(0)));
    TestsSize(al, dl, 4);
  }

  lemma FlagRest(rt: Runtime, tests: Code)
    ensures Size(PredicateCall(rt, GenericEqual) + [Plain(CmpMem(ESI, 4))]) == 21
    ensures Size(tests + [Plain(CmpEaxEdx)]) == Size(tests) + 2
  {
    hide Encode, Size, PredicateCall;
    CallLengths(rt, GenericEqual);
    SelectLengths(E, 0);
    OneItem(Plain(CmpMem(ESI, 4)));
    OneItem(Plain(CmpEaxEdx));
    SizeConcat(PredicateCall(rt, GenericEqual), [Plain(CmpMem(ESI, 4))]);
    SizeConcat(tests, [Plain(CmpEaxEdx)]);
  }

  lemma UntestedMiddle(rt: Runtime, r: Routine, cc: Cond)
    ensures var jump := r.GenericEqual?;
            [] + Middle(cc, if jump then 5 else 3, jump, 0) + [] == PredicateTail(rt, r, cc, false, false)
  {
  }

  // ----- arguments -----

  ghost predicate ArgsDone(rt: Runtime, check: bool, p: Progress, x: Form, q: Progress)
    requires IsCall(x)
  {
    var cx := ContextOf(p, check);
    && q == Emitted(p, Gen2(rt, x, x.arg1, x.arg2, cx), q.si, q.env)
    && q.si == p.si - 4 * (Count(x.arg1, Arg1Dest(x), StackGo) + Count(x.arg2, ToOperand, StackGo))
    && q.env == p.env + 4 * (Slots(x.arg1) + Slots(x.arg2))
  }

  lemma LiteralAccepts(rt: Runtime, x: Form, cx: Context)
    requires IsCall(x) && x.ArithCall? && x.fn.Plus? && IsFixnumLiteral(x.arg2)
    ensures Arg1Dest(x) == ToOperand && Accepts(rt, x.arg2, ToOperand, Next(cx, x.arg1, Arg1Dest(x))) && TypedFixnum(x.arg2)
  {
    hide Next;
  }

  lemma MovObjEffect(r: Reg, w: Word)
    ensures StackEffect(MovObj(r, w)) == 0
  {
  }

  lemma LiteralArgs(rt: Runtime, check: bool, p: Progress, x: Form, q: Progress, r: Progress)
    requires IsCall(x) && x.ArithCall? && x.fn.Plus? && IsFixnumLiteral(x.arg2)
    requires FormDone(rt, check, p, x.arg1, ToOperand, q) && r == Emitted(q, [Plain(MovObj(EDX, x.arg2.w))], q.si, q.env)
    ensures ArgsDone(rt, check, p, x, r)
  {
    hide Emitted, Gen, Gen2, ContextOf, MovObj, Size, Count, Slots, Accepts;
    RegisterCode(rt, x, ContextOf(p, check));
    LiteralCounts(x.arg2);
    FormGrew(rt, check, p, x.arg1, ToOperand, q);
    Grow(p, Gen(rt, x.arg1, ToOperand, ContextOf(p, check)), q, [Plain(MovObj(EDX, x.arg2.w))], r, check);
  }

  lemma LiteralCounts(x: Form)
    requires x.Lit?
    ensures Count(x, ToOperand, StackGo) == 0 && Slots(x) == 0
  {
  }

  lemma RegisterCode(rt: Runtime, x: Form, cx: Context)
    requires IsCall(x) && Arg1Dest(x) == ToOperand
    ensures var g1, g2 := Gen(rt, x.arg1, ToOperand, cx), Gen(rt, x.arg2, ToOperand, Next(cx, x.arg1, ToOperand));
            && (x.ArithCall? ==> IsFixnumLiteral(x.arg2))
            && Gen2(rt, x, x.arg1, x.arg2, cx) == if x.ArithCall? then g1 + [Plain(MovObj(EDX, x.arg2.w))] else g1 + [Plain(Mov(EDX, EAX))] + g2
  {
    hide Gen, Next, MovObj;
  }

  lemma MovedContext(rt: Runtime, check: bool, p: Progress, x: Form, q: Progress, r: Progress)
    requires IsCall(x) && FormDone(rt, check, p, x.arg1, ToOperand, q) && r == Emitted(q, [Plain(Mov(EDX, EAX))], q.si, q.env)
    ensures ContextOf(r, check) == Next(ContextOf(p, check), x.arg1, ToOperand)
  {
    hide Emitted, Gen, ContextOf, Size, Slots, Count;
    SameRecsAfter(rt, check, p, x.arg1, ToOperand, q);
    GrewIs(q, [Plain(Mov(EDX, EAX))], r);
    GrewContext(q, [Plain(Mov(EDX, EAX))], r, check);
  }

  lemma SimpleArgs(rt: Runtime, check: bool, p: Progress, x: Form, q: Progress, r: Progress, s: Progress)
    requires IsCall(x) && !x.ArithCall? && Arg1Dest(x) == ToOperand
    requires FormDone(rt, check, p, x.arg1, ToOperand, q) && r == Emitted(q, [Plain(Mov(EDX, EAX))], q.si, q.env)
    requires FormDone(rt, check, r, x.arg2, ToOperand, s)
    ensures ArgsDone(rt, check, p, x, s)
  {
    hide Emitted, Gen, ContextOf, Size, Slots, Count;
    RegisterCode(rt, x, ContextOf(p, check));
    MovedContext(rt, check, p, x, q, r);
    FormGrew(rt, check, p, x.arg1, ToOperand, q);
    var g := Gen(rt, x.arg1, ToOperand, ContextOf(p, check));
    Grow(p, g, q, [Plain(Mov(EDX, EAX))], r, check);
    GrowForm(rt, check, p, g + [Plain(Mov(EDX, EAX))], r, x.arg2, ToOperand, s);
  }

  lemma CollectEffect(x: Form)
    requires IsCall(x)
    ensures x.ArithCall? && x.fn.Minus? ==> PlainAll([Mov(EDX, EAX), Pop(EAX)]) == Collect(x) && EffectOf([Mov(EDX, EAX), Pop(EAX)]) == -4
    ensures !(x.ArithCall? && x.fn.Minus?) ==> PlainAll([Pop(EDX)]) == Collect(x) && EffectOf([Pop(EDX)]) == -4
  {
    var two, one := [Mov(EDX, EAX), Pop(EAX)], [Pop(EDX)];
    assert two[..1][..0] == [] && one[..0] == [];
    assert EffectOf(two[..1]) == 0;
  }

  lemma StackedArgs(rt: Runtime, check: bool, p: Progress, x: Form, q: Progress, r: Progress, s: Progress)
    requires IsCall(x) && Arg1Dest(x) == ToStack
    requires FormDone(rt, check, p, x.arg1, ToStack, q) && FormDone(rt, check, q, x.arg2, ToOperand, r)
    requires s == Emitted(r, Collect(x), r.si - 4, r.env)
    ensures ArgsDone(rt, check, p, x, s)
  {
    hide Emitted, Gen, ContextOf, Size, Slots, Count;
    var cx := ContextOf(p, check);
    FormGrew(rt, check, p, x.arg1, ToStack, q);
    SameRecsAfter(rt, check, p, x.arg1, ToStack, q);
    var g1, g2 := Gen(rt, x.arg1, ToStack, cx), Gen(rt, x.arg2, ToOperand, Next(cx, x.arg1, ToStack));
    GrowForm(rt, check, p, g1, q, x.arg2, ToOperand, r);
    Grow(p, g1 + g2, r, Collect(x), s, check);
    assert Gen2(rt, x, x.arg1, x.arg2, cx) == g1 + g2 + Collect(x);
  }

  lemma SelectIsEq()
    ensures [Plain(CmpEaxEdx)] + SelectCode(NE, 3) == EqTail() && [Plain(CmpMem(ESI, 0))] + SelectCode(NE, 3) == NullTail()
  {
  }

  lemma CallDone(rt: Runtime, check: bool, p: Progress, x: Form, dest: Dest, q: Progress, r: Progress)
    requires IsCall(x) && ArgsDone(rt, check, p, x, q)
    requires r == Emitted(q, CallTail(rt, x, dest, check), q.si + (if dest == ToStack then 4 else 0), q.env)
    ensures FormDone(rt, check, p, x, dest, r)
  {
    hide Emitted, Gen, Gen2, Size, Arg1Dest, CallTail, Count, Slots, ContextOf;
    var cx := ContextOf(p, check);
    UnfoldCallSlots(x);
    UnfoldCallGen(rt, x, dest, cx);
    UnfoldCallCount(x, dest, StackGo);
    Grow(p, Gen2(rt, x, x.arg1, x.arg2, cx), q, CallTail(rt, x, dest, check), r, check);
  }

  lemma NullDone(rt: Runtime, check: bool, p: Progress, x: Form, dest: Dest, q: Progress, r: Progress, s: Progress)
    requires x.Null? && FormDone(rt, check, p, x.arg, ToOperand, q)
    requires r == Emitted(q, NullTail(), q.si, q.env) && s == Emitted(r, Target(dest), r.si + (if dest == ToStack then 4 else 0), r.env)
    ensures FormDone(rt, check, p, x, dest, s)
  {
    hide Emitted, Gen, Size, NullTail, Target, Slots, Count;
    UnfoldNull(rt, x, dest, ContextOf(p, check));
    var g := Gen(rt, x.arg, ToOperand, ContextOf(p, check));
    FormGrew(rt, check, p, x.arg, ToOperand, q);
    Grow(p, g, q, NullTail(), r, check);
    Grow(p, g + NullTail(), r, Target(dest), s, check);
  }

  lemma AtomCounts(x: Form, dest: Dest)
    requires x.Lit? || x.SymLit? || x.NilForm? || x.Var?
    ensures Count(x, dest, StackGo) == 0 && Slots(x) == 0
  {
    hide Gen, Accepts, CountInits, CountForms, CountSeq, CountChain, CountItems, SlotsInits, SlotsForms, SlotsSetq, SlotsChain, SlotsItems;
  }

  lemma EmptySetqDone(rt: Runtime, check: bool, p: Progress, x: Form, dest: Dest, q: Progress)
    requires x.Setq? && x.pairs.NoBinds? && q == Emitted(p, GenNil(dest), p.si + (if dest == ToStack then 4 else 0), p.env)
    ensures FormDone(rt, check, p, x, dest, q)
  {
    hide Emitted, GenNil, ContextOf, GenSetq, Gen, Count, Slots, CountInits, SlotsSetq, Accepts, AcceptsSetq;
    UnfoldSetq(rt, x, dest, ContextOf(p, check));
    EmptySetqCounts(x.pairs);
  }

  /** A constant or a variable is its template, and uses no slots. */
  lemma AtomDone(rt: Runtime, check: bool, p: Progress, x: Form, dest: Dest, q: Progress)
    requires x.Lit? || x.SymLit? || x.NilForm? || x.Var?
    requires q == Emitted(p, match x
                             case Lit(w) => GenLit(w, dest)
                             case SymLit(w, _) => GenSym(w, dest)
                             case NilForm => GenNil(dest)
                             case Var(n) => GenVar(rt, n, dest, ContextOf(p, check)), p.si + (if dest == ToStack then 4 else 0), p.env)
    ensures FormDone(rt, check, p, x, dest, q)
  {
    hide Emitted, ContextOf, GenLit, GenSym, GenNil, GenVar, Gen, Slots, Count;
    AtomCounts(x, dest);
    AtomCode(rt, x, dest, ContextOf(p, check));
  }

  lemma EmptySetqCounts(b: Binds)
    requires b.NoBinds?
    ensures CountInits(b, StackGo) == 0 && SlotsSetq(b) == 0
  {
  }

  lemma PrognIs(rt: Runtime, check: bool, p: Progress, x: Form, dest: Dest)
    requires x.Progn?
    ensures Accepts(rt, x, dest, ContextOf(p, check)) == AcceptsForms(rt, x.body, dest, ContextOf(p, check))
    ensures forall q :: FormsDone(rt, check, p, x.body, dest, q) ==> FormDone(rt, check, p, x, dest, q)
  {
    hide Emitted, ContextOf, GenForms, AcceptsForms, CountForms, SlotsForms;
  }
}
