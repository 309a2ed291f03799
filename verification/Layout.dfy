/** Where the parts of a form's code stand, and that the parts meet the conditions the whole met. */
module Layout {
  import opened Words
  import opened X86
  import opened Runtime
  import opened Machine
  import opened Lisp
  import opened CodeGen
  import opened Relation
  import opened Steps
  import opened Tails

  /** No exit is compiled for a destination it does not serve; exact also wants the value count set. */
  predicate Clean(stackGos: nat, stackReturns: nat, uncounted: nat, exact: bool) {
    stackGos == 0 && stackReturns == 0 && (exact ==> uncounted == 0)
  }

  predicate CleanForm(x: Form, dest: Dest, recs: seq<Rec>, exact: bool) {
    Clean(Count(x, dest, StackGo), Count(x, dest, StackReturn(Lexical(recs))), Count(x, dest, UncountedReturn), exact)
  }

  /** The accepted, clean form x stands compiled at pc, with room in the frame for its slots. */
  ghost predicate Compiled(img: Image, rt: Runtime, fr: Frame, tg: map<Label, int>, x: Form, dest: Dest, cx: Context, pc: int, exact: bool) {
    && Accepts(rt, x, dest, cx)
    && CleanForm(x, dest, cx.recs, exact)
    && cx.env + 4 * Slots(x) <= 4 * fr.slots
    && CodeAt(img, pc, Gen(rt, x, dest, cx), tg)
    && (dest == ToZeroFlag ==> x.NumEqual?)
  }

  ghost predicate CompiledForms(img: Image, rt: Runtime, fr: Frame, tg: map<Label, int>, body: Forms, dest: Dest, cx: Context, pc: int, exact: bool) {
    && AcceptsForms(rt, body, dest, cx)
    && Clean(CountForms(body, dest, StackGo), CountForms(body, dest, StackReturn(Lexical(cx.recs))), CountForms(body, dest, UncountedReturn), exact)
    && cx.env + 4 * SlotsForms(body) <= 4 * fr.slots
    && CodeAt(img, pc, GenForms(rt, body, dest, cx), tg)
    && dest != ToZeroFlag
  }

  ghost predicate CompiledSeq(img: Image, rt: Runtime, fr: Frame, tg: map<Label, int>, body: Forms, cx: Context, pc: int, exact: bool) {
    && AcceptsSeq(rt, body, cx)
    && Clean(CountSeq(body, StackGo), CountSeq(body, StackReturn(Lexical(cx.recs))), CountSeq(body, UncountedReturn), exact)
    && cx.env + 4 * SlotsForms(body) <= 4 * fr.slots
    && CodeAt(img, pc, GenSeq(rt, body, cx), tg)
  }

  ghost predicate CompiledSetq(img: Image, rt: Runtime, fr: Frame, tg: map<Label, int>, b: Binds, cx: Context, pc: int, exact: bool) {
    && AcceptsSetq(rt, b, cx)
    && Clean(CountInits(b, StackGo), CountInits(b, StackReturn(Lexical(cx.recs))), CountInits(b, UncountedReturn), exact)
    && cx.env + 4 * SlotsSetq(b) <= 4 * fr.slots
    && CodeAt(img, pc, GenSetq(rt, b, cx), tg)
  }

  ghost predicate CompiledInits(img: Image, rt: Runtime, fr: Frame, tg: map<Label, int>, b: Binds, cx: Context, pc: int, exact: bool) {
    && AcceptsInits(rt, b, cx)
    && Clean(CountInits(b, StackGo), CountInits(b, StackReturn(Lexical(cx.recs))), CountInits(b, UncountedReturn), exact)
    && cx.env + 4 * SlotsInits(b) <= 4 * fr.slots
    && CodeAt(img, pc, GenInits(rt, b, cx), tg)
  }

  ghost predicate CompiledChain(img: Image, rt: Runtime, fr: Frame, tg: map<Label, int>, b: Chain, cx: Context, pc: int, exact: bool) {
    && AcceptsChain(rt, b, cx)
    && Clean(CountChain(b, StackGo), CountChain(b, StackReturn(Lexical(cx.recs))), CountChain(b, UncountedReturn), exact)
    && cx.env + 4 * SlotsChain(b) <= 4 * fr.slots
    && CodeAt(img, pc, GenChain(rt, b, cx), tg)
  }

  ghost predicate CompiledItems(img: Image, rt: Runtime, fr: Frame, tg: map<Label, int>, items: Items, cx: Context, pc: int, exact: bool) {
    && AcceptsItems(rt, items, cx)
    && Clean(CountItems(items, StackGo), CountItems(items, StackReturn(Lexical(cx.recs))), CountItems(items, UncountedReturn), exact)
    && cx.env + 4 * SlotsItems(items) <= 4 * fr.slots
    && CodeAt(img, pc, GenItems(rt, items, cx), tg)
  }

  /** Code a + b at pc is a at pc and b after it. */
  lemma Split(img: Image, pc: int, a: Code, b: Code, tg: map<Label, int>)
    requires CodeAt(img, pc, a + b, tg)
    ensures CodeAt(img, pc, a, tg) && CodeAt(img, pc + Size(a), b, tg) && Size(a + b) == Size(a) + Size(b)
  {
    CodeAtConcat(img, pc, a, b, tg);
    SizeConcat(a, b);
  }

  lemma Split1(img: Image, pc: int, a: Item, b: Code, tg: map<Label, int>)
    requires CodeAt(img, pc, [a] + b, tg)
    ensures CodeAt(img, pc, [a], tg) && CodeAt(img, pc + Len(a), b, tg) && Size([a] + b) == Len(a) + Size(b)
  {
    hide Encode, CodeAt;
    Split(img, pc, [a], b, tg);
    SizePair(a, a);
  }

  /** The comparison between a test and its branch. */
  function TestCompare(test: Form): Code {
    if test.NumEqual? then [] else [Plain(CmpMem(ESI, 0))]
  }

  function TestSize(test: Form): int {
    if test.NumEqual? then 6 else 8
  }

  lemma TestCompareSize(test: Form, d: int)
    ensures Size(TestCompare(test)) + Len(Plain(Jcc32(TestCond(test), d))) == TestSize(test)
    ensures Len(Plain(Jmp32(d))) == 5
  {
    SizePair(Plain(CmpMem(ESI, 0)), Plain(CmpMem(ESI, 0)));
  }

  lemma IfLayout(img: Image, pc: int, g: Code, test: Form, thn: Code, dest: Dest, tg: map<Label, int>)
    requires CodeAt(img, pc, IfCode(g + TestCompare(test), thn, dest), tg) && !test.NumEqual?
    ensures var p0 := pc + Size(g);
            var p1 := p0 + TestSize(test);
            && CodeAt(img, pc, g, tg)
            && CodeAt(img, p0, TestCompare(test) + ([Plain(Jcc32(TestCond(test), Size(thn)))] + (thn + PushIfStack(dest))), tg)
            && CodeAt(img, p1, thn, tg)
            && CodeAt(img, p1 + Size(thn), PushIfStack(dest), tg)
            && pc + Size(IfCode(g + TestCompare(test), thn, dest)) == p1 + Size(thn) + Size(PushIfStack(dest))
  {
    hide CodeAt, Encode, Size, PushIfStack, TestCompare;
    var jump, push := Plain(Jcc32(E, Size(thn))), PushIfStack(dest);
    assert IfCode(g + TestCompare(test), thn, dest) == g + (TestCompare(test) + ([jump] + (thn + push)));
    Split(img, pc, g, TestCompare(test) + ([jump] + (thn + push)), tg);
    Split(img, pc + Size(g), TestCompare(test), [jump] + (thn + push), tg);
    Split1(img, pc + Size(g) + Size(TestCompare(test)), jump, thn + push, tg);
    TestCompareSize(test, Size(thn));
    Split(img, pc + Size(g) + TestSize(test), thn, push, tg);
  }

  lemma IfElseLayout(img: Image, pc: int, g: Code, test: Form, thn: Code, els: Code, dest: Dest, tg: map<Label, int>)
    requires CodeAt(img, pc, IfElseCode(g + TestCompare(test), TestCond(test), thn, els, dest), tg)
    ensures var p0 := pc + Size(g);
            var p1 := p0 + TestSize(test);
            var p2 := p1 + Size(thn) + 5;
            var rest := [Plain(Jmp32(Size(els)))] + (els + PushIfStack(dest));
            && CodeAt(img, pc, g, tg)
            && CodeAt(img, p0, TestCompare(test) + ([Plain(Jcc32(TestCond(test), Size(thn) + 5))] + (thn + rest)), tg)
            && CodeAt(img, p1, thn, tg)
            && CodeAt(img, p1 + Size(thn), rest, tg)
            && CodeAt(img, p2, els, tg)
            && CodeAt(img, p2 + Size(els), PushIfStack(dest), tg)
            && pc + Size(IfElseCode(g + TestCompare(test), TestCond(test), thn, els, dest)) == p2 + Size(els) + Size(PushIfStack(dest))
  {
    hide CodeAt, Encode, Size, PushIfStack, TestCompare, TestCond;
    var j1, j2, push := Plain(Jcc32(TestCond(test), Size(thn) + 5)), Plain(Jmp32(Size(els))), PushIfStack(dest);
    var rest := [j2] + (els + push);
    assert IfElseCode(g + TestCompare(test), TestCond(test), thn, els, dest) == g + (TestCompare(test) + ([j1] + (thn + rest)));
    Split(img, pc, g, TestCompare(test) + ([j1] + (thn + rest)), tg);
    Split(img, pc + Size(g), TestCompare(test), [j1] + (thn + rest), tg);
    Split1(img, pc + Size(g) + Size(TestCompare(test)), j1, thn + rest, tg);
    TestCompareSize(test, Size(thn) + 5);
    TestCompareSize(test, Size(els));
    Split(img, pc + Size(g) + TestSize(test), thn, rest, tg);
    Split1(img, pc + Size(g) + TestSize(test) + Size(thn), j2, els + push, tg);
    Split(img, pc + Size(g) + TestSize(test) + Size(thn) + 5, els, push, tg);
  }
}
