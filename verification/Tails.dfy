/** The inline arithmetic templates refine the generic operations. */
module Tails {
  import opened Options
  import opened Words
  import opened X86
  import opened Runtime
  import opened Machine
  import opened Lisp
  import opened CodeGen
  import opened Steps

  // ----- word arithmetic -----

  /** add then jno: the flag is clear exactly when the sum is a fixnum, and the word is then its tagging;
      sub restores the operand otherwise. */
  lemma AddFixnums(a: Word, b: Word)
    requires IsFixnum(a) && IsFixnum(b)
    ensures var r := Wrap32(a + b);
            && (Signed(r) == Signed(a) + Signed(b) <==> InFixnumRange(Integer(a) + Integer(b)))
            && (InFixnumRange(Integer(a) + Integer(b)) ==> r == WrapInteger(Integer(a) + Integer(b)))
            && Wrap32(r - b) == a
  {
    FixnumWord(a);
    FixnumWord(b);
  }

  lemma SubFixnums(a: Word, b: Word)
    requires IsFixnum(a) && IsFixnum(b)
    ensures var r := Wrap32(a - b);
            && (Signed(r) == Signed(a) - Signed(b) <==> InFixnumRange(Integer(a) - Integer(b)))
            && (InFixnumRange(Integer(a) - Integer(b)) ==> r == WrapInteger(Integer(a) - Integer(b)))
            && Wrap32(r + b) == a
  {
    FixnumWord(a);
    FixnumWord(b);
  }

  /** The flags after cmp order the operands as signed integers. */
  lemma CompareFlags(c: Cpu, a: Word, b: Word)
    ensures var f := SubFlags(c, a, b);
            && (f.zf <==> a == b)
            && (f.sf != f.of <==> Signed(a) < Signed(b))
  {
  }

  /** The inline test of a comparison is the comparison of the integers. */
  lemma CompareFixnums(c: Cpu, op: Op, a: Word, b: Word)
    requires IsFixnum(a) && IsFixnum(b)
    ensures Holds(FailCond(op), SubFlags(c, b, a)) <==> !Ordered(op, Integer(a), Integer(b))
    ensures Holds(FailCond(Less), SubFlags(c, b, a)) <==> Integer(a) >= Integer(b)
    ensures Holds(FailCond(LessEqual), SubFlags(c, b, a)) <==> Integer(a) > Integer(b)
    ensures Holds(FailCond(Greater), SubFlags(c, b, a)) <==> Integer(a) <= Integer(b)
    ensures Holds(FailCond(GreaterEqual), SubFlags(c, b, a)) <==> Integer(a) < Integer(b)
    ensures Holds(NE, SubFlags(c, b, a)) <==> Integer(a) != Integer(b)
  {
    CompareFlags(c, b, a);
    FixnumWord(a);
    FixnumWord(b);
  }

  // ----- running the templates -----

  /** c' is c but for pc, EAX, scratch registers and flags. */
  predicate SameFrame(c: Cpu, c': Cpu) {
    c'.stack == c.stack && c'.heap == c.heap && c'.ebp == c.ebp
  }

  /** From c0 the machine leaves the word in EAX at end, with c's frame, or signals. */
  ghost predicate Yields(img: Image, rt: Runtime, c0: Cpu, c: Cpu, end: int, r: Option<Word>) {
    match r
    case None => Reach(img, rt, Running(c0), Raised(c.heap), 0)
    case Some(w) =>
      exists c' :: Reach(img, rt, Running(c0), Running(c'), 0) && SameFrame(c, c') && c'.pc == end && c'.eax == w
  }

  function TruthWord(rt: Runtime, r: Option<bool>): Option<Word> {
    match r case None => None case Some(b) => Some(rt.Truth(b))
  }

  lemma YieldNow(img: Image, rt: Runtime, c0: Cpu, c: Cpu, c': Cpu, end: int)
    requires Reach(img, rt, Running(c0), Running(c'), 0) && SameFrame(c, c') && c'.pc == end
    ensures Yields(img, rt, c0, c, end, Some(c'.eax))
  {
    hide Reach;
  }

  /** One tag test: taken exactly when it is emitted and the operand is not a fixnum. */
  lemma RunTagTest(img: Image, rt: Runtime, tg: map<Label, int>, c0: Cpu, c: Cpu, needed: bool, t: Instr, dist: int, rest: Code)
    returns (c': Cpu)
    requires t == TestAl(7) || t == TestDl(7)
    requires Reach(img, rt, Running(c0), Running(c), 0) && CodeAt(img, c.pc, TagTest(needed, t, dist) + rest, tg)
    ensures Reach(img, rt, Running(c0), Running(c'), 0) && SameFrame(c, c') && c'.eax == c.eax && c'.edx == c.edx
    ensures CodeAt(img, c.pc + Size(TagTest(needed, t, dist)), rest, tg)
    ensures var w := if t == TestAl(7) then c.eax else c.edx;
            c'.pc == c.pc + Size(TagTest(needed, t, dist)) + (if needed && !IsFixnum(w) then dist else 0)
  {
    hide Reach, CodeAt, Encode;
    if needed {
      var i0, i1 := Plain(t), Plain(Jcc8(NE, dist));
      assert TagTest(needed, t, dist) + rest == [i0] + ([i1] + rest);
      Advance(img, rt, tg, c0, c, TagTest(needed, t, dist) + rest, i0, [i1] + rest);
      var w := if t == TestAl(7) then c.eax else c.edx;
      var c1 := c.(pc := c.pc + Len(i0), zf := w % 8 == 0, sf := false, of := false);
      Advance(img, rt, tg, c0, c1, [i1] + rest, i1, rest);
      c' := if c1.zf then c1.(pc := c1.pc + Len(i1)) else c1.(pc := c1.pc + Len(i1) + dist);
      assert Size(TagTest(needed, t, dist)) == Len(i0) + Len(i1) by { SizePair(i0, i1); }
    } else {
      assert TagTest(needed, t, dist) + rest == rest;
      c' := c;
    }
  }

  lemma SizePair(a: Item, b: Item)
    ensures Size([a, b]) == Len(a) + Len(b) && Size([a]) == Len(a)
  {
    hide Encode;
    assert [a, b][1..] == [b] && [a][1..] == [] && [b][1..] == [];
    assert Size([b]) == Len(b) + Size([]);
  }

  /** An operand without an emitted test is known to be a fixnum. */
  predicate TestsSuffice(al: bool, dl: bool, c: Cpu) {
    (al || IsFixnum(c.eax)) && (dl || IsFixnum(c.edx))
  }

  /** Both tests fall through exactly on two fixnums and otherwise branch dist bytes on. */
  lemma RunTagTests(img: Image, rt: Runtime, tg: map<Label, int>, c0: Cpu, c: Cpu, al: bool, dl: bool, dist: int, rest: Code)
    returns (c': Cpu)
    requires Reach(img, rt, Running(c0), Running(c), 0) && CodeAt(img, c.pc, TagTests(al, dl, dist) + rest, tg)
    requires TestsSuffice(al, dl, c)
    ensures Reach(img, rt, Running(c0), Running(c'), 0) && SameFrame(c, c') && c'.eax == c.eax && c'.edx == c.edx
    ensures var start := c.pc + Size(TagTests(al, dl, dist));
            && CodeAt(img, start, rest, tg)
            && c'.pc == start + (if IsFixnum(c.eax) && IsFixnum(c.edx) then 0 else dist)
  {
    hide Reach, CodeAt, Encode, TagTest, Size;
    var t1, t2 := TagTest(al, TestAl(7), dist + (if dl then 5 else 0)), TagTest(dl, TestDl(7), dist);
    assert TagTests(al, dl, dist) + rest == t1 + (t2 + rest);
    SizeConcat(t1, t2);
    var c1 := RunTagTest(img, rt, tg, c0, c, al, TestAl(7), dist + (if dl then 5 else 0), t2 + rest);
    SizeTagTest(dl, dist);
    if al && !IsFixnum(c.eax) {
      CodeAtConcat(img, c.pc + Size(t1), t2, rest, tg);
      c' := c1;
    } else {
      c' := RunTagTest(img, rt, tg, c0, c1, dl, TestDl(7), dist, rest);
    }
  }

  lemma SizeTagTest(dl: bool, dist: int)
    ensures Size(TagTest(dl, TestDl(7), dist)) == if dl then 5 else 0
  {
    SizePair(Plain(TestDl(7)), Plain(Jcc8(NE, dist)));
  }

  /** Calling a kernel routine on EAX and EDX. */
  lemma RunArithCall(img: Image, rt: Runtime, tg: map<Label, int>, c0: Cpu, c: Cpu, fn: Arith, rest: Code)
    requires rt.Linked() && Reach(img, rt, Running(c0), Running(c), 0)
    requires var r := if fn.Plus? then GenericPlus else GenericMinus;
             CodeAt(img, c.pc, [CallRoutine(rt, r)] + rest, tg)
    ensures Yields(img, rt, c0, c, c.pc + 6, if fn.Plus? then rt.plus(c.eax, c.edx) else rt.minus(c.eax, c.edx))
  {
    hide Reach, CodeAt;
    var r := if fn.Plus? then GenericPlus else GenericMinus;
    var call := CallRoutine(rt, r);
    Advance(img, rt, tg, c0, c, [call] + rest, call, rest);
    var res := if fn.Plus? then rt.plus(c.eax, c.edx) else rt.minus(c.eax, c.edx);
    var m := Exec(rt, call.ins, c.(pc := c.pc + Len(call)));
    if res.Some? {
      YieldNow(img, rt, c0, c, m.cpu, c.pc + 6);
    }
  }

  /** What the inline operation and its undoing do to the registers. */
  ghost predicate InlineMeans(rt: Runtime, c: Cpu, fn: Arith, pc: int) {
    var (op, undo, r) := ArithParts(fn);
    var m1 := Exec(rt, op, c);
    && m1.Running? && SameFrame(c, m1.cpu) && m1.cpu.edx == c.edx && m1.cpu.pc == c.pc
    && (!m1.cpu.of ==> ArithValue(rt, fn, c.eax, c.edx) == Some(m1.cpu.eax))
    && (m1.cpu.of ==>
          && ArithValue(rt, fn, c.eax, c.edx) == (if fn.Plus? then rt.plus(c.eax, c.edx) else rt.minus(c.eax, c.edx))
          && var m2 := Exec(rt, undo, m1.cpu.(pc := pc));
             m2.Running? && SameFrame(c, m2.cpu) && m2.cpu.edx == c.edx && m2.cpu.eax == c.eax && m2.cpu.pc == pc)
  }

  lemma InlineAdd(rt: Runtime, c: Cpu, pc: int)
    requires IsFixnum(c.eax) && IsFixnum(c.edx)
    ensures InlineMeans(rt, c, Plus, pc)
  {
    hide IsFixnum, InFixnumRange, Integer, WrapInteger, Signed, Wrap32;
    AddFixnums(c.eax, c.edx);
  }

  lemma InlineSub(rt: Runtime, c: Cpu, pc: int)
    requires IsFixnum(c.eax) && IsFixnum(c.edx)
    ensures InlineMeans(rt, c, Minus, pc)
  {
    hide IsFixnum, InFixnumRange, Integer, WrapInteger, Signed, Wrap32;
    SubFixnums(c.eax, c.edx);
  }

  /** The inline operation sets the overflow flag exactly when the generic routine is needed; taking it back
      restores the operand. */
  lemma InlineEffect(rt: Runtime, c: Cpu, fn: Arith, pc: int)
    requires IsFixnum(c.eax) && IsFixnum(c.edx)
    ensures InlineMeans(rt, c, fn, pc)
  {
    hide InlineMeans;
    match fn
    case Plus => InlineAdd(rt, c, pc);
    case Minus => InlineSub(rt, c, pc);
  }

  lemma ArithLengths(rt: Runtime, fn: Arith)
    ensures var (op, undo, r) := ArithParts(fn);
            && Len(Plain(op)) == 2 && Len(Plain(undo)) == 2 && Len(Plain(Jcc8(NO, 8))) == 2
            && Len(CallRoutine(rt, r)) == 6
  {
  }

  lemma ExecJump(rt: Runtime, cc: Cond, d: int, c: Cpu)
    ensures Exec(rt, Jcc8(cc, d), c) == Running(if Holds(cc, c) then c.(pc := c.pc + d) else c)
    ensures Exec(rt, Jcc32(cc, d), c) == Running(if Holds(cc, c) then c.(pc := c.pc + d) else c)
    ensures Exec(rt, Jmp8(d), c) == Running(c.(pc := c.pc + d))
  {
  }

  /** After an overflow: undo, then the generic routine. */
  lemma RunUndo(img: Image, rt: Runtime, tg: map<Label, int>, c0: Cpu, c: Cpu, c2: Cpu, fn: Arith, rest: Code)
    requires rt.Linked() && Reach(img, rt, Running(c0), Running(c2), 0)
    requires var (op, undo, r) := ArithParts(fn);
             && CodeAt(img, c2.pc, [Plain(undo), CallRoutine(rt, r)] + rest, tg)
             && var m := Exec(rt, undo, c2.(pc := c2.pc + 2));
                && m.Running? && SameFrame(c, m.cpu) && m.cpu.edx == c.edx && m.cpu.eax == c.eax && m.cpu.pc == c2.pc + 2
    ensures Yields(img, rt, c0, c, c2.pc + 8, if fn.Plus? then rt.plus(c.eax, c.edx) else rt.minus(c.eax, c.edx))
  {
    hide Reach, CodeAt, Exec, Encode, ArithParts;
    ArithLengths(rt, fn);
    var (op, undo, r) := ArithParts(fn);
    var i2, i3 := Plain(undo), CallRoutine(rt, r);
    assert [i2, i3] + rest == [i2] + ([i3] + rest);
    Advance(img, rt, tg, c0, c2, [i2, i3] + rest, i2, [i3] + rest);
    var c3 := Exec(rt, undo, c2.(pc := c2.pc + 2)).cpu;
    assert r == if fn.Plus? then GenericPlus else GenericMinus by { PartsRoutine(fn); }
    RunArithCall(img, rt, tg, c0, c3, fn, rest);
    YieldsSame(img, rt, c0, c, c3, c2.pc + 8, if fn.Plus? then rt.plus(c.eax, c.edx) else rt.minus(c.eax, c.edx));
  }

  lemma PartsRoutine(fn: Arith)
    ensures ArithParts(fn).2 == if fn.Plus? then GenericPlus else GenericMinus
  {
  }

  lemma YieldsSame(img: Image, rt: Runtime, c0: Cpu, c: Cpu, c1: Cpu, end: int, r: Option<Word>)
    requires SameFrame(c, c1) && Yields(img, rt, c0, c1, end, r)
    ensures Yields(img, rt, c0, c, end, r)
  {
    hide Reach;
  }

  /** The inline operation, from two fixnums. */
  lemma RunInline(img: Image, rt: Runtime, tg: map<Label, int>, c0: Cpu, c: Cpu, fn: Arith, rest: Code)
    requires rt.Linked() && Reach(img, rt, Running(c0), Running(c), 0)
    requires IsFixnum(c.eax) && IsFixnum(c.edx)
    requires var (op, undo, r) := ArithParts(fn);
             CodeAt(img, c.pc, [Plain(op), Plain(Jcc8(NO, 8)), Plain(undo), CallRoutine(rt, r)] + rest, tg)
    ensures Yields(img, rt, c0, c, c.pc + 12, ArithValue(rt, fn, c.eax, c.edx))
  {
    hide Reach, CodeAt, Exec, Encode, ArithParts, ArithValue, IsFixnum;
    ArithLengths(rt, fn);
    var (op, undo, r) := ArithParts(fn);
    var i0, i1, tail := Plain(op), Plain(Jcc8(NO, 8)), [Plain(undo), CallRoutine(rt, r)] + rest;
    var code := [i0, i1, Plain(undo), CallRoutine(rt, r)] + rest;
    assert code == [i0] + ([i1] + tail);
    InlineEffect(rt, c.(pc := c.pc + 2), fn, c.pc + 6);
    Advance(img, rt, tg, c0, c, code, i0, [i1] + tail);
    var c1 := Exec(rt, op, c.(pc := c.pc + 2)).cpu;
    Advance(img, rt, tg, c0, c1, [i1] + tail, i1, tail);
    ExecJump(rt, NO, 8, c1.(pc := c.pc + 4));
    if !c1.of {
      YieldNow(img, rt, c0, c, c1.(pc := c.pc + 12), c.pc + 12);
    } else {
      RunUndo(img, rt, tg, c0, c, c1.(pc := c.pc + 4), fn, rest);
    }
  }

  /** + and - on tagged words: exact on fixnums while the result is a fixnum, otherwise generic on the original operands. */
  lemma RunArith(img: Image, rt: Runtime, tg: map<Label, int>, c0: Cpu, c: Cpu, fn: Arith, al: bool, dl: bool, rest: Code)
    requires rt.Linked() && Reach(img, rt, Running(c0), Running(c), 0)
    requires TestsSuffice(al, dl, c)
    requires CodeAt(img, c.pc, ArithTail(rt, fn, al, dl) + rest, tg)
    ensures Yields(img, rt, c0, c, c.pc + Size(ArithTail(rt, fn, al, dl)), ArithValue(rt, fn, c.eax, c.edx))
  {
    hide Reach, CodeAt, IsFixnum, Encode, Size, TagTests, InFixnumRange, Integer, WrapInteger;
    var (op, undo, r) := ArithParts(fn);
    var core := [Plain(op), Plain(Jcc8(NO, 8)), Plain(undo), CallRoutine(rt, r)];
    SizeConcat(TagTests(al, dl, 6), core);
    SizeArithCore(rt, fn);
    assert ArithTail(rt, fn, al, dl) + rest == TagTests(al, dl, 6) + (core + rest);
    var c1 := RunTagTests(img, rt, tg, c0, c, al, dl, 6, core + rest);
    if IsFixnum(c.eax) && IsFixnum(c.edx) {
      RunInline(img, rt, tg, c0, c1, fn, rest);
    } else {
      var front := [Plain(op), Plain(Jcc8(NO, 8)), Plain(undo)];
      assert core + rest == front + ([CallRoutine(rt, r)] + rest);
      CodeAtConcat(img, c1.pc - 6, front, [CallRoutine(rt, r)] + rest, tg);
      RunArithCall(img, rt, tg, c0, c1, fn, rest);
    }
  }

  lemma SizeArithCore(rt: Runtime, fn: Arith)
    ensures var (op, undo, r) := ArithParts(fn);
            && Size([Plain(op), Plain(Jcc8(NO, 8)), Plain(undo), CallRoutine(rt, r)]) == 12
            && Size([Plain(op), Plain(Jcc8(NO, 8)), Plain(undo)]) == 6
  {
    var (op, undo, r) := ArithParts(fn);
    SizePair(Plain(op), Plain(Jcc8(NO, 8)));
    SizePair(Plain(undo), CallRoutine(rt, r));
    SizeConcat([Plain(op), Plain(Jcc8(NO, 8))], [Plain(undo), CallRoutine(rt, r)]);
    SizeConcat([Plain(op), Plain(Jcc8(NO, 8))], [Plain(undo)]);
    assert [Plain(op), Plain(Jcc8(NO, 8))] + [Plain(undo), CallRoutine(rt, r)] == [Plain(op), Plain(Jcc8(NO, 8)), Plain(undo), CallRoutine(rt, r)];
    assert [Plain(op), Plain(Jcc8(NO, 8))] + [Plain(undo)] == [Plain(op), Plain(Jcc8(NO, 8)), Plain(undo)];
  }
}
