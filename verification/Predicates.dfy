/** The templates of =, <, <=, >, >=, EQ and NULL. */
module Predicates {
  import opened Options
  import opened Words
  import opened X86
  import opened Runtime
  import opened Machine
  import opened Lisp
  import opened CodeGen
  import opened Steps
  import opened Tails

  /** NIL, or T when the branch over it is not taken. */
  function SelectCode(cc: Cond, d: int): Code {
    [LoadNil(), Plain(Jcc8(cc, d)), LoadT()]
  }

  lemma SelectLengths(cc: Cond, d: int)
    ensures Len(LoadNil()) == 2 && Len(Plain(Jcc8(cc, d))) == 2 && Len(LoadT()) == 3
    ensures Len(Plain(CmpEaxEdx)) == 2 && Len(Plain(CmpMem(ESI, 0))) == 2 && Len(Plain(CmpMem(ESI, 4))) == 3
    ensures Len(Plain(Jmp8(d))) == 2
    ensures Size(SelectCode(cc, d)) == 7
  {
    SizePair(LoadNil(), Plain(Jcc8(cc, d)));
    SizePair(LoadT(), LoadT());
    SizeConcat([LoadNil(), Plain(Jcc8(cc, d))], [LoadT()]);
    assert [LoadNil(), Plain(Jcc8(cc, d))] + [LoadT()] == SelectCode(cc, d);
  }

  lemma ExecLoadConstant(rt: Runtime, c: Cpu)
    requires rt.Linked()
    ensures Exec(rt, LoadNil().ins, c) == Running(c.(eax := rt.nilWord))
    ensures Exec(rt, LoadT().ins, c) == Running(c.(eax := rt.tWord))
    ensures Exec(rt, CmpEaxEdx, c) == Running(SubFlags(c, c.eax, c.edx))
    ensures Exec(rt, CmpMem(ESI, 0), c) == Running(SubFlags(c, c.eax, rt.nilWord))
    ensures Exec(rt, CmpMem(ESI, 4), c) == Running(SubFlags(c, c.eax, rt.tWord))
  {
  }

  lemma SelectParts(cc: Cond, d: int, rest: Code)
    ensures SelectCode(cc, d) + rest == [LoadNil()] + ([Plain(Jcc8(cc, d))] + ([LoadT()] + rest))
  {
  }

  lemma RunSelect(img: Image, rt: Runtime, tg: map<Label, int>, c0: Cpu, c: Cpu, cc: Cond, d: int, rest: Code)
    returns (c': Cpu)
    requires rt.Linked() && Reach(img, rt, Running(c0), Running(c), 0)
    requires CodeAt(img, c.pc, SelectCode(cc, d) + rest, tg)
    ensures Reach(img, rt, Running(c0), Running(c'), 0) && SameFrame(c, c')
    ensures c'.eax == rt.Truth(!Holds(cc, c))
    ensures c'.pc == c.pc + (if Holds(cc, c) then 4 + d else 7)
    ensures CodeAt(img, c.pc + 7, rest, tg)
  {
    hide Reach, CodeAt, Exec, Encode, Size, rt.Linked, SelectCode, Len;
    SelectLengths(cc, d);
    SelectParts(cc, d, rest);
    var i0, i1, i2 := LoadNil(), Plain(Jcc8(cc, d)), LoadT();
    Advance(img, rt, tg, c0, c, SelectCode(cc, d) + rest, i0, [i1] + ([i2] + rest));
    ExecLoadConstant(rt, c.(pc := c.pc + 2));
    var c1 := c.(pc := c.pc + 2, eax := rt.nilWord);
    Advance(img, rt, tg, c0, c1, [i1] + ([i2] + rest), i1, [i2] + rest);
    ExecJump(rt, cc, d, c1.(pc := c.pc + 4));
    if Holds(cc, c) {
      c' := c1.(pc := c.pc + 4 + d);
      CodeAtHead(img, c.pc + 4, i2, rest, tg);
    } else {
      Advance(img, rt, tg, c0, c1.(pc := c.pc + 4), [i2] + rest, i2, rest);
      ExecLoadConstant(rt, c1.(pc := c.pc + 7));
      c' := c1.(pc := c.pc + 7, eax := rt.tWord);
    }
  }

  lemma CodeAtHead(img: Image, pc: int, head: Item, tail: Code, tg: map<Label, int>)
    requires CodeAt(img, pc, [head] + tail, tg)
    ensures CodeAt(img, pc + Len(head), tail, tg)
  {
    hide Encode, Settle;
    assert ([head] + tail)[1..] == tail;
  }

  /** Compare, then NIL or T. */
  lemma RunCompareSelect(img: Image, rt: Runtime, tg: map<Label, int>, c0: Cpu, c: Cpu, cmp: Instr, w: Word, cc: Cond, d: int, rest: Code)
    returns (c': Cpu)
    requires rt.Linked() && Reach(img, rt, Running(c0), Running(c), 0)
    requires (cmp == CmpEaxEdx && w == c.edx) || (cmp == CmpMem(ESI, 0) && w == rt.nilWord)
    requires CodeAt(img, c.pc, [Plain(cmp)] + (SelectCode(cc, d) + rest), tg)
    ensures Reach(img, rt, Running(c0), Running(c'), 0) && SameFrame(c, c')
    ensures var fails := Holds(cc, SubFlags(c, c.eax, w));
            && c'.eax == rt.Truth(!fails)
            && c'.pc == c.pc + (if fails then 6 + d else 9)
    ensures CodeAt(img, c.pc + 9, rest, tg)
  {
    hide Reach, CodeAt, Exec, Encode, SelectCode, SubFlags;
    SelectLengths(cc, d);
    Advance(img, rt, tg, c0, c, [Plain(cmp)] + (SelectCode(cc, d) + rest), Plain(cmp), SelectCode(cc, d) + rest);
    ExecLoadConstant(rt, c.(pc := c.pc + 2));
    var c1 := SubFlags(c.(pc := c.pc + 2), c.eax, w);
    SubFlagsFrame(c, c.(pc := c.pc + 2), c.eax, w);
    c' := RunSelect(img, rt, tg, c0, c1, cc, d, rest);
  }

  lemma SubFlagsFrame(c: Cpu, c1: Cpu, a: Word, b: Word)
    requires SameFrame(c, c1)
    ensures var f, f1 := SubFlags(c, a, b), SubFlags(c1, a, b);
            && SameFrame(c, f1) && f1.pc == c1.pc && f1.eax == c1.eax && f1.edx == c1.edx
            && f.zf == f1.zf && f.sf == f1.sf && f.of == f1.of
  {
  }

  lemma RunEq(img: Image, rt: Runtime, tg: map<Label, int>, c0: Cpu, c: Cpu, rest: Code)
    requires rt.Linked() && Reach(img, rt, Running(c0), Running(c), 0)
    requires CodeAt(img, c.pc, EqTail() + rest, tg)
    ensures Yields(img, rt, c0, c, c.pc + 9, Some(rt.Truth(c.eax == c.edx))) && Size(EqTail()) == 9
  {
    hide Reach, CodeAt, Encode;
    assert EqTail() + rest == [Plain(CmpEaxEdx)] + (SelectCode(NE, 3) + rest);
    assert EqTail() == [Plain(CmpEaxEdx)] + SelectCode(NE, 3);
    SelectSize(CmpEaxEdx, NE, 3);
    var c' := RunCompareSelect(img, rt, tg, c0, c, CmpEaxEdx, c.edx, NE, 3, rest);
    CompareFlags(c, c.eax, c.edx);
    YieldNow(img, rt, c0, c, c', c.pc + 9);
  }

  lemma SelectSize(cmp: Instr, cc: Cond, d: int)
    requires cmp == CmpEaxEdx || cmp == CmpMem(ESI, 0)
    ensures Size([Plain(cmp)] + SelectCode(cc, d)) == 9
  {
    SelectLengths(cc, d);
    SizePair(Plain(cmp), Plain(cmp));
    SizeConcat([Plain(cmp)], SelectCode(cc, d));
  }

  lemma RunNull(img: Image, rt: Runtime, tg: map<Label, int>, c0: Cpu, c: Cpu, rest: Code)
    requires rt.Linked() && Reach(img, rt, Running(c0), Running(c), 0)
    requires CodeAt(img, c.pc, NullTail() + rest, tg)
    ensures Yields(img, rt, c0, c, c.pc + 9, Some(rt.Truth(c.eax == rt.nilWord))) && Size(NullTail()) == 9
  {
    hide Reach, CodeAt, Encode, rt.Linked;
    assert NullTail() + rest == [Plain(CmpMem(ESI, 0))] + (SelectCode(NE, 3) + rest);
    assert NullTail() == [Plain(CmpMem(ESI, 0))] + SelectCode(NE, 3);
    SelectSize(CmpMem(ESI, 0), NE, 3);
    var c' := RunCompareSelect(img, rt, tg, c0, c, CmpMem(ESI, 0), rt.nilWord, NE, 3, rest);
    CompareFlags(c, c.eax, rt.nilWord);
    YieldNow(img, rt, c0, c, c', c.pc + 9);
  }

  // ----- generic predicates -----

  function GenericTruth(rt: Runtime, r: Routine, a: Word, b: Word): Option<bool> {
    match r
    case GenericEqual => rt.numEqual(a, b)
    case GenericCompare(op) => rt.compare(op, a, b)
    case _ => None
  }

  lemma CallLengths(rt: Runtime, r: Routine)
    ensures Len(Plain(Push(EDX))) == 1 && Len(Plain(Push(EAX))) == 1 && Len(Plain(Load(EDI, ESI, 0))) == 2
    ensures Len(Plain(MovImm(ECX, 2))) == 5 && Len(CallRoutine(rt, r)) == 6 && Len(Plain(AddEsp(8))) == 3
    ensures Size(PredicateCall(rt, r)) == 18
  {
    hide Encode;
    LengthFacts(rt, r);
    var a, b, c := [Plain(Push(EDX)), Plain(Push(EAX))], [Plain(Load(EDI, ESI, 0)), Plain(MovImm(ECX, 2))], [CallRoutine(rt, r), Plain(AddEsp(8))];
    SizePair(a[0], a[1]);
    SizePair(b[0], b[1]);
    SizePair(c[0], c[1]);
    SizeConcat(a, b);
    SizeConcat(a + b, c);
    assert a + b + c == PredicateCall(rt, r);
  }

  lemma LengthFacts(rt: Runtime, r: Routine)
    ensures Len(Plain(Push(EDX))) == 1 && Len(Plain(Push(EAX))) == 1 && Len(Plain(Load(EDI, ESI, 0))) == 2
    ensures Len(Plain(MovImm(ECX, 2))) == 5 && Len(CallRoutine(rt, r)) == 6 && Len(Plain(AddEsp(8))) == 3
  {
  }

  /** The call itself, with both arguments stacked. */
  lemma ExecPredicate(rt: Runtime, r: Routine, c: Cpu, a: Word, b: Word, s: seq<Cell>)
    requires rt.Linked() && (r.GenericEqual? || r.GenericCompare?)
    requires c.stack == s + [W(a), W(b)] && c.ecx == 2
    ensures var m := Exec(rt, CallRoutine(rt, r).ins, c);
            match GenericTruth(rt, r, a, b)
            case None => m == Raised(c.heap)
            case Some(t) => m.Running? && m.cpu.stack == c.stack && m.cpu.heap == c.heap && m.cpu.ebp == c.ebp
                            && m.cpu.pc == c.pc && m.cpu.eax == rt.Truth(t)
  {
  }

  /** Pushing both operands and setting up the call. */
  lemma RunArguments(img: Image, rt: Runtime, tg: map<Label, int>, c0: Cpu, c: Cpu, tail: Code) returns (c': Cpu)
    requires rt.Linked() && Reach(img, rt, Running(c0), Running(c), 0)
    requires CodeAt(img, c.pc, [Plain(Push(EDX)), Plain(Push(EAX)), Plain(Load(EDI, ESI, 0)), Plain(MovImm(ECX, 2))] + tail, tg)
    ensures Reach(img, rt, Running(c0), Running(c'), 0)
    ensures c'.stack == c.stack + [W(c.edx), W(c.eax)] && c'.heap == c.heap && c'.ebp == c.ebp && c'.ecx == 2
    ensures c'.pc == c.pc + 9 && CodeAt(img, c'.pc, tail, tg)
  {
    hide Reach, CodeAt, Encode;
    LengthFacts(rt, GenericEqual);
    var i0, i1, i2, i3 := Plain(Push(EDX)), Plain(Push(EAX)), Plain(Load(EDI, ESI, 0)), Plain(MovImm(ECX, 2));
    assert [i0, i1, i2, i3] + tail == [i0] + ([i1] + ([i2] + ([i3] + tail)));
    Advance(img, rt, tg, c0, c, [i0, i1, i2, i3] + tail, i0, [i1] + ([i2] + ([i3] + tail)));
    var c1 := PushCell(c, W(c.edx)).(pc := c.pc + 1);
    Advance(img, rt, tg, c0, c1, [i1] + ([i2] + ([i3] + tail)), i1, [i2] + ([i3] + tail));
    var c2 := PushCell(c1, W(c.eax)).(pc := c.pc + 2);
    Advance(img, rt, tg, c0, c2, [i2] + ([i3] + tail), i2, [i3] + tail);
    var c3 := c2.(pc := c.pc + 4, edi := rt.nilWord);
    Advance(img, rt, tg, c0, c3, [i3] + tail, i3, tail);
    c' := c3.(pc := c.pc + 9, ecx := 2);
  }

  lemma RunPredicateCall(img: Image, rt: Runtime, tg: map<Label, int>, c0: Cpu, c: Cpu, r: Routine, rest: Code)
    requires rt.Linked() && Reach(img, rt, Running(c0), Running(c), 0)
    requires r.GenericEqual? || r.GenericCompare?
    requires CodeAt(img, c.pc, PredicateCall(rt, r) + rest, tg)
    ensures Yields(img, rt, c0, c, c.pc + 18, TruthWord(rt, GenericTruth(rt, r, c.edx, c.eax)))
    ensures CodeAt(img, c.pc + 18, rest, tg)
  {
    hide Reach, CodeAt, Encode, rt.Linked, GenericTruth, Exec;
    LengthFacts(rt, r);
    var call, drop := CallRoutine(rt, r), Plain(AddEsp(8));
    var tail := [call] + ([drop] + rest);
    var args := [Plain(Push(EDX)), Plain(Push(EAX)), Plain(Load(EDI, ESI, 0)), Plain(MovImm(ECX, 2))];
    assert PredicateCall(rt, r) + rest == args + tail;
    var c1 := RunArguments(img, rt, tg, c0, c, tail);
    CodeAtHead(img, c1.pc, call, [drop] + rest, tg);
    CodeAtHead(img, c1.pc + 6, drop, rest, tg);
    Advance(img, rt, tg, c0, c1, tail, call, [drop] + rest);
    ExecPredicate(rt, r, c1.(pc := c1.pc + 6), c.edx, c.eax, c.stack);
    var m := Exec(rt, call.ins, c1.(pc := c1.pc + 6));
    if m.Running? {
      FinishCall(img, rt, tg, c0, c, m.cpu, drop, rest);
    }
  }

  lemma FinishCall(img: Image, rt: Runtime, tg: map<Label, int>, c0: Cpu, c: Cpu, c2: Cpu, drop: Item, rest: Code)
    requires Reach(img, rt, Running(c0), Running(c2), 0) && drop == Plain(AddEsp(8))
    requires CodeAt(img, c2.pc, [drop] + rest, tg)
    requires |c2.stack| == |c.stack| + 2 && c2.stack[..|c.stack|] == c.stack && c2.heap == c.heap && c2.ebp == c.ebp
    ensures Yields(img, rt, c0, c, c2.pc + 3, Some(c2.eax))
  {
    hide Reach, CodeAt;
    Advance(img, rt, tg, c0, c2, [drop] + rest, drop, rest);
    YieldNow(img, rt, c0, c, DropCells(c2.(pc := c2.pc + 3), 2), c2.pc + 3);
  }

  // ----- = and the orderings -----

  /** What the predicate says of its arguments: EDX is the first, EAX the second. */
  function PredicateTruth(rt: Runtime, r: Routine, a: Word, b: Word): Option<bool> {
    match r
    case GenericEqual => EqualValue(rt, a, b)
    case GenericCompare(op) => CompareValue(rt, op, a, b)
    case _ => None
  }

  function RoutineCond(r: Routine): Cond {
    match r case GenericCompare(op) => FailCond(op) case _ => NE
  }

  lemma PredicateTruthCases(rt: Runtime, r: Routine, c: Cpu)
    requires r.GenericEqual? || r.GenericCompare?
    ensures var both := IsFixnum(c.eax) && IsFixnum(c.edx);
            && (both ==> PredicateTruth(rt, r, c.edx, c.eax) == Some(!Holds(RoutineCond(r), SubFlags(c, c.eax, c.edx))))
            && (!both ==> PredicateTruth(rt, r, c.edx, c.eax) == GenericTruth(rt, r, c.edx, c.eax))
  {
    hide SubFlags;
    if IsFixnum(c.eax) && IsFixnum(c.edx) {
      CompareFixnums(c, if r.GenericCompare? then r.op else Less, c.edx, c.eax);
    }
  }

  lemma RunPredicate(img: Image, rt: Runtime, tg: map<Label, int>, c0: Cpu, c: Cpu, r: Routine, al: bool, dl: bool, rest: Code)
    requires rt.Linked() && Reach(img, rt, Running(c0), Running(c), 0)
    requires r.GenericEqual? || r.GenericCompare?
    requires TestsSuffice(al, dl, c)
    requires CodeAt(img, c.pc, PredicateTail(rt, r, RoutineCond(r), al, dl) + rest, tg)
    ensures Yields(img, rt, c0, c, c.pc + Size(PredicateTail(rt, r, RoutineCond(r), al, dl)),
                   TruthWord(rt, PredicateTruth(rt, r, c.edx, c.eax)))
  {
    hide Reach, CodeAt, Encode, rt.Linked, PredicateTail, PredicateTruth, RoutineCond, PredicateCall;
    if al || dl {
      RunPredicateTested(img, rt, tg, c0, c, r, al, dl, rest);
    } else {
      RunPredicateUntested(img, rt, tg, c0, c, r, rest);
    }
  }

  lemma RunPredicateUntested(img: Image, rt: Runtime, tg: map<Label, int>, c0: Cpu, c: Cpu, r: Routine, rest: Code)
    requires rt.Linked() && Reach(img, rt, Running(c0), Running(c), 0)
    requires r.GenericEqual? || r.GenericCompare?
    requires IsFixnum(c.eax) && IsFixnum(c.edx)
    requires CodeAt(img, c.pc, PredicateTail(rt, r, RoutineCond(r), false, false) + rest, tg)
    ensures Yields(img, rt, c0, c, c.pc + Size(PredicateTail(rt, r, RoutineCond(r), false, false)),
                   TruthWord(rt, PredicateTruth(rt, r, c.edx, c.eax)))
  {
    hide Reach, CodeAt, Encode, rt.Linked, PredicateTruth, RoutineCond, PredicateCall, SubFlags, IsFixnum, Holds, Exec, Len;
    PredicateTruthCases(rt, r, c);
    var cc, d := RoutineCond(r), if r.GenericEqual? then 5 else 3;
    var extra := if r.GenericEqual? then [Plain(Jmp8(0))] else [];
    var code := PredicateTail(rt, r, cc, false, false);
    assert code == [Plain(CmpEaxEdx)] + SelectCode(cc, d) + extra;
    assert code + rest == [Plain(CmpEaxEdx)] + (SelectCode(cc, d) + (extra + rest));
    SelectSize(CmpEaxEdx, cc, d);
    SelectLengths(cc, 0);
    SizePair(Plain(Jmp8(0)), Plain(Jmp8(0)));
    SizeConcat([Plain(CmpEaxEdx)] + SelectCode(cc, d), extra);
    var c1 := RunCompareSelect(img, rt, tg, c0, c, CmpEaxEdx, c.edx, cc, d, extra + rest);
    if r.GenericEqual? && c1.pc == c.pc + 9 {
      Advance(img, rt, tg, c0, c1, extra + rest, Plain(Jmp8(0)), rest);
      ExecJump(rt, cc, 0, c1.(pc := c1.pc + 2));
      YieldNow(img, rt, c0, c, c1.(pc := c1.pc + 2), c.pc + 11);
    } else {
      YieldNow(img, rt, c0, c, c1, c1.pc);
    }
  }

  /** The inline part and the generic call, with the addresses of both. */
  lemma TestedLayout(img: Image, rt: Runtime, tg: map<Label, int>, c: Cpu, r: Routine, al: bool, dl: bool, rest: Code)
    requires al || dl
    requires CodeAt(img, c.pc, PredicateTail(rt, r, RoutineCond(r), al, dl) + rest, tg)
    ensures var cc, tests := RoutineCond(r), TagTests(al, dl, 11);
            var inline := [Plain(CmpEaxEdx)] + (SelectCode(cc, 23) + ([Plain(Jmp8(18))] + (PredicateCall(rt, r) + rest)));
            && PredicateTail(rt, r, cc, al, dl) + rest == tests + inline
            && CodeAt(img, c.pc + Size(tests), inline, tg)
            && CodeAt(img, c.pc + Size(tests) + 11, PredicateCall(rt, r) + rest, tg)
            && Size(PredicateTail(rt, r, cc, al, dl)) == Size(tests) + 29
  {
    hide CodeAt, Encode, PredicateCall, TagTests, RoutineCond;
    var cc, tests := RoutineCond(r), TagTests(al, dl, 11);
    var front := [Plain(CmpEaxEdx)] + SelectCode(cc, 23) + [Plain(Jmp8(18))];
    var inline := [Plain(CmpEaxEdx)] + (SelectCode(cc, 23) + ([Plain(Jmp8(18))] + (PredicateCall(rt, r) + rest)));
    assert inline == front + (PredicateCall(rt, r) + rest);
    assert PredicateTail(rt, r, cc, al, dl) == tests + (front + PredicateCall(rt, r));
    assert PredicateTail(rt, r, cc, al, dl) + rest == tests + inline;
    SelectSize(CmpEaxEdx, cc, 23);
    SelectLengths(cc, 18);
    SizePair(Plain(Jmp8(18)), Plain(Jmp8(18)));
    SizeConcat([Plain(CmpEaxEdx)] + SelectCode(cc, 23), [Plain(Jmp8(18))]);
    CallLengths(rt, r);
    SizeConcat(front, PredicateCall(rt, r));
    SizeConcat(tests, front + PredicateCall(rt, r));
    CodeAtConcat(img, c.pc, tests, inline, tg);
    CodeAtConcat(img, c.pc + Size(tests), front, PredicateCall(rt, r) + rest, tg);
  }

  lemma RunPredicateTested(img: Image, rt: Runtime, tg: map<Label, int>, c0: Cpu, c: Cpu, r: Routine, al: bool, dl: bool, rest: Code)
    requires rt.Linked() && Reach(img, rt, Running(c0), Running(c), 0)
    requires r.GenericEqual? || r.GenericCompare?
    requires TestsSuffice(al, dl, c) && (al || dl)
    requires CodeAt(img, c.pc, PredicateTail(rt, r, RoutineCond(r), al, dl) + rest, tg)
    ensures Yields(img, rt, c0, c, c.pc + Size(PredicateTail(rt, r, RoutineCond(r), al, dl)),
                   TruthWord(rt, PredicateTruth(rt, r, c.edx, c.eax)))
  {
    hide Reach, CodeAt, Encode, rt.Linked, PredicateTruth, RoutineCond, PredicateCall, PredicateTail, SubFlags,
         IsFixnum, TagTests, SelectCode, Size, Yields;
    PredicateTruthCases(rt, r, c);
    TestedLayout(img, rt, tg, c, r, al, dl, rest);
    var cc, tests := RoutineCond(r), TagTests(al, dl, 11);
    var more := [Plain(Jmp8(18))] + (PredicateCall(rt, r) + rest);
    var inline := [Plain(CmpEaxEdx)] + (SelectCode(cc, 23) + more);
    var c1 := RunTagTests(img, rt, tg, c0, c, al, dl, 11, inline);
    if IsFixnum(c.eax) && IsFixnum(c.edx) {
      var c2 := RunCompareSelect(img, rt, tg, c0, c1, CmpEaxEdx, c1.edx, cc, 23, more);
      SubFlagsFrame(c, c1, c.eax, c.edx);
      if c2.pc == c1.pc + 9 {
        Advance(img, rt, tg, c0, c2, more, Plain(Jmp8(18)), PredicateCall(rt, r) + rest);
        SelectLengths(cc, 18);
        ExecJump(rt, cc, 18, c2.(pc := c2.pc + 2));
        YieldNow(img, rt, c0, c, c2.(pc := c2.pc + 20), c1.pc + 29);
      } else {
        YieldNow(img, rt, c0, c, c2, c1.pc + 29);
      }
    } else {
      RunPredicateCall(img, rt, tg, c0, c1, r, rest);
      YieldsSame(img, rt, c0, c, c1, c1.pc + 18, TruthWord(rt, GenericTruth(rt, r, c.edx, c.eax)));
    }
  }

  // ----- = as the test of an IF -----

  /** From c0 the machine leaves the truth value in the zero flag at end, with c's frame, or signals. */
  ghost predicate YieldsFlag(img: Image, rt: Runtime, c0: Cpu, c: Cpu, end: int, r: Option<bool>) {
    match r
    case None => Reach(img, rt, Running(c0), Raised(c.heap), 0)
    case Some(b) =>
      exists c' :: Reach(img, rt, Running(c0), Running(c'), 0) && SameFrame(c, c') && c'.pc == end && c'.zf == b
  }

  lemma YieldFlagNow(img: Image, rt: Runtime, c0: Cpu, c: Cpu, c': Cpu, end: int)
    requires Reach(img, rt, Running(c0), Running(c'), 0) && SameFrame(c, c') && c'.pc == end
    ensures YieldsFlag(img, rt, c0, c, end, Some(c'.zf))
  {
    hide Reach;
  }

  /** The generic call, whose result is compared with T. */
  lemma RunFlagCall(img: Image, rt: Runtime, tg: map<Label, int>, c0: Cpu, c: Cpu, rest: Code)
    requires rt.Linked() && Reach(img, rt, Running(c0), Running(c), 0)
    requires CodeAt(img, c.pc, PredicateCall(rt, GenericEqual) + ([Plain(CmpMem(ESI, 4))] + rest), tg)
    ensures YieldsFlag(img, rt, c0, c, c.pc + 21, rt.numEqual(c.edx, c.eax))
  {
    hide Reach, CodeAt, Encode, Exec, PredicateCall, rt.Linked;
    var cmp := Plain(CmpMem(ESI, 4));
    RunPredicateCall(img, rt, tg, c0, c, GenericEqual, [cmp] + rest);
    var r := rt.numEqual(c.edx, c.eax);
    if r.Some? {
      var c1 :| Reach(img, rt, Running(c0), Running(c1), 0) && SameFrame(c, c1) && c1.pc == c.pc + 18 && c1.eax == rt.Truth(r.value);
      Advance(img, rt, tg, c0, c1, [cmp] + rest, cmp, rest);
      SelectLengths(NE, 0);
      ExecLoadConstant(rt, c1.(pc := c1.pc + 3));
      TruthIsT(rt, r.value);
      YieldFlagNow(img, rt, c0, c, SubFlags(c1.(pc := c1.pc + 3), c1.eax, rt.tWord), c.pc + 21);
    }
  }

  lemma TruthIsT(rt: Runtime, b: bool)
    requires rt.Linked()
    ensures rt.Truth(b) == rt.tWord <==> b
    ensures rt.Truth(b) == rt.nilWord <==> !b
    ensures forall c: Cpu :: SubFlags(c, rt.Truth(b), rt.tWord).zf == b
  {
  }

  lemma FlagLayout(img: Image, rt: Runtime, tg: map<Label, int>, c: Cpu, al: bool, dl: bool, rest: Code)
    requires al || dl
    requires CodeAt(img, c.pc, EqualFlagTail(rt, al, dl) + rest, tg)
    ensures var tests, call := TagTests(al, dl, 4), PredicateCall(rt, GenericEqual) + ([Plain(CmpMem(ESI, 4))] + rest);
            var inline := [Plain(CmpEaxEdx)] + ([Plain(Jmp8(21))] + call);
            && EqualFlagTail(rt, al, dl) + rest == tests + inline
            && CodeAt(img, c.pc + Size(tests), inline, tg)
            && CodeAt(img, c.pc + Size(tests) + 4, call, tg)
            && Size(EqualFlagTail(rt, al, dl)) == Size(tests) + 25
  {
    hide CodeAt, Encode, PredicateCall, TagTests, Size, Len;
    var tests, pc, cmp := TagTests(al, dl, 4), PredicateCall(rt, GenericEqual), [Plain(CmpMem(ESI, 4))];
    var front := [Plain(CmpEaxEdx), Plain(Jmp8(21))];
    var inline := [Plain(CmpEaxEdx)] + ([Plain(Jmp8(21))] + (pc + (cmp + rest)));
    assert inline == front + (pc + (cmp + rest));
    assert EqualFlagTail(rt, al, dl) == tests + (front + (pc + cmp));
    assert EqualFlagTail(rt, al, dl) + rest == tests + inline;
    SelectLengths(NE, 21);
    SizePair(Plain(CmpEaxEdx), Plain(Jmp8(21)));
    SizePair(cmp[0], cmp[0]);
    CallLengths(rt, GenericEqual);
    SizeConcat(pc, cmp);
    SizeConcat(front, pc + cmp);
    SizeConcat(tests, front + (pc + cmp));
    CodeAtConcat(img, c.pc, tests, inline, tg);
    CodeAtConcat(img, c.pc + Size(tests), front, pc + (cmp + rest), tg);
  }

  lemma CompareFlag(c: Cpu)
    requires IsFixnum(c.eax) && IsFixnum(c.edx)
    ensures SubFlags(c, c.eax, c.edx).zf <==> Integer(c.edx) == Integer(c.eax)
  {
    CompareFlags(c, c.eax, c.edx);
    FixnumWord(c.eax);
    FixnumWord(c.edx);
  }

  lemma RunEqualFlag(img: Image, rt: Runtime, tg: map<Label, int>, c0: Cpu, c: Cpu, al: bool, dl: bool, rest: Code)
    requires rt.Linked() && Reach(img, rt, Running(c0), Running(c), 0)
    requires TestsSuffice(al, dl, c)
    requires CodeAt(img, c.pc, EqualFlagTail(rt, al, dl) + rest, tg)
    ensures YieldsFlag(img, rt, c0, c, c.pc + Size(EqualFlagTail(rt, al, dl)), EqualValue(rt, c.edx, c.eax))
  {
    hide Reach, CodeAt, Encode, Exec, PredicateCall, rt.Linked, TagTests, SubFlags, Size, EqualFlagTail, IsFixnum, Integer;
    SelectLengths(NE, 21);
    if al || dl {
      FlagLayout(img, rt, tg, c, al, dl, rest);
      var call := PredicateCall(rt, GenericEqual) + ([Plain(CmpMem(ESI, 4))] + rest);
      var inline := [Plain(CmpEaxEdx)] + ([Plain(Jmp8(21))] + call);
      var c1 := RunTagTests(img, rt, tg, c0, c, al, dl, 4, inline);
      if IsFixnum(c.eax) && IsFixnum(c.edx) {
        RunFlagInline(img, rt, tg, c0, c1, [Plain(Jmp8(21))] + call, 21);
        YieldsFlagSame(img, rt, c0, c, c1, c1.pc + 25, Some(Integer(c.edx) == Integer(c.eax)));
      } else {
        RunFlagCall(img, rt, tg, c0, c1, rest);
        YieldsFlagSame(img, rt, c0, c, c1, c1.pc + 21, rt.numEqual(c.edx, c.eax));
      }
    } else {
      assert EqualFlagTail(rt, al, dl) == [Plain(CmpEaxEdx)] by { FlagUntested(rt); }
      SizePair(Plain(CmpEaxEdx), Plain(CmpEaxEdx));
      RunFlagInline(img, rt, tg, c0, c, rest, 0);
    }
  }

  lemma FlagUntested(rt: Runtime)
    ensures EqualFlagTail(rt, false, false) == [Plain(CmpEaxEdx)]
  {
  }

  lemma YieldsFlagSame(img: Image, rt: Runtime, c0: Cpu, c: Cpu, c1: Cpu, end: int, r: Option<bool>)
    requires SameFrame(c, c1) && YieldsFlag(img, rt, c0, c1, end, r)
    ensures YieldsFlag(img, rt, c0, c, end, r)
  {
    hide Reach;
  }

  /** cmp, and the jump over the call when there is one. */
  lemma RunFlagInline(img: Image, rt: Runtime, tg: map<Label, int>, c0: Cpu, c: Cpu, rest: Code, over: int)
    requires rt.Linked() && Reach(img, rt, Running(c0), Running(c), 0)
    requires IsFixnum(c.eax) && IsFixnum(c.edx)
    requires CodeAt(img, c.pc, [Plain(CmpEaxEdx)] + rest, tg)
    requires over != 0 ==> rest != [] && rest[0] == Plain(Jmp8(over))
    ensures YieldsFlag(img, rt, c0, c, c.pc + (if over != 0 then 4 + over else 2), Some(Integer(c.edx) == Integer(c.eax)))
  {
    hide Reach, CodeAt, Encode, Exec, SubFlags, rt.Linked, IsFixnum, Integer;
    SelectLengths(NE, over);
    Advance(img, rt, tg, c0, c, [Plain(CmpEaxEdx)] + rest, Plain(CmpEaxEdx), rest);
    ExecLoadConstant(rt, c.(pc := c.pc + 2));
    var c1 := SubFlags(c.(pc := c.pc + 2), c.eax, c.edx);
    SubFlagsFrame(c, c.(pc := c.pc + 2), c.eax, c.edx);
    CompareFlag(c);
    if over != 0 {
      assert rest == [Plain(Jmp8(over))] + rest[1..];
      Advance(img, rt, tg, c0, c1, rest, Plain(Jmp8(over)), rest[1..]);
      ExecJump(rt, NE, over, c1.(pc := c.pc + 4));
      YieldFlagNow(img, rt, c0, c, c1.(pc := c.pc + 4 + over), c.pc + 4 + over);
    } else {
      YieldFlagNow(img, rt, c0, c, c1, c.pc + 2);
    }
  }
}
