/**
 The value of a RETURN-FROM: whatever the destination asked for, it is computed in EAX, unless it is
 pushed without ever having been there.
 */
module ReturnValues {
  import opened Words
  import opened X86
  import opened Runtime
  import opened Machine
  import opened Lisp
  import opened CodeGen
  import opened Relation
  import opened Steps
  import opened Tails
  import opened Glue
  import opened Layout
  import opened Calls
  import opened Exits
  import opened Parts

  lemma BodiesCount(x: Form, d: Dest, d': Dest, q: Misplaced)
    requires x.Let? || x.LetStar? || x.Block? || x.Tagbody? || x.Setq?
    ensures Count(x, d, q) == Count(x, d', q)
  {
    hide CountForms, CountInits, CountSeq, CountChain, CountItems, Inside, Misplaces, BoundNames;
  }

  lemma TestsCount(x: Form, d: Dest, d': Dest, q: Misplaced)
    requires x.If? || x.IfElse?
    ensures Count(x, d, q) == Count(x, d', q)
  {
    hide CountForms, CountInits, CountSeq, CountChain, CountItems, TestDest, Inside, Misplaces, BoundNames;
  }

  lemma AtomsCount(x: Form, d: Dest, d': Dest, q: Misplaced)
    requires x.Lit? || x.SymLit? || x.NilForm? || x.Var? || x.Null?
    ensures Count(x, d, q) == Count(x, d', q)
  {
    hide CountForms, CountInits, CountSeq, CountChain, CountItems, TestDest, Inside, Misplaces, BoundNames;
  }

  lemma PlainCounts(x: Form, d: Dest, d': Dest, q: Misplaced)
    requires !x.Progn? && !IsExit(x)
    ensures Count(x, d, q) == Count(x, d', q)
  {
    hide Count;
    if x.Let? || x.LetStar? || x.Block? || x.Tagbody? || x.Setq? {
      BodiesCount(x, d, d', q);
    } else if x.If? || x.IfElse? {
      TestsCount(x, d, d', q);
    } else if IsCall(x) {
      UnfoldCallGos(x, d, q);
      UnfoldCallGos(x, d', q);
    } else {
      AtomsCount(x, d, d', q);
    }
  }

  lemma BodyCounts(body: Forms, d: Dest, q: Misplaced)
    ensures body.NoForms? ==> CountForms(body, d, q) == 0
    ensures body.Forms? ==> CountForms(body, d, q) == if body.tail.NoForms? then Count(body.head, d, q) else CountSeq(body, q)
  {
    hide Count, CountSeq;
  }

  /** What a form that is not an exit contains does not depend on its destination. */
  lemma {:induction false} SameCounts(x: Form, d: Dest, d': Dest, q: Misplaced)
    requires !IsExit(x)
    ensures Count(x, d, q) == Count(x, d', q)
    decreases x
  {
    hide Count, CountForms, CountSeq;
    if x.Progn? {
      PrognCount(x, d, q);
      PrognCount(x, d', q);
      BodyCounts(x.body, d, q);
      BodyCounts(x.body, d', q);
      if x.body.Forms? && x.body.tail.NoForms? {
        SameCounts(x.body.head, d, d', q);
      }
    } else {
      PlainCounts(x, d, d', q);
    }
  }

  lemma {:induction false} SameAccepts(rt: Runtime, x: Form, d: Dest, d': Dest, cx: Context)
    requires !IsExit(x)
    ensures Accepts(rt, x, d, cx) == Accepts(rt, x, d', cx)
    decreases x
  {
    hide AcceptsInits, AcceptsSeq, AcceptsChain, AcceptsItems, AcceptsSetq, Arg1Dest, TestDest, Next;
    if x.Progn? && x.body.Forms? && x.body.tail.NoForms? {
      SameAccepts(rt, x.body.head, d, d', cx);
    }
  }

  /** Any other form computes its value in EAX and pushes it from there. */
  lemma {:induction false} ThroughEax(rt: Runtime, x: Form, cx: Context)
    requires !PushesDirectly(x, Lexical(cx.recs)) && !IsExit(x) && Accepts(rt, x, ToStack, cx)
    ensures Gen(rt, x, ToStack, cx) == Gen(rt, x, ToOperand, cx) + [Plain(Push(EAX))]
    decreases x
  {
    hide Gen, Size, Slots, Count, GenSeq, Encode;
    TargetsOf();
    match x
    case Progn(body) => ThroughProgn(rt, x, cx);
    case If(test, thn) => UnfoldIf2(rt, x, cx);
    case IfElse(_, _, _) => UnfoldIf2(rt, x, cx);
    case Let(_, _) => UnfoldLet(rt, x, ToStack, cx); UnfoldLet(rt, x, ToOperand, cx);
    case LetStar(_) => UnfoldLetStar(rt, x, ToStack, cx); UnfoldLetStar(rt, x, ToOperand, cx);
    case Block(_, _) => UnfoldBlock(rt, x, ToStack, cx); UnfoldBlock(rt, x, ToOperand, cx);
    case Tagbody(_) => UnfoldTagbody(rt, x, ToStack, cx); UnfoldTagbody(rt, x, ToOperand, cx);
    case Setq(_) => UnfoldSetq(rt, x, ToStack, cx); UnfoldSetq(rt, x, ToOperand, cx);
    case Var(n) =>
      LexicalFound(cx.recs, n);
      ThroughGlobal(rt, x, cx);
    case Null(_) => UnfoldNull(rt, x, ToStack, cx); UnfoldNull(rt, x, ToOperand, cx);
    case _ => ThroughCall(rt, x, cx);
  }

  lemma TargetsOf()
    ensures Target(ToStack) == [Plain(Push(EAX))] && Target(ToOperand) == [] && PushIfStack(ToStack) == [Plain(Push(EAX))] && PushIfStack(ToOperand) == []
  {
  }

  lemma ThroughProgn(rt: Runtime, x: Form, cx: Context)
    requires x.Progn? && !PushesDirectly(x, Lexical(cx.recs)) && !IsExit(x) && Accepts(rt, x, ToStack, cx)
    ensures Gen(rt, x, ToStack, cx) == Gen(rt, x, ToOperand, cx) + [Plain(Push(EAX))]
    decreases x, 0
  {
    hide GenSeq;
    TargetsOf();
    if x.body.tail.NoForms? {
      ThroughEax(rt, x.body.head, cx);
    } else {
      assert GenSeq(rt, x.body, cx) + [] == GenSeq(rt, x.body, cx);
    }
  }

  lemma UnfoldIf2(rt: Runtime, x: Form, cx: Context)
    requires x.If? || x.IfElse?
    ensures Gen(rt, x, ToStack, cx) == Gen(rt, x, ToOperand, cx) + [Plain(Push(EAX))]
  {
    hide Next, TestDest, TestCond, GenNil, Size, TestCode;
    if x.IfElse? {
    } else if x.test.NumEqual? {
    } else {
    }
  }

  lemma ThroughGlobal(rt: Runtime, x: Form, cx: Context)
    requires x.Var? && FindLet(cx.recs, x.name) < 0 && x.name in rt.vars
    ensures Gen(rt, x, ToStack, cx) == Gen(rt, x, ToOperand, cx) + [Plain(Push(EAX))]
  {
    hide UnboundCall, Size;
    TargetsOf();
  }

  lemma ThroughCall(rt: Runtime, x: Form, cx: Context)
    requires IsCall(x)
    ensures Gen(rt, x, ToStack, cx) == Gen(rt, x, ToOperand, cx) + [Plain(Push(EAX))]
  {
    hide Gen, Gen2, ArithTail, PredicateTail, EqTail, NeedsTest, Arg1Dest;
    TargetsOf();
    UnfoldCallGen(rt, x, ToStack, cx);
    UnfoldCallGen(rt, x, ToOperand, cx);
  }

  /** A form that sets the count has the same code for an operand as for Dest_EAX. */
  lemma {:induction false} CountedCode(rt: Runtime, x: Form, cx: Context)
    requires SetsCount(x)
    ensures Gen(rt, x, ToOperand, cx) == Gen(rt, x, ToEax, cx)
    decreases x
  {
    hide Gen, Size, Slots, Count, GenSeq, Encode;
    assert PushIfStack(ToOperand) == PushIfStack(ToEax) == [];
    match x
    case Progn(body) =>
      PrognForms(rt, x, ToOperand, cx);
      PrognForms(rt, x, ToEax, cx);
      if body.tail.NoForms? {
        CountedCode(rt, body.head, cx);
      }
    case If(test, thn) => UnfoldIf(rt, x, ToOperand, cx); UnfoldIf(rt, x, ToEax, cx);
    case IfElse(_, _, _) => UnfoldIfElse(rt, x, ToOperand, cx); UnfoldIfElse(rt, x, ToEax, cx);
    case Let(_, _) => UnfoldLet(rt, x, ToOperand, cx); UnfoldLet(rt, x, ToEax, cx);
    case LetStar(_) => UnfoldLetStar(rt, x, ToOperand, cx); UnfoldLetStar(rt, x, ToEax, cx);
    case Block(_, _) => UnfoldBlock(rt, x, ToOperand, cx); UnfoldBlock(rt, x, ToEax, cx);
    case Tagbody(_) => UnfoldTagbody(rt, x, ToOperand, cx); UnfoldTagbody(rt, x, ToEax, cx);
  }

  lemma PrognForms(rt: Runtime, x: Form, dest: Dest, cx: Context)
    requires x.Progn?
    ensures Gen(rt, x, dest, cx) == GenForms(rt, x.body, dest, cx)
    ensures x.body.Forms? && x.body.tail.NoForms? ==> GenForms(rt, x.body, dest, cx) == Gen(rt, x.body.head, dest, cx)
    ensures x.body.Forms? && x.body.tail.Forms? ==> GenForms(rt, x.body, dest, cx) == GenSeq(rt, x.body, cx) + PushIfStack(dest)
  {
    hide GenSeq;
  }

  /** Where the value of a RETURN-FROM is computed before it is pushed, if it is to be. */
  function ValueDest(value: Form, dest: Dest): (d: Dest)
    ensures d == ToEax || d == ToOperand
  {
    if dest == ToEax || SetsCount(value) then ToEax else ToOperand
  }

  lemma ValueCode(rt: Runtime, x: Form, dest: Dest, cx: Context)
    requires !IsExit(x) && Accepts(rt, x, dest, cx) && dest != ToZeroFlag
    requires dest == ToStack ==> !PushesDirectly(x, Lexical(cx.recs))
    ensures Gen(rt, x, dest, cx) == Gen(rt, x, ValueDest(x, dest), cx) + PushIfStack(dest)
  {
    hide Gen, Accepts, PushesDirectly, Lexical, SetsCount;
    if SetsCount(x) {
      CountedCode(rt, x, cx);
    }
    if dest == ToStack {
      ThroughEax(rt, x, cx);
    } else {
      assert Gen(rt, x, dest, cx) + [] == Gen(rt, x, dest, cx);
    }
  }

  /** The conditions on the value are met for the destination it is computed for. */
  lemma ValueClean(rt: Runtime, x: Form, dest: Dest, cx: Context, exact: bool)
    requires x.ReturnFrom? && !IsExit(x.value) && CleanForm(x, dest, cx.recs, exact) && Accepts(rt, x.value, dest, cx)
    ensures CleanForm(x.value, ValueDest(x.value, dest), cx.recs, exact) && Accepts(rt, x.value, ValueDest(x.value, dest), cx)
    ensures dest == ToStack ==> !PushesDirectly(x.value, Lexical(cx.recs))
    ensures exact ==> ValueDest(x.value, dest) == ToEax
  {
    hide Count, Accepts, PushesDirectly, Lexical, SetsCount, IsExit;
    ReturnCounts(x, dest);
    SameCounts(x.value, dest, ValueDest(x.value, dest), StackGo);
    SameCounts(x.value, dest, ValueDest(x.value, dest), StackReturn(Lexical(cx.recs)));
    SameCounts(x.value, dest, ValueDest(x.value, dest), UncountedReturn);
    SameAccepts(rt, x.value, dest, ValueDest(x.value, dest), cx);
  }

  lemma ReturnParts(img: Image, rt: Runtime, fr: Frame, tg: map<Label, int>, x: Form, dest: Dest, cx: Context, pc: int, exact: bool)
    requires x.ReturnFrom? && Compiled(img, rt, fr, tg, x, dest, cx, pc, exact)
    ensures var k := FindBlock(cx.recs, x.name);
            && k >= 0 && cx.env <= 4 * fr.slots && dest != ToZeroFlag
            && (IsExit(x.value) ==> Compiled(img, rt, fr, tg, x.value, dest, cx, pc, exact))
    ensures !IsExit(x.value) ==>
              var k, d := FindBlock(cx.recs, x.name), ValueDest(x.value, dest);
              var g := Gen(rt, x.value, d, cx);
              && Compiled(img, rt, fr, tg, x.value, d, cx, pc, exact) && (exact ==> d == ToEax)
              && CodeAt(img, pc + Size(g), PushIfStack(dest) + (Adjust(cx.si + (if dest == ToStack then 4 else 0) - cx.recs[k].depth) + [Exit(Label(k, 0))]), tg)
  {
    hide CodeAt, Size, Gen, Accepts, Count, Slots, Adjust, PushesDirectly, SetsCount, IsExit, Misplaces, PushIfStack, Lexical;
    UnfoldReturn(rt, x, dest, cx);
    var k := FindBlock(cx.recs, x.name);
    var si := cx.si + if dest == ToStack then 4 else 0;
    var v, a, e := Gen(rt, x.value, dest, cx), Adjust(si - cx.recs[k].depth), [Exit(Label(k, 0))];
    assert Next(cx, x.value, dest).si == si;
    assert v + a + e == v + (a + e);
    Split(img, pc, v, a + e, tg);
    if !IsExit(x.value) {
      ValueClean(rt, x, dest, cx, exact);
      ValueCode(rt, x.value, dest, cx);
      var g := Gen(rt, x.value, ValueDest(x.value, dest), cx);
      assert g + PushIfStack(dest) + (a + e) == g + (PushIfStack(dest) + (a + e));
      Split(img, pc, g, PushIfStack(dest) + (a + e), tg);
    }
  }

  /** An exit never delivers a value to the form around it. */
  lemma {:induction false} ExitsDeliverNothing(rt: Runtime, x: Form, st: State, fuel: nat)
    ensures IsExit(x) ==> !Eval(rt, x, st, fuel).Val?
    decreases x
  {
    if x.Progn? && x.body.Forms? && x.body.tail.NoForms? {
      ExitsDeliverNothing(rt, x.body.head, st, fuel);
    }
  }

  /** One operand more on the stack. */
  lemma OneMoreOperand(rt: Runtime, fr: Frame, cx: Context, st: State, c0: Cpu, c: Cpu, c': Cpu, w: Word)
    requires Sound(cx) && At(rt, fr, cx, st, c0, c) && c'.stack == c.stack + [W(w)] && c'.heap == c.heap && c'.ebp == c.ebp
    ensures Sound(cx.(si := cx.si + 4)) && At(rt, fr, cx.(si := cx.si + 4), st, c', c')
    ensures Keeps(fr, cx, c0.stack, c'.stack, fr.Base() + cx.si / 4)
  {
    hide HeapMatch, IsSlot;
    assert (cx.si + 4) / 4 == cx.si / 4 + 1;
    assert forall i :: 0 <= i < |c.stack| ==> c'.stack[i] == c.stack[i];
  }

  /** From the pushed value to the block's end. */
  lemma DropAndExit(img: Image, rt: Runtime, fr: Frame, tg: map<Label, int>, cx: Context, st: State, c0: Cpu, c: Cpu, k: int) returns (c': Cpu)
    requires Sound(cx) && cx.env <= 4 * fr.slots && Sound(cx.(si := cx.si + 4)) && At(rt, fr, cx.(si := cx.si + 4), st, c, c)
    requires Keeps(fr, cx, c0.stack, c.stack, fr.Base() + cx.si / 4)
    requires Reach(img, rt, Running(c0), Running(c), 0) && 0 <= k < |cx.recs| && cx.recs[k].BlockRec?
    requires CodeAt(img, c.pc, Adjust(cx.si + 4 - cx.recs[k].depth) + [Exit(Label(k, 0))], tg)
    ensures Reach(img, rt, Running(c0), Running(c'), 1) && Exited(rt, fr, cx, tg, k, 0, st, c0, c') && c'.eax == c.eax && c'.ecx == c.ecx
  {
    hide Reach, CodeAt, Matches, Keeps, Encode, At, Adjust, Sound, Exited;
    var up := cx.(si := cx.si + 4);
    ReachRefl(img, rt, Running(c));
    c' := RunExit(img, rt, fr, tg, up, st, c, c, k, 0);
    Continue(img, rt, Running(c0), Running(c), Running(c'), 1);
    SoundDepths(cx);
    ExitedAfter(rt, fr, cx, up, tg, k, 0, st, c0, c, c');
  }

  /** From the value in EAX, pushed if it is to be, to the block's end. */
  lemma RunReturn(img: Image, rt: Runtime, fr: Frame, tg: map<Label, int>, cx: Context, dest: Dest, st: State, c0: Cpu, c: Cpu, k: int) returns (c': Cpu)
    requires Sound(cx) && cx.env <= 4 * fr.slots && At(rt, fr, cx, st, c0, c)
    requires Keeps(fr, cx, c0.stack, c.stack, fr.Base() + cx.si / 4)
    requires Reach(img, rt, Running(c0), Running(c), 0) && 0 <= k < |cx.recs| && cx.recs[k].BlockRec?
    requires CodeAt(img, c.pc, PushIfStack(dest) + (Adjust(cx.si + (if dest == ToStack then 4 else 0) - cx.recs[k].depth) + [Exit(Label(k, 0))]), tg)
    ensures Reach(img, rt, Running(c0), Running(c'), 1) && Exited(rt, fr, cx, tg, k, 0, st, c0, c') && c'.eax == c.eax && c'.ecx == c.ecx
  {
    hide Reach, CodeAt, Matches, Keeps, Encode, At, Adjust, Sound, Exited;
    var si := cx.si + if dest == ToStack then 4 else 0;
    var rest := Adjust(si - cx.recs[k].depth) + [Exit(Label(k, 0))];
    if dest == ToStack {
      var push := Plain(Push(EAX));
      Advance(img, rt, tg, c0, c, [push] + rest, push, rest);
      var c2 := PushCell(c, W(c.eax)).(pc := c.pc + Len(push));
      OneMoreOperand(rt, fr, cx, st, c0, c, c2, c.eax);
      c' := DropAndExit(img, rt, fr, tg, cx, st, c0, c2, k);
    } else {
      assert PushIfStack(dest) + rest == rest;
      c' := RunExit(img, rt, fr, tg, cx, st, c0, c, k, 0);
    }
  }
}
