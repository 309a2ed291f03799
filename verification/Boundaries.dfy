/**
 Exits compiled for a destination they do not serve.  RETURN-FROM pushes its value for the stack and
 then drops it on the way out; the block receives the value exactly when the value form also leaves it in EAX.
 */
module Boundaries {
  import opened Words
  import opened X86
  import opened Runtime
  import opened Machine
  import opened Lisp
  import opened CodeGen
  import opened Relation
  import opened Steps
  import opened Leaves
  import opened Tails
  import opened Glue
  import opened Layout
  import opened Calls
  import opened Exits
  import opened Scopes
  import opened Parts
  import opened ReturnValues
  import opened Preservation
  import opened Encoding
  import opened Program
  import opened Fitting
  import opened Stages
  import opened Shorts

  // ----- RETURN-FROM for the stack -----

  lemma PrognOne(rt: Runtime, x: Form, dest: Dest, cx: Context)
    requires x.Progn? && x.body.Forms? && x.body.tail.NoForms?
    ensures Gen(rt, x, dest, cx) == Gen(rt, x.body.head, dest, cx) && Count(x, dest, StackGo) == Count(x.body.head, dest, StackGo)
    ensures Slots(x) == Slots(x.body.head)
  {
    assert SlotsForms(x.body) == Slots(x.body.head) + SlotsForms(x.body.tail);
  }

  /** The one instruction of a directly pushed form, at c: a push that changes nothing else. */
  lemma DirectInstr(rt: Runtime, fr: Frame, x: Form, cx: Context, st: State, c: Cpu) returns (push: Instr, note: Note, w: Word)
    requires PushesDirectly(x, Lexical(cx.recs)) && rt.Linked() && Related(rt, fr, cx, st, c) && !(x.Progn? && x.body.Forms?)
    ensures Gen(rt, x, ToStack, cx) == [I(push, note)]
    ensures forall pc :: Exec(rt, push, c.(pc := pc)) == Running(PushCell(c.(pc := pc), W(w)))
  {
    hide Encode, Sound, Matches, Lexical, FindLet;
    note := NoNote;
    match x
    case Lit(v) => push, w := PushImm(v), v;
    case SymLit(v, _) => push, note, w := PushImm(v), LiteralRef(v), v;
    case Var(n) =>
      LexicalFound(cx.recs, n);
      LexicalCell(rt, fr, cx, st, c, n);
      push, w := PushMem(EBP, cx.recs[FindLet(cx.recs, n)].offset), st.env[FindVar(st.env, n)].1;
    case _ => push, w := PushMem(ESI, 0), rt.nilWord;
  }

  lemma DirectCounts(x: Form, lexical: set<Name>)
    requires PushesDirectly(x, lexical) && !(x.Progn? && x.body.Forms?)
    ensures Count(x, ToStack, StackGo) == 0
  {
    hide FindLet, Gen, Accepts, Slots, Count;
    match x
    case Tagbody(items) =>
      NoStmtGos(items);
      TagbodyCount(x);
    case Setq(pairs) =>
      UnfoldSetqCount(x, ToStack, StackGo);
      EmptySetqCounts(pairs);
    case Progn(body) =>
      PrognCount(x, ToStack, StackGo);
      NoFormsCount(body, ToStack, StackGo);
    case _ => AtomCounts(x, ToStack);
  }

  lemma TagbodyCount(x: Form)
    requires x.Tagbody?
    ensures Count(x, ToStack, StackGo) == CountItems(x.items, StackGo)
  {
    hide CountItems, Gen, Accepts, Slots;
  }

  lemma {:induction false} NoStmtGos(items: Items)
    requires !HasStmt(items)
    ensures CountItems(items, StackGo) == 0
  {
    match items
    case NoItems =>
    case Tag(_, rest) => NoStmtGos(rest);
  }

  lemma {:induction false} DirectPush(img: Image, rt: Runtime, fr: Frame, tg: map<Label, int>, x: Form, cx: Context, st: State, c: Cpu, rest: Code)
    returns (c1: Cpu, w: Word)
    requires PushesDirectly(x, Lexical(cx.recs)) && rt.Linked() && Related(rt, fr, cx, st, c)
    requires CodeAt(img, c.pc, Gen(rt, x, ToStack, cx) + rest, tg)
    ensures Reach(img, rt, Running(c), Running(c1), 0) && CodeAt(img, c1.pc, rest, tg) && c1 == PushCell(c, W(w)).(pc := c1.pc)
    ensures Count(x, ToStack, StackGo) == 0
    decreases x
  {
    hide Reach, CodeAt, Encode, Related, Exec, rt.Linked, Gen, Count, Slots;
    if x.Progn? && x.body.Forms? {
      PrognOne(rt, x, ToStack, cx);
      c1, w := DirectPush(img, rt, fr, tg, x.body.head, cx, st, c, rest);
    } else {
      var push, note, v := DirectInstr(rt, fr, x, cx, st, c);
      w := v;
      DirectCounts(x, Lexical(cx.recs));
      ReachRefl(img, rt, Running(c));
      var it := I(push, note);
      Advance(img, rt, tg, c, c, [it] + rest, it, rest);
      c1 := PushCell(c, W(w)).(pc := c.pc + Len(it));
    }
  }

  lemma ReturnCode(rt: Runtime, x: Form, cx: Context)
    requires x.ReturnFrom? && Accepts(rt, x, ToStack, cx) && Count(x.value, ToStack, StackGo) == 0
    ensures var k := FindBlock(cx.recs, x.name);
            && k >= 0 && Accepts(rt, x.value, ToStack, cx)
            && Gen(rt, x, ToStack, cx) == Gen(rt, x.value, ToStack, cx) + (Adjust(cx.si + 4 - cx.recs[k].depth) + [Exit(Label(k, 0))])
  {
    hide Gen, Accepts, Count, Slots, Adjust;
    UnfoldReturn(rt, x, ToStack, cx);
    var k := FindBlock(cx.recs, x.name);
    var g, a, e := Gen(rt, x.value, ToStack, cx), Adjust(cx.si + 4 - cx.recs[k].depth), [Exit(Label(k, 0))];
    assert Next(cx, x.value, ToStack).si == cx.si + 4;
    assert g + a + e == g + (a + e);
  }

  /** A directly pushed value never reaches the block: EAX is what it was before. */
  lemma StackReturnLoses(img: Image, rt: Runtime, fr: Frame, tg: map<Label, int>, x: Form, cx: Context, st: State, c: Cpu) returns (c': Cpu)
    requires x.ReturnFrom? && PushesDirectly(x.value, Lexical(cx.recs)) && rt.Linked() && Accepts(rt, x, ToStack, cx)
    requires Related(rt, fr, cx, st, c) && CodeAt(img, c.pc, Gen(rt, x, ToStack, cx), tg)
    ensures Reach(img, rt, Running(c), Running(c'), 1) && Exited(rt, fr, cx, tg, FindBlock(cx.recs, x.name), 0, st, c, c')
    ensures c'.eax == c.eax && c'.ecx == c.ecx
  {
    hide Reach, CodeAt, Matches, Keeps, Encode, At, Adjust, Sound, Exited, Related, Gen, Accepts, Count, rt.Linked, PushesDirectly;
    var k := FindBlock(cx.recs, x.name);
    DirectNoGos(rt, fr, x.value, cx, st, c);
    ReturnCode(rt, x, cx);
    var rest := Adjust(cx.si + 4 - cx.recs[k].depth) + [Exit(Label(k, 0))];
    var c1, w := DirectPush(img, rt, fr, tg, x.value, cx, st, c, rest);
    RelatedSound(rt, fr, cx, st, c);
    RelatedIsAt(rt, fr, cx, st, c);
    OneMoreOperand(rt, fr, cx, st, c, c, c1, w);
    c' := DropAndExit(img, rt, fr, tg, cx, st, c, c1, k);
  }

  lemma {:induction false} DirectNoGos(rt: Runtime, fr: Frame, x: Form, cx: Context, st: State, c: Cpu)
    requires PushesDirectly(x, Lexical(cx.recs))
    ensures Count(x, ToStack, StackGo) == 0
    decreases x
  {
    hide Count;
    if x.Progn? && x.body.Forms? {
      PrognOne(rt, x, ToStack, cx);
      DirectNoGos(rt, fr, x.body.head, cx, st, c);
    } else {
      DirectCounts(x, Lexical(cx.recs));
    }
  }

  /** Every other value does: it is in EAX when the block's end is reached. */
  lemma StackReturnKeeps(img: Image, rt: Runtime, fr: Frame, tg: map<Label, int>, x: Form, cx: Context, st: State, c: Cpu, fuel: nat) returns (c': Cpu)
    requires x.ReturnFrom? && !PushesDirectly(x.value, Lexical(cx.recs)) && rt.Linked() && Accepts(rt, x, ToStack, cx)
    requires CleanForm(x.value, ToStack, cx.recs, false) && cx.env + 4 * Slots(x) <= 4 * fr.slots
    requires Related(rt, fr, cx, st, c) && CodeAt(img, c.pc, Gen(rt, x, ToStack, cx), tg)
    requires Eval(rt, x.value, st, fuel).Val?
    ensures Reach(img, rt, Running(c), Running(c'), 1) && Exited(rt, fr, cx, tg, FindBlock(cx.recs, x.name), 0, Eval(rt, x.value, st, fuel).st, c, c')
    ensures c'.eax == Eval(rt, x.value, st, fuel).w
  {
    hide Reach, CodeAt, Exited, Related, Gen, Accepts, Count, rt.Linked, PushesDirectly, Eval, Slots, Size, Lexical;
    UnfoldReturn(rt, x, ToStack, cx);
    CompiledArg(img, rt, fr, tg, x, ToStack, cx, c.pc, false);
    Sim(img, rt, fr, tg, x, ToStack, cx, st, c, fuel, false);
    ReturnOutcome(rt, x, st, fuel);
    c' :| Reach(img, rt, Running(c), Running(c'), 1)
          && Exited(rt, fr, cx, tg, FindBlock(cx.recs, x.name), 0, Eval(rt, x.value, st, fuel).st, c, c')
          && c'.eax == Eval(rt, x.value, st, fuel).w;
  }

  /**
   A value that comes from code compiled for Dest_EAX brings its count along, whatever the destination
   of the RETURN-FROM: ECX is one at the block's end.
   */
  lemma CountedReturn(img: Image, rt: Runtime, fr: Frame, tg: map<Label, int>, x: Form, dest: Dest, cx: Context, st: State, c: Cpu, fuel: nat) returns (c': Cpu)
    requires x.ReturnFrom? && SetsCount(x.value) && dest != ToZeroFlag && rt.Linked() && Accepts(rt, x, dest, cx)
    requires CleanForm(x.value, dest, cx.recs, true) && cx.env + 4 * Slots(x) <= 4 * fr.slots
    requires Related(rt, fr, cx, st, c) && CodeAt(img, c.pc, Gen(rt, x, dest, cx), tg)
    requires Eval(rt, x.value, st, fuel).Val?
    ensures Reach(img, rt, Running(c), Running(c'), 1) && Exited(rt, fr, cx, tg, FindBlock(cx.recs, x.name), 0, Eval(rt, x.value, st, fuel).st, c, c')
    ensures c'.eax == Eval(rt, x.value, st, fuel).w && c'.ecx == 1
  {
    hide Reach, CodeAt, Exited, Related, Gen, Accepts, Count, rt.Linked, PushesDirectly, SetsCount, Eval, Slots, Size, Lexical;
    UnfoldReturn(rt, x, dest, cx);
    CountedNotDirect(x.value, Lexical(cx.recs));
    CompiledArg(img, rt, fr, tg, x, dest, cx, c.pc, true);
    Sim(img, rt, fr, tg, x, dest, cx, st, c, fuel, true);
    ReturnOutcome(rt, x, st, fuel);
    c' :| Reach(img, rt, Running(c), Running(c'), 1)
          && Exited(rt, fr, cx, tg, FindBlock(cx.recs, x.name), 0, Eval(rt, x.value, st, fuel).st, c, c')
          && c'.eax == Eval(rt, x.value, st, fuel).w && c'.ecx == 1;
  }

  lemma {:induction false} CountedNotDirect(x: Form, lexical: set<Name>)
    requires SetsCount(x)
    ensures !PushesDirectly(x, lexical)
    decreases x
  {
    if x.Progn? && x.body.tail.NoForms? {
      CountedNotDirect(x.body.head, lexical);
    }
  }

  // ----- whole programs that go wrong -----

  /** (block b (- (return-from b w) y)): the value is compiled for the stack. */
  function LosingProgram(w: Word, y: Word): Form {
    Block("b", Forms(ArithCall(Minus, ReturnFrom("b", Lit(w)), Lit(y)), NoForms))
  }

  /** (block b (if (return-from b w) nil nil)): the value is compiled without a value count. */
  function UncountedProgram(w: Word): Form {
    Block("b", Forms(IfElse(ReturnFrom("b", Lit(w)), NilForm, NilForm), NoForms))
  }

  function InBlock(check: bool): Context {
    BlockContext(Start(check), "b")
  }

  /** From the end of the outermost block to the return. */
  lemma BlockReturns(img: Image, rt: Runtime, fr: Frame, check: bool, tg: map<Label, int>, n: int, st: State, c: Cpu, c1: Cpu, c2: Cpu) returns (c': Cpu)
    requires fr.ebp == |c.stack| && |c.stack| > 0 && |c1.stack| == fr.Base() && c1.stack[..|c.stack|] == c.stack && c1.stack[|c.stack|] == Link(c.ebp)
    requires Related(rt, fr, Start(check), st, c1) && Reach(img, rt, Running(c), Running(c1), 0) && Reach(img, rt, Running(c1), Running(c2), 1)
    requires Label(0, 0) in tg && Exited(rt, fr, InBlock(check), tg, 0, 0, st, c1, c2)
    requires CodeAt(img, tg[Label(0, 0)], Epilog(), map[])
    ensures Reach(img, rt, Running(c), Halted(c'), 0) && c'.eax == c2.eax && c'.ecx == c2.ecx
  {
    hide Reach, CodeAt, Encode, Exited, Epilog, HeapMatch, Finished, Keeps;
    var cx := Start(check);
    RelatedSound(rt, fr, cx, st, c1);
    NestedMarker(cx, InBlock(check), BlockRec("b", 0));
    CatchReturn(rt, fr, cx, InBlock(check), tg, st, c1, c2, c2.eax, false);
    FrameKept(rt, fr, check, tg[Label(0, 0)], c2.eax, Truncate(st, 0), c, c1, c2, false);
    ReachWeaken(img, rt, Running(c1), Running(c2), 1, 0);
    Continue(img, rt, Running(c), Running(c1), Running(c2), 0);
    c' := RunEpilog(img, rt, map[], c, c2, c.ebp);
  }

  /** Where the body of a program that is one block stands, and where the block ends. */
  lemma BlockStands(img: Image, rt: Runtime, x: Form, check: bool, n: int) returns (tg: map<Label, int>)
    requires x.Block? && x.name == "b" && Slots(x) < 0x1_0000_0000
    requires CodeAt(img, n, Gen(rt, x, ToEax, Start(check)), map[]) && CodeAt(img, n + Size(Gen(rt, x, ToEax, Start(check))), Epilog(), map[])
    ensures CodeAt(img, n, GenForms(rt, x.body, ToEax, InBlock(check)), tg)
    ensures Label(0, 0) in tg && CodeAt(img, tg[Label(0, 0)], Epilog(), map[])
  {
    hide CodeAt, Gen, GenForms, Size, Epilog, Slots, SettleAll, Retarget;
    UnfoldBlock(rt, x, ToEax, Start(check));
    var b := GenForms(rt, x.body, ToEax, InBlock(check));
    NoPush(SettleAll(b, 0, 0, [Size(b)]));
    SettleSize(b, 0, 0, [Size(b)]);
    SettledCode(img, n, b, 0, 0, [Size(b)], map[]);
    tg := Retarget(map[], 0, [Size(b)], n);
    RetargetFacts(map[], 0, [Size(b)], n);
  }

  lemma NoPush(c: Code)
    ensures c + PushIfStack(ToEax) == c
  {
  }

  /** The evaluator returns w; the compiled program returns whatever its caller had in EAX. */
  lemma LostValue(rt: Runtime, w: Word, y: Word, check: bool, c: Cpu, globals: map<Name, Word>) returns (c': Cpu)
    requires rt.Linked() && Bounded(rt, LosingProgram(w, y), check) && c.pc == 0 && |c.stack| > 0 && HeapMatch(rt, globals, c.heap)
    ensures Eval(rt, LosingProgram(w, y), State([], globals), 0) == Val(w, State([], globals))
    ensures Accepts(rt, LosingProgram(w, y), ToEax, Start(check))
    ensures Reach(ByteImage(BytesOf(ExpressionCode(rt, LosingProgram(w, y), check))), rt, Running(c), Halted(c'), 0) && c'.eax == c.eax
  {
    hide Reach, CodeAt, Encode, Gen, ByteImage, BytesOf, ExpressionCode, rt.Linked, HeapMatch, Related, Exited, Epilog, Size, Prolog, ArithTail, PredicateTail;
    var x, cx := LosingProgram(w, y), InBlock(check);
    LosingFacts(rt, w, y, check, globals);
    ProgramHolds(rt, x, check);
    var img := ByteImage(BytesOf(ExpressionCode(rt, x, check)));
    ProgramParts(rt, x, check, img);
    var c1 := EnterProgram(rt, x, check, globals, c, img);
    var tg := BlockStands(img, rt, x, check, c1.pc);
    LosingCode(img, rt, w, y, check, c1.pc, tg);
    var fr, r, st := Frame(|c.stack|, 0), ReturnFrom("b", Lit(w)), State([], globals);
    InnerRelated(rt, fr, check, st, c1);
    var c2 := StackReturnLoses(img, rt, fr, tg, r, cx, st, c1);
    c' := BlockReturns(img, rt, fr, check, tg, 0, st, c, c1, c2);
  }

  lemma InnerRelated(rt: Runtime, fr: Frame, check: bool, st: State, c: Cpu)
    requires Related(rt, fr, Start(check), st, c)
    ensures Related(rt, fr, InBlock(check), st, c)
  {
    hide HeapMatch, Sound, VarsMatch, Vars;
    NestedMarker(Start(check), InBlock(check), BlockRec("b", 0));
  }

  lemma LosingFacts(rt: Runtime, w: Word, y: Word, check: bool, globals: map<Name, Word>)
    ensures var x, st := LosingProgram(w, y), State([], globals);
            && Eval(rt, x, st, 0) == Val(w, st) && Accepts(rt, x, ToEax, Start(check)) && Count(x, ToEax, StackGo) == 0 && Slots(x) == 0
            && Accepts(rt, ReturnFrom("b", Lit(w)), ToStack, InBlock(check)) && FindBlock(InBlock(check).recs, "b") == 0
  {
    var r, st, cx := ReturnFrom("b", Lit(w)), State([], globals), InBlock(check);
    var a := ArithCall(Minus, r, Lit(y));
    ReturnFacts(rt, w, ToStack, check, globals);
    EvalCall(rt, a, st, 0);
    BlockFacts(rt, a, ToEax, check, globals, w);
  }

  lemma ReturnFacts(rt: Runtime, w: Word, dest: Dest, check: bool, globals: map<Name, Word>)
    requires dest == ToStack || dest == ToOperand
    ensures var r, st, cx := ReturnFrom("b", Lit(w)), State([], globals), InBlock(check);
            && Eval(rt, r, st, 0) == Return("b", w, st) && Accepts(rt, r, dest, cx) && Count(r, dest, StackGo) == 0 && Slots(r) == 0
            && FindBlock(cx.recs, "b") == 0 && cx.recs == [BlockRec("b", 0)]
  {
    var v, cx := Lit(w), InBlock(check);
    assert cx.recs == [BlockRec("b", 0)];
    assert Eval(rt, v, State([], globals), 0) == Val(w, State([], globals));
    assert Accepts(rt, v, dest, cx) && Count(v, dest, StackGo) == 0 && Slots(v) == 0;
  }

  /** A block around one form that exits it with w. */
  lemma BlockFacts(rt: Runtime, a: Form, dest: Dest, check: bool, globals: map<Name, Word>, w: Word)
    requires var st := State([], globals); Eval(rt, a, st, 0) == Return("b", w, st)
    ensures var x, st := Block("b", Forms(a, NoForms)), State([], globals);
            && Eval(rt, x, st, 0) == Val(w, st) && Accepts(rt, x, dest, Start(check)) == Accepts(rt, a, ToEax, InBlock(check))
            && Count(x, dest, StackGo) == Count(a, ToEax, StackGo) && Slots(x) == Slots(a)
  {
    var f, st := Forms(a, NoForms), State([], globals);
    assert EvalForms(rt, f, st, 0) == Eval(rt, a, st, 0);
    assert SlotsForms(f) == Slots(a) + SlotsForms(f.tail);
    assert CountForms(f, ToEax, StackGo) == Count(a, ToEax, StackGo);
    assert AcceptsForms(rt, f, ToEax, InBlock(check)) == Accepts(rt, a, ToEax, InBlock(check));
  }

  lemma LosingCode(img: Image, rt: Runtime, w: Word, y: Word, check: bool, pc: int, tg: map<Label, int>)
    requires CodeAt(img, pc, GenForms(rt, LosingProgram(w, y).body, ToEax, InBlock(check)), tg)
    ensures CodeAt(img, pc, Gen(rt, ReturnFrom("b", Lit(w)), ToStack, InBlock(check)), tg)
  {
    hide CodeAt, Gen, Gen2, CallTail, Encode, Size;
    var a, cx := LosingProgram(w, y).body.head, InBlock(check);
    OneForm(rt, a, cx);
    UnfoldCallGen(rt, a, ToEax, cx);
    Split(img, pc, Gen2(rt, a, a.arg1, a.arg2, cx), CallTail(rt, a, ToEax, cx.check), tg);
    CallFirst(img, rt, tg, a, cx, pc);
  }

  lemma OneForm(rt: Runtime, a: Form, cx: Context)
    ensures GenForms(rt, Forms(a, NoForms), ToEax, cx) == Gen(rt, a, ToEax, cx)
  {
    hide Gen;
  }

  // ----- the value count -----

  /** The one instruction of such a form compiled for an operand: EAX is loaded, and ECX is left alone. */
  lemma DirectLoad(rt: Runtime, fr: Frame, x: Form, cx: Context, st: State, c: Cpu, pc: int) returns (load: Instr, note: Note, w: Word)
    requires PushesDirectly(x, Lexical(cx.recs)) && rt.Linked() && Related(rt, fr, cx, st, c) && !(x.Progn? && x.body.Forms?)
    ensures Gen(rt, x, ToOperand, cx) == [I(load, note)] && Eval(rt, x, st, 0) == Val(w, st)
    ensures var m := Exec(rt, load, c.(pc := pc));
            m.Running? && m.cpu == c.(pc := pc, eax := w, zf := m.cpu.zf, sf := m.cpu.sf, of := m.cpu.of)
  {
    hide Encode, Sound, Matches, MovObj, Exec, Lexical, FindLet;
    note := NoNote;
    match x
    case Lit(v) =>
      load, w := MovObj(EAX, v), v;
      MovObjRuns(rt, v, c.(pc := pc));
    case SymLit(v, _) =>
      load, note, w := MovImm(EAX, v), LiteralRef(v), v;
      ImmediateRuns(rt, v, c.(pc := pc));
    case Var(n) =>
      LexicalFound(cx.recs, n);
      LexicalCell(rt, fr, cx, st, c, n);
      w := st.env[FindVar(st.env, n)].1;
      load := Load(EAX, EBP, cx.recs[FindLet(cx.recs, n)].offset);
      SlotRuns(rt, load.disp, w, c.(pc := pc));
    case _ =>
      load, w := Load(EAX, ESI, 0), rt.nilWord;
      NilRuns(rt, c.(pc := pc));
      NothingValue(rt, x, cx, st);
  }

  lemma ImmediateRuns(rt: Runtime, w: Word, c: Cpu)
    ensures Exec(rt, MovImm(EAX, w), c) == Running(c.(eax := w))
  {
  }

  lemma NilRuns(rt: Runtime, c: Cpu)
    requires rt.Linked()
    ensures Exec(rt, Load(EAX, ESI, 0), c) == Running(c.(eax := rt.nilWord))
  {
  }

  lemma SlotRuns(rt: Runtime, disp: int, w: Word, c: Cpu)
    requires FrameCell(c, disp) && c.stack[c.ebp - disp / 4] == W(w)
    ensures Exec(rt, Load(EAX, EBP, disp), c) == Running(c.(eax := w))
  {
  }

  lemma NothingValue(rt: Runtime, x: Form, cx: Context, st: State)
    requires PushesDirectly(x, Lexical(cx.recs)) && (x.NilForm? || x.Setq? || x.Tagbody? || (x.Progn? && x.body.NoForms?))
    ensures Gen(rt, x, ToOperand, cx) == [LoadNil()] && Eval(rt, x, st, 0) == Val(rt.nilWord, st)
  {
    if x.Tagbody? {
      TagsOnly(rt, x.items, x.items, |st.env|, st, 0);
    }
  }

  /** Such a value is loaded into EAX; nothing else that matters changes. */
  lemma {:induction false} DirectOperand(img: Image, rt: Runtime, fr: Frame, tg: map<Label, int>, x: Form, cx: Context, st: State, c: Cpu, rest: Code)
    returns (c1: Cpu)
    requires PushesDirectly(x, Lexical(cx.recs)) && rt.Linked() && Related(rt, fr, cx, st, c)
    requires CodeAt(img, c.pc, Gen(rt, x, ToOperand, cx) + rest, tg)
    ensures Reach(img, rt, Running(c), Running(c1), 0) && CodeAt(img, c1.pc, rest, tg) && Eval(rt, x, st, 0) == Val(c1.eax, st)
    ensures c1 == c.(pc := c1.pc, eax := c1.eax, zf := c1.zf, sf := c1.sf, of := c1.of) && Count(x, ToOperand, StackGo) == 0
    decreases x
  {
    hide Reach, CodeAt, Encode, Related, Exec, rt.Linked, Gen, Count, Slots, Eval;
    if x.Progn? && x.body.Forms? {
      PrognOne(rt, x, ToOperand, cx);
      PrognValue(rt, x, st);
      c1 := DirectOperand(img, rt, fr, tg, x.body.head, cx, st, c, rest);
    } else {
      ReachRefl(img, rt, Running(c));
      DirectCounts(x, Lexical(cx.recs));
      SameCounts(x, ToOperand, ToStack, StackGo);
      var load, note, w := DirectLoad(rt, fr, x, cx, st, c, c.pc);
      var it := I(load, note);
      load, note, w := DirectLoad(rt, fr, x, cx, st, c, c.pc + Len(it));
      Advance(img, rt, tg, c, c, [it] + rest, it, rest);
      c1 := Exec(rt, load, c.(pc := c.pc + Len(it))).cpu;
    }
  }

  lemma PrognValue(rt: Runtime, x: Form, st: State)
    requires x.Progn? && x.body.Forms? && x.body.tail.NoForms?
    ensures Eval(rt, x, st, 0) == Eval(rt, x.body.head, st, 0)
  {
  }

  lemma OperandCode(rt: Runtime, x: Form, cx: Context)
    requires x.ReturnFrom? && Accepts(rt, x, ToOperand, cx) && Count(x.value, ToOperand, StackGo) == 0
    ensures var k := FindBlock(cx.recs, x.name);
            && k >= 0 && Accepts(rt, x.value, ToOperand, cx)
            && Gen(rt, x, ToOperand, cx) == Gen(rt, x.value, ToOperand, cx) + (Adjust(cx.si - cx.recs[k].depth) + [Exit(Label(k, 0))])
  {
    hide Gen, Accepts, Count, Slots, Adjust;
    UnfoldReturn(rt, x, ToOperand, cx);
    var k := FindBlock(cx.recs, x.name);
    var g, a, e := Gen(rt, x.value, ToOperand, cx), Adjust(cx.si - cx.recs[k].depth), [Exit(Label(k, 0))];
    assert Next(cx, x.value, ToOperand).si == cx.si;
    assert g + a + e == g + (a + e);
  }

  /**
   RETURN-FROM compiled for an operand: the value arrives at the block's end, and the value count
   there is whatever the code of the value left in ECX; the exit itself never sets it.
   */
  lemma OperandReturn(img: Image, rt: Runtime, fr: Frame, tg: map<Label, int>, x: Form, cx: Context, st: State, c: Cpu, fuel: nat) returns (c1: Cpu, c': Cpu)
    requires x.ReturnFrom? && rt.Linked() && Accepts(rt, x, ToOperand, cx)
    requires CleanForm(x.value, ToOperand, cx.recs, false) && cx.env + 4 * Slots(x) <= 4 * fr.slots
    requires Related(rt, fr, cx, st, c) && CodeAt(img, c.pc, Gen(rt, x, ToOperand, cx), tg)
    requires Eval(rt, x.value, st, fuel).Val?
    ensures var out := Eval(rt, x.value, st, fuel);
            && Reach(img, rt, Running(c), Running(c1), 0)
            && Finished(rt, fr, cx, ToOperand, c.pc + Size(Gen(rt, x.value, ToOperand, cx)), out.w, out.st, c, c1, false)
            && Reach(img, rt, Running(c), Running(c'), 1) && Exited(rt, fr, cx, tg, FindBlock(cx.recs, x.name), 0, out.st, c, c')
            && c'.eax == out.w && c'.ecx == c1.ecx
  {
    hide Reach, CodeAt, Matches, Keeps, Encode, At, Adjust, Sound, Exited, Related, Gen, Accepts, Count, rt.Linked, Eval, Slots, Size;
    var k, v := FindBlock(cx.recs, x.name), x.value;
    UnfoldReturn(rt, x, ToOperand, cx);
    OperandCode(rt, x, cx);
    var rest := Adjust(cx.si - cx.recs[k].depth) + [Exit(Label(k, 0))];
    var g := Gen(rt, v, ToOperand, cx);
    Split(img, c.pc, g, rest, tg);
    CompiledArg(img, rt, fr, tg, v, ToOperand, cx, c.pc, false);
    Sim(img, rt, fr, tg, v, ToOperand, cx, st, c, fuel, false);
    var out := Eval(rt, v, st, fuel);
    c1 :| Reach(img, rt, Running(c), Running(c1), 0) && Finished(rt, fr, cx, ToOperand, c.pc + Size(g), out.w, out.st, c, c1, false);
    FinishedAt(rt, fr, cx, ToOperand, c.pc + Size(g), out.w, out.st, c, c1, false);
    RelatedSound(rt, fr, cx, st, c);
    c' := RunExit(img, rt, fr, tg, cx, out.st, c, c1, k, 0);
  }

  /** So a constant or a lexical variable returned that way leaves the count unset: ECX is what it was before. */
  lemma DirectReturnUnset(img: Image, rt: Runtime, fr: Frame, tg: map<Label, int>, x: Form, cx: Context, st: State, c: Cpu) returns (c': Cpu)
    requires x.ReturnFrom? && PushesDirectly(x.value, Lexical(cx.recs)) && rt.Linked() && Accepts(rt, x, ToOperand, cx)
    requires Related(rt, fr, cx, st, c) && CodeAt(img, c.pc, Gen(rt, x, ToOperand, cx), tg)
    ensures Reach(img, rt, Running(c), Running(c'), 1) && Exited(rt, fr, cx, tg, FindBlock(cx.recs, x.name), 0, st, c, c')
    ensures Eval(rt, x.value, st, 0) == Val(c'.eax, st) && c'.ecx == c.ecx
  {
    hide Reach, CodeAt, Matches, Keeps, Encode, At, Adjust, Sound, Exited, Related, Gen, Accepts, Count, rt.Linked, PushesDirectly, Eval;
    var k := FindBlock(cx.recs, x.name);
    DirectGos(x.value, Lexical(cx.recs));
    OperandCode(rt, x, cx);
    var rest := Adjust(cx.si - cx.recs[k].depth) + [Exit(Label(k, 0))];
    var c1 := DirectOperand(img, rt, fr, tg, x.value, cx, st, c, rest);
    RelatedSound(rt, fr, cx, st, c);
    RelatedIsAt(rt, fr, cx, st, c);
    AtSamePlace(rt, fr, cx, st, c, c, c1);
    c' := RunExit(img, rt, fr, tg, cx, st, c, c1, k, 0);
  }

  lemma {:induction false} DirectGos(x: Form, lexical: set<Name>)
    requires PushesDirectly(x, lexical)
    ensures Count(x, ToOperand, StackGo) == 0
    decreases x
  {
    hide Count;
    if x.Progn? && x.body.Forms? {
      PrognCount(x, ToOperand, StackGo);
      OneCount(x.body, ToOperand);
      DirectGos(x.body.head, lexical);
    } else {
      DirectCounts(x, lexical);
      SameCounts(x, ToOperand, ToStack, StackGo);
    }
  }

  lemma OneCount(body: Forms, dest: Dest)
    requires body.Forms? && body.tail.NoForms?
    ensures CountForms(body, dest, StackGo) == Count(body.head, dest, StackGo)
  {
    hide Count;
  }

  /** The value arrives, but ECX does not say that there is one. */
  lemma UncountedValue(rt: Runtime, w: Word, check: bool, c: Cpu, globals: map<Name, Word>) returns (c': Cpu)
    requires rt.Linked() && Bounded(rt, UncountedProgram(w), check) && c.pc == 0 && |c.stack| > 0 && HeapMatch(rt, globals, c.heap)
    ensures Eval(rt, UncountedProgram(w), State([], globals), 0) == Val(w, State([], globals))
    ensures Accepts(rt, UncountedProgram(w), ToEax, Start(check))
    ensures Reach(ByteImage(BytesOf(ExpressionCode(rt, UncountedProgram(w), check))), rt, Running(c), Halted(c'), 0)
    ensures c'.eax == w && c'.ecx == c.ecx
  {
    hide Reach, CodeAt, Encode, Gen, ByteImage, BytesOf, ExpressionCode, rt.Linked, HeapMatch, Related, Exited, Epilog, Size, Prolog;
    var x, cx := UncountedProgram(w), InBlock(check);
    UncountedFacts(rt, w, check, globals);
    ProgramHolds(rt, x, check);
    var img := ByteImage(BytesOf(ExpressionCode(rt, x, check)));
    ProgramParts(rt, x, check, img);
    var c1 := EnterProgram(rt, x, check, globals, c, img);
    var tg := BlockStands(img, rt, x, check, c1.pc);
    var fr, r, st := Frame(|c.stack|, 0), ReturnFrom("b", Lit(w)), State([], globals);
    OneForm(rt, x.body.head, cx);
    UnfoldIfElseHead(img, rt, x.body.head, cx, c1.pc, tg);
    ReturnFacts(rt, w, ToOperand, check, globals);
    InnerRelated(rt, fr, check, st, c1);
    var c2 := DirectReturnUnset(img, rt, fr, tg, r, cx, st, c1);
    c' := BlockReturns(img, rt, fr, check, tg, 0, st, c, c1, c2);
  }

  lemma UncountedFacts(rt: Runtime, w: Word, check: bool, globals: map<Name, Word>)
    ensures var x, st := UncountedProgram(w), State([], globals);
            && Eval(rt, x, st, 0) == Val(w, st) && Accepts(rt, x, ToEax, Start(check)) && Count(x, ToEax, StackGo) == 0 && Slots(x) == 0
  {
    hide Eval, Accepts, Count, Slots;
    var a := UncountedProgram(w).body.head;
    ReturnFacts(rt, w, ToOperand, check, globals);
    ExitingTest(rt, a, State([], globals), InBlock(check));
    BlockFacts(rt, a, ToEax, check, globals, w);
  }

  /** An IF whose test is an exit. */
  lemma ExitingTest(rt: Runtime, a: Form, st: State, cx: Context)
    requires a.IfElse? && a.test.ReturnFrom? && a.thn.NilForm? && a.els.NilForm? && Eval(rt, a.test, st, 0).Return?
    requires Accepts(rt, a.test, ToOperand, cx) && Count(a.test, ToOperand, StackGo) == 0 && Slots(a.test) == 0
    ensures Eval(rt, a, st, 0) == Eval(rt, a.test, st, 0) && Accepts(rt, a, ToEax, cx) && Count(a, ToEax, StackGo) == 0 && Slots(a) == 0
  {
    hide Count, Accepts, Slots;
    assert TestDest(a.test, true) == ToOperand;
    UnfoldIfAccepts(rt, a, ToEax, cx);
    UnfoldIfElse(rt, a, ToEax, cx);
    NilFacts(rt, a.thn, Next(cx, a.test, ToOperand));
    NilFacts(rt, a.els, Next(Next(cx, a.test, ToOperand), a.thn, ToEax));
  }

  lemma NilFacts(rt: Runtime, x: Form, cx: Context)
    requires x.NilForm?
    ensures Accepts(rt, x, ToEax, cx) && Count(x, ToEax, StackGo) == 0 && Slots(x) == 0
  {
  }

  lemma UnfoldIfElseHead(img: Image, rt: Runtime, a: Form, cx: Context, pc: int, tg: map<Label, int>)
    requires a.IfElse? && !a.test.NumEqual? && CodeAt(img, pc, Gen(rt, a, ToEax, cx), tg)
    ensures CodeAt(img, pc, Gen(rt, a.test, ToOperand, cx), tg)
  {
    hide CodeAt, Encode, Size, Next;
    var cx1 := Next(cx, a.test, ToOperand);
    var g, thn, els := Gen(rt, a.test, ToOperand, cx), Gen(rt, a.thn, ToEax, cx1), Gen(rt, a.els, ToEax, Next(cx1, a.thn, ToEax));
    assert TestCode(rt, a.test, true, cx) == g + TestCompare(a.test);
    IfElseLayout(img, pc, g, a.test, thn, els, ToEax, tg);
  }

  lemma MovObjRuns(rt: Runtime, w: Word, c: Cpu)
    ensures var m := Exec(rt, MovObj(EAX, w), c);
            m.Running? && m.cpu == c.(eax := w, zf := m.cpu.zf, sf := m.cpu.sf, of := m.cpu.of)
  {
  }
}
