/** Two-argument calls: from both arguments in registers to the delivered result. */
module Calls {
  import opened Options
  import opened Words
  import opened X86
  import opened Runtime
  import opened Machine
  import opened Lisp
  import opened CodeGen
  import opened Relation
  import opened Steps
  import opened Leaves
  import opened Tails
  import opened Predicates
  import opened Glue
  import opened Layout

  predicate IsCall(x: Form) {
    x.ArithCall? || x.NumEqual? || x.Compare? || x.Eq?
  }

  /** Where CallTail finds the first argument a and the second b. */
  predicate ArgsReady(x: Form, a: Word, b: Word, c: Cpu)
    requires IsCall(x)
  {
    if x.ArithCall? && (x.fn.Minus? || Arg1Dest(x) == ToOperand) then c.eax == a && c.edx == b
    else c.eax == b && c.edx == a
  }

  /** An argument that is not tested is a fixnum. */
  predicate ArgsTyped(x: Form, a: Word, b: Word, check: bool)
    requires IsCall(x)
  {
    (NeedsTest(x.arg1, check) || IsFixnum(a)) && (NeedsTest(x.arg2, check) || IsFixnum(b))
  }

  lemma FinishYield(img: Image, rt: Runtime, fr: Frame, tg: map<Label, int>, cx: Context, dest: Dest, c: Cpu, c2: Cpu,
                    end: int, r: Option<Word>, st: State, fuel: nat, exact: bool)
    requires At(rt, fr, cx, st, c, c2) && Yields(img, rt, c, c2, end, r) && dest != ToZeroFlag
    requires CodeAt(img, end, Target(dest), tg)
    ensures Simulates(img, rt, fr, tg, cx, dest, end + Size(Target(dest)), c, WordOutcome(r, st), fuel, exact)
  {
    hide Reach, CodeAt, Keeps, VarsMatch, HeapMatch, Finished, Size, Target;
    match r
    case None =>
    case Some(w) =>
      var c3 :| Reach(img, rt, Running(c), Running(c3), 0) && SameFrame(c2, c3) && c3.pc == end && c3.eax == w;
      AtFrame(rt, fr, cx, st, c, c2, c3);
      DeliverTarget(img, rt, fr, tg, cx, dest, w, st, c, c3, fuel, exact);
  }

  lemma TruthOutcomeIs(rt: Runtime, r: Option<bool>, st: State)
    ensures TruthOutcome(rt, r, st) == WordOutcome(TruthWord(rt, r), st)
  {
  }

  lemma PlusCommutes(rt: Runtime, a: Word, b: Word)
    requires rt.Linked()
    ensures PlusValue(rt, a, b) == PlusValue(rt, b, a)
  {
  }

  lemma FinishArith(img: Image, rt: Runtime, fr: Frame, tg: map<Label, int>, x: Form, dest: Dest, cx: Context, c: Cpu, c2: Cpu,
                    a: Word, b: Word, st: State, fuel: nat, exact: bool)
    requires rt.Linked() && x.ArithCall? && dest != ToZeroFlag
    requires Reach(img, rt, Running(c), Running(c2), 0) && At(rt, fr, cx, st, c, c2)
    requires ArgsReady(x, a, b, c2) && ArgsTyped(x, a, b, cx.check)
    requires CodeAt(img, c2.pc, CallTail(rt, x, dest, cx.check), tg)
    ensures Simulates(img, rt, fr, tg, cx, dest, c2.pc + Size(CallTail(rt, x, dest, cx.check)), c, CallOutcome(rt, x, a, b, st), fuel, exact)
  {
    hide Reach, CodeAt, At, Simulates, rt.Linked, ArithTail, Target, Size, PlusValue, MinusValue, NeedsTest, IsFixnum, Yields;
    var n1, n2 := NeedsTest(x.arg1, cx.check), NeedsTest(x.arg2, cx.check);
    var al := if x.fn.Minus? || Arg1Dest(x) == ToOperand then n1 else n2;
    var dl := if x.fn.Minus? then n2 else if Arg1Dest(x) == ToOperand then false else n1;
    var tail := ArithTail(rt, x.fn, al, dl);
    assert CallTail(rt, x, dest, cx.check) == tail + Target(dest);
    if x.fn.Plus? && Arg1Dest(x) == ToOperand {
      LiteralNeedsNoTest(x.arg2, cx.check);
    }
    Split(img, c2.pc, tail, Target(dest), tg);
    RunArith(img, rt, tg, c, c2, x.fn, al, dl, Target(dest));
    if x.fn.Plus? {
      PlusCommutes(rt, a, b);
    }
    FinishYield(img, rt, fr, tg, cx, dest, c, c2, c2.pc + Size(tail), ArithValue(rt, x.fn, a, b), st, fuel, exact);
  }

  lemma LiteralNeedsNoTest(x: Form, check: bool)
    requires IsFixnumLiteral(x)
    ensures !NeedsTest(x, check)
  {
  }

  lemma FinishPredicate(img: Image, rt: Runtime, fr: Frame, tg: map<Label, int>, x: Form, r: Routine, dest: Dest, cx: Context,
                        c: Cpu, c2: Cpu, a: Word, b: Word, st: State, fuel: nat, exact: bool)
    requires rt.Linked() && dest != ToZeroFlag
    requires (x.NumEqual? && r == GenericEqual) || (x.Compare? && r == GenericCompare(x.op))
    requires Reach(img, rt, Running(c), Running(c2), 0) && At(rt, fr, cx, st, c, c2)
    requires ArgsReady(x, a, b, c2) && ArgsTyped(x, a, b, cx.check)
    requires CodeAt(img, c2.pc, CallTail(rt, x, dest, cx.check), tg)
    ensures Simulates(img, rt, fr, tg, cx, dest, c2.pc + Size(CallTail(rt, x, dest, cx.check)), c, CallOutcome(rt, x, a, b, st), fuel, exact)
  {
    hide Reach, CodeAt, At, Simulates, rt.Linked, PredicateTail, Target, Size, EqualValue, CompareValue, NeedsTest, IsFixnum,
         TruthOutcome, TruthWord, WordOutcome, Yields;
    var al, dl := NeedsTest(x.arg2, cx.check), NeedsTest(x.arg1, cx.check);
    var tail := PredicateTail(rt, r, RoutineCond(r), al, dl);
    assert CallTail(rt, x, dest, cx.check) == tail + Target(dest);
    Split(img, c2.pc, tail, Target(dest), tg);
    RunPredicate(img, rt, tg, c, c2, r, al, dl, Target(dest));
    var t := PredicateTruth(rt, r, a, b);
    FinishYield(img, rt, fr, tg, cx, dest, c, c2, c2.pc + Size(tail), TruthWord(rt, t), st, fuel, exact);
    TruthOutcomeIs(rt, t, st);
  }

  lemma FinishFlag(img: Image, rt: Runtime, fr: Frame, tg: map<Label, int>, x: Form, cx: Context,
                   c: Cpu, c2: Cpu, a: Word, b: Word, st: State, fuel: nat, exact: bool)
    requires rt.Linked() && x.NumEqual?
    requires Reach(img, rt, Running(c), Running(c2), 0) && At(rt, fr, cx, st, c, c2)
    requires ArgsReady(x, a, b, c2) && ArgsTyped(x, a, b, cx.check)
    requires CodeAt(img, c2.pc, CallTail(rt, x, ToZeroFlag, cx.check), tg)
    ensures Simulates(img, rt, fr, tg, cx, ToZeroFlag, c2.pc + Size(CallTail(rt, x, ToZeroFlag, cx.check)), c,
                      CallOutcome(rt, x, a, b, st), fuel, exact)
  {
    hide Reach, CodeAt, At, rt.Linked, EqualFlagTail, Size, EqualValue, NeedsTest, IsFixnum, HeapMatch, Finished;
    var al, dl := NeedsTest(x.arg2, cx.check), NeedsTest(x.arg1, cx.check);
    var tail := EqualFlagTail(rt, al, dl);
    assert CallTail(rt, x, ToZeroFlag, cx.check) == tail;
    assert tail + [] == tail;
    RunEqualFlag(img, rt, tg, c, c2, al, dl, []);
    var t := EqualValue(rt, a, b);
    AtHeap(rt, fr, cx, st, c, c2);
    if t.Some? {
      var c3 :| Reach(img, rt, Running(c), Running(c3), 0) && SameFrame(c2, c3) && c3.pc == c2.pc + Size(tail) && c3.zf == t.value;
      AtFrame(rt, fr, cx, st, c, c2, c3);
      TruthIsT(rt, t.value);
      Deliver(img, rt, fr, tg, cx, ToZeroFlag, rt.Truth(t.value), st, c, c3, fuel, exact);
    }
  }

  lemma AtHeap(rt: Runtime, fr: Frame, cx: Context, st: State, c0: Cpu, c: Cpu)
    requires At(rt, fr, cx, st, c0, c)
    ensures HeapMatch(rt, st.globals, c.heap)
  {
  }

  lemma FinishEq(img: Image, rt: Runtime, fr: Frame, tg: map<Label, int>, x: Form, dest: Dest, cx: Context,
                 c: Cpu, c2: Cpu, a: Word, b: Word, st: State, fuel: nat, exact: bool)
    requires rt.Linked() && x.Eq? && dest != ToZeroFlag
    requires Reach(img, rt, Running(c), Running(c2), 0) && At(rt, fr, cx, st, c, c2) && ArgsReady(x, a, b, c2)
    requires CodeAt(img, c2.pc, CallTail(rt, x, dest, cx.check), tg)
    ensures Simulates(img, rt, fr, tg, cx, dest, c2.pc + Size(CallTail(rt, x, dest, cx.check)), c, CallOutcome(rt, x, a, b, st), fuel, exact)
  {
    hide Reach, CodeAt, At, Simulates, rt.Linked, EqTail, Target, Size, Yields;
    assert CallTail(rt, x, dest, cx.check) == EqTail() + Target(dest);
    Split(img, c2.pc, EqTail(), Target(dest), tg);
    RunEq(img, rt, tg, c, c2, Target(dest));
    FinishYield(img, rt, fr, tg, cx, dest, c, c2, c2.pc + Size(EqTail()), Some(rt.Truth(a == b)), st, fuel, exact);
  }

  /** The tail of any two-argument call computes what the evaluator says of the two values. */
  lemma FinishCallForm(img: Image, rt: Runtime, fr: Frame, tg: map<Label, int>, x: Form, dest: Dest, cx: Context,
                       c: Cpu, c2: Cpu, a: Word, b: Word, st: State, fuel: nat, exact: bool)
    requires rt.Linked() && IsCall(x) && (dest == ToZeroFlag ==> x.NumEqual?)
    requires Reach(img, rt, Running(c), Running(c2), 0) && At(rt, fr, cx, st, c, c2)
    requires ArgsReady(x, a, b, c2) && ArgsTyped(x, a, b, cx.check)
    requires CodeAt(img, c2.pc, CallTail(rt, x, dest, cx.check), tg)
    ensures Simulates(img, rt, fr, tg, cx, dest, c2.pc + Size(CallTail(rt, x, dest, cx.check)), c, CallOutcome(rt, x, a, b, st), fuel, exact)
  {
    hide Reach, At, Simulates, CodeAt, CallTail, CallOutcome, Size, ArgsReady, ArgsTyped, rt.Linked;
    if x.ArithCall? {
      FinishArith(img, rt, fr, tg, x, dest, cx, c, c2, a, b, st, fuel, exact);
    } else if x.Eq? {
      FinishEq(img, rt, fr, tg, x, dest, cx, c, c2, a, b, st, fuel, exact);
    } else if dest == ToZeroFlag {
      FinishFlag(img, rt, fr, tg, x, cx, c, c2, a, b, st, fuel, exact);
    } else {
      var r := match x case Compare(op, _, _) => GenericCompare(op) case _ => GenericEqual;
      FinishPredicate(img, rt, fr, tg, x, r, dest, cx, c, c2, a, b, st, fuel, exact);
    }
  }

  // ----- arguments -----

  /** Loading a symbol or constant leaves EDX alone. */
  ghost predicate SimpleLoaded(img: Image, rt: Runtime, c: Cpu, end: int, out: Outcome, st: State) {
    match out
    case Val(w, st') =>
      && st' == st
      && exists c' :: Reach(img, rt, Running(c), Running(c'), 0) && SameFrame(c, c') && c'.pc == end && c'.eax == w && c'.edx == c.edx
    case Signal(st') => st' == st && Reach(img, rt, Running(c), Raised(c.heap), 0)
    case _ => false
  }

  lemma LoadedOne(img: Image, rt: Runtime, tg: map<Label, int>, c: Cpu, load: Item, w: Word, st: State)
    requires load.I? && CodeAt(img, c.pc, [load], tg)
    requires var m := Exec(rt, load.ins, c.(pc := c.pc + Len(load)));
             m.Running? && m.cpu == c.(pc := c.pc + Len(load), eax := w, zf := m.cpu.zf, sf := m.cpu.sf, of := m.cpu.of)
    ensures SimpleLoaded(img, rt, c, c.pc + Size([load]), Val(w, st), st)
  {
    hide Reach, CodeAt, Exec, Encode;
    ReachRefl(img, rt, Running(c));
    assert [load] + [] == [load];
    Advance(img, rt, tg, c, c, [load], load, []);
    var c' := Exec(rt, load.ins, c.(pc := c.pc + Len(load))).cpu;
    assert SameFrame(c, c');
  }

  lemma AtomCode(rt: Runtime, x: Form, dest: Dest, cx: Context)
    requires x.Lit? || x.SymLit? || x.NilForm? || x.Var?
    ensures Gen(rt, x, dest, cx) == if x.Lit? then GenLit(x.w, dest) else if x.SymLit? then GenSym(x.sym, dest)
                                    else if x.NilForm? then GenNil(dest) else GenVar(rt, x.name, dest, cx)
  {
    hide GenLit, GenSym, GenNil, GenVar, Slots, Count, Accepts;
  }

  lemma SimSimple(img: Image, rt: Runtime, fr: Frame, tg: map<Label, int>, x: Form, cx: Context, st: State, c: Cpu, fuel: nat)
    requires rt.Linked() && IsSimple(x) && Related(rt, fr, cx, st, c)
    requires Accepts(rt, x, ToOperand, cx) && CodeAt(img, c.pc, Gen(rt, x, ToOperand, cx), tg)
    ensures SimpleLoaded(img, rt, c, c.pc + Size(Gen(rt, x, ToOperand, cx)), Eval(rt, x, st, fuel), st)
  {
    hide Reach, CodeAt, Encode, Matches, Sound, Size, SimpleLoaded, Gen, GenGlobal, ReadVar;
    var code := Gen(rt, x, ToOperand, cx);
    AtomCode(rt, x, ToOperand, cx);
    match x
    case Lit(w) =>
      assert code == [Plain(MovObj(EAX, w))];
      LoadedOne(img, rt, tg, c, Plain(MovObj(EAX, w)), w, st);
    case SymLit(w, _) =>
      assert code == [I(MovImm(EAX, w), LiteralRef(w))];
      LoadedOne(img, rt, tg, c, I(MovImm(EAX, w), LiteralRef(w)), w, st);
    case NilForm =>
      assert code == [LoadNil()];
      LoadedOne(img, rt, tg, c, LoadNil(), rt.nilWord, st);
    case Var(n) =>
      if FindLet(cx.recs, n) >= 0 {
        SimSimpleLexical(img, rt, fr, tg, n, cx, st, c);
      } else {
        SimSimpleGlobal(img, rt, fr, tg, n, cx, st, c);
      }
  }

  lemma SimSimpleLexical(img: Image, rt: Runtime, fr: Frame, tg: map<Label, int>, n: Name, cx: Context, st: State, c: Cpu)
    requires Related(rt, fr, cx, st, c) && FindLet(cx.recs, n) >= 0 && CodeAt(img, c.pc, GenVar(rt, n, ToOperand, cx), tg)
    ensures SimpleLoaded(img, rt, c, c.pc + Size(GenVar(rt, n, ToOperand, cx)), ReadVar(st, n), st)
  {
    hide Reach, CodeAt, Encode, Matches, Sound, Size, SimpleLoaded, FindVar;
    LexicalCell(rt, fr, cx, st, c, n);
    var load := Plain(Load(EAX, EBP, cx.recs[FindLet(cx.recs, n)].offset));
    assert GenVar(rt, n, ToOperand, cx) == [load];
    LoadedOne(img, rt, tg, c, load, st.env[FindVar(st.env, n)].1, st);
  }

  lemma SimSimpleGlobal(img: Image, rt: Runtime, fr: Frame, tg: map<Label, int>, n: Name, cx: Context, st: State, c: Cpu)
    requires rt.Linked() && Related(rt, fr, cx, st, c) && FindLet(cx.recs, n) < 0 && n in rt.vars
    requires CodeAt(img, c.pc, GenGlobal(rt, n, ToOperand), tg)
    ensures SimpleLoaded(img, rt, c, c.pc + Size(GenGlobal(rt, n, ToOperand)), ReadVar(st, n), st)
  {
    hide Reach, CodeAt, Encode, Sound, VarsMatch, Exec, GenGlobal, UnboundCall, Size, rt.Linked;
    LookupAgrees(fr, cx.recs, st.env, c.stack, n);
    var e := rt.vars[n];
    var c3 := RunGlobal(img, rt, tg, c, n, ToOperand);
    var d := Size(UnboundCall(rt, e));
    var jump := Plain(Jcc32(NE, d));
    var more := UnboundCall(rt, e) + Target(ToOperand);
    Advance(img, rt, tg, c, c3, [jump] + more, jump, more);
    ExecJump(rt, NE, d, c3.(pc := c3.pc + Len(jump)));
    SizeConcat(UnboundCall(rt, e), Target(ToOperand));
    assert Size(Target(ToOperand)) == 0 by { SizeNone(); }
    if c3.zf {
      RunUnbound(img, rt, tg, c, c3.(pc := c3.pc + Len(jump)), e, Target(ToOperand));
    } else {
      var c4 := c3.(pc := c3.pc + Len(jump) + d);
      assert SameFrame(c, c4);
    }
  }

  lemma SizeNone()
    ensures Size(Target(ToOperand)) == 0
  {
  }

  /** The first argument waits on the stack while the second is computed. */
  lemma StackedArg(rt: Runtime, fr: Frame, cx: Context, cx1: Context, a: Word, end: int, st1: State, st2: State,
                   c: Cpu, c1: Cpu, c2: Cpu, c3: Cpu, exact: bool)
    requires Sound(cx) && cx.env <= 4 * fr.slots
    requires Finished(rt, fr, cx, ToStack, end, a, st1, c, c1, exact)
    requires cx1.recs == cx.recs && cx1.si == cx.si + 4 && cx1.env >= cx.env
    requires At(rt, fr, cx1, st2, c1, c2)
    requires |c2.stack| > 0 ==> c3.stack == c2.stack[..|c2.stack| - 1] && c3.heap == c2.heap && c3.ebp == c2.ebp
    ensures |c2.stack| == fr.Base() + cx.si / 4 + 1 && Top(c2) == W(a)
    ensures At(rt, fr, cx, st2, c, c3)
  {
    hide Matches, Protected;
    var top := fr.Base() + cx.si / 4;
    assert (cx.si + 4) / 4 == cx.si / 4 + 1;
    ProtectedGrows(fr, cx, cx1);
    AboveSlots(fr, cx, top);
    assert c2.stack[top] == c1.stack[top];
    KeepsTrans(fr, cx, cx1, c.stack, c1.stack, c2.stack, top, top + 1);
    VarsMatchShorter(rt, fr, cx, st2, c2, c3);
  }

  lemma AboveSlots(fr: Frame, cx: Context, i: int)
    requires Sound(cx) && cx.env <= 4 * fr.slots && i >= fr.Base()
    ensures Protected(fr, cx, i)
  {
    forall k | 0 <= k < |Vars(cx.recs)|
      ensures fr.CellOf(Vars(cx.recs)[k].offset) != i
    {
      assert IsSlot(Vars(cx.recs)[k].offset, cx.env);
    }
  }

  lemma VarsMatchShorter(rt: Runtime, fr: Frame, cx: Context, st: State, c2: Cpu, c3: Cpu)
    requires Sound(cx) && cx.env <= 4 * fr.slots && Matches(rt, fr, cx.recs, st, c2)
    requires |c2.stack| == fr.Base() + cx.si / 4 + 1
    requires c3.stack == c2.stack[..|c2.stack| - 1] && c3.heap == c2.heap && c3.ebp == c2.ebp
    ensures Matches(rt, fr, cx.recs, st, c3)
  {
    hide HeapMatch;
    forall i | 0 <= i < |Vars(cx.recs)|
      ensures fr.CellOf(Vars(cx.recs)[i].offset) < |c3.stack|
    {
      assert IsSlot(Vars(cx.recs)[i].offset, cx.env);
    }
  }
}
