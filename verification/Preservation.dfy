/**
 Semantic preservation: running the code of a form from a frame that represents the evaluator's
 state does what the evaluator does, by induction on the fuel and the form.
 */
module Preservation {
  import opened Options
  import opened Words
  import opened X86
  import opened Runtime
  import opened Machine
  import opened Lisp
  import opened CodeGen
  import opened Relation
  import opened Steps
  import opened Leaves
  import opened Tails
  import opened Predicates
  import opened Glue
  import opened Layout
  import opened Parts
  import opened ReturnValues
  import opened Scopes
  import opened Exits
  import opened Calls

  // ----- IF -----

  lemma SimIf(img: Image, rt: Runtime, fr: Frame, tg: map<Label, int>, x: Form, dest: Dest, cx: Context, st: State, c: Cpu, fuel: nat, exact: bool)
    requires x.If? && !x.test.NumEqual? && rt.Linked()
    requires Compiled(img, rt, fr, tg, x, dest, cx, c.pc, exact) && Related(rt, fr, cx, st, c)
    ensures Simulates(img, rt, fr, tg, cx, dest, c.pc + Size(Gen(rt, x, dest, cx)), c, Eval(rt, x, st, fuel), fuel, exact)
    decreases fuel, x, 0
  {
    hide Reach, CodeAt, Matches, Keeps, Sound, rt.Linked, Size, Compiled, Simulates, Gen, IfCode, Next, PushIfStack;
    IfParts(img, rt, fr, tg, x, dest, cx, c.pc, exact);
    var dt := TestDest(x.test, false);
    var cx1 := Next(cx, x.test, dt);
    var g, thn := Gen(rt, x.test, dt, cx), Gen(rt, x.thn, ToEax, cx1);
    var push := PushIfStack(dest);
    UnfoldCompiled(img, rt, fr, tg, x, dest, cx, c.pc, exact);
    IfLayout(img, c.pc, g, x.test, thn, dest, tg);
    var p0 := c.pc + Size(g);
    Sim(img, rt, fr, tg, x.test, dt, cx, st, c, fuel, exact);
    var out := Eval(rt, x.test, st, fuel);
    if out.Val? {
      NextAligned(cx, x.test, dt);
      var c2 := AfterTest(img, rt, fr, tg, x.test, false, cx, cx1, c, p0, out.w, out.st, Size(thn), thn + push, fuel, exact);
      if out.w == rt.nilWord {
        DeliverPush(img, rt, fr, tg, cx, dest, rt.nilWord, out.st, c, c2, fuel, exact);
      } else {
        Sim(img, rt, fr, tg, x.thn, ToEax, cx1, out.st, c2, fuel, exact);
        LastPart(img, rt, fr, tg, cx, cx1, dest, c, c2, p0 + 8 + Size(thn), Eval(rt, x.thn, out.st, fuel), fuel, exact);
      }
    } else {
      LiftExit(img, rt, fr, tg, cx, dt, p0, dest, c.pc + Size(Gen(rt, x, dest, cx)), c, out, fuel, exact);
    }
  }

  lemma SimIfElse(img: Image, rt: Runtime, fr: Frame, tg: map<Label, int>, x: Form, dest: Dest, cx: Context, st: State, c: Cpu, fuel: nat, exact: bool)
    requires x.IfElse? && rt.Linked()
    requires Compiled(img, rt, fr, tg, x, dest, cx, c.pc, exact) && Related(rt, fr, cx, st, c)
    ensures Simulates(img, rt, fr, tg, cx, dest, c.pc + Size(Gen(rt, x, dest, cx)), c, Eval(rt, x, st, fuel), fuel, exact)
    decreases fuel, x, 0
  {
    hide Reach, CodeAt, Matches, Keeps, Sound, rt.Linked, Size, Compiled, Simulates, Gen, IfElseCode, Next, PushIfStack, TestSize, TestDest, TestCompare;
    IfElseParts(img, rt, fr, tg, x, dest, cx, c.pc, exact);
    var dt := TestDest(x.test, true);
    var cx1 := Next(cx, x.test, dt);
    var cx2 := Next(cx1, x.thn, ToEax);
    var g, thn, els := Gen(rt, x.test, dt, cx), Gen(rt, x.thn, ToEax, cx1), Gen(rt, x.els, ToEax, cx2);
    UnfoldCompiled(img, rt, fr, tg, x, dest, cx, c.pc, exact);
    IfElseLayout(img, c.pc, g, x.test, thn, els, dest, tg);
    var p0 := c.pc + Size(g);
    var p1 := p0 + TestSize(x.test);
    var rest := [Plain(Jmp32(Size(els)))] + (els + PushIfStack(dest));
    Sim(img, rt, fr, tg, x.test, dt, cx, st, c, fuel, exact);
    var out := Eval(rt, x.test, st, fuel);
    if out.Val? {
      NextAligned(cx, x.test, dt);
      NextAligned2(cx, cx1, x.thn, ToEax);
      var cxb := if out.w == rt.nilWord then cx2 else cx1;
      var c2 := AfterTest(img, rt, fr, tg, x.test, true, cx, cxb, c, p0, out.w, out.st, Size(thn) + 5, thn + rest, fuel, exact);
      if out.w == rt.nilWord {
        Sim(img, rt, fr, tg, x.els, ToEax, cx2, out.st, c2, fuel, exact);
        LastPart(img, rt, fr, tg, cx, cx2, dest, c, c2, p1 + Size(thn) + 5 + Size(els), Eval(rt, x.els, out.st, fuel), fuel, exact);
      } else {
        Sim(img, rt, fr, tg, x.thn, ToEax, cx1, out.st, c2, fuel, exact);
        ThenPart(img, rt, fr, tg, cx, cx1, dest, c, c2, p1 + Size(thn), Size(els), els + PushIfStack(dest), Eval(rt, x.thn, out.st, fuel), fuel, exact);
      }
    } else {
      LiftExit(img, rt, fr, tg, cx, dt, p0, dest, c.pc + Size(Gen(rt, x, dest, cx)), c, out, fuel, exact);
    }
  }

  /** An IF on = without an else: the compiler adds NIL as the else form. */
  lemma SimIfEqual(img: Image, rt: Runtime, fr: Frame, tg: map<Label, int>, x: Form, dest: Dest, cx: Context, st: State, c: Cpu, fuel: nat, exact: bool)
    requires x.If? && x.test.NumEqual? && rt.Linked()
    requires Compiled(img, rt, fr, tg, x, dest, cx, c.pc, exact) && Related(rt, fr, cx, st, c)
    ensures Simulates(img, rt, fr, tg, cx, dest, c.pc + Size(Gen(rt, x, dest, cx)), c, Eval(rt, x, st, fuel), fuel, exact)
    decreases fuel, x, 0
  {
    hide Reach, CodeAt, Matches, Keeps, Sound, rt.Linked, Size, Compiled, Simulates, Gen, IfElseCode, Next, PushIfStack, TestSize, TestDest, TestCompare, GenNil;
    IfEqualParts(img, rt, fr, tg, x, dest, cx, c.pc, exact);
    var dt := TestDest(x.test, true);
    var cx1 := Next(cx, x.test, dt);
    var g, thn, els := Gen(rt, x.test, dt, cx), Gen(rt, x.thn, ToEax, cx1), GenNil(ToEax);
    UnfoldCompiled(img, rt, fr, tg, x, dest, cx, c.pc, exact);
    IfElseLayout(img, c.pc, g, x.test, thn, els, dest, tg);
    var p0 := c.pc + Size(g);
    var p1 := p0 + TestSize(x.test);
    var rest := [Plain(Jmp32(Size(els)))] + (els + PushIfStack(dest));
    Sim(img, rt, fr, tg, x.test, dt, cx, st, c, fuel, exact);
    var out := Eval(rt, x.test, st, fuel);
    if out.Val? {
      NextAligned(cx, x.test, dt);
      var c2 := AfterTest(img, rt, fr, tg, x.test, true, cx, cx1, c, p0, out.w, out.st, Size(thn) + 5, thn + rest, fuel, exact);
      if out.w == rt.nilWord {
        SimNil(img, rt, fr, tg, cx1, ToEax, out.st, c2, fuel, exact);
        LastPart(img, rt, fr, tg, cx, cx1, dest, c, c2, p1 + Size(thn) + 5 + Size(els), Val(rt.nilWord, out.st), fuel, exact);
      } else {
        Sim(img, rt, fr, tg, x.thn, ToEax, cx1, out.st, c2, fuel, exact);
        ThenPart(img, rt, fr, tg, cx, cx1, dest, c, c2, p1 + Size(thn), Size(els), els + PushIfStack(dest), Eval(rt, x.thn, out.st, fuel), fuel, exact);
      }
    } else {
      LiftExit(img, rt, fr, tg, cx, dt, p0, dest, c.pc + Size(Gen(rt, x, dest, cx)), c, out, fuel, exact);
    }
  }

  // ----- PROGN -----

  lemma SimSeq(img: Image, rt: Runtime, fr: Frame, tg: map<Label, int>, body: Forms, cx: Context, st: State, c: Cpu, fuel: nat, exact: bool)
    requires rt.Linked() && body.Forms?
    requires CompiledSeq(img, rt, fr, tg, body, cx, c.pc, exact) && Related(rt, fr, cx, st, c)
    ensures Simulates(img, rt, fr, tg, cx, ToEax, c.pc + Size(GenSeq(rt, body, cx)), c, EvalForms(rt, body, st, fuel), fuel, exact)
    decreases fuel, body, 0
  {
    hide Reach, CodeAt, Matches, Keeps, Sound, rt.Linked, Size, Compiled, CompiledSeq, Simulates, Gen, GenSeq, Next, At;
    SeqParts(img, rt, fr, tg, body, cx, c.pc, exact);
    var cx1 := Next(cx, body.head, ToEax);
    var end1 := c.pc + Size(Gen(rt, body.head, ToEax, cx));
    Sim(img, rt, fr, tg, body.head, ToEax, cx, st, c, fuel, exact);
    var out := Eval(rt, body.head, st, fuel);
    if body.tail.NoForms? {
      EmptySeq(rt, cx1);
    } else if out.Val? {
      NextAligned(cx, body.head, ToEax);
      var c1 := ThenNext(img, rt, fr, tg, cx, ToEax, end1, c, out.w, out.st, cx1, fuel, exact);
      SimSeq(img, rt, fr, tg, body.tail, cx1, out.st, c1, fuel, exact);
      SoundDepths(cx);
      Prefix(img, rt, fr, tg, cx, cx1, ToEax, end1 + Size(GenSeq(rt, body.tail, cx1)), c, c1, EvalForms(rt, body.tail, out.st, fuel), fuel, exact);
    } else {
      LiftExit(img, rt, fr, tg, cx, ToEax, end1, ToEax, c.pc + Size(GenSeq(rt, body, cx)), c, out, fuel, exact);
    }
  }

  lemma SimForms(img: Image, rt: Runtime, fr: Frame, tg: map<Label, int>, body: Forms, dest: Dest, cx: Context, st: State, c: Cpu, fuel: nat, exact: bool)
    requires rt.Linked()
    requires CompiledForms(img, rt, fr, tg, body, dest, cx, c.pc, exact) && Related(rt, fr, cx, st, c)
    ensures Simulates(img, rt, fr, tg, cx, dest, c.pc + Size(GenForms(rt, body, dest, cx)), c, EvalForms(rt, body, st, fuel), fuel, exact)
    decreases fuel, body, 1
  {
    hide Reach, CodeAt, Related, rt.Linked, Size, Compiled, CompiledForms, CompiledSeq, Simulates, Gen, GenSeq, GenForms, GenNil, PushIfStack;
    FormsParts(img, rt, fr, tg, body, dest, cx, c.pc, exact);
    if body.NoForms? {
      SimNil(img, rt, fr, tg, cx, dest, st, c, fuel, exact);
    } else if body.tail.NoForms? {
      Sim(img, rt, fr, tg, body.head, dest, cx, st, c, fuel, exact);
    } else {
      SimSeq(img, rt, fr, tg, body, cx, st, c, fuel, exact);
      PushAfter(img, rt, fr, tg, cx, dest, c.pc + Size(GenSeq(rt, body, cx)), c, EvalForms(rt, body, st, fuel), fuel, exact);
    }
  }

  // ----- SETQ -----

  lemma SimSetq(img: Image, rt: Runtime, fr: Frame, tg: map<Label, int>, b: Binds, last: Word, cx: Context, st: State, c: Cpu, fuel: nat, exact: bool)
    requires rt.Linked() && b.Binds?
    requires CompiledSetq(img, rt, fr, tg, b, cx, c.pc, exact) && Related(rt, fr, cx, st, c)
    ensures Simulates(img, rt, fr, tg, cx, ToOperand, c.pc + Size(GenSetq(rt, b, cx)), c, EvalSetq(rt, b, last, st, fuel), fuel, exact)
    decreases fuel, b, 0
  {
    hide Reach, CodeAt, Matches, Keeps, Sound, rt.Linked, Size, Compiled, CompiledSetq, Simulates, Gen, GenSetq, GenAssign, Next, At, WriteVar;
    SetqParts(img, rt, fr, tg, b, cx, c.pc, exact);
    var cx1 := Next(cx, b.init, ToOperand);
    var end1 := c.pc + Size(Gen(rt, b.init, ToOperand, cx));
    var end := c.pc + Size(GenSetq(rt, b, cx));
    Sim(img, rt, fr, tg, b.init, ToOperand, cx, st, c, fuel, exact);
    var out := Eval(rt, b.init, st, fuel);
    if out.Val? {
      NextAligned(cx, b.init, ToOperand);
      var c1 := ThenNext(img, rt, fr, tg, cx, ToOperand, end1, c, out.w, out.st, cx1, fuel, exact);
      var c2 := RunAssign(img, rt, fr, tg, cx, out.st, c, c1, b.name, GenSetq(rt, b.rest, cx1));
      var st2 := WriteVar(out.st, b.name, out.w);
      if b.rest.NoBinds? {
        EmptySetq(rt, cx1);
        Deliver(img, rt, fr, tg, cx, ToOperand, out.w, st2, c, c2, fuel, exact);
      } else {
        NextRelated(rt, fr, cx, cx1, st2, c, c2);
        SimSetq(img, rt, fr, tg, b.rest, out.w, cx1, st2, c2, fuel, exact);
        SoundDepths(cx);
        AtKeeps(rt, fr, cx, st2, c, c2);
        Prefix(img, rt, fr, tg, cx, cx1, ToOperand, end, c, c2, EvalSetq(rt, b.rest, out.w, st2, fuel), fuel, exact);
      }
    } else {
      LiftExit(img, rt, fr, tg, cx, ToOperand, end1, ToOperand, end, c, out, fuel, exact);
    }
  }

  lemma SimSetqForm(img: Image, rt: Runtime, fr: Frame, tg: map<Label, int>, x: Form, dest: Dest, cx: Context, st: State, c: Cpu, fuel: nat, exact: bool)
    requires x.Setq? && rt.Linked()
    requires Compiled(img, rt, fr, tg, x, dest, cx, c.pc, exact) && Related(rt, fr, cx, st, c)
    ensures Simulates(img, rt, fr, tg, cx, dest, c.pc + Size(Gen(rt, x, dest, cx)), c, Eval(rt, x, st, fuel), fuel, exact)
    decreases fuel, x, 0
  {
    hide Reach, CodeAt, Related, rt.Linked, Size, Simulates, Target, GenNil, Compiled, CompiledSetq, Gen, GenSetq;
    SetqFormParts(img, rt, fr, tg, x, dest, cx, c.pc, exact);
    if x.pairs.NoBinds? {
      SimNil(img, rt, fr, tg, cx, dest, st, c, fuel, exact);
    } else {
      SimSetq(img, rt, fr, tg, x.pairs, rt.nilWord, cx, st, c, fuel, exact);
      TargetAfter(img, rt, fr, tg, cx, dest, c.pc + Size(GenSetq(rt, x.pairs, cx)), c, EvalSetq(rt, x.pairs, rt.nilWord, st, fuel), fuel, exact);
    }
  }

  // ----- LET and LET* -----

  /** The initial values are computed and each is in its slot. */
  ghost predicate InitsDone(img: Image, rt: Runtime, fr: Frame, tg: map<Label, int>, cx: Context, b: Binds, end: int, c: Cpu,
                            r: InitOutcome, fuel: nat, exact: bool)
  {
    match r
    case InitExit(out) => !out.Val? && Simulates(img, rt, fr, tg, cx, ToOperand, end, c, out, fuel, exact)
    case Inits(ws, st') =>
      exists c' ::
        && Reach(img, rt, Running(c), Running(c'), 0) && At(rt, fr, cx, st', c, c') && c'.pc == end
        && VarsMatch(fr, LetRecs(b, cx.env), LetPairs(b, ws), c'.stack)
  }

  /** The first initial value stored, the rest done. */
  lemma InitsStep(img: Image, rt: Runtime, fr: Frame, tg: map<Label, int>, cx: Context, cx2: Context, b: Binds, end: int,
                  c: Cpu, c2: Cpu, w: Word, r: InitOutcome, fuel: nat, exact: bool)
    requires Sound(cx) && b.Binds? && cx.env + 4 <= 4 * fr.slots
    requires cx2.recs == cx.recs && cx2.si == cx.si && cx2.env == cx.env + 4 + 4 * Slots(b.init)
    requires Reach(img, rt, Running(c), Running(c2), 0)
    requires fr.Base() <= |c2.stack| && Keeps(fr, cx, c.stack, c2.stack, fr.Base() + cx.si / 4)
    requires var cell := fr.CellOf(SlotOffset(cx.env)); 0 <= cell < |c2.stack| && c2.stack[cell] == W(w)
    requires InitsDone(img, rt, fr, tg, cx2, b.rest, end, c2, r, fuel, exact)
    ensures InitsDone(img, rt, fr, tg, cx, b, end, c, match r case Inits(ws, st') => Inits([w] + ws, st') case _ => r, fuel, exact)
  {
    hide Reach, Matches, Sound, Keeps, Simulates;
    SoundDepths(cx);
    SoundSi(cx);
    match r
    case InitExit(out) =>
      PrefixExit(img, rt, fr, tg, cx, cx2, ToOperand, end, ToOperand, end, c, c2, out, fuel, exact);
    case Inits(ws, st') =>
      var c3 :| Reach(img, rt, Running(c2), Running(c3), 0) && At(rt, fr, cx2, st', c2, c3) && c3.pc == end
                && VarsMatch(fr, LetRecs(b.rest, cx2.env), LetPairs(b.rest, ws), c3.stack);
      Continue(img, rt, Running(c), Running(c2), Running(c3), 0);
      FreshKept(fr, cx, cx2, c2.stack, c3.stack);
      ProtectedGrows(fr, cx, cx2);
      var top := fr.Base() + cx.si / 4;
      KeepsTrans(fr, cx, cx2, c.stack, c2.stack, c3.stack, top, top);
      assert ([w] + ws)[1..] == ws;
      assert LetRecs(b, cx.env) == LetRecs(b.rest, cx2.env) + [LetRec(b.name, SlotOffset(cx.env))];
      assert LetPairs(b, [w] + ws) == LetPairs(b.rest, ws) + [(b.name, w)];
  }

  lemma SoundSi(cx: Context)
    requires Sound(cx)
    ensures cx.si >= 0 && cx.env >= 0 && cx.env % 4 == 0
  {
  }

  lemma NoInits(img: Image, rt: Runtime, fr: Frame, tg: map<Label, int>, cx: Context, b: Binds, st: State, c: Cpu, fuel: nat, exact: bool)
    requires b.NoBinds? && Related(rt, fr, cx, st, c)
    ensures Sound(cx) && InitsDone(img, rt, fr, tg, cx, b, c.pc + Size(GenInits(rt, b, cx)), c, Inits([], st), fuel, exact)
  {
    hide Reach, Matches, Keeps;
    ReachRefl(img, rt, Running(c));
    assert At(rt, fr, cx, st, c, c) by { RelatedIsAt(rt, fr, cx, st, c); }
  }

  lemma SimInits(img: Image, rt: Runtime, fr: Frame, tg: map<Label, int>, b: Binds, cx: Context, st: State, c: Cpu, fuel: nat, exact: bool)
    requires rt.Linked()
    requires CompiledInits(img, rt, fr, tg, b, cx, c.pc, exact) && Related(rt, fr, cx, st, c)
    ensures Sound(cx) && InitsDone(img, rt, fr, tg, cx, b, c.pc + Size(GenInits(rt, b, cx)), c, EvalInits(rt, b, st, fuel), fuel, exact)
    decreases fuel, b, 0
  {
    hide Reach, CodeAt, Matches, Keeps, rt.Linked, Size, Compiled, CompiledInits, Simulates, Gen, GenInits, Next, At, Encode, Sound, InitsDone;
    assert Sound(cx) && cx.env <= 4 * fr.slots;
    SoundSi(cx);
    if b.NoBinds? {
      NoInits(img, rt, fr, tg, cx, b, st, c, fuel, exact);
    } else {
      InitsParts(img, rt, fr, tg, b, cx, c.pc, exact);
      var cx1 := cx.(env := cx.env + 4);
      var cx2 := Next(cx1, b.init, ToOperand);
      var end1 := c.pc + Size(Gen(rt, b.init, ToOperand, cx1));
      var end := c.pc + Size(GenInits(rt, b, cx));
      RelatedIsAt(rt, fr, cx, st, c);
      NextRelated(rt, fr, cx, cx1, st, c, c);
      Sim(img, rt, fr, tg, b.init, ToOperand, cx1, st, c, fuel, exact);
      var out := Eval(rt, b.init, st, fuel);
      NextAligned2(cx, cx1, b.init, ToOperand);
      if out.Val? {
        var c1 := ThenNext(img, rt, fr, tg, cx1, ToOperand, end1, c, out.w, out.st, cx1, fuel, exact);
        var c2 := RunStoreFresh(img, rt, fr, tg, cx, cx1, out.st, c, c1, GenInits(rt, b.rest, cx2));
        NextRelated(rt, fr, cx, cx2, out.st, c, c2);
        SimInits(img, rt, fr, tg, b.rest, cx2, out.st, c2, fuel, exact);
        AtKeeps(rt, fr, cx, out.st, c, c2);
        AtHeight(rt, fr, cx, out.st, c, c2);
        InitsStep(img, rt, fr, tg, cx, cx2, b, end, c, c2, out.w, EvalInits(rt, b.rest, out.st, fuel), fuel, exact);
      } else {
        InitsExit(img, rt, fr, tg, cx, cx1, b, end1, end, c, out, fuel, exact);
      }
    }
  }

  lemma AtHeight(rt: Runtime, fr: Frame, cx: Context, st: State, c0: Cpu, c: Cpu)
    requires At(rt, fr, cx, st, c0, c) && cx.si >= 0
    ensures fr.Base() <= |c.stack|
  {
  }

  lemma InitsExit(img: Image, rt: Runtime, fr: Frame, tg: map<Label, int>, cx: Context, cx1: Context, b: Binds, end1: int, end: int,
                  c: Cpu, out: Outcome, fuel: nat, exact: bool)
    requires Sound(cx) && cx1 == cx.(env := cx.env + 4) && !out.Val? && fr.Base() + cx.si / 4 <= |c.stack|
    requires Simulates(img, rt, fr, tg, cx1, ToOperand, end1, c, out, fuel, exact)
    ensures InitsDone(img, rt, fr, tg, cx, b, end, c, InitExit(out), fuel, exact)
  {
    hide Reach, Simulates, Sound;
    SoundDepths(cx);
    SoundSi(cx);
    ReachRefl(img, rt, Running(c));
    KeepsRefl(fr, cx, c.stack, fr.Base() + cx.si / 4);
    PrefixExit(img, rt, fr, tg, cx, cx1, ToOperand, end1, ToOperand, end, c, c, out, fuel, exact);
  }

  /** Entering LET's body: the new records describe the new bindings. */
  lemma EnterLet(rt: Runtime, fr: Frame, cx: Context, inner: Context, b: Binds, ws: seq<Word>, st: State, c0: Cpu, c: Cpu)
    requires Sound(cx) && At(rt, fr, cx, st, c0, c)
    requires inner.recs == cx.recs + LetRecs(b, cx.env) && inner.si == cx.si && inner.env == cx.env + 4 * SlotsInits(b) && inner.env <= 4 * fr.slots
    requires VarsMatch(fr, LetRecs(b, cx.env), LetPairs(b, ws), c.stack)
    ensures Nested(cx, inner) && Sound(inner)
    ensures Related(rt, fr, inner, st.(env := st.env + LetPairs(b, ws)), c)
  {
    hide HeapMatch, VarsMatch, LetRecs, LetPairs, Keeps, Nested;
    LetRecsFresh(b, cx.env);
    NestedLets(cx, inner, LetRecs(b, cx.env));
    MatchesLets(rt, fr, cx.recs, LetRecs(b, cx.env), st, LetPairs(b, ws), c);
  }

  lemma SimLet(img: Image, rt: Runtime, fr: Frame, tg: map<Label, int>, x: Form, dest: Dest, cx: Context, st: State, c: Cpu, fuel: nat, exact: bool)
    requires x.Let? && rt.Linked()
    requires Compiled(img, rt, fr, tg, x, dest, cx, c.pc, exact) && Related(rt, fr, cx, st, c)
    ensures Simulates(img, rt, fr, tg, cx, dest, c.pc + Size(Gen(rt, x, dest, cx)), c, Eval(rt, x, st, fuel), fuel, exact)
    decreases fuel, x, 0
  {
    hide Reach, CodeAt, Keeps, rt.Linked, Size, Compiled, CompiledInits, CompiledForms, Simulates, Gen, GenInits, GenForms, LetContext,
         HeapMatch, Sound, Nested, PushIfStack, VarsMatch, LetRecs;
    LetParts(img, rt, fr, tg, x, dest, cx, c.pc, exact);
    var inner := LetContext(cx, x.binds);
    var p1 := c.pc + Size(GenInits(rt, x.binds, cx));
    var p2 := p1 + Size(GenForms(rt, x.body, ToEax, inner));
    var end := c.pc + Size(Gen(rt, x, dest, cx));
    SimInits(img, rt, fr, tg, x.binds, cx, st, c, fuel, exact);
    SoundSi(cx);
    match EvalInits(rt, x.binds, st, fuel)
    case InitExit(out) =>
      LiftExit(img, rt, fr, tg, cx, ToOperand, p1, dest, end, c, out, fuel, exact);
    case Inits(ws, st1) =>
      var c1 :| Reach(img, rt, Running(c), Running(c1), 0) && At(rt, fr, cx, st1, c, c1) && c1.pc == p1
                && VarsMatch(fr, LetRecs(x.binds, cx.env), LetPairs(x.binds, ws), c1.stack);
      EnterLet(rt, fr, cx, inner, x.binds, ws, st1, c, c1);
      var st2 := st1.(env := st1.env + LetPairs(x.binds, ws));
      SimForms(img, rt, fr, tg, x.body, ToEax, inner, st2, c1, fuel, exact);
      var out := EvalForms(rt, x.body, st2, fuel);
      LetsSameTargets(cx, inner, LetRecs(x.binds, cx.env), out);
      LeaveScope(img, rt, fr, tg, tg, cx, inner, p2, c, c1, out, fuel, exact);
      assert |Vars(cx.recs)| == |st1.env| by { MatchLength(rt, fr, cx.recs, st1, c1); }
      PushAfter(img, rt, fr, tg, cx, dest, p2, c, Leave(out, |st1.env|), fuel, exact);
  }

  lemma MatchLength(rt: Runtime, fr: Frame, recs: seq<Rec>, st: State, c: Cpu)
    requires Matches(rt, fr, recs, st, c)
    ensures |Vars(recs)| == |st.env|
  {
  }

  /** Entering the scope of one LET* binding. */
  lemma EnterBind(rt: Runtime, fr: Frame, cx: Context, inner: Context, n: Name, w: Word, st: State, c0: Cpu, c: Cpu)
    requires Sound(cx) && At(rt, fr, cx, st, c0, c)
    requires inner.recs == cx.recs + [LetRec(n, SlotOffset(cx.env))] && inner.si == cx.si
    requires cx.env + 4 <= inner.env <= 4 * fr.slots && inner.env % 4 == 0
    requires var cell := fr.CellOf(SlotOffset(cx.env)); 0 <= cell < |c.stack| && c.stack[cell] == W(w)
    ensures Nested(cx, inner) && Sound(inner)
    ensures Related(rt, fr, inner, st.(env := st.env + [(n, w)]), c)
  {
    hide HeapMatch, Keeps, Nested, VarsMatch;
    var lets := [LetRec(n, SlotOffset(cx.env))];
    SoundSi(cx);
    assert IsSlot(SlotOffset(cx.env), inner.env);
    NestedLets(cx, inner, lets);
    OneMatches(fr, lets[0], n, w, c.stack);
    MatchesLets(rt, fr, cx.recs, lets, st, [(n, w)], c);
  }

  lemma OneMatches(fr: Frame, r: Rec, n: Name, w: Word, stack: seq<Cell>)
    requires r.LetRec? && r.name == n && 0 <= fr.CellOf(r.offset) < |stack| && stack[fr.CellOf(r.offset)] == W(w)
    ensures VarsMatch(fr, [r], [(n, w)], stack)
  {
  }

  lemma SimChain(img: Image, rt: Runtime, fr: Frame, tg: map<Label, int>, b: Chain, cx: Context, st: State, c: Cpu, fuel: nat, exact: bool)
    requires rt.Linked()
    requires CompiledChain(img, rt, fr, tg, b, cx, c.pc, exact) && Related(rt, fr, cx, st, c)
    ensures Simulates(img, rt, fr, tg, cx, ToEax, c.pc + Size(GenChain(rt, b, cx)), c, EvalChain(rt, b, st, fuel), fuel, exact)
    decreases fuel, b, 1
  {
    hide Reach, CodeAt, Keeps, rt.Linked, Size, Compiled, CompiledChain, CompiledForms, Simulates, Gen, GenChain, GenForms, BindContext,
         HeapMatch, Sound, Nested, VarsMatch, Encode, Next, At;
    if b.Body? {
      ChainBodyParts(img, rt, fr, tg, b, cx, c.pc, exact);
      SimForms(img, rt, fr, tg, b.body, ToEax, cx, st, c, fuel, exact);
    } else {
      ChainParts(img, rt, fr, tg, b, cx, c.pc, exact);
      var cx1 := cx.(env := cx.env + 4);
      var inner := BindContext(cx, b.name, b.init);
      var end1 := c.pc + Size(Gen(rt, b.init, ToOperand, cx1));
      var end := c.pc + Size(GenChain(rt, b, cx));
      SoundSi(cx);
      RelatedIsAt(rt, fr, cx, st, c);
      NextRelated(rt, fr, cx, cx1, st, c, c);
      Sim(img, rt, fr, tg, b.init, ToOperand, cx1, st, c, fuel, exact);
      var out := Eval(rt, b.init, st, fuel);
      if out.Val? {
        var c1 := ThenNext(img, rt, fr, tg, cx1, ToOperand, end1, c, out.w, out.st, cx1, fuel, exact);
        var c2 := RunStoreFresh(img, rt, fr, tg, cx, cx1, out.st, c, c1, GenChain(rt, b.rest, inner));
        EnterBind(rt, fr, cx, inner, b.name, out.w, out.st, c, c2);
        var st2 := out.st.(env := out.st.env + [(b.name, out.w)]);
        SimChain(img, rt, fr, tg, b.rest, inner, st2, c2, fuel, exact);
        var out2 := EvalChain(rt, b.rest, st2, fuel);
        AtKeeps(rt, fr, cx, out.st, c, c2);
        LetsSameTargets(cx, inner, [LetRec(b.name, SlotOffset(cx.env))], out2);
        LeaveScope(img, rt, fr, tg, tg, cx, inner, end, c, c2, out2, fuel, exact);
        AtLength(rt, fr, cx, out.st, c, c2);
      } else {
        SoundDepths(cx);
        ReachRefl(img, rt, Running(c));
        KeepsRefl(fr, cx, c.stack, fr.Base() + cx.si / 4);
        PrefixExit(img, rt, fr, tg, cx, cx1, ToOperand, end1, ToEax, end, c, c, out, fuel, exact);
      }
    }
  }

  lemma AtLength(rt: Runtime, fr: Frame, cx: Context, st: State, c0: Cpu, c: Cpu)
    requires At(rt, fr, cx, st, c0, c)
    ensures |Vars(cx.recs)| == |st.env|
  {
  }

  lemma SimLetStar(img: Image, rt: Runtime, fr: Frame, tg: map<Label, int>, x: Form, dest: Dest, cx: Context, st: State, c: Cpu, fuel: nat, exact: bool)
    requires x.LetStar? && rt.Linked()
    requires Compiled(img, rt, fr, tg, x, dest, cx, c.pc, exact) && Related(rt, fr, cx, st, c)
    ensures Simulates(img, rt, fr, tg, cx, dest, c.pc + Size(Gen(rt, x, dest, cx)), c, Eval(rt, x, st, fuel), fuel, exact)
    decreases fuel, x, 0
  {
    hide Reach, CodeAt, Related, rt.Linked, Size, Compiled, CompiledChain, Simulates, Gen, GenChain, PushIfStack;
    LetStarParts(img, rt, fr, tg, x, dest, cx, c.pc, exact);
    SimChain(img, rt, fr, tg, x.chain, cx, st, c, fuel, exact);
    PushAfter(img, rt, fr, tg, cx, dest, c.pc + Size(GenChain(rt, x.chain, cx)), c, EvalChain(rt, x.chain, st, fuel), fuel, exact);
  }

  // ----- BLOCK and RETURN-FROM -----

  lemma SimBlock(img: Image, rt: Runtime, fr: Frame, tg: map<Label, int>, x: Form, dest: Dest, cx: Context, st: State, c: Cpu, fuel: nat, exact: bool)
    requires x.Block? && rt.Linked()
    requires Compiled(img, rt, fr, tg, x, dest, cx, c.pc, exact) && Related(rt, fr, cx, st, c)
    ensures Simulates(img, rt, fr, tg, cx, dest, c.pc + Size(Gen(rt, x, dest, cx)), c, Eval(rt, x, st, fuel), fuel, exact)
    decreases fuel, x, 0
  {
    hide Reach, CodeAt, Keeps, rt.Linked, Size, Compiled, CompiledForms, Simulates, Gen, GenForms, HeapMatch, Sound, Nested, PushIfStack,
         VarsMatch, Retarget;
    BlockParts(img, rt, fr, tg, x, dest, cx, c.pc, exact);
    var inner := BlockContext(cx, x.name);
    var n := Size(GenForms(rt, x.body, ToEax, inner));
    var tg' := Retarget(tg, |cx.recs|, [n], c.pc);
    NestedMarker(cx, inner, BlockRec(x.name, cx.si));
    SimForms(img, rt, fr, tg', x.body, ToEax, inner, st, c, fuel, exact);
    var out := EvalForms(rt, x.body, st, fuel);
    assert |Vars(cx.recs)| == |st.env| by { MatchLength(rt, fr, cx.recs, st, c); }
    BlockResult(img, rt, fr, tg, x.name, cx, st, c, n, out, fuel, exact);
    PushAfter(img, rt, fr, tg, cx, dest, c.pc + n, c, Eval(rt, x, st, fuel), fuel, exact);
  }

  /** What the evaluator makes of the outcome of a block's body. */
  function BlockOutcome(name: Name, out: Outcome, depth: nat): Outcome {
    match out
    case Return(l, w, st1) => if l == name then Val(w, Truncate(st1, depth)) else out
    case _ => out
  }

  /** The body's outcome, seen from outside the block. */
  lemma BlockResult(img: Image, rt: Runtime, fr: Frame, tg: map<Label, int>, name: Name, cx: Context, st: State, c: Cpu, n: int,
                    out: Outcome, fuel: nat, exact: bool)
    requires Related(rt, fr, cx, st, c)
    requires Simulates(img, rt, fr, Retarget(tg, |cx.recs|, [n], c.pc), BlockContext(cx, name), ToEax, c.pc + n, c, out, fuel, exact)
    ensures Simulates(img, rt, fr, tg, cx, ToEax, c.pc + n, c, BlockOutcome(name, out, |Vars(cx.recs)|), fuel, exact)
  {
    hide Reach, Keeps, HeapMatch, Sound, Nested, VarsMatch, Retarget, Finished, SameOuter, At, Exited;
    var inner := BlockContext(cx, name);
    var tg' := Retarget(tg, |cx.recs|, [n], c.pc);
    NestedMarker(cx, inner, BlockRec(name, cx.si));
    RetargetFacts(tg, |cx.recs|, [n], c.pc);
    if out.Return? && out.block == name {
      FindSnoc(cx.recs, BlockRec(name, cx.si), name);
      var c' :| Reach(img, rt, Running(c), Running(c'), 1) && Exited(rt, fr, inner, tg', |cx.recs|, 0, out.st, c, c')
                && c'.eax == out.w && (exact ==> c'.ecx == 1);
      CatchReturn(rt, fr, cx, inner, tg', out.st, c, c', out.w, exact);
      ReachWeaken(img, rt, Running(c), Running(c'), 1, 0);
    } else {
      BlockPassesOn(cx, name, out);
      ReachRefl(img, rt, Running(c));
      SelfKeeps(rt, fr, cx, st, c);
      LeaveScope(img, rt, fr, tg, tg', cx, inner, c.pc + n, c, c, out, fuel, exact);
      LeaveSame(img, rt, fr, tg', cx, inner, c.pc + n, c, out, fuel, exact);
    }
  }

  lemma SelfKeeps(rt: Runtime, fr: Frame, cx: Context, st: State, c: Cpu)
    requires Related(rt, fr, cx, st, c)
    ensures Keeps(fr, cx, c.stack, c.stack, fr.Base() + cx.si / 4)
  {
  }

  lemma BlockPassesOn(cx: Context, name: Name, out: Outcome)
    requires !(out.Return? && out.block == name)
    ensures SameTargets(cx, BlockContext(cx, name), out)
  {
    match out
    case Return(n, _, _) => FindSnoc(cx.recs, BlockRec(name, cx.si), n);
    case Jump(t, _) => FindSnoc(cx.recs, BlockRec(name, cx.si), t);
    case _ =>
  }

  /** A scope that binds no variables leaves the environment as it is. */
  lemma LeaveSame(img: Image, rt: Runtime, fr: Frame, tg: map<Label, int>, cx: Context, inner: Context, end: int, c: Cpu, out: Outcome, fuel: nat, exact: bool)
    requires Vars(inner.recs) == Vars(cx.recs)
    requires Simulates(img, rt, fr, tg, inner, ToEax, end, c, out, fuel, exact)
    ensures Leave(out, |Vars(cx.recs)|) == out
  {
    hide Reach, Keeps, HeapMatch;
    if out.Val? {
      TruncateSelf(out.st);
    }
  }

  lemma SimReturn(img: Image, rt: Runtime, fr: Frame, tg: map<Label, int>, x: Form, dest: Dest, cx: Context, st: State, c: Cpu, fuel: nat, exact: bool)
    requires x.ReturnFrom? && rt.Linked()
    requires Compiled(img, rt, fr, tg, x, dest, cx, c.pc, exact) && Related(rt, fr, cx, st, c)
    ensures Simulates(img, rt, fr, tg, cx, dest, c.pc + Size(Gen(rt, x, dest, cx)), c, Eval(rt, x, st, fuel), fuel, exact)
    decreases fuel, x, 0
  {
    hide Reach, CodeAt, Keeps, rt.Linked, Size, Compiled, Gen, HeapMatch, Sound, Adjust, At, Exited, Matches, Finished, Eval, PushIfStack, SetsCount;
    ReturnParts(img, rt, fr, tg, x, dest, cx, c.pc, exact);
    ReturnOutcome(rt, x, st, fuel);
    var k := FindBlock(cx.recs, x.name);
    var out := Eval(rt, x.value, st, fuel);
    var d := if IsExit(x.value) then dest else ValueDest(x.value, dest);
    var mid := c.pc + Size(Gen(rt, x.value, d, cx));
    Sim(img, rt, fr, tg, x.value, d, cx, st, c, fuel, exact);
    if IsExit(x.value) {
      ExitsDeliverNothing(rt, x.value, st, fuel);
    }
    if out.Val? {
      SoundSi(cx);
      var c1 := ThenNext(img, rt, fr, tg, cx, d, mid, c, out.w, out.st, cx, fuel, exact);
      var c' := RunReturn(img, rt, fr, tg, cx, dest, out.st, c, c1, k);
    } else {
      LiftExit(img, rt, fr, tg, cx, d, mid, dest, c.pc + Size(Gen(rt, x, dest, cx)), c, out, fuel, exact);
    }
  }

  lemma ReturnOutcome(rt: Runtime, x: Form, st: State, fuel: nat)
    requires x.ReturnFrom?
    ensures var out := Eval(rt, x.value, st, fuel);
            Eval(rt, x, st, fuel) == if out.Val? then Return(x.name, out.w, out.st) else out
  {
  }

  // ----- TAGBODY and GO -----

  lemma SimGo(img: Image, rt: Runtime, fr: Frame, tg: map<Label, int>, x: Form, dest: Dest, cx: Context, st: State, c: Cpu, fuel: nat, exact: bool)
    requires x.Go? && rt.Linked()
    requires Compiled(img, rt, fr, tg, x, dest, cx, c.pc, exact) && Related(rt, fr, cx, st, c)
    ensures Simulates(img, rt, fr, tg, cx, dest, c.pc + Size(Gen(rt, x, dest, cx)), c, Eval(rt, x, st, fuel), fuel, exact)
  {
    hide Reach, CodeAt, Keeps, rt.Linked, Size, Compiled, Gen, HeapMatch, Sound, Adjust, At, Exited, Matches;
    GoParts(img, rt, fr, tg, x, dest, cx, c.pc, exact);
    var k := FindTags(cx.recs, x.tag);
    RelatedIsAt(rt, fr, cx, st, c);
    ReachRefl(img, rt, Running(c));
    var c' := RunExit(img, rt, fr, tg, cx, st, c, c, k, IndexOf(cx.recs[k].tags, x.tag));
  }

  /** The labels of record rec are at base plus the given offsets. */
  ghost predicate TagsPlaced(tg: map<Label, int>, rec: int, offsets: seq<int>, base: int)
    requires rec >= 0
  {
    forall t: nat :: t < |offsets| ==> Label(rec, t) in tg && tg[Label(rec, t)] == base + offsets[t]
  }

  /** The statements of a TAGBODY, compiled from start to end in inner, with every tag's label at its statements. */
  ghost predicate TagbodyReady(img: Image, rt: Runtime, fr: Frame, tg: map<Label, int>, all: Items, inner: Context, start: int, pos: int, exact: bool) {
    && CompiledItems(img, rt, fr, tg, all, inner, start, exact)
    && CodeAt(img, start + Size(GenItems(rt, all, inner)), GenNil(ToEax), tg)
    && |inner.recs| > 0 && inner.recs[|inner.recs| - 1] == TagsRec(TagNames(all), inner.si)
    && TagsPlaced(tg, |inner.recs| - 1, TagOffsets(rt, all, inner, pos), start - pos)
  }

  lemma ReadyParts(img: Image, rt: Runtime, fr: Frame, tg: map<Label, int>, all: Items, inner: Context, start: int, pos: int, exact: bool)
    requires TagbodyReady(img, rt, fr, tg, all, inner, start, pos, exact)
    ensures CompiledItems(img, rt, fr, tg, all, inner, start, exact)
    ensures CodeAt(img, start + Size(GenItems(rt, all, inner)), GenNil(ToEax), tg)
    ensures |inner.recs| > 0 && inner.recs[|inner.recs| - 1] == TagsRec(TagNames(all), inner.si)
    ensures TagsPlaced(tg, |inner.recs| - 1, TagOffsets(rt, all, inner, pos), start - pos)
  {
    hide CompiledItems, CodeAt, Size, GenItems;
  }

  /** Where the innermost tag record sends a GO. */
  lemma InnermostTags(inner: Context, all: Items, tag: Name)
    requires |inner.recs| > 0 && inner.recs[|inner.recs| - 1] == TagsRec(TagNames(all), inner.si)
    ensures HasTag(all, tag) ==> tag in TagNames(all) && FindTags(inner.recs, tag) == |inner.recs| - 1
    ensures !HasTag(all, tag) ==> FindTags(inner.recs, tag) == FindTags(inner.recs[..|inner.recs| - 1], tag)
  {
    TagNamesHas(all, tag);
  }

  /** A step taken, then the rest with one unit of fuel less. */
  lemma PrefixJump(img: Image, rt: Runtime, fr: Frame, tg: map<Label, int>, cx: Context, dest: Dest, end: int, c: Cpu, c1: Cpu,
                   out: Outcome, fuel: nat, exact: bool)
    requires fuel > 0 && Reach(img, rt, Running(c), Running(c1), 1)
    requires Simulates(img, rt, fr, tg, cx, dest, end, c1, out, fuel - 1, exact)
    requires forall i :: 0 <= i < |cx.recs| && !cx.recs[i].LetRec? ==> cx.recs[i].depth <= cx.si
    requires Keeps(fr, cx, c.stack, c1.stack, fr.Base() + cx.si / 4)
    ensures Simulates(img, rt, fr, tg, cx, dest, end, c, out, fuel, exact)
  {
    hide Reach, Exited, HeapMatch, Keeps, Finished;
    if out.Diverge? {
      var c' :| Reach(img, rt, Running(c1), Running(c'), fuel - 1);
      ReachTrans(img, rt, Running(c), Running(c1), Running(c'), 1, fuel - 1);
    } else {
      FuelIrrelevant(img, rt, fr, tg, cx, dest, end, c1, out, fuel - 1, fuel, exact);
      ReachWeaken(img, rt, Running(c), Running(c1), 1, 0);
      Prefix(img, rt, fr, tg, cx, cx, dest, end, c, c1, out, fuel, exact);
    }
  }

  lemma FuelIrrelevant(img: Image, rt: Runtime, fr: Frame, tg: map<Label, int>, cx: Context, dest: Dest, end: int, c: Cpu,
                       out: Outcome, fuel: nat, fuel': nat, exact: bool)
    requires !out.Diverge? && Simulates(img, rt, fr, tg, cx, dest, end, c, out, fuel, exact)
    ensures Simulates(img, rt, fr, tg, cx, dest, end, c, out, fuel', exact)
  {
    hide Reach, Exited, HeapMatch, Finished;
  }

  lemma OutOfFuel(img: Image, rt: Runtime, fr: Frame, tg: map<Label, int>, cx: Context, dest: Dest, end: int, c: Cpu, exact: bool)
    ensures Simulates(img, rt, fr, tg, cx, dest, end, c, Diverge, 0, exact)
  {
    hide Reach;
    ReachRefl(img, rt, Running(c));
  }

  /** After the outermost context of a tagbody, a later one protects at least as much. */
  lemma KeepsOuter(fr: Frame, inner: Context, cx: Context, s: seq<Cell>, s': seq<Cell>, top: int)
    requires cx.recs == inner.recs && cx.env >= inner.env && Keeps(fr, cx, s, s', top)
    ensures Keeps(fr, inner, s, s', top)
  {
    ProtectedGrows(fr, inner, cx);
  }

  /** cx is a later context of the tagbody compiled in inner. */
  ghost predicate Later(fr: Frame, inner: Context, cx: Context) {
    cx == inner.(env := cx.env) && inner.env <= cx.env <= 4 * fr.slots && cx.env % 4 == 0
  }

  lemma LaterSound(fr: Frame, inner: Context, cx: Context)
    requires Sound(inner) && Later(fr, inner, cx)
    ensures Sound(cx)
  {
  }

  /** From the statements in rest to the end of the tagbody, jumps back to its tags included. */
  lemma SimItems(img: Image, rt: Runtime, fr: Frame, tg: map<Label, int>, all: Items, inner: Context, start: int, pos: int,
                 rest: Items, cx: Context, st: State, c: Cpu, fuel: nat, exact: bool)
    requires rt.Linked() && Sound(inner)
    requires TagbodyReady(img, rt, fr, tg, all, inner, start, pos, exact)
    requires Later(fr, inner, cx) && Related(rt, fr, cx, st, c)
    requires CompiledItems(img, rt, fr, tg, rest, cx, c.pc, exact)
    requires c.pc + Size(GenItems(rt, rest, cx)) == start + Size(GenItems(rt, all, inner))
    ensures Simulates(img, rt, fr, tg, inner, ToEax, start + Size(GenItems(rt, all, inner)) + Size(GenNil(ToEax)), c,
                      EvalItems(rt, all, rest, |Vars(inner.recs)|, st, fuel), fuel, exact)
    decreases fuel, rest, 1
  {
    hide Reach, CodeAt, Keeps, rt.Linked, Size, Compiled, CompiledItems, Simulates, Gen, GenItems, GenNil, Next, At, HeapMatch, Sound,
         TagbodyReady, Matches, Related;
    ItemsParts(img, rt, fr, tg, rest, cx, c.pc, exact);
    match rest
    case NoItems =>
      EmptyItems(rt, cx);
      ReadyParts(img, rt, fr, tg, all, inner, start, pos, exact);
      ItemsEnd(img, rt, fr, tg, inner, cx, ToEax, st, c, fuel, exact);
    case Tag(_, more) =>
      SimItems(img, rt, fr, tg, all, inner, start, pos, more, cx, st, c, fuel, exact);
    case Stmt(x, more) =>
      SimStmt(img, rt, fr, tg, all, inner, start, pos, x, more, cx, st, c, fuel, exact);
  }

  lemma EmptyItems(rt: Runtime, cx: Context)
    ensures Size(GenItems(rt, NoItems, cx)) == 0
  {
  }

  /** The final NIL, from a context later in the tagbody. */
  lemma ItemsEnd(img: Image, rt: Runtime, fr: Frame, tg: map<Label, int>, inner: Context, cx: Context, dest: Dest, st: State, c: Cpu, fuel: nat, exact: bool)
    requires rt.Linked() && Sound(inner) && dest == ToEax
    requires Later(fr, inner, cx) && Related(rt, fr, cx, st, c)
    requires CodeAt(img, c.pc, GenNil(dest), tg)
    ensures Simulates(img, rt, fr, tg, inner, dest, c.pc + Size(GenNil(dest)), c, Val(rt.nilWord, st), fuel, exact)
  {
    hide Reach, CodeAt, Keeps, rt.Linked, Size, GenNil, Sound, Related, Simulates;
    SimNil(img, rt, fr, tg, cx, dest, st, c, fuel, exact);
    SoundDepths(inner);
    ReachRefl(img, rt, Running(c));
    SelfKeeps(rt, fr, cx, st, c);
    KeepsOuter(fr, inner, cx, c.stack, c.stack, fr.Base() + cx.si / 4);
    Prefix(img, rt, fr, tg, inner, cx, dest, c.pc + Size(GenNil(dest)), c, c, Val(rt.nilWord, st), fuel, exact);
  }

  lemma SimStmt(img: Image, rt: Runtime, fr: Frame, tg: map<Label, int>, all: Items, inner: Context, start: int, pos: int,
                x: Form, more: Items, cx: Context, st: State, c: Cpu, fuel: nat, exact: bool)
    requires rt.Linked() && Sound(inner)
    requires TagbodyReady(img, rt, fr, tg, all, inner, start, pos, exact)
    requires Later(fr, inner, cx) && Related(rt, fr, cx, st, c)
    requires CompiledItems(img, rt, fr, tg, Stmt(x, more), cx, c.pc, exact)
    requires c.pc + Size(GenItems(rt, Stmt(x, more), cx)) == start + Size(GenItems(rt, all, inner))
    ensures Simulates(img, rt, fr, tg, inner, ToEax, start + Size(GenItems(rt, all, inner)) + Size(GenNil(ToEax)), c,
                      EvalItems(rt, all, Stmt(x, more), |Vars(inner.recs)|, st, fuel), fuel, exact)
    decreases fuel, Stmt(x, more), 0
  {
    hide Reach, CodeAt, Keeps, rt.Linked, Size, Compiled, CompiledItems, Simulates, Gen, GenItems, GenNil, Next, At, HeapMatch, Sound,
         TagbodyReady, Matches, Related;
    ItemsParts(img, rt, fr, tg, Stmt(x, more), cx, c.pc, exact);
    var n := |Vars(inner.recs)|;
    var cx1 := Next(cx, x, ToEax);
    var end1 := c.pc + Size(Gen(rt, x, ToEax, cx));
    var end := start + Size(GenItems(rt, all, inner)) + Size(GenNil(ToEax));
    Sim(img, rt, fr, tg, x, ToEax, cx, st, c, fuel, exact);
    var out := Eval(rt, x, st, fuel);
    SoundDepths(inner);
    LaterSound(fr, inner, cx);
    NextAligned(cx, x, ToEax);
    NextEnv(cx, x, ToEax);
    if out.Val? {
      var c1 := ThenNext(img, rt, fr, tg, cx, ToEax, end1, c, out.w, out.st, cx1, fuel, exact);
      SimItems(img, rt, fr, tg, all, inner, start, pos, more, cx1, out.st, c1, fuel, exact);
      KeepsOuter(fr, inner, cx, c.stack, c1.stack, fr.Base() + cx.si / 4);
      Prefix(img, rt, fr, tg, inner, inner, ToEax, end, c, c1, EvalItems(rt, all, more, n, out.st, fuel), fuel, exact);
    } else if out.Jump? && HasTag(all, out.tag) {
      if fuel == 0 {
        OutOfFuel(img, rt, fr, tg, inner, ToEax, end, c, exact);
      } else {
        var cxt, c1 := LandOnTag(img, rt, fr, tg, all, inner, start, pos, cx, end1, c, out, fuel, exact);
        SimItems(img, rt, fr, tg, all, inner, start, pos, After(all, out.tag), cxt, Truncate(out.st, n), c1, fuel - 1, exact);
        PrefixJump(img, rt, fr, tg, inner, ToEax, end, c, c1,
                   EvalItems(rt, all, After(all, out.tag), n, Truncate(out.st, n), fuel - 1), fuel, exact);
      }
    } else {
      ReachRefl(img, rt, Running(c));
      SelfKeeps(rt, fr, cx, st, c);
      KeepsOuter(fr, inner, cx, c.stack, c.stack, fr.Base() + cx.si / 4);
      PrefixExit(img, rt, fr, tg, inner, cx, ToEax, end1, ToEax, end, c, c, out, fuel, exact);
    }
  }

  /** A GO caught by this tagbody puts the machine at the statements after the tag, in the tagbody's frame. */
  lemma LandOnTag(img: Image, rt: Runtime, fr: Frame, tg: map<Label, int>, all: Items, inner: Context, start: int, pos: int,
                  cx: Context, end1: int, c: Cpu, out: Outcome, fuel: nat, exact: bool) returns (cxt: Context, c1: Cpu)
    requires Sound(inner) && TagbodyReady(img, rt, fr, tg, all, inner, start, pos, exact) && Later(fr, inner, cx)
    requires out.Jump? && HasTag(all, out.tag) && Simulates(img, rt, fr, tg, cx, ToEax, end1, c, out, fuel, exact)
    ensures Reach(img, rt, Running(c), Running(c1), 1) && Keeps(fr, inner, c.stack, c1.stack, fr.Base() + inner.si / 4)
    ensures Later(fr, inner, cxt) && Related(rt, fr, cxt, Truncate(out.st, |Vars(inner.recs)|), c1)
    ensures CompiledItems(img, rt, fr, tg, After(all, out.tag), cxt, c1.pc, exact)
    ensures c1.pc + Size(GenItems(rt, After(all, out.tag), cxt)) == start + Size(GenItems(rt, all, inner))
  {
    hide Reach, CodeAt, Keeps, Size, CompiledItems, GenItems, HeapMatch, Sound, Matches, TagbodyReady, TagOffsets, GenNil, Related, Exited;
    ReadyParts(img, rt, fr, tg, all, inner, start, pos, exact);
    InnermostTags(inner, all, out.tag);
    SoundSi(inner);
    cxt := TagPosition(img, rt, fr, tg, all, inner, start, pos, out.tag, exact);
    var k := |cx.recs| - 1;
    var t := IndexOf(cx.recs[k].tags, out.tag);
    c1 :| Reach(img, rt, Running(c), Running(c1), 1) && Exited(rt, fr, cx, tg, k, t, out.st, c, c1);
    ItemsParts(img, rt, fr, tg, After(all, out.tag), cxt, start - pos + TagOffsets(rt, all, inner, pos)[t], exact);
    LaterSound(fr, inner, cx);
    LaterSound(fr, inner, cxt);
    CatchJump(rt, fr, cx, cxt, tg, t, out.st, c, c1) by { SoundSi(cxt); }
    KeepsOuter(fr, inner, cx, c.stack, c1.stack, fr.Base() + inner.si / 4);
  }

  /** A tagbody of tags alone is NIL. */
  lemma {:induction false} TagsOnly(rt: Runtime, all: Items, rest: Items, depth: nat, st: State, fuel: nat)
    requires !HasStmt(rest)
    ensures EvalItems(rt, all, rest, depth, st, fuel) == Val(rt.nilWord, st)
    decreases rest
  {
    if rest.Tag? {
      TagsOnly(rt, all, rest.rest, depth, st, fuel);
    }
  }

  /** A tagbody catches the jumps to its own tags. */
  lemma {:induction false} JumpsAreCaught(rt: Runtime, all: Items, rest: Items, depth: nat, st: State, fuel: nat)
    ensures var out := EvalItems(rt, all, rest, depth, st, fuel); out.Jump? ==> !HasTag(all, out.tag)
    decreases fuel, rest
  {
    hide Eval;
    match rest
    case NoItems =>
    case Tag(_, more) => JumpsAreCaught(rt, all, more, depth, st, fuel);
    case Stmt(x, more) =>
      var out := Eval(rt, x, st, fuel);
      if out.Val? {
        JumpsAreCaught(rt, all, more, depth, out.st, fuel);
      } else if out.Jump? && HasTag(all, out.tag) && fuel > 0 {
        JumpsAreCaught(rt, all, After(all, out.tag), depth, Truncate(out.st, depth), fuel - 1);
      }
  }

  lemma TagsPassOn(cx: Context, inner: Context, items: Items, out: Outcome)
    requires inner.recs == cx.recs + [TagsRec(TagNames(items), cx.si)]
    requires out.Jump? ==> !HasTag(items, out.tag)
    ensures SameTargets(cx, inner, out)
  {
    var r := TagsRec(TagNames(items), cx.si);
    match out
    case Return(n, _, _) => FindSnoc(cx.recs, r, n);
    case Jump(t, _) =>
      TagNamesHas(items, t);
      FindSnoc(cx.recs, r, t);
    case _ =>
  }

  /** The NIL loaded first when every statement is a GO. */
  lemma RunPre(img: Image, rt: Runtime, fr: Frame, tg: map<Label, int>, items: Items, inner: Context, st: State, c: Cpu) returns (c1: Cpu)
    requires rt.Linked() && Related(rt, fr, inner, st, c) && CodeAt(img, c.pc, TagbodyPre(items), tg)
    ensures Reach(img, rt, Running(c), Running(c1), 0) && Related(rt, fr, inner, st, c1)
    ensures Keeps(fr, inner, c.stack, c1.stack, fr.Base() + inner.si / 4) && c1.pc == c.pc + Size(TagbodyPre(items))
  {
    hide Reach, CodeAt, Keeps, rt.Linked, GenNil, HeapMatch, VarsMatch, At;
    if OnlyGos(items) {
      SimNil(img, rt, fr, tg, inner, ToEax, st, c, 0, false);
      SoundSi(inner);
      c1 := ThenNext(img, rt, fr, tg, inner, ToEax, c.pc + Size(GenNil(ToEax)), c, rt.nilWord, st, inner, 0, false);
    } else {
      c1 := c;
      ReachRefl(img, rt, Running(c));
      SelfKeeps(rt, fr, inner, st, c);
    }
  }

  lemma SimTagbody(img: Image, rt: Runtime, fr: Frame, tg: map<Label, int>, x: Form, dest: Dest, cx: Context, st: State, c: Cpu, fuel: nat, exact: bool)
    requires x.Tagbody? && rt.Linked()
    requires Compiled(img, rt, fr, tg, x, dest, cx, c.pc, exact) && Related(rt, fr, cx, st, c)
    ensures Simulates(img, rt, fr, tg, cx, dest, c.pc + Size(Gen(rt, x, dest, cx)), c, Eval(rt, x, st, fuel), fuel, exact)
    decreases fuel, x, 0
  {
    hide Reach, CodeAt, Keeps, rt.Linked, Size, Compiled, CompiledItems, Simulates, Gen, GenItems, HeapMatch, Sound, Nested, PushIfStack,
         VarsMatch, Retarget, GenNil, TagbodyPre, TagbodyTargets, EvalItems, TagOffsets, TagbodyReady, SameOuter;
    TagbodyParts(img, rt, fr, tg, x, dest, cx, c.pc, exact);
    var items := x.items;
    MatchLength(rt, fr, cx.recs, st, c);
    if !HasStmt(items) {
      TagsOnly(rt, items, items, |st.env|, st, fuel);
      SimNil(img, rt, fr, tg, cx, dest, st, c, fuel, exact);
    } else {
      var inner := TagsContext(cx, items);
      var pre, g := TagbodyPre(items), GenItems(rt, items, inner);
      var targets := TagbodyTargets(rt, items, inner);
      var tg' := Retarget(tg, |cx.recs|, targets, c.pc);
      var end := c.pc + Size(pre) + Size(g) + Size(GenNil(ToEax));
      NestedMarker(cx, inner, TagsRec(TagNames(items), cx.si));
      RetargetFacts(tg, |cx.recs|, targets, c.pc);
      var c1 := RunPre(img, rt, fr, tg', items, inner, st, c);
      MakeReady(img, rt, fr, tg', cx, items, inner, c.pc, exact);
      var out := EvalItems(rt, items, items, |st.env|, st, fuel);
      SimItems(img, rt, fr, tg', items, inner, c.pc + Size(pre), Size(pre), items, inner, st, c1, fuel, exact);
      JumpsAreCaught(rt, items, items, |st.env|, st, fuel);
      TagsPassOn(cx, inner, items, out);
      KeepsMarker(fr, cx, inner, c.stack, c1.stack, fr.Base() + cx.si / 4);
      LeaveScope(img, rt, fr, tg, tg', cx, inner, end, c, c1, out, fuel, exact);
      LeaveSame(img, rt, fr, tg', cx, inner, end, c1, out, fuel, exact);
      PushAfter(img, rt, fr, tg, cx, dest, end, c, out, fuel, exact);
    }
  }

  lemma KeepsMarker(fr: Frame, cx: Context, inner: Context, s: seq<Cell>, s': seq<Cell>, top: int)
    requires Vars(inner.recs) == Vars(cx.recs) && inner.env == cx.env && Keeps(fr, inner, s, s', top)
    ensures Keeps(fr, cx, s, s', top)
  {
    assert forall i :: Protected(fr, cx, i) ==> Protected(fr, inner, i);
  }

  lemma MakeReady(img: Image, rt: Runtime, fr: Frame, tg: map<Label, int>, cx: Context, items: Items, inner: Context, pc: int, exact: bool)
    requires inner == TagsContext(cx, items)
    requires var targets, n := TagbodyTargets(rt, items, inner), Size(TagbodyPre(items));
             && (forall t: nat :: t < |targets| ==> Label(|cx.recs|, t) in tg && tg[Label(|cx.recs|, t)] == pc + targets[t])
             && CompiledItems(img, rt, fr, tg, items, inner, pc + n, exact)
             && CodeAt(img, pc + n + Size(GenItems(rt, items, inner)), GenNil(ToEax), tg)
    ensures TagbodyReady(img, rt, fr, tg, items, inner, pc + Size(TagbodyPre(items)), Size(TagbodyPre(items)), exact)
  {
    hide CompiledItems, CodeAt, Size, GenItems, TagOffsets, GenNil, TagbodyPre;
  }

  // ----- two-argument calls -----

  lemma CallTyped(rt: Runtime, x: Form, check: bool, st: State, fuel: nat)
    requires IsCall(x)
    ensures var o1 := Eval(rt, x.arg1, st, fuel);
            o1.Val? ==>
              var o2 := Eval(rt, x.arg2, o1.st, fuel);
              o2.Val? ==> ArgsTyped(x, o1.w, o2.w, check)
  {
    hide Eval, NeedsTest, IsFixnum;
    if !NeedsTest(x.arg1, check) { OmittedTest(rt, x.arg1, check, st, fuel); }
    var o1 := Eval(rt, x.arg1, st, fuel);
    if o1.Val? && !NeedsTest(x.arg2, check) { OmittedTest(rt, x.arg2, check, o1.st, fuel); }
  }

  /** Both values in registers; the tail finishes the call. */
  lemma FinishArgs(img: Image, rt: Runtime, fr: Frame, tg: map<Label, int>, x: Form, dest: Dest, cx: Context, st: State, c: Cpu, c2: Cpu,
                   a: Word, st1: State, b: Word, st2: State, fuel: nat, exact: bool)
    requires rt.Linked() && IsCall(x) && (dest == ToZeroFlag ==> x.NumEqual?)
    requires Eval(rt, x.arg1, st, fuel) == Val(a, st1) && Eval(rt, x.arg2, st1, fuel) == Val(b, st2)
    requires Reach(img, rt, Running(c), Running(c2), 0) && At(rt, fr, cx, st2, c, c2) && ArgsReady(x, a, b, c2)
    requires CallStands(img, rt, tg, x, dest, cx, c.pc) && c2.pc == c.pc + Size(Gen2(rt, x, x.arg1, x.arg2, cx))
    ensures Simulates(img, rt, fr, tg, cx, dest, c.pc + Size(Gen(rt, x, dest, cx)), c, Eval(rt, x, st, fuel), fuel, exact)
  {
    hide Reach, CodeAt, At, Simulates, Eval, CallOutcome, CallTail, Size, Gen, Gen2, rt.Linked, ArgsReady, ArgsTyped;
    EvalCall(rt, x, st, fuel);
    CallTyped(rt, x, cx.check, st, fuel);
    FinishCallForm(img, rt, fr, tg, x, dest, cx, c, c2, a, b, st2, fuel, exact);
  }

  lemma SimCallLiteral(img: Image, rt: Runtime, fr: Frame, tg: map<Label, int>, x: Form, dest: Dest, cx: Context, st: State, c: Cpu, fuel: nat, exact: bool)
    requires x.ArithCall? && Arg1Dest(x) == ToOperand && rt.Linked()
    requires Compiled(img, rt, fr, tg, x, dest, cx, c.pc, exact) && Related(rt, fr, cx, st, c)
    ensures Simulates(img, rt, fr, tg, cx, dest, c.pc + Size(Gen(rt, x, dest, cx)), c, Eval(rt, x, st, fuel), fuel, exact)
    decreases fuel, x, 0
  {
    hide Reach, CodeAt, Keeps, rt.Linked, Size, Compiled, Simulates, Gen, Gen2, CallTail, At, Matches, Sound, Related, Eval, Arg1Dest, CallOutcome,
         Next, Encode, Accepts, CleanForm, Slots, Finished;
    CallParts(img, rt, fr, tg, x, dest, cx, c.pc, exact);
    CallArg1(img, rt, fr, tg, x, dest, cx, c.pc, exact);
    CallConditions(img, rt, fr, tg, x, dest, cx, c.pc, exact);
    LiteralParts(img, rt, tg, x, cx, c.pc);
    EvalCall(rt, x, st, fuel);
    var mid := c.pc + Size(Gen(rt, x.arg1, ToOperand, cx));
    Sim(img, rt, fr, tg, x.arg1, ToOperand, cx, st, c, fuel, exact);
    var out := Eval(rt, x.arg1, st, fuel);
    if out.Val? {
      RelatedSound(rt, fr, cx, st, c);
      var c1 := ThenNext(img, rt, fr, tg, cx, ToOperand, mid, c, out.w, out.st, cx, fuel, exact);
      var load := Plain(MovObj(EDX, x.arg2.w));
      Advance(img, rt, tg, c, c1, [load], load, []);
      var m := Exec(rt, load.ins, c1.(pc := c1.pc + Len(load)));
      ExecMovObj(rt, EDX, x.arg2.w, c1.(pc := c1.pc + Len(load)));
      AtFrame(rt, fr, cx, out.st, c, c1, m.cpu);
      LiteralValue(rt, x.arg2, out.st, fuel);
      FinishArgs(img, rt, fr, tg, x, dest, cx, st, c, m.cpu, out.w, out.st, x.arg2.w, out.st, fuel, exact);
    } else {
      LiftExit(img, rt, fr, tg, cx, ToOperand, mid, dest, c.pc + Size(Gen(rt, x, dest, cx)), c, out, fuel, exact);
    }
  }

  lemma RelatedSound(rt: Runtime, fr: Frame, cx: Context, st: State, c: Cpu)
    requires Related(rt, fr, cx, st, c)
    ensures Sound(cx) && cx.env <= 4 * fr.slots && cx.env % 4 == 0 && cx.env >= 0 && cx.si >= 0
  {
  }

  lemma ExecMovObj(rt: Runtime, r: Reg, w: Word, c: Cpu)
    requires r == EDX
    ensures var m := Exec(rt, MovObj(r, w), c);
            m.Running? && SameFrame(c, m.cpu) && m.cpu.edx == w && m.cpu.eax == c.eax && m.cpu.pc == c.pc
  {
  }

  lemma LiteralValue(rt: Runtime, x: Form, st: State, fuel: nat)
    requires x.Lit?
    ensures Eval(rt, x, st, fuel) == Val(x.w, st)
  {
  }

  lemma SimCallSimple(img: Image, rt: Runtime, fr: Frame, tg: map<Label, int>, x: Form, dest: Dest, cx: Context, st: State, c: Cpu, fuel: nat, exact: bool)
    requires IsCall(x) && !x.ArithCall? && Arg1Dest(x) == ToOperand && rt.Linked()
    requires Compiled(img, rt, fr, tg, x, dest, cx, c.pc, exact) && Related(rt, fr, cx, st, c)
    ensures Simulates(img, rt, fr, tg, cx, dest, c.pc + Size(Gen(rt, x, dest, cx)), c, Eval(rt, x, st, fuel), fuel, exact)
    decreases fuel, x, 0
  {
    hide Reach, CodeAt, Keeps, rt.Linked, Size, Compiled, Simulates, Gen, Gen2, CallTail, At, Matches, Sound, Related, Eval, Arg1Dest, CallOutcome,
         Next, Encode, Accepts, CleanForm, Slots, Finished, IsSimple, SimpleLoaded, CallStands;
    CallParts(img, rt, fr, tg, x, dest, cx, c.pc, exact);
    CallArg1(img, rt, fr, tg, x, dest, cx, c.pc, exact);
    CallConditions(img, rt, fr, tg, x, dest, cx, c.pc, exact);
    CallCode(img, rt, tg, x, dest, cx, c.pc);
    SimpleParts(img, rt, tg, x, cx, c.pc);
    EvalCall(rt, x, st, fuel);
    var cx1 := Next(cx, x.arg1, ToOperand);
    var mid := c.pc + Size(Gen(rt, x.arg1, ToOperand, cx));
    Sim(img, rt, fr, tg, x.arg1, ToOperand, cx, st, c, fuel, exact);
    var out := Eval(rt, x.arg1, st, fuel);
    if out.Val? {
      RelatedSound(rt, fr, cx, st, c);
      NextAligned(cx, x.arg1, ToOperand);
      var c1 := ThenNext(img, rt, fr, tg, cx, ToOperand, mid, c, out.w, out.st, cx1, fuel, exact);
      var mov, g2 := Plain(Mov(EDX, EAX)), Gen(rt, x.arg2, ToOperand, cx1);
      Advance(img, rt, tg, c, c1, [mov] + g2, mov, g2);
      var c2 := c1.(pc := c1.pc + Len(mov), edx := c1.eax);
      assert Exec(rt, Mov(EDX, EAX), c1.(pc := c1.pc + Len(mov))) == Running(c2);
      AtFrame(rt, fr, cx, out.st, c, c1, c2);
      NextRelated(rt, fr, cx, cx1, out.st, c, c2);
      SimSimple(img, rt, fr, tg, x.arg2, cx1, out.st, c2, fuel);
      SimpleSecond(img, rt, fr, tg, x, dest, cx, st, c, c2, out.w, out.st, fuel, exact);
    } else {
      LiftExit(img, rt, fr, tg, cx, ToOperand, mid, dest, c.pc + Size(Gen(rt, x, dest, cx)), c, out, fuel, exact);
    }
  }

  lemma CallCode(img: Image, rt: Runtime, tg: map<Label, int>, x: Form, dest: Dest, cx: Context, pc: int)
    requires IsCall(x) && CallStands(img, rt, tg, x, dest, cx, pc)
    ensures CodeAt(img, pc, Gen2(rt, x, x.arg1, x.arg2, cx), tg)
  {
    hide CodeAt, Gen2, Gen, CallTail, Size;
  }

  lemma SimpleSecond(img: Image, rt: Runtime, fr: Frame, tg: map<Label, int>, x: Form, dest: Dest, cx: Context, st: State, c: Cpu, c2: Cpu,
                     a: Word, st1: State, fuel: nat, exact: bool)
    requires rt.Linked() && IsCall(x) && !x.ArithCall? && (dest == ToZeroFlag ==> x.NumEqual?)
    requires Eval(rt, x.arg1, st, fuel) == Val(a, st1) && c2.edx == a
    requires Reach(img, rt, Running(c), Running(c2), 0) && At(rt, fr, cx, st1, c, c2)
    requires CallStands(img, rt, tg, x, dest, cx, c.pc)
    requires SimpleLoaded(img, rt, c2, c.pc + Size(Gen2(rt, x, x.arg1, x.arg2, cx)), Eval(rt, x.arg2, st1, fuel), st1)
    ensures Simulates(img, rt, fr, tg, cx, dest, c.pc + Size(Gen(rt, x, dest, cx)), c, Eval(rt, x, st, fuel), fuel, exact)
  {
    hide Reach, CodeAt, At, Eval, CallOutcome, CallTail, Size, Gen, Gen2, rt.Linked, CallStands, HeapMatch, Finished, Exited;
    EvalCall(rt, x, st, fuel);
    match Eval(rt, x.arg2, st1, fuel)
    case Val(b, st2) =>
      var end := c.pc + Size(Gen2(rt, x, x.arg1, x.arg2, cx));
      var c3 :| Reach(img, rt, Running(c2), Running(c3), 0) && SameFrame(c2, c3) && c3.pc == end && c3.eax == b && c3.edx == c2.edx;
      Continue(img, rt, Running(c), Running(c2), Running(c3), 0);
      AtFrame(rt, fr, cx, st1, c, c2, c3);
      FinishArgs(img, rt, fr, tg, x, dest, cx, st, c, c3, a, st1, b, st2, fuel, exact);
    case Signal(st2) =>
      AtHeap(rt, fr, cx, st1, c, c2);
      Continue(img, rt, Running(c), Running(c2), Raised(c2.heap), 0);
  }

  /** Collecting the second argument from EAX and the first from the stack. */
  lemma RunCollect(img: Image, rt: Runtime, fr: Frame, tg: map<Label, int>, x: Form, cx: Context, cx1: Context, end: int, a: Word, b: Word,
                   st1: State, st2: State, c: Cpu, c1: Cpu, c2: Cpu, exact: bool) returns (c3: Cpu)
    requires IsCall(x) && Arg1Dest(x) == ToStack && Sound(cx) && cx.env <= 4 * fr.slots
    requires Finished(rt, fr, cx, ToStack, end, a, st1, c, c1, exact)
    requires cx1.recs == cx.recs && cx1.si == cx.si + 4 && cx1.env >= cx.env
    requires At(rt, fr, cx1, st2, c1, c2) && c2.eax == b
    requires Reach(img, rt, Running(c), Running(c2), 0) && CodeAt(img, c2.pc, Collect(x), tg)
    ensures Reach(img, rt, Running(c), Running(c3), 0) && At(rt, fr, cx, st2, c, c3) && ArgsReady(x, a, b, c3)
    ensures c3.pc == c2.pc + Size(Collect(x))
  {
    hide Reach, CodeAt, Keeps, Matches, Sound, Finished, At, Encode, Exec, Len, Size;
    StackedTop(rt, fr, cx, cx1, a, end, st1, st2, c, c1, c2, exact);
    ExecCollect(rt, c2, a);
    if x.ArithCall? && x.fn.Minus? {
      var i0, i1 := Plain(Mov(EDX, EAX)), Plain(Pop(EAX));
      assert Collect(x) == [i0] + [i1];
      Advance(img, rt, tg, c, c2, [i0] + [i1], i0, [i1]);
      var c4 := c2.(pc := c2.pc + Len(i0), edx := b);
      Advance(img, rt, tg, c, c4, [i1], i1, []);
      c3 := DropCells(c4, 1).(pc := c4.pc + Len(i1), eax := a);
      SizePair(i0, i1);
    } else {
      var i0 := Plain(Pop(EDX));
      Advance(img, rt, tg, c, c2, [i0], i0, []);
      c3 := DropCells(c2, 1).(pc := c2.pc + Len(i0), edx := a);
      SizePair(i0, i0);
    }
    StackedArg(rt, fr, cx, cx1, a, end, st1, st2, c, c1, c2, c3, exact);
  }

  lemma ExecCollect(rt: Runtime, c: Cpu, a: Word)
    requires |c.stack| > 0 && Top(c) == W(a)
    ensures forall pc :: Exec(rt, Mov(EDX, EAX), c.(pc := pc)) == Running(c.(pc := pc, edx := c.eax))
    ensures forall pc, d :: Exec(rt, Pop(EAX), c.(pc := pc, edx := d)) == Running(DropCells(c, 1).(pc := pc, edx := d, eax := a))
    ensures forall pc :: Exec(rt, Pop(EDX), c.(pc := pc)) == Running(DropCells(c, 1).(pc := pc, edx := a))
  {
  }

  lemma StackedTop(rt: Runtime, fr: Frame, cx: Context, cx1: Context, a: Word, end: int, st1: State, st2: State, c: Cpu, c1: Cpu, c2: Cpu, exact: bool)
    requires Sound(cx) && cx.env <= 4 * fr.slots
    requires Finished(rt, fr, cx, ToStack, end, a, st1, c, c1, exact)
    requires cx1.recs == cx.recs && cx1.si == cx.si + 4 && cx1.env >= cx.env
    requires At(rt, fr, cx1, st2, c1, c2)
    ensures |c2.stack| > 0 && Top(c2) == W(a)
  {
    hide Sound, Finished, Keeps, Matches;
    SoundSi(cx);
    assert |c2.stack| > 0;
    StackedArg(rt, fr, cx, cx1, a, end, st1, st2, c, c1, c2, DropCells(c2, 1), exact);
  }

  /** After the first argument is pushed, the second can be compiled one word up. */
  lemma PushedRelated(rt: Runtime, fr: Frame, cx: Context, cx1: Context, end: int, a: Word, st1: State, c: Cpu, c1: Cpu, exact: bool)
    requires Sound(cx) && Finished(rt, fr, cx, ToStack, end, a, st1, c, c1, exact)
    requires cx1.recs == cx.recs && cx1.si == cx.si + 4 && cx.env <= cx1.env <= 4 * fr.slots && cx1.env % 4 == 0
    ensures Related(rt, fr, cx1, st1, c1) && Sound(cx1)
    ensures Keeps(fr, cx, c.stack, c1.stack, fr.Base() + cx.si / 4)
  {
    hide Matches, Keeps, IsSlot;
    assert (cx.si + 4) / 4 == cx.si / 4 + 1;
    forall i | 0 <= i < |Vars(cx.recs)|
      ensures IsSlot(Vars(cx.recs)[i].offset, cx1.env)
    {
      SlotGrows(Vars(cx.recs)[i].offset, cx.env, cx1.env);
    }
  }

  lemma SlotGrows(offset: int, env: int, env1: int)
    requires IsSlot(offset, env) && env <= env1
    ensures IsSlot(offset, env1)
  {
  }

  lemma SimCallStacked(img: Image, rt: Runtime, fr: Frame, tg: map<Label, int>, x: Form, dest: Dest, cx: Context, st: State, c: Cpu, fuel: nat, exact: bool)
    requires IsCall(x) && Arg1Dest(x) == ToStack && rt.Linked()
    requires Compiled(img, rt, fr, tg, x, dest, cx, c.pc, exact) && Related(rt, fr, cx, st, c)
    ensures Simulates(img, rt, fr, tg, cx, dest, c.pc + Size(Gen(rt, x, dest, cx)), c, Eval(rt, x, st, fuel), fuel, exact)
    decreases fuel, x, 0
  {
    hide Reach, CodeAt, Keeps, rt.Linked, Size, Compiled, Gen, Gen2, CallTail, At, Matches, Sound, Related, Eval, Arg1Dest, CallOutcome,
         Next, Encode, Accepts, CleanForm, Slots, Finished, CallStands, Exited, HeapMatch;
    CallParts(img, rt, fr, tg, x, dest, cx, c.pc, exact);
    CallArg1(img, rt, fr, tg, x, dest, cx, c.pc, exact);
    CallConditions(img, rt, fr, tg, x, dest, cx, c.pc, exact);
    CallCode(img, rt, tg, x, dest, cx, c.pc);
    StackedParts(img, rt, tg, x, cx, c.pc);
    EvalCall(rt, x, st, fuel);
    var mid := c.pc + Size(Gen(rt, x.arg1, ToStack, cx));
    Sim(img, rt, fr, tg, x.arg1, ToStack, cx, st, c, fuel, exact);
    var out := Eval(rt, x.arg1, st, fuel);
    if out.Val? {
      var c1 :| Reach(img, rt, Running(c), Running(c1), 0) && Finished(rt, fr, cx, ToStack, mid, out.w, out.st, c, c1, exact);
      SecondStacked(img, rt, fr, tg, x, dest, cx, st, c, c1, mid, out.w, out.st, fuel, exact);
    } else {
      LiftExit(img, rt, fr, tg, cx, ToStack, mid, dest, c.pc + Size(Gen(rt, x, dest, cx)), c, out, fuel, exact);
    }
  }

  lemma FinishedPc(rt: Runtime, fr: Frame, cx: Context, dest: Dest, end: int, w: Word, st: State, c: Cpu, c': Cpu, exact: bool)
    requires Finished(rt, fr, cx, dest, end, w, st, c, c', exact)
    ensures c'.pc == end
  {
  }

  lemma SecondStacked(img: Image, rt: Runtime, fr: Frame, tg: map<Label, int>, x: Form, dest: Dest, cx: Context, st: State, c: Cpu, c1: Cpu,
                      mid: int, a: Word, st1: State, fuel: nat, exact: bool)
    requires IsCall(x) && Arg1Dest(x) == ToStack && rt.Linked()
    requires Compiled(img, rt, fr, tg, x, dest, cx, c.pc, exact) && Related(rt, fr, cx, st, c)
    requires mid == c.pc + Size(Gen(rt, x.arg1, ToStack, cx)) && Eval(rt, x.arg1, st, fuel) == Val(a, st1)
    requires Reach(img, rt, Running(c), Running(c1), 0) && Finished(rt, fr, cx, ToStack, mid, a, st1, c, c1, exact)
    ensures Simulates(img, rt, fr, tg, cx, dest, c.pc + Size(Gen(rt, x, dest, cx)), c, Eval(rt, x, st, fuel), fuel, exact)
    decreases fuel, x.arg2, 3
  {
    hide Reach, CodeAt, Keeps, rt.Linked, Size, Compiled, Gen, Gen2, CallTail, At, Matches, Sound, Related, Eval, Arg1Dest, CallOutcome,
         Next, Encode, Accepts, CleanForm, Slots, Finished, CallStands, Exited, HeapMatch, ArgsReady, Collect, Simulates;
    CallParts(img, rt, fr, tg, x, dest, cx, c.pc, exact);
    CallConditions(img, rt, fr, tg, x, dest, cx, c.pc, exact);
    CallCode(img, rt, tg, x, dest, cx, c.pc);
    StackedParts(img, rt, tg, x, cx, c.pc);
    EvalCall(rt, x, st, fuel);
    var cx1 := Next(cx, x.arg1, ToStack);
    var g2 := Gen(rt, x.arg2, ToOperand, cx1);
    var end := c.pc + Size(Gen(rt, x, dest, cx));
    RelatedSound(rt, fr, cx, st, c);
    FinishedPc(rt, fr, cx, ToStack, mid, a, st1, c, c1, exact);
    NextAligned(cx, x.arg1, ToStack);
    NextSlots(cx, x.arg1, ToStack, fr, x.arg2);
    PushedRelated(rt, fr, cx, cx1, mid, a, st1, c, c1, exact);
    CompiledArg(img, rt, fr, tg, x.arg2, ToOperand, cx1, c1.pc, exact);
    Sim(img, rt, fr, tg, x.arg2, ToOperand, cx1, st1, c1, fuel, exact);
    var out := Eval(rt, x.arg2, st1, fuel);
    if out.Val? {
      var c2 := ThenNext(img, rt, fr, tg, cx1, ToOperand, mid + Size(g2), c1, out.w, out.st, cx1, fuel, exact);
      Continue(img, rt, Running(c), Running(c1), Running(c2), 0);
      var c3 := RunCollect(img, rt, fr, tg, x, cx, cx1, mid, a, out.w, st1, out.st, c, c1, c2, exact);
      FinishArgs(img, rt, fr, tg, x, dest, cx, st, c, c3, a, st1, out.w, out.st, fuel, exact);
    } else {
      SoundDepths(cx);
      PrefixExit(img, rt, fr, tg, cx, cx1, ToOperand, mid + Size(g2), dest, end, c, c1, out, fuel, exact);
    }
  }

  lemma NextSlots(cx: Context, x: Form, dest: Dest, fr: Frame, y: Form)
    requires Next(cx, x, dest).env + 4 * Slots(y) <= 4 * fr.slots
    ensures Next(cx, x, dest).env <= 4 * fr.slots
  {
  }

  lemma SimCall(img: Image, rt: Runtime, fr: Frame, tg: map<Label, int>, x: Form, dest: Dest, cx: Context, st: State, c: Cpu, fuel: nat, exact: bool)
    requires IsCall(x) && rt.Linked()
    requires Compiled(img, rt, fr, tg, x, dest, cx, c.pc, exact) && Related(rt, fr, cx, st, c)
    ensures Simulates(img, rt, fr, tg, cx, dest, c.pc + Size(Gen(rt, x, dest, cx)), c, Eval(rt, x, st, fuel), fuel, exact)
    decreases fuel, x, 1
  {
    hide rt.Linked, Size, Compiled, Simulates, Gen, Related, Eval, Arg1Dest;
    Arg1DestCases(x);
    if Arg1Dest(x) == ToStack {
      SimCallStacked(img, rt, fr, tg, x, dest, cx, st, c, fuel, exact);
    } else if x.ArithCall? {
      SimCallLiteral(img, rt, fr, tg, x, dest, cx, st, c, fuel, exact);
    } else {
      SimCallSimple(img, rt, fr, tg, x, dest, cx, st, c, fuel, exact);
    }
  }

  lemma SimNull(img: Image, rt: Runtime, fr: Frame, tg: map<Label, int>, x: Form, dest: Dest, cx: Context, st: State, c: Cpu, fuel: nat, exact: bool)
    requires x.Null? && rt.Linked()
    requires Compiled(img, rt, fr, tg, x, dest, cx, c.pc, exact) && Related(rt, fr, cx, st, c)
    ensures Simulates(img, rt, fr, tg, cx, dest, c.pc + Size(Gen(rt, x, dest, cx)), c, Eval(rt, x, st, fuel), fuel, exact)
    decreases fuel, x, 0
  {
    hide Reach, CodeAt, Keeps, rt.Linked, Size, Compiled, Simulates, Gen, At, Matches, Sound, Related, NullTail, Target, Yields, Finished;
    NullParts(img, rt, fr, tg, x, dest, cx, c.pc, exact);
    var mid := c.pc + Size(Gen(rt, x.arg, ToOperand, cx));
    Sim(img, rt, fr, tg, x.arg, ToOperand, cx, st, c, fuel, exact);
    var out := Eval(rt, x.arg, st, fuel);
    if out.Val? {
      RelatedSound(rt, fr, cx, st, c);
      var c1 := ThenNext(img, rt, fr, tg, cx, ToOperand, mid, c, out.w, out.st, cx, fuel, exact);
      RunNull(img, rt, tg, c, c1, Target(dest));
      FinishYield(img, rt, fr, tg, cx, dest, c, c1, mid + Size(NullTail()), Some(rt.Truth(out.w == rt.nilWord)), out.st, fuel, exact);
    } else {
      LiftExit(img, rt, fr, tg, cx, ToOperand, mid, dest, c.pc + Size(Gen(rt, x, dest, cx)), c, out, fuel, exact);
    }
  }

  // ----- all forms -----

  lemma SimLeaf(img: Image, rt: Runtime, fr: Frame, tg: map<Label, int>, x: Form, dest: Dest, cx: Context, st: State, c: Cpu, fuel: nat, exact: bool)
    requires (x.Lit? || x.SymLit? || x.NilForm? || x.Var?) && rt.Linked()
    requires Compiled(img, rt, fr, tg, x, dest, cx, c.pc, exact) && Related(rt, fr, cx, st, c)
    ensures Simulates(img, rt, fr, tg, cx, dest, c.pc + Size(Gen(rt, x, dest, cx)), c, Eval(rt, x, st, fuel), fuel, exact)
  {
    hide CodeAt, rt.Linked, Size, Compiled, Simulates, Gen, Related, GenLit, GenSym, GenNil, GenVar, ReadVar;
    if x.Var? {
      VarParts(img, rt, fr, tg, x, dest, cx, c.pc, exact);
      SimVar(img, rt, fr, tg, cx, dest, st, c, x.name, fuel, exact);
    } else {
      ConstantParts(img, rt, fr, tg, x, dest, cx, c.pc, exact);
      match x
      case Lit(w) => SimLit(img, rt, fr, tg, cx, dest, st, c, w, fuel, exact);
      case SymLit(w, _) => SimSym(img, rt, fr, tg, cx, dest, st, c, w, fuel, exact);
      case NilForm => SimNil(img, rt, fr, tg, cx, dest, st, c, fuel, exact);
    }
  }

  lemma SimProgn(img: Image, rt: Runtime, fr: Frame, tg: map<Label, int>, x: Form, dest: Dest, cx: Context, st: State, c: Cpu, fuel: nat, exact: bool)
    requires x.Progn? && rt.Linked()
    requires Compiled(img, rt, fr, tg, x, dest, cx, c.pc, exact) && Related(rt, fr, cx, st, c)
    ensures Simulates(img, rt, fr, tg, cx, dest, c.pc + Size(Gen(rt, x, dest, cx)), c, Eval(rt, x, st, fuel), fuel, exact)
    decreases fuel, x, 0
  {
    hide CodeAt, rt.Linked, Size, Compiled, CompiledForms, Simulates, Gen, GenForms, Related, EvalForms;
    PrognParts(img, rt, fr, tg, x, dest, cx, c.pc, exact);
    SimForms(img, rt, fr, tg, x.body, dest, cx, st, c, fuel, exact);
  }

  /** Every accepted, clean form, from every state its frame represents, to every destination it may have. */
  lemma Sim(img: Image, rt: Runtime, fr: Frame, tg: map<Label, int>, x: Form, dest: Dest, cx: Context, st: State, c: Cpu, fuel: nat, exact: bool)
    requires rt.Linked()
    requires Compiled(img, rt, fr, tg, x, dest, cx, c.pc, exact) && Related(rt, fr, cx, st, c)
    ensures Simulates(img, rt, fr, tg, cx, dest, c.pc + Size(Gen(rt, x, dest, cx)), c, Eval(rt, x, st, fuel), fuel, exact)
    decreases fuel, x, 2
  {
    hide rt.Linked, Size, Compiled, Simulates, Gen, Related, Eval;
    match x
    case Setq(_) => SimSetqForm(img, rt, fr, tg, x, dest, cx, st, c, fuel, exact);
    case Progn(_) => SimProgn(img, rt, fr, tg, x, dest, cx, st, c, fuel, exact);
    case If(test, _) =>
      if test.NumEqual? {
        SimIfEqual(img, rt, fr, tg, x, dest, cx, st, c, fuel, exact);
      } else {
        SimIf(img, rt, fr, tg, x, dest, cx, st, c, fuel, exact);
      }
    case IfElse(_, _, _) => SimIfElse(img, rt, fr, tg, x, dest, cx, st, c, fuel, exact);
    case Let(_, _) => SimLet(img, rt, fr, tg, x, dest, cx, st, c, fuel, exact);
    case LetStar(_) => SimLetStar(img, rt, fr, tg, x, dest, cx, st, c, fuel, exact);
    case Block(_, _) => SimBlock(img, rt, fr, tg, x, dest, cx, st, c, fuel, exact);
    case ReturnFrom(_, _) => SimReturn(img, rt, fr, tg, x, dest, cx, st, c, fuel, exact);
    case Tagbody(_) => SimTagbody(img, rt, fr, tg, x, dest, cx, st, c, fuel, exact);
    case Go(_) => SimGo(img, rt, fr, tg, x, dest, cx, st, c, fuel, exact);
    case ArithCall(_, _, _) => SimCall(img, rt, fr, tg, x, dest, cx, st, c, fuel, exact);
    case NumEqual(_, _) => SimCall(img, rt, fr, tg, x, dest, cx, st, c, fuel, exact);
    case Compare(_, _, _) => SimCall(img, rt, fr, tg, x, dest, cx, st, c, fuel, exact);
    case Eq(_, _) => SimCall(img, rt, fr, tg, x, dest, cx, st, c, fuel, exact);
    case Null(_) => SimNull(img, rt, fr, tg, x, dest, cx, st, c, fuel, exact);
    case _ => SimLeaf(img, rt, fr, tg, x, dest, cx, st, c, fuel, exact);
  }
}
