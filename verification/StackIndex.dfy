/**
 The stack index of the compiler: what the pushes, pops and stack adjustments of a form's code add
 up to.
 */
module StackIndex {
  import opened Words
  import opened X86
  import opened Runtime
  import opened Machine
  import opened Lisp
  import opened CodeGen
  import opened Layout
  import opened Calls
  import opened Predicates
  import opened Parts
  import opened Stages
  import opened Landings
  import opened Shorts
  import opened Program

  /** How one emitted item moves the stack index; the adjustment in front of an exit is put back. */
  function ItemEffect(it: Item): int {
    match it
    case I(i, note) => if note.PutBack? then 0 else StackEffect(i)
    case Exit(_) => 0
  }

  function Effect(c: Code): int {
    if c == [] then 0 else ItemEffect(c[0]) + Effect(c[1..])
  }

  lemma {:induction false} EffectConcat(a: Code, b: Code)
    ensures Effect(a + b) == Effect(a) + Effect(b)
    decreases a
  {
    hide ItemEffect;
    if a == [] {
      assert a + b == b;
    } else {
      assert (a + b)[1..] == a[1..] + b;
      EffectConcat(a[1..], b);
    }
  }

  lemma EffectOne(it: Item)
    ensures Effect([it]) == ItemEffect(it) && Effect([]) == 0
  {
  }

  lemma EffectTwo(a: Item, b: Item)
    ensures Effect([a, b]) == ItemEffect(a) + ItemEffect(b)
  {
    EffectConcat([a], [b]);
  }

  lemma EffectThree(a: Code, b: Code, c: Code)
    ensures Effect(a + b + c) == Effect(a) + Effect(b) + Effect(c)
  {
    EffectConcat(a + b, c);
    EffectConcat(a, b);
  }

  /** Pointing branches at their targets moves nothing. */
  lemma {:induction false} EffectSettled(c: Code, pos: int, rec: nat, targets: seq<int>)
    ensures Effect(SettleAll(c, pos, rec, targets)) == Effect(c)
    decreases c
  {
    hide Len;
    if c != [] {
      EffectSettled(c[1..], pos + Len(c[0]), rec, targets);
    }
  }

  // ----- the templates -----

  function Pushed(dest: Dest): int {
    if dest == ToStack then 4 else 0
  }

  lemma EffectTargets(dest: Dest)
    ensures Effect(Target(dest)) == Effect(PushIfStack(dest)) == Effect(GenNil(dest)) == Pushed(dest)
  {
    EffectConcat([LoadNil()], CountIfEax(dest));
  }

  lemma EffectLiteral(w: Word, s: SymbolWord, dest: Dest)
    ensures Effect(GenLit(w, dest)) == Effect(GenSym(s, dest)) == Pushed(dest)
  {
    EffectConcat([Plain(MovObj(EAX, w))], CountIfEax(dest));
    EffectConcat([I(MovImm(EAX, s), LiteralRef(s))], CountIfEax(dest));
  }

  lemma EffectUnbound(rt: Runtime, e: VarEntry)
    ensures Effect(UnboundCall(rt, e)) == 0
  {
    var a, b := [I(PushImm(e.sym), LiteralRef(e.sym)), Plain(MovImm(ECX, 1))], [CallRoutine(rt, UnboundVariable), Plain(AddEsp(4))];
    assert UnboundCall(rt, e) == a + b;
    EffectConcat(a, b);
    EffectTwo(a[0], a[1]);
    EffectTwo(b[0], b[1]);
  }

  lemma EffectVar(rt: Runtime, n: Name, dest: Dest, cx: Context)
    requires FindLet(cx.recs, n) >= 0 || n in rt.vars
    ensures Effect(GenVar(rt, n, dest, cx)) == Pushed(dest)
  {
    hide Size, UnboundCall, Target, FindLet;
    var k := FindLet(cx.recs, n);
    if k >= 0 {
      EffectConcat([Plain(Load(EAX, EBP, cx.recs[k].offset))], CountIfEax(dest));
    } else {
      var e := rt.vars[n];
      var a := [I(Load(EAX, ESI, e.offset), VarRef(n)), Plain(Load(EAX, EAX, -4))];
      var b := [Plain(CmpImm(UNINITIALIZED)), Plain(Jcc32(NE, Size(UnboundCall(rt, e))))];
      assert GenVar(rt, n, dest, cx) == a + b + UnboundCall(rt, e) + Target(dest);
      EffectThree(a + b, UnboundCall(rt, e), Target(dest));
      EffectConcat(a, b);
      EffectTwo(a[0], a[1]);
      EffectTwo(b[0], b[1]);
      EffectUnbound(rt, e);
      EffectTargets(dest);
    }
  }

  lemma EffectAssign(rt: Runtime, n: Name, cx: Context)
    ensures Effect(GenAssign(rt, n, cx)) == 0
  {
    hide FindLet;
    if FindLet(cx.recs, n) < 0 && n in rt.vars {
      EffectTwo(I(Load(EDI, ESI, rt.vars[n].offset), VarRef(n)), Plain(Store(EDI, -4)));
    }
  }

  lemma EffectTests(al: bool, dl: bool, dist: int)
    ensures Effect(TagTests(al, dl, dist)) == 0
  {
    var d := dist + (if dl then 5 else 0);
    EffectConcat(TagTest(al, TestAl(7), d), TagTest(dl, TestDl(7), dist));
    EffectTwo(Plain(TestAl(7)), Plain(Jcc8(NE, d)));
    EffectTwo(Plain(TestDl(7)), Plain(Jcc8(NE, dist)));
  }

  lemma EffectArith(rt: Runtime, fn: Arith, al: bool, dl: bool)
    ensures Effect(ArithTail(rt, fn, al, dl)) == 0
  {
    hide TagTests;
    var (op, undo, r) := ArithParts(fn);
    var a, b := [Plain(op), Plain(Jcc8(NO, 8))], [Plain(undo), CallRoutine(rt, r)];
    assert ArithTail(rt, fn, al, dl) == TagTests(al, dl, 6) + a + b;
    EffectThree(TagTests(al, dl, 6), a, b);
    EffectTests(al, dl, 6);
    EffectTwo(a[0], a[1]);
    EffectTwo(b[0], b[1]);
  }

  lemma EffectCall(rt: Runtime, r: Routine)
    ensures Effect(PredicateCall(rt, r)) == 0
  {
    var a, b, c := [Plain(Push(EDX)), Plain(Push(EAX))], [Plain(Load(EDI, ESI, 0)), Plain(MovImm(ECX, 2))], [CallRoutine(rt, r), Plain(AddEsp(8))];
    assert PredicateCall(rt, r) == a + b + c;
    EffectThree(a, b, c);
    EffectTwo(a[0], a[1]);
    EffectTwo(b[0], b[1]);
    EffectTwo(c[0], c[1]);
  }

  lemma EffectEqualFlag(rt: Runtime, al: bool, dl: bool)
    ensures Effect(EqualFlagTail(rt, al, dl)) == 0
  {
    hide TagTests, PredicateCall;
    if al || dl {
      EffectThree(TagTests(al, dl, 4) + [Plain(CmpEaxEdx), Plain(Jmp8(21))], PredicateCall(rt, GenericEqual), [Plain(CmpMem(ESI, 4))]);
      EffectConcat(TagTests(al, dl, 4), [Plain(CmpEaxEdx), Plain(Jmp8(21))]);
      EffectTests(al, dl, 4);
      EffectCall(rt, GenericEqual);
      EffectTwo(Plain(CmpEaxEdx), Plain(Jmp8(21)));
    }
    EffectOne(Plain(CmpEaxEdx));
    EffectOne(Plain(CmpMem(ESI, 4)));
  }

  lemma EffectSelect(cmp: Instr, cc: Cond, d: int)
    requires StackEffect(cmp) == 0
    ensures Effect([Plain(cmp), LoadNil(), Plain(Jcc8(cc, d)), LoadT()]) == 0
  {
    EffectConcat([Plain(cmp), LoadNil()], [Plain(Jcc8(cc, d)), LoadT()]);
    EffectTwo(Plain(cmp), LoadNil());
    EffectTwo(Plain(Jcc8(cc, d)), LoadT());
    assert [Plain(cmp), LoadNil()] + [Plain(Jcc8(cc, d)), LoadT()] == [Plain(cmp), LoadNil(), Plain(Jcc8(cc, d)), LoadT()];
  }

  lemma EffectPredicate(rt: Runtime, r: Routine, cc: Cond, al: bool, dl: bool)
    ensures Effect(PredicateTail(rt, r, cc, al, dl)) == 0
  {
    hide TagTests, PredicateCall, Effect;
    var d := if al || dl then 23 else if r.GenericEqual? then 5 else 3;
    var select := [Plain(CmpEaxEdx), LoadNil(), Plain(Jcc8(cc, d)), LoadT()];
    EffectSelect(CmpEaxEdx, cc, d);
    var over := [Plain(Jmp8(if al || dl then 18 else 0))];
    EffectOne(over[0]);
    EffectConcat(select, over);
    if al || dl {
      assert PredicateTail(rt, r, cc, al, dl) == TagTests(al, dl, 11) + (select + over) + PredicateCall(rt, r);
      EffectThree(TagTests(al, dl, 11), select + over, PredicateCall(rt, r));
      EffectTests(al, dl, 11);
      EffectCall(rt, r);
    } else {
      assert PredicateTail(rt, r, cc, al, dl) == if r.GenericEqual? then select + over else select;
    }
  }

  lemma EffectTail(rt: Runtime, x: Form, dest: Dest, check: bool)
    requires IsCall(x) && (dest == ToZeroFlag ==> x.NumEqual?)
    ensures Effect(CallTail(rt, x, dest, check)) == Pushed(dest)
  {
    hide Effect, ArithTail, PredicateTail, EqualFlagTail, Target, NeedsTest, Arg1Dest;
    EffectTargets(dest);
    match x
    case ArithCall(fn, arg1, arg2) =>
      var al := if fn.Plus? && Arg1Dest(x) != ToOperand then NeedsTest(arg2, check) else NeedsTest(arg1, check);
      var dl := if fn.Minus? then NeedsTest(arg2, check) else if Arg1Dest(x) == ToOperand then false else NeedsTest(arg1, check);
      EffectArith(rt, fn, al, dl);
      EffectConcat(ArithTail(rt, fn, al, dl), Target(dest));
    case NumEqual(arg1, arg2) =>
      var al, dl := NeedsTest(arg2, check), NeedsTest(arg1, check);
      EffectEqualFlag(rt, al, dl);
      EffectPredicate(rt, GenericEqual, NE, al, dl);
      EffectConcat(PredicateTail(rt, GenericEqual, NE, al, dl), Target(dest));
    case Compare(op, arg1, arg2) =>
      var al, dl := NeedsTest(arg2, check), NeedsTest(arg1, check);
      EffectPredicate(rt, GenericCompare(op), FailCond(op), al, dl);
      EffectConcat(PredicateTail(rt, GenericCompare(op), FailCond(op), al, dl), Target(dest));
    case Eq(_, _) =>
      EffectSelect(CmpEaxEdx, NE, 3);
      EffectConcat(EqTail(), Target(dest));
  }

  lemma EffectAdjust(diff: int, e: Item)
    requires e.Exit?
    ensures Effect(Adjust(diff) + [e]) == 0
  {
    EffectConcat(Adjust(diff), [e]);
    EffectOne(e);
    if diff > 0 {
      EffectOne(Adjust(diff)[0]);
    }
  }

  lemma EffectIfCode(test: Code, cmp: Code, thn: Code, dest: Dest)
    ensures Effect(IfCode(test + cmp, thn, dest)) == Effect(test) + Effect(cmp) + Effect(thn) + Pushed(dest)
  {
    hide Effect, Size;
    EffectTargets(dest);
    EffectThree(test + cmp + [Plain(Jcc32(E, Size(thn)))], thn, PushIfStack(dest));
    EffectThree(test, cmp, [Plain(Jcc32(E, Size(thn)))]);
    EffectOne(Plain(Jcc32(E, Size(thn))));
  }

  lemma EffectIfElseCode(test: Code, cmp: Code, cc: Cond, thn: Code, els: Code, dest: Dest)
    ensures Effect(IfElseCode(test + cmp, cc, thn, els, dest)) == Effect(test) + Effect(cmp) + Effect(thn) + Effect(els) + Pushed(dest)
  {
    hide Effect, Size;
    EffectTargets(dest);
    var j, over := Plain(Jcc32(cc, Size(thn) + 5)), Plain(Jmp32(Size(els)));
    EffectThree(test + cmp + [j] + thn + [over], els, PushIfStack(dest));
    EffectThree(test + cmp + [j], thn, [over]);
    EffectThree(test, cmp, [j]);
    EffectOne(j);
    EffectOne(over);
  }

  lemma EffectCompare(test: Form)
    ensures Effect(TestCompare(test)) == 0
  {
    EffectOne(Plain(CmpMem(ESI, 0)));
  }

  // ----- forms -----

  /** The destination zero flag is asked only of = with two arguments. */
  predicate Serves(x: Form, dest: Dest) {
    dest == ToZeroFlag ==> x.NumEqual?
  }

  /**
   For every accepted form, what its code does to the stack index adds up to the index that the next
   form is compiled with: four for the stack, nothing otherwise, and four less for each GO compiled
   for the stack.
   */
  lemma {:induction false} EffectForm(rt: Runtime, x: Form, dest: Dest, cx: Context)
    requires Accepts(rt, x, dest, cx) && Serves(x, dest)
    ensures Effect(Gen(rt, x, dest, cx)) == Next(cx, x, dest).si - cx.si
    decreases x, 3
  {
    hide Effect, Gen, Accepts, Count, Slots, Next;
    NextIs(cx, x, dest);
    match x
    case Lit(w) => EffectAtom(rt, x, dest, cx);
    case SymLit(_, _) => EffectAtom(rt, x, dest, cx);
    case NilForm => EffectAtom(rt, x, dest, cx);
    case Var(_) => EffectAtom(rt, x, dest, cx);
    case Setq(pairs) =>
      UnfoldSetq(rt, x, dest, cx);
      EffectTargets(dest);
      EffectSetq(rt, pairs, cx);
      NoPairs(pairs);
      EffectConcat(GenSetq(rt, pairs, cx), Target(dest));
    case Progn(body) =>
      PrognUnfold(rt, x, dest, cx);
      EffectForms(rt, body, dest, cx);
    case If(_, _) => EffectIf(rt, x, dest, cx);
    case IfElse(_, _, _) => EffectIfElse(rt, x, dest, cx);
    case Let(_, _) => EffectLet(rt, x, dest, cx);
    case LetStar(chain) =>
      UnfoldLetStar(rt, x, dest, cx);
      EffectChain(rt, chain, cx);
      EffectTargets(dest);
      EffectConcat(GenChain(rt, chain, cx), PushIfStack(dest));
    case Block(_, _) => EffectBlock(rt, x, dest, cx);
    case ReturnFrom(_, _) => EffectReturn(rt, x, dest, cx);
    case Tagbody(_) => EffectTagbody(rt, x, dest, cx);
    case Go(_) => EffectGo(rt, x, dest, cx);
    case Null(arg) =>
      UnfoldNull(rt, x, dest, cx);
      EffectForm(rt, arg, ToOperand, cx);
      NextIs(cx, arg, ToOperand);
      EffectSelect(CmpMem(ESI, 0), NE, 3);
      EffectTargets(dest);
      EffectThree(Gen(rt, arg, ToOperand, cx), NullTail(), Target(dest));
    case _ => EffectCallForm(rt, x, dest, cx);
  }

  lemma NextIs(cx: Context, x: Form, dest: Dest)
    ensures Next(cx, x, dest).si == cx.si + Pushed(dest) - 4 * Count(x, dest, StackGo)
  {
    hide Slots, Count;
  }

  lemma VarAccepted(rt: Runtime, x: Form, dest: Dest, cx: Context)
    requires x.Var?
    ensures Accepts(rt, x, dest, cx) == (FindLet(cx.recs, x.name) >= 0 || x.name in rt.vars)
  {
    hide FindLet;
  }

  lemma EffectAtom(rt: Runtime, x: Form, dest: Dest, cx: Context)
    requires x.Lit? || x.SymLit? || x.NilForm? || x.Var?
    requires Accepts(rt, x, dest, cx)
    ensures Effect(Gen(rt, x, dest, cx)) == Pushed(dest) && Count(x, dest, StackGo) == 0
  {
    hide Effect, GenVar, GenLit, GenSym, GenNil, Gen, Count, Accepts, FindLet;
    AtomCode(rt, x, dest, cx);
    AtomCounts(x, dest);
    if x.Var? {
      VarAccepted(rt, x, dest, cx);
    }
    match x
    case Lit(w) => EffectLiteral(w, 5, dest);
    case SymLit(s, _) => EffectLiteral(0, s, dest);
    case NilForm => EffectTargets(dest);
    case Var(n) => EffectVar(rt, n, dest, cx);
  }

  lemma NoPairs(pairs: Binds)
    ensures pairs.NoBinds? ==> CountInits(pairs, StackGo) == 0
  {
    hide Count;
  }

  lemma PrognUnfold(rt: Runtime, x: Form, dest: Dest, cx: Context)
    requires x.Progn?
    ensures Gen(rt, x, dest, cx) == GenForms(rt, x.body, dest, cx) && Accepts(rt, x, dest, cx) == AcceptsForms(rt, x.body, dest, cx)
    ensures Count(x, dest, StackGo) == CountForms(x.body, dest, StackGo)
  {
    hide GenForms, AcceptsForms, CountForms;
  }

  lemma {:induction false} EffectForms(rt: Runtime, body: Forms, dest: Dest, cx: Context)
    requires AcceptsForms(rt, body, dest, cx) && dest != ToZeroFlag
    ensures Effect(GenForms(rt, body, dest, cx)) == Pushed(dest) - 4 * CountForms(body, dest, StackGo)
    decreases body, 1
  {
    hide Effect, Gen, GenForms, GenSeq, Accepts, AcceptsForms, AcceptsSeq, Count, CountForms, CountSeq, Slots, SlotsForms, Next, TypedFixnum, TypedFixnumForms;
    UnfoldForms(rt, body, dest, cx);
    EffectTargets(dest);
    if body.NoForms? {
    } else if body.tail.NoForms? {
      EffectForm(rt, body.head, dest, cx);
      NextIs(cx, body.head, dest);
    } else {
      EffectSeq(rt, body, cx);
      EffectConcat(GenSeq(rt, body, cx), PushIfStack(dest));
    }
  }

  lemma {:induction false} EffectSeq(rt: Runtime, body: Forms, cx: Context)
    requires AcceptsSeq(rt, body, cx)
    ensures Effect(GenSeq(rt, body, cx)) == -4 * CountSeq(body, StackGo)
    decreases body, 0
  {
    hide Effect, Gen, GenSeq, Accepts, AcceptsSeq, Count, CountSeq, Slots, SlotsForms, Next, TypedFixnum, TypedFixnumForms;
    if body.NoForms? {
      EndedSeq(rt, body, cx);
      EffectNothing();
    } else {
      UnfoldSeq(rt, body, cx);
      var cx1 := Next(cx, body.head, ToEax);
      NextIs(cx, body.head, ToEax);
      EffectForm(rt, body.head, ToEax, cx);
      EffectSeq(rt, body.tail, cx1);
      EffectConcat(Gen(rt, body.head, ToEax, cx), GenSeq(rt, body.tail, cx1));
    }
  }

  lemma EffectNothing()
    ensures Effect([]) == 0
  {
  }

  lemma {:induction false} EffectSetq(rt: Runtime, b: Binds, cx: Context)
    requires AcceptsSetq(rt, b, cx)
    ensures Effect(GenSetq(rt, b, cx)) == -4 * CountInits(b, StackGo)
    decreases b, 0
  {
    hide Effect, Gen, GenSetq, GenAssign, Accepts, AcceptsSetq, Count, CountInits, Slots, SlotsSetq, Next, TypedFixnum, TypedFixnumBinds, FindLet;
    if b.NoBinds? {
      EndedSetq(rt, b, cx);
      EffectNothing();
    } else {
      UnfoldSetqPair(rt, b, cx);
      var cx1 := Next(cx, b.init, ToOperand);
      NextIs(cx, b.init, ToOperand);
      EffectForm(rt, b.init, ToOperand, cx);
      EffectAssign(rt, b.name, cx1);
      EffectSetq(rt, b.rest, cx1);
      EffectThree(Gen(rt, b.init, ToOperand, cx), GenAssign(rt, b.name, cx1), GenSetq(rt, b.rest, cx1));
    }
  }

  /** An initial value and its store. */
  lemma {:induction false} EffectInit(rt: Runtime, x: Form, cx: Context)
    requires Accepts(rt, x, ToOperand, cx.(env := cx.env + 4))
    ensures Effect(InitCode(rt, x, cx)) == -4 * Count(x, ToOperand, StackGo)
    decreases x, 4
  {
    hide Effect, Gen, Accepts, Count, Slots, Next;
    var cx1 := cx.(env := cx.env + 4);
    var store := Plain(Store(EBP, SlotOffset(cx.env)));
    NextIs(cx1, x, ToOperand);
    EffectForm(rt, x, ToOperand, cx1);
    EffectOne(store);
    EffectConcat(Gen(rt, x, ToOperand, cx1), [store]);
  }

  lemma {:induction false} EffectInits(rt: Runtime, b: Binds, cx: Context)
    requires AcceptsInits(rt, b, cx)
    ensures Effect(GenInits(rt, b, cx)) == -4 * CountInits(b, StackGo)
    decreases b, 0
  {
    hide Effect, Gen, GenInits, Accepts, AcceptsInits, Count, CountInits, Slots, SlotsInits, Next, InitCode, LetRecs;
    if b.NoBinds? {
      EndedInits(rt, b, cx);
      EffectNothing();
    } else {
      UnfoldInit(rt, b, cx);
      var cx1 := Next(cx.(env := cx.env + 4), b.init, ToOperand);
      NextIs(cx.(env := cx.env + 4), b.init, ToOperand);
      EffectInit(rt, b.init, cx);
      EffectInits(rt, b.rest, cx1);
      EffectConcat(InitCode(rt, b.init, cx), GenInits(rt, b.rest, cx1));
    }
  }

  lemma {:induction false} EffectChain(rt: Runtime, b: Chain, cx: Context)
    requires AcceptsChain(rt, b, cx)
    ensures Effect(GenChain(rt, b, cx)) == -4 * CountChain(b, StackGo)
    decreases b, 0
  {
    hide Effect, Gen, GenChain, GenForms, Accepts, AcceptsChain, AcceptsForms, Count, CountChain, CountForms, Slots, SlotsChain, SlotsForms, Next, InitCode,
         TypedFixnumChain, TypedFixnumForms;
    UnfoldChain(rt, b, cx);
    match b
    case Body(body) => EffectForms(rt, body, ToEax, cx);
    case Bind(n, x, rest) =>
      NextIs(cx.(env := cx.env + 4), x, ToOperand);
      EffectInit(rt, x, cx);
      EffectChain(rt, rest, BindContext(cx, n, x));
      EffectConcat(InitCode(rt, x, cx), GenChain(rt, rest, BindContext(cx, n, x)));
  }

  lemma {:induction false} EffectItems(rt: Runtime, items: Items, cx: Context)
    requires AcceptsItems(rt, items, cx)
    ensures Effect(GenItems(rt, items, cx)) == -4 * CountItems(items, StackGo)
    decreases items, 0
  {
    hide Effect, Gen, GenItems, Accepts, AcceptsItems, Count, CountItems, Slots, SlotsItems, Next, TagOffsets;
    match items
    case NoItems =>
      EndedItems(rt, items, cx, 0);
      EffectNothing();
    case Tag(_, rest) =>
      UnfoldTag(rt, items, cx);
      EffectItems(rt, rest, cx);
    case Stmt(x, rest) =>
      UnfoldStmt(rt, items, cx);
      NextIs(cx, x, ToEax);
      EffectForm(rt, x, ToEax, cx);
      EffectItems(rt, rest, Next(cx, x, ToEax));
      EffectConcat(Gen(rt, x, ToEax, cx), GenItems(rt, rest, Next(cx, x, ToEax)));
  }

  lemma TestServes(test: Form, hasElse: bool)
    ensures Serves(test, TestDest(test, hasElse)) && Pushed(TestDest(test, hasElse)) == 0
  {
  }

  lemma {:induction false} EffectIf(rt: Runtime, x: Form, dest: Dest, cx: Context)
    requires x.If? && Accepts(rt, x, dest, cx)
    ensures Effect(Gen(rt, x, dest, cx)) == Pushed(dest) - 4 * Count(x, dest, StackGo)
    decreases x, 2
  {
    hide Effect, Gen, Accepts, Count, Slots, Next, TestDest, TestCompare, IfCode, IfElseCode;
    UnfoldIf(rt, x, dest, cx);
    UnfoldIfAccepts(rt, x, dest, cx);
    var dt := TestDest(x.test, x.test.NumEqual?);
    var cx1 := Next(cx, x.test, dt);
    var g, thn := Gen(rt, x.test, dt, cx), Gen(rt, x.thn, ToEax, cx1);
    TestServes(x.test, x.test.NumEqual?);
    EffectForm(rt, x.test, dt, cx);
    EffectForm(rt, x.thn, ToEax, cx1);
    NextIs(cx, x.test, dt);
    NextIs(cx1, x.thn, ToEax);
    EffectCompare(x.test);
    EffectTargets(ToEax);
    EffectIfCode(g, TestCompare(x.test), thn, dest);
    EffectIfElseCode(g, TestCompare(x.test), NE, thn, GenNil(ToEax), dest);
  }

  lemma {:induction false} EffectIfElse(rt: Runtime, x: Form, dest: Dest, cx: Context)
    requires x.IfElse? && Accepts(rt, x, dest, cx)
    ensures Effect(Gen(rt, x, dest, cx)) == Pushed(dest) - 4 * Count(x, dest, StackGo)
    decreases x, 2
  {
    hide Effect, Gen, Accepts, Count, Slots, Next, TestDest, TestCompare, IfElseCode;
    UnfoldIfElse(rt, x, dest, cx);
    IfElseAccepts(rt, x, dest, cx);
    var dt := TestDest(x.test, true);
    var cx1 := Next(cx, x.test, dt);
    var cx2 := Next(cx1, x.thn, ToEax);
    TestServes(x.test, true);
    EffectForm(rt, x.test, dt, cx);
    EffectForm(rt, x.thn, ToEax, cx1);
    EffectForm(rt, x.els, ToEax, cx2);
    NextIs(cx, x.test, dt);
    NextIs(cx1, x.thn, ToEax);
    NextIs(cx2, x.els, ToEax);
    EffectCompare(x.test);
    EffectIfElseCode(Gen(rt, x.test, dt, cx), TestCompare(x.test), TestCond(x.test), Gen(rt, x.thn, ToEax, cx1), Gen(rt, x.els, ToEax, cx2), dest);
  }

  lemma IfElseAccepts(rt: Runtime, x: Form, dest: Dest, cx: Context)
    requires x.IfElse?
    ensures var cx1 := Next(cx, x.test, TestDest(x.test, true));
            Accepts(rt, x, dest, cx) == (Accepts(rt, x.test, TestDest(x.test, true), cx) && Accepts(rt, x.thn, ToEax, cx1)
                                         && Accepts(rt, x.els, ToEax, Next(cx1, x.thn, ToEax)))
  {
    hide Next, TestDest;
  }

  lemma {:induction false} EffectLet(rt: Runtime, x: Form, dest: Dest, cx: Context)
    requires x.Let? && Accepts(rt, x, dest, cx)
    ensures Effect(Gen(rt, x, dest, cx)) == Pushed(dest) - 4 * Count(x, dest, StackGo)
    decreases x, 2
  {
    hide Effect, Gen, GenInits, GenForms, Accepts, AcceptsInits, AcceptsForms, Count, CountInits, CountForms, Slots, Next, LetContext;
    UnfoldLet(rt, x, dest, cx);
    var inner := LetContext(cx, x.binds);
    EffectInits(rt, x.binds, cx);
    EffectForms(rt, x.body, ToEax, inner);
    EffectTargets(dest);
    EffectThree(GenInits(rt, x.binds, cx), GenForms(rt, x.body, ToEax, inner), PushIfStack(dest));
  }

  lemma {:induction false} EffectBlock(rt: Runtime, x: Form, dest: Dest, cx: Context)
    requires x.Block? && Accepts(rt, x, dest, cx)
    ensures Effect(Gen(rt, x, dest, cx)) == Pushed(dest) - 4 * Count(x, dest, StackGo)
    decreases x, 2
  {
    hide Effect, Gen, GenForms, Accepts, AcceptsForms, Count, CountForms, Slots, Next, Size, SettleAll;
    UnfoldBlock(rt, x, dest, cx);
    var inner := BlockContext(cx, x.name);
    var b := GenForms(rt, x.body, ToEax, inner);
    EffectForms(rt, x.body, ToEax, inner);
    EffectSettled(b, 0, |cx.recs|, [Size(b)]);
    EffectTargets(dest);
    EffectConcat(SettleAll(b, 0, |cx.recs|, [Size(b)]), PushIfStack(dest));
  }

  lemma {:induction false} EffectReturn(rt: Runtime, x: Form, dest: Dest, cx: Context)
    requires x.ReturnFrom? && Accepts(rt, x, dest, cx) && Serves(x, dest)
    ensures Effect(Gen(rt, x, dest, cx)) == Pushed(dest) - 4 * Count(x, dest, StackGo)
    decreases x, 2
  {
    hide Effect, Gen, Accepts, Count, Slots, Next, Adjust, FindBlock;
    UnfoldReturn(rt, x, dest, cx);
    var k := FindBlock(cx.recs, x.name);
    var g, a, e := Gen(rt, x.value, dest, cx), Adjust(Next(cx, x.value, dest).si - cx.recs[k].depth), [Exit(Label(k, 0))];
    EffectForm(rt, x.value, dest, cx);
    NextIs(cx, x.value, dest);
    EffectAdjust(Next(cx, x.value, dest).si - cx.recs[k].depth, e[0]);
    EffectConcat(g, a + e);
    assert g + (a + e) == g + a + e;
  }

  lemma {:induction false} EffectTagbody(rt: Runtime, x: Form, dest: Dest, cx: Context)
    requires x.Tagbody? && Accepts(rt, x, dest, cx)
    ensures Effect(Gen(rt, x, dest, cx)) == Pushed(dest) - 4 * Count(x, dest, StackGo)
    decreases x, 2
  {
    hide Effect, Gen, GenItems, Accepts, AcceptsItems, Count, CountItems, Slots, Next, SettleAll, TagbodyPre, TagbodyTargets, HasStmt;
    UnfoldTagbody(rt, x, dest, cx);
    EffectTargets(dest);
    if HasStmt(x.items) {
      var inner := TagsContext(cx, x.items);
      var pre, g := TagbodyPre(x.items), GenItems(rt, x.items, inner);
      EffectItems(rt, x.items, inner);
      EffectPre(x.items);
      EffectTargets(ToEax);
      EffectThree(pre, g, GenNil(ToEax));
      EffectSettled(pre + g + GenNil(ToEax), 0, |cx.recs|, TagbodyTargets(rt, x.items, inner));
      EffectConcat(SettleAll(pre + g + GenNil(ToEax), 0, |cx.recs|, TagbodyTargets(rt, x.items, inner)), PushIfStack(dest));
    } else {
      NoStatements(x.items);
    }
  }

  lemma EffectPre(items: Items)
    ensures Effect(TagbodyPre(items)) == 0
  {
    EffectTargets(ToEax);
  }

  lemma {:induction false} NoStatements(items: Items)
    requires !HasStmt(items)
    ensures CountItems(items, StackGo) == 0
  {
    hide Count;
    if items.Tag? {
      NoStatements(items.rest);
    }
  }

  lemma EffectGo(rt: Runtime, x: Form, dest: Dest, cx: Context)
    requires x.Go? && Accepts(rt, x, dest, cx)
    ensures Effect(Gen(rt, x, dest, cx)) == Pushed(dest) - 4 * Count(x, dest, StackGo)
  {
    hide Effect, Adjust, FindTags, IndexOf;
    var k := FindTags(cx.recs, x.tag);
    EffectAdjust(cx.si - cx.recs[k].depth, Exit(Label(k, IndexOf(cx.recs[k].tags, x.tag))));
  }

  lemma {:induction false} EffectCallForm(rt: Runtime, x: Form, dest: Dest, cx: Context)
    requires IsCall(x) && Accepts(rt, x, dest, cx) && Serves(x, dest)
    ensures Effect(Gen(rt, x, dest, cx)) == Pushed(dest) - 4 * Count(x, dest, StackGo)
    decreases x, 2
  {
    hide Effect, Gen, Gen2, Accepts, Count, Slots, Next, CallTail;
    UnfoldCallGen(rt, x, dest, cx);
    UnfoldCallGos(x, dest, StackGo);
    EffectArguments(rt, x, dest, cx);
    EffectTail(rt, x, dest, cx.check);
    EffectConcat(Gen2(rt, x, x.arg1, x.arg2, cx), CallTail(rt, x, dest, cx.check));
  }

  lemma {:induction false} EffectArguments(rt: Runtime, x: Form, dest: Dest, cx: Context)
    requires IsCall(x) && Accepts(rt, x, dest, cx)
    ensures Effect(Gen2(rt, x, x.arg1, x.arg2, cx)) == -4 * (Count(x.arg1, Arg1Dest(x), StackGo) + Count(x.arg2, ToOperand, StackGo))
    decreases x, 1
  {
    hide Effect, Gen, Gen2, Accepts, Count, Slots, Next, Arg1Dest;
    UnfoldCallAccepts(rt, x, dest, cx);
    Arg1DestCases(x);
    var d1 := Arg1Dest(x);
    var cx1 := Next(cx, x.arg1, d1);
    var a, b := Gen(rt, x.arg1, d1, cx), Gen(rt, x.arg2, ToOperand, cx1);
    EffectForm(rt, x.arg1, d1, cx);
    EffectForm(rt, x.arg2, ToOperand, cx1);
    NextIs(cx, x.arg1, d1);
    NextIs(cx1, x.arg2, ToOperand);
    ArgumentsUnfold(rt, x, cx);
    EffectBetween(x, a, b);
  }

  /** What stands between and after the arguments. */
  lemma EffectBetween(x: Form, a: Code, b: Code)
    requires IsCall(x)
    ensures x.ArithCall? && Arg1Dest(x) == ToOperand ==> Effect(a + [Plain(MovObj(EDX, x.arg2.w))]) == Effect(a)
    ensures Effect(a + [Plain(Mov(EDX, EAX))] + b) == Effect(a) + Effect(b)
    ensures Effect(a + b + Collect(x)) == Effect(a) + Effect(b) - 4
  {
    hide Effect;
    if x.ArithCall? && Arg1Dest(x) == ToOperand {
      EffectOne(Plain(MovObj(EDX, x.arg2.w)));
      EffectConcat(a, [Plain(MovObj(EDX, x.arg2.w))]);
    }
    EffectOne(Plain(Mov(EDX, EAX)));
    EffectThree(a, [Plain(Mov(EDX, EAX))], b);
    EffectThree(a, b, Collect(x));
    EffectOne(Plain(Pop(EDX)));
    EffectTwo(Plain(Mov(EDX, EAX)), Plain(Pop(EAX)));
  }

  lemma ArgumentsUnfold(rt: Runtime, x: Form, cx: Context)
    requires IsCall(x)
    ensures var d1 := Arg1Dest(x);
            var a, b := Gen(rt, x.arg1, d1, cx), Gen(rt, x.arg2, ToOperand, Next(cx, x.arg1, d1));
            && (d1 == ToOperand && x.ArithCall? ==>
                  Gen2(rt, x, x.arg1, x.arg2, cx) == a + [Plain(MovObj(EDX, x.arg2.w))] && Count(x.arg2, ToOperand, StackGo) == 0)
            && (d1 == ToOperand && !x.ArithCall? ==> Gen2(rt, x, x.arg1, x.arg2, cx) == a + [Plain(Mov(EDX, EAX))] + b)
            && (d1 == ToStack ==> Gen2(rt, x, x.arg1, x.arg2, cx) == a + b + Collect(x))
  {
    hide Gen, Next;
  }

  // ----- the final check -----

  /** Whole expressions: at the end the stack index is zero exactly when no GO was compiled for the stack. */
  lemma FinalCheck(rt: Runtime, x: Form, check: bool)
    requires Accepts(rt, x, ToEax, Start(check))
    ensures Effect(Gen(rt, x, ToEax, Start(check))) == 0 <==> Count(x, ToEax, StackGo) == 0
    ensures Compilable(rt, x, check) <==> Effect(Gen(rt, x, ToEax, Start(check))) == 0
  {
    hide Effect, Gen, Accepts, Count, Next;
    EffectForm(rt, x, ToEax, Start(check));
    NextIs(Start(check), x, ToEax);
  }
}
