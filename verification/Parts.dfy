/** How each form's code, context and conditions break into those of its parts. */
module Parts {
  import opened Words
  import opened X86
  import opened Runtime
  import opened Machine
  import opened Lisp
  import opened CodeGen
  import opened Relation
  import opened Steps
  import opened Tails
  import opened Layout
  import opened Calls
  import opened Exits

  lemma UnfoldIf(rt: Runtime, x: Form, dest: Dest, cx: Context)
    requires x.If?
    ensures var dt := TestDest(x.test, x.test.NumEqual?);
            var cx1 := Next(cx, x.test, dt);
            var g, thn := Gen(rt, x.test, dt, cx), Gen(rt, x.thn, ToEax, cx1);
            && Gen(rt, x, dest, cx) == (if x.test.NumEqual? then IfElseCode(g + TestCompare(x.test), NE, thn, GenNil(ToEax), dest)
                                        else IfCode(g + TestCompare(x.test), thn, dest))
            && (forall q :: Count(x, dest, q) == Count(x.test, dt, q) + Count(x.thn, ToEax, q))
            && Slots(x) == Slots(x.test) + Slots(x.thn)
  {
    hide IfCode, IfElseCode, Next, GenNil, Accepts;
    assert TestCode(rt, x.test, x.test.NumEqual?, cx) == Gen(rt, x.test, TestDest(x.test, x.test.NumEqual?), cx) + TestCompare(x.test);
  }

  lemma UnfoldIfElse(rt: Runtime, x: Form, dest: Dest, cx: Context)
    requires x.IfElse?
    ensures var dt := TestDest(x.test, true);
            var cx1 := Next(cx, x.test, dt);
            var cx2 := Next(cx1, x.thn, ToEax);
            var g, thn, els := Gen(rt, x.test, dt, cx), Gen(rt, x.thn, ToEax, cx1), Gen(rt, x.els, ToEax, cx2);
            && Gen(rt, x, dest, cx) == IfElseCode(g + TestCompare(x.test), TestCond(x.test), thn, els, dest)
            && (forall q :: Count(x, dest, q) == Count(x.test, dt, q) + Count(x.thn, ToEax, q) + Count(x.els, ToEax, q))
            && Slots(x) == Slots(x.test) + Slots(x.thn) + Slots(x.els)
  {
    hide IfElseCode, Next, TestCond, Accepts;
    assert TestCode(rt, x.test, true, cx) == Gen(rt, x.test, TestDest(x.test, true), cx) + TestCompare(x.test);
  }

  lemma UnfoldIfAccepts(rt: Runtime, x: Form, dest: Dest, cx: Context)
    requires x.If? || x.IfElse?
    ensures var dt := TestDest(x.test, x.IfElse? || x.test.NumEqual?);
            var cx1 := Next(cx, x.test, dt);
            Accepts(rt, x, dest, cx) == (Accepts(rt, x.test, dt, cx) && Accepts(rt, x.thn, ToEax, cx1)
                                         && (x.IfElse? ==> Accepts(rt, x.els, ToEax, Next(cx1, x.thn, ToEax))))
  {
    hide Next, Gen, Count, Slots;
  }

  lemma IfParts(img: Image, rt: Runtime, fr: Frame, tg: map<Label, int>, x: Form, dest: Dest, cx: Context, pc: int, exact: bool)
    requires x.If? && !x.test.NumEqual? && Compiled(img, rt, fr, tg, x, dest, cx, pc, exact)
    ensures var dt := TestDest(x.test, false);
            var g, thn := Gen(rt, x.test, dt, cx), Gen(rt, x.thn, ToEax, Next(cx, x.test, dt));
            && Compiled(img, rt, fr, tg, x.test, dt, cx, pc, exact)
            && Compiled(img, rt, fr, tg, x.thn, ToEax, Next(cx, x.test, dt), pc + Size(g) + 8, exact)
            && Next(cx, x.test, dt).si == cx.si && Next(cx, x.test, dt).env <= 4 * fr.slots
            && Gen(rt, x, dest, cx) == IfCode(g + TestCompare(x.test), thn, dest)
            && dest != ToZeroFlag
  {
    hide CodeAt, Encode, Size, IfCode, Gen, Accepts, Count, Slots;
    var dt := TestDest(x.test, false);
    var g, thn := Gen(rt, x.test, dt, cx), Gen(rt, x.thn, ToEax, Next(cx, x.test, dt));
    UnfoldIf(rt, x, dest, cx);
    UnfoldIfAccepts(rt, x, dest, cx);
    IfLayout(img, pc, g, x.test, thn, dest, tg);
  }

  lemma IfElseParts(img: Image, rt: Runtime, fr: Frame, tg: map<Label, int>, x: Form, dest: Dest, cx: Context, pc: int, exact: bool)
    requires x.IfElse? && Compiled(img, rt, fr, tg, x, dest, cx, pc, exact)
    ensures var dt := TestDest(x.test, true);
            var cx1 := Next(cx, x.test, dt);
            var cx2 := Next(cx1, x.thn, ToEax);
            var g, thn, els := Gen(rt, x.test, dt, cx), Gen(rt, x.thn, ToEax, cx1), Gen(rt, x.els, ToEax, cx2);
            && Compiled(img, rt, fr, tg, x.test, dt, cx, pc, exact)
            && Compiled(img, rt, fr, tg, x.thn, ToEax, cx1, pc + Size(g) + TestSize(x.test), exact)
            && Compiled(img, rt, fr, tg, x.els, ToEax, cx2, pc + Size(g) + TestSize(x.test) + Size(thn) + 5, exact)
            && cx1.si == cx.si && cx2.si == cx.si && cx2.env <= 4 * fr.slots
            && Gen(rt, x, dest, cx) == IfElseCode(g + TestCompare(x.test), TestCond(x.test), thn, els, dest)
            && dest != ToZeroFlag
  {
    hide CodeAt, Encode, Size, IfElseCode, Gen, Accepts, Count, Slots;
    var dt := TestDest(x.test, true);
    var cx1 := Next(cx, x.test, dt);
    var cx2 := Next(cx1, x.thn, ToEax);
    var g, thn, els := Gen(rt, x.test, dt, cx), Gen(rt, x.thn, ToEax, cx1), Gen(rt, x.els, ToEax, cx2);
    UnfoldIfElse(rt, x, dest, cx);
    UnfoldIfAccepts(rt, x, dest, cx);
    IfElseLayout(img, pc, g, x.test, thn, els, dest, tg);
  }

  lemma IfEqualParts(img: Image, rt: Runtime, fr: Frame, tg: map<Label, int>, x: Form, dest: Dest, cx: Context, pc: int, exact: bool)
    requires x.If? && x.test.NumEqual? && Compiled(img, rt, fr, tg, x, dest, cx, pc, exact)
    ensures var dt := TestDest(x.test, true);
            var cx1 := Next(cx, x.test, dt);
            var g, thn, els := Gen(rt, x.test, dt, cx), Gen(rt, x.thn, ToEax, cx1), GenNil(ToEax);
            && Compiled(img, rt, fr, tg, x.test, dt, cx, pc, exact)
            && Compiled(img, rt, fr, tg, x.thn, ToEax, cx1, pc + Size(g) + TestSize(x.test), exact)
            && cx1.si == cx.si && cx1.env <= 4 * fr.slots
            && Gen(rt, x, dest, cx) == IfElseCode(g + TestCompare(x.test), TestCond(x.test), thn, els, dest)
            && dest != ToZeroFlag
  {
    hide CodeAt, Encode, Size, IfElseCode, Gen, Accepts, Count, Slots;
    var dt := TestDest(x.test, true);
    var cx1 := Next(cx, x.test, dt);
    var g, thn, els := Gen(rt, x.test, dt, cx), Gen(rt, x.thn, ToEax, cx1), GenNil(ToEax);
    UnfoldIf(rt, x, dest, cx);
    UnfoldIfAccepts(rt, x, dest, cx);
    IfElseLayout(img, pc, g, x.test, thn, els, dest, tg);
  }

  lemma UnfoldCompiled(img: Image, rt: Runtime, fr: Frame, tg: map<Label, int>, x: Form, dest: Dest, cx: Context, pc: int, exact: bool)
    requires Compiled(img, rt, fr, tg, x, dest, cx, pc, exact)
    ensures CodeAt(img, pc, Gen(rt, x, dest, cx), tg)
  {
    hide CodeAt, Gen, Accepts, CleanForm;
  }

  lemma NextAligned(cx: Context, x: Form, dest: Dest)
    requires Sound(cx)
    ensures Next(cx, x, dest).env % 4 == 0 && Next(cx, x, dest).env >= cx.env && Next(cx, x, dest).recs == cx.recs
  {
  }

  lemma NextAligned2(cx: Context, cx1: Context, x: Form, dest: Dest)
    requires cx1.env % 4 == 0 && cx1.recs == cx.recs && cx1.env >= cx.env
    ensures Next(cx1, x, dest).env % 4 == 0 && Next(cx1, x, dest).env >= cx1.env && Next(cx1, x, dest).recs == cx.recs
  {
  }

  lemma SeqParts(img: Image, rt: Runtime, fr: Frame, tg: map<Label, int>, body: Forms, cx: Context, pc: int, exact: bool)
    requires body.Forms? && CompiledSeq(img, rt, fr, tg, body, cx, pc, exact)
    ensures var cx1 := Next(cx, body.head, ToEax);
            var g := Gen(rt, body.head, ToEax, cx);
            && Compiled(img, rt, fr, tg, body.head, ToEax, cx, pc, exact)
            && CompiledSeq(img, rt, fr, tg, body.tail, cx1, pc + Size(g), exact)
            && cx1.si == cx.si && cx1.env <= 4 * fr.slots
            && Size(GenSeq(rt, body, cx)) == Size(g) + Size(GenSeq(rt, body.tail, cx1))
  {
    hide CodeAt, Size, Gen, Accepts, Count, Slots;
    Split(img, pc, Gen(rt, body.head, ToEax, cx), GenSeq(rt, body.tail, Next(cx, body.head, ToEax)), tg);
  }

  lemma EmptySeq(rt: Runtime, cx: Context)
    ensures Size(GenSeq(rt, NoForms, cx)) == 0
  {
  }

  lemma FormsParts(img: Image, rt: Runtime, fr: Frame, tg: map<Label, int>, body: Forms, dest: Dest, cx: Context, pc: int, exact: bool)
    requires CompiledForms(img, rt, fr, tg, body, dest, cx, pc, exact)
    ensures dest != ToZeroFlag
    ensures body.NoForms? ==> CodeAt(img, pc, GenNil(dest), tg) && GenForms(rt, body, dest, cx) == GenNil(dest)
    ensures body.Forms? && body.tail.NoForms? ==>
              Compiled(img, rt, fr, tg, body.head, dest, cx, pc, exact) && GenForms(rt, body, dest, cx) == Gen(rt, body.head, dest, cx)
    ensures body.Forms? && !body.tail.NoForms? ==>
              && CompiledSeq(img, rt, fr, tg, body, cx, pc, exact)
              && CodeAt(img, pc + Size(GenSeq(rt, body, cx)), PushIfStack(dest), tg)
              && Size(GenForms(rt, body, dest, cx)) == Size(GenSeq(rt, body, cx)) + Size(PushIfStack(dest))
  {
    hide CodeAt, Size, Gen, Accepts, Count, Slots, GenSeq, AcceptsSeq, CountSeq, GenNil, PushIfStack;
    if body.Forms? && !body.tail.NoForms? {
      Split(img, pc, GenSeq(rt, body, cx), PushIfStack(dest), tg);
    } else if body.Forms? {
      assert SlotsForms(body) == Slots(body.head) + SlotsForms(body.tail);
    }
  }

  lemma SetqParts(img: Image, rt: Runtime, fr: Frame, tg: map<Label, int>, b: Binds, cx: Context, pc: int, exact: bool)
    requires b.Binds? && CompiledSetq(img, rt, fr, tg, b, cx, pc, exact)
    ensures var cx1 := Next(cx, b.init, ToOperand);
            var g := Gen(rt, b.init, ToOperand, cx);
            && Compiled(img, rt, fr, tg, b.init, ToOperand, cx, pc, exact)
            && (FindLet(cx.recs, b.name) >= 0 || b.name in rt.vars)
            && CodeAt(img, pc + Size(g), GenAssign(rt, b.name, cx) + GenSetq(rt, b.rest, cx1), tg)
            && CompiledSetq(img, rt, fr, tg, b.rest, cx1, pc + Size(g) + Size(GenAssign(rt, b.name, cx)), exact)
            && cx1.si == cx.si && cx1.env <= 4 * fr.slots
            && Size(GenSetq(rt, b, cx)) == Size(g) + Size(GenAssign(rt, b.name, cx)) + Size(GenSetq(rt, b.rest, cx1))
  {
    hide CodeAt, Size, GenAssign, Gen, Accepts, Count, Slots;
    var cx1 := Next(cx, b.init, ToOperand);
    var g, a, r := Gen(rt, b.init, ToOperand, cx), GenAssign(rt, b.name, cx), GenSetq(rt, b.rest, cx1);
    assert GenSetq(rt, b, cx) == g + (a + r);
    Split(img, pc, g, a + r, tg);
    Split(img, pc + Size(g), a, r, tg);
  }

  lemma EmptySetq(rt: Runtime, cx: Context)
    ensures Size(GenSetq(rt, NoBinds, cx)) == 0
  {
  }

  lemma UnfoldSetq(rt: Runtime, x: Form, dest: Dest, cx: Context)
    requires x.Setq?
    ensures Gen(rt, x, dest, cx) == if x.pairs.NoBinds? then GenNil(dest) else GenSetq(rt, x.pairs, cx) + Target(dest)
    ensures Accepts(rt, x, dest, cx) == AcceptsSetq(rt, x.pairs, cx)
    ensures forall q :: Count(x, dest, q) == CountInits(x.pairs, q)
    ensures Slots(x) == SlotsSetq(x.pairs)
  {
    hide Gen, Accepts, Count, Slots;
    UnfoldSetqCode(rt, x, dest, cx);
    UnfoldSetqCount(x, dest, StackGo);
    forall q
      ensures Count(x, dest, q) == CountInits(x.pairs, q)
    {
      UnfoldSetqCount(x, dest, q);
    }
  }

  lemma UnfoldSetqCode(rt: Runtime, x: Form, dest: Dest, cx: Context)
    requires x.Setq?
    ensures Gen(rt, x, dest, cx) == if x.pairs.NoBinds? then GenNil(dest) else GenSetq(rt, x.pairs, cx) + Target(dest)
    ensures Accepts(rt, x, dest, cx) == AcceptsSetq(rt, x.pairs, cx)
  {
    hide GenSetq, AcceptsSetq, Count, Slots, GenNil, Target;
  }

  lemma UnfoldSetqCount(x: Form, dest: Dest, q: Misplaced)
    requires x.Setq?
    ensures Count(x, dest, q) == CountInits(x.pairs, q) && Slots(x) == SlotsSetq(x.pairs)
  {
    hide CountInits, SlotsSetq, Gen, Accepts;
  }

  lemma SetqFormParts(img: Image, rt: Runtime, fr: Frame, tg: map<Label, int>, x: Form, dest: Dest, cx: Context, pc: int, exact: bool)
    requires x.Setq? && Compiled(img, rt, fr, tg, x, dest, cx, pc, exact)
    ensures dest != ToZeroFlag
    ensures x.pairs.NoBinds? ==> CodeAt(img, pc, GenNil(dest), tg) && Gen(rt, x, dest, cx) == GenNil(dest)
    ensures x.pairs.Binds? ==>
              var g := GenSetq(rt, x.pairs, cx);
              && CompiledSetq(img, rt, fr, tg, x.pairs, cx, pc, exact)
              && CodeAt(img, pc + Size(g), Target(dest), tg)
              && Size(Gen(rt, x, dest, cx)) == Size(g) + Size(Target(dest))
  {
    hide CodeAt, Size, Gen, Accepts, Count, Slots, GenSetq, AcceptsSetq, CountInits, SlotsSetq, GenNil, Target;
    UnfoldSetq(rt, x, dest, cx);
    if x.pairs.Binds? {
      Split(img, pc, GenSetq(rt, x.pairs, cx), Target(dest), tg);
    }
  }

  // ----- LET and LET* -----

  lemma {:induction false} LexicalConcat(a: seq<Rec>, b: seq<Rec>)
    ensures Lexical(a + b) == Lexical(a) + Lexical(b)
    decreases |b|
  {
    if b == [] {
      assert a + b == a;
    } else {
      assert (a + b)[..|a + b| - 1] == a + b[..|b| - 1];
      LexicalConcat(a, b[..|b| - 1]);
    }
  }

  lemma LexicalOne(r: Rec)
    ensures Lexical([r]) == if r.LetRec? then {r.name} else {}
  {
    assert [r][..0] == [];
  }

  lemma {:induction false} LexicalLets(b: Binds, env: int)
    ensures Lexical(LetRecs(b, env)) == BoundNames(b)
    decreases b
  {
    hide Slots;
    if b.Binds? {
      LexicalLets(b.rest, env + 4 + 4 * Slots(b.init));
      LexicalConcat(LetRecs(b.rest, env + 4 + 4 * Slots(b.init)), [LetRec(b.name, SlotOffset(env))]);
      LexicalOne(LetRec(b.name, SlotOffset(env)));
    }
  }

  /** A name is lexical when a LET record has it. */
  lemma {:induction false} LexicalFound(recs: seq<Rec>, n: Name)
    ensures n in Lexical(recs) <==> FindLet(recs, n) >= 0
    decreases |recs|
  {
    if recs != [] {
      LexicalFound(recs[..|recs| - 1], n);
    }
  }

  /** The record of a block or of tags makes nothing lexical. */
  lemma LexicalMarker(recs: seq<Rec>, r: Rec)
    requires !r.LetRec?
    ensures Lexical(recs + [r]) == Lexical(recs)
  {
    LexicalConcat(recs, [r]);
    LexicalOne(r);
  }

  lemma UnfoldLet(rt: Runtime, x: Form, dest: Dest, cx: Context)
    requires x.Let?
    ensures Gen(rt, x, dest, cx) == GenInits(rt, x.binds, cx) + GenForms(rt, x.body, ToEax, LetContext(cx, x.binds)) + PushIfStack(dest)
    ensures Accepts(rt, x, dest, cx) == (AcceptsInits(rt, x.binds, cx) && AcceptsForms(rt, x.body, ToEax, LetContext(cx, x.binds)))
    ensures forall q :: Count(x, dest, q) == CountInits(x.binds, q) + CountForms(x.body, ToEax, Inside(q, BoundNames(x.binds)))
    ensures Slots(x) == SlotsInits(x.binds) + SlotsForms(x.body)
  {
    hide GenInits, AcceptsInits, CountInits, SlotsInits, GenForms, AcceptsForms, CountForms, SlotsForms, LetContext;
  }

  lemma LetParts(img: Image, rt: Runtime, fr: Frame, tg: map<Label, int>, x: Form, dest: Dest, cx: Context, pc: int, exact: bool)
    requires x.Let? && Compiled(img, rt, fr, tg, x, dest, cx, pc, exact)
    ensures var g, cx1 := GenInits(rt, x.binds, cx), LetContext(cx, x.binds);
            var b := GenForms(rt, x.body, ToEax, cx1);
            && dest != ToZeroFlag
            && CompiledInits(img, rt, fr, tg, x.binds, cx, pc, exact)
            && CompiledForms(img, rt, fr, tg, x.body, ToEax, cx1, pc + Size(g), exact)
            && CodeAt(img, pc + Size(g) + Size(b), PushIfStack(dest), tg)
            && cx1.si == cx.si && cx1.env == cx.env + 4 * SlotsInits(x.binds) && cx1.env <= 4 * fr.slots
            && cx1.recs == cx.recs + LetRecs(x.binds, cx.env)
            && Size(Gen(rt, x, dest, cx)) == Size(g) + Size(b) + Size(PushIfStack(dest))
  {
    hide CodeAt, Size, Gen, Accepts, Count, Slots, GenInits, AcceptsInits, CountInits, SlotsInits, GenForms, AcceptsForms,
         CountForms, SlotsForms, LetRecs, PushIfStack;
    UnfoldLet(rt, x, dest, cx);
    LexicalLets(x.binds, cx.env);
    LexicalConcat(cx.recs, LetRecs(x.binds, cx.env));
    var g, b, push := GenInits(rt, x.binds, cx), GenForms(rt, x.body, ToEax, LetContext(cx, x.binds)), PushIfStack(dest);
    assert g + b + push == g + (b + push);
    Split(img, pc, g, b + push, tg);
    Split(img, pc + Size(g), b, push, tg);
  }

  lemma InitsParts(img: Image, rt: Runtime, fr: Frame, tg: map<Label, int>, b: Binds, cx: Context, pc: int, exact: bool)
    requires b.Binds? && CompiledInits(img, rt, fr, tg, b, cx, pc, exact)
    ensures var cx1 := cx.(env := cx.env + 4);
            var cx2 := Next(cx1, b.init, ToOperand);
            var g, store := Gen(rt, b.init, ToOperand, cx1), Plain(Store(EBP, SlotOffset(cx.env)));
            && Compiled(img, rt, fr, tg, b.init, ToOperand, cx1, pc, exact)
            && CodeAt(img, pc + Size(g), [store] + GenInits(rt, b.rest, cx2), tg)
            && CompiledInits(img, rt, fr, tg, b.rest, cx2, pc + Size(g) + Len(store), exact)
            && cx2.si == cx.si && cx2.env == cx.env + 4 + 4 * Slots(b.init) && cx2.env <= 4 * fr.slots
            && Size(GenInits(rt, b, cx)) == Size(g) + Len(store) + Size(GenInits(rt, b.rest, cx2))
  {
    hide CodeAt, Size, Gen, Accepts, Count, Slots, Encode;
    var cx1 := cx.(env := cx.env + 4);
    var cx2 := Next(cx1, b.init, ToOperand);
    var g, store, r := Gen(rt, b.init, ToOperand, cx1), Plain(Store(EBP, SlotOffset(cx.env))), GenInits(rt, b.rest, cx2);
    assert GenInits(rt, b, cx) == g + ([store] + r);
    Split(img, pc, g, [store] + r, tg);
    Split1(img, pc + Size(g), store, r, tg);
  }

  lemma ChainParts(img: Image, rt: Runtime, fr: Frame, tg: map<Label, int>, b: Chain, cx: Context, pc: int, exact: bool)
    requires b.Bind? && CompiledChain(img, rt, fr, tg, b, cx, pc, exact)
    ensures var cx1 := cx.(env := cx.env + 4);
            var cx2 := BindContext(cx, b.name, b.init);
            var g, store := Gen(rt, b.init, ToOperand, cx1), Plain(Store(EBP, SlotOffset(cx.env)));
            && Compiled(img, rt, fr, tg, b.init, ToOperand, cx1, pc, exact)
            && CodeAt(img, pc + Size(g), [store] + GenChain(rt, b.rest, cx2), tg)
            && CompiledChain(img, rt, fr, tg, b.rest, cx2, pc + Size(g) + Len(store), exact)
            && cx2.si == cx.si && cx2.env == cx.env + 4 + 4 * Slots(b.init) && cx2.env <= 4 * fr.slots
            && cx2.recs == cx.recs + [LetRec(b.name, SlotOffset(cx.env))]
            && Size(GenChain(rt, b, cx)) == Size(g) + Len(store) + Size(GenChain(rt, b.rest, cx2))
  {
    hide CodeAt, Size, Gen, Accepts, Count, Slots, Encode;
    var cx1 := cx.(env := cx.env + 4);
    var cx2 := BindContext(cx, b.name, b.init);
    LexicalConcat(cx.recs, [LetRec(b.name, SlotOffset(cx.env))]);
    LexicalOne(LetRec(b.name, SlotOffset(cx.env)));
    var g, store, r := Gen(rt, b.init, ToOperand, cx1), Plain(Store(EBP, SlotOffset(cx.env))), GenChain(rt, b.rest, cx2);
    assert GenChain(rt, b, cx) == g + ([store] + r);
    Split(img, pc, g, [store] + r, tg);
    Split1(img, pc + Size(g), store, r, tg);
  }

  lemma ChainBodyParts(img: Image, rt: Runtime, fr: Frame, tg: map<Label, int>, b: Chain, cx: Context, pc: int, exact: bool)
    requires b.Body? && CompiledChain(img, rt, fr, tg, b, cx, pc, exact)
    ensures CompiledForms(img, rt, fr, tg, b.body, ToEax, cx, pc, exact)
    ensures GenChain(rt, b, cx) == GenForms(rt, b.body, ToEax, cx)
  {
    hide CodeAt, GenForms, AcceptsForms, CountForms, SlotsForms;
  }

  lemma UnfoldLetStar(rt: Runtime, x: Form, dest: Dest, cx: Context)
    requires x.LetStar?
    ensures Gen(rt, x, dest, cx) == GenChain(rt, x.chain, cx) + PushIfStack(dest)
    ensures Accepts(rt, x, dest, cx) == AcceptsChain(rt, x.chain, cx)
    ensures forall q :: Count(x, dest, q) == CountChain(x.chain, q)
    ensures Slots(x) == SlotsChain(x.chain)
  {
    hide GenChain, AcceptsChain, CountChain, SlotsChain;
  }

  lemma LetStarParts(img: Image, rt: Runtime, fr: Frame, tg: map<Label, int>, x: Form, dest: Dest, cx: Context, pc: int, exact: bool)
    requires x.LetStar? && Compiled(img, rt, fr, tg, x, dest, cx, pc, exact)
    ensures var g := GenChain(rt, x.chain, cx);
            && dest != ToZeroFlag
            && CompiledChain(img, rt, fr, tg, x.chain, cx, pc, exact)
            && CodeAt(img, pc + Size(g), PushIfStack(dest), tg)
            && Size(Gen(rt, x, dest, cx)) == Size(g) + Size(PushIfStack(dest))
  {
    hide CodeAt, Size, Gen, Accepts, Count, Slots, GenChain, AcceptsChain, CountChain, SlotsChain, PushIfStack;
    UnfoldLetStar(rt, x, dest, cx);
    Split(img, pc, GenChain(rt, x.chain, cx), PushIfStack(dest), tg);
  }

  // ----- BLOCK, RETURN-FROM, TAGBODY -----

  lemma UnfoldBlock(rt: Runtime, x: Form, dest: Dest, cx: Context)
    requires x.Block?
    ensures var b := GenForms(rt, x.body, ToEax, BlockContext(cx, x.name));
            Gen(rt, x, dest, cx) == SettleAll(b, 0, |cx.recs|, [Size(b)]) + PushIfStack(dest)
    ensures Accepts(rt, x, dest, cx) == AcceptsForms(rt, x.body, ToEax, BlockContext(cx, x.name))
    ensures forall q :: Count(x, dest, q) == CountForms(x.body, ToEax, q)
    ensures Slots(x) == SlotsForms(x.body)
  {
    hide GenForms, AcceptsForms, CountForms, SlotsForms, SettleAll, Size, BlockContext;
  }

  lemma BlockParts(img: Image, rt: Runtime, fr: Frame, tg: map<Label, int>, x: Form, dest: Dest, cx: Context, pc: int, exact: bool)
    requires x.Block? && Compiled(img, rt, fr, tg, x, dest, cx, pc, exact)
    ensures var inner := BlockContext(cx, x.name);
            var b := GenForms(rt, x.body, ToEax, inner);
            && dest != ToZeroFlag
            && CompiledForms(img, rt, fr, Retarget(tg, |cx.recs|, [Size(b)], pc), x.body, ToEax, inner, pc, exact)
            && CodeAt(img, pc + Size(b), PushIfStack(dest), tg)
            && Size(Gen(rt, x, dest, cx)) == Size(b) + Size(PushIfStack(dest))
            && cx.env <= 4 * fr.slots
  {
    hide CodeAt, Size, Gen, Accepts, Count, Slots, GenForms, AcceptsForms, CountForms, SlotsForms, SettleAll, PushIfStack, Retarget;
    UnfoldBlock(rt, x, dest, cx);
    LexicalMarker(cx.recs, BlockRec(x.name, cx.si));
    var b := GenForms(rt, x.body, ToEax, BlockContext(cx, x.name));
    Split(img, pc, SettleAll(b, 0, |cx.recs|, [Size(b)]), PushIfStack(dest), tg);
    SettleSize(b, 0, |cx.recs|, [Size(b)]);
    SettledCode(img, pc, b, 0, |cx.recs|, [Size(b)], tg);
  }

  lemma ReturnGen(rt: Runtime, x: Form, dest: Dest, cx: Context)
    requires x.ReturnFrom?
    ensures var k := FindBlock(cx.recs, x.name);
            && (k >= 0 ==> Gen(rt, x, dest, cx) == Gen(rt, x.value, dest, cx) + Adjust(Next(cx, x.value, dest).si - cx.recs[k].depth) + [Exit(Label(k, 0))])
            && Accepts(rt, x, dest, cx) == (k >= 0 && Accepts(rt, x.value, dest, cx) && Next(cx, x.value, dest).si - cx.recs[k].depth >= 0)
  {
    hide Adjust, Next, FindBlock, GenForms, GenSeq, AcceptsForms, AcceptsSeq;
  }

  lemma ReturnCounts(x: Form, dest: Dest)
    requires x.ReturnFrom?
    ensures forall q :: Count(x, dest, q) == Count(x.value, dest, q) + if Misplaces(x.value, dest, q) then 1 else 0
    ensures Slots(x) == Slots(x.value)
  {
    hide CountForms, CountSeq, CountInits, CountChain, CountItems, TestDest, Arg1Dest, SlotsForms, SlotsInits, SlotsSetq, SlotsChain, SlotsItems;
  }

  lemma UnfoldReturn(rt: Runtime, x: Form, dest: Dest, cx: Context)
    requires x.ReturnFrom?
    ensures var k := FindBlock(cx.recs, x.name);
            && (k >= 0 ==> Gen(rt, x, dest, cx) == Gen(rt, x.value, dest, cx) + Adjust(Next(cx, x.value, dest).si - cx.recs[k].depth) + [Exit(Label(k, 0))])
            && Accepts(rt, x, dest, cx) == (k >= 0 && Accepts(rt, x.value, dest, cx) && Next(cx, x.value, dest).si - cx.recs[k].depth >= 0)
    ensures forall q :: Count(x, dest, q) == Count(x.value, dest, q) + if Misplaces(x.value, dest, q) then 1 else 0
    ensures Slots(x) == Slots(x.value)
  {
    hide Gen, Accepts, Count, Slots, Adjust, Next;
    ReturnGen(rt, x, dest, cx);
    ReturnCounts(x, dest);
  }

  lemma GoParts(img: Image, rt: Runtime, fr: Frame, tg: map<Label, int>, x: Form, dest: Dest, cx: Context, pc: int, exact: bool)
    requires x.Go? && Compiled(img, rt, fr, tg, x, dest, cx, pc, exact)
    ensures var k := FindTags(cx.recs, x.tag);
            && k >= 0 && cx.env <= 4 * fr.slots
            && CodeAt(img, pc, Adjust(cx.si - cx.recs[k].depth) + [Exit(Label(k, IndexOf(cx.recs[k].tags, x.tag)))], tg)
  {
    hide CodeAt, Size, Adjust;
  }

  /** The parts of a TAGBODY's code: a NIL when all statements are GOs, the statements, and the final NIL. */
  function TagbodyPre(items: Items): Code {
    if OnlyGos(items) then GenNil(ToEax) else []
  }

  function TagbodyTargets(rt: Runtime, items: Items, inner: Context): seq<int> {
    TagOffsets(rt, items, inner, Size(TagbodyPre(items)))
  }

  lemma UnfoldTagbody(rt: Runtime, x: Form, dest: Dest, cx: Context)
    requires x.Tagbody?
    ensures var inner := TagsContext(cx, x.items);
            Gen(rt, x, dest, cx) ==
              if !HasStmt(x.items) then GenNil(dest)
              else SettleAll(TagbodyPre(x.items) + GenItems(rt, x.items, inner) + GenNil(ToEax), 0, |cx.recs|, TagbodyTargets(rt, x.items, inner))
                   + PushIfStack(dest)
    ensures Accepts(rt, x, dest, cx) == (HasStmt(x.items) ==> AcceptsItems(rt, x.items, TagsContext(cx, x.items)))
    ensures forall q :: Count(x, dest, q) == CountItems(x.items, q)
    ensures Slots(x) == SlotsItems(x.items)
  {
    hide GenItems, AcceptsItems, CountItems, SlotsItems, SettleAll, Size, TagsContext, TagOffsets;
  }

  lemma TagbodyParts(img: Image, rt: Runtime, fr: Frame, tg: map<Label, int>, x: Form, dest: Dest, cx: Context, pc: int, exact: bool)
    requires x.Tagbody? && Compiled(img, rt, fr, tg, x, dest, cx, pc, exact)
    ensures dest != ToZeroFlag
    ensures !HasStmt(x.items) ==> CodeAt(img, pc, GenNil(dest), tg) && Gen(rt, x, dest, cx) == GenNil(dest)
    ensures HasStmt(x.items) ==>
              var inner := TagsContext(cx, x.items);
              var pre, g := TagbodyPre(x.items), GenItems(rt, x.items, inner);
              var tg' := Retarget(tg, |cx.recs|, TagbodyTargets(rt, x.items, inner), pc);
              var end := pc + Size(pre) + Size(g) + Size(GenNil(ToEax));
              && CodeAt(img, pc, pre, tg')
              && CompiledItems(img, rt, fr, tg', x.items, inner, pc + Size(pre), exact)
              && CodeAt(img, pc + Size(pre) + Size(g), GenNil(ToEax), tg')
              && CodeAt(img, end, PushIfStack(dest), tg)
              && pc + Size(Gen(rt, x, dest, cx)) == end + Size(PushIfStack(dest))
              && cx.env <= 4 * fr.slots
  {
    hide CodeAt, Size, Gen, Accepts, Count, Slots, GenItems, AcceptsItems, CountItems, SlotsItems, SettleAll, PushIfStack, GenNil,
         Retarget, TagbodyPre, TagbodyTargets, Lexical, HasStmt, TagNames;
    UnfoldTagbody(rt, x, dest, cx);
    if HasStmt(x.items) {
      var inner := TagsContext(cx, x.items);
      LexicalMarker(cx.recs, TagsRec(TagNames(x.items), cx.si));
      var pre, g, nil := TagbodyPre(x.items), GenItems(rt, x.items, inner), GenNil(ToEax);
      var targets := TagbodyTargets(rt, x.items, inner);
      var body := pre + g + nil;
      Split(img, pc, SettleAll(body, 0, |cx.recs|, targets), PushIfStack(dest), tg);
      SettleSize(body, 0, |cx.recs|, targets);
      SettledCode(img, pc, body, 0, |cx.recs|, targets, tg);
      var tg' := Retarget(tg, |cx.recs|, targets, pc);
      assert body == pre + (g + nil);
      Split(img, pc, pre, g + nil, tg');
      Split(img, pc + Size(pre), g, nil, tg');
    }
  }

  lemma ItemsParts(img: Image, rt: Runtime, fr: Frame, tg: map<Label, int>, items: Items, cx: Context, pc: int, exact: bool)
    requires CompiledItems(img, rt, fr, tg, items, cx, pc, exact)
    ensures items.Tag? ==> CompiledItems(img, rt, fr, tg, items.rest, cx, pc, exact) && GenItems(rt, items, cx) == GenItems(rt, items.rest, cx)
    ensures items.Stmt? ==>
              var cx1 := Next(cx, items.form, ToEax);
              var g := Gen(rt, items.form, ToEax, cx);
              && Compiled(img, rt, fr, tg, items.form, ToEax, cx, pc, exact)
              && CompiledItems(img, rt, fr, tg, items.rest, cx1, pc + Size(g), exact)
              && cx1.si == cx.si && cx1.env <= 4 * fr.slots
              && Size(GenItems(rt, items, cx)) == Size(g) + Size(GenItems(rt, items.rest, cx1))
    ensures cx.env <= 4 * fr.slots
  {
    hide CodeAt, Size, Gen, Accepts, Count, Slots;
    if items.Stmt? {
      Split(img, pc, Gen(rt, items.form, ToEax, cx), GenItems(rt, items.rest, Next(cx, items.form, ToEax)), tg);
    }
  }

  lemma TagNamesHas(items: Items, tag: Name)
    ensures HasTag(items, tag) <==> tag in TagNames(items)
  {
  }

  lemma {:induction false} TagOffsetsLength(rt: Runtime, items: Items, cx: Context, pos: int)
    ensures |TagOffsets(rt, items, cx, pos)| == |TagNames(items)|
    decreases items
  {
    hide Gen, Size, Next, TagOffsets;
    match items
    case NoItems => NoOffsets(rt, items, cx, pos);
    case Tag(t, rest) =>
      TagHeadOffset(rt, t, rest, cx, pos);
      TagOffsetsLength(rt, rest, cx, pos);
    case Stmt(x, rest) =>
      StmtHead(rt, x, rest, cx, pos);
      TagOffsetsLength(rt, rest, Next(cx, x, ToEax), pos + Size(Gen(rt, x, ToEax, cx)));
  }

  lemma NoOffsets(rt: Runtime, items: Items, cx: Context, pos: int)
    requires items.NoItems?
    ensures TagOffsets(rt, items, cx, pos) == []
  {
    hide Gen, Size, Next;
  }

  lemma TagHead(rt: Runtime, t: Name, rest: Items, cx: Context, pos: int, tag: Name)
    requires t == tag || tag in TagNames(rest)
    ensures TagNames(Tag(t, rest)) == [t] + TagNames(rest) && TagOffsets(rt, Tag(t, rest), cx, pos) == [pos] + TagOffsets(rt, rest, cx, pos)
    ensures IndexOf(TagNames(Tag(t, rest)), tag) == if t == tag then 0 else 1 + IndexOf(TagNames(rest), tag)
  {
    hide TagOffsets;
    assert ([t] + TagNames(rest))[1..] == TagNames(rest);
    assert TagOffsets(rt, Tag(t, rest), cx, pos) == [pos] + TagOffsets(rt, rest, cx, pos) by { TagHeadOffset(rt, t, rest, cx, pos); }
  }

  lemma TagHeadOffset(rt: Runtime, t: Name, rest: Items, cx: Context, pos: int)
    ensures TagOffsets(rt, Tag(t, rest), cx, pos) == [pos] + TagOffsets(rt, rest, cx, pos)
  {
    hide Gen, Size;
  }

  lemma StmtHead(rt: Runtime, x: Form, rest: Items, cx: Context, pos: int)
    ensures TagNames(Stmt(x, rest)) == TagNames(rest)
    ensures TagOffsets(rt, Stmt(x, rest), cx, pos) == TagOffsets(rt, rest, Next(cx, x, ToEax), pos + Size(Gen(rt, x, ToEax, cx)))
  {
    hide Gen, Size, Next;
  }

  lemma NextEnv(cx: Context, x: Form, dest: Dest)
    ensures Next(cx, x, dest) == cx.(env := cx.env + 4 * Slots(x), si := Next(cx, x, dest).si)
  {
    hide Slots, Count;
  }

  /** A tag's offset is where the statements after it are compiled. */
  lemma {:induction false} TagPosition(img: Image, rt: Runtime, fr: Frame, tg: map<Label, int>, items: Items, cx: Context, pc: int, pos: int,
                                       tag: Name, exact: bool) returns (cxt: Context)
    requires CompiledItems(img, rt, fr, tg, items, cx, pc, exact) && HasTag(items, tag) && cx.env % 4 == 0
    ensures tag in TagNames(items) && IndexOf(TagNames(items), tag) < |TagOffsets(rt, items, cx, pos)|
    ensures var p := pc - pos + TagOffsets(rt, items, cx, pos)[IndexOf(TagNames(items), tag)];
            && CompiledItems(img, rt, fr, tg, After(items, tag), cxt, p, exact)
            && p + Size(GenItems(rt, After(items, tag), cxt)) == pc + Size(GenItems(rt, items, cx))
    ensures cxt == cx.(env := cxt.env) && cxt.env >= cx.env && cxt.env % 4 == 0
    decreases items
  {
    hide CodeAt, Size, Gen, Accepts, Count, Slots, GenItems, CompiledItems, Compiled, Next, IndexOf, TagOffsets, TagNames;
    TagNamesHas(items, tag);
    TagOffsetsLength(rt, items, cx, pos);
    ItemsParts(img, rt, fr, tg, items, cx, pc, exact);
    match items
    case Tag(t, rest) =>
      TagNamesHas(rest, tag);
      TagHead(rt, t, rest, cx, pos, tag);
      if t == tag {
        cxt := cx;
      } else {
        cxt := TagPosition(img, rt, fr, tg, rest, cx, pc, pos, tag, exact);
      }
    case Stmt(x, rest) =>
      var n := Size(Gen(rt, x, ToEax, cx));
      NextEnv(cx, x, ToEax);
      StmtHead(rt, x, rest, cx, pos);
      cxt := TagPosition(img, rt, fr, tg, rest, Next(cx, x, ToEax), pc + n, pos + n, tag, exact);
  }

  // ----- calls -----

  lemma UnfoldCallGen(rt: Runtime, x: Form, dest: Dest, cx: Context)
    requires IsCall(x)
    ensures Gen(rt, x, dest, cx) == Gen2(rt, x, x.arg1, x.arg2, cx) + CallTail(rt, x, dest, cx.check)
  {
    hide Gen2, CallTail, Arg1Dest;
    match x
    case ArithCall(_, _, _) =>
    case NumEqual(_, _) =>
    case Compare(_, _, _) =>
    case Eq(_, _) =>
  }

  lemma UnfoldCallAccepts(rt: Runtime, x: Form, dest: Dest, cx: Context)
    requires IsCall(x)
    ensures Accepts(rt, x, dest, cx) == (Accepts(rt, x.arg1, Arg1Dest(x), cx) && Accepts(rt, x.arg2, ToOperand, Next(cx, x.arg1, Arg1Dest(x))))
  {
    hide Arg1Dest, Next;
    match x
    case ArithCall(_, _, _) =>
    case NumEqual(_, _) =>
    case Compare(_, _, _) =>
    case Eq(_, _) =>
  }

  lemma UnfoldCallCount(x: Form, dest: Dest, q: Misplaced)
    requires IsCall(x)
    ensures Count(x, dest, q) == Count(x.arg1, Arg1Dest(x), q) + Count(x.arg2, ToOperand, q)
    ensures Slots(x) == Slots(x.arg1) + Slots(x.arg2)
  {
    hide Count, Slots;
    UnfoldCallGos(x, dest, q);
    UnfoldCallSlots(x);
  }

  lemma CountArith(x: Form, dest: Dest, q: Misplaced)
    requires x.ArithCall?
    ensures Count(x, dest, q) == Count(x.arg1, Arg1Dest(x), q) + Count(x.arg2, ToOperand, q)
  {
    hide Arg1Dest, CountInits, CountForms, CountSeq, CountChain, CountItems, TestDest;
  }

  lemma CountEqual(x: Form, dest: Dest, q: Misplaced)
    requires x.NumEqual?
    ensures Count(x, dest, q) == Count(x.arg1, Arg1Dest(x), q) + Count(x.arg2, ToOperand, q)
  {
    hide Arg1Dest, CountInits, CountForms, CountSeq, CountChain, CountItems, TestDest;
  }

  lemma CountCompare(x: Form, dest: Dest, q: Misplaced)
    requires x.Compare?
    ensures Count(x, dest, q) == Count(x.arg1, Arg1Dest(x), q) + Count(x.arg2, ToOperand, q)
  {
    hide Arg1Dest, CountInits, CountForms, CountSeq, CountChain, CountItems, TestDest;
  }

  lemma CountEq(x: Form, dest: Dest, q: Misplaced)
    requires x.Eq?
    ensures Count(x, dest, q) == Count(x.arg1, Arg1Dest(x), q) + Count(x.arg2, ToOperand, q)
  {
    hide Arg1Dest, CountInits, CountForms, CountSeq, CountChain, CountItems, TestDest;
  }

  lemma UnfoldCallGos(x: Form, dest: Dest, q: Misplaced)
    requires IsCall(x)
    ensures Count(x, dest, q) == Count(x.arg1, Arg1Dest(x), q) + Count(x.arg2, ToOperand, q)
  {
    hide Count, Arg1Dest;
    match x
    case ArithCall(_, _, _) => CountArith(x, dest, q);
    case NumEqual(_, _) => CountEqual(x, dest, q);
    case Compare(_, _, _) => CountCompare(x, dest, q);
    case Eq(_, _) => CountEq(x, dest, q);
  }

  lemma UnfoldCallSlots(x: Form)
    requires IsCall(x)
    ensures Slots(x) == Slots(x.arg1) + Slots(x.arg2)
  {
    hide Count, SlotsInits, SlotsForms, SlotsSetq, SlotsChain, SlotsItems;
  }

  lemma EvalCall(rt: Runtime, x: Form, st: State, fuel: nat)
    requires IsCall(x)
    ensures Eval(rt, x, st, fuel) ==
              match Eval(rt, x.arg1, st, fuel)
              case Val(a, st1) =>
                (match Eval(rt, x.arg2, st1, fuel)
                 case Val(b, st2) => CallOutcome(rt, x, a, b, st2)
                 case out => out)
              case out => out
  {
    hide CallOutcome;
  }

  /** Between the arguments' code and the tail. */
  function Collect(x: Form): Code
    requires IsCall(x)
  {
    if x.ArithCall? && x.fn.Minus? then [Plain(Mov(EDX, EAX)), Plain(Pop(EAX))] else [Plain(Pop(EDX))]
  }

  lemma CallConditions(img: Image, rt: Runtime, fr: Frame, tg: map<Label, int>, x: Form, dest: Dest, cx: Context, pc: int, exact: bool)
    requires IsCall(x) && Compiled(img, rt, fr, tg, x, dest, cx, pc, exact)
    ensures var d1 := Arg1Dest(x);
            var cx1 := Next(cx, x.arg1, d1);
            && Accepts(rt, x.arg1, d1, cx) && CleanForm(x.arg1, d1, cx.recs, exact) && cx.env + 4 * Slots(x.arg1) <= 4 * fr.slots
            && Accepts(rt, x.arg2, ToOperand, cx1) && CleanForm(x.arg2, ToOperand, cx.recs, exact)
            && cx1.si == cx.si + (if d1 == ToStack then 4 else 0) && cx1.env + 4 * Slots(x.arg2) <= 4 * fr.slots
            && cx1.recs == cx.recs && cx1.env >= cx.env && cx1.check == cx.check
            && (dest == ToZeroFlag ==> x.NumEqual?)
  {
    hide CodeAt, Gen, Accepts, Count, Slots, Arg1Dest;
    UnfoldCallAccepts(rt, x, dest, cx);
    UnfoldCallCount(x, dest, StackGo);
    UnfoldCallCount(x, dest, StackReturn(Lexical(cx.recs)));
    UnfoldCallCount(x, dest, UncountedReturn);
  }

  /** The arguments' code and the tail, one after the other. */
  ghost predicate CallStands(img: Image, rt: Runtime, tg: map<Label, int>, x: Form, dest: Dest, cx: Context, pc: int)
    requires IsCall(x)
  {
    var g, tail := Gen2(rt, x, x.arg1, x.arg2, cx), CallTail(rt, x, dest, cx.check);
    && CodeAt(img, pc, g, tg)
    && CodeAt(img, pc + Size(g), tail, tg)
    && Size(Gen(rt, x, dest, cx)) == Size(g) + Size(tail)
  }

  lemma CallParts(img: Image, rt: Runtime, fr: Frame, tg: map<Label, int>, x: Form, dest: Dest, cx: Context, pc: int, exact: bool)
    requires IsCall(x) && Compiled(img, rt, fr, tg, x, dest, cx, pc, exact)
    ensures CallStands(img, rt, tg, x, dest, cx, pc)
  {
    hide CodeAt, Size, Gen, Gen2, CallTail, Compiled;
    UnfoldCompiled(img, rt, fr, tg, x, dest, cx, pc, exact);
    UnfoldCallGen(rt, x, dest, cx);
    Split(img, pc, Gen2(rt, x, x.arg1, x.arg2, cx), CallTail(rt, x, dest, cx.check), tg);
  }

  lemma CallArg1(img: Image, rt: Runtime, fr: Frame, tg: map<Label, int>, x: Form, dest: Dest, cx: Context, pc: int, exact: bool)
    requires IsCall(x) && Compiled(img, rt, fr, tg, x, dest, cx, pc, exact)
    ensures Compiled(img, rt, fr, tg, x.arg1, Arg1Dest(x), cx, pc, exact)
  {
    hide Gen2, CallTail, Size, Compiled, CodeAt, Gen, Accepts, CleanForm, Slots, Next, Arg1Dest;
    CallConditions(img, rt, fr, tg, x, dest, cx, pc, exact);
    CallParts(img, rt, fr, tg, x, dest, cx, pc, exact);
    CallFirst(img, rt, tg, x, cx, pc);
    Arg1DestCases(x);
    CompiledArg(img, rt, fr, tg, x.arg1, Arg1Dest(x), cx, pc, exact);
  }

  lemma CompiledArg(img: Image, rt: Runtime, fr: Frame, tg: map<Label, int>, x: Form, dest: Dest, cx: Context, pc: int, exact: bool)
    requires Accepts(rt, x, dest, cx) && CleanForm(x, dest, cx.recs, exact) && cx.env + 4 * Slots(x) <= 4 * fr.slots && dest != ToZeroFlag
    requires CodeAt(img, pc, Gen(rt, x, dest, cx), tg)
    ensures Compiled(img, rt, fr, tg, x, dest, cx, pc, exact)
  {
    hide CodeAt, Gen, Accepts, CleanForm, Slots;
  }

  lemma Arg1DestCases(x: Form)
    requires IsCall(x)
    ensures Arg1Dest(x) == ToOperand || Arg1Dest(x) == ToStack
  {
  }

  lemma CallFirst(img: Image, rt: Runtime, tg: map<Label, int>, x: Form, cx: Context, pc: int)
    requires IsCall(x) && CodeAt(img, pc, Gen2(rt, x, x.arg1, x.arg2, cx), tg)
    ensures CodeAt(img, pc, Gen(rt, x.arg1, Arg1Dest(x), cx), tg)
  {
    hide CodeAt, Gen, Next, IsSimple, Size, Encode, MovObj;
    var d1 := Arg1Dest(x);
    var g1 := Gen(rt, x.arg1, d1, cx);
    var all := Gen2(rt, x, x.arg1, x.arg2, cx);
    Arg1DestCases(x);
    if x.ArithCall? && d1 == ToOperand {
      assert all == g1 + [Plain(MovObj(EDX, x.arg2.w))];
    } else if d1 == ToOperand {
      assert all == g1 + ([Plain(Mov(EDX, EAX))] + Gen(rt, x.arg2, ToOperand, Next(cx, x.arg1, ToOperand)));
    } else {
      assert all == g1 + (Gen(rt, x.arg2, ToOperand, Next(cx, x.arg1, ToStack)) + Collect(x));
    }
    assert all == g1 + all[|g1|..];
    Split(img, pc, g1, all[|g1|..], tg);
  }

  lemma LiteralParts(img: Image, rt: Runtime, tg: map<Label, int>, x: Form, cx: Context, pc: int)
    requires x.ArithCall? && Arg1Dest(x) == ToOperand && CodeAt(img, pc, Gen2(rt, x, x.arg1, x.arg2, cx), tg)
    ensures IsFixnumLiteral(x.arg2) && x.fn.Plus?
    ensures var g1, load := Gen(rt, x.arg1, ToOperand, cx), Plain(MovObj(EDX, x.arg2.w));
            CodeAt(img, pc + Size(g1), [load], tg) && Size(Gen2(rt, x, x.arg1, x.arg2, cx)) == Size(g1) + Len(load)
  {
    hide CodeAt, Gen, Size, Encode;
    var load := Plain(MovObj(EDX, x.arg2.w));
    Split(img, pc, Gen(rt, x.arg1, ToOperand, cx), [load], tg);
    SizePair(load, load);
  }

  lemma SimpleParts(img: Image, rt: Runtime, tg: map<Label, int>, x: Form, cx: Context, pc: int)
    requires IsCall(x) && !x.ArithCall? && Arg1Dest(x) == ToOperand && CodeAt(img, pc, Gen2(rt, x, x.arg1, x.arg2, cx), tg)
    ensures IsSimple(x.arg1) && IsSimple(x.arg2)
    ensures var g1, mov, g2 := Gen(rt, x.arg1, ToOperand, cx), Plain(Mov(EDX, EAX)), Gen(rt, x.arg2, ToOperand, Next(cx, x.arg1, ToOperand));
            && CodeAt(img, pc + Size(g1), [mov] + g2, tg)
            && CodeAt(img, pc + Size(g1) + Len(mov), g2, tg)
            && Size(Gen2(rt, x, x.arg1, x.arg2, cx)) == Size(g1) + Len(mov) + Size(g2)
  {
    hide CodeAt, Gen, Size, Encode, Next, MovObj, IsFixnumLiteral, Accepts, Count, Slots;
    var g1, mov, g2 := Gen(rt, x.arg1, ToOperand, cx), Plain(Mov(EDX, EAX)), Gen(rt, x.arg2, ToOperand, Next(cx, x.arg1, ToOperand));
    assert Gen2(rt, x, x.arg1, x.arg2, cx) == g1 + ([mov] + g2);
    Split(img, pc, g1, [mov] + g2, tg);
    Split1(img, pc + Size(g1), mov, g2, tg);
  }

  lemma StackedParts(img: Image, rt: Runtime, tg: map<Label, int>, x: Form, cx: Context, pc: int)
    requires IsCall(x) && Arg1Dest(x) == ToStack && CodeAt(img, pc, Gen2(rt, x, x.arg1, x.arg2, cx), tg)
    ensures var g1, g2 := Gen(rt, x.arg1, ToStack, cx), Gen(rt, x.arg2, ToOperand, Next(cx, x.arg1, ToStack));
            && CodeAt(img, pc + Size(g1), g2, tg)
            && CodeAt(img, pc + Size(g1) + Size(g2), Collect(x), tg)
            && Size(Gen2(rt, x, x.arg1, x.arg2, cx)) == Size(g1) + Size(g2) + Size(Collect(x))
  {
    hide CodeAt, Gen, Size, Encode;
    var g1, g2 := Gen(rt, x.arg1, ToStack, cx), Gen(rt, x.arg2, ToOperand, Next(cx, x.arg1, ToStack));
    assert Gen2(rt, x, x.arg1, x.arg2, cx) == g1 + (g2 + Collect(x));
    Split(img, pc, g1, g2 + Collect(x), tg);
    Split(img, pc + Size(g1), g2, Collect(x), tg);
  }

  lemma UnfoldNull(rt: Runtime, x: Form, dest: Dest, cx: Context)
    requires x.Null?
    ensures Gen(rt, x, dest, cx) == Gen(rt, x.arg, ToOperand, cx) + NullTail() + Target(dest)
    ensures Accepts(rt, x, dest, cx) == Accepts(rt, x.arg, ToOperand, cx)
    ensures forall q :: Count(x, dest, q) == Count(x.arg, ToOperand, q)
    ensures Slots(x) == Slots(x.arg)
  {
    hide NullTail, Target;
  }

  lemma NullParts(img: Image, rt: Runtime, fr: Frame, tg: map<Label, int>, x: Form, dest: Dest, cx: Context, pc: int, exact: bool)
    requires x.Null? && Compiled(img, rt, fr, tg, x, dest, cx, pc, exact)
    ensures var g := Gen(rt, x.arg, ToOperand, cx);
            && dest != ToZeroFlag
            && Compiled(img, rt, fr, tg, x.arg, ToOperand, cx, pc, exact)
            && CodeAt(img, pc + Size(g), NullTail() + Target(dest), tg)
            && CodeAt(img, pc + Size(g) + Size(NullTail()), Target(dest), tg)
            && Size(Gen(rt, x, dest, cx)) == Size(g) + Size(NullTail()) + Size(Target(dest))
  {
    hide CodeAt, Size, Gen, Accepts, Count, Slots, NullTail, Target;
    UnfoldNull(rt, x, dest, cx);
    var g := Gen(rt, x.arg, ToOperand, cx);
    assert g + NullTail() + Target(dest) == g + (NullTail() + Target(dest));
    Split(img, pc, g, NullTail() + Target(dest), tg);
    Split(img, pc + Size(g), NullTail(), Target(dest), tg);
  }

  lemma ConstantParts(img: Image, rt: Runtime, fr: Frame, tg: map<Label, int>, x: Form, dest: Dest, cx: Context, pc: int, exact: bool)
    requires (x.Lit? || x.SymLit? || x.NilForm?) && Compiled(img, rt, fr, tg, x, dest, cx, pc, exact)
    ensures dest != ToZeroFlag && CodeAt(img, pc, Gen(rt, x, dest, cx), tg)
    ensures Gen(rt, x, dest, cx) ==
              match x case Lit(w) => GenLit(w, dest) case SymLit(w, _) => GenSym(w, dest) case _ => GenNil(dest)
  {
    hide CodeAt, GenLit, GenSym, GenNil, Accepts, Count, Slots;
  }

  lemma VarParts(img: Image, rt: Runtime, fr: Frame, tg: map<Label, int>, x: Form, dest: Dest, cx: Context, pc: int, exact: bool)
    requires x.Var? && Compiled(img, rt, fr, tg, x, dest, cx, pc, exact)
    ensures dest != ToZeroFlag && CodeAt(img, pc, Gen(rt, x, dest, cx), tg)
    ensures Gen(rt, x, dest, cx) == GenVar(rt, x.name, dest, cx) && (FindLet(cx.recs, x.name) >= 0 || x.name in rt.vars)
  {
    hide CodeAt, GenVar, Count, Slots;
  }

  lemma PrognParts(img: Image, rt: Runtime, fr: Frame, tg: map<Label, int>, x: Form, dest: Dest, cx: Context, pc: int, exact: bool)
    requires x.Progn? && Compiled(img, rt, fr, tg, x, dest, cx, pc, exact)
    ensures CompiledForms(img, rt, fr, tg, x.body, dest, cx, pc, exact) && Gen(rt, x, dest, cx) == GenForms(rt, x.body, dest, cx)
  {
    hide CodeAt, GenForms, AcceptsForms, CountForms, SlotsForms;
  }

  lemma PrognCount(x: Form, dest: Dest, q: Misplaced)
    requires x.Progn?
    ensures Count(x, dest, q) == CountForms(x.body, dest, q)
  {
    hide CountForms, CountSeq, CountInits, CountChain, CountItems, TestDest, Arg1Dest;
  }

  lemma NoFormsCount(body: Forms, dest: Dest, q: Misplaced)
    requires body.NoForms?
    ensures CountForms(body, dest, q) == 0
  {
    hide Count, CountSeq;
  }
}
