/**
 Stack discipline.  In the code of every accepted form, each branch leaves with the stack depth that
 its target is compiled for, and each pending exit with the depth of its record.  It follows that
 ESP is at every step of every run, whether or not the run ends, where the compiler's index says.
 */
module StackDiscipline {
  import opened Options
  import opened Words
  import opened X86
  import opened Runtime
  import opened Machine
  import opened Lisp
  import opened CodeGen
  import opened Layout
  import opened Calls
  import opened Exits
  import opened Parts
  import opened Fitting
  import opened Program
  import opened Stages
  import opened Landings
  import opened StackIndex
  import opened Depths
  import opened BranchTargets

  /** The record's label exists, and the exit's depth is that of the record. */
  predicate LeavesFor(recs: seq<Rec>, l: Label, depth: int) {
    && l.rec < |recs| && !recs[l.rec].LetRec? && recs[l.rec].depth == depth
    && (if recs[l.rec].BlockRec? then l.tag == 0 else l.tag < |recs[l.rec].tags|)
  }

  /** Compiled with stack index si, each pending exit leaves with the depth of its record. */
  ghost predicate ExitsLevel(recs: seq<Rec>, si: int, c: Code) {
    forall k :: 0 <= k < |c| && c[k].Exit? ==> LeavesFor(recs, c[k].target, si + Depth(c, k))
  }

  ghost predicate Steady(recs: seq<Rec>, si: int, c: Code) {
    Even(c) && ExitsLevel(recs, si, c)
  }

  lemma ExitsConcat(recs: seq<Rec>, si: int, a: Code, b: Code)
    requires Tidy(a) && ExitsLevel(recs, si, a) && ExitsLevel(recs, si + Effect(a), b)
    ensures ExitsLevel(recs, si, a + b)
  {
    hide Depth, Effect, LeavesFor, Tidy;
    var c := a + b;
    forall k | 0 <= k < |c| && c[k].Exit?
      ensures LeavesFor(recs, c[k].target, si + Depth(c, k))
    {
      if k < |a| {
        DepthFront(a, b, k);
      } else {
        DepthBack(a, b, k - |a|);
      }
    }
  }

  lemma SteadyConcat(recs: seq<Rec>, si: int, a: Code, b: Code)
    requires Steady(recs, si, a) && Steady(recs, si + Effect(a), b)
    ensures Steady(recs, si, a + b)
  {
    hide Even, Effect, ExitsLevel, Tidy;
    EvenConcat(a, b);
    EvenTidy(a);
    ExitsConcat(recs, si, a, b);
  }

  lemma SteadyPlain(recs: seq<Rec>, si: int, c: Code)
    requires Even(c) && NoExits(c)
    ensures Steady(recs, si, c)
  {
    hide Even, Depth, LeavesFor;
  }

  /** Code in front of which ESP does not move in all, and code after it that may not exit. */
  lemma SteadyThen(recs: seq<Rec>, si: int, a: Code, b: Code)
    requires Steady(recs, si, a) && Even(b) && NoExits(b)
    ensures Steady(recs, si, a + b)
  {
    hide Steady, NoExits, Even, Effect;
    SteadyPlain(recs, si + Effect(a), b);
    SteadyConcat(recs, si, a, b);
  }

  lemma SteadyEven(recs: seq<Rec>, si: int, c: Code)
    requires Steady(recs, si, c)
    ensures Even(c) && Tidy(c)
  {
    hide Even, ExitsLevel, Tidy;
    EvenTidy(c);
  }

  // ----- code without exits -----

  lemma AtomNoExits(rt: Runtime, x: Form, dest: Dest, cx: Context)
    requires x.Lit? || x.SymLit? || x.NilForm? || x.Var?
    ensures NoExits(Gen(rt, x, dest, cx))
  {
    hide Gen, UnboundCall, Size, FindLet;
    AtomCode(rt, x, dest, cx);
    if x.Var? && x.name in rt.vars {
      UnboundNoExits(rt, rt.vars[x.name]);
    }
  }

  lemma UnboundNoExits(rt: Runtime, e: VarEntry)
    ensures NoExits(UnboundCall(rt, e))
  {
  }

  lemma SmallNoExits(rt: Runtime, n: Name, cx: Context, dest: Dest, test: Form)
    ensures NoExits(Target(dest)) && NoExits(PushIfStack(dest)) && NoExits(GenNil(dest)) && NoExits(GenAssign(rt, n, cx)) && NoExits(TestCompare(test))
  {
    hide FindLet;
  }

  lemma TailNoExits(rt: Runtime, x: Form, dest: Dest, check: bool)
    requires IsCall(x)
    ensures NoExits(CallTail(rt, x, dest, check))
  {
    hide TagTests, PredicateCall, NeedsTest, Arg1Dest, ArithTail, PredicateTail, EqualFlagTail, Target;
    SmallNoExits(rt, "", Start(check), dest, x);
    PiecesNoExits(rt, check);
  }

  lemma PiecesNoExits(rt: Runtime, check: bool)
    ensures forall fn, al, dl :: NoExits(ArithTail(rt, fn, al, dl))
    ensures forall r, cc, al, dl :: NoExits(PredicateTail(rt, r, cc, al, dl))
    ensures forall al, dl :: NoExits(EqualFlagTail(rt, al, dl))
  {
    hide PredicateCall, TagTests;
    assert forall al, dl, d :: NoExits(TagTests(al, dl, d)) by { TestsNoExits(); }
    assert forall r :: NoExits(PredicateCall(rt, r)) by { CallNoExits(rt); }
  }

  lemma TestsNoExits()
    ensures forall al, dl, d :: NoExits(TagTests(al, dl, d))
  {
  }

  lemma CallNoExits(rt: Runtime)
    ensures forall r :: NoExits(PredicateCall(rt, r))
  {
  }

  // ----- forms -----

  /** The form is accepted, and no GO in it is compiled for the stack: the compiler's final check stays silent. */
  predicate Ready(rt: Runtime, x: Form, dest: Dest, cx: Context) {
    Accepts(rt, x, dest, cx) && Serves(x, dest) && Count(x, dest, StackGo) == 0
  }

  lemma ReadyFacts(rt: Runtime, x: Form, dest: Dest, cx: Context)
    requires Ready(rt, x, dest, cx)
    ensures Effect(Gen(rt, x, dest, cx)) == Pushed(dest) && Next(cx, x, dest).si == cx.si + Pushed(dest) && Next(cx, x, dest).recs == cx.recs
  {
    hide Effect, Gen, Accepts, Count, Slots;
    EffectForm(rt, x, dest, cx);
  }

  /**
   For every accepted form, whatever its destination: each branch in its code leaves with the depth
   of the item it leads to, and each pending exit with the depth of its record.
   */
  lemma {:induction false} SteadyForm(rt: Runtime, x: Form, dest: Dest, cx: Context)
    requires Ready(rt, x, dest, cx)
    ensures Steady(cx.recs, cx.si, Gen(rt, x, dest, cx))
    decreases x, 3
  {
    hide Gen, Accepts, Count, Slots, Next, Steady, Even, NoExits;
    match x
    case Lit(_) => SteadyAtom(rt, x, dest, cx);
    case SymLit(_, _) => SteadyAtom(rt, x, dest, cx);
    case NilForm => SteadyAtom(rt, x, dest, cx);
    case Var(_) => SteadyAtom(rt, x, dest, cx);
    case Setq(pairs) =>
      UnfoldSetq(rt, x, dest, cx);
      EvenNil(dest);
      SmallNoExits(rt, "", cx, dest, x);
      if pairs.NoBinds? {
        SteadyPlain(cx.recs, cx.si, GenNil(dest));
      } else {
        SteadySetq(rt, pairs, cx);
        SteadyThen(cx.recs, cx.si, GenSetq(rt, pairs, cx), Target(dest));
      }
    case Progn(body) =>
      PrognUnfold(rt, x, dest, cx);
      SteadyForms(rt, body, dest, cx);
    case If(_, _) => SteadyIf(rt, x, dest, cx);
    case IfElse(_, _, _) => SteadyIfElse(rt, x, dest, cx);
    case Let(_, _) => SteadyLet(rt, x, dest, cx);
    case LetStar(chain) =>
      UnfoldLetStar(rt, x, dest, cx);
      SteadyChain(rt, chain, cx);
      EvenNil(dest);
      SmallNoExits(rt, "", cx, dest, x);
      SteadyThen(cx.recs, cx.si, GenChain(rt, chain, cx), PushIfStack(dest));
    case Block(_, _) => SteadyBlock(rt, x, dest, cx);
    case ReturnFrom(_, _) => SteadyReturn(rt, x, dest, cx);
    case Tagbody(_) => SteadyTagbody(rt, x, dest, cx);
    case Go(_) => SteadyGo(rt, x, dest, cx);
    case Null(arg) => SteadyNull(rt, x, dest, cx);
    case _ => SteadyCall(rt, x, dest, cx);
  }

  lemma SteadyAtom(rt: Runtime, x: Form, dest: Dest, cx: Context)
    requires x.Lit? || x.SymLit? || x.NilForm? || x.Var?
    ensures Steady(cx.recs, cx.si, Gen(rt, x, dest, cx))
  {
    hide Gen, Even, NoExits, Steady;
    EvenAtom(rt, x, dest, cx);
    AtomNoExits(rt, x, dest, cx);
    SteadyPlain(cx.recs, cx.si, Gen(rt, x, dest, cx));
  }

  lemma InitsCount(b: Binds)
    requires b.Binds?
    ensures CountInits(b, StackGo) == Count(b.init, ToOperand, StackGo) + CountInits(b.rest, StackGo)
  {
    hide Count;
  }

  lemma {:induction false} SteadySetq(rt: Runtime, b: Binds, cx: Context)
    requires AcceptsSetq(rt, b, cx) && CountInits(b, StackGo) == 0
    ensures Steady(cx.recs, cx.si, GenSetq(rt, b, cx))
    decreases b, 0
  {
    hide Effect, Gen, GenSetq, GenAssign, Accepts, AcceptsSetq, Count, CountInits, Slots, SlotsSetq, Next, TypedFixnum, TypedFixnumBinds, FindLet, Steady, Even, NoExits;
    if b.NoBinds? {
      EndedSetq(rt, b, cx);
      SteadyNothing(cx.recs, cx.si);
    } else {
      UnfoldSetqPair(rt, b, cx);
      InitsCount(b);
      var cx1 := Next(cx, b.init, ToOperand);
      ReadyFacts(rt, b.init, ToOperand, cx);
      SteadyForm(rt, b.init, ToOperand, cx);
      EvenAssign(rt, b.name, cx1);
      SmallNoExits(rt, b.name, cx1, ToEax, b.init);
      SteadySetq(rt, b.rest, cx1);
      var g, a := Gen(rt, b.init, ToOperand, cx), GenAssign(rt, b.name, cx1);
      SteadyThen(cx.recs, cx.si, g, a);
      EffectAssign(rt, b.name, cx1);
      EffectConcat(g, a);
      SteadyConcat(cx.recs, cx.si, g + a, GenSetq(rt, b.rest, cx1));
    }
  }

  lemma SteadyNothing(recs: seq<Rec>, si: int)
    ensures Steady(recs, si, [])
  {
  }

  lemma {:induction false} SteadyForms(rt: Runtime, body: Forms, dest: Dest, cx: Context)
    requires AcceptsForms(rt, body, dest, cx) && dest != ToZeroFlag && CountForms(body, dest, StackGo) == 0
    ensures Steady(cx.recs, cx.si, GenForms(rt, body, dest, cx))
    decreases body, 1
  {
    hide Effect, Gen, GenForms, GenSeq, Accepts, AcceptsForms, AcceptsSeq, Count, CountForms, CountSeq, Slots, SlotsForms, Next, TypedFixnum, TypedFixnumForms,
         Steady, Even, NoExits;
    UnfoldForms(rt, body, dest, cx);
    EvenNil(dest);
    SmallNoExits(rt, "", cx, dest, NilForm);
    if body.NoForms? {
      SteadyPlain(cx.recs, cx.si, GenNil(dest));
    } else if body.tail.NoForms? {
      OneFormCount(body, dest);
      SteadyForm(rt, body.head, dest, cx);
    } else {
      SteadySeq(rt, body, cx);
      SteadyThen(cx.recs, cx.si, GenSeq(rt, body, cx), PushIfStack(dest));
    }
  }

  lemma OneFormCount(body: Forms, dest: Dest)
    requires body.Forms? && body.tail.NoForms?
    ensures CountForms(body, dest, StackGo) == Count(body.head, dest, StackGo)
  {
    hide Count;
  }

  lemma SeqCount(body: Forms)
    requires body.Forms?
    ensures CountSeq(body, StackGo) == Count(body.head, ToEax, StackGo) + CountSeq(body.tail, StackGo)
  {
    hide Count;
  }

  lemma {:induction false} SteadySeq(rt: Runtime, body: Forms, cx: Context)
    requires AcceptsSeq(rt, body, cx) && CountSeq(body, StackGo) == 0
    ensures Steady(cx.recs, cx.si, GenSeq(rt, body, cx))
    decreases body, 0
  {
    hide Effect, Gen, GenSeq, Accepts, AcceptsSeq, Count, CountSeq, Slots, SlotsForms, Next, TypedFixnum, TypedFixnumForms, Steady;
    if body.NoForms? {
      EndedSeq(rt, body, cx);
      SteadyNothing(cx.recs, cx.si);
    } else {
      UnfoldSeq(rt, body, cx);
      SeqCount(body);
      var cx1 := Next(cx, body.head, ToEax);
      ReadyFacts(rt, body.head, ToEax, cx);
      SteadyForm(rt, body.head, ToEax, cx);
      SteadySeq(rt, body.tail, cx1);
      SteadyConcat(cx.recs, cx.si, Gen(rt, body.head, ToEax, cx), GenSeq(rt, body.tail, cx1));
    }
  }

  /** An initial value and its store. */
  lemma {:induction false} SteadyInit(rt: Runtime, x: Form, cx: Context)
    requires Accepts(rt, x, ToOperand, cx.(env := cx.env + 4)) && Count(x, ToOperand, StackGo) == 0
    ensures Steady(cx.recs, cx.si, InitCode(rt, x, cx)) && Effect(InitCode(rt, x, cx)) == 0
    ensures Next(cx.(env := cx.env + 4), x, ToOperand).si == cx.si && Next(cx.(env := cx.env + 4), x, ToOperand).recs == cx.recs
    decreases x, 4
  {
    hide Effect, Gen, Accepts, Count, Slots, Next, Steady, Even;
    var cx1 := cx.(env := cx.env + 4);
    var g, store := Gen(rt, x, ToOperand, cx1), [Plain(Store(EBP, SlotOffset(cx.env)))];
    ReadyFacts(rt, x, ToOperand, cx1);
    SteadyForm(rt, x, ToOperand, cx1);
    EvenStraight(store);
    SteadyThen(cx.recs, cx.si, g, store);
    EffectOne(store[0]);
    EffectConcat(g, store);
  }

  lemma {:induction false} SteadyInits(rt: Runtime, b: Binds, cx: Context)
    requires AcceptsInits(rt, b, cx) && CountInits(b, StackGo) == 0
    ensures Steady(cx.recs, cx.si, GenInits(rt, b, cx))
    decreases b, 0
  {
    hide Effect, Gen, GenInits, Accepts, AcceptsInits, Count, CountInits, Slots, SlotsInits, Next, InitCode, LetRecs, Steady;
    if b.NoBinds? {
      EndedInits(rt, b, cx);
      SteadyNothing(cx.recs, cx.si);
    } else {
      UnfoldInit(rt, b, cx);
      InitsCount(b);
      var cx1 := Next(cx.(env := cx.env + 4), b.init, ToOperand);
      SteadyInit(rt, b.init, cx);
      SteadyInits(rt, b.rest, cx1);
      SteadyConcat(cx.recs, cx.si, InitCode(rt, b.init, cx), GenInits(rt, b.rest, cx1));
    }
  }

  /** Records of variables on top make no difference to the exits. */
  lemma SteadyUnder(recs: seq<Rec>, lets: seq<Rec>, si: int, c: Code)
    requires Steady(recs + lets, si, c) && forall i :: 0 <= i < |lets| ==> lets[i].LetRec?
    ensures Steady(recs, si, c)
  {
    hide Even, Depth;
  }

  lemma ChainCount(b: Chain)
    ensures CountChain(b, StackGo) == if b.Body? then CountForms(b.body, ToEax, StackGo) else Count(b.init, ToOperand, StackGo) + CountChain(b.rest, StackGo)
  {
    hide Count, CountForms;
  }

  lemma {:induction false} SteadyChain(rt: Runtime, b: Chain, cx: Context)
    requires AcceptsChain(rt, b, cx) && CountChain(b, StackGo) == 0
    ensures Steady(cx.recs, cx.si, GenChain(rt, b, cx))
    decreases b, 0
  {
    hide Effect, Gen, GenChain, GenForms, Accepts, AcceptsChain, AcceptsForms, Count, CountChain, CountForms, Slots, SlotsChain, SlotsForms, Next, InitCode,
         TypedFixnumChain, TypedFixnumForms, Steady;
    UnfoldChain(rt, b, cx);
    ChainCount(b);
    match b
    case Body(body) => SteadyForms(rt, body, ToEax, cx);
    case Bind(n, x, rest) =>
      var inner := BindContext(cx, n, x);
      SteadyInit(rt, x, cx);
      SteadyChain(rt, rest, inner);
      SteadyUnder(cx.recs, [LetRec(n, SlotOffset(cx.env))], cx.si, GenChain(rt, rest, inner));
      SteadyConcat(cx.recs, cx.si, InitCode(rt, x, cx), GenChain(rt, rest, inner));
  }

  lemma {:induction false} SteadyLet(rt: Runtime, x: Form, dest: Dest, cx: Context)
    requires x.Let? && Ready(rt, x, dest, cx)
    ensures Steady(cx.recs, cx.si, Gen(rt, x, dest, cx))
    decreases x, 2
  {
    hide Effect, Gen, GenInits, GenForms, Accepts, AcceptsInits, AcceptsForms, Count, CountInits, CountForms, Slots, Next, Steady, Even, NoExits, LetRecs;
    UnfoldLet(rt, x, dest, cx);
    var inner := LetContext(cx, x.binds);
    var g, b := GenInits(rt, x.binds, cx), GenForms(rt, x.body, ToEax, inner);
    SteadyInits(rt, x.binds, cx);
    EffectInits(rt, x.binds, cx);
    SteadyForms(rt, x.body, ToEax, inner);
    SteadyUnder(cx.recs, LetRecs(x.binds, cx.env), cx.si, b);
    SteadyConcat(cx.recs, cx.si, g, b);
    EvenNil(dest);
    SmallNoExits(rt, "", cx, dest, x);
    SteadyThen(cx.recs, cx.si, g + b, PushIfStack(dest));
  }

  // ----- blocks, tags and exits -----

  /** Labels of record r. */
  function Labels(r: Rec): nat
    requires !r.LetRec?
  {
    if r.BlockRec? then 1 else |r.tags|
  }

  /** The targets of the innermost record's exits are items of depth zero. */
  ghost predicate TargetsLevel(c: Code, r: Rec, targets: seq<int>) {
    !r.LetRec? && |targets| == Labels(r) && forall t :: 0 <= t < |targets| ==> ArrivesAt(c, targets[t], 0)
  }

  /** Patching the branches of the innermost record. */
  lemma SteadySettled(recs: seq<Rec>, r: Rec, si: int, c: Code, targets: seq<int>)
    requires Steady(recs + [r], si, c) && TargetsLevel(c, r, targets) && r.depth == si
    ensures Steady(recs, si, SettleAll(c, 0, |recs|, targets))
  {
    hide Even, ExitsLevel, TargetsLevel, ExitsMeet, SettleAll;
    TargetsMeet(recs, r, si, c, targets);
    EvenSettled(c, |recs|, targets);
    TargetsKind(c, r, targets);
    ExitsSettled(recs, r, si, c, targets);
  }

  lemma TargetsKind(c: Code, r: Rec, targets: seq<int>)
    requires TargetsLevel(c, r, targets)
    ensures !r.LetRec? && |targets| == Labels(r)
  {
    hide ArrivesAt;
  }

  lemma TargetsMeet(recs: seq<Rec>, r: Rec, si: int, c: Code, targets: seq<int>)
    requires ExitsLevel(recs + [r], si, c) && TargetsLevel(c, r, targets) && r.depth == si
    ensures ExitsMeet(c, |recs|, targets)
  {
    hide Depth, ArrivesAt;
    forall k | 0 <= k < |c| && c[k].Exit? && c[k].target.rec == |recs| && c[k].target.tag < |targets|
      ensures ArrivesAt(c, targets[c[k].target.tag], Depth(c, k))
    {
      assert LeavesFor(recs + [r], c[k].target, si + Depth(c, k));
      assert (recs + [r])[|recs|] == r;
    }
  }

  lemma ExitsSettled(recs: seq<Rec>, r: Rec, si: int, c: Code, targets: seq<int>)
    requires ExitsLevel(recs + [r], si, c) && !r.LetRec? && |targets| == Labels(r)
    ensures ExitsLevel(recs, si, SettleAll(c, 0, |recs|, targets))
  {
    hide Depth, SettleAll, SettleItem;
    var s := SettleAll(c, 0, |recs|, targets);
    SettledDepth(c, 0, |recs|, targets, 0);
    forall k | 0 <= k < |s| && s[k].Exit?
      ensures LeavesFor(recs, s[k].target, si + Depth(s, k))
    {
      SettledAt(c, 0, |recs|, targets, k);
      SettledDepth(c, 0, |recs|, targets, k);
      StillPending(c[k], Size(c[..k]), |recs|, targets);
      var l := c[k].target;
      assert LeavesFor(recs + [r], l, si + Depth(c, k));
    }
  }

  lemma StillPending(it: Item, pos: int, rec: nat, targets: seq<int>)
    requires SettleItem(it, pos, rec, targets).Exit?
    ensures SettleItem(it, pos, rec, targets) == it && !(it.target.rec == rec && it.target.tag < |targets|)
  {
  }

  lemma {:induction false} SteadyBlock(rt: Runtime, x: Form, dest: Dest, cx: Context)
    requires x.Block? && Ready(rt, x, dest, cx)
    ensures Steady(cx.recs, cx.si, Gen(rt, x, dest, cx))
    decreases x, 2
  {
    hide Effect, Gen, GenForms, Accepts, AcceptsForms, Count, CountForms, Slots, Next, Size, SettleAll, Steady, Even, NoExits, ArrivesAt, Tidy;
    UnfoldBlock(rt, x, dest, cx);
    var inner := BlockContext(cx, x.name);
    var b := GenForms(rt, x.body, ToEax, inner);
    SteadyForms(rt, x.body, ToEax, inner);
    EffectForms(rt, x.body, ToEax, inner);
    SteadyEven(inner.recs, cx.si, b);
    ArrivesEnd(b);
    SteadySettled(cx.recs, BlockRec(x.name, cx.si), cx.si, b, [Size(b)]);
    EvenNil(dest);
    SmallNoExits(rt, "", cx, dest, x);
    SteadyThen(cx.recs, cx.si, SettleAll(b, 0, |cx.recs|, [Size(b)]), PushIfStack(dest));
  }

  /** The adjustment and the jump: from stack index si, the jump leaves with the depth si - diff. */
  lemma SteadyExit(recs: seq<Rec>, si: int, diff: int, l: Label)
    requires diff >= 0 && LeavesFor(recs, l, si - diff)
    ensures Steady(recs, si, Adjust(diff) + [Exit(l)])
  {
    hide Size, ArrivesAt, LeavesFor;
    var c := Adjust(diff) + [Exit(l)];
    EffectNothing();
    assert c[..0] == [];
    if diff > 0 {
      assert TidyAt(c, 0) && TidyAt(c, 1);
      assert c[..1] == [I(AddEsp(diff), PutBack)];
      EffectOne(I(AddEsp(diff), PutBack));
      assert Depth(c, 1) == -diff;
    } else {
      assert TidyAt(c, 0);
    }
  }

  lemma {:induction false} SteadyReturn(rt: Runtime, x: Form, dest: Dest, cx: Context)
    requires x.ReturnFrom? && Ready(rt, x, dest, cx)
    ensures Steady(cx.recs, cx.si, Gen(rt, x, dest, cx))
    decreases x, 2
  {
    hide Effect, Gen, Accepts, Count, Slots, Next, Adjust, FindBlock, Steady;
    UnfoldReturn(rt, x, dest, cx);
    var k := FindBlock(cx.recs, x.name);
    var diff := Next(cx, x.value, dest).si - cx.recs[k].depth;
    var g, a, e := Gen(rt, x.value, dest, cx), Adjust(diff), [Exit(Label(k, 0))];
    SteadyForm(rt, x.value, dest, cx);
    ReadyFacts(rt, x.value, dest, cx);
    SteadyExit(cx.recs, cx.si + Effect(g), diff, Label(k, 0));
    SteadyConcat(cx.recs, cx.si, g, a + e);
    assert g + (a + e) == g + a + e;
  }

  lemma SteadyGo(rt: Runtime, x: Form, dest: Dest, cx: Context)
    requires x.Go? && Ready(rt, x, dest, cx)
    ensures Steady(cx.recs, cx.si, Gen(rt, x, dest, cx))
  {
    hide Adjust, FindTags, IndexOf, Steady;
    var k := FindTags(cx.recs, x.tag);
    SteadyExit(cx.recs, cx.si, cx.si - cx.recs[k].depth, Label(k, IndexOf(cx.recs[k].tags, x.tag)));
  }

  lemma ItemsCount(items: Items)
    ensures CountItems(items, StackGo) == match items
                                          case NoItems => 0
                                          case Tag(_, rest) => CountItems(rest, StackGo)
                                          case Stmt(x, rest) => Count(x, ToEax, StackGo) + CountItems(rest, StackGo)
  {
    hide Count;
  }

  /** The statements, and where each tag stands: nothing is on the stack there. */
  lemma {:induction false} SteadyItems(rt: Runtime, items: Items, cx: Context)
    requires AcceptsItems(rt, items, cx) && CountItems(items, StackGo) == 0
    ensures Steady(cx.recs, cx.si, GenItems(rt, items, cx))
    decreases items, 0
  {
    hide Effect, Gen, GenItems, Accepts, AcceptsItems, Count, CountItems, Slots, SlotsItems, Next, TagOffsets, Steady;
    ItemsCount(items);
    match items
    case NoItems =>
      EndedItems(rt, items, cx, 0);
      SteadyNothing(cx.recs, cx.si);
    case Tag(_, rest) =>
      UnfoldTag(rt, items, cx);
      SteadyItems(rt, rest, cx);
    case Stmt(x, rest) =>
      UnfoldStmt(rt, items, cx);
      var cx1 := Next(cx, x, ToEax);
      ReadyFacts(rt, x, ToEax, cx);
      SteadyForm(rt, x, ToEax, cx);
      SteadyItems(rt, rest, cx1);
      SteadyConcat(cx.recs, cx.si, Gen(rt, x, ToEax, cx), GenItems(rt, rest, cx1));
  }

  lemma {:induction false} TagArrives(rt: Runtime, items: Items, cx: Context, pre: Code, i: nat)
    requires AcceptsItems(rt, items, cx) && CountItems(items, StackGo) == 0 && Tidy(pre) && Effect(pre) == 0
    requires i < |TagOffsets(rt, items, cx, Size(pre))|
    ensures ArrivesAt(pre + GenItems(rt, items, cx), TagOffsets(rt, items, cx, Size(pre))[i], 0)
    decreases items
  {
    hide ArrivesAt, Size, Gen, Next, Effect, Tidy, Accepts, Count, CountItems;
    ItemsCount(items);
    match items
    case NoItems =>
    case Tag(_, rest) =>
      if i == 0 {
        ArrivesBetween(pre, GenItems(rt, items, cx));
      } else {
        TagArrives(rt, rest, cx, pre, i - 1);
      }
    case Stmt(x, rest) =>
      var g, cx1 := Gen(rt, x, ToEax, cx), Next(cx, x, ToEax);
      SizeConcat(pre, g);
      AfterStatement(rt, x, cx, pre);
      TagArrives(rt, rest, cx1, pre + g, i);
      assert pre + g + GenItems(rt, rest, cx1) == pre + GenItems(rt, items, cx);
  }

  lemma AfterStatement(rt: Runtime, x: Form, cx: Context, pre: Code)
    requires Ready(rt, x, ToEax, cx) && Tidy(pre) && Effect(pre) == 0
    ensures Tidy(pre + Gen(rt, x, ToEax, cx)) && Effect(pre + Gen(rt, x, ToEax, cx)) == 0
    decreases x, 4
  {
    hide Tidy, Effect, Steady, Gen, Ready;
    var g := Gen(rt, x, ToEax, cx);
    SteadyForm(rt, x, ToEax, cx);
    SteadyEven(cx.recs, cx.si, g);
    ReadyFacts(rt, x, ToEax, cx);
    TidyConcat(pre, g);
    EffectConcat(pre, g);
  }

  lemma {:induction false} SteadyTagbody(rt: Runtime, x: Form, dest: Dest, cx: Context)
    requires x.Tagbody? && Ready(rt, x, dest, cx)
    ensures Steady(cx.recs, cx.si, Gen(rt, x, dest, cx))
    decreases x, 2
  {
    hide Effect, Gen, GenItems, Accepts, AcceptsItems, Count, CountItems, Slots, Next, SettleAll, TagbodyPre, TagbodyTargets, HasStmt, Steady, Even, NoExits;
    UnfoldTagbody(rt, x, dest, cx);
    EvenNil(dest);
    SmallNoExits(rt, "", cx, dest, x);
    if HasStmt(x.items) {
      var inner := TagsContext(cx, x.items);
      var pre, g, targets := TagbodyPre(x.items), GenItems(rt, x.items, inner), TagbodyTargets(rt, x.items, inner);
      SteadyItems(rt, x.items, inner);
      TagbodyInside(rt, x, cx);
      SteadySettled(cx.recs, TagsRec(TagNames(x.items), cx.si), cx.si, pre + g + GenNil(ToEax), targets);
      SteadyThen(cx.recs, cx.si, SettleAll(pre + g + GenNil(ToEax), 0, |cx.recs|, targets), PushIfStack(dest));
    } else {
      SteadyPlain(cx.recs, cx.si, GenNil(dest));
    }
  }

  lemma EvenPre(items: Items)
    ensures Even(TagbodyPre(items)) && NoExits(TagbodyPre(items)) && Effect(TagbodyPre(items)) == 0
  {
    hide Even, Effect;
    EvenNil(ToEax);
    EvenStraight([]);
    EffectPre(items);
  }

  /** The code of a tagbody before its branches are patched, and its tags. */
  lemma {:induction false} TagbodyInside(rt: Runtime, x: Form, cx: Context)
    requires x.Tagbody? && AcceptsItems(rt, x.items, TagsContext(cx, x.items)) && CountItems(x.items, StackGo) == 0
    requires Steady(TagsContext(cx, x.items).recs, cx.si, GenItems(rt, x.items, TagsContext(cx, x.items)))
    ensures var inner := TagsContext(cx, x.items);
            var c := TagbodyPre(x.items) + GenItems(rt, x.items, inner) + GenNil(ToEax);
            Steady(inner.recs, cx.si, c) && TargetsLevel(c, TagsRec(TagNames(x.items), cx.si), TagbodyTargets(rt, x.items, inner))
    decreases x, 1
  {
    hide Effect, Gen, GenItems, AcceptsItems, CountItems, TagbodyPre, Steady, Even, NoExits, ArrivesAt, Tidy, TagOffsets, Size;
    var inner := TagsContext(cx, x.items);
    var pre, g, targets := TagbodyPre(x.items), GenItems(rt, x.items, inner), TagbodyTargets(rt, x.items, inner);
    EvenPre(x.items);
    SteadyPlain(inner.recs, cx.si, pre);
    SteadyEven(inner.recs, cx.si, pre);
    SteadyConcat(inner.recs, cx.si, pre, g);
    EvenNil(ToEax);
    SmallNoExits(rt, "", cx, ToEax, x);
    SteadyThen(inner.recs, cx.si, pre + g, GenNil(ToEax));
    TagOffsetsLength(rt, x.items, inner, Size(pre));
    forall t | 0 <= t < |targets|
      ensures ArrivesAt(pre + g + GenNil(ToEax), targets[t], 0)
    {
      TagArrives(rt, x.items, inner, pre, t);
      ArrivesWithin(pre + g, GenNil(ToEax), targets[t], 0);
    }
  }

  // ----- tests and calls -----

  lemma TestReady(rt: Runtime, test: Form, hasElse: bool, cx: Context)
    requires Accepts(rt, test, TestDest(test, hasElse), cx) && Count(test, TestDest(test, hasElse), StackGo) == 0
    ensures Ready(rt, test, TestDest(test, hasElse), cx) && Pushed(TestDest(test, hasElse)) == 0
  {
    hide Accepts, Count;
  }

  /** A test with its comparison. */
  lemma {:induction false} SteadyTest(rt: Runtime, test: Form, hasElse: bool, cx: Context)
    requires Accepts(rt, test, TestDest(test, hasElse), cx) && Count(test, TestDest(test, hasElse), StackGo) == 0
    ensures var g := Gen(rt, test, TestDest(test, hasElse), cx) + TestCompare(test);
            Steady(cx.recs, cx.si, g) && Effect(g) == 0
    ensures Next(cx, test, TestDest(test, hasElse)).si == cx.si && Next(cx, test, TestDest(test, hasElse)).recs == cx.recs
    decreases test, 4
  {
    hide Effect, Gen, Accepts, Count, Slots, Next, TestDest, TestCompare, Steady, Even, NoExits;
    var dt := TestDest(test, hasElse);
    TestReady(rt, test, hasElse, cx);
    SteadyForm(rt, test, dt, cx);
    ReadyFacts(rt, test, dt, cx);
    EvenCompare(test);
    SmallNoExits(rt, "", cx, dt, test);
    SteadyThen(cx.recs, cx.si, Gen(rt, test, dt, cx), TestCompare(test));
    EffectCompare(test);
    EffectConcat(Gen(rt, test, dt, cx), TestCompare(test));
  }

  lemma EvenCompare(test: Form)
    ensures Even(TestCompare(test))
  {
    hide Even;
    EvenStraight(TestCompare(test));
  }

  /** A branch between two pieces of code that leave ESP where it was. */
  lemma ExitsAround(recs: seq<Rec>, si: int, a: Code, j: Item, b: Code)
    requires Branch(j).Some? && !Drops(j) && Tidy(a) && Effect(a) == 0 && Tidy(b) && Effect(b) == 0
    requires ExitsLevel(recs, si, a) && ExitsLevel(recs, si, b)
    ensures ExitsLevel(recs, si, a + [j] + b) && Tidy(a + [j] + b) && Effect(a + [j] + b) == 0
  {
    hide Tidy, Effect, Depth, LeavesFor;
    OneTidy(j);
    EffectOne(j);
    BranchEffect(j);
    TidyConcat(a, [j]);
    TidyConcat(a + [j], b);
    EffectThree(a, [j], b);
    EffectConcat(a, [j]);
    ExitsConcat(recs, si, a, [j]);
    ExitsConcat(recs, si, a + [j], b);
  }

  lemma ExitsPush(recs: seq<Rec>, si: int, a: Code, dest: Dest)
    requires Tidy(a) && ExitsLevel(recs, si, a)
    ensures ExitsLevel(recs, si, a + PushIfStack(dest))
  {
    hide Tidy, Effect, Depth, LeavesFor;
    ExitsConcat(recs, si, a, PushIfStack(dest));
  }

  lemma SteadyIfCode(recs: seq<Rec>, si: int, test: Code, thn: Code, dest: Dest)
    requires Steady(recs, si, test) && Steady(recs, si, thn) && Effect(test) == 0 && Effect(thn) == 0
    ensures Steady(recs, si, IfCode(test, thn, dest))
  {
    hide Even, Effect, ExitsLevel, Tidy, Size;
    var j := Plain(Jcc32(E, Size(thn)));
    EvenIfCode(test, thn, dest);
    EvenTidy(test);
    EvenTidy(thn);
    ExitsAround(recs, si, test, j, thn);
    ExitsPush(recs, si, test + [j] + thn, dest);
  }

  lemma SteadyIfElseCode(recs: seq<Rec>, si: int, test: Code, cc: Cond, thn: Code, els: Code, dest: Dest)
    requires Steady(recs, si, test) && Steady(recs, si, thn) && Steady(recs, si, els) && Effect(test) == 0 && Effect(thn) == 0 && Effect(els) == 0
    ensures Steady(recs, si, IfElseCode(test, cc, thn, els, dest))
  {
    hide Even, Effect, ExitsLevel, Tidy, Size;
    var j, over := Plain(Jcc32(cc, Size(thn) + 5)), Plain(Jmp32(Size(els)));
    EvenIfElseCode(test, cc, thn, els, dest);
    EvenTidy(test);
    EvenTidy(thn);
    EvenTidy(els);
    ExitsAround(recs, si, test, j, thn);
    ExitsAround(recs, si, test + [j] + thn, over, els);
    ExitsPush(recs, si, test + [j] + thn + [over] + els, dest);
  }

  lemma {:induction false} SteadyIf(rt: Runtime, x: Form, dest: Dest, cx: Context)
    requires x.If? && Ready(rt, x, dest, cx)
    ensures Steady(cx.recs, cx.si, Gen(rt, x, dest, cx))
    decreases x, 2
  {
    hide Effect, Gen, Accepts, Count, Slots, Next, TestDest, TestCompare, IfCode, IfElseCode, Steady, Even, NoExits;
    UnfoldIf(rt, x, dest, cx);
    UnfoldIfAccepts(rt, x, dest, cx);
    var hasElse := x.test.NumEqual?;
    var dt := TestDest(x.test, hasElse);
    var cx1 := Next(cx, x.test, dt);
    var test, thn := Gen(rt, x.test, dt, cx) + TestCompare(x.test), Gen(rt, x.thn, ToEax, cx1);
    SteadyTest(rt, x.test, hasElse, cx);
    SteadyForm(rt, x.thn, ToEax, cx1);
    ReadyFacts(rt, x.thn, ToEax, cx1);
    if hasElse {
      EvenNil(ToEax);
      SmallNoExits(rt, "", cx, ToEax, x);
      SteadyPlain(cx.recs, cx.si, GenNil(ToEax));
      EffectTargets(ToEax);
      SteadyIfElseCode(cx.recs, cx.si, test, NE, thn, GenNil(ToEax), dest);
    } else {
      SteadyIfCode(cx.recs, cx.si, test, thn, dest);
    }
  }

  lemma {:induction false} SteadyIfElse(rt: Runtime, x: Form, dest: Dest, cx: Context)
    requires x.IfElse? && Ready(rt, x, dest, cx)
    ensures Steady(cx.recs, cx.si, Gen(rt, x, dest, cx))
    decreases x, 2
  {
    hide Effect, Gen, Accepts, Count, Slots, Next, TestDest, TestCompare, IfElseCode, Steady, Even, NoExits;
    UnfoldIfElse(rt, x, dest, cx);
    IfElseAccepts(rt, x, dest, cx);
    var dt := TestDest(x.test, true);
    var cx1 := Next(cx, x.test, dt);
    var cx2 := Next(cx1, x.thn, ToEax);
    SteadyTest(rt, x.test, true, cx);
    SteadyForm(rt, x.thn, ToEax, cx1);
    ReadyFacts(rt, x.thn, ToEax, cx1);
    SteadyForm(rt, x.els, ToEax, cx2);
    ReadyFacts(rt, x.els, ToEax, cx2);
    SteadyIfElseCode(cx.recs, cx.si, Gen(rt, x.test, dt, cx) + TestCompare(x.test), TestCond(x.test), Gen(rt, x.thn, ToEax, cx1), Gen(rt, x.els, ToEax, cx2), dest);
  }

  lemma {:induction false} SteadyNull(rt: Runtime, x: Form, dest: Dest, cx: Context)
    requires x.Null? && Ready(rt, x, dest, cx)
    ensures Steady(cx.recs, cx.si, Gen(rt, x, dest, cx))
    decreases x, 2
  {
    hide Effect, Gen, Accepts, Count, Slots, Steady, Even, NoExits, Target;
    UnfoldNull(rt, x, dest, cx);
    SteadyForm(rt, x.arg, ToOperand, cx);
    EvenPlainSelect(CmpMem(ESI, 0), NE);
    NullNoExits();
    SteadyThen(cx.recs, cx.si, Gen(rt, x.arg, ToOperand, cx), NullTail());
    EvenNil(dest);
    SmallNoExits(rt, "", cx, dest, x);
    SteadyThen(cx.recs, cx.si, Gen(rt, x.arg, ToOperand, cx) + NullTail(), Target(dest));
  }

  lemma NullNoExits()
    ensures NoExits(NullTail())
  {
  }

  lemma {:induction false} SteadyCall(rt: Runtime, x: Form, dest: Dest, cx: Context)
    requires IsCall(x) && Ready(rt, x, dest, cx)
    ensures Steady(cx.recs, cx.si, Gen(rt, x, dest, cx))
    decreases x, 2
  {
    hide Effect, Gen, Gen2, Ready, Accepts, Count, Slots, Next, CallTail, Arg1Dest, Steady, Even, NoExits;
    UnfoldCallGen(rt, x, dest, cx);
    ArgumentsReady(rt, x, dest, cx);
    var d1 := Arg1Dest(x);
    var cx1 := Next(cx, x.arg1, d1);
    SteadyForm(rt, x.arg1, d1, cx);
    ReadyFacts(rt, x.arg1, d1, cx);
    SteadyForm(rt, x.arg2, ToOperand, cx1);
    SteadyBoth(rt, x, cx, Gen(rt, x.arg1, d1, cx), Gen(rt, x.arg2, ToOperand, cx1));
    EvenTail(rt, x, dest, cx.check);
    TailNoExits(rt, x, dest, cx.check);
    SteadyThen(cx.recs, cx.si, Gen2(rt, x, x.arg1, x.arg2, cx), CallTail(rt, x, dest, cx.check));
  }

  lemma ArgumentsReady(rt: Runtime, x: Form, dest: Dest, cx: Context)
    requires IsCall(x) && Ready(rt, x, dest, cx)
    ensures Ready(rt, x.arg1, Arg1Dest(x), cx) && Ready(rt, x.arg2, ToOperand, Next(cx, x.arg1, Arg1Dest(x)))
  {
    hide Accepts, Count, Next, Arg1Dest;
    UnfoldCallAccepts(rt, x, dest, cx);
    UnfoldCallGos(x, dest, StackGo);
    Arg1DestCases(x);
  }

  lemma SteadyBoth(rt: Runtime, x: Form, cx: Context, a: Code, b: Code)
    requires IsCall(x) && a == Gen(rt, x.arg1, Arg1Dest(x), cx) && b == Gen(rt, x.arg2, ToOperand, Next(cx, x.arg1, Arg1Dest(x)))
    requires Steady(cx.recs, cx.si, a) && Steady(cx.recs, cx.si + Effect(a), b)
    ensures Steady(cx.recs, cx.si, Gen2(rt, x, x.arg1, x.arg2, cx))
  {
    hide Effect, Gen, Gen2, Count, Next, Arg1Dest, Steady, Collect;
    Arg1DestCases(x);
    ArgumentsUnfold(rt, x, cx);
    SteadyBetween(x, cx.recs, cx.si, a, b);
  }

  lemma SteadyBetween(x: Form, recs: seq<Rec>, si: int, a: Code, b: Code)
    requires IsCall(x) && Steady(recs, si, a) && Steady(recs, si + Effect(a), b)
    ensures x.ArithCall? && Arg1Dest(x) == ToOperand ==> Steady(recs, si, a + [Plain(MovObj(EDX, x.arg2.w))])
    ensures Steady(recs, si, a + [Plain(Mov(EDX, EAX))] + b)
    ensures Steady(recs, si, a + b + Collect(x))
  {
    hide Effect, Steady, Even;
    var mov := [Plain(Mov(EDX, EAX))];
    MovesStraight(x);
    EvenStraight(mov);
    EvenStraight(Collect(x));
    SteadyThen(recs, si, a, mov);
    EffectOne(mov[0]);
    EffectConcat(a, mov);
    SteadyConcat(recs, si, a + mov, b);
    SteadyConcat(recs, si, a, b);
    SteadyThen(recs, si, a + b, Collect(x));
    if x.ArithCall? && Arg1Dest(x) == ToOperand {
      EvenStraight([Plain(MovObj(EDX, x.arg2.w))]);
      SteadyThen(recs, si, a, [Plain(MovObj(EDX, x.arg2.w))]);
    }
  }

  lemma MovesStraight(x: Form)
    requires IsCall(x)
    ensures Straight(Collect(x)) && NoExits(Collect(x)) && Straight([Plain(Mov(EDX, EAX))]) && NoExits([Plain(Mov(EDX, EAX))])
    ensures x.ArithCall? && Arg1Dest(x) == ToOperand ==> Straight([Plain(MovObj(EDX, x.arg2.w))]) && NoExits([Plain(MovObj(EDX, x.arg2.w))])
  {
  }
}
