/** Generated code of bounded size has only operands that survive encoding, and leaves no branch pending. */
module Fitting {
  import opened Words
  import opened X86
  import opened Runtime
  import opened Machine
  import opened Lisp
  import opened CodeGen
  import opened Steps
  import opened Tails
  import opened Layout
  import opened Calls
  import opened Exits
  import opened Parts
  import opened Encoding

  /** Bound on stack indices, frame sizes and branch distances; longs reach twice as far. */
  const REACH := 0x0800_0000

  /** A form of this size, with this many slots, keeps every offset within reach. */
  ghost predicate Room(cx: Context, size: int, slots: int) {
    && InReach(cx)
    && 0 <= cx.si && cx.si + 4 * size <= REACH && 0 <= size
    && 0 <= slots && cx.env + 4 * slots <= REACH
  }

  lemma RoomPart(cx: Context, cx1: Context, size: int, slots: int, size1: int, slots1: int)
    requires Room(cx, size, slots) && cx1.recs == cx.recs
    requires cx.si <= cx1.si && cx1.si + 4 * size1 <= cx.si + 4 * size && 0 <= size1
    requires cx.env <= cx1.env && 0 <= slots1 && cx1.env + 4 * slots1 <= cx.env + 4 * slots
    ensures Room(cx1, size1, slots1)
  {
  }

  ghost predicate Fitting(rt: Runtime, x: Form, dest: Dest, cx: Context) {
    Count(x, dest, StackGo) == 0 && Room(cx, Size(Gen(rt, x, dest, cx)), Slots(x))
  }

  ghost predicate FittingForms(rt: Runtime, body: Forms, dest: Dest, cx: Context) {
    CountForms(body, dest, StackGo) == 0 && Room(cx, Size(GenForms(rt, body, dest, cx)), SlotsForms(body))
  }

  ghost predicate FittingSeq(rt: Runtime, body: Forms, cx: Context) {
    CountSeq(body, StackGo) == 0 && Room(cx, Size(GenSeq(rt, body, cx)), SlotsForms(body))
  }

  ghost predicate FittingSetq(rt: Runtime, b: Binds, cx: Context) {
    CountInits(b, StackGo) == 0 && Room(cx, Size(GenSetq(rt, b, cx)), SlotsSetq(b))
  }

  ghost predicate FittingInits(rt: Runtime, b: Binds, cx: Context) {
    CountInits(b, StackGo) == 0 && Room(cx, Size(GenInits(rt, b, cx)), SlotsInits(b))
  }

  ghost predicate FittingChain(rt: Runtime, b: Chain, cx: Context) {
    CountChain(b, StackGo) == 0 && Room(cx, Size(GenChain(rt, b, cx)), SlotsChain(b))
  }

  ghost predicate FittingItems(rt: Runtime, items: Items, cx: Context) {
    CountItems(items, StackGo) == 0 && Room(cx, Size(GenItems(rt, items, cx)), SlotsItems(items))
  }

  // ----- IF -----

  lemma FitIfCode(rt: Runtime, test: Code, thn: Code, dest: Dest, recs: seq<Rec>)
    requires AllFit(rt, test, recs) && AllFit(rt, thn, recs) && Size(thn) <= REACH
    ensures AllFit(rt, IfCode(test, thn, dest), recs)
  {
    hide Fits, AllFit, Size, PushIfStack;
    var jump := Plain(Jcc32(E, Size(thn)));
    FitBranch(rt, Size(thn), recs, E);
    FitTargets(rt, dest, recs);
    FitOne(rt, jump, recs);
    AllFitConcat(rt, test, [jump], recs);
    AllFitConcat(rt, test + [jump], thn, recs);
    AllFitConcat(rt, test + [jump] + thn, PushIfStack(dest), recs);
  }

  lemma FitOne(rt: Runtime, it: Item, recs: seq<Rec>)
    ensures AllFit(rt, [it], recs) <==> Fits(rt, it, recs)
  {
    hide Fits;
    assert [it][0] == it;
  }

  lemma FitIfElseCode(rt: Runtime, test: Code, cc: Cond, thn: Code, els: Code, dest: Dest, recs: seq<Rec>)
    requires AllFit(rt, test, recs) && AllFit(rt, thn, recs) && AllFit(rt, els, recs) && Size(thn) <= REACH && Size(els) <= REACH
    ensures AllFit(rt, IfElseCode(test, cc, thn, els, dest), recs)
  {
    hide Fits, AllFit, Size, PushIfStack;
    var j1, j2 := Plain(Jcc32(cc, Size(thn) + 5)), Plain(Jmp32(Size(els)));
    FitBranch(rt, Size(thn) + 5, recs, cc);
    FitBranch(rt, Size(els), recs, cc);
    FitTargets(rt, dest, recs);
    FitOne(rt, j1, recs);
    FitOne(rt, j2, recs);
    AllFitConcat(rt, test, [j1], recs);
    AllFitConcat(rt, test + [j1], thn, recs);
    AllFitConcat(rt, test + [j1] + thn, [j2], recs);
    AllFitConcat(rt, test + [j1] + thn + [j2], els, recs);
    AllFitConcat(rt, test + [j1] + thn + [j2] + els, PushIfStack(dest), recs);
  }

  lemma IfSizes(test: Code, cc: Cond, thn: Code, els: Code, dest: Dest)
    ensures Size(IfCode(test, thn, dest)) >= Size(test) + Size(thn)
    ensures Size(IfElseCode(test, cc, thn, els, dest)) >= Size(test) + Size(thn) + Size(els)
  {
    hide Size, PushIfStack;
    var j0, j1, j2, push := [Plain(Jcc32(E, Size(thn)))], [Plain(Jcc32(cc, Size(thn) + 5))], [Plain(Jmp32(Size(els)))], PushIfStack(dest);
    SizeConcat(test, j0);
    SizeConcat(test + j0, thn);
    SizeConcat(test + j0 + thn, push);
    SizeConcat(test, j1);
    SizeConcat(test + j1, thn);
    SizeConcat(test + j1 + thn, j2);
    SizeConcat(test + j1 + thn + j2, els);
    SizeConcat(test + j1 + thn + j2 + els, push);
  }

  lemma FitCompare(rt: Runtime, test: Form, recs: seq<Rec>)
    ensures AllFit(rt, TestCompare(test), recs)
  {
    hide Fits;
    FitsShort(rt, recs, EAX, 0);
  }

  lemma FitIf(rt: Runtime, x: Form, dest: Dest, cx: Context)
    requires x.If? && rt.Linked() && Fitting(rt, x, dest, cx)
    ensures AllFit(rt, Gen(rt, x, dest, cx), cx.recs)
    decreases x, 0
  {
    hide Gen, AllFit, Fits, rt.Linked, Size, Count, Slots, IfCode, IfElseCode, Room, Encode, TestCompare, GenNil, TestDest;
    UnfoldIf(rt, x, dest, cx);
    var dt := TestDest(x.test, x.test.NumEqual?);
    var cx1 := Next(cx, x.test, dt);
    var g, thn := Gen(rt, x.test, dt, cx), Gen(rt, x.thn, ToEax, cx1);
    var t := g + TestCompare(x.test);
    IfSizes(t, NE, thn, GenNil(ToEax), dest);
    SizeConcat(g, TestCompare(x.test));
    NotStacked(x.test, x.test.NumEqual?);
    var n, k := Size(Gen(rt, x, dest, cx)), Slots(x);
    FitPart(rt, cx, n, k, x.test, dt, cx);
    FitPart(rt, cx, n, k, x.thn, ToEax, cx1);
    FitCompare(rt, x.test, cx.recs);
    AllFitConcat(rt, g, TestCompare(x.test), cx.recs);
    RoomSize(cx, n, k);
    if x.test.NumEqual? {
      FitTargets(rt, ToEax, cx.recs);
      FitIfElseCode(rt, t, NE, thn, GenNil(ToEax), dest, cx.recs);
    } else {
      FitIfCode(rt, t, thn, dest, cx.recs);
    }
  }

  lemma NotStacked(test: Form, hasElse: bool)
    ensures TestDest(test, hasElse) != ToStack
  {
  }

  lemma RoomSize(cx: Context, size: int, slots: int)
    requires Room(cx, size, slots)
    ensures 0 <= size <= REACH && 0 <= cx.si <= REACH && 0 <= cx.env <= REACH
  {
  }

  /** A form no larger than the code around it, and starting no further out, fits. */
  lemma FitPart(rt: Runtime, cx: Context, size: int, slots: int, part: Form, dest: Dest, cx1: Context)
    requires rt.Linked() && Room(cx, size, slots) && cx1.recs == cx.recs
    requires Count(part, dest, StackGo) == 0
    requires cx.si <= cx1.si && cx1.si + 4 * Size(Gen(rt, part, dest, cx1)) <= cx.si + 4 * size
    requires cx.env <= cx1.env && cx1.env + 4 * Slots(part) <= cx.env + 4 * slots
    ensures AllFit(rt, Gen(rt, part, dest, cx1), cx.recs)
    decreases part, 4
  {
    hide Gen, AllFit, rt.Linked, Size, Count, Slots;
    FitForm(rt, part, dest, cx1);
  }

  lemma FitIfElse(rt: Runtime, x: Form, dest: Dest, cx: Context)
    requires x.IfElse? && rt.Linked() && Fitting(rt, x, dest, cx)
    ensures AllFit(rt, Gen(rt, x, dest, cx), cx.recs)
    decreases x, 0
  {
    hide Gen, AllFit, Fits, rt.Linked, Size, Count, Slots, IfElseCode, Room, Encode, TestCompare, TestCond, TestDest;
    UnfoldIfElse(rt, x, dest, cx);
    var dt := TestDest(x.test, true);
    var cx1 := Next(cx, x.test, dt);
    var cx2 := Next(cx1, x.thn, ToEax);
    var g, thn, els := Gen(rt, x.test, dt, cx), Gen(rt, x.thn, ToEax, cx1), Gen(rt, x.els, ToEax, cx2);
    var t := g + TestCompare(x.test);
    IfSizes(t, TestCond(x.test), thn, els, dest);
    SizeConcat(g, TestCompare(x.test));
    NotStacked(x.test, true);
    var n, k := Size(Gen(rt, x, dest, cx)), Slots(x);
    FitPart(rt, cx, n, k, x.test, dt, cx);
    FitPart(rt, cx, n, k, x.thn, ToEax, cx1);
    FitPart(rt, cx, n, k, x.els, ToEax, cx2);
    FitCompare(rt, x.test, cx.recs);
    AllFitConcat(rt, g, TestCompare(x.test), cx.recs);
    RoomSize(cx, n, k);
    FitIfElseCode(rt, t, TestCond(x.test), thn, els, dest, cx.recs);
  }

  // ----- PROGN, SETQ -----

  lemma FitSeq(rt: Runtime, body: Forms, cx: Context)
    requires rt.Linked() && FittingSeq(rt, body, cx)
    ensures AllFit(rt, GenSeq(rt, body, cx), cx.recs)
    decreases body, 0
  {
    hide Gen, AllFit, Fits, rt.Linked, Size, Count, Slots, Room;
    if body.Forms? {
      var cx1 := Next(cx, body.head, ToEax);
      var g, r := Gen(rt, body.head, ToEax, cx), GenSeq(rt, body.tail, cx1);
      var n, k := Size(GenSeq(rt, body, cx)), SlotsForms(body);
      SizeConcat(g, r);
      FitPart(rt, cx, n, k, body.head, ToEax, cx);
      RoomPart(cx, cx1, n, k, Size(r), SlotsForms(body.tail));
      FitSeq(rt, body.tail, cx1);
      AllFitConcat(rt, g, r, cx.recs);
    } else {
      FitNothing(rt, cx.recs);
    }
  }

  lemma FitNothing(rt: Runtime, recs: seq<Rec>)
    ensures AllFit(rt, [], recs)
  {
  }

  lemma FitForms(rt: Runtime, body: Forms, dest: Dest, cx: Context)
    requires rt.Linked() && FittingForms(rt, body, dest, cx)
    ensures AllFit(rt, GenForms(rt, body, dest, cx), cx.recs)
    decreases body, 1
  {
    hide Gen, GenSeq, AllFit, Fits, rt.Linked, Size, Count, CountSeq, Slots, Room, PushIfStack, GenNil;
    FitTargets(rt, dest, cx.recs);
    if body.Forms? {
      var n, k := Size(GenForms(rt, body, dest, cx)), SlotsForms(body);
      if body.tail.NoForms? {
        assert SlotsForms(body) == Slots(body.head) + SlotsForms(body.tail);
        FitPart(rt, cx, n, k, body.head, dest, cx);
      } else {
        SizeConcat(GenSeq(rt, body, cx), PushIfStack(dest));
        RoomPart(cx, cx, n, k, Size(GenSeq(rt, body, cx)), k);
        FitSeq(rt, body, cx);
        AllFitConcat(rt, GenSeq(rt, body, cx), PushIfStack(dest), cx.recs);
      }
    }
  }

  lemma FitSetq(rt: Runtime, b: Binds, cx: Context)
    requires rt.Linked() && FittingSetq(rt, b, cx)
    ensures AllFit(rt, GenSetq(rt, b, cx), cx.recs)
    decreases b, 0
  {
    hide Gen, AllFit, Fits, rt.Linked, Size, Count, Slots, GenAssign;
    if b.Binds? {
      var cx1 := Next(cx, b.init, ToOperand);
      var g, a, r := Gen(rt, b.init, ToOperand, cx), GenAssign(rt, b.name, cx), GenSetq(rt, b.rest, cx1);
      var n, k := Size(GenSetq(rt, b, cx)), SlotsSetq(b);
      SizeConcat(g, a);
      SizeConcat(g + a, r);
      FitPart(rt, cx, n, k, b.init, ToOperand, cx);
      RoomPart(cx, cx1, n, k, Size(r), SlotsSetq(b.rest));
      FitSetq(rt, b.rest, cx1);
      FitVar(rt, b.name, ToOperand, cx);
      AllFitConcat(rt, g, a, cx.recs);
      AllFitConcat(rt, g + a, r, cx.recs);
    } else {
      FitNothing(rt, cx.recs);
    }
  }

  lemma FitSetqForm(rt: Runtime, x: Form, dest: Dest, cx: Context)
    requires x.Setq? && rt.Linked() && Fitting(rt, x, dest, cx)
    ensures AllFit(rt, Gen(rt, x, dest, cx), cx.recs)
    decreases x, 0
  {
    hide Gen, AllFit, Fits, rt.Linked, Size, Count, Slots, GenSetq, Room, CountInits, SlotsSetq, Target, GenNil;
    UnfoldSetq(rt, x, dest, cx);
    FitTargets(rt, dest, cx.recs);
    if x.pairs.Binds? {
      SizeConcat(GenSetq(rt, x.pairs, cx), Target(dest));
      RoomPart(cx, cx, Size(Gen(rt, x, dest, cx)), Slots(x), Size(GenSetq(rt, x.pairs, cx)), Slots(x));
      FitSetq(rt, x.pairs, cx);
      AllFitConcat(rt, GenSetq(rt, x.pairs, cx), Target(dest), cx.recs);
    }
  }

  // ----- LET and LET* -----

  lemma FitInits(rt: Runtime, b: Binds, cx: Context)
    requires rt.Linked() && FittingInits(rt, b, cx)
    ensures AllFit(rt, GenInits(rt, b, cx), cx.recs)
    decreases b, 0
  {
    hide Gen, AllFit, Fits, rt.Linked, Size, Count, Slots, Encode;
    if b.Binds? {
      var cx0 := cx.(env := cx.env + 4);
      var cx1 := Next(cx0, b.init, ToOperand);
      var g, store, r := Gen(rt, b.init, ToOperand, cx0), [Plain(Store(EBP, SlotOffset(cx.env)))], GenInits(rt, b.rest, cx1);
      var n, k := Size(GenInits(rt, b, cx)), SlotsInits(b);
      SizeConcat(g, store);
      SizeConcat(g + store, r);
      FitPart(rt, cx, n, k, b.init, ToOperand, cx0);
      RoomPart(cx, cx1, n, k, Size(r), SlotsInits(b.rest));
      FitInits(rt, b.rest, cx1);
      FitSlot(rt, SlotOffset(cx.env), cx.recs);
      FitOne(rt, store[0], cx.recs);
      AllFitConcat(rt, g, store, cx.recs);
      AllFitConcat(rt, g + store, r, cx.recs);
    } else {
      FitNothing(rt, cx.recs);
    }
  }

  lemma FitChain(rt: Runtime, b: Chain, cx: Context)
    requires rt.Linked() && FittingChain(rt, b, cx)
    ensures AllFit(rt, GenChain(rt, b, cx), cx.recs)
    decreases b, 0
  {
    hide Gen, AllFit, Fits, rt.Linked, Size, Count, Slots, Encode, GenForms, SlotsForms, CountForms, Room;
    if b.Bind? {
      var cx0 := cx.(env := cx.env + 4);
      var cx1 := BindContext(cx, b.name, b.init);
      var g, store, r := Gen(rt, b.init, ToOperand, cx0), [Plain(Store(EBP, SlotOffset(cx.env)))], GenChain(rt, b.rest, cx1);
      var n, k := Size(GenChain(rt, b, cx)), SlotsChain(b);
      SizeConcat(g, store);
      SizeConcat(g + store, r);
      FitPart(rt, cx, n, k, b.init, ToOperand, cx0);
      RoomSlot(cx, n, k);
      var lets := [LetRec(b.name, SlotOffset(cx.env))];
      RoomScope(cx, cx1, lets, n, k, Size(r), SlotsChain(b.rest));
      FitChain(rt, b.rest, cx1);
      DropLets(rt, r, cx.recs, lets);
      FitSlot(rt, SlotOffset(cx.env), cx.recs);
      FitOne(rt, store[0], cx.recs);
      AllFitConcat(rt, g, store, cx.recs);
      AllFitConcat(rt, g + store, r, cx.recs);
    } else {
      FitForms(rt, b.body, ToEax, cx);
    }
  }

  lemma RoomSlot(cx: Context, size: int, slots: int)
    requires Room(cx, size, slots)
    ensures InFixnumRange(SlotOffset(cx.env))
  {
  }

  /** Entering a scope keeps offsets within reach. */
  lemma RoomScope(cx: Context, cx1: Context, lets: seq<Rec>, size: int, slots: int, size1: int, slots1: int)
    requires Room(cx, size, slots) && cx1.recs == cx.recs + lets
    requires forall i :: 0 <= i < |lets| ==> lets[i].LetRec? && InFixnumRange(lets[i].offset)
    requires cx.si <= cx1.si && cx1.si + 4 * size1 <= cx.si + 4 * size && 0 <= size1
    requires cx.env <= cx1.env && 0 <= slots1 && cx1.env + 4 * slots1 <= cx.env + 4 * slots
    ensures Room(cx1, size1, slots1)
  {
  }

  /** Pending branches never lead to a LET. */
  lemma DropLets(rt: Runtime, c: Code, recs: seq<Rec>, lets: seq<Rec>)
    requires AllFit(rt, c, recs + lets) && forall i :: 0 <= i < |lets| ==> lets[i].LetRec?
    ensures AllFit(rt, c, recs)
  {
    hide Encodable;
    forall k | 0 <= k < |c|
      ensures Fits(rt, c[k], recs)
    {
      assert Fits(rt, c[k], recs + lets);
    }
  }

  lemma {:induction false} LetRecsInReach(b: Binds, env: int)
    requires 0 <= env && env + 4 * SlotsInits(b) <= REACH
    ensures forall i :: 0 <= i < |LetRecs(b, env)| ==> InFixnumRange(LetRecs(b, env)[i].offset)
    decreases b
  {
    hide Slots;
    if b.Binds? {
      LetRecsInReach(b.rest, env + 4 + 4 * Slots(b.init));
    }
  }

  lemma FitLet(rt: Runtime, x: Form, dest: Dest, cx: Context)
    requires x.Let? && rt.Linked() && Fitting(rt, x, dest, cx)
    ensures AllFit(rt, Gen(rt, x, dest, cx), cx.recs)
    decreases x, 0
  {
    hide Gen, AllFit, Fits, rt.Linked, Size, Count, Slots, GenInits, GenForms, Room, CountInits, CountForms, SlotsInits, SlotsForms, PushIfStack, LetRecs;
    UnfoldLet(rt, x, dest, cx);
    var cx1, n, k := LetContext(cx, x.binds), Size(Gen(rt, x, dest, cx)), Slots(x);
    var g, b := GenInits(rt, x.binds, cx), GenForms(rt, x.body, ToEax, cx1);
    SizeConcat(g, b);
    SizeConcat(g + b, PushIfStack(dest));
    RoomPart(cx, cx, n, k, Size(g), SlotsInits(x.binds));
    FitInits(rt, x.binds, cx);
    RoomEnv(cx, Size(g), SlotsInits(x.binds));
    LetRecsInReach(x.binds, cx.env);
    var lets := LetRecs(x.binds, cx.env);
    RoomScope(cx, cx1, lets, n, k, Size(b), SlotsForms(x.body));
    FitForms(rt, x.body, ToEax, cx1);
    DropLets(rt, b, cx.recs, lets);
    FitTargets(rt, dest, cx.recs);
    AllFitConcat(rt, g, b, cx.recs);
    AllFitConcat(rt, g + b, PushIfStack(dest), cx.recs);
  }

  lemma RoomEnv(cx: Context, size: int, slots: int)
    requires Room(cx, size, slots)
    ensures 0 <= cx.env && cx.env + 4 * slots <= REACH
  {
  }

  lemma FitLetStar(rt: Runtime, x: Form, dest: Dest, cx: Context)
    requires x.LetStar? && rt.Linked() && Fitting(rt, x, dest, cx)
    ensures AllFit(rt, Gen(rt, x, dest, cx), cx.recs)
    decreases x, 0
  {
    hide Gen, AllFit, Fits, rt.Linked, Size, Count, Slots, GenChain, Room, CountChain, SlotsChain, PushIfStack;
    UnfoldLetStar(rt, x, dest, cx);
    SizeConcat(GenChain(rt, x.chain, cx), PushIfStack(dest));
    RoomPart(cx, cx, Size(Gen(rt, x, dest, cx)), Slots(x), Size(GenChain(rt, x.chain, cx)), Slots(x));
    FitChain(rt, x.chain, cx);
    FitTargets(rt, dest, cx.recs);
    AllFitConcat(rt, GenChain(rt, x.chain, cx), PushIfStack(dest), cx.recs);
  }

  // ----- BLOCK, RETURN-FROM, TAGBODY, GO -----

  lemma RoomMarker(cx: Context, r: Rec, size: int, slots: int)
    requires Room(cx, size, slots) && !r.LetRec? && r.depth == cx.si
    ensures Room(cx.(recs := cx.recs + [r]), size, slots)
  {
  }

  lemma FitBlock(rt: Runtime, x: Form, dest: Dest, cx: Context)
    requires x.Block? && rt.Linked() && Fitting(rt, x, dest, cx)
    ensures AllFit(rt, Gen(rt, x, dest, cx), cx.recs)
    decreases x, 0
  {
    hide Gen, AllFit, Fits, rt.Linked, Size, Count, Slots, GenForms, Room, CountForms, SlotsForms, PushIfStack, SettleAll;
    UnfoldBlock(rt, x, dest, cx);
    var r := BlockRec(x.name, cx.si);
    var inner := BlockContext(cx, x.name);
    var b := GenForms(rt, x.body, ToEax, inner);
    var c := SettleAll(b, 0, |cx.recs|, [Size(b)]);
    SettleSize(b, 0, |cx.recs|, [Size(b)]);
    SizeConcat(c, PushIfStack(dest));
    RoomPart(cx, cx, Size(Gen(rt, x, dest, cx)), Slots(x), Size(b), Slots(x));
    RoomMarker(cx, r, Size(b), Slots(x));
    FitForms(rt, x.body, ToEax, inner);
    RoomSize(cx, Size(b), Slots(x));
    FitSettled(rt, b, 0, cx.recs, r, [Size(b)]);
    FitTargets(rt, dest, cx.recs);
    AllFitConcat(rt, c, PushIfStack(dest), cx.recs);
  }

  lemma FitExit(rt: Runtime, cx: Context, size: int, slots: int, k: int, tag: nat)
    requires Room(cx, size, slots) && 0 <= k < |cx.recs| && !cx.recs[k].LetRec?
    requires if cx.recs[k].BlockRec? then tag == 0 else tag < |cx.recs[k].tags|
    ensures AllFit(rt, Adjust(cx.si - cx.recs[k].depth) + [Exit(Label(k, tag))], cx.recs)
  {
    hide Fits, Adjust;
    assert 0 <= cx.recs[k].depth;
    if cx.si - cx.recs[k].depth > 0 {
      FitAdjust(rt, cx.si - cx.recs[k].depth, cx.recs);
    } else {
      NoAdjust(cx.si - cx.recs[k].depth);
    }
    FitPending(rt, cx.recs, k, tag);
    AllFitConcat(rt, Adjust(cx.si - cx.recs[k].depth), [Exit(Label(k, tag))], cx.recs);
  }

  lemma NoAdjust(diff: int)
    requires diff <= 0
    ensures Adjust(diff) == []
  {
  }

  lemma FitPending(rt: Runtime, recs: seq<Rec>, k: int, tag: nat)
    requires 0 <= k < |recs| && !recs[k].LetRec?
    requires if recs[k].BlockRec? then tag == 0 else tag < |recs[k].tags|
    ensures AllFit(rt, [Exit(Label(k, tag))], recs)
  {
  }

  lemma FitReturn(rt: Runtime, x: Form, dest: Dest, cx: Context)
    requires x.ReturnFrom? && rt.Linked() && Fitting(rt, x, dest, cx) && FindBlock(cx.recs, x.name) >= 0
    ensures AllFit(rt, Gen(rt, x, dest, cx), cx.recs)
    decreases x, 0
  {
    hide Gen, AllFit, Fits, rt.Linked, Size, Count, Slots, Adjust, Encode;
    UnfoldReturn(rt, x, dest, cx);
    var k := FindBlock(cx.recs, x.name);
    var cx1 := Next(cx, x.value, dest);
    var g, a, e := Gen(rt, x.value, dest, cx), Adjust(cx1.si - cx.recs[k].depth), [Exit(Label(k, 0))];
    SizeConcat(g, a);
    SizeConcat(g + a, e);
    SizePair(e[0], e[0]);
    FitPart(rt, cx, Size(Gen(rt, x, dest, cx)), Slots(x), x.value, dest, cx);
    RoomPart(cx, cx1, Size(Gen(rt, x, dest, cx)), Slots(x), 0, 0);
    FitExit(rt, cx1, 0, 0, k, 0);
    assert g + a + e == g + (a + e);
    AllFitConcat(rt, g, a + e, cx.recs);
  }

  lemma {:induction false} TagOffsetsInReach(rt: Runtime, items: Items, cx: Context, pos: int)
    ensures forall t :: 0 <= t < |TagOffsets(rt, items, cx, pos)| ==> pos <= TagOffsets(rt, items, cx, pos)[t] <= pos + Size(GenItems(rt, items, cx))
    decreases items
  {
    hide Gen, Size, Next, GenItems, TagOffsets;
    match items
    case NoItems => NoOffsets(rt, items, cx, pos);
    case Tag(t, rest) =>
      TagHeadOffset(rt, t, rest, cx, pos);
      UnfoldItems(rt, items, cx);
      TagOffsetsInReach(rt, rest, cx, pos);
    case Stmt(x, rest) =>
      var cx1 := Next(cx, x, ToEax);
      StmtHead(rt, x, rest, cx, pos);
      UnfoldItems(rt, items, cx);
      SizeConcat(Gen(rt, x, ToEax, cx), GenItems(rt, rest, cx1));
      TagOffsetsInReach(rt, rest, cx1, pos + Size(Gen(rt, x, ToEax, cx)));
  }

  lemma UnfoldItems(rt: Runtime, items: Items, cx: Context)
    ensures items.NoItems? ==> GenItems(rt, items, cx) == []
    ensures items.Tag? ==> GenItems(rt, items, cx) == GenItems(rt, items.rest, cx)
    ensures items.Stmt? ==> GenItems(rt, items, cx) == Gen(rt, items.form, ToEax, cx) + GenItems(rt, items.rest, Next(cx, items.form, ToEax))
  {
    hide Gen, Next;
  }

  lemma FitItems(rt: Runtime, items: Items, cx: Context)
    requires rt.Linked() && FittingItems(rt, items, cx)
    ensures AllFit(rt, GenItems(rt, items, cx), cx.recs)
    decreases items, 0
  {
    hide Gen, GenItems, AllFit, Fits, rt.Linked, Size, Count, Slots, Room;
    UnfoldItems(rt, items, cx);
    match items
    case NoItems => FitNothing(rt, cx.recs);
    case Tag(_, rest) => FitItems(rt, rest, cx);
    case Stmt(x, rest) =>
      var cx1 := Next(cx, x, ToEax);
      var g, r := Gen(rt, x, ToEax, cx), GenItems(rt, rest, cx1);
      var n, k := Size(GenItems(rt, items, cx)), SlotsItems(items);
      SizeConcat(g, r);
      FitPart(rt, cx, n, k, x, ToEax, cx);
      RoomPart(cx, cx1, n, k, Size(r), SlotsItems(rest));
      FitItems(rt, rest, cx1);
      AllFitConcat(rt, g, r, cx.recs);
  }

  lemma FitTagbody(rt: Runtime, x: Form, dest: Dest, cx: Context)
    requires x.Tagbody? && rt.Linked() && Fitting(rt, x, dest, cx)
    ensures AllFit(rt, Gen(rt, x, dest, cx), cx.recs)
    decreases x, 0
  {
    hide Gen, AllFit, Fits, rt.Linked, Size, Count, Slots, GenItems, Room, CountItems, SlotsItems, PushIfStack, SettleAll, TagbodyPre, GenNil, TagbodyTargets;
    UnfoldTagbody(rt, x, dest, cx);
    FitTargets(rt, dest, cx.recs);
    if HasStmt(x.items) {
      var r := TagsRec(TagNames(x.items), cx.si);
      var inner := TagsContext(cx, x.items);
      var pre, g, nil := TagbodyPre(x.items), GenItems(rt, x.items, inner), GenNil(ToEax);
      var targets := TagbodyTargets(rt, x.items, inner);
      var b := pre + g + nil;
      var c := SettleAll(b, 0, |cx.recs|, targets);
      SettleSize(b, 0, |cx.recs|, targets);
      SizeConcat(c, PushIfStack(dest));
      SizeConcat(pre, g);
      SizeConcat(pre + g, nil);
      RoomPart(cx, cx, Size(Gen(rt, x, dest, cx)), Slots(x), Size(b), Slots(x));
      RoomPart(cx, cx, Size(b), Slots(x), Size(g), Slots(x));
      RoomMarker(cx, r, Size(g), Slots(x));
      FitItems(rt, x.items, inner);
      RoomSize(cx, Size(b), Slots(x));
      FitPre(rt, x.items, inner.recs);
      AllFitConcat(rt, pre, g, inner.recs);
      AllFitConcat(rt, pre + g, nil, inner.recs);
      TargetsInReach(rt, x.items, inner);
      FitSettled(rt, b, 0, cx.recs, r, targets);
      AllFitConcat(rt, c, PushIfStack(dest), cx.recs);
    }
  }

  lemma FitPre(rt: Runtime, items: Items, recs: seq<Rec>)
    ensures AllFit(rt, TagbodyPre(items), recs) && AllFit(rt, GenNil(ToEax), recs)
  {
    hide Fits, GenNil;
    FitTargets(rt, ToEax, recs);
  }

  lemma TargetsInReach(rt: Runtime, items: Items, inner: Context)
    ensures var t, hi := TagbodyTargets(rt, items, inner), Size(TagbodyPre(items)) + Size(GenItems(rt, items, inner));
            |t| == |TagNames(items)| && forall i :: 0 <= i < |t| ==> 0 <= t[i] <= hi
  {
    hide TagOffsets, Size, GenItems, TagbodyPre;
    TagOffsetsInReach(rt, items, inner, Size(TagbodyPre(items)));
    TagOffsetsLength(rt, items, inner, Size(TagbodyPre(items)));
  }

  lemma FitGo(rt: Runtime, x: Form, dest: Dest, cx: Context)
    requires x.Go? && Fitting(rt, x, dest, cx)
    ensures AllFit(rt, Gen(rt, x, dest, cx), cx.recs)
  {
    hide AllFit, Room, Size, Adjust;
    var k := FindTags(cx.recs, x.tag);
    if k >= 0 {
      FitExit(rt, cx, Size(Gen(rt, x, dest, cx)), Slots(x), k, IndexOf(cx.recs[k].tags, x.tag));
    } else {
      FitNothing(rt, cx.recs);
    }
  }

  // ----- calls -----

  lemma FitArgs(rt: Runtime, x: Form, cx: Context, size: int, slots: int)
    requires IsCall(x) && rt.Linked() && Room(cx, size, slots) && Size(Gen2(rt, x, x.arg1, x.arg2, cx)) <= size
    requires Count(x.arg1, Arg1Dest(x), StackGo) == 0 && Count(x.arg2, ToOperand, StackGo) == 0
    requires Slots(x.arg1) + Slots(x.arg2) <= slots
    ensures AllFit(rt, Gen2(rt, x, x.arg1, x.arg2, cx), cx.recs)
    decreases x, 1
  {
    hide Gen, AllFit, Fits, rt.Linked, Size, Count, Slots, Room, Encode, Arg1Dest, IsFixnumLiteral, IsSimple;
    Arg1DestCases(x);
    var d1 := Arg1Dest(x);
    var cx1 := Next(cx, x.arg1, d1);
    var g1, g2 := Gen(rt, x.arg1, d1, cx), Gen(rt, x.arg2, ToOperand, cx1);
    if d1 == ToOperand {
      FitRegisterArgs(rt, x, cx, size, slots);
    } else {
      var c := Collect(x);
      assert Gen2(rt, x, x.arg1, x.arg2, cx) == g1 + g2 + c;
      SizeConcat(g1, g2);
      SizeConcat(g1 + g2, c);
      FitCollect(rt, x, cx.recs);
      FitPart(rt, cx, size, slots, x.arg1, d1, cx);
      FitPart(rt, cx, size, slots, x.arg2, ToOperand, cx1);
      AllFitConcat(rt, g1, g2, cx.recs);
      AllFitConcat(rt, g1 + g2, c, cx.recs);
    }
  }

  lemma FitCollect(rt: Runtime, x: Form, recs: seq<Rec>)
    requires IsCall(x)
    ensures AllFit(rt, Collect(x), recs) && Size(Collect(x)) >= 1
  {
    hide Fits, Encode;
    FitsShort(rt, recs, EDX, 0);
    FitsShort(rt, recs, EAX, 0);
    SizePair(Collect(x)[0], Collect(x)[|Collect(x)| - 1]);
  }

  lemma FitRegisterArgs(rt: Runtime, x: Form, cx: Context, size: int, slots: int)
    requires IsCall(x) && Arg1Dest(x) == ToOperand && rt.Linked() && Room(cx, size, slots) && Size(Gen2(rt, x, x.arg1, x.arg2, cx)) <= size
    requires Count(x.arg1, ToOperand, StackGo) == 0 && Count(x.arg2, ToOperand, StackGo) == 0
    requires Slots(x.arg1) + Slots(x.arg2) <= slots
    ensures AllFit(rt, Gen2(rt, x, x.arg1, x.arg2, cx), cx.recs)
    decreases x, 0
  {
    hide Gen, AllFit, Fits, rt.Linked, Size, Count, Slots, Room, Encode, Arg1Dest, MovObj;
    RegisterArgs(rt, x, cx);
    FitsShort(rt, cx.recs, EAX, 0);
    var cx1 := Next(cx, x.arg1, ToOperand);
    var g1, g2, mov := Gen(rt, x.arg1, ToOperand, cx), Gen(rt, x.arg2, ToOperand, cx1), [Plain(Mov(EDX, EAX))];
    if x.ArithCall? {
      var load := [Plain(MovObj(EDX, x.arg2.w))];
      FitsShort(rt, cx.recs, EDX, x.arg2.w);
      FitOne(rt, load[0], cx.recs);
      SizeConcat(g1, load);
      FitPart(rt, cx, size, slots, x.arg1, ToOperand, cx);
      AllFitConcat(rt, g1, load, cx.recs);
    } else {
      FitOne(rt, mov[0], cx.recs);
      SizeConcat(g1, mov);
      SizeConcat(g1 + mov, g2);
      FitPart(rt, cx, size, slots, x.arg1, ToOperand, cx);
      FitPart(rt, cx, size, slots, x.arg2, ToOperand, cx1);
      AllFitConcat(rt, g1, mov, cx.recs);
      AllFitConcat(rt, g1 + mov, g2, cx.recs);
    }
  }

  lemma RegisterArgs(rt: Runtime, x: Form, cx: Context)
    requires IsCall(x) && Arg1Dest(x) == ToOperand
    ensures x.ArithCall? ==> IsFixnumLiteral(x.arg2)
    ensures var g1, g2 := Gen(rt, x.arg1, ToOperand, cx), Gen(rt, x.arg2, ToOperand, Next(cx, x.arg1, ToOperand));
            Gen2(rt, x, x.arg1, x.arg2, cx) ==
            if x.ArithCall? then g1 + [Plain(MovObj(EDX, x.arg2.w))] else g1 + [Plain(Mov(EDX, EAX))] + g2
  {
    hide Gen, Next, MovObj;
  }

  lemma FitCall(rt: Runtime, x: Form, dest: Dest, cx: Context)
    requires IsCall(x) && rt.Linked() && Fitting(rt, x, dest, cx)
    ensures AllFit(rt, Gen(rt, x, dest, cx), cx.recs)
    decreases x, 2
  {
    hide Gen, Gen2, AllFit, Fits, rt.Linked, Size, Count, Slots, Room, Encode, Arg1Dest, CallTail;
    UnfoldCallGen(rt, x, dest, cx);
    UnfoldCallCount(x, dest, StackGo);
    SizeConcat(Gen2(rt, x, x.arg1, x.arg2, cx), CallTail(rt, x, dest, cx.check));
    FitArgs(rt, x, cx, Size(Gen(rt, x, dest, cx)), Slots(x));
    FitCallTail(rt, x, dest, cx.check, cx.recs);
    AllFitConcat(rt, Gen2(rt, x, x.arg1, x.arg2, cx), CallTail(rt, x, dest, cx.check), cx.recs);
  }

  lemma FitNull(rt: Runtime, x: Form, dest: Dest, cx: Context)
    requires x.Null? && rt.Linked() && Fitting(rt, x, dest, cx)
    ensures AllFit(rt, Gen(rt, x, dest, cx), cx.recs)
    decreases x, 0
  {
    hide Gen, AllFit, Fits, rt.Linked, Size, Count, Slots, Room, NullTail, Target;
    UnfoldNull(rt, x, dest, cx);
    var g := Gen(rt, x.arg, ToOperand, cx);
    SizeConcat(g, NullTail());
    SizeConcat(g + NullTail(), Target(dest));
    FitPart(rt, cx, Size(Gen(rt, x, dest, cx)), Slots(x), x.arg, ToOperand, cx);
    FitEqNull(rt, cx.recs);
    FitTargets(rt, dest, cx.recs);
    AllFitConcat(rt, g, NullTail(), cx.recs);
    AllFitConcat(rt, g + NullTail(), Target(dest), cx.recs);
  }

  lemma FitLeaf(rt: Runtime, x: Form, dest: Dest, cx: Context)
    requires (x.Lit? || x.SymLit? || x.NilForm? || x.Var?) && rt.Linked() && InReach(cx)
    ensures AllFit(rt, Gen(rt, x, dest, cx), cx.recs)
  {
    hide Fits, rt.Linked, GenVar, GenNil, MovObj;
    FitTargets(rt, dest, cx.recs);
    match x
    case Lit(w) => FitsShort(rt, cx.recs, EAX, w);
    case SymLit(w, _) => FitsShort(rt, cx.recs, EAX, w); FitSymbol(rt, w, cx.recs);
    case NilForm =>
    case Var(n) => FitVar(rt, n, dest, cx);
  }

  lemma FitSymbol(rt: Runtime, w: Word, recs: seq<Rec>)
    ensures Fits(rt, I(PushImm(w), LiteralRef(w)), recs) && Fits(rt, I(MovImm(EAX, w), LiteralRef(w)), recs)
  {
  }

  lemma FitProgn(rt: Runtime, x: Form, dest: Dest, cx: Context)
    requires x.Progn? && rt.Linked() && Fitting(rt, x, dest, cx)
    ensures AllFit(rt, Gen(rt, x, dest, cx), cx.recs)
    decreases x, 0
  {
    hide AllFit, rt.Linked, Size, GenForms, CountForms, SlotsForms, Room;
    FitForms(rt, x.body, dest, cx);
  }

  lemma FitOrphan(rt: Runtime, x: Form, dest: Dest, cx: Context)
    requires x.ReturnFrom? && FindBlock(cx.recs, x.name) < 0
    ensures AllFit(rt, Gen(rt, x, dest, cx), cx.recs)
  {
    hide Fits;
  }

  /** Every operand of the code of x survives encoding, and its pending branches lead to enclosing blocks and tags. */
  lemma FitForm(rt: Runtime, x: Form, dest: Dest, cx: Context)
    requires rt.Linked() && Fitting(rt, x, dest, cx)
    ensures AllFit(rt, Gen(rt, x, dest, cx), cx.recs)
    decreases x, 3
  {
    hide Gen, AllFit, rt.Linked, Size, Count, Slots;
    match x
    case Setq(_) => FitSetqForm(rt, x, dest, cx);
    case Progn(_) => FitProgn(rt, x, dest, cx);
    case If(_, _) => FitIf(rt, x, dest, cx);
    case IfElse(_, _, _) => FitIfElse(rt, x, dest, cx);
    case Let(_, _) => FitLet(rt, x, dest, cx);
    case LetStar(_) => FitLetStar(rt, x, dest, cx);
    case Block(_, _) => FitBlock(rt, x, dest, cx);
    case ReturnFrom(_, _) =>
      if FindBlock(cx.recs, x.name) >= 0 {
        FitReturn(rt, x, dest, cx);
      } else {
        FitOrphan(rt, x, dest, cx);
      }
    case Tagbody(_) => FitTagbody(rt, x, dest, cx);
    case Go(_) => FitGo(rt, x, dest, cx);
    case Null(_) => FitNull(rt, x, dest, cx);
    case _ =>
      if IsCall(x) {
        FitCall(rt, x, dest, cx);
      } else {
        FitLeaf(rt, x, dest, cx);
      }
  }
}
