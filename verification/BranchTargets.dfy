/**
 Branch resolution: every branch in the code of a form lands where an instruction of that code
 begins, or at its end.
 */
module BranchTargets {
  import opened Options
  import opened Words
  import opened X86
  import opened Runtime
  import opened Machine
  import opened Lisp
  import opened CodeGen
  import opened Tails
  import opened Predicates
  import opened Layout
  import opened Calls
  import opened Exits
  import opened Parts
  import opened Encoding
  import opened Fitting
  import opened Program
  import opened Stages
  import opened Landings
  import opened Shorts
  import opened Depths

  ghost predicate StartsAt(c: Code, o: int) {
    exists j :: BeginsAt(c, j, o)
  }

  ghost predicate Lands(c: Code) {
    forall k :: 0 <= k < |c| && Branch(c[k]).Some? ==> StartsAt(c, Size(c[..k + 1]) + Branch(c[k]).value)
  }

  // ----- composing code -----

  /** Where the first part ends. */
  lemma StartsBetween(a: Code, b: Code)
    ensures StartsAt(a + b, Size(a))
  {
    hide Size;
    assert (a + b)[..|a|] == a;
    assert BeginsAt(a + b, |a|, Size(a));
  }

  lemma StartsEnd(c: Code)
    ensures StartsAt(c, Size(c)) && StartsAt(c, 0)
  {
    assert c[..|c|] == c && c[..0] == [];
    assert BeginsAt(c, |c|, Size(c)) && BeginsAt(c, 0, 0);
  }

  lemma StartsWithin(a: Code, b: Code, o: int)
    requires StartsAt(a, o)
    ensures StartsAt(a + b, o)
  {
    hide Size;
    var j :| BeginsAt(a, j, o);
    assert (a + b)[..j] == a[..j];
    assert BeginsAt(a + b, j, o);
  }

  lemma StartsAfter(a: Code, b: Code, o: int)
    requires StartsAt(b, o)
    ensures StartsAt(a + b, Size(a) + o)
  {
    hide Size;
    var j :| BeginsAt(b, j, o);
    assert (a + b)[..|a| + j] == a + b[..j];
    SizeConcat(a, b[..j]);
    assert BeginsAt(a + b, |a| + j, Size(a) + o);
  }

  lemma LandsAt(c: Code, k: nat)
    requires Lands(c) && k < |c| && Branch(c[k]).Some?
    ensures StartsAt(c, Size(c[..k + 1]) + Branch(c[k]).value)
  {
    hide Size, StartsAt;
  }

  lemma LandsConcat(a: Code, b: Code)
    requires Lands(a) && Lands(b)
    ensures Lands(a + b)
  {
    hide Size, StartsAt, Branch;
    var c := a + b;
    forall k | 0 <= k < |c| && Branch(c[k]).Some?
      ensures StartsAt(c, Size(c[..k + 1]) + Branch(c[k]).value)
    {
      if k < |a| {
        LandsAt(a, k);
        assert c[..k + 1] == a[..k + 1];
        StartsWithin(a, b, Size(a[..k + 1]) + Branch(a[k]).value);
      } else {
        var i := k - |a|;
        LandsAt(b, i);
        assert c[..k + 1] == a + b[..i + 1];
        SizeConcat(a, b[..i + 1]);
        StartsAfter(a, b, Size(b[..i + 1]) + Branch(b[i]).value);
      }
    }
  }

  lemma LandsStraight(c: Code)
    requires Branchless(c)
    ensures Lands(c)
  {
    hide Size, StartsAt, Branch;
  }

  /** A branch in front of code that it lands in. */
  lemma LandsBranch(it: Item, rest: Code)
    requires Branch(it).Some? && Lands(rest) && StartsAt(rest, Branch(it).value)
    ensures Lands([it] + rest)
  {
    hide Size, StartsAt, Branch;
    var c := [it] + rest;
    forall k | 0 <= k < |c| && Branch(c[k]).Some?
      ensures StartsAt(c, Size(c[..k + 1]) + Branch(c[k]).value)
    {
      if k == 0 {
        assert c[..1] == [it];
        StartsAfter([it], rest, Branch(it).value);
      } else {
        LandsAt(rest, k - 1);
        assert c[..k + 1] == [it] + rest[..k];
        SizeConcat([it], rest[..k]);
        StartsAfter([it], rest, Size(rest[..k]) + Branch(rest[k - 1]).value);
      }
    }
  }

  lemma LandsAfter(front: Code, rest: Code)
    requires Branchless(front) && Lands(rest)
    ensures Lands(front + rest)
  {
    hide Lands, Branchless;
    LandsStraight(front);
    LandsConcat(front, rest);
  }

  // ----- the templates -----

  /** What leads to an item of its own depth leads to an item. */
  lemma LandsEven(c: Code)
    requires Even(c)
    ensures Lands(c)
  {
    hide Size, Branch, Depth, Tidy;
    forall k | 0 <= k < |c| && Branch(c[k]).Some?
      ensures StartsAt(c, Size(c[..k + 1]) + Branch(c[k]).value)
    {
      EvenAt(c, k);
    }
  }

  lemma LandsNil(dest: Dest)
    ensures Lands(GenNil(dest)) && Lands(PushIfStack(dest)) && Lands(Target(dest))
  {
    hide Lands, Even;
    EvenNil(dest);
    LandsEven(GenNil(dest));
    LandsEven(PushIfStack(dest));
    LandsEven(Target(dest));
  }

  lemma LandsAssign(rt: Runtime, n: Name, cx: Context)
    ensures Lands(GenAssign(rt, n, cx))
  {
    hide Lands, Even;
    EvenAssign(rt, n, cx);
    LandsEven(GenAssign(rt, n, cx));
  }

  lemma LandsSelect(cmp: Instr, cc: Cond)
    requires Branch(Plain(cmp)).None? && cmp != Mov(ESP, EBP)
    ensures Lands([Plain(cmp), LoadNil(), Plain(Jcc8(cc, 3)), LoadT()])
  {
    hide Lands, Even;
    EvenPlainSelect(cmp, cc);
    LandsEven([Plain(cmp), LoadNil(), Plain(Jcc8(cc, 3)), LoadT()]);
  }

  lemma LandsTail(rt: Runtime, x: Form, dest: Dest, check: bool)
    requires IsCall(x)
    ensures Lands(CallTail(rt, x, dest, check))
  {
    hide Lands, Even;
    EvenTail(rt, x, dest, check);
    LandsEven(CallTail(rt, x, dest, check));
  }

  lemma LandsIfCode(test: Code, thn: Code, dest: Dest)
    requires Lands(test) && Lands(thn)
    ensures Lands(IfCode(test, thn, dest))
  {
    hide Lands, StartsAt, Size;
    var j, p := Plain(Jcc32(E, Size(thn))), PushIfStack(dest);
    LandsNil(dest);
    StartsEnd(thn);
    LandsBranch(j, thn);
    LandsConcat(test, [j] + thn);
    LandsConcat(test + ([j] + thn), p);
    assert IfCode(test, thn, dest) == test + ([j] + thn) + p;
  }

  lemma LandsIfElseCode(test: Code, cc: Cond, thn: Code, els: Code, dest: Dest)
    requires Lands(test) && Lands(thn) && Lands(els)
    ensures Lands(IfElseCode(test, cc, thn, els, dest))
  {
    hide Lands, StartsAt, Size, Len, PushIfStack;
    var j, over, p := Plain(Jcc32(cc, Size(thn) + 5)), Plain(Jmp32(Size(els))), PushIfStack(dest);
    LandsNil(dest);
    StartsEnd(els);
    LandsBranch(over, els);
    LandsConcat(thn, [over] + els);
    BranchLens(cc, Size(els));
    SizePair(over, over);
    SizeConcat(thn, [over]);
    StartsBetween(thn + [over], els);
    assert thn + [over] + els == thn + ([over] + els);
    LandsBranch(j, thn + ([over] + els));
    LandsConcat(test, [j] + (thn + ([over] + els)));
    LandsConcat(test + ([j] + (thn + ([over] + els))), p);
    assert IfElseCode(test, cc, thn, els, dest) == test + ([j] + (thn + ([over] + els))) + p;
  }

  // ----- settled branches -----

  lemma SettledStarts(c: Code, pos: int, rec: nat, targets: seq<int>, o: int)
    requires StartsAt(c, o)
    ensures StartsAt(SettleAll(c, pos, rec, targets), o)
  {
    hide Size, SettleAll;
    var j :| BeginsAt(c, j, o);
    SettledFront(c, pos, rec, targets, j);
    assert BeginsAt(SettleAll(c, pos, rec, targets), j, o);
  }

  /** Patched branches land on their targets. */
  lemma LandsSettled(c: Code, rec: nat, targets: seq<int>)
    requires Lands(c) && forall t :: 0 <= t < |targets| ==> StartsAt(c, targets[t])
    ensures Lands(SettleAll(c, 0, rec, targets))
  {
    hide Size, StartsAt, SettleAll, Branch;
    var s := SettleAll(c, 0, rec, targets);
    SettleSize(c, 0, rec, targets);
    forall k | 0 <= k < |s| && Branch(s[k]).Some?
      ensures StartsAt(s, Size(s[..k + 1]) + Branch(s[k]).value)
    {
      SettledAt(c, 0, rec, targets, k);
      SettledFront(c, 0, rec, targets, k + 1);
      SettledBranch(c[k], Size(c[..k]), rec, targets);
      SizeSnoc(c, k);
      if Branch(c[k]).Some? {
        LandsAt(c, k);
        SettledStarts(c, 0, rec, targets, Size(c[..k + 1]) + Branch(c[k]).value);
      } else {
        SettledStarts(c, 0, rec, targets, targets[c[k].target.tag]);
      }
    }
  }

  // ----- forms -----

  lemma {:induction false} LandsForm(rt: Runtime, x: Form, dest: Dest, cx: Context)
    ensures Lands(Gen(rt, x, dest, cx))
    decreases x, 3
  {
    hide Lands, Gen, Next;
    match x
    case Lit(_) => LandsAtom(rt, x, dest, cx);
    case SymLit(_, _) => LandsAtom(rt, x, dest, cx);
    case NilForm => LandsAtom(rt, x, dest, cx);
    case Var(_) => LandsAtom(rt, x, dest, cx);
    case Setq(pairs) =>
      UnfoldSetqCode(rt, x, dest, cx);
      LandsNil(dest);
      LandsSetq(rt, pairs, cx);
      LandsConcat(GenSetq(rt, pairs, cx), Target(dest));
    case Progn(body) =>
      PrognGen(rt, x, dest, cx);
      LandsForms(rt, body, dest, cx);
    case If(_, _) => LandsIf(rt, x, dest, cx);
    case IfElse(_, _, _) => LandsIfElse(rt, x, dest, cx);
    case Let(_, _) => LandsLet(rt, x, dest, cx);
    case LetStar(chain) =>
      UnfoldLetStar(rt, x, dest, cx);
      LandsChain(rt, chain, cx);
      LandsNil(dest);
      LandsConcat(GenChain(rt, chain, cx), PushIfStack(dest));
    case Block(_, _) => LandsBlock(rt, x, dest, cx);
    case ReturnFrom(_, _) => LandsReturn(rt, x, dest, cx);
    case Tagbody(_) => LandsTagbody(rt, x, dest, cx);
    case Go(_) => LandsGo(rt, x, dest, cx);
    case Null(arg) =>
      UnfoldNull(rt, x, dest, cx);
      LandsForm(rt, arg, ToOperand, cx);
      LandsSelect(CmpMem(ESI, 0), NE);
      LandsNil(dest);
      LandsConcat(Gen(rt, arg, ToOperand, cx), NullTail());
      LandsConcat(Gen(rt, arg, ToOperand, cx) + NullTail(), Target(dest));
    case _ => LandsCall(rt, x, dest, cx);
  }

  lemma LandsAtom(rt: Runtime, x: Form, dest: Dest, cx: Context)
    requires x.Lit? || x.SymLit? || x.NilForm? || x.Var?
    ensures Lands(Gen(rt, x, dest, cx))
  {
    hide Lands, Even, Gen;
    EvenAtom(rt, x, dest, cx);
    LandsEven(Gen(rt, x, dest, cx));
  }

  lemma PrognGen(rt: Runtime, x: Form, dest: Dest, cx: Context)
    requires x.Progn?
    ensures Gen(rt, x, dest, cx) == GenForms(rt, x.body, dest, cx)
  {
    hide GenForms;
  }

  lemma {:induction false} LandsForms(rt: Runtime, body: Forms, dest: Dest, cx: Context)
    ensures Lands(GenForms(rt, body, dest, cx))
    decreases body, 1
  {
    hide Lands, Gen, GenForms, GenSeq, Accepts, AcceptsForms, AcceptsSeq, Count, CountForms, CountSeq, Slots, SlotsForms, Next, TypedFixnum, TypedFixnumForms;
    UnfoldForms(rt, body, dest, cx);
    LandsNil(dest);
    if body.NoForms? {
    } else if body.tail.NoForms? {
      LandsForm(rt, body.head, dest, cx);
    } else {
      LandsSeq(rt, body, cx);
      LandsConcat(GenSeq(rt, body, cx), PushIfStack(dest));
    }
  }

  lemma {:induction false} LandsSeq(rt: Runtime, body: Forms, cx: Context)
    ensures Lands(GenSeq(rt, body, cx))
    decreases body, 0
  {
    hide Lands, Gen, GenSeq, Accepts, AcceptsSeq, Count, CountSeq, Slots, SlotsForms, Next, TypedFixnum, TypedFixnumForms;
    if body.NoForms? {
      EndedSeq(rt, body, cx);
      LandsNothing();
    } else {
      UnfoldSeq(rt, body, cx);
      LandsForm(rt, body.head, ToEax, cx);
      LandsSeq(rt, body.tail, Next(cx, body.head, ToEax));
      LandsConcat(Gen(rt, body.head, ToEax, cx), GenSeq(rt, body.tail, Next(cx, body.head, ToEax)));
    }
  }

  lemma LandsNothing()
    ensures Lands([])
  {
  }

  lemma {:induction false} LandsSetq(rt: Runtime, b: Binds, cx: Context)
    ensures Lands(GenSetq(rt, b, cx))
    decreases b, 0
  {
    hide Lands, Gen, GenSetq, GenAssign, Accepts, AcceptsSetq, Count, CountInits, Slots, SlotsSetq, Next, TypedFixnum, TypedFixnumBinds, FindLet;
    if b.NoBinds? {
      EndedSetq(rt, b, cx);
      LandsNothing();
    } else {
      UnfoldSetqPair(rt, b, cx);
      var cx1 := Next(cx, b.init, ToOperand);
      LandsForm(rt, b.init, ToOperand, cx);
      LandsAssign(rt, b.name, cx1);
      LandsSetq(rt, b.rest, cx1);
      LandsConcat(Gen(rt, b.init, ToOperand, cx), GenAssign(rt, b.name, cx1));
      LandsConcat(Gen(rt, b.init, ToOperand, cx) + GenAssign(rt, b.name, cx1), GenSetq(rt, b.rest, cx1));
    }
  }

  lemma {:induction false} LandsInit(rt: Runtime, x: Form, cx: Context)
    ensures Lands(InitCode(rt, x, cx))
    decreases x, 4
  {
    hide Lands, Gen;
    var store := [Plain(Store(EBP, SlotOffset(cx.env)))];
    LandsForm(rt, x, ToOperand, cx.(env := cx.env + 4));
    LandsStraight(store);
    LandsConcat(Gen(rt, x, ToOperand, cx.(env := cx.env + 4)), store);
  }

  lemma {:induction false} LandsInits(rt: Runtime, b: Binds, cx: Context)
    ensures Lands(GenInits(rt, b, cx))
    decreases b, 0
  {
    hide Lands, Gen, GenInits, Accepts, AcceptsInits, Count, CountInits, Slots, SlotsInits, Next, InitCode, LetRecs;
    if b.NoBinds? {
      EndedInits(rt, b, cx);
      LandsNothing();
    } else {
      UnfoldInit(rt, b, cx);
      var cx1 := Next(cx.(env := cx.env + 4), b.init, ToOperand);
      LandsInit(rt, b.init, cx);
      LandsInits(rt, b.rest, cx1);
      LandsConcat(InitCode(rt, b.init, cx), GenInits(rt, b.rest, cx1));
    }
  }

  lemma {:induction false} LandsChain(rt: Runtime, b: Chain, cx: Context)
    ensures Lands(GenChain(rt, b, cx))
    decreases b, 0
  {
    hide Lands, Gen, GenChain, GenForms, Accepts, AcceptsChain, AcceptsForms, Count, CountChain, CountForms, Slots, SlotsChain, SlotsForms, Next, InitCode,
         TypedFixnumChain, TypedFixnumForms;
    UnfoldChain(rt, b, cx);
    match b
    case Body(body) => LandsForms(rt, body, ToEax, cx);
    case Bind(n, x, rest) =>
      LandsInit(rt, x, cx);
      LandsChain(rt, rest, BindContext(cx, n, x));
      LandsConcat(InitCode(rt, x, cx), GenChain(rt, rest, BindContext(cx, n, x)));
  }

  lemma {:induction false} LandsItems(rt: Runtime, items: Items, cx: Context)
    ensures Lands(GenItems(rt, items, cx))
    decreases items, 0
  {
    hide Lands, Gen, GenItems, Accepts, AcceptsItems, Count, CountItems, Slots, SlotsItems, Next, TagOffsets;
    match items
    case NoItems =>
      EndedItems(rt, items, cx, 0);
      LandsNothing();
    case Tag(_, rest) =>
      UnfoldTag(rt, items, cx);
      LandsItems(rt, rest, cx);
    case Stmt(x, rest) =>
      UnfoldStmt(rt, items, cx);
      LandsForm(rt, x, ToEax, cx);
      LandsItems(rt, rest, Next(cx, x, ToEax));
      LandsConcat(Gen(rt, x, ToEax, cx), GenItems(rt, rest, Next(cx, x, ToEax)));
  }

  lemma LandsCompare(test: Form)
    ensures Lands(TestCompare(test))
  {
    hide Lands;
    LandsStraight(TestCompare(test));
  }

  lemma {:induction false} LandsIf(rt: Runtime, x: Form, dest: Dest, cx: Context)
    requires x.If?
    ensures Lands(Gen(rt, x, dest, cx))
    decreases x, 2
  {
    hide Lands, Gen, Count, Slots, Next, TestDest, TestCompare, IfCode, IfElseCode;
    UnfoldIf(rt, x, dest, cx);
    var dt := TestDest(x.test, x.test.NumEqual?);
    var g, thn := Gen(rt, x.test, dt, cx), Gen(rt, x.thn, ToEax, Next(cx, x.test, dt));
    LandsForm(rt, x.test, dt, cx);
    LandsForm(rt, x.thn, ToEax, Next(cx, x.test, dt));
    LandsCompare(x.test);
    LandsNil(ToEax);
    LandsConcat(g, TestCompare(x.test));
    LandsIfCode(g + TestCompare(x.test), thn, dest);
    LandsIfElseCode(g + TestCompare(x.test), NE, thn, GenNil(ToEax), dest);
  }

  lemma {:induction false} LandsIfElse(rt: Runtime, x: Form, dest: Dest, cx: Context)
    requires x.IfElse?
    ensures Lands(Gen(rt, x, dest, cx))
    decreases x, 2
  {
    hide Lands, Gen, Count, Slots, Next, TestDest, TestCompare, IfElseCode;
    UnfoldIfElse(rt, x, dest, cx);
    var dt := TestDest(x.test, true);
    var cx1 := Next(cx, x.test, dt);
    var cx2 := Next(cx1, x.thn, ToEax);
    LandsForm(rt, x.test, dt, cx);
    LandsForm(rt, x.thn, ToEax, cx1);
    LandsForm(rt, x.els, ToEax, cx2);
    LandsCompare(x.test);
    LandsConcat(Gen(rt, x.test, dt, cx), TestCompare(x.test));
    LandsIfElseCode(Gen(rt, x.test, dt, cx) + TestCompare(x.test), TestCond(x.test), Gen(rt, x.thn, ToEax, cx1), Gen(rt, x.els, ToEax, cx2), dest);
  }

  lemma {:induction false} LandsLet(rt: Runtime, x: Form, dest: Dest, cx: Context)
    requires x.Let?
    ensures Lands(Gen(rt, x, dest, cx))
    decreases x, 2
  {
    hide Lands, Gen, GenInits, GenForms, Accepts, AcceptsInits, AcceptsForms, Count, CountInits, CountForms, Slots, LetContext;
    UnfoldLet(rt, x, dest, cx);
    var g, b := GenInits(rt, x.binds, cx), GenForms(rt, x.body, ToEax, LetContext(cx, x.binds));
    LandsInits(rt, x.binds, cx);
    LandsForms(rt, x.body, ToEax, LetContext(cx, x.binds));
    LandsNil(dest);
    LandsConcat(g, b);
    LandsConcat(g + b, PushIfStack(dest));
  }

  lemma {:induction false} LandsBlock(rt: Runtime, x: Form, dest: Dest, cx: Context)
    requires x.Block?
    ensures Lands(Gen(rt, x, dest, cx))
    decreases x, 2
  {
    hide Lands, StartsAt, Gen, GenForms, Accepts, AcceptsForms, Count, CountForms, Slots, Size, SettleAll;
    UnfoldBlock(rt, x, dest, cx);
    var b := GenForms(rt, x.body, ToEax, BlockContext(cx, x.name));
    LandsForms(rt, x.body, ToEax, BlockContext(cx, x.name));
    StartsEnd(b);
    LandsSettled(b, |cx.recs|, [Size(b)]);
    LandsNil(dest);
    LandsConcat(SettleAll(b, 0, |cx.recs|, [Size(b)]), PushIfStack(dest));
  }

  lemma LandsExit(diff: int, l: Label)
    ensures Lands(Adjust(diff) + [Exit(l)])
  {
    hide Lands;
    LandsStraight(Adjust(diff) + [Exit(l)]);
  }

  lemma {:induction false} LandsReturn(rt: Runtime, x: Form, dest: Dest, cx: Context)
    requires x.ReturnFrom?
    ensures Lands(Gen(rt, x, dest, cx))
    decreases x, 2
  {
    hide Lands, Gen, Accepts, Count, Slots, Next, Adjust, FindBlock;
    var k := FindBlock(cx.recs, x.name);
    if k < 0 {
      NoBlock(rt, x, dest, cx);
      LandsNothing();
    } else {
      ReturnGen(rt, x, dest, cx);
      var diff := Next(cx, x.value, dest).si - cx.recs[k].depth;
      var g, a, e := Gen(rt, x.value, dest, cx), Adjust(diff), [Exit(Label(k, 0))];
      LandsForm(rt, x.value, dest, cx);
      LandsExit(diff, Label(k, 0));
      LandsConcat(g, a + e);
      assert g + (a + e) == g + a + e;
    }
  }

  lemma NoBlock(rt: Runtime, x: Form, dest: Dest, cx: Context)
    requires x.ReturnFrom? && FindBlock(cx.recs, x.name) < 0
    ensures Gen(rt, x, dest, cx) == []
  {
    hide FindBlock, Next, Adjust;
  }

  lemma LandsGo(rt: Runtime, x: Form, dest: Dest, cx: Context)
    requires x.Go?
    ensures Lands(Gen(rt, x, dest, cx))
  {
    hide Lands, Adjust, FindTags, IndexOf;
    var k := FindTags(cx.recs, x.tag);
    if k < 0 {
      LandsNothing();
    } else {
      LandsExit(cx.si - cx.recs[k].depth, Label(k, IndexOf(cx.recs[k].tags, x.tag)));
    }
  }

  /** Every tag's address is where its statements begin. */
  lemma {:induction false} TagStarts(rt: Runtime, items: Items, cx: Context, pre: Code, i: nat)
    requires i < |TagOffsets(rt, items, cx, Size(pre))|
    ensures StartsAt(pre + GenItems(rt, items, cx), TagOffsets(rt, items, cx, Size(pre))[i])
    decreases items
  {
    hide StartsAt, Size, Gen, Next;
    match items
    case NoItems =>
    case Tag(_, rest) =>
      if i == 0 {
        StartsBetween(pre, GenItems(rt, items, cx));
      } else {
        TagStarts(rt, rest, cx, pre, i - 1);
      }
    case Stmt(x, rest) =>
      var g, cx1 := Gen(rt, x, ToEax, cx), Next(cx, x, ToEax);
      SizeConcat(pre, g);
      TagStarts(rt, rest, cx1, pre + g, i);
      assert pre + g + GenItems(rt, rest, cx1) == pre + GenItems(rt, items, cx);
  }

  lemma {:induction false} LandsTagbody(rt: Runtime, x: Form, dest: Dest, cx: Context)
    requires x.Tagbody?
    ensures Lands(Gen(rt, x, dest, cx))
    decreases x, 2
  {
    hide Lands, StartsAt, Gen, GenItems, Accepts, AcceptsItems, Count, CountItems, Slots, SettleAll, TagbodyPre, HasStmt, Size, TagOffsets;
    UnfoldTagbody(rt, x, dest, cx);
    LandsNil(dest);
    if HasStmt(x.items) {
      var inner := TagsContext(cx, x.items);
      var pre, g, targets := TagbodyPre(x.items), GenItems(rt, x.items, inner), TagbodyTargets(rt, x.items, inner);
      LandsItems(rt, x.items, inner);
      LandsPre(x.items);
      LandsNil(ToEax);
      LandsConcat(pre, g);
      LandsConcat(pre + g, GenNil(ToEax));
      forall t | 0 <= t < |targets|
        ensures StartsAt(pre + g + GenNil(ToEax), targets[t])
      {
        TagStarts(rt, x.items, inner, pre, t);
        StartsWithin(pre + g, GenNil(ToEax), targets[t]);
      }
      LandsSettled(pre + g + GenNil(ToEax), |cx.recs|, targets);
      LandsConcat(SettleAll(pre + g + GenNil(ToEax), 0, |cx.recs|, targets), PushIfStack(dest));
    }
  }

  lemma LandsPre(items: Items)
    ensures Lands(TagbodyPre(items))
  {
    hide Lands;
    LandsNil(ToEax);
    LandsNothing();
  }

  lemma {:induction false} LandsCall(rt: Runtime, x: Form, dest: Dest, cx: Context)
    requires IsCall(x)
    ensures Lands(Gen(rt, x, dest, cx))
    decreases x, 2
  {
    hide Lands, Gen, Next, CallTail, Arg1Dest;
    UnfoldCallGen(rt, x, dest, cx);
    var d1 := Arg1Dest(x);
    var a, b := Gen(rt, x.arg1, d1, cx), Gen(rt, x.arg2, ToOperand, Next(cx, x.arg1, d1));
    LandsForm(rt, x.arg1, d1, cx);
    LandsForm(rt, x.arg2, ToOperand, Next(cx, x.arg1, d1));
    LandsArguments(rt, x, cx, a, b);
    LandsTail(rt, x, dest, cx.check);
    LandsConcat(Gen2(rt, x, x.arg1, x.arg2, cx), CallTail(rt, x, dest, cx.check));
  }

  lemma LandsArguments(rt: Runtime, x: Form, cx: Context, a: Code, b: Code)
    requires IsCall(x) && Lands(a) && Lands(b)
    requires a == Gen(rt, x.arg1, Arg1Dest(x), cx) && b == Gen(rt, x.arg2, ToOperand, Next(cx, x.arg1, Arg1Dest(x)))
    ensures Lands(Gen2(rt, x, x.arg1, x.arg2, cx))
  {
    hide Lands, Gen, Next, Arg1Dest;
    Arg1DestCases(x);
    var mov := [Plain(Mov(EDX, EAX))];
    LandsStraight(mov);
    LandsStraight(Collect(x));
    LandsConcat(a, mov);
    LandsConcat(a + mov, b);
    LandsConcat(a, b);
    LandsConcat(a + b, Collect(x));
    if x.ArithCall? && Arg1Dest(x) == ToOperand {
      LiteralSecond(x);
      LandsStraight([Plain(MovObj(EDX, x.arg2.w))]);
      LandsConcat(a, [Plain(MovObj(EDX, x.arg2.w))]);
    }
  }

  lemma LiteralSecond(x: Form)
    requires x.ArithCall? && Arg1Dest(x) == ToOperand
    ensures x.arg2.Lit?
  {
  }

  // ----- where the exits lead -----

  /** Item k of the code branches to item j. */
  predicate LeadsTo(c: Code, k: nat, j: nat)
    requires k < |c|
  {
    Branch(c[k]).Some? && BeginsAt(c, j, Size(c[..k + 1]) + Branch(c[k]).value)
  }

  /** A pending exit that is settled leads to the target of its label. */
  lemma ExitLeads(c: Code, rec: nat, targets: seq<int>, k: nat, j: nat, rest: Code)
    requires k < |c| && c[k].Exit? && c[k].target.rec == rec && c[k].target.tag < |targets|
    requires BeginsAt(c, j, targets[c[k].target.tag])
    ensures |SettleAll(c, 0, rec, targets)| == |c| && LeadsTo(SettleAll(c, 0, rec, targets) + rest, k, j)
  {
    hide Size, SettleAll;
    var s := SettleAll(c, 0, rec, targets);
    SettledAt(c, 0, rec, targets, k);
    SettledFront(c, 0, rec, targets, k + 1);
    SettledFront(c, 0, rec, targets, j);
    SizeSnoc(c, k);
    assert (s + rest)[..k + 1] == s[..k + 1] && (s + rest)[..j] == s[..j];
  }

  /** RETURN-FROM: every exit that the body of a block has to it leads to the block's end. */
  lemma BlockExits(rt: Runtime, x: Form, dest: Dest, cx: Context, k: nat)
    requires x.Block?
    requires var b := GenForms(rt, x.body, ToEax, BlockContext(cx, x.name)); k < |b| && b[k] == Exit(Label(|cx.recs|, 0))
    ensures var b, c := GenForms(rt, x.body, ToEax, BlockContext(cx, x.name)), Gen(rt, x, dest, cx);
            |b| <= |c| && LeadsTo(c, k, |b|) && c[|b|..] == PushIfStack(dest)
  {
    hide Gen, GenForms, Accepts, AcceptsForms, Count, CountForms, Slots, Size, SettleAll, PushIfStack;
    UnfoldBlock(rt, x, dest, cx);
    var b := GenForms(rt, x.body, ToEax, BlockContext(cx, x.name));
    assert b[..|b|] == b;
    ExitLeads(b, |cx.recs|, [Size(b)], k, |b|, PushIfStack(dest));
  }

  /** Where a tag stands in the code of the statements: behind it is the code of the statements after the tag. */
  ghost predicate TagStands(rt: Runtime, items: Items, recs: seq<Rec>, tag: Name, c: Code, j: nat) {
    j <= |c| && exists cx: Context :: cx.recs == recs && c[j..] == GenItems(rt, After(items, tag), cx)
  }

  lemma {:induction false} TagPlace(rt: Runtime, items: Items, cx: Context, pre: Code, tag: Name) returns (j: nat)
    requires tag in TagNames(items)
    ensures TagStands(rt, items, cx.recs, tag, pre + GenItems(rt, items, cx), j)
    ensures var t := IndexOf(TagNames(items), tag);
            t < |TagOffsets(rt, items, cx, Size(pre))| && BeginsAt(pre + GenItems(rt, items, cx), j, TagOffsets(rt, items, cx, Size(pre))[t])
    decreases items
  {
    hide Size, Gen, Next, GenItems, TagOffsets;
    match items
    case NoItems =>
    case Tag(t, rest) =>
      UnfoldTag(rt, items, cx);
      TagHead(rt, t, rest, cx, Size(pre), tag);
      if t == tag {
        j := |pre|;
        assert (pre + GenItems(rt, items, cx))[..j] == pre;
        assert (pre + GenItems(rt, items, cx))[j..] == GenItems(rt, After(items, tag), cx);
      } else {
        j := TagPlace(rt, rest, cx, pre, tag);
      }
    case Stmt(x, rest) =>
      var g, cx1 := Gen(rt, x, ToEax, cx), Next(cx, x, ToEax);
      UnfoldStmt(rt, items, cx);
      StmtHead(rt, x, rest, cx, Size(pre));
      SizeConcat(pre, g);
      j := TagPlace(rt, rest, cx1, pre + g, tag);
      assert cx1.recs == cx.recs && After(items, tag) == After(rest, tag) by { NextEnv(cx, x, ToEax); }
      assert pre + g + GenItems(rt, rest, cx1) == pre + GenItems(rt, items, cx);
  }

  /** GO: every exit that a TAGBODY has to one of its tags leads to the statements after it. */
  lemma TagExits(rt: Runtime, x: Form, dest: Dest, cx: Context, tag: Name, k: nat) returns (j: nat)
    requires x.Tagbody? && HasStmt(x.items) && tag in TagNames(x.items)
    requires var body := TagbodyPre(x.items) + GenItems(rt, x.items, TagsContext(cx, x.items));
             k < |body| && body[k] == Exit(Label(|cx.recs|, IndexOf(TagNames(x.items), tag)))
    ensures var body := TagbodyPre(x.items) + GenItems(rt, x.items, TagsContext(cx, x.items));
            TagStands(rt, x.items, TagsContext(cx, x.items).recs, tag, body, j) && k < |Gen(rt, x, dest, cx)| && LeadsTo(Gen(rt, x, dest, cx), k, j)
  {
    hide Gen, GenItems, Accepts, AcceptsItems, Count, CountItems, Slots, Size, SettleAll, PushIfStack, TagbodyPre, TagOffsets, HasStmt, TagStands, IndexOf;
    UnfoldTagbody(rt, x, dest, cx);
    var inner := TagsContext(cx, x.items);
    var pre, g, targets := TagbodyPre(x.items), GenItems(rt, x.items, inner), TagbodyTargets(rt, x.items, inner);
    j := TagPlace(rt, x.items, inner, pre, tag);
    var c := pre + g + GenNil(ToEax);
    assert c[..j] == (pre + g)[..j];
    ExitLeads(c, |cx.recs|, targets, k, j, PushIfStack(dest));
  }

  // ----- whole programs -----

  lemma {:induction false} RepeatStraight(n: nat)
    ensures Branchless(Repeat(Plain(Push(EAX)), n))
  {
    if n > 0 {
      RepeatStraight(n - 1);
    }
  }

  /** The loop of the prolog goes back to its first instruction. */
  lemma LandsLoop()
    ensures Lands(PushLoop())
  {
    var c := PushLoop();
    LoopSize();
    assert c[..3] == c && c[..0] == [];
    assert BeginsAt(c, 0, 0);
    assert StartsAt(c, Size(c[..3]) + -4);
    hide Size, StartsAt;
    assert Branch(c[0]).None? && Branch(c[1]).None? && Branch(c[2]) == Some(-4);
  }

  lemma LandsProlog(envSize: nat)
    requires envSize <= REACH
    ensures Lands(Prolog(envSize))
  {
    hide Lands, PushLoop, Repeat;
    var start := [Plain(Push(EBP)), Plain(Mov(EBP, ESP)), Plain(Push(EDI))];
    RepeatStraight((envSize + 3) / 4);
    LandsStraight(Repeat(Plain(Push(EAX)), (envSize + 3) / 4));
    LandsAfter([LoadNil()], Repeat(Plain(Push(EAX)), (envSize + 3) / 4));
    LandsLoop();
    LandsAfter([Plain(MovImm(EDX, envSize / 4))], PushLoop());
    LandsAfter([LoadNil()], [Plain(MovImm(EDX, envSize / 4))] + PushLoop());
    LandsNothing();
    LandsAfter(start, FillCode(envSize));
  }

  /** Item j of code that the image holds is found at its offset. */
  lemma {:induction false} FoundAt(img: Image, pc: int, c: Code, j: nat)
    requires CodeAt(img, pc, c, map[]) && j < |c|
    ensures c[j].I? && pc + Size(c[..j]) in img && img[pc + Size(c[..j])] == Fetched(c[j].ins, Len(c[j]))
    decreases j
  {
    hide Len;
    if j > 0 {
      FoundAt(img, pc + Len(c[0]), c[1..], j - 1);
      assert c[..j][1..] == c[1..][..j - 1] && c[1..][j - 1] == c[j];
    }
  }

  /**
   In the bytes of a whole program no branch is pending, and each one leads to the place where an
   instruction of the program begins.
   */
  lemma BranchesResolve(rt: Runtime, x: Form, check: bool, k: nat)
    requires rt.Linked() && Bounded(rt, x, check) && Accepts(rt, x, ToEax, Start(check)) && Count(x, ToEax, StackGo) == 0
    requires k < |ExpressionCode(rt, x, check)|
    ensures Resolved(ByteImage(BytesOf(ExpressionCode(rt, x, check))), ExpressionCode(rt, x, check), k)
  {
    hide Lands, StartsAt, Gen, Prolog, Epilog, Size, CodeAt, ByteImage, BytesOf, Accepts, Count, Slots, rt.Linked;
    var p, g, e := Prolog(4 * Slots(x)), Gen(rt, x, ToEax, Start(check)), Epilog();
    var c, img := ExpressionCode(rt, x, check), ByteImage(BytesOf(ExpressionCode(rt, x, check)));
    ProgramHolds(rt, x, check);
    FoundAt(img, 0, c, k);
    LandsProlog(4 * Slots(x));
    LandsForm(rt, x, ToEax, Start(check));
    LandsConcat(p, g);
    assert c == p + g + e;
    if Branch(c[k]).Some? {
      EpilogStraight();
      BranchInFront(p + g, e, k);
      assert c[k] == (p + g)[k] && c[..k + 1] == (p + g)[..k + 1];
      LandsAt(p + g, k);
      StartFound(img, p + g, e, Size(c[..k + 1]) + Branch(c[k]).value);
    }
  }

  /** The item is an instruction, and if it branches, then to the beginning of an instruction. */
  ghost predicate Resolved(img: Image, c: Code, k: nat)
    requires k < |c|
  {
    c[k].I? && (Branch(c[k]).Some? ==> AnInstruction(img, c, Size(c[..k + 1]) + Branch(c[k]).value))
  }

  ghost predicate AnInstruction(img: Image, c: Code, at: int) {
    exists j :: 0 <= j < |c| && InstructionAt(img, c, j, at)
  }

  predicate InstructionAt(img: Image, c: Code, j: nat, at: int)
    requires j < |c|
  {
    BeginsAt(c, j, at) && c[j].I? && at in img && img[at] == Fetched(c[j].ins, Len(c[j]))
  }

  lemma BranchInFront(a: Code, b: Code, k: nat)
    requires Branchless(b) && k < |a + b| && Branch((a + b)[k]).Some?
    ensures k < |a|
  {
    hide Branch;
  }

  lemma EpilogStraight()
    ensures Branchless(Epilog()) && |Epilog()| > 0
  {
  }

  lemma StartFound(img: Image, a: Code, b: Code, at: int)
    requires CodeAt(img, 0, a + b, map[]) && StartsAt(a, at) && |b| > 0
    ensures AnInstruction(img, a + b, at)
  {
    hide CodeAt, Size;
    var j :| BeginsAt(a, j, at);
    assert (a + b)[..j] == a[..j];
    FoundAt(img, 0, a + b, j);
    assert InstructionAt(img, a + b, j, at);
  }
}
