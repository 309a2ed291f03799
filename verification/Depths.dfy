/**
 Stack depth and control flow: a branch leaves with the depth that the instruction it leads to is
 compiled for.  First the pieces of which the code of forms is put together.
 */
module Depths {
  import opened Options
  import opened Words
  import opened X86
  import opened Runtime
  import opened Machine
  import opened Lisp
  import opened CodeGen
  import opened Tails
  import opened Predicates
  import opened Layout
  import opened Calls
  import opened Exits
  import opened Parts
  import opened Stages
  import opened Landings
  import opened StackIndex

  /** The displacement of a branch, from the end of its instruction. */
  function Branch(it: Item): Option<int> {
    match it
    case I(Jmp32(d), _) => Some(d)
    case I(Jcc32(_, d), _) => Some(d)
    case I(Jmp8(d), _) => Some(d)
    case I(Jcc8(_, d), _) => Some(d)
    case _ => None
  }

  /** Item j begins at offset o; the end counts as a beginning. */
  predicate BeginsAt(c: Code, j: int, o: int) {
    0 <= j <= |c| && Size(c[..j]) == o
  }

  /** The adjustment in front of an exit: operands are dropped, but the compiler's index is put back. */
  predicate Drops(it: Item) {
    it.I? && it.note.PutBack?
  }

  predicate Jumps(it: Item) {
    it.Exit? || (it.ins.Jmp32? && !it.note.PutBack?)
  }

  /** Every adjustment is followed by its jump, and ESP is not loaded from EBP. */
  predicate Tidy(c: Code) {
    forall k :: 0 <= k < |c| ==> TidyAt(c, k)
  }

  predicate TidyAt(c: Code, k: nat)
    requires k < |c|
  {
    && (c[k].I? ==> c[k].ins != Mov(ESP, EBP))
    && (Drops(c[k]) ==> k + 1 < |c| && Jumps(c[k + 1]))
  }

  /**
   The bytes between ESP at the start of the code and ESP when control comes to item j: the stack
   index there, less what an adjustment just executed has dropped.
   */
  function Depth(c: Code, j: nat): int
    requires j <= |c|
  {
    Effect(c[..j]) + if j > 0 && Drops(c[j - 1]) then StackEffect(c[j - 1].ins) else 0
  }

  /** An item begins at offset o, and control comes to it with depth d. */
  ghost predicate ArrivesAt(c: Code, o: int, d: int) {
    exists j: nat :: BeginsAt(c, j, o) && Depth(c, j) == d
  }

  /** Every branch leads to an item, and leaves with that item's depth. */
  ghost predicate Even(c: Code) {
    && Tidy(c)
    && forall k :: 0 <= k < |c| && Branch(c[k]).Some? ==> ArrivesAt(c, Size(c[..k + 1]) + Branch(c[k]).value, Depth(c, k))
  }

  predicate Branchless(c: Code) {
    forall k :: 0 <= k < |c| ==> Branch(c[k]).None?
  }

  /** No branch and no adjustment. */
  predicate Straight(c: Code) {
    forall k :: 0 <= k < |c| ==> Branch(c[k]).None? && !Drops(c[k]) && (c[k].I? ==> c[k].ins != Mov(ESP, EBP))
  }

  // ----- depths in composed code -----

  lemma DepthFront(a: Code, b: Code, j: nat)
    requires j <= |a|
    ensures Depth(a + b, j) == Depth(a, j)
  {
    hide Effect, Drops;
    assert (a + b)[..j] == a[..j];
  }

  lemma DepthEnds(c: Code)
    requires Tidy(c)
    ensures Depth(c, |c|) == Effect(c) && Depth(c, 0) == 0
  {
    hide Drops, Effect, Jumps;
    EffectNothing();
    assert c[..|c|] == c && c[..0] == [];
    if |c| > 0 {
      assert TidyAt(c, |c| - 1);
    }
  }

  lemma DepthBack(a: Code, b: Code, j: nat)
    requires Tidy(a) && j <= |b|
    ensures Depth(a + b, |a| + j) == Effect(a) + Depth(b, j)
  {
    hide Effect, Drops;
    if j == 0 {
      DepthEnds(a);
      DepthFront(a, b, |a|);
      assert b[..0] == [];
      EffectNothing();
    } else {
      assert (a + b)[..|a| + j] == a + b[..j];
      EffectConcat(a, b[..j]);
    }
  }

  lemma EffectSnoc(c: Code, k: nat)
    requires k < |c|
    ensures Effect(c[..k + 1]) == Effect(c[..k]) + ItemEffect(c[k])
  {
    hide Effect, ItemEffect;
    assert c[..k + 1] == c[..k] + [c[k]];
    EffectConcat(c[..k], [c[k]]);
    EffectOne(c[k]);
  }

  /** Executing an item moves ESP by what its instruction does; after an adjustment only the jump follows. */
  lemma DepthStep(c: Code, k: nat)
    requires k < |c| && (k > 0 ==> !Drops(c[k - 1]))
    ensures Depth(c, k + 1) == Depth(c, k) + if c[k].I? then StackEffect(c[k].ins) else 0
  {
    hide Effect, StackEffect;
    EffectSnoc(c, k);
  }

  lemma TidyConcat(a: Code, b: Code)
    requires Tidy(a) && Tidy(b)
    ensures Tidy(a + b)
  {
    hide Drops, Jumps;
    var c := a + b;
    forall k | 0 <= k < |c|
      ensures TidyAt(c, k)
    {
      assert if k < |a| then TidyAt(a, k) else TidyAt(b, k - |a|);
    }
  }

  lemma TidyStraight(c: Code)
    requires Straight(c)
    ensures Tidy(c)
  {
    hide Drops, Jumps, Branch;
  }

  /** Where the first part ends. */
  lemma ArrivesBetween(a: Code, b: Code)
    requires Tidy(a)
    ensures ArrivesAt(a + b, Size(a), Effect(a))
  {
    hide Size, Effect, Tidy, Depth;
    assert (a + b)[..|a|] == a;
    DepthEnds(a);
    DepthFront(a, b, |a|);
    assert BeginsAt(a + b, |a|, Size(a));
  }

  lemma ArrivesEnd(c: Code)
    requires Tidy(c)
    ensures ArrivesAt(c, Size(c), Effect(c)) && ArrivesAt(c, 0, 0)
  {
    hide Effect, Tidy, Depth;
    assert c[..|c|] == c && c[..0] == [];
    DepthEnds(c);
    assert BeginsAt(c, |c|, Size(c)) && BeginsAt(c, 0, 0);
  }

  lemma ArrivesWithin(a: Code, b: Code, o: int, d: int)
    requires ArrivesAt(a, o, d)
    ensures ArrivesAt(a + b, o, d)
  {
    hide Size, Depth;
    var j: nat :| BeginsAt(a, j, o) && Depth(a, j) == d;
    assert (a + b)[..j] == a[..j];
    DepthFront(a, b, j);
    assert BeginsAt(a + b, j, o);
  }

  lemma ArrivesAfter(a: Code, b: Code, o: int, d: int)
    requires Tidy(a) && ArrivesAt(b, o, d)
    ensures ArrivesAt(a + b, Size(a) + o, Effect(a) + d)
  {
    hide Size, Depth, Tidy, Effect;
    var j: nat :| BeginsAt(b, j, o) && Depth(b, j) == d;
    assert (a + b)[..|a| + j] == a + b[..j];
    SizeConcat(a, b[..j]);
    DepthBack(a, b, j);
    assert BeginsAt(a + b, |a| + j, Size(a) + o);
  }

  lemma EvenTidy(c: Code)
    requires Even(c)
    ensures Tidy(c)
  {
    hide ArrivesAt, Tidy;
  }

  lemma EvenAt(c: Code, k: nat)
    requires Even(c) && k < |c| && Branch(c[k]).Some?
    ensures ArrivesAt(c, Size(c[..k + 1]) + Branch(c[k]).value, Depth(c, k))
  {
    hide Size, ArrivesAt, Depth, Tidy;
  }

  lemma EvenConcat(a: Code, b: Code)
    requires Even(a) && Even(b)
    ensures Even(a + b)
  {
    hide Size, ArrivesAt, Branch, Depth, Tidy, Effect;
    TidyConcat(a, b);
    forall k | 0 <= k < |a + b| && Branch((a + b)[k]).Some?
      ensures ArrivesAt(a + b, Size((a + b)[..k + 1]) + Branch((a + b)[k]).value, Depth(a + b, k))
    {
      if k < |a| {
        EvenFront(a, b, k);
      } else {
        EvenBack(a, b, k - |a|);
      }
    }
  }

  lemma EvenFront(a: Code, b: Code, k: nat)
    requires Even(a) && k < |a| && Branch(a[k]).Some?
    ensures ArrivesAt(a + b, Size((a + b)[..k + 1]) + Branch(a[k]).value, Depth(a + b, k))
  {
    hide Size, ArrivesAt, Branch, Depth, Even;
    EvenAt(a, k);
    assert (a + b)[..k + 1] == a[..k + 1];
    DepthFront(a, b, k);
    ArrivesWithin(a, b, Size(a[..k + 1]) + Branch(a[k]).value, Depth(a, k));
  }

  lemma EvenBack(a: Code, b: Code, i: nat)
    requires Tidy(a) && Even(b) && i < |b| && Branch(b[i]).Some?
    ensures ArrivesAt(a + b, Size((a + b)[..|a| + i + 1]) + Branch(b[i]).value, Depth(a + b, |a| + i))
  {
    hide Size, ArrivesAt, Branch, Depth, Even, Tidy, Effect;
    EvenAt(b, i);
    assert (a + b)[..|a| + i + 1] == a + b[..i + 1];
    SizeConcat(a, b[..i + 1]);
    DepthBack(a, b, i);
    ArrivesAfter(a, b, Size(b[..i + 1]) + Branch(b[i]).value, Depth(b, i));
  }

  lemma EvenStraight(c: Code)
    requires Straight(c)
    ensures Even(c)
  {
    hide Size, ArrivesAt, Branch, Drops, Jumps;
  }

  lemma BranchEffect(it: Item)
    requires Branch(it).Some?
    ensures ItemEffect(it) == 0
  {
  }

  /** A branch in front of code that it lands in, where nothing has been pushed or popped. */
  lemma EvenBranch(it: Item, rest: Code)
    requires Branch(it).Some? && !Drops(it) && Even(rest) && ArrivesAt(rest, Branch(it).value, 0)
    ensures Even([it] + rest)
  {
    hide Size, ArrivesAt, Branch, Depth, Effect, Drops, Jumps, Tidy;
    var c := [it] + rest;
    OneTidy(it);
    TidyConcat([it], rest);
    EffectOne(it);
    BranchEffect(it);
    forall k | 0 <= k < |c| && Branch(c[k]).Some?
      ensures ArrivesAt(c, Size(c[..k + 1]) + Branch(c[k]).value, Depth(c, k))
    {
      if k == 0 {
        assert c[..1] == [it];
        DepthEnds(c);
        ArrivesAfter([it], rest, Branch(it).value, 0);
      } else {
        EvenBack([it], rest, k - 1);
      }
    }
  }

  lemma OneTidy(it: Item)
    requires Branch(it).Some? && !Drops(it)
    ensures Tidy([it])
  {
  }

  lemma EvenAfter(front: Code, rest: Code)
    requires Straight(front) && Even(rest)
    ensures Even(front + rest)
  {
    hide Even, Straight;
    EvenStraight(front);
    EvenConcat(front, rest);
  }

  // ----- settled branches -----

  lemma {:induction false} SettledAt(c: Code, pos: int, rec: nat, targets: seq<int>, k: nat)
    requires k < |c|
    ensures |SettleAll(c, pos, rec, targets)| == |c|
    ensures SettleAll(c, pos, rec, targets)[k] == SettleItem(c[k], pos + Size(c[..k]), rec, targets)
  {
    hide Size, SettleItem;
    SettleConcat(c[..k], c[k..], pos, rec, targets);
    assert c[..k] + c[k..] == c;
    SettleSize(c[..k], pos, rec, targets);
    SettleSize(c[k..], pos + Size(c[..k]), rec, targets);
    assert c[k..][0] == c[k];
  }

  lemma SettledFront(c: Code, pos: int, rec: nat, targets: seq<int>, j: nat)
    requires j <= |c|
    ensures |SettleAll(c, pos, rec, targets)| == |c| && SettleAll(c, pos, rec, targets)[..j] == SettleAll(c[..j], pos, rec, targets)
    ensures Size(SettleAll(c, pos, rec, targets)[..j]) == Size(c[..j])
  {
    hide Size, SettleAll;
    SettleConcat(c[..j], c[j..], pos, rec, targets);
    assert c[..j] + c[j..] == c;
    SettleSize(c[..j], pos, rec, targets);
    SettleSize(c[j..], pos + Size(c[..j]), rec, targets);
    var a, b := SettleAll(c[..j], pos, rec, targets), SettleAll(c[j..], pos + Size(c[..j]), rec, targets);
    assert (a + b)[..j] == a;
  }

  lemma SettledBranch(it: Item, pos: int, rec: nat, targets: seq<int>)
    ensures Branch(it).Some? ==> SettleItem(it, pos, rec, targets) == it
    ensures Branch(it).None? && Branch(SettleItem(it, pos, rec, targets)).Some? ==>
              it.Exit? && it.target.rec == rec && it.target.tag < |targets| && Len(it) == 5
              && Branch(SettleItem(it, pos, rec, targets)) == Some(targets[it.target.tag] - (pos + 5))
  {
  }

  lemma SizeSnoc(c: Code, k: nat)
    requires k < |c|
    ensures Size(c[..k + 1]) == Size(c[..k]) + Len(c[k])
  {
    hide Len;
    assert c[..k + 1] == c[..k] + [c[k]];
    SizeConcat(c[..k], [c[k]]);
    SizePair(c[k], c[k]);
  }

  /** Pointing a branch at its target makes it neither an adjustment nor anything but a jump. */
  lemma SettledKind(it: Item, pos: int, rec: nat, targets: seq<int>)
    ensures var s := SettleItem(it, pos, rec, targets);
            Drops(s) == Drops(it) && Jumps(s) == Jumps(it) && (s.I? && s.ins == Mov(ESP, EBP) ==> s == it) && (Drops(it) ==> s == it)
  {
  }

  lemma SettledDepth(c: Code, pos: int, rec: nat, targets: seq<int>, j: nat)
    requires j <= |c|
    ensures |SettleAll(c, pos, rec, targets)| == |c| && Depth(SettleAll(c, pos, rec, targets), j) == Depth(c, j)
  {
    hide Size, SettleAll, SettleItem, Effect, StackEffect, Drops;
    SettledFront(c, pos, rec, targets, j);
    EffectSettled(c[..j], pos, rec, targets);
    if j > 0 {
      SettledAt(c, pos, rec, targets, j - 1);
      SettledKind(c[j - 1], pos + Size(c[..j - 1]), rec, targets);
    }
  }

  lemma SettledTidy(c: Code, pos: int, rec: nat, targets: seq<int>)
    requires Tidy(c)
    ensures Tidy(SettleAll(c, pos, rec, targets))
  {
    hide Size, SettleAll, SettleItem, Drops, Jumps;
    var s := SettleAll(c, pos, rec, targets);
    SettleSize(c, pos, rec, targets);
    forall k | 0 <= k < |s|
      ensures TidyAt(s, k)
    {
      assert TidyAt(c, k);
      SettledAt(c, pos, rec, targets, k);
      SettledKind(c[k], pos + Size(c[..k]), rec, targets);
      if Drops(c[k]) {
        SettledAt(c, pos, rec, targets, k + 1);
        SettledKind(c[k + 1], pos + Size(c[..k + 1]), rec, targets);
      }
    }
  }

  lemma SettledArrives(c: Code, pos: int, rec: nat, targets: seq<int>, o: int, d: int)
    requires ArrivesAt(c, o, d)
    ensures ArrivesAt(SettleAll(c, pos, rec, targets), o, d)
  {
    hide Size, SettleAll, Depth;
    var j: nat :| BeginsAt(c, j, o) && Depth(c, j) == d;
    SettledFront(c, pos, rec, targets, j);
    SettledDepth(c, pos, rec, targets, j);
    assert BeginsAt(SettleAll(c, pos, rec, targets), j, o);
  }

  /** Every pending exit to record rec has a target of its own depth. */
  ghost predicate ExitsMeet(c: Code, rec: nat, targets: seq<int>) {
    forall k :: 0 <= k < |c| && c[k].Exit? && c[k].target.rec == rec && c[k].target.tag < |targets| ==>
      ArrivesAt(c, targets[c[k].target.tag], Depth(c, k))
  }

  /** Patched branches leave with the depth of their targets. */
  lemma EvenSettled(c: Code, rec: nat, targets: seq<int>)
    requires Even(c) && ExitsMeet(c, rec, targets)
    ensures Even(SettleAll(c, 0, rec, targets))
  {
    hide Size, ArrivesAt, SettleAll, Branch, Depth, Tidy, SettleItem;
    var s := SettleAll(c, 0, rec, targets);
    SettleSize(c, 0, rec, targets);
    SettledTidy(c, 0, rec, targets);
    forall k | 0 <= k < |s| && Branch(s[k]).Some?
      ensures ArrivesAt(s, Size(s[..k + 1]) + Branch(s[k]).value, Depth(s, k))
    {
      EvenSettledAt(c, rec, targets, k);
    }
  }

  lemma EvenSettledAt(c: Code, rec: nat, targets: seq<int>, k: nat)
    requires Even(c) && ExitsMeet(c, rec, targets) && k < |c| && |SettleAll(c, 0, rec, targets)| == |c|
    requires Branch(SettleAll(c, 0, rec, targets)[k]).Some?
    ensures var s := SettleAll(c, 0, rec, targets);
            ArrivesAt(s, Size(s[..k + 1]) + Branch(s[k]).value, Depth(s, k))
  {
    hide Size, ArrivesAt, SettleAll, Branch, Depth, Tidy, SettleItem;
    SettledAt(c, 0, rec, targets, k);
    SettledFront(c, 0, rec, targets, k + 1);
    SettledDepth(c, 0, rec, targets, k);
    SettledBranch(c[k], Size(c[..k]), rec, targets);
    SizeSnoc(c, k);
    if Branch(c[k]).Some? {
      EvenAt(c, k);
      SettledArrives(c, 0, rec, targets, Size(c[..k + 1]) + Branch(c[k]).value, Depth(c, k));
    } else {
      SettledArrives(c, 0, rec, targets, targets[c[k].target.tag], Depth(c, k));
    }
  }

  // ----- the templates -----

  lemma EvenNil(dest: Dest)
    ensures Even(GenNil(dest)) && Even(PushIfStack(dest)) && Even(Target(dest))
  {
    hide Even;
    EvenStraight(GenNil(dest));
    EvenStraight(PushIfStack(dest));
    EvenStraight(Target(dest));
  }

  lemma EvenGlobal(rt: Runtime, n: Name, dest: Dest)
    requires n in rt.vars
    ensures Even(GenGlobal(rt, n, dest))
  {
    hide Even, ArrivesAt, Size, UnboundCall, Target, Effect;
    var e := rt.vars[n];
    var u, t := UnboundCall(rt, e), Target(dest);
    var loads, j := [I(Load(EAX, ESI, e.offset), VarRef(n)), Plain(Load(EAX, EAX, -4)), Plain(CmpImm(UNINITIALIZED))], Plain(Jcc32(NE, Size(u)));
    assert GenGlobal(rt, n, dest) == loads + ([j] + (u + t));
    UnboundStraight(rt, e);
    EvenStraight(u);
    TidyStraight(u);
    EvenNil(dest);
    EvenConcat(u, t);
    EffectUnbound(rt, e);
    ArrivesBetween(u, t);
    EvenBranch(j, u + t);
    EvenAfter(loads, [j] + (u + t));
  }

  lemma UnboundStraight(rt: Runtime, e: VarEntry)
    ensures Straight(UnboundCall(rt, e))
  {
  }

  lemma EvenVar(rt: Runtime, n: Name, dest: Dest, cx: Context)
    ensures Even(GenVar(rt, n, dest, cx))
  {
    hide Even, FindLet, GenGlobal;
    if FindLet(cx.recs, n) < 0 && n in rt.vars {
      EvenGlobal(rt, n, dest);
    } else {
      EvenStraight(GenVar(rt, n, dest, cx));
    }
  }

  lemma EvenAssign(rt: Runtime, n: Name, cx: Context)
    ensures Even(GenAssign(rt, n, cx))
  {
    hide Even, FindLet;
    EvenStraight(GenAssign(rt, n, cx));
  }

  lemma EvenAtom(rt: Runtime, x: Form, dest: Dest, cx: Context)
    requires x.Lit? || x.SymLit? || x.NilForm? || x.Var?
    ensures Even(Gen(rt, x, dest, cx))
  {
    hide Even, Gen, GenVar;
    AtomCode(rt, x, dest, cx);
    match x
    case Lit(w) => EvenStraight(GenLit(w, dest));
    case SymLit(s, _) => EvenStraight(GenSym(s, dest));
    case NilForm => EvenNil(dest);
    case Var(n) => EvenVar(rt, n, dest, cx);
  }

  lemma TestEffect(needed: bool, t: Instr, dist: int)
    requires t == TestAl(7) || t == TestDl(7)
    ensures Effect(TagTest(needed, t, dist)) == 0 
  {
    EffectTwo(Plain(t), Plain(Jcc8(NE, dist)));
  }

  /** One tag test, branching dist bytes on. */
  lemma EvenTest(needed: bool, t: Instr, dist: int, rest: Code)
    requires (t == TestAl(7) || t == TestDl(7)) && Even(rest) && ArrivesAt(rest, dist, 0)
    ensures Even(TagTest(needed, t, dist) + rest)
  {
    hide Even, ArrivesAt, Size;
    if needed {
      var j := Plain(Jcc8(NE, dist));
      EvenBranch(j, rest);
      EvenAfter([Plain(t)], [j] + rest);
      assert TagTest(needed, t, dist) + rest == [Plain(t)] + ([j] + rest);
    } else {
      assert TagTest(needed, t, dist) + rest == rest;
    }
  }

  lemma TestTidy(needed: bool, t: Instr, dist: int)
    requires t == TestAl(7) || t == TestDl(7)
    ensures Tidy(TagTest(needed, t, dist))
  {
    var c := TagTest(needed, t, dist);
    assert forall k :: 0 <= k < |c| ==> c[k] == Plain(t) || c[k] == Plain(Jcc8(NE, dist));
  }

  lemma EvenTests(al: bool, dl: bool, dist: int, rest: Code)
    requires Even(rest) && ArrivesAt(rest, dist, 0)
    ensures Even(TagTests(al, dl, dist) + rest)
  {
    hide Even, ArrivesAt, Size, TagTest, Effect, Tidy;
    var t1, t2 := TagTest(al, TestAl(7), dist + (if dl then 5 else 0)), TagTest(dl, TestDl(7), dist);
    EvenTest(dl, TestDl(7), dist, rest);
    SizeTagTest(dl, dist);
    TestTidy(dl, TestDl(7), dist);
    TestEffect(dl, TestDl(7), dist);
    ArrivesAfter(t2, rest, dist, 0);
    EvenTest(al, TestAl(7), dist + (if dl then 5 else 0), t2 + rest);
    assert TagTests(al, dl, dist) + rest == t1 + (t2 + rest);
  }

  /** None of the items moves ESP. */
  predicate Still(c: Code) {
    forall k :: 0 <= k < |c| ==> ItemEffect(c[k]) == 0
  }

  lemma {:induction false} StillEffect(c: Code)
    requires Still(c)
    ensures Effect(c) == 0
    decreases c
  {
    hide ItemEffect;
    if c != [] {
      StillEffect(c[1..]);
    }
  }

  /** Code in which nothing is pushed or popped: its end and the start of what follows have depth 0. */
  lemma ArrivesStill(a: Code, b: Code)
    requires Tidy(a) && Still(a)
    ensures ArrivesAt(a + b, Size(a), 0) && ArrivesAt(a, Size(a), 0)
  {
    hide Effect, Tidy, Size, ArrivesAt, Still;
    StillEffect(a);
    ArrivesBetween(a, b);
    ArrivesEnd(a);
  }

  lemma EvenArith(rt: Runtime, fn: Arith, al: bool, dl: bool)
    ensures Even(ArithTail(rt, fn, al, dl))
  {
    hide Even, ArrivesAt, Size, TagTests, Len, Tidy;
    var (op, undo, r) := ArithParts(fn);
    var u, call, j := Plain(undo), CallRoutine(rt, r), Plain(Jcc8(NO, 8));
    ArithLengths(rt, fn);
    SizePair(u, call);
    EvenStraight([u, call]);
    TidyStraight([u, call]);
    ArrivesStill([u, call], []);
    EvenBranch(j, [u, call]);
    EvenAfter([Plain(op)], [j] + [u, call]);
    var front, rest := [Plain(op), j, u], [Plain(op)] + ([j] + [u, call]);
    ArithFront(fn);
    SizePair(Plain(op), j);
    SizePair(u, u);
    SizeConcat([Plain(op), j], [u]);
    assert [Plain(op), j] + [u] == front;
    ArrivesStill(front, [call]);
    assert rest == front + [call];
    EvenTests(al, dl, 6, rest);
    assert ArithTail(rt, fn, al, dl) == TagTests(al, dl, 6) + rest;
  }

  lemma ArithFront(fn: Arith)
    ensures var (op, undo, r) := ArithParts(fn);
            var front := [Plain(op), Plain(Jcc8(NO, 8)), Plain(undo)];
            Tidy(front) && Still(front)
  {
  }

  /** The comparison and its two loads, before the code over which the second branch leads. */
  lemma EvenSelect(cmp: Instr, cc: Cond, d: int, rest: Code)
    requires Branch(Plain(cmp)).None? && cmp != Mov(ESP, EBP) && Even([LoadT()] + rest) && ArrivesAt([LoadT()] + rest, d, 0)
    ensures Even([Plain(cmp), LoadNil(), Plain(Jcc8(cc, d)), LoadT()] + rest)
  {
    hide Even, ArrivesAt, Size;
    var j := Plain(Jcc8(cc, d));
    EvenBranch(j, [LoadT()] + rest);
    EvenAfter([Plain(cmp), LoadNil()], [j] + ([LoadT()] + rest));
    assert [Plain(cmp), LoadNil(), j, LoadT()] + rest == [Plain(cmp), LoadNil()] + ([j] + ([LoadT()] + rest));
  }

  lemma EvenPlainSelect(cmp: Instr, cc: Cond)
    requires Branch(Plain(cmp)).None? && cmp != Mov(ESP, EBP)
    ensures Even([Plain(cmp), LoadNil(), Plain(Jcc8(cc, 3)), LoadT()])
  {
    hide Even, ArrivesAt, Size;
    SelectLengths(cc, 3);
    SizePair(LoadT(), LoadT());
    EvenStraight([LoadT()]);
    TidyStraight([LoadT()]);
    ArrivesStill([LoadT()], []);
    assert [LoadT()] + [] == [LoadT()];
    EvenSelect(cmp, cc, 3, []);
    assert [Plain(cmp), LoadNil(), Plain(Jcc8(cc, 3)), LoadT()] + [] == [Plain(cmp), LoadNil(), Plain(Jcc8(cc, 3)), LoadT()];
  }

  /** The call of a predicate: straight code that leaves ESP where it was. */
  lemma CallStraight(rt: Runtime, r: Routine)
    ensures Straight(PredicateCall(rt, r)) && Effect(PredicateCall(rt, r)) == 0
  {
    EffectCall(rt, r);
  }

  /** From the second load on: over the call, if there is one. */
  lemma EvenOver(rt: Runtime, r: Routine, tested: bool, cc: Cond)
    ensures var call := if tested then PredicateCall(rt, r) else [];
            var over := Plain(Jmp8(if tested then 18 else 0));
            && Even([over] + call) && Even([LoadT()] + ([over] + call))
            && ArrivesAt([LoadT()] + ([over] + call), if tested then 23 else 5, 0)
  {
    hide Even, ArrivesAt, Size, PredicateCall, Len, Effect, Tidy, Straight;
    var call := if tested then PredicateCall(rt, r) else [];
    var over := Plain(Jmp8(if tested then 18 else 0));
    CallLengths(rt, r);
    NothingSize();
    EffectNothing();
    SelectLengths(cc, 18);
    SelectLengths(cc, 0);
    CallStraight(rt, r);
    NothingStraight();
    EvenStraight(call);
    TidyStraight(call);
    ArrivesEnd(call);
    EvenBranch(over, call);
    LoadOver(over);
    EvenAfter([LoadT()], [over] + call);
    SizePair(LoadT(), over);
    assert [LoadT()] + ([over] + call) == [LoadT(), over] + call;
    ArrivesAfter([LoadT(), over], call, Size(call), 0);
  }

  lemma LoadOver(over: Item)
    requires Branch(over).Some? && !Drops(over)
    ensures Straight([LoadT()]) && Tidy([LoadT(), over]) && Effect([LoadT(), over]) == 0
  {
    EffectTwo(LoadT(), over);
  }

  lemma NothingStraight()
    ensures Straight([])
  {
  }

  lemma NothingSize()
    ensures Size([]) == 0
  {
  }

  lemma EvenPredicate(rt: Runtime, r: Routine, cc: Cond, al: bool, dl: bool)
    ensures Even(PredicateTail(rt, r, cc, al, dl))
  {
    hide Even, ArrivesAt, Size, TagTests, PredicateCall, Len;
    var tested := al || dl;
    var call := if tested then PredicateCall(rt, r) else [];
    var over := Plain(Jmp8(if tested then 18 else 0));
    var d := if tested then 23 else 5;
    EvenOver(rt, r, tested, cc);
    EvenSelect(CmpEaxEdx, cc, d, [over] + call);
    EvenPlainSelect(CmpEaxEdx, cc);
    var front := [Plain(CmpEaxEdx), LoadNil(), Plain(Jcc8(cc, d)), LoadT()];
    if tested {
      EvenTested(front, over, call, al, dl, cc);
      assert PredicateTail(rt, r, cc, al, dl) == TagTests(al, dl, 11) + (front + ([over] + call));
    } else {
      assert front + ([over] + call) == [Plain(CmpEaxEdx), LoadNil(), Plain(Jcc8(cc, 5)), LoadT(), Plain(Jmp8(0))];
    }
  }

  lemma EvenTested(front: Code, over: Item, call: Code, al: bool, dl: bool, cc: Cond)
    requires front == [Plain(CmpEaxEdx), LoadNil(), Plain(Jcc8(cc, 23)), LoadT()] && over == Plain(Jmp8(18))
    requires Even(front + ([over] + call))
    ensures Even(TagTests(al, dl, 11) + (front + ([over] + call)))
  {
    hide Even, ArrivesAt, Size, TagTests, Len;
    SelectLengths(cc, 23);
    SelectLengths(cc, 18);
    SizePair(front[0], front[1]);
    SizePair(front[2], front[3]);
    SizePair(over, over);
    SizeConcat([front[0], front[1]], [front[2], front[3]]);
    assert front == [front[0], front[1]] + [front[2], front[3]];
    SizeConcat(front, [over]);
    TestedFront(front, over, cc);
    ArrivesStill(front + [over], call);
    assert front + [over] + call == front + ([over] + call);
    EvenTests(al, dl, 11, front + ([over] + call));
  }

  lemma TestedFront(front: Code, over: Item, cc: Cond)
    requires front == [Plain(CmpEaxEdx), LoadNil(), Plain(Jcc8(cc, 23)), LoadT()] && over == Plain(Jmp8(18))
    ensures Tidy(front + [over]) && Still(front + [over])
  {
    var c := front + [over];
    assert c == [Plain(CmpEaxEdx), LoadNil(), Plain(Jcc8(cc, 23)), LoadT(), Plain(Jmp8(18))];
    assert forall k :: 0 <= k < |c| ==> !Drops(c[k]) && c[k].I? && c[k].ins != Mov(ESP, EBP) && ItemEffect(c[k]) == 0;
  }

  lemma EvenEqualFlag(rt: Runtime, al: bool, dl: bool)
    ensures Even(EqualFlagTail(rt, al, dl))
  {
    hide Even, ArrivesAt, Size, TagTests, PredicateCall, Len, Effect, Straight;
    var cmp, over, call, last := Plain(CmpEaxEdx), Plain(Jmp8(21)), PredicateCall(rt, GenericEqual), [Plain(CmpMem(ESI, 4))];
    OneStraight(cmp);
    OneStraight(last[0]);
    if al || dl {
      CallLengths(rt, GenericEqual);
      SelectLengths(NE, 21);
      SizePair(last[0], last[0]);
      SizeConcat(call, last);
      CallStraight(rt, GenericEqual);
      EvenStraight(last);
      EvenAfter(call, last);
      EvenTidy(call + last);
      EffectConcat(call, last);
      EffectOne(last[0]);
      ArrivesEnd(call + last);
      EvenBranch(over, call + last);
      EvenAfter([cmp], [over] + (call + last));
      SizePair(cmp, over);
      ArrivesStill([cmp, over], call + last);
      assert [cmp] + ([over] + (call + last)) == [cmp, over] + (call + last);
      EvenTests(al, dl, 4, [cmp, over] + (call + last));
      assert EqualFlagTail(rt, al, dl) == TagTests(al, dl, 4) + ([cmp, over] + (call + last));
    } else {
      EvenStraight([cmp]);
    }
  }

  lemma OneStraight(it: Item)
    requires Branch(it).None? && !Drops(it) && (it.I? ==> it.ins != Mov(ESP, EBP))
    ensures Straight([it])
  {
    hide Branch, Drops;
  }

  lemma EvenTail(rt: Runtime, x: Form, dest: Dest, check: bool)
    requires IsCall(x)
    ensures Even(CallTail(rt, x, dest, check))
  {
    hide Even, ArithTail, PredicateTail, EqualFlagTail, Target, NeedsTest, Arg1Dest;
    EvenNil(dest);
    match x
    case ArithCall(fn, arg1, arg2) =>
      var al := if fn.Plus? && Arg1Dest(x) != ToOperand then NeedsTest(arg2, check) else NeedsTest(arg1, check);
      var dl := if fn.Minus? then NeedsTest(arg2, check) else if Arg1Dest(x) == ToOperand then false else NeedsTest(arg1, check);
      EvenArith(rt, fn, al, dl);
      EvenConcat(ArithTail(rt, fn, al, dl), Target(dest));
    case NumEqual(arg1, arg2) =>
      var al, dl := NeedsTest(arg2, check), NeedsTest(arg1, check);
      EvenEqualFlag(rt, al, dl);
      EvenPredicate(rt, GenericEqual, NE, al, dl);
      EvenConcat(PredicateTail(rt, GenericEqual, NE, al, dl), Target(dest));
    case Compare(op, arg1, arg2) =>
      var al, dl := NeedsTest(arg2, check), NeedsTest(arg1, check);
      EvenPredicate(rt, GenericCompare(op), FailCond(op), al, dl);
      EvenConcat(PredicateTail(rt, GenericCompare(op), FailCond(op), al, dl), Target(dest));
    case Eq(_, _) =>
      EvenPlainSelect(CmpEaxEdx, NE);
      EvenConcat(EqTail(), Target(dest));
  }

  lemma EvenIfCode(test: Code, thn: Code, dest: Dest)
    requires Even(test) && Even(thn) && Effect(thn) == 0
    ensures Even(IfCode(test, thn, dest))
  {
    hide Even, ArrivesAt, Size, Effect;
    var j, p := Plain(Jcc32(E, Size(thn))), PushIfStack(dest);
    EvenNil(dest);
    EvenTidy(thn);
    ArrivesEnd(thn);
    EvenBranch(j, thn);
    EvenConcat(test, [j] + thn);
    EvenConcat(test + ([j] + thn), p);
    assert IfCode(test, thn, dest) == test + ([j] + thn) + p;
  }

  lemma EvenIfElseCode(test: Code, cc: Cond, thn: Code, els: Code, dest: Dest)
    requires Even(test) && Even(thn) && Even(els) && Effect(thn) == 0 && Effect(els) == 0
    ensures Even(IfElseCode(test, cc, thn, els, dest))
  {
    hide Even, ArrivesAt, Size, Len, Effect, Tidy;
    var j, over, p := Plain(Jcc32(cc, Size(thn) + 5)), Plain(Jmp32(Size(els))), PushIfStack(dest);
    EvenNil(dest);
    EvenTidy(els);
    ArrivesEnd(els);
    EvenBranch(over, els);
    EvenConcat(thn, [over] + els);
    BranchLens(cc, Size(els));
    SizePair(over, over);
    SizeConcat(thn, [over]);
    EvenTidy(thn);
    OneTidy(over);
    TidyConcat(thn, [over]);
    EffectConcat(thn, [over]);
    EffectOne(over);
    ArrivesBetween(thn + [over], els);
    assert thn + [over] + els == thn + ([over] + els);
    EvenBranch(j, thn + ([over] + els));
    EvenConcat(test, [j] + (thn + ([over] + els)));
    EvenConcat(test + ([j] + (thn + ([over] + els))), p);
    assert IfElseCode(test, cc, thn, els, dest) == test + ([j] + (thn + ([over] + els))) + p;
  }
}
