/** The bytes of generated code decode to the code: operands fit, and no branch is left pending. */
module Encoding {
  import opened Words
  import opened X86
  import opened Runtime
  import opened Machine
  import opened Lisp
  import opened CodeGen
  import opened Steps
  import opened Tails
  import opened Layout
  import opened Exits

  /** The bytes of code; a pending branch has displacement zero. */
  function BytesOf(c: Code): seq<Byte> {
    if c == [] then [] else Encode(InstrOf(c[0])) + BytesOf(c[1..])
  }

  function InstrOf(it: Item): Instr {
    match it case I(i, _) => i case Exit(_) => Jmp32(0)
  }

  lemma {:induction false} BytesSize(c: Code)
    ensures |BytesOf(c)| == Size(c)
  {
    hide Encode;
    if c != [] {
      BytesSize(c[1..]);
      assert |Encode(Jmp32(0))| == 5 by { JumpSize(); }
    }
  }

  lemma JumpSize()
    ensures |Encode(Jmp32(0))| == 5
  {
  }

  lemma {:induction false} BytesConcat(a: Code, b: Code)
    ensures BytesOf(a + b) == BytesOf(a) + BytesOf(b)
  {
    hide Encode;
    if a == [] {
      assert a + b == b;
    } else {
      assert (a + b)[1..] == a[1..] + b;
      BytesConcat(a[1..], b);
    }
  }

  /** The instructions found by decoding a byte sequence at each of its positions. */
  ghost function ByteImage(p: seq<Byte>): Image {
    map pc: int | 0 <= pc < |p| && Decode(p[pc..]).Some? :: Decode(p[pc..]).value
  }

  /** A table reference stands for the four-byte operand that ends its instruction. */
  predicate Noted(rt: Runtime, i: Instr, note: Note) {
    match note
    case NoNote => true
    case LiteralRef(obj) => (i.PushImm? || i.MovImm?) && i.w == obj
    case JumpRef(r) => i == Call(rt.slot(r))
    case VarRef(n) => n in rt.vars && i.Load? && i.base == ESI && i.disp == rt.vars[n].offset && !IsByte(i.disp)
    case PutBack => i.AddEsp?
  }

  /** An item whose operands survive encoding; a pending branch leads to one of the given records. */
  predicate Fits(rt: Runtime, it: Item, recs: seq<Rec>) {
    match it
    case I(i, note) => Encodable(i) && Noted(rt, i, note)
    case Exit(l) =>
      && l.rec < |recs|
      && match recs[l.rec]
         case LetRec(_, _) => false
         case BlockRec(_, _) => l.tag == 0
         case TagsRec(tags, _) => l.tag < |tags|
  }

  predicate AllFit(rt: Runtime, c: Code, recs: seq<Rec>) {
    forall k :: 0 <= k < |c| ==> Fits(rt, c[k], recs)
  }

  lemma AllFitConcat(rt: Runtime, a: Code, b: Code, recs: seq<Rec>)
    ensures AllFit(rt, a + b, recs) <==> AllFit(rt, a, recs) && AllFit(rt, b, recs)
  {
    hide Fits;
    if AllFit(rt, a + b, recs) {
      assert forall k :: 0 <= k < |a| ==> a[k] == (a + b)[k];
      assert forall k :: 0 <= k < |b| ==> b[k] == (a + b)[|a| + k];
    }
  }

  /** Bytes of settled, encodable code are decoded back to it, wherever the code stands. */
  lemma {:induction false} ImageHolds(rt: Runtime, pre: Code, c: Code)
    requires AllFit(rt, c, [])
    ensures CodeAt(ByteImage(BytesOf(pre + c)), Size(pre), c, map[])
    decreases c
  {
    hide Encode, Decode, ByteImage, Encodable;
    if c != [] {
      assert Fits(rt, c[0], []);
      ItemHolds(pre, c);
      assert (pre + [c[0]]) + c[1..] == pre + c;
      SizeConcat(pre, [c[0]]);
      SizePair(c[0], c[0]);
      ImageHolds(rt, pre + [c[0]], c[1..]);
    }
  }

  lemma ItemHolds(pre: Code, c: Code)
    requires c != [] && c[0].I? && Encodable(c[0].ins)
    ensures Placed(ByteImage(BytesOf(pre + c)), Size(pre), c[0], map[])
  {
    hide Encode, Decode, Encodable;
    var p, at, e := BytesOf(pre + c), Size(pre), Encode(c[0].ins);
    BytesConcat(pre, c);
    BytesSize(pre);
    assert BytesOf(c) == e + BytesOf(c[1..]);
    assert p[at..] == e + BytesOf(c[1..]);
    RoundTrip(c[0].ins, BytesOf(c[1..]));
    assert at < |p|;
  }

  // ----- templates -----

  lemma FitsRegisters(rt: Runtime, recs: seq<Rec>, r: Reg, w: Word)
    ensures Fits(rt, Plain(Push(r)), recs) && Fits(rt, Plain(Pop(r)), recs) && Fits(rt, Plain(MovImm(r, w)), recs) && Fits(rt, Plain(XorSelf(r)), recs)
    ensures Fits(rt, Plain(AddEaxEdx), recs) && Fits(rt, Plain(SubEaxEdx), recs) && Fits(rt, Plain(CmpEaxEdx), recs)
    ensures Fits(rt, Plain(PushImm(w)), recs) && Fits(rt, Plain(CmpImm(w)), recs) && Fits(rt, Plain(MovObj(r, w)), recs)
    ensures Fits(rt, Plain(Mov(EDX, EAX)), recs)
  {
  }

  lemma FitsMemory(rt: Runtime, recs: seq<Rec>, r: Reg, w: Word)
    ensures Fits(rt, LoadNil(), recs) && Fits(rt, LoadT(), recs) && Fits(rt, Plain(Load(EDI, ESI, 0)), recs)
    ensures Fits(rt, Plain(CmpMem(ESI, 0)), recs) && Fits(rt, Plain(CmpMem(ESI, 4)), recs) && Fits(rt, Plain(PushMem(ESI, 0)), recs)
    ensures Fits(rt, Plain(TestAl(7)), recs) && Fits(rt, Plain(TestDl(7)), recs) && Fits(rt, Plain(AddEsp(8)), recs) && Fits(rt, Plain(AddEsp(4)), recs)
    ensures Fits(rt, Plain(Load(EAX, EAX, -4)), recs) && Fits(rt, Plain(Store(EDI, -4)), recs)
  {
  }

  lemma FitsShort(rt: Runtime, recs: seq<Rec>, r: Reg, w: Word)
    ensures Fits(rt, Plain(Push(r)), recs) && Fits(rt, Plain(Pop(r)), recs) && Fits(rt, Plain(MovImm(r, w)), recs) && Fits(rt, Plain(XorSelf(r)), recs)
    ensures Fits(rt, Plain(AddEaxEdx), recs) && Fits(rt, Plain(SubEaxEdx), recs) && Fits(rt, Plain(CmpEaxEdx), recs)
    ensures Fits(rt, Plain(PushImm(w)), recs) && Fits(rt, Plain(CmpImm(w)), recs) && Fits(rt, Plain(MovObj(r, w)), recs)
    ensures Fits(rt, Plain(Mov(EDX, EAX)), recs)
    ensures Fits(rt, LoadNil(), recs) && Fits(rt, LoadT(), recs) && Fits(rt, Plain(Load(EDI, ESI, 0)), recs)
    ensures Fits(rt, Plain(CmpMem(ESI, 0)), recs) && Fits(rt, Plain(CmpMem(ESI, 4)), recs) && Fits(rt, Plain(PushMem(ESI, 0)), recs)
    ensures Fits(rt, Plain(TestAl(7)), recs) && Fits(rt, Plain(TestDl(7)), recs) && Fits(rt, Plain(AddEsp(8)), recs) && Fits(rt, Plain(AddEsp(4)), recs)
    ensures Fits(rt, Plain(Load(EAX, EAX, -4)), recs) && Fits(rt, Plain(Store(EDI, -4)), recs)
  {
    hide Fits;
    FitsRegisters(rt, recs, r, w);
    FitsMemory(rt, recs, r, w);
  }

  lemma FitsSmall(rt: Runtime, recs: seq<Rec>, d: int, cc: Cond)
    requires 0 <= d <= 100
    ensures Fits(rt, Plain(Jcc8(cc, d)), recs) && Fits(rt, Plain(Jmp8(d)), recs)
  {
  }

  lemma FitsCall(rt: Runtime, r: Routine, recs: seq<Rec>)
    requires rt.Linked()
    ensures Fits(rt, CallRoutine(rt, r), recs)
  {
  }

  lemma FitTargets(rt: Runtime, dest: Dest, recs: seq<Rec>)
    ensures AllFit(rt, Target(dest), recs) && AllFit(rt, PushIfStack(dest), recs) && AllFit(rt, CountIfEax(dest), recs) && AllFit(rt, GenNil(dest), recs)
  {
    hide Fits;
    FitsShort(rt, recs, ECX, 1);
    FitsShort(rt, recs, EAX, 0);
  }

  lemma FitTests(rt: Runtime, al: bool, dl: bool, dist: int, recs: seq<Rec>)
    requires 0 <= dist <= 90
    ensures AllFit(rt, TagTests(al, dl, dist), recs)
  {
    hide Fits;
    FitsShort(rt, recs, EAX, 0);
    FitsSmall(rt, recs, dist, NE);
    FitsSmall(rt, recs, dist + 5, NE);
    AllFitConcat(rt, TagTest(al, TestAl(7), dist + (if dl then 5 else 0)), TagTest(dl, TestDl(7), dist), recs);
  }

  lemma FitArith(rt: Runtime, fn: Arith, al: bool, dl: bool, recs: seq<Rec>)
    requires rt.Linked()
    ensures AllFit(rt, ArithTail(rt, fn, al, dl), recs)
  {
    hide Fits, TagTests, rt.Linked;
    var (op, undo, r) := ArithParts(fn);
    FitTests(rt, al, dl, 6, recs);
    FitsShort(rt, recs, EAX, 0);
    FitsSmall(rt, recs, 8, NO);
    FitsCall(rt, r, recs);
    AllFitConcat(rt, TagTests(al, dl, 6), [Plain(op), Plain(Jcc8(NO, 8)), Plain(undo), CallRoutine(rt, r)], recs);
  }

  lemma FitPredicateCall(rt: Runtime, r: Routine, recs: seq<Rec>)
    requires rt.Linked()
    ensures AllFit(rt, PredicateCall(rt, r), recs)
  {
    hide Fits, rt.Linked;
    FitsShort(rt, recs, EDX, 0);
    FitsShort(rt, recs, EAX, 0);
    FitsShort(rt, recs, ECX, 2);
    FitsCall(rt, r, recs);
  }

  lemma FitPredicate(rt: Runtime, r: Routine, cc: Cond, al: bool, dl: bool, recs: seq<Rec>)
    requires rt.Linked()
    ensures AllFit(rt, PredicateTail(rt, r, cc, al, dl), recs)
  {
    hide Fits, TagTests, rt.Linked, PredicateCall;
    FitTests(rt, al, dl, 11, recs);
    FitPredicateCall(rt, r, recs);
    FitsShort(rt, recs, EAX, 0);
    FitsSmall(rt, recs, 23, cc);
    FitsSmall(rt, recs, 5, cc);
    FitsSmall(rt, recs, 3, cc);
    FitsSmall(rt, recs, 18, cc);
    FitsSmall(rt, recs, 0, cc);
    var mid := [Plain(CmpEaxEdx), LoadNil(), Plain(Jcc8(cc, 23)), LoadT(), Plain(Jmp8(18))];
    AllFitConcat(rt, TagTests(al, dl, 11), mid, recs);
    AllFitConcat(rt, TagTests(al, dl, 11) + mid, PredicateCall(rt, r), recs);
  }

  lemma FitEqualFlag(rt: Runtime, al: bool, dl: bool, recs: seq<Rec>)
    requires rt.Linked()
    ensures AllFit(rt, EqualFlagTail(rt, al, dl), recs)
  {
    hide Fits, TagTests, rt.Linked, PredicateCall;
    FitTests(rt, al, dl, 4, recs);
    FitPredicateCall(rt, GenericEqual, recs);
    FitsShort(rt, recs, EAX, 0);
    FitsSmall(rt, recs, 21, NE);
    var mid := [Plain(CmpEaxEdx), Plain(Jmp8(21))];
    AllFitConcat(rt, TagTests(al, dl, 4), mid, recs);
    AllFitConcat(rt, TagTests(al, dl, 4) + mid, PredicateCall(rt, GenericEqual), recs);
    AllFitConcat(rt, TagTests(al, dl, 4) + mid + PredicateCall(rt, GenericEqual), [Plain(CmpMem(ESI, 4))], recs);
  }

  lemma FitEqNull(rt: Runtime, recs: seq<Rec>)
    ensures AllFit(rt, EqTail(), recs) && AllFit(rt, NullTail(), recs)
  {
    hide Fits;
    FitsShort(rt, recs, EAX, 0);
    FitsSmall(rt, recs, 3, NE);
  }

  lemma FitCallTail(rt: Runtime, x: Form, dest: Dest, check: bool, recs: seq<Rec>)
    requires rt.Linked() && (x.ArithCall? || x.NumEqual? || x.Compare? || x.Eq?)
    ensures AllFit(rt, CallTail(rt, x, dest, check), recs)
  {
    hide Fits, AllFit, rt.Linked, ArithTail, PredicateTail, EqualFlagTail, EqTail, Target, NeedsTest, Arg1Dest;
    FitTargets(rt, dest, recs);
    match x
    case ArithCall(fn, arg1, arg2) => FitArithCall(rt, x, dest, check, recs);
    case NumEqual(arg1, arg2) =>
      var al, dl := NeedsTest(arg2, check), NeedsTest(arg1, check);
      FitEqualFlag(rt, al, dl, recs);
      FitPredicate(rt, GenericEqual, NE, al, dl, recs);
      AllFitConcat(rt, PredicateTail(rt, GenericEqual, NE, al, dl), Target(dest), recs);
    case Compare(op, arg1, arg2) =>
      var al, dl := NeedsTest(arg2, check), NeedsTest(arg1, check);
      FitPredicate(rt, GenericCompare(op), FailCond(op), al, dl, recs);
      AllFitConcat(rt, PredicateTail(rt, GenericCompare(op), FailCond(op), al, dl), Target(dest), recs);
    case Eq(_, _) =>
      FitEqNull(rt, recs);
      AllFitConcat(rt, EqTail(), Target(dest), recs);
  }

  lemma FitArithCall(rt: Runtime, x: Form, dest: Dest, check: bool, recs: seq<Rec>)
    requires rt.Linked() && x.ArithCall?
    ensures AllFit(rt, CallTail(rt, x, dest, check), recs)
  {
    hide Fits, AllFit, rt.Linked, ArithTail, Target, NeedsTest, Arg1Dest;
    FitTargets(rt, dest, recs);
    var n1, n2 := NeedsTest(x.arg1, check), NeedsTest(x.arg2, check);
    var al := if x.fn.Minus? || Arg1Dest(x) == ToOperand then n1 else n2;
    var dl := if x.fn.Minus? then n2 else if Arg1Dest(x) == ToOperand then false else n1;
    FitArith(rt, x.fn, al, dl, recs);
    AllFitConcat(rt, ArithTail(rt, x.fn, al, dl), Target(dest), recs);
  }

  // ----- variables and exits -----

  /** Slots are within reach of a 29-bit displacement and depths are not negative. */
  ghost predicate InReach(cx: Context) {
    && 0 <= cx.env
    && (forall i :: 0 <= i < |cx.recs| ==>
          match cx.recs[i]
          case LetRec(_, offset) => InFixnumRange(offset)
          case BlockRec(_, depth) => 0 <= depth
          case TagsRec(_, depth) => 0 <= depth)
  }

  lemma FitSlot(rt: Runtime, offset: int, recs: seq<Rec>)
    requires InFixnumRange(offset)
    ensures Fits(rt, Plain(Load(EAX, EBP, offset)), recs) && Fits(rt, Plain(Store(EBP, offset)), recs) && Fits(rt, Plain(PushMem(EBP, offset)), recs)
  {
  }

  lemma FitBranch(rt: Runtime, d: int, recs: seq<Rec>, cc: Cond)
    requires InFixnumRange(d)
    ensures Fits(rt, Plain(Jmp32(d)), recs) && Fits(rt, Plain(Jcc32(cc, d)), recs) && Fits(rt, Plain(AddEsp(d)), recs)
  {
  }

  lemma FitGlobal(rt: Runtime, n: Name, dest: Dest, recs: seq<Rec>)
    requires rt.Linked() && n in rt.vars
    ensures AllFit(rt, GenGlobal(rt, n, dest), recs)
  {
    hide Fits, Target, Encode, CallRoutine;
    var e := rt.vars[n];
    FitGlobalLoads(rt, n, recs);
    FitUnbound(rt, e, recs);
    FitTargets(rt, dest, recs);
    UnboundSize(rt, e);
    FitBranch(rt, Size(UnboundCall(rt, e)), recs, NE);
    FitsShort(rt, recs, EAX, UNINITIALIZED);
    var front := [I(Load(EAX, ESI, e.offset), VarRef(n)), Plain(Load(EAX, EAX, -4)), Plain(CmpImm(UNINITIALIZED)),
                  Plain(Jcc32(NE, Size(UnboundCall(rt, e))))];
    AllFitConcat(rt, front, UnboundCall(rt, e), recs);
    AllFitConcat(rt, front + UnboundCall(rt, e), Target(dest), recs);
  }

  lemma FitGlobalLoads(rt: Runtime, n: Name, recs: seq<Rec>)
    requires rt.Linked() && n in rt.vars
    ensures Fits(rt, I(Load(EAX, ESI, rt.vars[n].offset), VarRef(n)), recs) && Fits(rt, I(Load(EDI, ESI, rt.vars[n].offset), VarRef(n)), recs)
  {
  }

  lemma FitUnbound(rt: Runtime, e: VarEntry, recs: seq<Rec>)
    requires rt.Linked()
    ensures AllFit(rt, UnboundCall(rt, e), recs)
  {
    FitsShort(rt, recs, ECX, 1);
    FitsCall(rt, UnboundVariable, recs);
  }

  lemma UnboundSize(rt: Runtime, e: VarEntry)
    ensures 0 <= Size(UnboundCall(rt, e)) <= 28
  {
    hide Encode;
    var u := UnboundCall(rt, e);
    SizePair(u[0], u[1]);
    SizePair(u[2], u[3]);
    SizeConcat([u[0], u[1]], [u[2], u[3]]);
    assert u == [u[0], u[1]] + [u[2], u[3]];
  }

  lemma FitVar(rt: Runtime, n: Name, dest: Dest, cx: Context)
    requires rt.Linked() && InReach(cx)
    ensures AllFit(rt, GenVar(rt, n, dest, cx), cx.recs) && AllFit(rt, GenAssign(rt, n, cx), cx.recs)
  {
    hide Fits, rt.Linked, GenGlobal, Encode;
    var k := FindLet(cx.recs, n);
    if k >= 0 {
      assert InFixnumRange(cx.recs[k].offset);
      FitSlot(rt, cx.recs[k].offset, cx.recs);
      FitsShort(rt, cx.recs, ECX, 1);
    } else if n in rt.vars {
      FitGlobal(rt, n, dest, cx.recs);
      FitGlobalLoads(rt, n, cx.recs);
      FitsShort(rt, cx.recs, EAX, 0);
    }
  }

  lemma FitAdjust(rt: Runtime, diff: int, recs: seq<Rec>)
    requires InFixnumRange(diff)
    ensures AllFit(rt, Adjust(diff), recs)
  {
    FitBranch(rt, diff, recs, NE);
    assert Adjust(diff) != [] ==> Fits(rt, Plain(AddEsp(diff)), recs);
  }

  // ----- settling -----

  /** Settled branches fit when all distances are small; the branches of other records stay pending. */
  lemma {:induction false} FitSettled(rt: Runtime, c: Code, pos: int, recs: seq<Rec>, r: Rec, targets: seq<int>)
    requires AllFit(rt, c, recs + [r]) && pos >= 0 && pos + Size(c) < 0x0FFF_FFF0
    requires r.BlockRec? ==> |targets| == 1
    requires r.TagsRec? ==> |targets| == |r.tags|
    requires forall t :: 0 <= t < |targets| ==> 0 <= targets[t] < 0x0FFF_FFF0
    ensures AllFit(rt, SettleAll(c, pos, |recs|, targets), recs)
    decreases c
  {
    hide Encode, Fits, SettleItem;
    if c != [] {
      assert c == [c[0]] + c[1..];
      AllFitConcat(rt, [c[0]], c[1..], recs + [r]);
      assert [c[0]][0] == c[0];
      FitSettledItem(rt, c[0], pos, recs, r, targets);
      FitSettled(rt, c[1..], pos + Len(c[0]), recs, r, targets);
      AllFitConcat(rt, [SettleItem(c[0], pos, |recs|, targets)], SettleAll(c[1..], pos + Len(c[0]), |recs|, targets), recs);
    }
  }

  lemma FitSettledItem(rt: Runtime, it: Item, pos: int, recs: seq<Rec>, r: Rec, targets: seq<int>)
    requires Fits(rt, it, recs + [r]) && 0 <= pos < 0x0FFF_FFF0
    requires r.BlockRec? ==> |targets| == 1
    requires r.TagsRec? ==> |targets| == |r.tags|
    requires forall t :: 0 <= t < |targets| ==> 0 <= targets[t] < 0x0FFF_FFF0
    ensures Fits(rt, SettleItem(it, pos, |recs|, targets), recs)
  {
    if it.Exit? && it.target.rec == |recs| {
      assert (recs + [r])[|recs|] == r;
      assert InFixnumRange(targets[it.target.tag] - (pos + 5));
    }
  }
}
