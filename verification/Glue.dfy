/** Typing of results, and the pieces shared by the cases of the simulation proof. */
module Glue {
  import opened Words
  import opened X86
  import opened Runtime
  import opened Machine
  import opened Lisp
  import opened CodeGen
  import opened Relation
  import opened Steps
  import opened Leaves
  import opened Tails
  import opened Layout

  // ----- the static type FIXNUM is sound -----

  lemma {:induction false} TypeSound(rt: Runtime, x: Form, st: State, fuel: nat)
    requires TypedFixnum(x)
    ensures var out := Eval(rt, x, st, fuel); out.Val? ==> IsFixnum(out.w)
    decreases x
  {
    match x
    case Setq(pairs) => TypeSoundSetq(rt, pairs, rt.nilWord, st, fuel);
    case Progn(body) => TypeSoundForms(rt, body, st, fuel);
    case Let(binds, body) =>
      var r := EvalInits(rt, binds, st, fuel);
      if r.Inits? {
        var inner := r.st.(env := r.st.env + LetPairs(binds, r.ws));
        TypeSoundForms(rt, body, inner, fuel);
        assert Eval(rt, x, st, fuel) == Leave(EvalForms(rt, body, inner, fuel), |r.st.env|);
      }
    case LetStar(chain) => TypeSoundChain(rt, chain, st, fuel);
    case _ =>
  }

  lemma {:induction false} TypeSoundForms(rt: Runtime, body: Forms, st: State, fuel: nat)
    requires TypedFixnumForms(body)
    ensures var out := EvalForms(rt, body, st, fuel); out.Val? ==> IsFixnum(out.w)
    decreases body
  {
    if body.tail.NoForms? {
      TypeSound(rt, body.head, st, fuel);
    } else {
      var out := Eval(rt, body.head, st, fuel);
      if out.Val? {
        TypeSoundForms(rt, body.tail, out.st, fuel);
      }
    }
  }

  lemma {:induction false} TypeSoundSetq(rt: Runtime, pairs: Binds, last: Word, st: State, fuel: nat)
    requires TypedFixnumBinds(pairs)
    ensures var out := EvalSetq(rt, pairs, last, st, fuel); out.Val? ==> IsFixnum(out.w)
    decreases pairs
  {
    var out := Eval(rt, pairs.init, st, fuel);
    if out.Val? {
      if pairs.rest.NoBinds? {
        TypeSound(rt, pairs.init, st, fuel);
      } else {
        TypeSoundSetq(rt, pairs.rest, out.w, WriteVar(out.st, pairs.name, out.w), fuel);
      }
    }
  }

  lemma {:induction false} TypeSoundChain(rt: Runtime, b: Chain, st: State, fuel: nat)
    requires TypedFixnumChain(b)
    ensures var out := EvalChain(rt, b, st, fuel); out.Val? ==> IsFixnum(out.w)
    decreases b
  {
    match b
    case Body(body) => TypeSoundForms(rt, body, st, fuel);
    case Bind(n, x, rest) =>
      var out := Eval(rt, x, st, fuel);
      if out.Val? {
        TypeSoundChain(rt, rest, out.st.(env := out.st.env + [(n, out.w)]), fuel);
      }
  }

  /** An argument whose tag test is omitted is a fixnum. */
  lemma OmittedTest(rt: Runtime, x: Form, check: bool, st: State, fuel: nat)
    requires !NeedsTest(x, check)
    ensures var out := Eval(rt, x, st, fuel); out.Val? ==> IsFixnum(out.w)
  {
    if TypedFixnum(x) {
      TypeSound(rt, x, st, fuel);
    }
  }

  // ----- moving between contexts -----

  /** After a form, the next one can be compiled in a context with more slots. */
  lemma NextRelated(rt: Runtime, fr: Frame, cx: Context, cx1: Context, st: State, c0: Cpu, c: Cpu)
    requires Sound(cx) && At(rt, fr, cx, st, c0, c)
    requires cx1.recs == cx.recs && cx1.si == cx.si && cx.env <= cx1.env <= 4 * fr.slots && cx1.env % 4 == 0
    ensures Related(rt, fr, cx1, st, c)
  {
    hide Matches, Keeps;
  }

  /** The state a finished form leaves, for destinations other than the stack. */
  lemma FinishedAt(rt: Runtime, fr: Frame, cx: Context, dest: Dest, end: int, w: Word, st: State, c: Cpu, c': Cpu, exact: bool)
    requires Finished(rt, fr, cx, dest, end, w, st, c, c', exact) && dest != ToStack
    ensures At(rt, fr, cx, st, c, c')
  {
  }

  lemma AtFrame(rt: Runtime, fr: Frame, cx: Context, st: State, c0: Cpu, c: Cpu, c': Cpu)
    requires At(rt, fr, cx, st, c0, c) && SameFrame(c, c')
    ensures At(rt, fr, cx, st, c0, c')
  {
  }

  lemma SoundDepths(cx: Context)
    requires Sound(cx)
    ensures forall i :: 0 <= i < |cx.recs| && !cx.recs[i].LetRec? ==> cx.recs[i].depth <= cx.si
  {
  }

  // ----- after a branch has delivered to EAX -----

  /** A result in EAX, then PushIfStack. */
  lemma PushAfter(img: Image, rt: Runtime, fr: Frame, tg: map<Label, int>, cx: Context, dest: Dest, mid: int,
                  c: Cpu, out: Outcome, fuel: nat, exact: bool)
    requires Simulates(img, rt, fr, tg, cx, ToEax, mid, c, out, fuel, exact)
    requires CodeAt(img, mid, PushIfStack(dest), tg) && dest != ToZeroFlag
    ensures Simulates(img, rt, fr, tg, cx, dest, mid + Size(PushIfStack(dest)), c, out, fuel, exact)
  {
    hide Reach, CodeAt, Matches, Keeps, PushIfStack, Size, Exited, HeapMatch;
    if out.Val? {
      var c' :| Reach(img, rt, Running(c), Running(c'), 0) && Finished(rt, fr, cx, ToEax, mid, out.w, out.st, c, c', exact);
      FinishedAt(rt, fr, cx, ToEax, mid, out.w, out.st, c, c', exact);
      DeliverPush(img, rt, fr, tg, cx, dest, out.w, out.st, c, c', fuel, exact);
    } else {
      LiftExit(img, rt, fr, tg, cx, ToEax, mid, dest, mid + Size(PushIfStack(dest)), c, out, fuel, exact);
    }
  }

  /** A result in EAX, then a jump over d bytes. */
  lemma JumpAfter(img: Image, rt: Runtime, fr: Frame, tg: map<Label, int>, cx: Context, mid: int, d: int, rest: Code,
                  c: Cpu, out: Outcome, fuel: nat, exact: bool)
    requires Simulates(img, rt, fr, tg, cx, ToEax, mid, c, out, fuel, exact)
    requires CodeAt(img, mid, [Plain(Jmp32(d))] + rest, tg)
    ensures Simulates(img, rt, fr, tg, cx, ToEax, mid + 5 + d, c, out, fuel, exact)
  {
    hide Reach, CodeAt, Matches, Keeps, Exited, HeapMatch;
    if out.Val? {
      var c' :| Reach(img, rt, Running(c), Running(c'), 0) && Finished(rt, fr, cx, ToEax, mid, out.w, out.st, c, c', exact);
      FinishedAt(rt, fr, cx, ToEax, mid, out.w, out.st, c, c', exact);
      Advance(img, rt, tg, c, c', [Plain(Jmp32(d))] + rest, Plain(Jmp32(d)), rest);
      var c2 := c'.(pc := mid + 5 + d);
      AtSamePlace(rt, fr, cx, out.st, c, c', c2);
      Deliver(img, rt, fr, tg, cx, ToEax, out.w, out.st, c, c2, fuel, exact);
    } else {
      LiftExit(img, rt, fr, tg, cx, ToEax, mid, ToEax, mid + 5 + d, c, out, fuel, exact);
    }
  }

  /** The branch of an IF: taken past d bytes exactly when the test value is NIL. */
  lemma RunTest(img: Image, rt: Runtime, tg: map<Label, int>, test: Form, hasElse: bool, c0: Cpu, c: Cpu, w: Word,
                d: int, rest: Code, exact: bool) returns (c': Cpu)
    requires rt.Linked() && Reach(img, rt, Running(c0), Running(c), 0)
    requires Delivered(rt, TestDest(test, hasElse), w, c, exact)
    requires var cmp := if test.NumEqual? then [] else [Plain(CmpMem(ESI, 0))];
             CodeAt(img, c.pc, cmp + ([Plain(Jcc32(TestCond(test), d))] + rest), tg)
    ensures var n := if test.NumEqual? then 6 else 8;
            && Reach(img, rt, Running(c0), Running(c'), 0) && SameFrame(c, c') && c'.eax == c.eax && c'.ecx == c.ecx
            && CodeAt(img, c.pc + n, rest, tg)
            && c'.pc == c.pc + n + (if w == rt.nilWord then d else 0)
  {
    hide Reach, CodeAt;
    var jump := Plain(Jcc32(TestCond(test), d));
    if test.NumEqual? {
      assert [] + ([jump] + rest) == [jump] + rest;
      Advance(img, rt, tg, c0, c, [jump] + rest, jump, rest);
      c' := Exec(rt, jump.ins, c.(pc := c.pc + 6)).cpu;
    } else {
      var cmp := Plain(CmpMem(ESI, 0));
      Advance(img, rt, tg, c0, c, [cmp] + ([jump] + rest), cmp, [jump] + rest);
      var c1 := SubFlags(c.(pc := c.pc + 2), c.eax, rt.nilWord);
      CompareFlags(c, c.eax, rt.nilWord);
      Advance(img, rt, tg, c0, c1, [jump] + rest, jump, rest);
      c' := Exec(rt, jump.ins, c1.(pc := c1.pc + 6)).cpu;
    }
  }

  // ----- storing into a frame slot -----

  /** Storing EAX into a variable's slot updates that variable and nothing else. */
  lemma StoreVar(rt: Runtime, fr: Frame, cx: Context, st: State, c0: Cpu, c: Cpu, n: Name, c': Cpu)
    requires Sound(cx) && cx.env <= 4 * fr.slots && At(rt, fr, cx, st, c0, c) && FindLet(cx.recs, n) >= 0
    requires var cell := fr.CellOf(cx.recs[FindLet(cx.recs, n)].offset);
             0 <= cell < |c.stack| && c'.stack == c.stack[cell := W(c.eax)] && c'.heap == c.heap && c'.ebp == c.ebp
    ensures At(rt, fr, cx, WriteVar(st, n, c.eax), c0, c')
  {
    hide HeapMatch, Sound;
    LookupAgrees(fr, cx.recs, st.env, c.stack, n);
    var j := FindVar(st.env, n);
    var vars := Vars(cx.recs);
    var cell := fr.CellOf(vars[j].offset);
    DistinctCells(fr, cx);
    assert !Protected(fr, cx, cell);
  }

  /** Distinct live variables have distinct cells. */
  lemma DistinctCells(fr: Frame, cx: Context)
    requires Sound(cx)
    ensures forall i, j :: 0 <= i < |Vars(cx.recs)| && 0 <= j < |Vars(cx.recs)| && i != j
              ==> fr.CellOf(Vars(cx.recs)[i].offset) != fr.CellOf(Vars(cx.recs)[j].offset)
  {
    forall i, j | 0 <= i < |Vars(cx.recs)| && 0 <= j < |Vars(cx.recs)| && i != j
      ensures fr.CellOf(Vars(cx.recs)[i].offset) != fr.CellOf(Vars(cx.recs)[j].offset)
    {
      var a, b := Vars(cx.recs)[i].offset, Vars(cx.recs)[j].offset;
      assert a != b by { if i < j {} else {} }
      assert IsSlot(a, cx.env) && IsSlot(b, cx.env);
    }
  }

  /** Storing through a binding cell updates that global and nothing else. */
  lemma StoreGlobal(rt: Runtime, fr: Frame, cx: Context, st: State, c0: Cpu, c: Cpu, n: Name, w: Word, c': Cpu)
    requires rt.Linked() && At(rt, fr, cx, st, c0, c) && FindVar(st.env, n) < 0 && n in rt.vars
    requires c'.stack == c.stack && c'.ebp == c.ebp && c'.heap == c.heap[rt.vars[n].binding := w]
    ensures At(rt, fr, cx, WriteVar(st, n, w), c0, c')
  {
    hide Keeps, VarsMatch;
  }

  lemma RunAssign(img: Image, rt: Runtime, fr: Frame, tg: map<Label, int>, cx: Context, st: State, c0: Cpu, c: Cpu, n: Name, rest: Code)
    returns (c': Cpu)
    requires rt.Linked() && Sound(cx) && cx.env <= 4 * fr.slots
    requires Reach(img, rt, Running(c0), Running(c), 0) && At(rt, fr, cx, st, c0, c)
    requires FindLet(cx.recs, n) >= 0 || n in rt.vars
    requires CodeAt(img, c.pc, GenAssign(rt, n, cx) + rest, tg)
    ensures Reach(img, rt, Running(c0), Running(c'), 0) && At(rt, fr, cx, WriteVar(st, n, c.eax), c0, c')
    ensures c'.eax == c.eax && c'.pc == c.pc + Size(GenAssign(rt, n, cx)) && CodeAt(img, c'.pc, rest, tg)
  {
    hide Reach, CodeAt, Keeps, Sound, VarsMatch, Encode;
    if FindLet(cx.recs, n) >= 0 {
      LexicalCell(rt, fr, cx, st, c, n);
      var offset := cx.recs[FindLet(cx.recs, n)].offset;
      var store := Plain(Store(EBP, offset));
      assert GenAssign(rt, n, cx) == [store];
      Advance(img, rt, tg, c0, c, [store] + rest, store, rest);
      SizePair(store, store);
      c' := c.(pc := c.pc + Len(store), stack := c.stack[c.ebp - offset / 4 := W(c.eax)]);
      StoreVar(rt, fr, cx, st, c0, c, n, c');
    } else {
      c' := RunAssignGlobal(img, rt, fr, tg, cx, st, c0, c, n, rest);
    }
  }

  /** Loading a binding cell's address and storing through it. */
  lemma ExecAssign(rt: Runtime, st: State, c: Cpu, n: Name)
    requires rt.Linked() && n in rt.vars && HeapMatch(rt, st.globals, c.heap)
    ensures var e := rt.vars[n];
            && (forall pc :: Exec(rt, Load(EDI, ESI, e.offset), c.(pc := pc)) == Running(c.(pc := pc, edi := e.binding)))
            && (forall pc :: Exec(rt, Store(EDI, -4), c.(pc := pc, edi := e.binding))
                             == Running(c.(pc := pc, edi := e.binding, heap := c.heap[e.binding := c.eax])))
  {
  }

  lemma RunAssignGlobal(img: Image, rt: Runtime, fr: Frame, tg: map<Label, int>, cx: Context, st: State, c0: Cpu, c: Cpu, n: Name, rest: Code)
    returns (c': Cpu)
    requires rt.Linked()
    requires Reach(img, rt, Running(c0), Running(c), 0) && At(rt, fr, cx, st, c0, c)
    requires FindLet(cx.recs, n) < 0 && n in rt.vars
    requires CodeAt(img, c.pc, GenAssign(rt, n, cx) + rest, tg)
    ensures Reach(img, rt, Running(c0), Running(c'), 0) && At(rt, fr, cx, WriteVar(st, n, c.eax), c0, c')
    ensures c'.eax == c.eax && c'.pc == c.pc + Size(GenAssign(rt, n, cx)) && CodeAt(img, c'.pc, rest, tg)
  {
    hide Reach, CodeAt, Keeps, VarsMatch, Encode, Exec, rt.Linked, Len, Size;
    LookupAgrees(fr, cx.recs, st.env, c.stack, n);
    var e := rt.vars[n];
    ExecAssign(rt, st, c, n);
    var i0, i1 := I(Load(EDI, ESI, e.offset), VarRef(n)), Plain(Store(EDI, -4));
    assert GenAssign(rt, n, cx) + rest == [i0] + ([i1] + rest);
    Advance(img, rt, tg, c0, c, GenAssign(rt, n, cx) + rest, i0, [i1] + rest);
    var c1 := c.(pc := c.pc + Len(i0), edi := e.binding);
    Advance(img, rt, tg, c0, c1, [i1] + rest, i1, rest);
    SizePair(i0, i1);
    c' := c1.(pc := c1.pc + Len(i1), heap := c.heap[e.binding := c.eax]);
    StoreGlobal(rt, fr, cx, st, c0, c, n, c.eax, c');
  }

  /** A result in EAX, then TARGET(1). */
  lemma TargetAfter(img: Image, rt: Runtime, fr: Frame, tg: map<Label, int>, cx: Context, dest: Dest, mid: int,
                    c: Cpu, out: Outcome, fuel: nat, exact: bool)
    requires Simulates(img, rt, fr, tg, cx, ToOperand, mid, c, out, fuel, exact)
    requires CodeAt(img, mid, Target(dest), tg) && dest != ToZeroFlag
    ensures Simulates(img, rt, fr, tg, cx, dest, mid + Size(Target(dest)), c, out, fuel, exact)
  {
    hide Reach, CodeAt, Matches, Keeps, Target, Size, Exited, HeapMatch;
    if out.Val? {
      var c' :| Reach(img, rt, Running(c), Running(c'), 0) && Finished(rt, fr, cx, ToOperand, mid, out.w, out.st, c, c', exact);
      FinishedAt(rt, fr, cx, ToOperand, mid, out.w, out.st, c, c', exact);
      DeliverTarget(img, rt, fr, tg, cx, dest, out.w, out.st, c, c', fuel, exact);
    } else {
      LiftExit(img, rt, fr, tg, cx, ToOperand, mid, dest, mid + Size(Target(dest)), c, out, fuel, exact);
    }
  }

  lemma AtKeeps(rt: Runtime, fr: Frame, cx: Context, st: State, c0: Cpu, c: Cpu)
    requires At(rt, fr, cx, st, c0, c)
    ensures Keeps(fr, cx, c0.stack, c.stack, fr.Base() + cx.si / 4)
  {
  }

  /** The then-branch, from the test's end to the form's end. */
  lemma ThenPart(img: Image, rt: Runtime, fr: Frame, tg: map<Label, int>, cx: Context, cx1: Context, dest: Dest,
                 c: Cpu, c2: Cpu, mid: int, d: int, els: Code, out: Outcome, fuel: nat, exact: bool)
    requires Sound(cx) && Reach(img, rt, Running(c), Running(c2), 0)
    requires Keeps(fr, cx, c.stack, c2.stack, fr.Base() + cx.si / 4)
    requires cx1.recs == cx.recs && cx1.env >= cx.env && cx1.si == cx.si && dest != ToZeroFlag
    requires Simulates(img, rt, fr, tg, cx1, ToEax, mid, c2, out, fuel, exact)
    requires CodeAt(img, mid, [Plain(Jmp32(d))] + els, tg) && CodeAt(img, mid + 5 + d, PushIfStack(dest), tg)
    ensures Simulates(img, rt, fr, tg, cx, dest, mid + 5 + d + Size(PushIfStack(dest)), c, out, fuel, exact)
  {
    hide Reach, CodeAt, Simulates, Keeps, Size, PushIfStack, Sound;
    SoundDepths(cx);
    Prefix(img, rt, fr, tg, cx, cx1, ToEax, mid, c, c2, out, fuel, exact);
    JumpAfter(img, rt, fr, tg, cx, mid, d, els, c, out, fuel, exact);
    PushAfter(img, rt, fr, tg, cx, dest, mid + 5 + d, c, out, fuel, exact);
  }

  /** A branch that is followed directly by the form's end. */
  lemma LastPart(img: Image, rt: Runtime, fr: Frame, tg: map<Label, int>, cx: Context, cx1: Context, dest: Dest,
                 c: Cpu, c2: Cpu, mid: int, out: Outcome, fuel: nat, exact: bool)
    requires Sound(cx) && Reach(img, rt, Running(c), Running(c2), 0)
    requires Keeps(fr, cx, c.stack, c2.stack, fr.Base() + cx.si / 4)
    requires cx1.recs == cx.recs && cx1.env >= cx.env && cx1.si == cx.si && dest != ToZeroFlag
    requires Simulates(img, rt, fr, tg, cx1, ToEax, mid, c2, out, fuel, exact)
    requires CodeAt(img, mid, PushIfStack(dest), tg)
    ensures Simulates(img, rt, fr, tg, cx, dest, mid + Size(PushIfStack(dest)), c, out, fuel, exact)
  {
    hide Reach, CodeAt, Simulates, Keeps, Size, PushIfStack, Sound;
    SoundDepths(cx);
    Prefix(img, rt, fr, tg, cx, cx1, ToEax, mid, c, c2, out, fuel, exact);
    PushAfter(img, rt, fr, tg, cx, dest, mid, c, out, fuel, exact);
  }

  /** The state after a test and its branch. */
  lemma AfterTest(img: Image, rt: Runtime, fr: Frame, tg: map<Label, int>, test: Form, hasElse: bool, cx: Context, cx1: Context,
                  c: Cpu, p0: int, w: Word, st1: State, d: int, rest: Code, fuel: nat, exact: bool) returns (c2: Cpu)
    requires rt.Linked() && Sound(cx)
    requires Simulates(img, rt, fr, tg, cx, TestDest(test, hasElse), p0, c, Val(w, st1), fuel, exact)
    requires CodeAt(img, p0, TestCompare(test) + ([Plain(Jcc32(TestCond(test), d))] + rest), tg)
    requires cx1.recs == cx.recs && cx1.si == cx.si && cx.env <= cx1.env <= 4 * fr.slots && cx1.env % 4 == 0
    ensures Reach(img, rt, Running(c), Running(c2), 0) && At(rt, fr, cx, st1, c, c2) && Related(rt, fr, cx1, st1, c2)
    ensures c2.pc == p0 + TestSize(test) + (if w == rt.nilWord then d else 0)
    ensures TestDest(test, hasElse) == ToEax ==> c2.eax == w && (exact ==> c2.ecx == 1)
  {
    hide Reach, CodeAt, Matches, Keeps, Sound, Related, rt.Linked;
    var dt := TestDest(test, hasElse);
    var c1 :| Reach(img, rt, Running(c), Running(c1), 0) && Finished(rt, fr, cx, dt, p0, w, st1, c, c1, exact);
    FinishedAt(rt, fr, cx, dt, p0, w, st1, c, c1, exact);
    c2 := RunTest(img, rt, tg, test, hasElse, c, c1, w, d, rest, exact);
    AtFrame(rt, fr, cx, st1, c, c1, c2);
    NextRelated(rt, fr, cx, cx1, st1, c, c2);
  }

  /** A finished form, continued by the next one in the context the first leaves. */
  lemma ThenNext(img: Image, rt: Runtime, fr: Frame, tg: map<Label, int>, cx: Context, dest1: Dest, end1: int, c: Cpu, w: Word, st1: State,
                 cx1: Context, fuel: nat, exact: bool) returns (c1: Cpu)
    requires Sound(cx) && dest1 != ToStack
    requires Simulates(img, rt, fr, tg, cx, dest1, end1, c, Val(w, st1), fuel, exact)
    requires cx1.recs == cx.recs && cx1.si == cx.si && cx.env <= cx1.env <= 4 * fr.slots && cx1.env % 4 == 0
    ensures Reach(img, rt, Running(c), Running(c1), 0) && At(rt, fr, cx, st1, c, c1) && Related(rt, fr, cx1, st1, c1)
    ensures c1.pc == end1 && Delivered(rt, dest1, w, c1, exact)
    ensures Keeps(fr, cx, c.stack, c1.stack, fr.Base() + cx.si / 4)
  {
    hide Reach, Matches, Keeps, Sound, Delivered;
    c1 :| Reach(img, rt, Running(c), Running(c1), 0) && Finished(rt, fr, cx, dest1, end1, w, st1, c, c1, exact);
    FinishedAt(rt, fr, cx, dest1, end1, w, st1, c, c1, exact);
    NextRelated(rt, fr, cx, cx1, st1, c, c1);
  }

  // ----- initialising a new slot -----

  /** Storing EAX into the slot allocated next: no live variable and no protected cell changes. */
  lemma RunStoreFresh(img: Image, rt: Runtime, fr: Frame, tg: map<Label, int>, cx: Context, cx1: Context, st: State, c0: Cpu, c: Cpu, rest: Code)
    returns (c': Cpu)
    requires Sound(cx) && cx.env + 4 <= 4 * fr.slots && cx1 == cx.(env := cx.env + 4)
    requires Reach(img, rt, Running(c0), Running(c), 0) && At(rt, fr, cx1, st, c0, c)
    requires CodeAt(img, c.pc, [Plain(Store(EBP, SlotOffset(cx.env)))] + rest, tg)
    ensures Reach(img, rt, Running(c0), Running(c'), 0) && At(rt, fr, cx, st, c0, c')
    ensures var cell := fr.CellOf(SlotOffset(cx.env));
            0 <= cell < |c'.stack| && c'.stack[cell] == W(c.eax)
    ensures c'.eax == c.eax && c'.pc == c.pc + Len(Plain(Store(EBP, SlotOffset(cx.env)))) && CodeAt(img, c'.pc, rest, tg)
  {
    hide Reach, CodeAt, Encode, Matches, Sound;
    var store := Plain(Store(EBP, SlotOffset(cx.env)));
    FreshCell(rt, fr, cx, cx1, st, c0, c);
    Advance(img, rt, tg, c0, c, [store] + rest, store, rest);
    c' := c.(pc := c.pc + Len(store), stack := c.stack[fr.CellOf(SlotOffset(cx.env)) := W(c.eax)]);
    StoreFresh(rt, fr, cx, cx1, st, c0, c, c');
  }

  lemma FreshCell(rt: Runtime, fr: Frame, cx: Context, cx1: Context, st: State, c0: Cpu, c: Cpu)
    requires Sound(cx) && cx.env + 4 <= 4 * fr.slots && cx1 == cx.(env := cx.env + 4) && At(rt, fr, cx1, st, c0, c)
    ensures FrameCell(c, SlotOffset(cx.env)) && c.ebp - SlotOffset(cx.env) / 4 == fr.CellOf(SlotOffset(cx.env))
    ensures fr.CellOf(SlotOffset(cx.env)) == fr.ebp + 2 + cx.env / 4 < fr.Base() <= |c.stack|
  {
    assert SlotOffset(cx.env) == -8 - 4 * (cx.env / 4);
  }

  lemma StoreFresh(rt: Runtime, fr: Frame, cx: Context, cx1: Context, st: State, c0: Cpu, c: Cpu, c': Cpu)
    requires Sound(cx) && cx.env + 4 <= 4 * fr.slots && cx1 == cx.(env := cx.env + 4) && At(rt, fr, cx1, st, c0, c)
    requires var cell := fr.CellOf(SlotOffset(cx.env));
             0 <= cell < |c.stack| && c'.stack == c.stack[cell := W(c.eax)] && c'.heap == c.heap && c'.ebp == c.ebp
    ensures At(rt, fr, cx, st, c0, c')
  {
    hide HeapMatch, IsSlot;
    FreshCell(rt, fr, cx, cx1, st, c0, c);
    var cell := fr.CellOf(SlotOffset(cx.env));
    ProtectedGrows(fr, cx, cx1);
    assert !Protected(fr, cx, cell);
    BelowFresh(fr, cx);
  }

  /** Live variables are in allocated slots. */
  lemma BelowFresh(fr: Frame, cx: Context)
    requires Sound(cx)
    ensures forall i :: 0 <= i < |Vars(cx.recs)| ==> fr.CellOf(Vars(cx.recs)[i].offset) < fr.ebp + 2 + cx.env / 4
  {
    forall i | 0 <= i < |Vars(cx.recs)|
      ensures fr.CellOf(Vars(cx.recs)[i].offset) < fr.ebp + 2 + cx.env / 4
    {
      assert IsSlot(Vars(cx.recs)[i].offset, cx.env);
    }
  }

  /** A slot stays as stored while code runs in which it is allocated but not live. */
  lemma FreshKept(fr: Frame, cx: Context, cx2: Context, s: seq<Cell>, s': seq<Cell>)
    requires Sound(cx) && cx.env + 4 <= 4 * fr.slots
    requires cx2.recs == cx.recs && cx2.env >= cx.env + 4 && cx2.env % 4 == 0
    requires fr.Base() <= |s| && Keeps(fr, cx2, s, s', fr.Base() + cx2.si / 4) && cx2.si >= 0
    ensures var cell := fr.CellOf(SlotOffset(cx.env)); 0 <= cell < |s'| && s'[cell] == s[cell]
  {
    BelowFresh(fr, cx);
    var cell := fr.CellOf(SlotOffset(cx.env));
    assert cell == fr.ebp + 2 + cx.env / 4;
    assert cx2.env / 4 >= cx.env / 4 + 1;
    assert Protected(fr, cx2, cell);
  }
}
