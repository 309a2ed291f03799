/** Constants and variables: the code that loads or stores a single value. */
module Leaves {
  import opened Words
  import opened X86
  import opened Runtime
  import opened Machine
  import opened Lisp
  import opened CodeGen
  import opened Relation
  import opened Steps

  lemma RelatedIsAt(rt: Runtime, fr: Frame, cx: Context, st: State, c: Cpu)
    requires Related(rt, fr, cx, st, c)
    ensures At(rt, fr, cx, st, c, c)
  {
  }

  /** Loading a word into EAX in one instruction and delivering it. */
  lemma SimLoad(img: Image, rt: Runtime, fr: Frame, tg: map<Label, int>, cx: Context, dest: Dest, st: State,
                c: Cpu, load: Item, w: Word, fuel: nat, exact: bool)
    requires dest == ToEax || dest == ToOperand
    requires Related(rt, fr, cx, st, c)
    requires load.I?
    requires var m := Exec(rt, load.ins, c.(pc := c.pc + Len(load)));
             m.Running? && m.cpu == c.(pc := c.pc + Len(load), eax := w, zf := m.cpu.zf, sf := m.cpu.sf, of := m.cpu.of)
    requires CodeAt(img, c.pc, [load] + CountIfEax(dest), tg)
    ensures Simulates(img, rt, fr, tg, cx, dest, c.pc + Size([load] + CountIfEax(dest)), c, Val(w, st), fuel, exact)
  {
    hide Reach, Matches, Keeps, At, Related, Exec, Encode;
    RelatedIsAt(rt, fr, cx, st, c);
    ReachRefl(img, rt, Running(c));
    Advance(img, rt, tg, c, c, [load] + CountIfEax(dest), load, CountIfEax(dest));
    var c' := Exec(rt, load.ins, c.(pc := c.pc + Len(load))).cpu;
    AtSamePlace(rt, fr, cx, st, c, c, c');
    DeliverCount(img, rt, fr, tg, cx, dest, w, st, c, c', fuel, exact);
  }

  /** Pushing a word in one instruction. */
  lemma SimPush(img: Image, rt: Runtime, fr: Frame, tg: map<Label, int>, cx: Context, st: State,
                c: Cpu, push: Item, w: Word, fuel: nat, exact: bool)
    requires Related(rt, fr, cx, st, c)
    requires push.I? && Exec(rt, push.ins, c.(pc := c.pc + Len(push))) == Running(PushCell(c, W(w)).(pc := c.pc + Len(push)))
    requires CodeAt(img, c.pc, [push], tg)
    ensures Simulates(img, rt, fr, tg, cx, ToStack, c.pc + Size([push]), c, Val(w, st), fuel, exact)
  {
    hide Reach, Matches, Keeps, At, Related, Exec, Encode;
    RelatedIsAt(rt, fr, cx, st, c);
    ReachRefl(img, rt, Running(c));
    Advance(img, rt, tg, c, c, [push], push, []);
    DeliverPushed(img, rt, fr, tg, cx, w, st, c, c, PushCell(c, W(w)).(pc := c.pc + Len(push)), fuel, exact);
  }

  lemma SimLit(img: Image, rt: Runtime, fr: Frame, tg: map<Label, int>, cx: Context, dest: Dest, st: State,
               c: Cpu, w: Word, fuel: nat, exact: bool)
    requires dest != ToZeroFlag && Related(rt, fr, cx, st, c) && CodeAt(img, c.pc, GenLit(w, dest), tg)
    ensures Simulates(img, rt, fr, tg, cx, dest, c.pc + Size(GenLit(w, dest)), c, Val(w, st), fuel, exact)
  {
    hide Related, CodeAt, Simulates, Encode;
    if dest == ToStack {
      SimPush(img, rt, fr, tg, cx, st, c, Plain(PushImm(w)), w, fuel, exact);
    } else {
      SimLoad(img, rt, fr, tg, cx, dest, st, c, Plain(MovObj(EAX, w)), w, fuel, exact);
    }
  }

  lemma SimSym(img: Image, rt: Runtime, fr: Frame, tg: map<Label, int>, cx: Context, dest: Dest, st: State,
               c: Cpu, w: Word, fuel: nat, exact: bool)
    requires dest != ToZeroFlag && Related(rt, fr, cx, st, c) && CodeAt(img, c.pc, GenSym(w, dest), tg)
    ensures Simulates(img, rt, fr, tg, cx, dest, c.pc + Size(GenSym(w, dest)), c, Val(w, st), fuel, exact)
  {
    hide Related, CodeAt, Simulates, Encode;
    if dest == ToStack {
      SimPush(img, rt, fr, tg, cx, st, c, I(PushImm(w), LiteralRef(w)), w, fuel, exact);
    } else {
      SimLoad(img, rt, fr, tg, cx, dest, st, c, I(MovImm(EAX, w), LiteralRef(w)), w, fuel, exact);
    }
  }

  lemma SimNil(img: Image, rt: Runtime, fr: Frame, tg: map<Label, int>, cx: Context, dest: Dest, st: State,
               c: Cpu, fuel: nat, exact: bool)
    requires rt.Linked()
    requires dest != ToZeroFlag && Related(rt, fr, cx, st, c) && CodeAt(img, c.pc, GenNil(dest), tg)
    ensures Simulates(img, rt, fr, tg, cx, dest, c.pc + Size(GenNil(dest)), c, Val(rt.nilWord, st), fuel, exact)
  {
    hide Related, CodeAt, Simulates, Encode;
    if dest == ToStack {
      SimPush(img, rt, fr, tg, cx, st, c, Plain(PushMem(ESI, 0)), rt.nilWord, fuel, exact);
    } else {
      SimLoad(img, rt, fr, tg, cx, dest, st, c, LoadNil(), rt.nilWord, fuel, exact);
    }
  }

  // ----- lexical variables -----

  /** The frame cell of a lexical variable holds its value. */
  lemma LexicalCell(rt: Runtime, fr: Frame, cx: Context, st: State, c: Cpu, n: Name)
    requires Sound(cx) && Matches(rt, fr, cx.recs, st, c) && FindLet(cx.recs, n) >= 0
    ensures var offset, j := cx.recs[FindLet(cx.recs, n)].offset, FindVar(st.env, n);
            && j >= 0
            && IsSlot(offset, cx.env)
            && FrameCell(c, offset)
            && c.stack[c.ebp - offset / 4] == W(st.env[j].1)
  {
    hide HeapMatch;
    LookupAgrees(fr, cx.recs, st.env, c.stack, n);
    var j := FindVar(st.env, n);
    assert Vars(cx.recs)[j].LetRec?;
  }

  lemma SimLexical(img: Image, rt: Runtime, fr: Frame, tg: map<Label, int>, cx: Context, dest: Dest, st: State,
                   c: Cpu, n: Name, fuel: nat, exact: bool)
    requires dest != ToZeroFlag && Related(rt, fr, cx, st, c) && FindLet(cx.recs, n) >= 0
    requires CodeAt(img, c.pc, GenVar(rt, n, dest, cx), tg)
    ensures Simulates(img, rt, fr, tg, cx, dest, c.pc + Size(GenVar(rt, n, dest, cx)), c, ReadVar(st, n), fuel, exact)
  {
    hide CodeAt, Simulates, Encode, Matches, Sound;
    LexicalCell(rt, fr, cx, st, c, n);
    var offset, w := cx.recs[FindLet(cx.recs, n)].offset, st.env[FindVar(st.env, n)].1;
    if dest == ToStack {
      SimPush(img, rt, fr, tg, cx, st, c, Plain(PushMem(EBP, offset)), w, fuel, exact);
    } else {
      SimLoad(img, rt, fr, tg, cx, dest, st, c, Plain(Load(EAX, EBP, offset)), w, fuel, exact);
    }
  }

  // ----- global variables -----

  /** From an unbound marker in EAX to the condition raised for it. */
  lemma RunUnbound(img: Image, rt: Runtime, tg: map<Label, int>, c0: Cpu, c: Cpu, e: VarEntry, rest: Code)
    requires rt.Linked() && Reach(img, rt, Running(c0), Running(c), 0)
    requires CodeAt(img, c.pc, UnboundCall(rt, e) + rest, tg)
    ensures Reach(img, rt, Running(c0), Raised(c.heap), 0)
  {
    hide Reach, CodeAt, Encode;
    var k1 := Plain(MovImm(ECX, 1));
    var k2 := CallRoutine(rt, UnboundVariable);
    var k3 := [Plain(AddEsp(4))] + rest;
    var i0 := I(PushImm(e.sym), LiteralRef(e.sym));
    assert UnboundCall(rt, e) + rest == [i0] + ([k1] + ([k2] + k3));
    Advance(img, rt, tg, c0, c, UnboundCall(rt, e) + rest, i0, [k1] + ([k2] + k3));
    var c1 := PushCell(c, W(e.sym)).(pc := c.pc + Len(i0));
    Advance(img, rt, tg, c0, c1, [k1] + ([k2] + k3), k1, [k2] + k3);
    var c2 := c1.(pc := c1.pc + Len(k1), ecx := 1);
    Advance(img, rt, tg, c0, c2, [k2] + k3, k2, k3);
  }

  lemma GlobalParts(rt: Runtime, n: Name, dest: Dest)
    requires n in rt.vars
    ensures var e := rt.vars[n];
            var tail := [Plain(Jcc32(NE, Size(UnboundCall(rt, e))))] + (UnboundCall(rt, e) + Target(dest));
            var i0, i1, i2 := I(Load(EAX, ESI, e.offset), VarRef(n)), Plain(Load(EAX, EAX, -4)), Plain(CmpImm(UNINITIALIZED));
            && GenGlobal(rt, n, dest) == [i0] + ([i1] + ([i2] + tail))
            && Size(GenGlobal(rt, n, dest)) == Len(i0) + Len(i1) + Len(i2) + Size(tail)
  {
    hide Len, UnboundCall, Target;
    var e := rt.vars[n];
    var tail := [Plain(Jcc32(NE, Size(UnboundCall(rt, e))))] + (UnboundCall(rt, e) + Target(dest));
    var i0, i1, i2 := I(Load(EAX, ESI, e.offset), VarRef(n)), Plain(Load(EAX, EAX, -4)), Plain(CmpImm(UNINITIALIZED));
    assert GenGlobal(rt, n, dest) == [i0] + ([i1] + ([i2] + tail));
    SizeCons(i0, [i1] + ([i2] + tail));
    SizeCons(i1, [i2] + tail);
    SizeCons(i2, tail);
  }

  lemma SizeCons(it: Item, rest: Code)
    ensures Size([it] + rest) == Len(it) + Size(rest)
  {
    hide Len;
    assert ([it] + rest)[1..] == rest;
  }

  /** Loading a global through its binding cell, up to the comparison with the unbound marker. */
  lemma RunGlobal(img: Image, rt: Runtime, tg: map<Label, int>, c: Cpu, n: Name, dest: Dest) returns (c3: Cpu)
    requires rt.Linked() && n in rt.vars && rt.vars[n].binding in c.heap
    requires CodeAt(img, c.pc, GenGlobal(rt, n, dest), tg)
    ensures var e := rt.vars[n];
            var tail := [Plain(Jcc32(NE, Size(UnboundCall(rt, e))))] + (UnboundCall(rt, e) + Target(dest));
            && Reach(img, rt, Running(c), Running(c3), 0)
            && CodeAt(img, c3.pc, tail, tg)
            && c3.eax == c.heap[e.binding]
            && c3.zf == (c3.eax == UNINITIALIZED)
            && c3.stack == c.stack && c3.heap == c.heap && c3.ebp == c.ebp && c3.edx == c.edx
            && c.pc + Size(GenGlobal(rt, n, dest)) == c3.pc + Size(tail)
  {
    hide Reach, CodeAt, Encode, Size, UnboundCall, Target, GenGlobal;
    var e := rt.vars[n];
    var tail := [Plain(Jcc32(NE, Size(UnboundCall(rt, e))))] + (UnboundCall(rt, e) + Target(dest));
    var i0, i1, i2 := I(Load(EAX, ESI, e.offset), VarRef(n)), Plain(Load(EAX, EAX, -4)), Plain(CmpImm(UNINITIALIZED));
    GlobalParts(rt, n, dest);
    ReachRefl(img, rt, Running(c));
    Advance(img, rt, tg, c, c, GenGlobal(rt, n, dest), i0, [i1] + ([i2] + tail));
    var c1 := c.(pc := c.pc + Len(i0), eax := e.binding);
    Advance(img, rt, tg, c, c1, [i1] + ([i2] + tail), i1, [i2] + tail);
    var c2 := c1.(pc := c1.pc + Len(i1), eax := c.heap[e.binding]);
    Advance(img, rt, tg, c, c2, [i2] + tail, i2, tail);
    c3 := SubFlags(c2.(pc := c2.pc + Len(i2)), c2.eax, UNINITIALIZED);
  }

  lemma SimGlobal(img: Image, rt: Runtime, fr: Frame, tg: map<Label, int>, cx: Context, dest: Dest, st: State,
                  c: Cpu, n: Name, fuel: nat, exact: bool)
    requires rt.Linked() && dest != ToZeroFlag && Related(rt, fr, cx, st, c)
    requires FindLet(cx.recs, n) < 0 && n in rt.vars
    requires CodeAt(img, c.pc, GenVar(rt, n, dest, cx), tg)
    ensures Simulates(img, rt, fr, tg, cx, dest, c.pc + Size(GenVar(rt, n, dest, cx)), c, ReadVar(st, n), fuel, exact)
  {
    hide Reach, CodeAt, Encode, Keeps, VarsMatch, Finished, Exec;
    LookupAgrees(fr, cx.recs, st.env, c.stack, n);
    RelatedIsAt(rt, fr, cx, st, c);
    var e := rt.vars[n];
    var c3 := RunGlobal(img, rt, tg, c, n, dest);
    var jump := Plain(Jcc32(NE, Size(UnboundCall(rt, e))));
    Advance(img, rt, tg, c, c3, [jump] + (UnboundCall(rt, e) + Target(dest)), jump, UnboundCall(rt, e) + Target(dest));
    AfterGlobal(img, rt, fr, tg, cx, dest, st, c, c3, n, fuel, exact);
  }

  lemma AfterGlobal(img: Image, rt: Runtime, fr: Frame, tg: map<Label, int>, cx: Context, dest: Dest, st: State,
                    c: Cpu, c3: Cpu, n: Name, fuel: nat, exact: bool)
    requires rt.Linked() && dest != ToZeroFlag && At(rt, fr, cx, st, c, c)
    requires n in rt.vars && FindVar(st.env, n) < 0
    requires var e := rt.vars[n];
            var jump := Plain(Jcc32(NE, Size(UnboundCall(rt, e))));
            && Reach(img, rt, Running(c), Exec(rt, Settle(jump, c3.pc, tg), c3.(pc := c3.pc + Len(jump))), 0)
            && CodeAt(img, c3.pc + Len(jump), UnboundCall(rt, e) + Target(dest), tg)
            && c3.eax == c.heap[e.binding]
            && c3.zf == (c3.eax == UNINITIALIZED)
            && c3.stack == c.stack && c3.heap == c.heap && c3.ebp == c.ebp
            && c.pc + Size(GenGlobal(rt, n, dest)) == c3.pc + Len(jump) + Size(UnboundCall(rt, e) + Target(dest))
    ensures Simulates(img, rt, fr, tg, cx, dest, c.pc + Size(GenGlobal(rt, n, dest)), c, ReadVar(st, n), fuel, exact)
  {
    hide Reach, CodeAt, Encode, Keeps, VarsMatch, Finished, Size, UnboundCall, GenGlobal;
    var e := rt.vars[n];
    var next := c3.pc + Len(Plain(Jcc32(NE, Size(UnboundCall(rt, e)))));
    SizeConcat(UnboundCall(rt, e), Target(dest));
    if c3.zf {
      RunUnbound(img, rt, tg, c, c3.(pc := next), e, Target(dest));
    } else {
      CodeAtConcat(img, next, UnboundCall(rt, e), Target(dest), tg);
      var c4 := c3.(pc := next + Size(UnboundCall(rt, e)));
      AtSamePlace(rt, fr, cx, st, c, c, c4);
      DeliverTarget(img, rt, fr, tg, cx, dest, c4.eax, st, c, c4, fuel, exact);
    }
  }

  lemma SimVar(img: Image, rt: Runtime, fr: Frame, tg: map<Label, int>, cx: Context, dest: Dest, st: State,
               c: Cpu, n: Name, fuel: nat, exact: bool)
    requires rt.Linked() && dest != ToZeroFlag && Related(rt, fr, cx, st, c)
    requires FindLet(cx.recs, n) >= 0 || n in rt.vars
    requires CodeAt(img, c.pc, GenVar(rt, n, dest, cx), tg)
    ensures Simulates(img, rt, fr, tg, cx, dest, c.pc + Size(GenVar(rt, n, dest, cx)), c, ReadVar(st, n), fuel, exact)
  {
    hide Related, CodeAt, Simulates, GenVar, ReadVar;
    if FindLet(cx.recs, n) >= 0 {
      SimLexical(img, rt, fr, tg, cx, dest, st, c, n, fuel, exact);
    } else {
      SimGlobal(img, rt, fr, tg, cx, dest, st, c, n, fuel, exact);
    }
  }
}
