/** Running straight-line code, delivering values, and gluing simulations end to end. */
module Steps {
  import opened Words
  import opened X86
  import opened Runtime
  import opened Machine
  import opened Lisp
  import opened CodeGen
  import opened Relation

  /** c is a state of the frame with stack index cx.si, reached from c0 without touching protected cells. */
  ghost predicate At(rt: Runtime, fr: Frame, cx: Context, st: State, c0: Cpu, c: Cpu) {
    && |c.stack| == fr.Base() + cx.si / 4
    && Matches(rt, fr, cx.recs, st, c)
    && Keeps(fr, cx, c0.stack, c.stack, fr.Base() + cx.si / 4)
  }

  /** Executes the first item of c's code. */
  lemma StepHead(img: Image, rt: Runtime, tg: map<Label, int>, c: Cpu, code: Code, head: Item, tail: Code)
    requires code == [head] + tail && CodeAt(img, c.pc, code, tg)
    ensures head.Exit? ==> head.target in tg
    ensures Reach(img, rt, Running(c), Exec(rt, Settle(head, c.pc, tg), c.(pc := c.pc + Len(head))), 1)
    ensures CodeAt(img, c.pc + Len(head), tail, tg)
    ensures Size(code) == Len(head) + Size(tail)
  {
    hide Exec, Encode, Reach;
    assert code[0] == head && code[1..] == tail;
    StepItem(img, rt, c, head, tg);
  }

  /** As StepHead, continuing a run from c0. */
  lemma Advance(img: Image, rt: Runtime, tg: map<Label, int>, c0: Cpu, c: Cpu, code: Code, head: Item, tail: Code)
    requires Reach(img, rt, Running(c0), Running(c), 0)
    requires code == [head] + tail && CodeAt(img, c.pc, code, tg)
    ensures head.Exit? ==> head.target in tg
    ensures Reach(img, rt, Running(c0), Exec(rt, Settle(head, c.pc, tg), c.(pc := c.pc + Len(head))), 1)
    ensures Reach(img, rt, Running(c0), Exec(rt, Settle(head, c.pc, tg), c.(pc := c.pc + Len(head))), 0)
    ensures CodeAt(img, c.pc + Len(head), tail, tg)
    ensures Size(code) == Len(head) + Size(tail)
  {
    hide Exec, Encode, Reach;
    StepHead(img, rt, tg, c, code, head, tail);
    var m := Exec(rt, Settle(head, c.pc, tg), c.(pc := c.pc + Len(head)));
    ReachTrans(img, rt, Running(c0), Running(c), m, 0, 1);
    ReachWeaken(img, rt, Running(c0), m, 1, 0);
  }

  lemma Continue(img: Image, rt: Runtime, m0: Machine, m1: Machine, m2: Machine, k: nat)
    requires Reach(img, rt, m0, m1, 0) && Reach(img, rt, m1, m2, k)
    ensures Reach(img, rt, m0, m2, k)
  {
    ReachTrans(img, rt, m0, m1, m2, 0, k);
  }

  lemma KeepsTrans(fr: Frame, cx: Context, cx1: Context, s0: seq<Cell>, s1: seq<Cell>, s2: seq<Cell>, top: int, top1: int)
    requires Keeps(fr, cx, s0, s1, top) && Keeps(fr, cx1, s1, s2, top1)
    requires top <= top1
    requires cx1.env >= cx.env
    requires forall i :: Protected(fr, cx, i) ==> Protected(fr, cx1, i)
    ensures Keeps(fr, cx, s0, s2, top)
  {
  }

  lemma KeepsRefl(fr: Frame, cx: Context, s: seq<Cell>, top: int)
    requires top <= |s|
    ensures Keeps(fr, cx, s, s, top)
  {
  }

  /** More slots allocated means more cells protected. */
  lemma ProtectedGrows(fr: Frame, cx: Context, cx1: Context)
    requires cx1.recs == cx.recs && cx1.env >= cx.env
    ensures forall i :: Protected(fr, cx, i) ==> Protected(fr, cx1, i)
  {
    assert cx1.env / 4 >= cx.env / 4;
  }

  /** An outcome that leaves the form is the same whatever the form's destination and end. */
  lemma LiftExit(img: Image, rt: Runtime, fr: Frame, tg: map<Label, int>, cx: Context, dest: Dest, end: int,
                 dest': Dest, end': int, c: Cpu, out: Outcome, fuel: nat, exact: bool)
    requires !out.Val? && Simulates(img, rt, fr, tg, cx, dest, end, c, out, fuel, exact)
    ensures Simulates(img, rt, fr, tg, cx, dest', end', c, out, fuel, exact)
  {
    hide Reach, Exited, HeapMatch;
  }

  lemma ExitedAfter(rt: Runtime, fr: Frame, cx: Context, cx1: Context, tg: map<Label, int>, k: int, tag: nat, st': State,
                    c: Cpu, c1: Cpu, c': Cpu)
    requires Exited(rt, fr, cx1, tg, k, tag, st', c1, c')
    requires cx1.recs == cx.recs && cx1.env >= cx.env && cx1.si >= cx.si
    requires forall i :: 0 <= i < |cx.recs| && !cx.recs[i].LetRec? ==> cx.recs[i].depth <= cx.si
    requires Keeps(fr, cx, c.stack, c1.stack, fr.Base() + cx.si / 4)
    ensures Exited(rt, fr, cx, tg, k, tag, st', c, c')
  {
    hide Matches;
    ProtectedGrows(fr, cx, cx1);
    assert cx.recs[k].depth / 4 <= cx.si / 4;
    var top := |c'.stack|;
    assert Keeps(fr, cx, c.stack, c1.stack, top);
    KeepsTrans(fr, cx, cx1, c.stack, c1.stack, c'.stack, top, top);
  }

  /** A run from c to c1 followed by a form that leaves the frame is itself such a run. */
  lemma PrefixExit(img: Image, rt: Runtime, fr: Frame, tg: map<Label, int>, cx: Context, cx1: Context, dest1: Dest, end1: int,
                   dest: Dest, end: int, c: Cpu, c1: Cpu, out: Outcome, fuel: nat, exact: bool)
    requires Reach(img, rt, Running(c), Running(c1), 0)
    requires !out.Val? && Simulates(img, rt, fr, tg, cx1, dest1, end1, c1, out, fuel, exact)
    requires cx1.recs == cx.recs && cx1.env >= cx.env && cx1.si >= cx.si
    requires forall i :: 0 <= i < |cx.recs| && !cx.recs[i].LetRec? ==> cx.recs[i].depth <= cx.si
    requires Keeps(fr, cx, c.stack, c1.stack, fr.Base() + cx.si / 4)
    ensures Simulates(img, rt, fr, tg, cx, dest, end, c, out, fuel, exact)
  {
    hide Reach, Exited, HeapMatch, Keeps;
    match out
    case Return(n, w, st') =>
      var c' :| Reach(img, rt, Running(c1), Running(c'), 1) && Exited(rt, fr, cx1, tg, FindBlock(cx1.recs, n), 0, st', c1, c')
                && c'.eax == w && (exact ==> c'.ecx == 1);
      Continue(img, rt, Running(c), Running(c1), Running(c'), 1);
      ExitedAfter(rt, fr, cx, cx1, tg, FindBlock(cx.recs, n), 0, st', c, c1, c');
    case Jump(tag, st') =>
      var k := FindTags(cx.recs, tag);
      var t := IndexOf(cx.recs[k].tags, tag);
      var c' :| Reach(img, rt, Running(c1), Running(c'), 1) && Exited(rt, fr, cx1, tg, k, t, st', c1, c');
      Continue(img, rt, Running(c), Running(c1), Running(c'), 1);
      ExitedAfter(rt, fr, cx, cx1, tg, k, t, st', c, c1, c');
    case Signal(st') =>
      var h :| Reach(img, rt, Running(c1), Raised(h), 0) && HeapMatch(rt, st'.globals, h);
      Continue(img, rt, Running(c), Running(c1), Raised(h), 0);
    case Diverge =>
      var c' :| Reach(img, rt, Running(c1), Running(c'), fuel);
      Continue(img, rt, Running(c), Running(c1), Running(c'), fuel);
  }

  /** As PrefixExit, for any outcome of a form compiled with the same stack index. */
  lemma Prefix(img: Image, rt: Runtime, fr: Frame, tg: map<Label, int>, cx: Context, cx1: Context,
               dest: Dest, end: int, c: Cpu, c1: Cpu, out: Outcome, fuel: nat, exact: bool)
    requires Reach(img, rt, Running(c), Running(c1), 0)
    requires Simulates(img, rt, fr, tg, cx1, dest, end, c1, out, fuel, exact)
    requires cx1.recs == cx.recs && cx1.env >= cx.env && cx1.si == cx.si
    requires forall i :: 0 <= i < |cx.recs| && !cx.recs[i].LetRec? ==> cx.recs[i].depth <= cx.si
    requires Keeps(fr, cx, c.stack, c1.stack, fr.Base() + cx.si / 4)
    ensures Simulates(img, rt, fr, tg, cx, dest, end, c, out, fuel, exact)
  {
    hide Reach, Exited, HeapMatch, Keeps, Matches, Delivered;
    if out.Val? {
      var c' :| Reach(img, rt, Running(c1), Running(c'), 0)
                && Finished(rt, fr, cx1, dest, end, out.w, out.st, c1, c', exact);
      Continue(img, rt, Running(c), Running(c1), Running(c'), 0);
      ProtectedGrows(fr, cx, cx1);
      var top := fr.Base() + cx.si / 4;
      KeepsTrans(fr, cx, cx1, c.stack, c1.stack, c'.stack, top, top);
      assert Finished(rt, fr, cx, dest, end, out.w, out.st, c, c', exact);
    } else {
      PrefixExit(img, rt, fr, tg, cx, cx1, dest, end, dest, end, c, c1, out, fuel, exact);
    }
  }

  // ----- delivering a value -----

  lemma PushKeepsMatch(rt: Runtime, fr: Frame, recs: seq<Rec>, st: State, c: Cpu, x: Cell)
    requires Matches(rt, fr, recs, st, c)
    ensures Matches(rt, fr, recs, st, PushCell(c, x))
  {
    hide HeapMatch;
    var c' := PushCell(c, x);
    assert forall i :: 0 <= i < |c.stack| ==> c'.stack[i] == c.stack[i];
  }

  /** A state in place is a finished form for the destinations that need no more code. */
  lemma Deliver(img: Image, rt: Runtime, fr: Frame, tg: map<Label, int>, cx: Context, dest: Dest,
                w: Word, st: State, c0: Cpu, c: Cpu, fuel: nat, exact: bool)
    requires Reach(img, rt, Running(c0), Running(c), 0) && At(rt, fr, cx, st, c0, c)
    requires dest != ToStack && Delivered(rt, dest, w, c, exact)
    ensures Simulates(img, rt, fr, tg, cx, dest, c.pc, c0, Val(w, st), fuel, exact)
  {
    hide Reach, Matches, Keeps, Delivered;
    assert Finished(rt, fr, cx, dest, c.pc, w, st, c0, c, exact);
  }

  /** A value on top of the stack is a finished form for the stack. */
  lemma DeliverPushed(img: Image, rt: Runtime, fr: Frame, tg: map<Label, int>, cx: Context,
                      w: Word, st: State, c0: Cpu, c: Cpu, c': Cpu, fuel: nat, exact: bool)
    requires Reach(img, rt, Running(c0), Running(c'), 0) && At(rt, fr, cx, st, c0, c)
    requires c' == PushCell(c, W(w)).(pc := c'.pc)
    ensures Simulates(img, rt, fr, tg, cx, ToStack, c'.pc, c0, Val(w, st), fuel, exact)
  {
    hide Reach, HeapMatch;
    PushKeepsMatch(rt, fr, cx.recs, st, c, W(w));
    assert Matches(rt, fr, cx.recs, st, c');
    assert forall i :: 0 <= i < |c.stack| ==> c'.stack[i] == c.stack[i];
    assert Keeps(fr, cx, c0.stack, c'.stack, fr.Base() + cx.si / 4);
    assert Finished(rt, fr, cx, ToStack, c'.pc, w, st, c0, c', exact);
  }

  /** EAX holds the value and PushIfStack follows. */
  lemma DeliverPush(img: Image, rt: Runtime, fr: Frame, tg: map<Label, int>, cx: Context, dest: Dest,
                    w: Word, st: State, c0: Cpu, c: Cpu, fuel: nat, exact: bool)
    requires Reach(img, rt, Running(c0), Running(c), 0) && At(rt, fr, cx, st, c0, c)
    requires CodeAt(img, c.pc, PushIfStack(dest), tg)
    requires dest != ToZeroFlag && c.eax == w && (exact ==> c.ecx == 1)
    ensures Simulates(img, rt, fr, tg, cx, dest, c.pc + Size(PushIfStack(dest)), c0, Val(w, st), fuel, exact)
  {
    hide Reach, Matches, Keeps, At;
    if dest == ToStack {
      Advance(img, rt, tg, c0, c, PushIfStack(dest), Plain(Push(EAX)), []);
      DeliverPushed(img, rt, fr, tg, cx, w, st, c0, c, PushCell(c, W(w)).(pc := c.pc + 1), fuel, exact);
    } else {
      Deliver(img, rt, fr, tg, cx, dest, w, st, c0, c, fuel, exact);
    }
  }

  lemma AtSamePlace(rt: Runtime, fr: Frame, cx: Context, st: State, c0: Cpu, c: Cpu, c': Cpu)
    requires At(rt, fr, cx, st, c0, c)
    requires c'.stack == c.stack && c'.heap == c.heap && c'.ebp == c.ebp
    ensures At(rt, fr, cx, st, c0, c')
  {
  }

  /** EAX holds the value and CountIfEax follows. */
  lemma DeliverCount(img: Image, rt: Runtime, fr: Frame, tg: map<Label, int>, cx: Context, dest: Dest,
                     w: Word, st: State, c0: Cpu, c: Cpu, fuel: nat, exact: bool)
    requires Reach(img, rt, Running(c0), Running(c), 0) && At(rt, fr, cx, st, c0, c)
    requires CodeAt(img, c.pc, CountIfEax(dest), tg)
    requires (dest == ToEax || dest == ToOperand) && c.eax == w
    ensures Simulates(img, rt, fr, tg, cx, dest, c.pc + Size(CountIfEax(dest)), c0, Val(w, st), fuel, exact)
  {
    hide Reach, Matches, Keeps, At;
    if dest == ToEax {
      Advance(img, rt, tg, c0, c, CountIfEax(dest), Plain(MovImm(ECX, 1)), []);
      var c' := c.(pc := c.pc + 5, ecx := 1);
      AtSamePlace(rt, fr, cx, st, c0, c, c');
      Deliver(img, rt, fr, tg, cx, dest, w, st, c0, c', fuel, exact);
    } else {
      Deliver(img, rt, fr, tg, cx, dest, w, st, c0, c, fuel, exact);
    }
  }

  /** EAX holds the value and TARGET(1) follows. */
  lemma DeliverTarget(img: Image, rt: Runtime, fr: Frame, tg: map<Label, int>, cx: Context, dest: Dest,
                      w: Word, st: State, c0: Cpu, c: Cpu, fuel: nat, exact: bool)
    requires Reach(img, rt, Running(c0), Running(c), 0) && At(rt, fr, cx, st, c0, c)
    requires CodeAt(img, c.pc, Target(dest), tg)
    requires dest != ToZeroFlag && c.eax == w
    ensures Simulates(img, rt, fr, tg, cx, dest, c.pc + Size(Target(dest)), c0, Val(w, st), fuel, exact)
  {
    hide Reach, Matches, Keeps, At;
    if dest == ToStack {
      Advance(img, rt, tg, c0, c, Target(dest), Plain(Push(EAX)), []);
      DeliverPushed(img, rt, fr, tg, cx, w, st, c0, c, PushCell(c, W(w)).(pc := c.pc + 1), fuel, exact);
    } else {
      DeliverCount(img, rt, fr, tg, cx, dest, w, st, c0, c, fuel, exact);
    }
  }
}
