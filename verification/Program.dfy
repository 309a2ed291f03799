/**
 A whole compiled expression: the prolog that builds a frame of NIL slots, the code of the form,
 and the epilog, run from the call to the return.
 */
module Program {
  import opened Options
  import opened Words
  import opened X86
  import opened Runtime
  import opened Machine
  import opened Lisp
  import opened CodeGen
  import opened Relation
  import opened Steps
  import opened Tails
  import opened Layout
  import opened Preservation
  import opened Encoding
  import opened Fitting

  function Repeat(it: Item, n: nat): (c: Code)
    ensures |c| == n
  {
    if n == 0 then [] else [it] + Repeat(it, n - 1)
  }

  /** The loop that pushes EAX as often as EDX says. */
  function PushLoop(): Code {
    [Plain(Push(EAX)), Plain(DecEdx), Plain(Jcc8(G, -4))]
  }

  /** Code that fills a frame of envSize bytes: pushes in line below 64 bytes, a loop from there on. */
  function FillCode(envSize: nat): Code
    requires envSize / 4 < 0x1_0000_0000
  {
    if envSize == 0 then []
    else [LoadNil()] + (if envSize < 64 then Repeat(Plain(Push(EAX)), (envSize + 3) / 4)
                        else [Plain(MovImm(EDX, envSize / 4))] + PushLoop())
  }

  function Prolog(envSize: nat): Code
    requires envSize / 4 < 0x1_0000_0000
  {
    [Plain(Push(EBP)), Plain(Mov(EBP, ESP)), Plain(Push(EDI))] + FillCode(envSize)
  }

  function Epilog(): Code {
    [Plain(Mov(ESP, EBP)), Plain(Pop(EBP)), Plain(Ret)]
  }

  /** The context in which compileExpression compiles its form. */
  function Start(check: bool): Context {
    Context([], 0, 0, check)
  }

  function ExpressionCode(rt: Runtime, x: Form, check: bool): Code
    requires Slots(x) < 0x1_0000_0000
  {
    Prolog(4 * Slots(x)) + Gen(rt, x, ToEax, Start(check)) + Epilog()
  }

  /** compileForm raises no error, and the stack index is zero again at the end. */
  predicate Compilable(rt: Runtime, x: Form, check: bool) {
    Accepts(rt, x, ToEax, Start(check)) && Count(x, ToEax, StackGo) == 0
  }

  // ----- the prolog -----

  function Nils(rt: Runtime, n: nat): (s: seq<Cell>)
    ensures |s| == n && forall i :: 0 <= i < n ==> s[i] == W(rt.nilWord)
  {
    if n == 0 then [] else [W(rt.nilWord)] + Nils(rt, n - 1)
  }

  /** c' is c with the frame's slots filled, at the end of the filling code. */
  ghost predicate Filled(rt: Runtime, c: Cpu, c': Cpu, n: nat, end: int) {
    c'.pc == end && c'.stack == c.stack + Nils(rt, n) && c'.ebp == c.ebp && c'.heap == c.heap
  }

  lemma NilsShift(rt: Runtime, s: seq<Cell>, n: nat)
    requires n > 0
    ensures s + Nils(rt, n) == (s + [W(rt.nilWord)]) + Nils(rt, n - 1)
  {
  }

  lemma {:induction false} RunPushes(img: Image, rt: Runtime, tg: map<Label, int>, c0: Cpu, c: Cpu, n: nat) returns (c': Cpu)
    requires Reach(img, rt, Running(c0), Running(c), 0) && c.eax == rt.nilWord
    requires CodeAt(img, c.pc, Repeat(Plain(Push(EAX)), n), tg)
    ensures Reach(img, rt, Running(c0), Running(c'), 0) && Filled(rt, c, c', n, c.pc + Size(Repeat(Plain(Push(EAX)), n)))
    decreases n
  {
    hide Reach, CodeAt, Encode;
    var it := Plain(Push(EAX));
    if n == 0 {
      c' := c;
    } else {
      Advance(img, rt, tg, c0, c, Repeat(it, n), it, Repeat(it, n - 1));
      var c1 := PushCell(c, W(c.eax)).(pc := c.pc + Len(it));
      c' := RunPushes(img, rt, tg, c0, c1, n - 1);
      NilsShift(rt, c.stack, n);
    }
  }

  lemma LoopSizes()
    ensures Len(Plain(Push(EAX))) == 1 && Len(Plain(DecEdx)) == 1 && Len(Plain(Jcc8(G, -4))) == 2
  {
  }

  /** The loop pushes EDX times, for every count below 2^31. */
  lemma {:induction false} RunLoop(img: Image, rt: Runtime, tg: map<Label, int>, c0: Cpu, c: Cpu, n: nat) returns (c': Cpu)
    requires Reach(img, rt, Running(c0), Running(c), 0) && c.eax == rt.nilWord
    requires CodeAt(img, c.pc, PushLoop(), tg) && c.edx == n && 0 < n < 0x8000_0000
    ensures Reach(img, rt, Running(c0), Running(c'), 0) && Filled(rt, c, c', n, c.pc + 4)
    decreases n
  {
    hide Reach, CodeAt, Encode;
    var i0, i1, i2 := Plain(Push(EAX)), Plain(DecEdx), Plain(Jcc8(G, -4));
    LoopSizes();
    assert PushLoop() == [i0] + [i1, i2];
    Advance(img, rt, tg, c0, c, [i0] + [i1, i2], i0, [i1, i2]);
    assert [i1, i2] == [i1] + [i2];
    var c1 := PushCell(c, W(c.eax)).(pc := c.pc + 1);
    Advance(img, rt, tg, c0, c1, [i1] + [i2], i1, [i2]);
    var c2 := c1.(pc := c.pc + 2, edx := n - 1, zf := n == 1, sf := false, of := false);
    Advance(img, rt, tg, c0, c2, [i2], i2, []);
    NilsShift(rt, c.stack, n);
    if n == 1 {
      c' := c2.(pc := c.pc + 4);
    } else {
      c' := RunLoop(img, rt, tg, c0, c2.(pc := c.pc), n - 1);
    }
  }

  lemma LoopSize()
    ensures Size(PushLoop()) == 4
  {
    LoopSizes();
    SizePair(Plain(Push(EAX)), Plain(DecEdx));
    SizeConcat([Plain(Push(EAX)), Plain(DecEdx)], [Plain(Jcc8(G, -4))]);
    SizePair(Plain(Jcc8(G, -4)), Plain(Jcc8(G, -4)));
  }

  /** Unrolled or looped, the filling code builds the same frame. */
  lemma RunFill(img: Image, rt: Runtime, tg: map<Label, int>, c0: Cpu, c: Cpu, envSize: nat) returns (c': Cpu)
    requires Reach(img, rt, Running(c0), Running(c), 0) && rt.qv(0) == Some(rt.nilWord)
    requires envSize % 4 == 0 && envSize <= REACH && CodeAt(img, c.pc, FillCode(envSize), tg)
    ensures Reach(img, rt, Running(c0), Running(c'), 0) && Filled(rt, c, c', envSize / 4, c.pc + Size(FillCode(envSize)))
    ensures envSize == 0 ==> c' == c
  {
    hide Reach, CodeAt, Encode, Size, PushLoop;
    if envSize == 0 {
      c' := c;
      assert Size(FillCode(0)) == 0 by { SizeNothing(); }
    } else {
      var rest := FillCode(envSize)[1..];
      Advance(img, rt, tg, c0, c, FillCode(envSize), LoadNil(), rest);
      var c1 := c.(pc := c.pc + Len(LoadNil()), eax := rt.nilWord);
      if envSize < 64 {
        c' := RunPushes(img, rt, tg, c0, c1, envSize / 4);
      } else {
        var count := Plain(MovImm(EDX, envSize / 4));
        Advance(img, rt, tg, c0, c1, rest, count, PushLoop());
        LoopSize();
        c' := RunLoop(img, rt, tg, c0, c1.(pc := c1.pc + Len(count), edx := envSize / 4), envSize / 4);
      }
    }
  }

  lemma SizeNothing()
    ensures Size([]) == 0
  {
  }

  /** The prolog saves EBP and EDI above the return address, and fills the slots with NIL. */
  lemma RunProlog(img: Image, rt: Runtime, tg: map<Label, int>, c: Cpu, envSize: nat) returns (c': Cpu)
    requires rt.qv(0) == Some(rt.nilWord)
    requires envSize % 4 == 0 && envSize <= REACH && CodeAt(img, c.pc, Prolog(envSize), tg)
    ensures Reach(img, rt, Running(c), Running(c'), 0) && c'.pc == c.pc + Size(Prolog(envSize))
    ensures c'.stack == c.stack + [Link(c.ebp), W(c.edi)] + Nils(rt, envSize / 4)
    ensures c'.ebp == |c.stack| && c'.heap == c.heap
    ensures envSize == 0 ==> c'.eax == c.eax && c'.ecx == c.ecx
  {
    hide Reach, CodeAt, Encode, Size, FillCode;
    ReachRefl(img, rt, Running(c));
    var i0, i1, i2, fill := Plain(Push(EBP)), Plain(Mov(EBP, ESP)), Plain(Push(EDI)), FillCode(envSize);
    assert Prolog(envSize) == [i0] + ([i1] + ([i2] + fill));
    Advance(img, rt, tg, c, c, [i0] + ([i1] + ([i2] + fill)), i0, [i1] + ([i2] + fill));
    var c1 := PushCell(c, Link(c.ebp)).(pc := c.pc + Len(i0));
    Advance(img, rt, tg, c, c1, [i1] + ([i2] + fill), i1, [i2] + fill);
    var c2 := c1.(pc := c1.pc + Len(i1), ebp := |c.stack|);
    Advance(img, rt, tg, c, c2, [i2] + fill, i2, fill);
    var c3 := PushCell(c2, W(c.edi)).(pc := c2.pc + Len(i2));
    c' := RunFill(img, rt, tg, c, c3, envSize);
    assert c3.stack == c.stack + [Link(c.ebp), W(c.edi)];
  }

  /** The epilog drops the frame, restores EBP and returns. */
  lemma RunEpilog(img: Image, rt: Runtime, tg: map<Label, int>, c0: Cpu, c: Cpu, fr: int) returns (c': Cpu)
    requires Reach(img, rt, Running(c0), Running(c), 0) && CodeAt(img, c.pc, Epilog(), tg)
    requires 1 <= c.ebp < |c.stack| && c.stack[c.ebp] == Link(fr)
    ensures Reach(img, rt, Running(c0), Halted(c'), 0)
    ensures c'.stack == c.stack[..c.ebp - 1] && c'.ebp == fr && c'.eax == c.eax && c'.ecx == c.ecx && c'.heap == c.heap
  {
    hide Reach, CodeAt, Encode;
    var i0, i1, i2 := Plain(Mov(ESP, EBP)), Plain(Pop(EBP)), Plain(Ret);
    assert Epilog() == [i0] + [i1, i2];
    Advance(img, rt, tg, c0, c, [i0] + [i1, i2], i0, [i1, i2]);
    assert [i1, i2] == [i1] + [i2];
    var c1 := c.(pc := c.pc + Len(i0), stack := c.stack[..c.ebp + 1]);
    Advance(img, rt, tg, c0, c1, [i1] + [i2], i1, [i2]);
    var c2 := DropCells(c1, 1).(pc := c1.pc + Len(i1), ebp := fr);
    Advance(img, rt, tg, c0, c2, [i2], i2, []);
    c' := DropCells(c2, 1).(pc := c2.pc + Len(i2));
  }

  // ----- the whole program -----

  /** The program is small enough for 29-bit operands. */
  predicate Bounded(rt: Runtime, x: Form, check: bool) {
    4 * Slots(x) <= REACH && 4 * Size(Gen(rt, x, ToEax, Start(check))) <= REACH
  }

  /** The bytes of the program decode to its code at every instruction. */
  lemma ProgramHolds(rt: Runtime, x: Form, check: bool)
    requires rt.Linked() && Bounded(rt, x, check) && Count(x, ToEax, StackGo) == 0
    ensures var p := ExpressionCode(rt, x, check);
            CodeAt(ByteImage(BytesOf(p)), 0, p, map[])
  {
    hide Gen, Size, Slots, AllFit, CodeAt, ByteImage, BytesOf, rt.Linked, ExpressionCode, Count, Accepts, Prolog, Epilog, Encode, Fits;
    var p := ExpressionCode(rt, x, check);
    FitProgram(rt, x, check);
    ImageHolds(rt, [], p);
    SizeNothing();
    assert [] + p == p;
  }

  lemma FitProgram(rt: Runtime, x: Form, check: bool)
    requires rt.Linked() && Bounded(rt, x, check) && Count(x, ToEax, StackGo) == 0
    ensures AllFit(rt, ExpressionCode(rt, x, check), [])
  {
    hide Gen, Size, Slots, AllFit, rt.Linked, Prolog, Epilog, Count;
    var p, g := Prolog(4 * Slots(x)), Gen(rt, x, ToEax, Start(check));
    FitForm(rt, x, ToEax, Start(check));
    FitFrame(rt, 4 * Slots(x));
    AllFitConcat(rt, p, g, []);
    AllFitConcat(rt, p + g, Epilog(), []);
  }

  lemma FitFrame(rt: Runtime, envSize: nat)
    requires envSize <= REACH
    ensures AllFit(rt, Prolog(envSize), []) && AllFit(rt, Epilog(), [])
  {
    hide Fits, FillCode;
    FitFill(rt, envSize);
    FitEnds(rt);
    AllFitConcat(rt, [Plain(Push(EBP)), Plain(Mov(EBP, ESP)), Plain(Push(EDI))], FillCode(envSize), []);
  }

  lemma FitEnds(rt: Runtime)
    ensures AllFit(rt, [Plain(Push(EBP)), Plain(Mov(EBP, ESP)), Plain(Push(EDI))], []) && AllFit(rt, Epilog(), [])
  {
  }

  lemma FitFill(rt: Runtime, envSize: nat)
    requires envSize <= REACH
    ensures AllFit(rt, FillCode(envSize), [])
  {
    hide Fits;
    FitLoop(rt);
    FitsShort(rt, [], EDX, if envSize >= 64 then envSize / 4 else 0);
    FitsShort(rt, [], EAX, 0);
    FitRepeat(rt, (envSize + 3) / 4);
    if envSize >= 64 {
      AllFitConcat(rt, [Plain(MovImm(EDX, envSize / 4))], PushLoop(), []);
      AllFitConcat(rt, [LoadNil()], [Plain(MovImm(EDX, envSize / 4))] + PushLoop(), []);
    } else {
      AllFitConcat(rt, [LoadNil()], Repeat(Plain(Push(EAX)), (envSize + 3) / 4), []);
    }
  }

  lemma FitLoop(rt: Runtime)
    ensures AllFit(rt, PushLoop(), [])
  {
  }

  lemma {:induction false} FitRepeat(rt: Runtime, n: nat)
    ensures AllFit(rt, Repeat(Plain(Push(EAX)), n), [])
  {
    if n > 0 {
      FitRepeat(rt, n - 1);
    }
  }

  /** What the caller of a compiled expression sees, for each outcome of the evaluator. */
  ghost predicate Behaves(img: Image, rt: Runtime, c: Cpu, out: Outcome, fuel: nat, exact: bool)
    requires |c.stack| > 0
  {
    match out
    case Val(w, st) =>
      exists c' :: Reach(img, rt, Running(c), Halted(c'), 0) && Returned(rt, c, w, st, c', exact)
    case Signal(st) =>
      exists h :: Reach(img, rt, Running(c), Raised(h), 0) && HeapMatch(rt, st.globals, h)
    case Diverge =>
      exists c' :: Reach(img, rt, Running(c), Running(c'), fuel)
    case _ => false
  }

  /** The caller's stack, without the return address, and its EBP are back; EAX holds the value. */
  ghost predicate Returned(rt: Runtime, c: Cpu, w: Word, st: State, c': Cpu, exact: bool)
    requires |c.stack| > 0
  {
    && c'.eax == w && (exact ==> c'.ecx == 1)
    && c'.stack == c.stack[..|c.stack| - 1] && c'.ebp == c.ebp
    && HeapMatch(rt, st.globals, c'.heap)
  }

  /** The state after the prolog represents the evaluator's initial state. */
  lemma Entered(rt: Runtime, x: Form, check: bool, globals: map<Name, Word>, c: Cpu, c1: Cpu)
    requires HeapMatch(rt, globals, c.heap)
    requires c1.stack == c.stack + [Link(c.ebp), W(c.edi)] + Nils(rt, Slots(x)) && c1.ebp == |c.stack| && c1.heap == c.heap
    ensures Related(rt, Frame(|c.stack|, Slots(x)), Start(check), State([], globals), c1)
  {
    hide Slots, HeapMatch;
  }

  /** The frame's link and everything under it are untouched when the form's code ends. */
  lemma FrameKept(rt: Runtime, fr: Frame, check: bool, end: int, w: Word, st: State, c: Cpu, c1: Cpu, c2: Cpu, exact: bool)
    requires fr.ebp == |c.stack| && |c1.stack| == fr.Base() && c1.stack[..|c.stack|] == c.stack && c1.stack[|c.stack|] == Link(c.ebp)
    requires Finished(rt, fr, Start(check), ToEax, end, w, st, c1, c2, exact)
    ensures c2.ebp == |c.stack| < |c2.stack| && c2.stack[c2.ebp] == Link(c.ebp) && c2.stack[..c2.ebp] == c.stack
    ensures HeapMatch(rt, st.globals, c2.heap) && c2.eax == w && (exact ==> c2.ecx == 1) && c2.pc == end
  {
    hide HeapMatch;
    assert forall i :: 0 <= i <= |c.stack| ==> Protected(fr, Start(check), i);
    assert forall i :: 0 <= i < |c.stack| ==> c1.stack[i] == c1.stack[..|c.stack|][i];
  }

  lemma ProgramParts(rt: Runtime, x: Form, check: bool, img: Image)
    requires Slots(x) < 0x1_0000_0000 && CodeAt(img, 0, ExpressionCode(rt, x, check), map[])
    ensures var n, g := Size(Prolog(4 * Slots(x))), Gen(rt, x, ToEax, Start(check));
            CodeAt(img, 0, Prolog(4 * Slots(x)), map[]) && CodeAt(img, n, g, map[]) && CodeAt(img, n + Size(g), Epilog(), map[])
  {
    hide CodeAt, Size, Gen, Slots, Prolog, Epilog;
    var p, g := Prolog(4 * Slots(x)), Gen(rt, x, ToEax, Start(check));
    assert ExpressionCode(rt, x, check) == p + (g + Epilog());
    Split(img, 0, p, g + Epilog(), map[]);
    Split(img, Size(p), g, Epilog(), map[]);
  }

  /**
   The bytes the compiler emits for an expression do what the evaluator does: called from any state
   whose binding cells hold the globals, they return its value with the stack and EBP restored,
   signal what it signals, and run on while it does.
   */
  lemma ProgramCorrect(rt: Runtime, x: Form, check: bool, globals: map<Name, Word>, c: Cpu, fuel: nat, exact: bool)
    requires rt.Linked() && Bounded(rt, x, check)
    requires Accepts(rt, x, ToEax, Start(check)) && CleanForm(x, ToEax, [], exact)
    requires c.pc == 0 && |c.stack| > 0 && HeapMatch(rt, globals, c.heap)
    ensures Behaves(ByteImage(BytesOf(ExpressionCode(rt, x, check))), rt, c, Eval(rt, x, State([], globals), fuel), fuel, exact)
  {
    hide Gen, Size, Slots, CodeAt, ByteImage, BytesOf, ExpressionCode, Accepts, Eval, HeapMatch, CleanForm, Reach, Prolog, Epilog, Count, Behaves, rt.Linked;
    var img := ByteImage(BytesOf(ExpressionCode(rt, x, check)));
    CleanStart(x, exact);
    ProgramHolds(rt, x, check);
    RunProgram(rt, x, check, globals, c, img, fuel, exact);
  }

  lemma CleanStart(x: Form, exact: bool)
    requires CleanForm(x, ToEax, [], exact)
    ensures Count(x, ToEax, StackGo) == 0
  {
    hide Count;
  }

  lemma RunProgram(rt: Runtime, x: Form, check: bool, globals: map<Name, Word>, c: Cpu, img: Image, fuel: nat, exact: bool)
    requires rt.Linked() && 4 * Slots(x) <= REACH && CodeAt(img, 0, ExpressionCode(rt, x, check), map[])
    requires Accepts(rt, x, ToEax, Start(check)) && CleanForm(x, ToEax, [], exact)
    requires c.pc == 0 && |c.stack| > 0 && HeapMatch(rt, globals, c.heap)
    ensures Behaves(img, rt, c, Eval(rt, x, State([], globals), fuel), fuel, exact)
  {
    hide Gen, Size, Slots, CodeAt, ExpressionCode, Prolog, Epilog, Accepts, CleanForm, Related, Eval, Reach, HeapMatch, Simulates, rt.Linked, Behaves;
    var c1 := EnterProgram(rt, x, check, globals, c, img);
    var cx, fr := Start(check), Frame(|c.stack|, Slots(x));
    ProgramParts(rt, x, check, img);
    Sim(img, rt, fr, map[], x, ToEax, cx, State([], globals), c1, fuel, exact);
    LeaveProgram(rt, fr, check, c, c1, img, c1.pc + Size(Gen(rt, x, ToEax, cx)), Eval(rt, x, State([], globals), fuel), fuel, exact);
  }

  /** From the simulation of the form to what the caller sees. */
  lemma LeaveProgram(rt: Runtime, fr: Frame, check: bool, c: Cpu, c1: Cpu, img: Image, end: int, out: Outcome, fuel: nat, exact: bool)
    requires fr.ebp == |c.stack| && |c.stack| > 0 && |c1.stack| == fr.Base()
    requires c1.stack[..|c.stack|] == c.stack && c1.stack[|c.stack|] == Link(c.ebp)
    requires Reach(img, rt, Running(c), Running(c1), 0) && CodeAt(img, end, Epilog(), map[])
    requires Simulates(img, rt, fr, map[], Start(check), ToEax, end, c1, out, fuel, exact)
    ensures Behaves(img, rt, c, out, fuel, exact)
  {
    hide CodeAt, Epilog, Reach, HeapMatch, Finished, Exited;
    var cx := Start(check);
    match out
    case Val(w, st) =>
      var c2 :| Reach(img, rt, Running(c1), Running(c2), 0) && Finished(rt, fr, cx, ToEax, end, w, st, c1, c2, exact);
      Continue(img, rt, Running(c), Running(c1), Running(c2), 0);
      FrameKept(rt, fr, check, end, w, st, c, c1, c2, exact);
      var c3 := RunEpilog(img, rt, map[], c, c2, c.ebp);
      assert c3.stack == c.stack[..|c.stack| - 1] by { Popped(c.stack, c2.stack); }
      assert Returned(rt, c, w, st, c3, exact);
    case Signal(st) =>
      var h :| Reach(img, rt, Running(c1), Raised(h), 0) && HeapMatch(rt, st.globals, h);
      Continue(img, rt, Running(c), Running(c1), Raised(h), 0);
    case Diverge =>
      var c2 :| Reach(img, rt, Running(c1), Running(c2), fuel);
      Continue(img, rt, Running(c), Running(c1), Running(c2), fuel);
    case Return(n, w, st) => NoExit(rt, fr, cx, FindBlock(cx.recs, n));
    case Jump(tag, st) => NoExit(rt, fr, cx, FindTags(cx.recs, tag));
  }

  /** The outermost context has no block or tag to leave for. */
  lemma NoExit(rt: Runtime, fr: Frame, cx: Context, k: int)
    requires cx.recs == []
    ensures forall tg, tag, st, c, c' :: !Exited(rt, fr, cx, tg, k, tag, st, c, c')
  {
    hide HeapMatch;
  }

  lemma Popped(s: seq<Cell>, t: seq<Cell>)
    requires 0 < |s| <= |t| && t[..|s|] == s
    ensures t[..|s| - 1] == s[..|s| - 1]
  {
    assert t[..|s| - 1] == t[..|s|][..|s| - 1];
  }

  lemma EnterProgram(rt: Runtime, x: Form, check: bool, globals: map<Name, Word>, c: Cpu, img: Image) returns (c1: Cpu)
    requires rt.Linked() && 4 * Slots(x) <= REACH && CodeAt(img, 0, ExpressionCode(rt, x, check), map[])
    requires c.pc == 0 && HeapMatch(rt, globals, c.heap)
    ensures Reach(img, rt, Running(c), Running(c1), 0)
    ensures Related(rt, Frame(|c.stack|, Slots(x)), Start(check), State([], globals), c1)
    ensures c1.pc == Size(Prolog(4 * Slots(x)))
    ensures |c1.stack| == |c.stack| + 2 + Slots(x) && c1.stack[..|c.stack|] == c.stack && c1.stack[|c.stack|] == Link(c.ebp)
    ensures Slots(x) == 0 ==> c1.eax == c.eax && c1.ecx == c.ecx
  {
    hide Gen, Size, Slots, CodeAt, ExpressionCode, Prolog, Epilog, Related, Reach, HeapMatch;
    ProgramParts(rt, x, check, img);
    c1 := RunProlog(img, rt, map[], c, 4 * Slots(x));
    Entered(rt, x, check, globals, c, c1);
  }

  // ----- whole runs -----

  /** A machine that has stopped stays as it is. */
  lemma {:induction false} Stopped(img: Image, rt: Runtime, n: nat, m: Machine)
    requires !m.Running?
    ensures Run(img, rt, n, m) == m
  {
    if n > 0 {
      Stopped(img, rt, n - 1, m);
    }
  }

  /** If the machine has stopped after a steps, then after b >= a steps it is in the same state. */
  lemma StoppedLater(img: Image, rt: Runtime, a: nat, b: nat, m: Machine)
    requires !Run(img, rt, a, m).Running? && a <= b
    ensures Run(img, rt, b, m) == Run(img, rt, a, m)
  {
    RunAdd(img, rt, a, b - a, m);
    Stopped(img, rt, b - a, Run(img, rt, a, m));
  }

  /** Two ways of stopping are the same. */
  lemma StoppedOnce(img: Image, rt: Runtime, a: nat, m: Machine, m': Machine)
    requires !Run(img, rt, a, m).Running? && Reach(img, rt, m, m', 0) && !m'.Running?
    ensures m' == Run(img, rt, a, m)
  {
    var b: nat :| Run(img, rt, b, m) == m';
    if a <= b {
      StoppedLater(img, rt, a, b, m);
    } else {
      StoppedLater(img, rt, b, a, m);
    }
  }

  /** A machine that stops within n steps agrees with the evaluator given n + 1 units of fuel. */
  lemma StopsAsEvaluated(img: Image, rt: Runtime, c: Cpu, out: Outcome, n: nat, exact: bool)
    requires |c.stack| > 0 && Behaves(img, rt, c, out, n + 1, exact)
    requires !Run(img, rt, n, Running(c)).Running?
    ensures (out.Val? && Run(img, rt, n, Running(c)).Halted?) || (out.Signal? && Run(img, rt, n, Running(c)).Raised?)
  {
    hide Run, HeapMatch;
    match out
    case Val(w, st) =>
      var c' :| Reach(img, rt, Running(c), Halted(c'), 0) && Returned(rt, c, w, st, c', exact);
      StoppedOnce(img, rt, n, Running(c), Halted(c'));
    case Signal(st) =>
      var h :| Reach(img, rt, Running(c), Raised(h), 0) && HeapMatch(rt, st.globals, h);
      StoppedOnce(img, rt, n, Running(c), Raised(h));
    case Diverge =>
      var c' :| Reach(img, rt, Running(c), Running(c'), n + 1);
      var b: nat :| n + 1 <= b && Run(img, rt, b, Running(c)) == Running(c');
      StoppedLater(img, rt, n, b, Running(c));
      assert false;
    case _ => assert false;
  }

  /** Some number of steps brings the machine to a state of the wanted kind. */
  ghost predicate Halts(img: Image, rt: Runtime, m: Machine) {
    exists n: nat :: Run(img, rt, n, m).Halted?
  }

  ghost predicate Raises(img: Image, rt: Runtime, m: Machine) {
    exists n: nat :: Run(img, rt, n, m).Raised?
  }

  ghost predicate HasValue(rt: Runtime, x: Form, st: State) {
    exists fuel: nat :: Eval(rt, x, st, fuel).Val?
  }

  ghost predicate HasSignal(rt: Runtime, x: Form, st: State) {
    exists fuel: nat :: Eval(rt, x, st, fuel).Signal?
  }

  /**
   The compiled program returns exactly when evaluation terminates with a value, raises exactly when
   evaluation signals, and no run of it, however long, is ever without a next step.
   */
  lemma ProgramTerminates(rt: Runtime, x: Form, check: bool, globals: map<Name, Word>, c: Cpu)
    requires rt.Linked() && Bounded(rt, x, check)
    requires Accepts(rt, x, ToEax, Start(check)) && CleanForm(x, ToEax, [], false)
    requires c.pc == 0 && |c.stack| > 0 && HeapMatch(rt, globals, c.heap)
    ensures var img, st := ByteImage(BytesOf(ExpressionCode(rt, x, check))), State([], globals);
            && (Halts(img, rt, Running(c)) <==> HasValue(rt, x, st))
            && (Raises(img, rt, Running(c)) <==> HasSignal(rt, x, st))
            && forall n: nat :: !Run(img, rt, n, Running(c)).Stuck?
  {
    hide Gen, Size, Slots, ByteImage, BytesOf, ExpressionCode, Accepts, Eval, HeapMatch, CleanForm, Run, Step, rt.Linked,
         Behaves, Halts, Raises, HasValue, HasSignal;
    var img, st := ByteImage(BytesOf(ExpressionCode(rt, x, check))), State([], globals);
    forall fuel: nat
      ensures Behaves(img, rt, c, Eval(rt, x, st, fuel), fuel, false)
    {
      ProgramCorrect(rt, x, check, globals, c, fuel, false);
    }
    RunsAsEvaluated(img, rt, x, st, c);
  }

  lemma RunsAsEvaluated(img: Image, rt: Runtime, x: Form, st: State, c: Cpu)
    requires |c.stack| > 0 && forall fuel: nat :: Behaves(img, rt, c, Eval(rt, x, st, fuel), fuel, false)
    ensures Halts(img, rt, Running(c)) <==> HasValue(rt, x, st)
    ensures Raises(img, rt, Running(c)) <==> HasSignal(rt, x, st)
    ensures forall n: nat :: !Run(img, rt, n, Running(c)).Stuck?
  {
    hide Eval, HeapMatch, Run, Step, Behaves, Returned;
    forall n: nat | !Run(img, rt, n, Running(c)).Running?
      ensures (Eval(rt, x, st, n + 1).Val? && Run(img, rt, n, Running(c)).Halted?)
              || (Eval(rt, x, st, n + 1).Signal? && Run(img, rt, n, Running(c)).Raised?)
    {
      StopsAsEvaluated(img, rt, c, Eval(rt, x, st, n + 1), n, false);
    }
    if HasValue(rt, x, st) {
      var fuel: nat :| Eval(rt, x, st, fuel).Val?;
      ValueHalts(img, rt, c, Eval(rt, x, st, fuel), fuel);
    }
    if HasSignal(rt, x, st) {
      var fuel: nat :| Eval(rt, x, st, fuel).Signal?;
      ValueHalts(img, rt, c, Eval(rt, x, st, fuel), fuel);
    }
  }

  lemma ValueHalts(img: Image, rt: Runtime, c: Cpu, out: Outcome, fuel: nat)
    requires |c.stack| > 0 && Behaves(img, rt, c, out, fuel, false)
    ensures out.Val? ==> Halts(img, rt, Running(c))
    ensures out.Signal? ==> Raises(img, rt, Running(c))
  {
    hide HeapMatch, Run;
  }
}
