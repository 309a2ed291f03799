/**
 ESP at every step.  However long a compiled program runs, and whether or not it ever returns, each
 of its steps begins at an instruction of the program, and in the code of the form ESP is where the
 sum of the stack effects up to that instruction says.
 */
module StackRuns {
  import opened Options
  import opened Words
  import opened X86
  import opened Runtime
  import opened Machine
  import opened Lisp
  import opened CodeGen
  import opened Relation
  import opened Steps
  import opened Encoding
  import opened Fitting
  import opened Program
  import opened Stages
  import opened StackIndex
  import opened Depths
  import opened BranchTargets
  import opened StackDiscipline

  // ----- one instruction -----

  /** A kernel routine leaves the stack, and comes back behind its call. */
  lemma CallKeeps(rt: Runtime, disp: int, c: Cpu)
    ensures var m := ExecCall(rt, disp, c); m.Running? ==> m.cpu.stack == c.stack && m.cpu.pc == c.pc
  {
  }

  /** So does what loads a register or stores. */
  lemma LoadKeeps(r: Reg, w: Word, base: Reg, disp: int, c: Cpu)
    ensures var m := SetReg(r, w, c); m.Running? ==> m.cpu.stack == c.stack && m.cpu.pc == c.pc
    ensures var m := ExecStore(base, disp, c); m.Running? ==> |m.cpu.stack| == |c.stack| && m.cpu.pc == c.pc
  {
  }

  lemma PopMoves(r: Reg, c: Cpu)
    ensures var m := ExecPop(r, c); m.Running? ==> |m.cpu.stack| + 1 == |c.stack| && m.cpu.pc == c.pc
  {
  }

  /** The machine goes on behind the instruction, which has moved ESP by d bytes. */
  ghost predicate GoesOn(c: Cpu, m: Machine, d: int) {
    m.Running? ==> m.cpu.pc == c.pc && 4 * |m.cpu.stack| == 4 * |c.stack| + d
  }

  lemma PushMoves(rt: Runtime, i: Instr, c: Cpu)
    requires i.Push? || i.PushMem? || i.PushImm? || i.Pop? || i.AddEsp?
    ensures GoesOn(c, Exec(rt, i, c), StackEffect(i))
  {
    hide SetReg;
    if i.Pop? {
      PopMoves(i.r, c);
    }
  }

  lemma ArithMoves(rt: Runtime, i: Instr, c: Cpu)
    requires i.AddEaxEdx? || i.SubEaxEdx? || i.CmpEaxEdx? || i.CmpMem? || i.CmpImm? || i.TestAl? || i.TestDl? || i.DecEdx?
    ensures GoesOn(c, Exec(rt, i, c), StackEffect(i))
  {
    hide Wrap32, Signed;
  }

  lemma DataMoves(rt: Runtime, i: Instr, c: Cpu)
    requires i.Mov? || i.XorSelf? || i.MovImm? || i.Load? || i.Store? || i.Call?
    requires i != Mov(ESP, EBP)
    ensures GoesOn(c, Exec(rt, i, c), StackEffect(i))
  {
    hide ExecCall, SetReg, ExecStore, LoadSource;
    match i
    case XorSelf(r) => LoadKeeps(r, 0, EAX, 0, c.(zf := true, sf := false, of := false));
    case MovImm(r, w) => LoadKeeps(r, w, EAX, 0, c);
    case Load(dst, base, disp) =>
      if LoadSource(rt, base, disp, c).Some? {
        LoadKeeps(dst, LoadSource(rt, base, disp, c).value, base, disp, c);
      }
    case Store(base, disp) => LoadKeeps(EAX, 0, base, disp, c);
    case Call(disp) => CallKeeps(rt, disp, c);
    case _ =>
  }

  /** What an instruction does to control and to ESP. */
  ghost predicate Moved(it: Item, c: Cpu, m: Machine)
    requires it.I?
  {
    m.Running? ==>
      && ((m.cpu.pc == c.pc && !it.ins.Jmp32?) || (Branch(it).Some? && m.cpu.pc == c.pc + Branch(it).value))
      && (it.ins != Mov(ESP, EBP) ==> 4 * |m.cpu.stack| == 4 * |c.stack| + StackEffect(it.ins))
  }

  /**
   An instruction goes on behind itself or, if it branches, to its target, a jump always to its
   target; and it moves ESP by its stack effect.
   */
  lemma ExecMoves(rt: Runtime, it: Item, c: Cpu)
    requires it.I?
    ensures Moved(it, c, Exec(rt, it.ins, c))
  {
    hide ExecCall, SetReg, ExecStore, LoadSource, ExecPop, ExecPush, ExecPushMem, AddFlags, SubFlags, Wrap32, Signed, Holds;
    var i := it.ins;
    if i.Push? || i.PushMem? || i.PushImm? || i.Pop? || i.AddEsp? {
      PushMoves(rt, i, c);
    } else if i.AddEaxEdx? || i.SubEaxEdx? || i.CmpEaxEdx? || i.CmpMem? || i.CmpImm? || i.TestAl? || i.TestDl? || i.DecEdx? {
      ArithMoves(rt, i, c);
    } else if (i.Mov? && i != Mov(ESP, EBP)) || i.XorSelf? || i.MovImm? || i.Load? || i.Store? || i.Call? {
      DataMoves(rt, i, c);
    }
  }

  // ----- in the code of the form -----

  /** Control is at item j, and ESP is as far above base as the index says. */
  ghost predicate InForm(c: Cpu, pc: int, g: Code, base: int, j: nat) {
    j <= |g| && c.pc == pc + Size(g[..j]) && 4 * |c.stack| == base + Depth(g, j)
  }

  lemma FormStep(img: Image, rt: Runtime, pc: int, g: Code, c: Cpu, base: int, j: nat) returns (j': nat)
    requires Even(g) && CodeAt(img, pc, g, map[]) && InForm(c, pc, g, base, j) && j < |g|
    requires Step(img, rt, Running(c)).Running?
    ensures InForm(Step(img, rt, Running(c)).cpu, pc, g, base, j')
  {
    hide Exec, Size, Depth, Even, CodeAt, Len, StackEffect, Branch, Drops, Jumps, Tidy;
    FoundAt(img, pc, g, j);
    var it := g[j];
    var c1 := c.(pc := c.pc + Len(it));
    SizeSnoc(g, j);
    EvenTidy(g);
    NotLoaded(g, j);
    ExecMoves(rt, it, c1);
    var c2 := Exec(rt, it.ins, c1).cpu;
    if Branch(it).Some? && c2.pc == c1.pc + Branch(it).value {
      BranchStill(it);
      EvenAt(g, j);
      j' :| BeginsAt(g, j', Size(g[..j + 1]) + Branch(it).value) && Depth(g, j') == Depth(g, j);
    } else {
      AfterAdjustment(g, j);
      DepthStep(g, j);
      j' := j + 1;
    }
  }

  lemma BranchStill(it: Item)
    requires it.I? && Branch(it).Some?
    ensures StackEffect(it.ins) == 0 && it.ins != Mov(ESP, EBP)
  {
  }

  lemma NotLoaded(g: Code, j: nat)
    requires Tidy(g) && j < |g| && g[j].I?
    ensures g[j].ins != Mov(ESP, EBP)
  {
    hide Drops, Jumps;
    assert TidyAt(g, j);
  }

  /** What follows an adjustment is a jump, which does not go on behind itself. */
  lemma AfterAdjustment(g: Code, j: nat)
    requires Tidy(g) && j < |g| && g[j].I?
    ensures j > 0 && Drops(g[j - 1]) ==> g[j].ins.Jmp32?
  {
    if j > 0 {
      assert TidyAt(g, j - 1);
    }
  }

  // ----- leaving -----

  /** Control is at item i of the epilog behind code g, past the epilog's beginning. */
  ghost predicate InEpilog(c: Cpu, pc: int, g: Code, i: nat) {
    0 < i < 3 && c.pc == pc + Size(g) + Size(Epilog()[..i])
  }

  lemma EpilogStep(img: Image, rt: Runtime, pc: int, g: Code, c: Cpu, i: nat)
    requires CodeAt(img, pc + Size(g), Epilog(), map[]) && i < 3 && c.pc == pc + Size(g) + Size(Epilog()[..i])
    requires Step(img, rt, Running(c)).Running?
    ensures InEpilog(Step(img, rt, Running(c)).cpu, pc, g, i + 1)
  {
    hide Size, CodeAt, Len;
    FoundAt(img, pc + Size(g), Epilog(), i);
    SizeSnoc(Epilog(), i);
  }

  /** At its beginning. */
  lemma FirstStep(img: Image, rt: Runtime, pc: int, g: Code, c: Cpu)
    requires CodeAt(img, pc + Size(g), Epilog(), map[]) && c.pc == pc + Size(g)
    requires Step(img, rt, Running(c)).Running?
    ensures InEpilog(Step(img, rt, Running(c)).cpu, pc, g, 1)
  {
    hide Size, CodeAt, Step, Epilog;
    assert Epilog()[..0] == [];
    NothingSize();
    EpilogStep(img, rt, pc, g, c, 0);
  }

  /** In the form's code with ESP where it belongs, or already leaving. */
  ghost predicate Tracked(c: Cpu, pc: int, g: Code, base: int) {
    || (exists j: nat :: InForm(c, pc, g, base, j))
    || (exists i: nat :: InEpilog(c, pc, g, i))
  }

  lemma TrackedStep(img: Image, rt: Runtime, pc: int, g: Code, c: Cpu, base: int)
    requires Even(g) && CodeAt(img, pc, g, map[]) && CodeAt(img, pc + Size(g), Epilog(), map[])
    requires Tracked(c, pc, g, base) && Step(img, rt, Running(c)).Running?
    ensures Tracked(Step(img, rt, Running(c)).cpu, pc, g, base)
  {
    hide Size, CodeAt, Even, Step, Depth, Epilog;
    if j: nat :| InForm(c, pc, g, base, j) {
      if j < |g| {
        var j' := FormStep(img, rt, pc, g, c, base, j);
      } else {
        assert g[..j] == g;
        FirstStep(img, rt, pc, g, c);
      }
    } else {
      var i: nat :| InEpilog(c, pc, g, i);
      EpilogStep(img, rt, pc, g, c, i);
    }
  }

  lemma {:induction false} TrackedRun(img: Image, rt: Runtime, pc: int, g: Code, c: Cpu, base: int, n: nat, c': Cpu)
    requires Even(g) && CodeAt(img, pc, g, map[]) && CodeAt(img, pc + Size(g), Epilog(), map[])
    requires Tracked(c, pc, g, base) && Run(img, rt, n, Running(c)) == Running(c')
    ensures Tracked(c', pc, g, base)
    decreases n
  {
    hide Size, CodeAt, Even, Step, Tracked, Epilog;
    if n > 0 {
      var m := Step(img, rt, Running(c));
      if !m.Running? {
        Stopped(img, rt, n - 1, m);
        assert false;
      }
      TrackedStep(img, rt, pc, g, c, base);
      TrackedRun(img, rt, pc, g, m.cpu, base, n - 1, c');
    }
  }

  // ----- offsets -----

  lemma {:induction false} SizeGrows(c: Code, i: nat, j: nat)
    requires i <= j <= |c|
    ensures Size(c[..i]) + (j - i) <= Size(c[..j])
    decreases j - i
  {
    hide Size;
    if i < j {
      SizeSnoc(c, j - 1);
      SizeGrows(c, i, j - 1);
    }
  }

  /** Tracked at an item of the form's code: its depth is that item's. */
  lemma TrackedAt(c: Cpu, pc: int, g: Code, base: int, j: nat)
    requires Tracked(c, pc, g, base) && j <= |g| && c.pc == pc + Size(g[..j])
    ensures 4 * |c.stack| == base + Depth(g, j)
  {
    hide Size, Depth, Epilog;
    if i: nat :| InForm(c, pc, g, base, i) {
      if i < j {
        SizeGrows(g, i, j);
      } else {
        SizeGrows(g, j, i);
      }
    } else {
      var i: nat :| InEpilog(c, pc, g, i);
      EpilogLength();
      SizeGrows(Epilog(), 0, i);
      NothingSize();
      assert Epilog()[..0] == [] && g[..|g|] == g;
      SizeGrows(g, j, |g|);
    }
  }

  lemma EpilogLength()
    ensures |Epilog()| == 3
  {
  }

  // ----- the prolog -----

  /** From item to item of code in which every branch lands. */
  lemma CodeStep(img: Image, rt: Runtime, p: Code, c: Cpu, j: nat) returns (j': nat)
    requires Lands(p) && CodeAt(img, 0, p, map[]) && j < |p| && c.pc == Size(p[..j])
    requires Step(img, rt, Running(c)).Running?
    ensures j' <= |p| && Step(img, rt, Running(c)).cpu.pc == Size(p[..j'])
  {
    hide Exec, Size, CodeAt, Lands, Len, Branch;
    FoundAt(img, 0, p, j);
    var it := p[j];
    var c1 := c.(pc := c.pc + Len(it));
    SizeSnoc(p, j);
    ExecMoves(rt, it, c1);
    if Branch(it).Some? && Exec(rt, it.ins, c1).cpu.pc == c1.pc + Branch(it).value {
      LandsAt(p, j);
      j' :| BeginsAt(p, j', Size(p[..j + 1]) + Branch(it).value);
    } else {
      j' := j + 1;
    }
  }

  /** A run past the prolog has come through its end. */
  lemma {:induction false} Entry(img: Image, rt: Runtime, p: Code, c: Cpu, j: nat, n: nat, c': Cpu) returns (m: nat, c1: Cpu)
    requires Lands(p) && CodeAt(img, 0, p, map[]) && j <= |p| && c.pc == Size(p[..j])
    requires Run(img, rt, n, Running(c)) == Running(c') && c'.pc >= Size(p)
    ensures m <= n && Run(img, rt, m, Running(c)) == Running(c1) && c1.pc == Size(p)
    decreases n
  {
    hide Size, CodeAt, Lands, Step;
    assert p[..|p|] == p;
    if j == |p| {
      m, c1 := 0, c;
    } else {
      SizeGrows(p, j, |p|);
      var next := Step(img, rt, Running(c));
      if !next.Running? {
        Stopped(img, rt, n - 1, next);
        assert false;
      }
      var j' := CodeStep(img, rt, p, c, j);
      m, c1 := Entry(img, rt, p, next.cpu, j', n - 1, c');
      m := m + 1;
    }
  }

  /** In a run past the prolog, ESP is where the index says if it is so at one point at which the form's code begins. */
  lemma SameBase(img: Image, rt: Runtime, pc: int, g: Code, c: Cpu, a: nat, ca: Cpu, b: nat, cb: Cpu)
    requires Even(g) && CodeAt(img, pc, g, map[]) && CodeAt(img, pc + Size(g), Epilog(), map[])
    requires Run(img, rt, a, Running(c)) == Running(ca) && Run(img, rt, b, Running(c)) == Running(cb) && a <= b
    requires ca.pc == pc && cb.pc == pc
    ensures |ca.stack| == |cb.stack|
  {
    hide Size, CodeAt, Even, Run, Tracked, Depth, Epilog;
    RunAdd(img, rt, a, b - a, Running(c));
    Starts(ca, pc, g);
    TrackedRun(img, rt, pc, g, ca, 4 * |ca.stack|, b - a, cb);
    NothingSize();
    assert g[..0] == [];
    TrackedAt(cb, pc, g, 4 * |ca.stack|, 0);
    FirstDepth(g);
  }

  lemma FirstDepth(g: Code)
    ensures Depth(g, 0) == 0
  {
    assert g[..0] == [];
  }

  /** At the beginning of the form's code nothing has been pushed yet. */
  lemma Starts(c: Cpu, pc: int, g: Code)
    requires c.pc == pc
    ensures Tracked(c, pc, g, 4 * |c.stack|)
  {
    hide Size, Depth, Epilog;
    FirstDepth(g);
    NothingSize();
    assert g[..0] == [];
    assert InForm(c, pc, g, 4 * |c.stack|, 0);
  }

  // ----- whole programs -----

  /** The frame the prolog makes: return address, EBP, EDI and the slots lie under the form's operands. */
  lemma ProgramTracked(rt: Runtime, x: Form, check: bool, c: Cpu, img: Image, n: nat, c': Cpu)
    requires 4 * Slots(x) <= REACH && c.pc == 0 && rt.qv(0) == Some(rt.nilWord)
    requires CodeAt(img, 0, ExpressionCode(rt, x, check), map[]) && Even(Gen(rt, x, ToEax, Start(check)))
    requires Run(img, rt, n, Running(c)) == Running(c') && c'.pc >= Size(Prolog(4 * Slots(x)))
    ensures Tracked(c', Size(Prolog(4 * Slots(x))), Gen(rt, x, ToEax, Start(check)), 4 * Frame(|c.stack|, Slots(x)).Base())
  {
    hide Size, CodeAt, Even, Run, Tracked, Depth, Epilog, Gen, Prolog, Slots, ExpressionCode, Accepts, Count, Lands, rt.Linked, Steady;
    var p, g := Prolog(4 * Slots(x)), Gen(rt, x, ToEax, Start(check));
    ProgramParts(rt, x, check, img);
    LandsProlog(4 * Slots(x));
    NothingSize();
    assert p[..0] == [];
    var m, c1 := Entry(img, rt, p, c, 0, n, c');
    var n2, c2 := Entered(rt, img, x, c);
    if m <= n2 {
      SameBase(img, rt, Size(p), g, c, m, c1, n2, c2);
    } else {
      SameBase(img, rt, Size(p), g, c, n2, c2, m, c1);
    }
    Starts(c1, Size(p), g);
    RunAdd(img, rt, m, n - m, Running(c));
    TrackedRun(img, rt, Size(p), g, c1, 4 * |c1.stack|, n - m, c');
  }

  /** The prolog comes to its end with the frame made. */
  lemma Entered(rt: Runtime, img: Image, x: Form, c: Cpu) returns (n: nat, c': Cpu)
    requires 4 * Slots(x) <= REACH && c.pc == 0 && rt.qv(0) == Some(rt.nilWord) && CodeAt(img, 0, Prolog(4 * Slots(x)), map[])
    ensures Run(img, rt, n, Running(c)) == Running(c') && c'.pc == Size(Prolog(4 * Slots(x))) && |c'.stack| == Frame(|c.stack|, Slots(x)).Base()
  {
    hide Size, CodeAt, Run, Prolog, Slots;
    c' := RunProlog(img, rt, map[], c, 4 * Slots(x));
    n :| Run(img, rt, n, Running(c)) == Running(c');
  }

  /** c' is a state of the run of the compiled program from c: after some number of steps, whatever comes later. */
  ghost predicate Visits(rt: Runtime, x: Form, check: bool, c: Cpu, c': Cpu)
    requires Slots(x) < 0x1_0000_0000
  {
    exists n: nat :: Run(ByteImage(BytesOf(ExpressionCode(rt, x, check))), rt, n, Running(c)) == Running(c')
  }

  /** Item j of the form's code g begins there, behind a prolog for envSize bytes. */
  predicate AtItem(g: Code, envSize: nat, pc: int, j: nat)
    requires envSize / 4 < 0x1_0000_0000
  {
    j <= |g| && pc == Size(Prolog(envSize)) + Size(g[..j])
  }

  /** ESP is above the frame by the depth of item j. */
  ghost predicate EspIs(fr: Frame, g: Code, c: Cpu, j: nat) {
    j <= |g| && 4 * |c.stack| == 4 * fr.Base() + Depth(g, j)
  }

  /**
   Whenever a run of a compiled program, ended or endless, is at an item of its form's code, ESP is
   above the frame by that item's depth.
   */
  lemma EspAtEveryStep(rt: Runtime, x: Form, check: bool, c: Cpu, c': Cpu, j: nat)
    requires 4 * Slots(x) <= REACH && Visits(rt, x, check, c, c') && AtItem(Gen(rt, x, ToEax, Start(check)), 4 * Slots(x), c'.pc, j)
    requires rt.Linked() && Bounded(rt, x, check) && Compilable(rt, x, check) && c.pc == 0
    ensures EspIs(Frame(|c.stack|, Slots(x)), Gen(rt, x, ToEax, Start(check)), c', j)
  {
    hide Size, CodeAt, Run, Tracked, Depth, Gen, Prolog, Slots, ExpressionCode, Accepts, Count, rt.Linked, ByteImage, BytesOf, Steady;
    var img := ByteImage(BytesOf(ExpressionCode(rt, x, check)));
    var n: nat :| Run(img, rt, n, Running(c)) == Running(c');
    ProgramHolds(rt, x, check);
    SizeNatural(Gen(rt, x, ToEax, Start(check))[..j]);
    SteadyForm(rt, x, ToEax, Start(check));
    SteadyEven([], 0, Gen(rt, x, ToEax, Start(check)));
    FirstEntry(rt);
    ProgramTracked(rt, x, check, c, img, n, c');
    TrackedAt(c', Size(Prolog(4 * Slots(x))), Gen(rt, x, ToEax, Start(check)), 4 * Frame(|c.stack|, Slots(x)).Base(), j);
  }

  lemma FirstEntry(rt: Runtime)
    requires rt.Linked()
    ensures rt.qv(0) == Some(rt.nilWord)
  {
  }

  lemma SizeNatural(c: Code)
    ensures Size(c) >= 0
  {
  }

  /** In the prolog or the form's code a, or in the epilog behind it. */
  ghost predicate Inside(c: Cpu, a: Code) {
    || (exists j: nat :: BeginsAt(a, j, c.pc))
    || (exists i: nat :: InEpilog(c, 0, a, i))
  }

  lemma InsideStep(img: Image, rt: Runtime, a: Code, c: Cpu)
    requires Lands(a) && CodeAt(img, 0, a, map[]) && CodeAt(img, Size(a), Epilog(), map[]) && Inside(c, a)
    requires Step(img, rt, Running(c)).Running?
    ensures Inside(Step(img, rt, Running(c)).cpu, a)
  {
    hide Size, CodeAt, Lands, Step, Epilog;
    if j: nat :| BeginsAt(a, j, c.pc) {
      if j < |a| {
        var j' := CodeStep(img, rt, a, c, j);
        assert BeginsAt(a, j', Step(img, rt, Running(c)).cpu.pc);
      } else {
        assert a[..j] == a;
        FirstStep(img, rt, 0, a, c);
      }
    } else {
      var i: nat :| InEpilog(c, 0, a, i);
      EpilogStep(img, rt, 0, a, c, i);
    }
  }

  lemma {:induction false} InsideRun(img: Image, rt: Runtime, a: Code, c: Cpu, n: nat, c': Cpu)
    requires Lands(a) && CodeAt(img, 0, a, map[]) && CodeAt(img, Size(a), Epilog(), map[]) && Inside(c, a)
    requires Run(img, rt, n, Running(c)) == Running(c')
    ensures Inside(c', a)
    decreases n
  {
    hide Size, CodeAt, Lands, Step, Inside, Epilog;
    if n > 0 {
      var m := Step(img, rt, Running(c));
      if !m.Running? {
        Stopped(img, rt, n - 1, m);
        assert false;
      }
      InsideStep(img, rt, a, c);
      InsideRun(img, rt, a, m.cpu, n - 1, c');
    }
  }

  /** Every state of every run stands at an instruction of the program. */
  lemma ControlStays(rt: Runtime, x: Form, check: bool, c: Cpu, c': Cpu)
    requires 4 * Slots(x) <= REACH && Visits(rt, x, check, c, c')
    requires rt.Linked() && Bounded(rt, x, check) && Compilable(rt, x, check) && c.pc == 0
    ensures AnInstruction(ByteImage(BytesOf(ExpressionCode(rt, x, check))), ExpressionCode(rt, x, check), c'.pc)
  {
    hide Size, CodeAt, Run, Gen, Prolog, Epilog, Slots, Accepts, Count, rt.Linked, ByteImage, BytesOf, Lands, Inside, AnInstruction;
    var img := ByteImage(BytesOf(ExpressionCode(rt, x, check)));
    var n: nat :| Run(img, rt, n, Running(c)) == Running(c');
    var p, g := Prolog(4 * Slots(x)), Gen(rt, x, ToEax, Start(check));
    ProgramHolds(rt, x, check);
    CodeAtConcat(img, 0, p + g, Epilog(), map[]);
    LandsProlog(4 * Slots(x));
    LandsForm(rt, x, ToEax, Start(check));
    LandsConcat(p, g);
    Beginning(c, p + g);
    InsideRun(img, rt, p + g, c, n, c');
    InsideFound(img, p + g, c');
  }

  lemma Beginning(c: Cpu, a: Code)
    requires c.pc == 0
    ensures Inside(c, a)
  {
    hide Size, Epilog;
    NothingSize();
    assert a[..0] == [];
    assert BeginsAt(a, 0, 0);
  }

  lemma InsideFound(img: Image, a: Code, c: Cpu)
    requires CodeAt(img, 0, a + Epilog(), map[]) && Inside(c, a)
    ensures AnInstruction(img, a + Epilog(), c.pc)
  {
    hide Size, CodeAt, Epilog, Len;
    EpilogLength();
    var code := a + Epilog();
    var j: nat;
    if i: nat :| BeginsAt(a, i, c.pc) {
      j := i;
      assert code[..j] == a[..j];
    } else {
      var i: nat :| InEpilog(c, 0, a, i);
      j := |a| + i;
      assert code[..j] == a + Epilog()[..i];
      SizeConcat(a, Epilog()[..i]);
    }
    FoundAt(img, 0, code, j);
    assert InstructionAt(img, code, j, c.pc);
  }
}
