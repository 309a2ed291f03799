/**
 An abstract x86 that runs the compiler's output.  The stack is a sequence of word cells whose
 last cell is at ESP; EBP is the index of a cell, so [EBP + d] is cell ebp - d/4.
 Memory is reached by base register: EBP for the frame, ESI for the symbol tables,
 EAX and EDI (with displacement -4) for the value of a binding cell.
 */
module Machine {
  import opened Options
  import opened Words
  import opened X86
  import opened Runtime

  datatype Cell = W(w: Word) | Link(frame: int)

  /** Registers, flags, stack and binding cells; ESI never changes and ESP is the stack's length. */
  datatype Cpu = Cpu(pc: int, eax: Word, ecx: Word, edx: Word, edi: Word, ebp: int,
                     zf: bool, sf: bool, of: bool, stack: seq<Cell>, heap: map<Word, Word>)

  /** Running; returned to the caller with this state; left through a signalled condition; or without a next step. */
  datatype Machine = Running(cpu: Cpu) | Halted(final: Cpu) | Raised(heap: map<Word, Word>) | Stuck

  /** The instruction found at each address. */
  type Image = map<int, Fetched>

  function Top(c: Cpu): Cell
    requires |c.stack| > 0
  {
    c.stack[|c.stack| - 1]
  }

  function PushCell(c: Cpu, x: Cell): Cpu {
    c.(stack := c.stack + [x])
  }

  function DropCells(c: Cpu, n: nat): Cpu
    requires n <= |c.stack|
  {
    c.(stack := c.stack[..|c.stack| - n])
  }

  /** There is a cell at [EBP + disp]. */
  predicate FrameCell(c: Cpu, disp: int) {
    disp % 4 == 0 && 0 <= c.ebp - disp / 4 < |c.stack|
  }

  function AddFlags(c: Cpu, a: Word, b: Word): Cpu {
    var r := Wrap32(a + b);
    c.(eax := r, zf := r == 0, sf := Signed(r) < 0, of := Signed(r) != Signed(a) + Signed(b))
  }

  function SubFlags(c: Cpu, a: Word, b: Word): Cpu {
    var r := Wrap32(a - b);
    c.(zf := r == 0, sf := Signed(r) < 0, of := Signed(r) != Signed(a) - Signed(b))
  }

  predicate Holds(cc: Cond, c: Cpu) {
    match cc
    case NO => !c.of
    case E => c.zf
    case NE => !c.zf
    case L => c.sf != c.of
    case GE => c.sf == c.of
    case LE => c.zf || c.sf != c.of
    case G => !c.zf && c.sf == c.of
  }

  function Clobber(rt: Runtime, c: Cpu): Cpu {
    var s := rt.scratch(c.pc, c.eax, c.edx);
    c.(ecx := s.ecx, edx := s.edx, edi := s.edi, zf := s.zf, sf := s.sf, of := s.of)
  }

  function ReturnWord(rt: Runtime, c: Cpu, r: Option<Word>): Machine {
    match r
    case None => Raised(c.heap)
    case Some(w) => Running(Clobber(rt, c).(eax := w))
  }

  function ReturnTruth(rt: Runtime, c: Cpu, r: Option<bool>): Machine {
    match r
    case None => Raised(c.heap)
    case Some(b) => Running(Clobber(rt, c).(eax := rt.Truth(b)))
  }

  /** Two stacked arguments, the first one deeper, and the argument count in ECX. */
  predicate TwoArguments(c: Cpu) {
    |c.stack| >= 2 && c.stack[|c.stack| - 2].W? && Top(c).W? && c.ecx == 2
  }

  function ExecCall(rt: Runtime, disp: int, c: Cpu): Machine {
    match rt.routineAt(disp)
    case None => Stuck
    case Some(GenericPlus) => ReturnWord(rt, c, rt.plus(c.eax, c.edx))
    case Some(GenericMinus) => ReturnWord(rt, c, rt.minus(c.eax, c.edx))
    case Some(GenericEqual) =>
      if !TwoArguments(c) then Stuck
      else ReturnTruth(rt, c, rt.numEqual(c.stack[|c.stack| - 2].w, Top(c).w))
    case Some(GenericCompare(op)) =>
      if !TwoArguments(c) then Stuck
      else ReturnTruth(rt, c, rt.compare(op, c.stack[|c.stack| - 2].w, Top(c).w))
    case Some(UnboundVariable) => Raised(c.heap)
  }

  function LoadSource(rt: Runtime, base: Reg, disp: int, c: Cpu): Option<Word> {
    if base == ESI then rt.qv(disp)
    else if base == EBP && FrameCell(c, disp) then
      (match c.stack[c.ebp - disp / 4] case W(w) => Some(w) case Link(_) => None)
    else if base == EAX && disp == -4 && c.eax in c.heap then Some(c.heap[c.eax])
    else None
  }

  function SetReg(r: Reg, w: Word, c: Cpu): Machine {
    match r
    case EAX => Running(c.(eax := w))
    case ECX => Running(c.(ecx := w))
    case EDX => Running(c.(edx := w))
    case EDI => Running(c.(edi := w))
    case _ => Stuck
  }

  function ExecStore(base: Reg, disp: int, c: Cpu): Machine {
    if base == EBP && FrameCell(c, disp) then
      Running(c.(stack := c.stack[c.ebp - disp / 4 := W(c.eax)]))
    else if base == EDI && disp == -4 && c.edi in c.heap then
      Running(c.(heap := c.heap[c.edi := c.eax]))
    else Stuck
  }

  function ExecPushMem(rt: Runtime, base: Reg, disp: int, c: Cpu): Machine {
    if base == EBP && FrameCell(c, disp) then Running(PushCell(c, c.stack[c.ebp - disp / 4]))
    else if base == ESI then
      (match rt.qv(disp) case None => Stuck case Some(w) => Running(PushCell(c, W(w))))
    else Stuck
  }

  function ExecPush(r: Reg, c: Cpu): Machine {
    match r
    case EAX => Running(PushCell(c, W(c.eax)))
    case ECX => Running(PushCell(c, W(c.ecx)))
    case EDX => Running(PushCell(c, W(c.edx)))
    case EDI => Running(PushCell(c, W(c.edi)))
    case EBP => Running(PushCell(c, Link(c.ebp)))
    case _ => Stuck
  }

  function ExecPop(r: Reg, c: Cpu): Machine {
    if |c.stack| == 0 then Stuck
    else
      match Top(c)
      case W(w) => SetReg(r, w, DropCells(c, 1))
      case Link(f) => if r == EBP then Running(DropCells(c, 1).(ebp := f)) else Stuck
  }

  function ExecMov(dst: Reg, src: Reg, c: Cpu): Machine {
    if dst == EDX && src == EAX then Running(c.(edx := c.eax))
    else if dst == EBP && src == ESP then Running(c.(ebp := |c.stack| - 1))
    else if dst == ESP && src == EBP && 0 <= c.ebp < |c.stack| then Running(c.(stack := c.stack[..c.ebp + 1]))
    else Stuck
  }

  /** The effect of an instruction; pc is already the address of the next one. */
  function Exec(rt: Runtime, i: Instr, c: Cpu): Machine {
    match i
    case Push(r) => ExecPush(r, c)
    case Pop(r) => ExecPop(r, c)
    case Mov(dst, src) => ExecMov(dst, src, c)
    case XorSelf(r) => SetReg(r, 0, c.(zf := true, sf := false, of := false))
    case MovImm(r, w) => SetReg(r, w, c)
    case AddEaxEdx => Running(AddFlags(c, c.eax, c.edx))
    case SubEaxEdx => Running(SubFlags(c, c.eax, c.edx).(eax := Wrap32(c.eax - c.edx)))
    case CmpEaxEdx => Running(SubFlags(c, c.eax, c.edx))
    case Load(dst, base, disp) =>
      (match LoadSource(rt, base, disp, c) case None => Stuck case Some(w) => SetReg(dst, w, c))
    case Store(base, disp) => ExecStore(base, disp, c)
    case CmpMem(base, disp) =>
      if base != ESI then Stuck
      else (match rt.qv(disp) case None => Stuck case Some(w) => Running(SubFlags(c, c.eax, w)))
    case PushMem(base, disp) => ExecPushMem(rt, base, disp, c)
    case PushImm(w) => Running(PushCell(c, W(w)))
    case CmpImm(w) => Running(SubFlags(c, c.eax, w))
    case TestAl(mask) => Running(c.(zf := mask == 7 && c.eax % 8 == 0, sf := false, of := false))
    case TestDl(mask) => Running(c.(zf := mask == 7 && c.edx % 8 == 0, sf := false, of := false))
    case AddEsp(n) => if n < 0 || n % 4 != 0 || n / 4 > |c.stack| then Stuck else Running(DropCells(c, n / 4))
    case Jcc8(cc, d) => Running(if Holds(cc, c) then c.(pc := c.pc + d) else c)
    case Jmp8(d) => Running(c.(pc := c.pc + d))
    case Jcc32(cc, d) => Running(if Holds(cc, c) then c.(pc := c.pc + d) else c)
    case Jmp32(d) => Running(c.(pc := c.pc + d))
    case Call(disp) => ExecCall(rt, disp, c)
    case DecEdx =>
      var r := Wrap32(c.edx - 1);
      Running(c.(edx := r, zf := r == 0, sf := Signed(r) < 0, of := Signed(r) != Signed(c.edx) - 1))
    case Ret => if |c.stack| == 0 then Stuck else Halted(DropCells(c, 1))
  }

  function Step(img: Image, rt: Runtime, m: Machine): Machine {
    match m
    case Running(c) =>
      if c.pc !in img then Stuck
      else Exec(rt, img[c.pc].ins, c.(pc := c.pc + img[c.pc].len))
    case _ => m
  }

  function Run(img: Image, rt: Runtime, n: nat, m: Machine): Machine {
    if n == 0 then m else Run(img, rt, n - 1, Step(img, rt, m))
  }

  /** m' is reached from m in at least k steps. */
  ghost predicate Reach(img: Image, rt: Runtime, m: Machine, m': Machine, k: nat) {
    exists n: nat :: k <= n && Run(img, rt, n, m) == m'
  }

  lemma {:induction false} RunAdd(img: Image, rt: Runtime, a: nat, b: nat, m: Machine)
    ensures Run(img, rt, a + b, m) == Run(img, rt, b, Run(img, rt, a, m))
  {
    if a > 0 {
      RunAdd(img, rt, a - 1, b, Step(img, rt, m));
    }
  }

  lemma ReachRefl(img: Image, rt: Runtime, m: Machine)
    ensures Reach(img, rt, m, m, 0)
  {
    assert Run(img, rt, 0, m) == m;
  }

  lemma ReachTrans(img: Image, rt: Runtime, m0: Machine, m1: Machine, m2: Machine, j: nat, k: nat)
    requires Reach(img, rt, m0, m1, j) && Reach(img, rt, m1, m2, k)
    ensures Reach(img, rt, m0, m2, j + k)
  {
    var a: nat :| j <= a && Run(img, rt, a, m0) == m1;
    var b: nat :| k <= b && Run(img, rt, b, m1) == m2;
    RunAdd(img, rt, a, b, m0);
    assert Run(img, rt, a + b, m0) == m2;
  }

  lemma ReachWeaken(img: Image, rt: Runtime, m: Machine, m': Machine, j: nat, k: nat)
    requires Reach(img, rt, m, m', j) && k <= j
    ensures Reach(img, rt, m, m', k)
  {
    var n: nat :| j <= n && Run(img, rt, n, m) == m';
  }

  // ----- code with branches that are still to be patched -----

  /** The rec-th lexical record from the outermost, and the tag within it (0 for a block's end). */
  datatype Label = Label(rec: nat, tag: nat)

  /** Table entries the compiler records for the last four bytes of an instruction; or that it puts its
      stack index back after it, because control does not come here again. */
  datatype Note = NoNote | LiteralRef(obj: Word) | JumpRef(routine: Routine) | VarRef(name: Name) | PutBack

  /** An emitted instruction, or the five-byte jump JMP 0 whose displacement is filled in later. */
  datatype Item = I(ins: Instr, note: Note) | Exit(target: Label)

  type Code = seq<Item>

  function Plain(i: Instr): Item {
    I(i, NoNote)
  }

  function Len(it: Item): (n: nat)
    ensures 1 <= n <= 7
  {
    match it case I(i, _) => |Encode(i)| case Exit(_) => 5
  }

  function Size(c: Code): nat {
    if c == [] then 0 else Len(c[0]) + Size(c[1..])
  }

  lemma {:induction false} SizeConcat(a: Code, b: Code)
    ensures Size(a + b) == Size(a) + Size(b)
  {
    if a == [] {
      assert a + b == b;
    } else {
      assert (a + b)[1..] == a[1..] + b;
      SizeConcat(a[1..], b);
    }
  }

  /** The instruction that stands at pc once the labels have the given addresses. */
  function Settle(it: Item, pc: int, tg: map<Label, int>): Instr
    requires it.Exit? ==> it.target in tg
  {
    match it case I(i, _) => i case Exit(l) => Jmp32(tg[l] - (pc + 5))
  }

  ghost predicate Placed(img: Image, pc: int, it: Item, tg: map<Label, int>) {
    && (it.Exit? ==> it.target in tg)
    && pc in img
    && img[pc] == Fetched(Settle(it, pc, tg), Len(it))
  }

  /** The image holds code c from pc on, its pending jumps leading to the addresses in tg. */
  ghost predicate CodeAt(img: Image, pc: int, c: Code, tg: map<Label, int>)
    decreases c
  {
    c == [] || (Placed(img, pc, c[0], tg) && CodeAt(img, pc + Len(c[0]), c[1..], tg))
  }

  lemma {:induction false} CodeAtConcat(img: Image, pc: int, a: Code, b: Code, tg: map<Label, int>)
    ensures CodeAt(img, pc, a + b, tg) <==> CodeAt(img, pc, a, tg) && CodeAt(img, pc + Size(a), b, tg)
    decreases a
  {
    hide Encode, Settle;
    if a == [] {
      assert a + b == b;
    } else {
      assert (a + b)[1..] == a[1..] + b;
      CodeAtConcat(img, pc + Len(a[0]), a[1..], b, tg);
    }
  }

  /** One step executes the item at pc. */
  lemma StepItem(img: Image, rt: Runtime, c: Cpu, it: Item, tg: map<Label, int>)
    requires Placed(img, c.pc, it, tg)
    ensures Reach(img, rt, Running(c), Exec(rt, Settle(it, c.pc, tg), c.(pc := c.pc + Len(it))), 1)
  {
    hide Exec, Encode;
    var m := Running(c);
    assert Run(img, rt, 1, m) == Run(img, rt, 0, Step(img, rt, m));
  }
}
