/**
 The code generated for each form, as a function of the compile-time context.  Branches inside a
 form carry their displacement, computed from code sizes; a branch to a block end or a tag is an
 Exit until the enclosing BLOCK or TAGBODY settles it.
 */
module CodeGen {
  import opened Words
  import opened X86
  import opened Runtime
  import opened Machine
  import opened Lisp

  datatype Dest = ToEax | ToOperand | ToStack | ToZeroFlag

  /** The lexical records of COMPILER_CLEANUPS; the last one is the innermost. */
  datatype Rec =
    | LetRec(name: Name, offset: int)
    | BlockRec(name: Name, depth: int)
    | TagsRec(tags: seq<Name>, depth: int)

  /** Lexical records, stack index in bytes, bytes of frame slots allocated so far, and the type-check policy. */
  datatype Context = Context(recs: seq<Rec>, si: int, env: int, check: bool)

  // ----- lookups in the records -----

  function FindLet(recs: seq<Rec>, n: Name): (k: int)
    ensures -1 <= k < |recs|
    ensures k >= 0 ==> recs[k].LetRec? && recs[k].name == n
  {
    if recs == [] then -1
    else
      var r := recs[|recs| - 1];
      if r.LetRec? && r.name == n then |recs| - 1 else FindLet(recs[..|recs| - 1], n)
  }

  function FindBlock(recs: seq<Rec>, n: Name): (k: int)
    ensures -1 <= k < |recs|
    ensures k >= 0 ==> recs[k].BlockRec? && recs[k].name == n
  {
    if recs == [] then -1
    else
      var r := recs[|recs| - 1];
      if r.BlockRec? && r.name == n then |recs| - 1 else FindBlock(recs[..|recs| - 1], n)
  }

  function FindTags(recs: seq<Rec>, tag: Name): (k: int)
    ensures -1 <= k < |recs|
    ensures k >= 0 ==> recs[k].TagsRec? && tag in recs[k].tags
  {
    if recs == [] then -1
    else
      var r := recs[|recs| - 1];
      if r.TagsRec? && tag in r.tags then |recs| - 1 else FindTags(recs[..|recs| - 1], tag)
  }

  /** The names of the LET records. */
  function Lexical(recs: seq<Rec>): set<Name> {
    if recs == [] then {}
    else
      var r := recs[|recs| - 1];
      Lexical(recs[..|recs| - 1]) + if r.LetRec? then {r.name} else {}
  }

  /** Index of the first occurrence. */
  function IndexOf(tags: seq<Name>, tag: Name): (k: nat)
    requires tag in tags
    ensures k < |tags| && tags[k] == tag
    ensures forall j :: 0 <= j < k ==> tags[j] != tag
  {
    if tags[0] == tag then 0 else 1 + IndexOf(tags[1..], tag)
  }

  // ----- static facts about forms -----

  predicate IsFixnumLiteral(x: Form) {
    x.Lit? && IsFixnum(x.w)
  }

  /** A symbol or a constant object: its value can be loaded without disturbing EDX. */
  predicate IsSimple(x: Form) {
    x.Lit? || x.NilForm? || x.Var? || (x.SymLit? && !x.quoted)
  }

  /** compileForm reports the type FIXNUM for this form. */
  predicate TypedFixnum(x: Form) {
    match x
    case Lit(w) => IsFixnum(w)
    case Setq(pairs) => TypedFixnumBinds(pairs)
    case Progn(body) => TypedFixnumForms(body)
    case Let(_, body) => TypedFixnumForms(body)
    case LetStar(chain) => TypedFixnumChain(chain)
    case ReturnFrom(_, value) => TypedFixnum(value)
    case _ => false
  }

  predicate TypedFixnumForms(body: Forms) {
    match body
    case NoForms => false
    case Forms(x, rest) => if rest.NoForms? then TypedFixnum(x) else TypedFixnumForms(rest)
  }

  predicate TypedFixnumBinds(b: Binds) {
    match b
    case NoBinds => false
    case Binds(_, x, rest) => if rest.NoBinds? then TypedFixnum(x) else TypedFixnumBinds(rest)
  }

  predicate TypedFixnumChain(b: Chain) {
    match b
    case Body(body) => TypedFixnumForms(body)
    case Bind(_, _, rest) => TypedFixnumChain(rest)
  }

  predicate NeedsTest(x: Form, check: bool) {
    !IsFixnumLiteral(x) && (!TypedFixnum(x) || check)
  }

  /** Frame slots allocated while compiling a form. */
  function Slots(x: Form): nat {
    match x
    case Setq(pairs) => SlotsSetq(pairs)
    case Progn(body) => SlotsForms(body)
    case If(test, thn) => Slots(test) + Slots(thn)
    case IfElse(test, thn, els) => Slots(test) + Slots(thn) + Slots(els)
    case Let(binds, body) => SlotsInits(binds) + SlotsForms(body)
    case LetStar(chain) => SlotsChain(chain)
    case Block(_, body) => SlotsForms(body)
    case ReturnFrom(_, value) => Slots(value)
    case Tagbody(items) => SlotsItems(items)
    case ArithCall(_, arg1, arg2) => Slots(arg1) + Slots(arg2)
    case NumEqual(arg1, arg2) => Slots(arg1) + Slots(arg2)
    case Compare(_, arg1, arg2) => Slots(arg1) + Slots(arg2)
    case Eq(arg1, arg2) => Slots(arg1) + Slots(arg2)
    case Null(arg) => Slots(arg)
    case _ => 0
  }

  function SlotsForms(body: Forms): nat {
    match body case NoForms => 0 case Forms(x, rest) => Slots(x) + SlotsForms(rest)
  }

  function SlotsSetq(b: Binds): nat {
    match b case NoBinds => 0 case Binds(_, x, rest) => Slots(x) + SlotsSetq(rest)
  }

  function SlotsInits(b: Binds): nat {
    match b case NoBinds => 0 case Binds(_, x, rest) => 1 + Slots(x) + SlotsInits(rest)
  }

  function SlotsChain(b: Chain): nat {
    match b case Body(body) => SlotsForms(body) case Bind(_, x, rest) => 1 + Slots(x) + SlotsChain(rest)
  }

  function SlotsItems(items: Items): nat {
    match items
    case NoItems => 0
    case Tag(_, rest) => SlotsItems(rest)
    case Stmt(x, rest) => Slots(x) + SlotsItems(rest)
  }

  /** The destination of an IF test: the zero flag for a two-argument =. */
  function TestDest(test: Form, hasElse: bool): Dest {
    if test.NumEqual? then ToZeroFlag else if hasElse then ToOperand else ToEax
  }

  /** Arguments of a two-argument call: the first is pushed unless it can stay in a register. */
  function Arg1Dest(x: Form): Dest
    requires x.ArithCall? || x.NumEqual? || x.Compare? || x.Eq?
  {
    if x.ArithCall? && x.fn.Plus? && IsFixnumLiteral(x.arg2) then ToOperand
    else if x.NumEqual? && IsSimple(x.arg1) && IsSimple(x.arg2) then ToOperand
    else ToStack
  }

  /** The form is itself an exit. */
  predicate IsExit(x: Form) {
    match x
    case ReturnFrom(_, _) => true
    case Go(_) => true
    case Progn(body) => body.Forms? && body.tail.NoForms? && IsExit(body.head)
    case _ => false
  }

  /** Compiled for the stack, the form is one push of a constant or a lexical variable: EAX does not change. */
  predicate PushesDirectly(x: Form, lexical: set<Name>) {
    match x
    case Lit(_) => true
    case SymLit(_, _) => true
    case NilForm => true
    case Var(n) => n in lexical
    case Setq(pairs) => pairs.NoBinds?
    case Progn(body) => body.NoForms? || (body.tail.NoForms? && PushesDirectly(body.head, lexical))
    case Tagbody(items) => !HasStmt(items)
    case _ => false
  }

  /** Whatever its destination, the form's value is that of code compiled for Dest_EAX, which sets the value count. */
  predicate SetsCount(x: Form) {
    match x
    case Progn(body) => body.Forms? && (body.tail.Forms? || SetsCount(body.head))
    case If(_, _) => true
    case IfElse(_, _, _) => true
    case Let(_, _) => true
    case LetStar(_) => true
    case Block(_, _) => true
    case Tagbody(items) => HasStmt(items)
    case _ => false
  }

  /**
   Exits compiled for a destination they do not serve: a GO with the stack as its destination; a
   RETURN-FROM with the stack as its destination that never has its value in EAX, where these names
   are lexical variables; and a RETURN-FROM that leaves the value count unset.
   */
  datatype Misplaced = StackGo | StackReturn(lexical: set<Name>) | UncountedReturn

  /** The same kind of exit inside the scope of more variables. */
  function Inside(q: Misplaced, names: set<Name>): Misplaced {
    match q case StackReturn(lexical) => StackReturn(lexical + names) case _ => q
  }

  function BoundNames(b: Binds): set<Name> {
    match b case NoBinds => {} case Binds(n, _, rest) => BoundNames(rest) + {n}
  }

  /** A RETURN-FROM with this value, compiled for dest, is of that kind itself. */
  predicate Misplaces(value: Form, dest: Dest, q: Misplaced) {
    match q
    case StackGo => false
    case StackReturn(lexical) => dest == ToStack && PushesDirectly(value, lexical)
    case UncountedReturn => dest != ToEax && !SetsCount(value) && !IsExit(value)
  }

  /** How many misplaced exits of one kind a form contains when compiled for dest. */
  function Count(x: Form, dest: Dest, q: Misplaced): nat
    decreases x, 0
  {
    match x
    case Setq(pairs) => CountInits(pairs, q)
    case Progn(body) => CountForms(body, dest, q)
    case If(test, thn) => Count(test, TestDest(test, test.NumEqual?), q) + Count(thn, ToEax, q)
    case IfElse(test, thn, els) => Count(test, TestDest(test, true), q) + Count(thn, ToEax, q) + Count(els, ToEax, q)
    case Let(binds, body) => CountInits(binds, q) + CountForms(body, ToEax, Inside(q, BoundNames(binds)))
    case LetStar(chain) => CountChain(chain, q)
    case Block(_, body) => CountForms(body, ToEax, q)
    case ReturnFrom(_, value) => Count(value, dest, q) + (if Misplaces(value, dest, q) then 1 else 0)
    case Tagbody(items) => CountItems(items, q)
    case Go(_) => if q.StackGo? && dest == ToStack then 1 else 0
    case ArithCall(_, arg1, arg2) => Count(arg1, Arg1Dest(x), q) + Count(arg2, ToOperand, q)
    case NumEqual(arg1, arg2) => Count(arg1, Arg1Dest(x), q) + Count(arg2, ToOperand, q)
    case Compare(_, arg1, arg2) => Count(arg1, Arg1Dest(x), q) + Count(arg2, ToOperand, q)
    case Eq(arg1, arg2) => Count(arg1, Arg1Dest(x), q) + Count(arg2, ToOperand, q)
    case Null(arg) => Count(arg, ToOperand, q)
    case _ => 0
  }

  function CountForms(body: Forms, dest: Dest, q: Misplaced): nat
    decreases body, 1
  {
    match body
    case NoForms => 0
    case Forms(x, rest) => if rest.NoForms? then Count(x, dest, q) else CountSeq(body, q)
  }

  function CountSeq(body: Forms, q: Misplaced): nat
    decreases body, 0
  {
    match body case NoForms => 0 case Forms(x, rest) => Count(x, ToEax, q) + CountSeq(rest, q)
  }

  function CountInits(b: Binds, q: Misplaced): nat
    decreases b, 0
  {
    match b case NoBinds => 0 case Binds(_, x, rest) => Count(x, ToOperand, q) + CountInits(rest, q)
  }

  function CountChain(b: Chain, q: Misplaced): nat
    decreases b, 0
  {
    match b
    case Body(body) => CountForms(body, ToEax, q)
    case Bind(n, x, rest) => Count(x, ToOperand, q) + CountChain(rest, Inside(q, {n}))
  }

  function CountItems(items: Items, q: Misplaced): nat
    decreases items, 0
  {
    match items
    case NoItems => 0
    case Tag(_, rest) => CountItems(rest, q)
    case Stmt(x, rest) => Count(x, ToEax, q) + CountItems(rest, q)
  }

  /** The context after a form has been compiled: its slots are allocated and its stack index
      is left; each stack GO leaves the index four short. */
  function Next(cx: Context, x: Form, dest: Dest): Context {
    cx.(env := cx.env + 4 * Slots(x),
        si := cx.si + (if dest == ToStack then 4 else 0) - 4 * Count(x, dest, StackGo))
  }

  /** CBincDynamicEnvSize: the offset from EBP of the slot allocated when env bytes were in use. */
  function SlotOffset(env: int): int {
    -4 - (env + 4)
  }

  // ----- code templates -----

  function MovObj(r: Reg, w: Word): Instr {
    if w == 0 then XorSelf(r) else MovImm(r, w)
  }

  /** TARGET(1): one value for Dest_EAX, a push for Dest_Stack. */
  function Target(dest: Dest): Code {
    match dest
    case ToEax => [Plain(MovImm(ECX, 1))]
    case ToStack => [Plain(Push(EAX))]
    case _ => []
  }

  function PushIfStack(dest: Dest): Code {
    if dest == ToStack then [Plain(Push(EAX))] else []
  }

  function CountIfEax(dest: Dest): Code {
    if dest == ToEax then [Plain(MovImm(ECX, 1))] else []
  }

  function LoadNil(): Item { Plain(Load(EAX, ESI, 0)) }

  function LoadT(): Item { Plain(Load(EAX, ESI, 4)) }

  function GenNil(dest: Dest): Code {
    if dest == ToStack then [Plain(PushMem(ESI, 0))] else [LoadNil()] + CountIfEax(dest)
  }

  function GenLit(w: Word, dest: Dest): Code {
    if dest == ToStack then [Plain(PushImm(w))] else [Plain(MovObj(EAX, w))] + CountIfEax(dest)
  }

  function GenSym(w: Word, dest: Dest): Code {
    if dest == ToStack then [I(PushImm(w), LiteralRef(w))] else [I(MovImm(EAX, w), LiteralRef(w))] + CountIfEax(dest)
  }

  function CallRoutine(rt: Runtime, r: Routine): Item {
    I(Call(rt.slot(r)), JumpRef(r))
  }

  /** The call taken when a global variable is unbound. */
  function UnboundCall(rt: Runtime, e: VarEntry): Code {
    [I(PushImm(e.sym), LiteralRef(e.sym)), Plain(MovImm(ECX, 1)), CallRoutine(rt, UnboundVariable), Plain(AddEsp(4))]
  }

  function GenGlobal(rt: Runtime, n: Name, dest: Dest): Code
    requires n in rt.vars
  {
    var e := rt.vars[n];
    [I(Load(EAX, ESI, e.offset), VarRef(n)), Plain(Load(EAX, EAX, -4)), Plain(CmpImm(UNINITIALIZED)),
     Plain(Jcc32(NE, Size(UnboundCall(rt, e))))]
    + UnboundCall(rt, e) + Target(dest)
  }

  function GenVar(rt: Runtime, n: Name, dest: Dest, cx: Context): Code {
    var k := FindLet(cx.recs, n);
    if k >= 0 then
      if dest == ToStack then [Plain(PushMem(EBP, cx.recs[k].offset))]
      else [Plain(Load(EAX, EBP, cx.recs[k].offset))] + CountIfEax(dest)
    else if n in rt.vars then GenGlobal(rt, n, dest)
    else []
  }

  function GenAssign(rt: Runtime, n: Name, cx: Context): Code {
    var k := FindLet(cx.recs, n);
    if k >= 0 then [Plain(Store(EBP, cx.recs[k].offset))]
    else if n in rt.vars then [I(Load(EDI, ESI, rt.vars[n].offset), VarRef(n)), Plain(Store(EDI, -4))]
    else []
  }

  /** Drop stacked operands before a branch out of the form that pushed them: no net change of the stack index. */
  function Adjust(diff: int): Code {
    if diff > 0 then [I(AddEsp(diff), PutBack)] else []
  }

  /** test al, 7 or test dl, 7, branching past dist bytes when the operand is not a fixnum. */
  function TagTest(needed: bool, t: Instr, dist: int): Code {
    if needed then [Plain(t), Plain(Jcc8(NE, dist))] else []
  }

  /** Both tag tests, each branching to the code dist bytes past the pair. */
  function TagTests(al: bool, dl: bool, dist: int): Code {
    TagTest(al, TestAl(7), dist + (if dl then 5 else 0)) + TagTest(dl, TestDl(7), dist)
  }

  /** The operation, the one that takes it back, and the generic routine. */
  function ArithParts(fn: Arith): (Instr, Instr, Routine) {
    match fn
    case Plus => (AddEaxEdx, SubEaxEdx, GenericPlus)
    case Minus => (SubEaxEdx, AddEaxEdx, GenericMinus)
  }

  /** Inline + or - of EAX and EDX; on overflow the operand is restored and the generic routine called. */
  function ArithTail(rt: Runtime, fn: Arith, al: bool, dl: bool): Code {
    var (op, undo, r) := ArithParts(fn);
    TagTests(al, dl, 6) + [Plain(op), Plain(Jcc8(NO, 8)), Plain(undo), CallRoutine(rt, r)]
  }

  /** Push both operands and call a two-argument predicate. */
  function PredicateCall(rt: Runtime, r: Routine): Code {
    [Plain(Push(EDX)), Plain(Push(EAX)), Plain(Load(EDI, ESI, 0)), Plain(MovImm(ECX, 2)),
     CallRoutine(rt, r), Plain(AddEsp(8))]
  }

  /** = for a branch: the zero flag is set when the arguments are equal. */
  function EqualFlagTail(rt: Runtime, al: bool, dl: bool): Code {
    if al || dl then
      TagTests(al, dl, 4) + [Plain(CmpEaxEdx), Plain(Jmp8(21))]
      + PredicateCall(rt, GenericEqual) + [Plain(CmpMem(ESI, 4))]
    else [Plain(CmpEaxEdx)]
  }

  /** A predicate on EAX and EDX: NIL when cc holds of their comparison, T otherwise, generic for non-fixnums. */
  function PredicateTail(rt: Runtime, r: Routine, cc: Cond, al: bool, dl: bool): Code {
    if al || dl then
      TagTests(al, dl, 11)
      + [Plain(CmpEaxEdx), LoadNil(), Plain(Jcc8(cc, 23)), LoadT(), Plain(Jmp8(18))]
      + PredicateCall(rt, r)
    else if r.GenericEqual? then
      [Plain(CmpEaxEdx), LoadNil(), Plain(Jcc8(cc, 5)), LoadT(), Plain(Jmp8(0))]
    else
      [Plain(CmpEaxEdx), LoadNil(), Plain(Jcc8(cc, 3)), LoadT()]
  }

  /** The condition on arg2 against arg1 under which the comparison is false. */
  function FailCond(op: Op): Cond {
    match op
    case LessEqual => L
    case Less => LE
    case GreaterEqual => G
    case Greater => GE
  }

  function EqTail(): Code {
    [Plain(CmpEaxEdx), LoadNil(), Plain(Jcc8(NE, 3)), LoadT()]
  }

  function NullTail(): Code {
    [Plain(CmpMem(ESI, 0)), LoadNil(), Plain(Jcc8(NE, 3)), LoadT()]
  }

  /** From both arguments evaluated, as Arg1Dest left them, to the result at dest. */
  function CallTail(rt: Runtime, x: Form, dest: Dest, check: bool): Code
    requires x.ArithCall? || x.NumEqual? || x.Compare? || x.Eq?
  {
    match x
    case ArithCall(Plus, arg1, arg2) =>
      if Arg1Dest(x) == ToOperand then ArithTail(rt, Plus, NeedsTest(arg1, check), false) + Target(dest)
      else ArithTail(rt, Plus, NeedsTest(arg2, check), NeedsTest(arg1, check)) + Target(dest)
    case ArithCall(Minus, arg1, arg2) =>
      ArithTail(rt, Minus, NeedsTest(arg1, check), NeedsTest(arg2, check)) + Target(dest)
    case NumEqual(arg1, arg2) =>
      if dest == ToZeroFlag then EqualFlagTail(rt, NeedsTest(arg2, check), NeedsTest(arg1, check))
      else PredicateTail(rt, GenericEqual, NE, NeedsTest(arg2, check), NeedsTest(arg1, check)) + Target(dest)
    case Compare(op, arg1, arg2) =>
      PredicateTail(rt, GenericCompare(op), FailCond(op), NeedsTest(arg2, check), NeedsTest(arg1, check)) + Target(dest)
    case Eq(_, _) => EqTail() + Target(dest)
  }

  // ----- settling branches to a block end or to tags -----

  /** The item at offset pos, with exits to record rec sent to the given offsets. */
  function SettleItem(it: Item, pos: int, rec: nat, targets: seq<int>): Item {
    match it
    case Exit(l) =>
      if l.rec == rec && l.tag < |targets| then Plain(Jmp32(targets[l.tag] - (pos + 5))) else it
    case _ => it
  }

  function SettleAll(c: Code, pos: int, rec: nat, targets: seq<int>): Code
    decreases c
  {
    if c == [] then []
    else [SettleItem(c[0], pos, rec, targets)] + SettleAll(c[1..], pos + Len(c[0]), rec, targets)
  }

  function TagNames(items: Items): seq<Name> {
    match items
    case NoItems => []
    case Tag(t, rest) => [t] + TagNames(rest)
    case Stmt(_, rest) => TagNames(rest)
  }

  predicate HasStmt(items: Items) {
    match items
    case NoItems => false
    case Tag(_, rest) => HasStmt(rest)
    case Stmt(_, _) => true
  }

  /** Every statement is itself a GO; TAGBODY then first loads NIL. */
  predicate OnlyGos(items: Items) {
    match items
    case NoItems => true
    case Tag(_, rest) => OnlyGos(rest)
    case Stmt(x, rest) => x.Go? && OnlyGos(rest)
  }

  // ----- the code of a form -----

  /** The records a LET adds, outermost first: its first binding becomes the innermost. */
  function LetRecs(b: Binds, env: int): (recs: seq<Rec>)
    ensures forall i :: 0 <= i < |recs| ==> recs[i].LetRec?
  {
    match b
    case NoBinds => []
    case Binds(n, x, rest) => LetRecs(rest, env + 4 + 4 * Slots(x)) + [LetRec(n, SlotOffset(env))]
  }

  function LetContext(cx: Context, binds: Binds): Context {
    cx.(recs := cx.recs + LetRecs(binds, cx.env),
        env := cx.env + 4 * SlotsInits(binds),
        si := cx.si - 4 * CountInits(binds, StackGo))
  }

  function BindContext(cx: Context, n: Name, x: Form): Context {
    Next(cx.(env := cx.env + 4), x, ToOperand).(recs := cx.recs + [LetRec(n, SlotOffset(cx.env))])
  }

  function TagsContext(cx: Context, items: Items): Context {
    cx.(recs := cx.recs + [TagsRec(TagNames(items), cx.si)])
  }

  function BlockContext(cx: Context, name: Name): Context {
    cx.(recs := cx.recs + [BlockRec(name, cx.si)])
  }

  function IfCode(test: Code, thn: Code, dest: Dest): Code {
    test + [Plain(Jcc32(E, Size(thn)))] + thn + PushIfStack(dest)
  }

  function IfElseCode(test: Code, cc: Cond, thn: Code, els: Code, dest: Dest): Code {
    test + [Plain(Jcc32(cc, Size(thn) + 5))] + thn + [Plain(Jmp32(Size(els)))] + els + PushIfStack(dest)
  }

  function TestCode(rt: Runtime, test: Form, hasElse: bool, cx: Context): Code
    decreases test, 1
  {
    Gen(rt, test, TestDest(test, hasElse), cx) + (if test.NumEqual? then [] else [Plain(CmpMem(ESI, 0))])
  }

  function TestCond(test: Form): Cond {
    if test.NumEqual? then NE else E
  }

  function Gen(rt: Runtime, x: Form, dest: Dest, cx: Context): Code
    decreases x, 0
  {
    match x
    case Lit(w) => GenLit(w, dest)
    case SymLit(w, _) => GenSym(w, dest)
    case NilForm => GenNil(dest)
    case Var(n) => GenVar(rt, n, dest, cx)
    case Setq(pairs) => if pairs.NoBinds? then GenNil(dest) else GenSetq(rt, pairs, cx) + Target(dest)
    case Progn(body) => GenForms(rt, body, dest, cx)
    case If(test, thn) =>
      var cx1 := Next(cx, test, TestDest(test, test.NumEqual?));
      if test.NumEqual? then
        IfElseCode(TestCode(rt, test, true, cx), NE, Gen(rt, thn, ToEax, cx1), GenNil(ToEax), dest)
      else
        IfCode(TestCode(rt, test, false, cx), Gen(rt, thn, ToEax, cx1), dest)
    case IfElse(test, thn, els) =>
      var cx1 := Next(cx, test, TestDest(test, true));
      var cx2 := Next(cx1, thn, ToEax);
      IfElseCode(TestCode(rt, test, true, cx), TestCond(test), Gen(rt, thn, ToEax, cx1), Gen(rt, els, ToEax, cx2), dest)
    case Let(binds, body) =>
      GenInits(rt, binds, cx) + GenForms(rt, body, ToEax, LetContext(cx, binds)) + PushIfStack(dest)
    case LetStar(chain) => GenChain(rt, chain, cx) + PushIfStack(dest)
    case Block(name, body) =>
      var b := GenForms(rt, body, ToEax, BlockContext(cx, name));
      SettleAll(b, 0, |cx.recs|, [Size(b)]) + PushIfStack(dest)
    case ReturnFrom(name, value) =>
      var k := FindBlock(cx.recs, name);
      if k < 0 then []
      else Gen(rt, value, dest, cx) + Adjust(Next(cx, value, dest).si - cx.recs[k].depth) + [Exit(Label(k, 0))]
    case Tagbody(items) =>
      if !HasStmt(items) then GenNil(dest)
      else
        var pre := if OnlyGos(items) then GenNil(ToEax) else [];
        var cx1 := TagsContext(cx, items);
        SettleAll(pre + GenItems(rt, items, cx1) + GenNil(ToEax), 0, |cx.recs|, TagOffsets(rt, items, cx1, Size(pre)))
        + PushIfStack(dest)
    case Go(tag) =>
      var k := FindTags(cx.recs, tag);
      if k < 0 then [] else Adjust(cx.si - cx.recs[k].depth) + [Exit(Label(k, IndexOf(cx.recs[k].tags, tag)))]
    case ArithCall(_, arg1, arg2) => Gen2(rt, x, arg1, arg2, cx) + CallTail(rt, x, dest, cx.check)
    case NumEqual(arg1, arg2) => Gen2(rt, x, arg1, arg2, cx) + CallTail(rt, x, dest, cx.check)
    case Compare(_, arg1, arg2) => Gen2(rt, x, arg1, arg2, cx) + CallTail(rt, x, dest, cx.check)
    case Eq(arg1, arg2) => Gen2(rt, x, arg1, arg2, cx) + CallTail(rt, x, dest, cx.check)
    case Null(arg) => Gen(rt, arg, ToOperand, cx) + NullTail() + Target(dest)
  }

  /** Both arguments of a call, left where CallTail expects them. */
  function Gen2(rt: Runtime, x: Form, arg1: Form, arg2: Form, cx: Context): Code
    requires x.ArithCall? || x.NumEqual? || x.Compare? || x.Eq?
    requires arg1 == x.arg1 && arg2 == x.arg2
    decreases x, 0, 0
  {
    var d1 := Arg1Dest(x);
    if x.ArithCall? && d1 == ToOperand then
      Gen(rt, arg1, ToOperand, cx) + [Plain(MovObj(EDX, arg2.w))]
    else if d1 == ToOperand then
      Gen(rt, arg1, ToOperand, cx) + [Plain(Mov(EDX, EAX))] + Gen(rt, arg2, ToOperand, Next(cx, arg1, ToOperand))
    else
      Gen(rt, arg1, ToStack, cx) + Gen(rt, arg2, ToOperand, Next(cx, arg1, ToStack))
      + (if x.ArithCall? && x.fn.Minus? then [Plain(Mov(EDX, EAX)), Plain(Pop(EAX))] else [Plain(Pop(EDX))])
  }

  function GenForms(rt: Runtime, body: Forms, dest: Dest, cx: Context): Code
    decreases body, 1
  {
    match body
    case NoForms => GenNil(dest)
    case Forms(x, rest) =>
      if rest.NoForms? then Gen(rt, x, dest, cx) else GenSeq(rt, body, cx) + PushIfStack(dest)
  }

  function GenSeq(rt: Runtime, body: Forms, cx: Context): Code
    decreases body, 0
  {
    match body
    case NoForms => []
    case Forms(x, rest) => Gen(rt, x, ToEax, cx) + GenSeq(rt, rest, Next(cx, x, ToEax))
  }

  function GenSetq(rt: Runtime, pairs: Binds, cx: Context): Code
    decreases pairs, 0
  {
    match pairs
    case NoBinds => []
    case Binds(n, x, rest) =>
      Gen(rt, x, ToOperand, cx) + GenAssign(rt, n, cx) + GenSetq(rt, rest, Next(cx, x, ToOperand))
  }

  function GenInits(rt: Runtime, b: Binds, cx: Context): Code
    decreases b, 0
  {
    match b
    case NoBinds => []
    case Binds(_, x, rest) =>
      var cx1 := cx.(env := cx.env + 4);
      Gen(rt, x, ToOperand, cx1) + [Plain(Store(EBP, SlotOffset(cx.env)))] + GenInits(rt, rest, Next(cx1, x, ToOperand))
  }

  function GenChain(rt: Runtime, b: Chain, cx: Context): Code
    decreases b, 0
  {
    match b
    case Body(body) => GenForms(rt, body, ToEax, cx)
    case Bind(n, x, rest) =>
      Gen(rt, x, ToOperand, cx.(env := cx.env + 4)) + [Plain(Store(EBP, SlotOffset(cx.env)))]
      + GenChain(rt, rest, BindContext(cx, n, x))
  }

  function GenItems(rt: Runtime, items: Items, cx: Context): Code
    decreases items, 0
  {
    match items
    case NoItems => []
    case Tag(_, rest) => GenItems(rt, rest, cx)
    case Stmt(x, rest) => Gen(rt, x, ToEax, cx) + GenItems(rt, rest, Next(cx, x, ToEax))
  }

  /** The offset of each tag, in order, when the first item starts at pos. */
  function TagOffsets(rt: Runtime, items: Items, cx: Context, pos: int): seq<int>
    decreases items, 1
  {
    match items
    case NoItems => []
    case Tag(_, rest) => [pos] + TagOffsets(rt, rest, cx, pos)
    case Stmt(x, rest) => TagOffsets(rt, rest, Next(cx, x, ToEax), pos + Size(Gen(rt, x, ToEax, cx)))
  }

  // ----- what the compiler accepts -----

  /** compileForm raises no error: variables are known, exits have a target, and none needs a negative adjustment. */
  predicate Accepts(rt: Runtime, x: Form, dest: Dest, cx: Context)
    decreases x, 0
  {
    match x
    case Lit(_) => true
    case SymLit(_, _) => true
    case NilForm => true
    case Var(n) => FindLet(cx.recs, n) >= 0 || n in rt.vars
    case Setq(pairs) => AcceptsSetq(rt, pairs, cx)
    case Progn(body) => AcceptsForms(rt, body, dest, cx)
    case If(test, thn) =>
      && Accepts(rt, test, TestDest(test, test.NumEqual?), cx)
      && Accepts(rt, thn, ToEax, Next(cx, test, TestDest(test, test.NumEqual?)))
    case IfElse(test, thn, els) =>
      var cx1 := Next(cx, test, TestDest(test, true));
      && Accepts(rt, test, TestDest(test, true), cx)
      && Accepts(rt, thn, ToEax, cx1)
      && Accepts(rt, els, ToEax, Next(cx1, thn, ToEax))
    case Let(binds, body) => AcceptsInits(rt, binds, cx) && AcceptsForms(rt, body, ToEax, LetContext(cx, binds))
    case LetStar(chain) => AcceptsChain(rt, chain, cx)
    case Block(name, body) => AcceptsForms(rt, body, ToEax, BlockContext(cx, name))
    case ReturnFrom(name, value) =>
      var k := FindBlock(cx.recs, name);
      k >= 0 && Accepts(rt, value, dest, cx) && Next(cx, value, dest).si - cx.recs[k].depth >= 0
    case Tagbody(items) => HasStmt(items) ==> AcceptsItems(rt, items, TagsContext(cx, items))
    case Go(tag) =>
      var k := FindTags(cx.recs, tag);
      k >= 0 && cx.si - cx.recs[k].depth >= 0
    case ArithCall(_, arg1, arg2) => Accepts(rt, arg1, Arg1Dest(x), cx) && Accepts(rt, arg2, ToOperand, Next(cx, arg1, Arg1Dest(x)))
    case NumEqual(arg1, arg2) => Accepts(rt, arg1, Arg1Dest(x), cx) && Accepts(rt, arg2, ToOperand, Next(cx, arg1, Arg1Dest(x)))
    case Compare(_, arg1, arg2) => Accepts(rt, arg1, Arg1Dest(x), cx) && Accepts(rt, arg2, ToOperand, Next(cx, arg1, Arg1Dest(x)))
    case Eq(arg1, arg2) => Accepts(rt, arg1, Arg1Dest(x), cx) && Accepts(rt, arg2, ToOperand, Next(cx, arg1, Arg1Dest(x)))
    case Null(arg) => Accepts(rt, arg, ToOperand, cx)
  }

  predicate AcceptsForms(rt: Runtime, body: Forms, dest: Dest, cx: Context)
    decreases body, 1
  {
    match body
    case NoForms => true
    case Forms(x, rest) => if rest.NoForms? then Accepts(rt, x, dest, cx) else AcceptsSeq(rt, body, cx)
  }

  predicate AcceptsSeq(rt: Runtime, body: Forms, cx: Context)
    decreases body, 0
  {
    match body
    case NoForms => true
    case Forms(x, rest) => Accepts(rt, x, ToEax, cx) && AcceptsSeq(rt, rest, Next(cx, x, ToEax))
  }

  predicate AcceptsSetq(rt: Runtime, pairs: Binds, cx: Context)
    decreases pairs, 0
  {
    match pairs
    case NoBinds => true
    case Binds(n, x, rest) =>
      && (FindLet(cx.recs, n) >= 0 || n in rt.vars)
      && Accepts(rt, x, ToOperand, cx)
      && AcceptsSetq(rt, rest, Next(cx, x, ToOperand))
  }

  predicate AcceptsInits(rt: Runtime, b: Binds, cx: Context)
    decreases b, 0
  {
    match b
    case NoBinds => true
    case Binds(_, x, rest) =>
      var cx1 := cx.(env := cx.env + 4);
      Accepts(rt, x, ToOperand, cx1) && AcceptsInits(rt, rest, Next(cx1, x, ToOperand))
  }

  predicate AcceptsChain(rt: Runtime, b: Chain, cx: Context)
    decreases b, 0
  {
    match b
    case Body(body) => AcceptsForms(rt, body, ToEax, cx)
    case Bind(n, x, rest) =>
      Accepts(rt, x, ToOperand, cx.(env := cx.env + 4)) && AcceptsChain(rt, rest, BindContext(cx, n, x))
  }

  predicate AcceptsItems(rt: Runtime, items: Items, cx: Context)
    decreases items, 0
  {
    match items
    case NoItems => true
    case Tag(_, rest) => AcceptsItems(rt, rest, cx)
    case Stmt(x, rest) => Accepts(rt, x, ToEax, cx) && AcceptsItems(rt, rest, Next(cx, x, ToEax))
  }
}
