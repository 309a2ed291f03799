/**
 The forms compiled and what they mean.  The evaluator is a reference semantics written from the
 language, not from the compiler: an environment of (name, value) pairs whose last pair is the
 innermost binding, a store of global values, and outcomes for exits.  fuel bounds the
 backward jumps of TAGBODY; running out of it is Diverge.
 */
module Lisp {
  import opened Options
  import opened Words
  import opened X86
  import opened Runtime

  datatype Arith = Plus | Minus

  datatype Form =
    | Lit(w: Word)                              // a fixnum, character or other immediate
    | SymLit(sym: SymbolWord, quoted: bool)     // (quote sym), or the constant T
    | NilForm
    | Var(name: Name)
    | Setq(pairs: Binds)
    | Progn(body: Forms)
    | If(test: Form, thn: Form)
    | IfElse(test: Form, thn: Form, els: Form)
    | Let(binds: Binds, body: Forms)
    | LetStar(chain: Chain)
    | Block(name: Name, body: Forms)
    | ReturnFrom(name: Name, value: Form)
    | Tagbody(items: Items)
    | Go(tag: Name)
    | ArithCall(fn: Arith, arg1: Form, arg2: Form)
    | NumEqual(arg1: Form, arg2: Form)
    | Compare(op: Op, arg1: Form, arg2: Form)
    | Eq(arg1: Form, arg2: Form)
    | Null(arg: Form)
  datatype Forms = NoForms | Forms(head: Form, tail: Forms)
  datatype Binds = NoBinds | Binds(name: Name, init: Form, rest: Binds)
  /** The bindings of a LET*, ending in its body. */
  datatype Chain = Body(body: Forms) | Bind(name: Name, init: Form, rest: Chain)
  datatype Items = NoItems | Tag(tag: Name, rest: Items) | Stmt(form: Form, rest: Items)

  type Env = seq<(Name, Word)>
  datatype State = State(env: Env, globals: map<Name, Word>)

  datatype Outcome =
    | Val(w: Word, st: State)
    | Return(block: Name, w: Word, st: State)
    | Jump(tag: Name, st: State)
    | Signal(st: State)
    | Diverge

  /** Outcome of evaluating LET's initial values: the values in order, or an exit. */
  datatype InitOutcome = Inits(ws: seq<Word>, st: State) | InitExit(out: Outcome)

  // ----- variables -----

  /** Index of the innermost binding of n, or -1. */
  function FindVar(env: Env, n: Name): (k: int)
    ensures -1 <= k < |env|
    ensures k >= 0 ==> env[k].0 == n
    ensures forall j :: k < j < |env| ==> env[j].0 != n
  {
    if env == [] then -1
    else if env[|env| - 1].0 == n then |env| - 1
    else FindVar(env[..|env| - 1], n)
  }

  function ReadVar(st: State, n: Name): Outcome {
    var k := FindVar(st.env, n);
    if k >= 0 then Val(st.env[k].1, st)
    else if GlobalValue(st.globals, n) == UNINITIALIZED then Signal(st)
    else Val(GlobalValue(st.globals, n), st)
  }

  function WriteVar(st: State, n: Name, w: Word): State {
    var k := FindVar(st.env, n);
    if k >= 0 then st.(env := st.env[k := (n, w)])
    else st.(globals := st.globals[n := w])
  }

  /** Leaving a scope keeps the outermost n bindings. */
  function Truncate(st: State, n: nat): State {
    if n <= |st.env| then st.(env := st.env[..n]) else st
  }

  // ----- arithmetic -----

  /** Exact on fixnums while the result is a fixnum; generic otherwise. */
  function PlusValue(rt: Runtime, a: Word, b: Word): Option<Word> {
    if IsFixnum(a) && IsFixnum(b) && InFixnumRange(Integer(a) + Integer(b))
    then Some(WrapInteger(Integer(a) + Integer(b)))
    else rt.plus(a, b)
  }

  function MinusValue(rt: Runtime, a: Word, b: Word): Option<Word> {
    if IsFixnum(a) && IsFixnum(b) && InFixnumRange(Integer(a) - Integer(b))
    then Some(WrapInteger(Integer(a) - Integer(b)))
    else rt.minus(a, b)
  }

  function ArithValue(rt: Runtime, fn: Arith, a: Word, b: Word): Option<Word> {
    match fn case Plus => PlusValue(rt, a, b) case Minus => MinusValue(rt, a, b)
  }

  function EqualValue(rt: Runtime, a: Word, b: Word): Option<bool> {
    if IsFixnum(a) && IsFixnum(b) then Some(Integer(a) == Integer(b)) else rt.numEqual(a, b)
  }

  predicate Ordered(op: Op, x: int, y: int) {
    match op
    case Less => x < y
    case LessEqual => x <= y
    case Greater => x > y
    case GreaterEqual => x >= y
  }

  function CompareValue(rt: Runtime, op: Op, a: Word, b: Word): Option<bool> {
    if IsFixnum(a) && IsFixnum(b) then Some(Ordered(op, Integer(a), Integer(b))) else rt.compare(op, a, b)
  }

  function WordOutcome(r: Option<Word>, st: State): Outcome {
    match r case None => Signal(st) case Some(w) => Val(w, st)
  }

  function TruthOutcome(rt: Runtime, r: Option<bool>, st: State): Outcome {
    match r case None => Signal(st) case Some(b) => Val(rt.Truth(b), st)
  }

  /** The value of a two-argument call once both arguments are known. */
  function CallOutcome(rt: Runtime, x: Form, a: Word, b: Word, st: State): Outcome
    requires x.ArithCall? || x.NumEqual? || x.Compare? || x.Eq?
  {
    match x
    case ArithCall(fn, _, _) => WordOutcome(ArithValue(rt, fn, a, b), st)
    case NumEqual(_, _) => TruthOutcome(rt, EqualValue(rt, a, b), st)
    case Compare(op, _, _) => TruthOutcome(rt, CompareValue(rt, op, a, b), st)
    case Eq(_, _) => Val(rt.Truth(a == b), st)
  }

  // ----- evaluation -----

  predicate HasTag(items: Items, tag: Name) {
    match items
    case NoItems => false
    case Tag(t, rest) => t == tag || HasTag(rest, tag)
    case Stmt(_, rest) => HasTag(rest, tag)
  }

  /** The statements after the first occurrence of a tag. */
  function After(items: Items, tag: Name): Items {
    match items
    case NoItems => NoItems
    case Tag(t, rest) => if t == tag then rest else After(rest, tag)
    case Stmt(_, rest) => After(rest, tag)
  }

  /** The pairs a LET adds to the environment: its first binding becomes the innermost. */
  function LetPairs(b: Binds, ws: seq<Word>): (e: Env)
  {
    match b
    case NoBinds => []
    case Binds(n, _, rest) => if ws == [] then [] else LetPairs(rest, ws[1..]) + [(n, ws[0])]
  }

  function Eval(rt: Runtime, x: Form, st: State, fuel: nat): Outcome
    decreases fuel, x
  {
    match x
    case Lit(w) => Val(w, st)
    case SymLit(w, _) => Val(w, st)
    case NilForm => Val(rt.nilWord, st)
    case Var(n) => ReadVar(st, n)
    case Setq(pairs) => EvalSetq(rt, pairs, rt.nilWord, st, fuel)
    case Progn(body) => EvalForms(rt, body, st, fuel)
    case If(test, thn) =>
      (match Eval(rt, test, st, fuel)
       case Val(w, st1) => if w != rt.nilWord then Eval(rt, thn, st1, fuel) else Val(rt.nilWord, st1)
       case out => out)
    case IfElse(test, thn, els) =>
      (match Eval(rt, test, st, fuel)
       case Val(w, st1) => if w != rt.nilWord then Eval(rt, thn, st1, fuel) else Eval(rt, els, st1, fuel)
       case out => out)
    case Let(binds, body) =>
      (match EvalInits(rt, binds, st, fuel)
       case InitExit(out) => out
       case Inits(ws, st1) =>
         Leave(EvalForms(rt, body, st1.(env := st1.env + LetPairs(binds, ws)), fuel), |st1.env|))
    case LetStar(chain) => EvalChain(rt, chain, st, fuel)
    case Block(name, body) =>
      (match EvalForms(rt, body, st, fuel)
       case Return(l, w, st1) => if l == name then Val(w, Truncate(st1, |st.env|)) else Return(l, w, st1)
       case out => out)
    case ReturnFrom(name, value) =>
      (match Eval(rt, value, st, fuel)
       case Val(w, st1) => Return(name, w, st1)
       case out => out)
    case Tagbody(items) => EvalItems(rt, items, items, |st.env|, st, fuel)
    case Go(tag) => Jump(tag, st)
    case ArithCall(_, arg1, arg2) => Eval2(rt, x, arg1, arg2, st, fuel)
    case NumEqual(arg1, arg2) => Eval2(rt, x, arg1, arg2, st, fuel)
    case Compare(_, arg1, arg2) => Eval2(rt, x, arg1, arg2, st, fuel)
    case Eq(arg1, arg2) => Eval2(rt, x, arg1, arg2, st, fuel)
    case Null(arg) =>
      (match Eval(rt, arg, st, fuel)
       case Val(w, st1) => Val(rt.Truth(w == rt.nilWord), st1)
       case out => out)
  }

  /** Both arguments, left to right, then the call. */
  function Eval2(rt: Runtime, x: Form, arg1: Form, arg2: Form, st: State, fuel: nat): Outcome
    requires x.ArithCall? || x.NumEqual? || x.Compare? || x.Eq?
    requires arg1 < x && arg2 < x
    decreases fuel, x, 0
  {
    match Eval(rt, arg1, st, fuel)
    case Val(a, st1) =>
      (match Eval(rt, arg2, st1, fuel)
       case Val(b, st2) => CallOutcome(rt, x, a, b, st2)
       case out => out)
    case out => out
  }

  /** A normal outcome drops the bindings past the first n; an exit keeps them for its target to drop. */
  function Leave(out: Outcome, n: nat): Outcome {
    match out case Val(w, st) => Val(w, Truncate(st, n)) case _ => out
  }

  function EvalForms(rt: Runtime, body: Forms, st: State, fuel: nat): Outcome
    decreases fuel, body
  {
    match body
    case NoForms => Val(rt.nilWord, st)
    case Forms(x, rest) =>
      if rest.NoForms? then Eval(rt, x, st, fuel)
      else
        match Eval(rt, x, st, fuel)
        case Val(_, st1) => EvalForms(rt, rest, st1, fuel)
        case out => out
  }

  function EvalSetq(rt: Runtime, pairs: Binds, last: Word, st: State, fuel: nat): Outcome
    decreases fuel, pairs
  {
    match pairs
    case NoBinds => Val(last, st)
    case Binds(n, x, rest) =>
      match Eval(rt, x, st, fuel)
      case Val(w, st1) => EvalSetq(rt, rest, w, WriteVar(st1, n, w), fuel)
      case out => out
  }

  /** LET's initial values, all in the outer environment. */
  function EvalInits(rt: Runtime, b: Binds, st: State, fuel: nat): (r: InitOutcome)
    ensures r.InitExit? ==> !r.out.Val?
    decreases fuel, b
  {
    match b
    case NoBinds => Inits([], st)
    case Binds(_, x, rest) =>
      match Eval(rt, x, st, fuel)
      case Val(w, st1) =>
        (match EvalInits(rt, rest, st1, fuel)
         case Inits(ws, st2) => Inits([w] + ws, st2)
         case out => out)
      case out => InitExit(out)
  }

  /** LET*: each initial value sees the bindings before it. */
  function EvalChain(rt: Runtime, b: Chain, st: State, fuel: nat): Outcome
    decreases fuel, b
  {
    match b
    case Body(body) => EvalForms(rt, body, st, fuel)
    case Bind(n, x, rest) =>
      match Eval(rt, x, st, fuel)
      case Val(w, st1) => Leave(EvalChain(rt, rest, st1.(env := st1.env + [(n, w)]), fuel), |st1.env|)
      case out => out
  }

  /** The statements in rest, in a tagbody whose items are all; depth is the tagbody's environment size. */
  function EvalItems(rt: Runtime, all: Items, rest: Items, depth: nat, st: State, fuel: nat): Outcome
    decreases fuel, rest
  {
    match rest
    case NoItems => Val(rt.nilWord, st)
    case Tag(_, more) => EvalItems(rt, all, more, depth, st, fuel)
    case Stmt(x, more) =>
      match Eval(rt, x, st, fuel)
      case Val(_, st1) => EvalItems(rt, all, more, depth, st1, fuel)
      case Jump(tag, st1) =>
        if !HasTag(all, tag) then Jump(tag, st1)
        else if fuel == 0 then Diverge
        else EvalItems(rt, all, After(all, tag), depth, Truncate(st1, depth), fuel - 1)
      case out => out
  }
}
