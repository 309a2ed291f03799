/** Emitting code in stages: what the compiler's methods have done after each part of a form. */
module Stages {
  import opened Words
  import opened X86
  import opened Runtime
  import opened Machine
  import opened Lisp
  import opened CodeGen
  import opened Tails
  import opened Layout
  import opened Calls
  import opened Exits
  import opened Parts
  import opened Encoding
  import opened Fitting
  import opened Assembler
  import opened Patching

  /** How an assembler macro moves the stack index. */
  function StackEffect(i: Instr): int {
    match i
    case Push(_) => 4
    case PushMem(_, _) => 4
    case PushImm(_) => 4
    case Pop(_) => -4
    case AddEsp(n) => -n
    case _ => 0
  }

  /** One list of waiting branches per tag. */
  predicate WellFormed(cl: seq<Cleanup>) {
    forall i :: 0 <= i < |cl| && cl[i].TagsCleanup? ==> |cl[i].tags| == |cl[i].waiting|
  }

  /** q is p after code c, with q's own stack index and frame size. */
  ghost predicate Grew(p: Progress, c: Code, q: Progress) {
    q == Emitted(p, c, q.si, q.env)
  }

  ghost predicate GrewTo(p: Progress, c: Code, cx: Context, q: Progress) {
    q == Emitted(p, c, cx.si, cx.env)
  }

  lemma Grow(p: Progress, a: Code, q: Progress, b: Code, r: Progress, check: bool)
    requires Grew(p, a, q) && Grew(q, b, r)
    ensures Grew(p, a + b, r) && |q.code| == |p.code| + Size(a) && |r.code| == |q.code| + Size(b)
    ensures ContextOf(r, check) == ContextOf(p, check).(si := r.si, env := r.env)
    ensures ContextOf(q, check) == ContextOf(p, check).(si := q.si, env := q.env)
  {
    hide BytesOf, RefsOf, AddBranches, Size, Emitted, ContextOf;
    EmittedTwice(p, a, q.si, q.env, b, r.si, r.env);
    EmittedTwice(q, b, r.si, r.env, [], r.si, r.env);
    EmittedContext(p, a + b, r.si, r.env, check);
    EmittedContext(p, a, q.si, q.env, check);
  }

  lemma GrewNothing(p: Progress)
    ensures Grew(p, [], p)
  {
    EmittedNothing(p);
  }

  lemma StillWellFormed(p: Progress, c: Code, q: Progress)
    requires Grew(p, c, q) && WellFormed(p.cleanups)
    ensures WellFormed(q.cleanups)
  {
    hide AddBranches, WellFormed;
    BranchesWellFormed(p.cleanups, c, |p.code|);
  }

  lemma {:induction false} BranchesWellFormed(cl: seq<Cleanup>, c: Code, pos: int)
    requires WellFormed(cl)
    ensures WellFormed(AddBranches(cl, c, pos))
    decreases c
  {
    hide Encode, WellFormed, AddItem;
    if c != [] {
      ItemWellFormed(cl, c[0], pos);
      BranchesWellFormed(AddItem(cl, c[0], pos), c[1..], pos + Len(c[0]));
    }
  }

  lemma ItemWellFormed(cl: seq<Cleanup>, it: Item, pos: int)
    requires WellFormed(cl)
    ensures WellFormed(AddItem(cl, it, pos))
  {
  }

  lemma PatchedAs(p: Progress, a: Code, it: Item, it': Item, b: Code, q: Progress, at: int, q': Progress)
    requires SameBranch(it, it') && Grew(p, a + [it] + b, q)
    requires at == |p.code| + Size(a) + Len(it) - |Displacement(it')| && 0 <= at && at + |Displacement(it')| <= |q.code|
    requires q' == q.(code := Patched(q.code, at, Displacement(it')))
    ensures Grew(p, a + [it'] + b, q') && Len(it) == Len(it')
  {
    hide Emitted, Patched, Displacement, SameBranch;
    EmittedPatch(p, a, it, it', b, q.si, q.env);
    PatchedBranch(it, it');
  }

  lemma BranchLens(cc: Cond, d: int)
    ensures Len(Plain(Jcc32(cc, d))) == 6 && Len(Plain(Jmp32(d))) == 5 && Len(Plain(Jcc8(cc, d))) == 2 && Len(Plain(Jmp8(d))) == 2
    ensures |Displacement(Plain(Jcc32(cc, d)))| == 4 && |Displacement(Plain(Jmp32(d)))| == 4
    ensures |Displacement(Plain(Jcc8(cc, d)))| == 1 && |Displacement(Plain(Jmp8(d)))| == 1
  {
  }

  /** GenGlobal without what follows for the destination. */
  function GenBound(rt: Runtime, n: Name): Code
    requires n in rt.vars
  {
    var u := UnboundCall(rt, rt.vars[n]);
    [I(Load(EAX, ESI, rt.vars[n].offset), VarRef(n)), Plain(Load(EAX, EAX, -4)), Plain(CmpImm(UNINITIALIZED)), Plain(Jcc32(NE, Size(u)))] + u
  }

  // ----- what compiling a form must have done -----

  ghost predicate FormDone(rt: Runtime, check: bool, p: Progress, x: Form, dest: Dest, q: Progress) {
    var cx := ContextOf(p, check);
    GrewTo(p, Gen(rt, x, dest, cx), Next(cx, x, dest), q)
  }

  function AfterForms(cx: Context, body: Forms, dest: Dest): Context {
    cx.(env := cx.env + 4 * SlotsForms(body),
        si := cx.si + (if dest == ToStack then 4 else 0) - 4 * CountForms(body, dest, StackGo))
  }

  ghost predicate FormsDone(rt: Runtime, check: bool, p: Progress, body: Forms, dest: Dest, q: Progress) {
    var cx := ContextOf(p, check);
    GrewTo(p, GenForms(rt, body, dest, cx), AfterForms(cx, body, dest), q)
  }

  function AfterSeq(cx: Context, body: Forms): Context {
    cx.(env := cx.env + 4 * SlotsForms(body), si := cx.si - 4 * CountSeq(body, StackGo))
  }

  function AfterSetq(cx: Context, b: Binds): Context {
    cx.(env := cx.env + 4 * SlotsSetq(b), si := cx.si - 4 * CountInits(b, StackGo))
  }

  /** Compiling a form after code a. */
  lemma GrowForm(rt: Runtime, check: bool, p: Progress, a: Code, q: Progress, x: Form, dest: Dest, r: Progress)
    requires Grew(p, a, q) && FormDone(rt, check, q, x, dest, r)
    ensures var cx := ContextOf(p, check).(si := q.si, env := q.env);
            && ContextOf(q, check) == cx
            && Grew(p, a + Gen(rt, x, dest, cx), r) && ContextOf(r, check) == Next(cx, x, dest)
            && |q.code| == |p.code| + Size(a) && |r.code| == |q.code| + Size(Gen(rt, x, dest, cx))
  {
    hide Emitted, Gen, ContextOf, Size, Slots, Count;
    EmittedContext(p, a, q.si, q.env, check);
    Grow(p, a, q, Gen(rt, x, dest, ContextOf(q, check)), r, check);
  }

  lemma UnfoldSeq(rt: Runtime, body: Forms, cx: Context)
    requires body.Forms?
    ensures var cx1 := Next(cx, body.head, ToEax);
            && GenSeq(rt, body, cx) == Gen(rt, body.head, ToEax, cx) + GenSeq(rt, body.tail, cx1)
            && AcceptsSeq(rt, body, cx) == (Accepts(rt, body.head, ToEax, cx) && AcceptsSeq(rt, body.tail, cx1))
            && AfterSeq(cx, body) == AfterSeq(cx1, body.tail)
            && TypedFixnumForms(body) == if body.tail.NoForms? then TypedFixnum(body.head) else TypedFixnumForms(body.tail)
  {
    hide Gen, Accepts, Slots, Count, TypedFixnum;
  }

  lemma UnfoldForms(rt: Runtime, body: Forms, dest: Dest, cx: Context)
    ensures body.NoForms? ==>
      && GenForms(rt, body, dest, cx) == GenNil(dest)
      && AfterForms(cx, body, dest) == cx.(si := cx.si + (if dest == ToStack then 4 else 0))
      && AcceptsForms(rt, body, dest, cx) && !TypedFixnumForms(body)
    ensures body.Forms? && body.tail.NoForms? ==>
      && GenForms(rt, body, dest, cx) == Gen(rt, body.head, dest, cx) && AfterForms(cx, body, dest) == Next(cx, body.head, dest)
      && AcceptsForms(rt, body, dest, cx) == Accepts(rt, body.head, dest, cx) && TypedFixnumForms(body) == TypedFixnum(body.head)
    ensures body.Forms? && !body.tail.NoForms? ==>
      && GenForms(rt, body, dest, cx) == GenSeq(rt, body, cx) + PushIfStack(dest)
      && AfterForms(cx, body, dest) == AfterSeq(cx, body).(si := AfterSeq(cx, body).si + (if dest == ToStack then 4 else 0))
      && AcceptsForms(rt, body, dest, cx) == AcceptsSeq(rt, body, cx)
  {
    hide Gen, GenSeq, Accepts, AcceptsSeq, Slots, Count, CountSeq, TypedFixnum, GenNil;
    if body.Forms? && body.tail.NoForms? {
      assert SlotsForms(body) == Slots(body.head) + SlotsForms(body.tail);
    }
  }

  lemma UnfoldSetqPair(rt: Runtime, b: Binds, cx: Context)
    requires b.Binds?
    ensures var cx1 := Next(cx, b.init, ToOperand);
            && GenSetq(rt, b, cx) == Gen(rt, b.init, ToOperand, cx) + GenAssign(rt, b.name, cx1) + GenSetq(rt, b.rest, cx1)
            && AcceptsSetq(rt, b, cx) == ((FindLet(cx1.recs, b.name) >= 0 || b.name in rt.vars) && Accepts(rt, b.init, ToOperand, cx) && AcceptsSetq(rt, b.rest, cx1))
            && AfterSetq(cx, b) == AfterSetq(cx1, b.rest)
            && TypedFixnumBinds(b) == if b.rest.NoBinds? then TypedFixnum(b.init) else TypedFixnumBinds(b.rest)
  {
    hide Gen, Accepts, Slots, Count, TypedFixnum, FindLet;
  }

  lemma EndedSeq(rt: Runtime, rest: Forms, cx: Context)
    requires rest.NoForms?
    ensures GenSeq(rt, rest, cx) == [] && AcceptsSeq(rt, rest, cx) && AfterSeq(cx, rest) == cx
  {
    hide Gen, Accepts, Count, Slots;
  }

  /** The part of a sequence that is compiled, done, and the part that is not, rest, make up the whole. */
  ghost predicate SeqSoFar(rt: Runtime, check: bool, p: Progress, body: Forms, done: Code, rest: Forms, q: Progress, fixnum: bool) {
    var cx, here := ContextOf(p, check), ContextOf(q, check);
    && Grew(p, done, q)
    && done + GenSeq(rt, rest, here) == GenSeq(rt, body, cx)
    && AcceptsSeq(rt, rest, here) == AcceptsSeq(rt, body, cx)
    && AfterSeq(here, rest) == AfterSeq(cx, body)
    && if rest.Forms? then TypedFixnumForms(rest) == TypedFixnumForms(body) else fixnum == TypedFixnumForms(body)
  }

  lemma SeqStart(rt: Runtime, check: bool, p: Progress, body: Forms)
    requires body.Forms?
    ensures SeqSoFar(rt, check, p, body, [], body, p, false)
  {
    hide GenSeq, AcceptsSeq, AfterSeq, TypedFixnumForms, Emitted;
    GrewNothing(p);
  }

  lemma SeqStep(rt: Runtime, check: bool, p: Progress, body: Forms, done: Code, rest: Forms, q: Progress, r: Progress, was: bool, fixnum: bool)
    requires rest.Forms? && SeqSoFar(rt, check, p, body, done, rest, q, was)
    requires FormDone(rt, check, q, rest.head, ToEax, r) && Accepts(rt, rest.head, ToEax, ContextOf(q, check)) && fixnum == TypedFixnum(rest.head)
    ensures SeqSoFar(rt, check, p, body, done + Gen(rt, rest.head, ToEax, ContextOf(q, check)), rest.tail, r, fixnum)
  {
    hide GenSeq, Gen, AcceptsSeq, AfterSeq, TypedFixnumForms, Emitted, Next, ContextOf, FormDone, Accepts, TypedFixnum, Grew;
    var here, next := ContextOf(q, check), ContextOf(r, check);
    GrowForm(rt, check, p, done, q, rest.head, ToEax, r);
    UnfoldSeq(rt, rest, here);
    Joined(done, Gen(rt, rest.head, ToEax, here), GenSeq(rt, rest.tail, next));
  }

  lemma SeqReject(rt: Runtime, check: bool, p: Progress, body: Forms, done: Code, rest: Forms, q: Progress, was: bool)
    requires rest.Forms? && SeqSoFar(rt, check, p, body, done, rest, q, was)
    requires !Accepts(rt, rest.head, ToEax, ContextOf(q, check))
    ensures !AcceptsSeq(rt, body, ContextOf(p, check))
  {
    hide GenSeq, Gen, AcceptsSeq, AfterSeq, TypedFixnumForms, Emitted, Next, ContextOf, Accepts, TypedFixnum, Grew;
    UnfoldSeq(rt, rest, ContextOf(q, check));
  }

  lemma SeqEnd(rt: Runtime, check: bool, p: Progress, body: Forms, done: Code, rest: Forms, q: Progress, fixnum: bool)
    requires rest.NoForms? && SeqSoFar(rt, check, p, body, done, rest, q, fixnum)
    ensures AcceptsSeq(rt, body, ContextOf(p, check)) && fixnum == TypedFixnumForms(body)
    ensures GrewTo(p, GenSeq(rt, body, ContextOf(p, check)), AfterSeq(ContextOf(p, check), body), q)
  {
    hide GenSeq, AcceptsSeq, AfterSeq, TypedFixnumForms, Emitted;
    EndedSeq(rt, rest, ContextOf(q, check));
    assert done + [] == done;
  }

  lemma FormIsForms(rt: Runtime, check: bool, p: Progress, body: Forms, dest: Dest, q: Progress)
    requires body.Forms? && body.tail.NoForms?
    ensures FormDone(rt, check, p, body.head, dest, q) == FormsDone(rt, check, p, body, dest, q)
  {
    hide Gen, GenForms, AfterForms, Next, ContextOf, Emitted;
    UnfoldForms(rt, body, dest, ContextOf(p, check));
  }

  lemma Joined(a: Code, b: Code, c: Code)
    ensures (a + b) + c == a + (b + c)
  {
  }

  // ----- SETQ -----

  lemma EndedSetq(rt: Runtime, rest: Binds, cx: Context)
    requires rest.NoBinds?
    ensures GenSetq(rt, rest, cx) == [] && AcceptsSetq(rt, rest, cx) && AfterSetq(cx, rest) == cx
  {
    hide Gen, Accepts, Count, Slots;
  }

  ghost predicate SetqSoFar(rt: Runtime, check: bool, p: Progress, pairs: Binds, done: Code, rest: Binds, q: Progress, fixnum: bool) {
    var cx, here := ContextOf(p, check), ContextOf(q, check);
    && Grew(p, done, q)
    && done + GenSetq(rt, rest, here) == GenSetq(rt, pairs, cx)
    && AcceptsSetq(rt, rest, here) == AcceptsSetq(rt, pairs, cx)
    && AfterSetq(here, rest) == AfterSetq(cx, pairs)
    && if rest.Binds? then TypedFixnumBinds(rest) == TypedFixnumBinds(pairs) else fixnum == TypedFixnumBinds(pairs)
  }

  lemma SetqStart(rt: Runtime, check: bool, p: Progress, pairs: Binds)
    requires pairs.Binds?
    ensures SetqSoFar(rt, check, p, pairs, [], pairs, p, false)
  {
    hide GenSetq, AcceptsSetq, AfterSetq, TypedFixnumBinds, Emitted;
    GrewNothing(p);
  }

  /** The code of one pair, compiled in cx. */
  ghost function PairCode(rt: Runtime, b: Binds, cx: Context): Code
    requires b.Binds?
  {
    Gen(rt, b.init, ToOperand, cx) + GenAssign(rt, b.name, Next(cx, b.init, ToOperand))
  }

  lemma SetqStep(rt: Runtime, check: bool, p: Progress, pairs: Binds, done: Code, rest: Binds, q: Progress, r: Progress, r2: Progress, was: bool, fixnum: bool)
    requires rest.Binds? && SetqSoFar(rt, check, p, pairs, done, rest, q, was)
    requires FormDone(rt, check, q, rest.init, ToOperand, r) && Accepts(rt, rest.init, ToOperand, ContextOf(q, check)) && fixnum == TypedFixnum(rest.init)
    requires r2 == Emitted(r, GenAssign(rt, rest.name, ContextOf(r, check)), r.si, r.env)
    requires FindLet(ContextOf(r, check).recs, rest.name) >= 0 || rest.name in rt.vars
    ensures SetqSoFar(rt, check, p, pairs, done + PairCode(rt, rest, ContextOf(q, check)), rest.rest, r2, fixnum)
  {
    hide GenSetq, Gen, GenAssign, AcceptsSetq, AfterSetq, TypedFixnumBinds, Emitted, Next, ContextOf, FormDone, Accepts, TypedFixnum, FindLet, Size;
    var here, next := ContextOf(q, check), ContextOf(r, check);
    var g, a, more := Gen(rt, rest.init, ToOperand, here), GenAssign(rt, rest.name, next), GenSetq(rt, rest.rest, next);
    GrowForm(rt, check, p, done, q, rest.init, ToOperand, r);
    Grow(p, done + g, r, a, r2, check);
    UnfoldSetqPair(rt, rest, here);
    assert next == Next(here, rest.init, ToOperand);
    assert ContextOf(r2, check) == next;
    Joined(done, g, a);
    Joined(done, g + a, more);
  }

  lemma SetqReject(rt: Runtime, check: bool, p: Progress, pairs: Binds, done: Code, rest: Binds, q: Progress, was: bool)
    requires rest.Binds? && SetqSoFar(rt, check, p, pairs, done, rest, q, was)
    requires !Accepts(rt, rest.init, ToOperand, ContextOf(q, check)) || (FindLet(ContextOf(q, check).recs, rest.name) < 0 && rest.name !in rt.vars)
    ensures !AcceptsSetq(rt, pairs, ContextOf(p, check))
  {
    hide GenSetq, Gen, AcceptsSetq, AfterSetq, TypedFixnumBinds, Emitted, ContextOf, Accepts, TypedFixnum, Grew, FindLet, Slots, Count;
    UnfoldSetqPair(rt, rest, ContextOf(q, check));
  }

  lemma SetqEnd(rt: Runtime, check: bool, p: Progress, pairs: Binds, done: Code, rest: Binds, q: Progress, fixnum: bool)
    requires rest.NoBinds? && SetqSoFar(rt, check, p, pairs, done, rest, q, fixnum)
    ensures AcceptsSetq(rt, pairs, ContextOf(p, check)) && fixnum == TypedFixnumBinds(pairs)
    ensures GrewTo(p, GenSetq(rt, pairs, ContextOf(p, check)), AfterSetq(ContextOf(p, check), pairs), q)
  {
    hide GenSetq, AcceptsSetq, AfterSetq, TypedFixnumBinds, Emitted;
    EndedSetq(rt, rest, ContextOf(q, check));
    assert done + [] == done;
  }

  lemma SameRecsAfter(rt: Runtime, check: bool, p: Progress, x: Form, dest: Dest, q: Progress)
    requires FormDone(rt, check, p, x, dest, q)
    ensures ContextOf(q, check) == Next(ContextOf(p, check), x, dest) && ContextOf(q, check).recs == ContextOf(p, check).recs
  {
    hide Emitted, Gen, ContextOf, Size, Slots, Count;
    EmittedContext(p, Gen(rt, x, dest, ContextOf(p, check)), q.si, q.env, check);
  }

  // ----- whole forms from their parts -----

  lemma SetqDone(rt: Runtime, check: bool, p: Progress, x: Form, dest: Dest, q: Progress, r: Progress)
    requires x.Setq? && x.pairs.Binds?
    requires GrewTo(p, GenSetq(rt, x.pairs, ContextOf(p, check)), AfterSetq(ContextOf(p, check), x.pairs), q)
    requires r == Emitted(q, Target(dest), q.si + (if dest == ToStack then 4 else 0), q.env)
    ensures FormDone(rt, check, p, x, dest, r)
  {
    hide Emitted, Gen, GenSetq, ContextOf, SlotsSetq, CountInits, Slots, Count, Target, Size;
    UnfoldSetq(rt, x, dest, ContextOf(p, check));
    Grow(p, GenSetq(rt, x.pairs, ContextOf(p, check)), q, Target(dest), r, check);
  }

  lemma IfDone(rt: Runtime, check: bool, p: Progress, x: Form, dest: Dest, a: Code, thn: Code, q: Progress, r: Progress)
    requires x.If? && !x.test.NumEqual?
    requires var cx, dt := ContextOf(p, check), TestDest(x.test, false);
             a == Gen(rt, x.test, dt, cx) + TestCompare(x.test) && thn == Gen(rt, x.thn, ToEax, Next(cx, x.test, dt))
    requires var cx := ContextOf(p, check);
             GrewTo(p, a + [Plain(Jcc32(E, Size(thn)))] + thn, Next(Next(cx, x.test, TestDest(x.test, false)), x.thn, ToEax), q)
    requires r == Emitted(q, PushIfStack(dest), q.si + (if dest == ToStack then 4 else 0), q.env)
    ensures FormDone(rt, check, p, x, dest, r)
  {
    hide Emitted, Gen, ContextOf, Slots, Count, PushIfStack, TestDest, TestCompare, Size;
    UnfoldIf(rt, x, dest, ContextOf(p, check));
    NotStacked(x.test, false);
    Grow(p, a + [Plain(Jcc32(E, Size(thn)))] + thn, q, PushIfStack(dest), r, check);
  }

  /** The code and context of the else part; NIL for an IF on = without one. */
  ghost function ElseCode(rt: Runtime, x: Form, cx: Context): Code
    requires x.If? || x.IfElse?
  {
    if x.IfElse? then Gen(rt, x.els, ToEax, cx) else GenNil(ToEax)
  }

  ghost function AfterElse(x: Form, cx: Context): Context
    requires x.If? || x.IfElse?
  {
    if x.IfElse? then Next(cx, x.els, ToEax) else cx
  }

  lemma IfElseDone(rt: Runtime, check: bool, p: Progress, x: Form, dest: Dest, a: Code, thn: Code, els: Code, q: Progress, r: Progress)
    requires x.IfElse? || (x.If? && x.test.NumEqual?)
    requires var cx, dt := ContextOf(p, check), TestDest(x.test, true);
             var cx1 := Next(cx, x.test, dt);
             && a == Gen(rt, x.test, dt, cx) + TestCompare(x.test) && thn == Gen(rt, x.thn, ToEax, cx1)
             && els == ElseCode(rt, x, Next(cx1, x.thn, ToEax))
             && GrewTo(p, a + [Plain(Jcc32(TestCond(x.test), Size(thn) + 5))] + thn + [Plain(Jmp32(Size(els)))] + els, AfterElse(x, Next(cx1, x.thn, ToEax)), q)
    requires r == Emitted(q, PushIfStack(dest), q.si + (if dest == ToStack then 4 else 0), q.env)
    ensures FormDone(rt, check, p, x, dest, r)
  {
    hide Emitted, Gen, ContextOf, Slots, Count, PushIfStack, TestDest, TestCompare, Size, GenNil;
    if x.IfElse? {
      UnfoldIfElse(rt, x, dest, ContextOf(p, check));
    } else {
      UnfoldIf(rt, x, dest, ContextOf(p, check));
    }
    NotStacked(x.test, true);
    Grow(p, a + [Plain(Jcc32(TestCond(x.test), Size(thn) + 5))] + thn + [Plain(Jmp32(Size(els)))] + els, q, PushIfStack(dest), r, check);
  }

  lemma GrewContext(p: Progress, c: Code, q: Progress, check: bool)
    requires Grew(p, c, q)
    ensures ContextOf(q, check) == ContextOf(p, check).(si := q.si, env := q.env) && |q.code| == |p.code| + Size(c)
  {
    hide Emitted, ContextOf, Size;
    EmittedContext(p, c, q.si, q.env, check);
    EmittedTwice(p, c, q.si, q.env, [], q.si, q.env);
  }

  lemma FormGrew(rt: Runtime, check: bool, p: Progress, x: Form, dest: Dest, q: Progress)
    requires FormDone(rt, check, p, x, dest, q)
    ensures Grew(p, Gen(rt, x, dest, ContextOf(p, check)), q)
  {
    hide Emitted, Gen;
  }

  /** The jump over the else part, five bytes past the then part. */
  lemma JumpedOver(p: Progress, a: Code, cc: Cond, thn: Code, q: Progress, r: Progress, check: bool)
    requires Grew(p, a + [Plain(Jcc32(cc, 0))] + thn, q) && r == Emitted(q, [Plain(Jmp32(0))], q.si, q.env)
    ensures Grew(p, a + [Plain(Jcc32(cc, 0))] + thn + [Plain(Jmp32(0))], r) && ContextOf(r, check) == ContextOf(q, check)
    ensures |r.code| == |p.code| + Size(a + [Plain(Jcc32(cc, 0))]) + Size(thn) + 5
  {
    hide Emitted, ContextOf, Size, Encode, Len;
    var jump := [Plain(Jcc32(cc, 0))];
    Grow(p, a + jump + thn, q, [Plain(Jmp32(0))], r, check);
    SizeConcat(a + jump, thn);
    OneItem(Plain(Jmp32(0)));
    BranchLens(cc, 0);
    EmittedContext(q, [Plain(Jmp32(0))], q.si, q.env, check);
  }

  lemma ElsePlaced(p: Progress, a: Code, cc: Cond, thn: Code, els: Code, q: Progress, r: Progress, check: bool)
    requires Grew(p, a + [Plain(Jcc32(cc, 0))] + thn + [Plain(Jmp32(0))], q) && Grew(q, els, r)
    ensures Grew(p, a + [Plain(Jcc32(cc, 0))] + (thn + [Plain(Jmp32(0))] + els), r) && |r.code| == |q.code| + Size(els)
  {
    hide Emitted, ContextOf, Size;
    var jump, jump2 := [Plain(Jcc32(cc, 0))], [Plain(Jmp32(0))];
    Grow(p, a + jump + thn + jump2, q, els, r, check);
    assert a + jump + thn + jump2 + els == a + jump + (thn + jump2 + els);
  }

  /** The patched branch leaves the jump over the else part where it was. */
  lemma ElseFront(p: Progress, a: Code, cc: Cond, thn: Code, els: Code, q: Progress, check: bool)
    requires Grew(p, a + [Plain(Jcc32(cc, Size(thn) + 5))] + (thn + [Plain(Jmp32(0))] + els), q)
    ensures var front := a + [Plain(Jcc32(cc, Size(thn) + 5))] + thn;
            && Grew(p, front + [Plain(Jmp32(0))] + els, q)
            && Size(front + [Plain(Jmp32(0))]) == Size(a + [Plain(Jcc32(cc, 0))]) + Size(thn) + 5
            && |q.code| == |p.code| + Size(front + [Plain(Jmp32(0))]) + Size(els)
  {
    hide Emitted, ContextOf, Size, Encode, Len;
    var j0, j1, jump2 := Plain(Jcc32(cc, 0)), Plain(Jcc32(cc, Size(thn) + 5)), Plain(Jmp32(0));
    assert a + [j1] + (thn + [jump2] + els) == a + [j1] + thn + [jump2] + els;
    GrewContext(p, a + [j1] + thn + [jump2] + els, q, check);
    SizeConcat(a, [j0]);
    SizeConcat(a, [j1]);
    SizeConcat(a + [j1], thn);
    SizeConcat(a + [j1] + thn, [jump2]);
    SizeConcat(a + [j1] + thn + [jump2], els);
    OneItem(j0);
    OneItem(j1);
    OneItem(jump2);
    BranchLens(cc, 0);
    BranchLens(cc, Size(thn) + 5);
  }

  // ----- LET and LET* -----

  function AfterInits(cx: Context, b: Binds): Context {
    cx.(env := cx.env + 4 * SlotsInits(b), si := cx.si - 4 * CountInits(b, StackGo))
  }

  /** The code of one binding: its initial value, and the store into its slot. */
  ghost function InitCode(rt: Runtime, x: Form, cx: Context): Code {
    Gen(rt, x, ToOperand, cx.(env := cx.env + 4)) + [Plain(Store(EBP, SlotOffset(cx.env)))]
  }

  lemma UnfoldInit(rt: Runtime, b: Binds, cx: Context)
    requires b.Binds?
    ensures var cx1 := Next(cx.(env := cx.env + 4), b.init, ToOperand);
            && GenInits(rt, b, cx) == InitCode(rt, b.init, cx) + GenInits(rt, b.rest, cx1)
            && AcceptsInits(rt, b, cx) == (Accepts(rt, b.init, ToOperand, cx.(env := cx.env + 4)) && AcceptsInits(rt, b.rest, cx1))
            && AfterInits(cx, b) == AfterInits(cx1, b.rest)
            && LetRecs(b, cx.env) == LetRecs(b.rest, cx1.env) + [LetRec(b.name, SlotOffset(cx.env))]
  {
    hide Gen, Accepts, Slots, Count;
  }

  lemma EndedInits(rt: Runtime, rest: Binds, cx: Context)
    requires rest.NoBinds?
    ensures GenInits(rt, rest, cx) == [] && AcceptsInits(rt, rest, cx) && AfterInits(cx, rest) == cx && LetRecs(rest, cx.env) == []
  {
    hide Gen, Accepts, Count, Slots;
  }

  ghost predicate InitsSoFar(rt: Runtime, check: bool, p: Progress, binds: Binds, done: Code, locals: seq<Cleanup>, rest: Binds, q: Progress) {
    var cx, here := ContextOf(p, check), ContextOf(q, check);
    && Grew(p, done, q)
    && done + GenInits(rt, rest, here) == GenInits(rt, binds, cx)
    && AcceptsInits(rt, rest, here) == AcceptsInits(rt, binds, cx)
    && AfterInits(here, rest) == AfterInits(cx, binds)
    && LetRecs(rest, here.env) + RecsOf(locals) == LetRecs(binds, cx.env)
    && OnlyLets(locals)
  }

  predicate OnlyLets(cl: seq<Cleanup>) {
    forall i :: 0 <= i < |cl| ==> cl[i].LetCleanup?
  }

  lemma InitsStart(rt: Runtime, check: bool, p: Progress, binds: Binds)
    ensures InitsSoFar(rt, check, p, binds, [], [], binds, p)
  {
    hide GenInits, AcceptsInits, AfterInits, Emitted, LetRecs;
    GrewNothing(p);
  }

  /** The store after a form compiled with one more slot. */
  lemma InitDone(rt: Runtime, check: bool, p: Progress, a: Code, q: Progress, x: Form, r: Progress, r2: Progress)
    requires Grew(p, a, q) && FormDone(rt, check, q.(env := q.env + 4), x, ToOperand, r)
    requires r2 == Emitted(r, [Plain(Store(EBP, SlotOffset(q.env)))], r.si, r.env)
    ensures Grew(p, a + InitCode(rt, x, ContextOf(q, check)), r2)
    ensures ContextOf(r2, check) == Next(ContextOf(q, check).(env := q.env + 4), x, ToOperand)
  {
    hide Emitted, Gen, Next, FormDone, Size, SlotOffset, Encode;
    var here, wide, store := ContextOf(q, check), q.(env := q.env + 4), [Plain(Store(EBP, SlotOffset(q.env)))];
    Widened(p, a, q);
    GrowForm(rt, check, p, a, wide, x, ToOperand, r);
    var g := Gen(rt, x, ToOperand, here.(env := q.env + 4));
    Grow(p, a + g, r, store, r2, check);
    GrewContext(r, store, r2, check);
    Joined(a, g, store);
  }

  lemma Widened(p: Progress, a: Code, q: Progress)
    requires Grew(p, a, q)
    ensures Grew(p, a, q.(env := q.env + 4))
  {
    hide BytesOf, RefsOf, AddBranches;
  }

  lemma InitsStep(rt: Runtime, check: bool, p: Progress, binds: Binds, done: Code, locals: seq<Cleanup>, rest: Binds, q: Progress, r: Progress, r2: Progress)
    requires rest.Binds? && InitsSoFar(rt, check, p, binds, done, locals, rest, q)
    requires FormDone(rt, check, q.(env := q.env + 4), rest.init, ToOperand, r) && Accepts(rt, rest.init, ToOperand, ContextOf(q, check).(env := q.env + 4))
    requires r2 == Emitted(r, [Plain(Store(EBP, SlotOffset(q.env)))], r.si, r.env)
    ensures InitsSoFar(rt, check, p, binds, done + InitCode(rt, rest.init, ContextOf(q, check)), [LetCleanup(rest.name, SlotOffset(q.env))] + locals, rest.rest, r2)
  {
    hide GenInits, Gen, AcceptsInits, AfterInits, Emitted, Next, ContextOf, FormDone, Accepts, Grew, LetRecs, SlotOffset, InitCode;
    var here, next := ContextOf(q, check), ContextOf(r2, check);
    InitDone(rt, check, p, done, q, rest.init, r, r2);
    UnfoldInit(rt, rest, here);
    Joined(done, InitCode(rt, rest.init, here), GenInits(rt, rest.rest, next));
    var one := LetCleanup(rest.name, SlotOffset(q.env));
    assert RecsOf([one] + locals) == [RecOf(one)] + RecsOf(locals);
    assert LetRecs(rest.rest, next.env) + [RecOf(one)] + RecsOf(locals) == LetRecs(rest.rest, next.env) + ([RecOf(one)] + RecsOf(locals));
  }

  lemma InitsReject(rt: Runtime, check: bool, p: Progress, binds: Binds, done: Code, locals: seq<Cleanup>, rest: Binds, q: Progress)
    requires rest.Binds? && InitsSoFar(rt, check, p, binds, done, locals, rest, q)
    requires !Accepts(rt, rest.init, ToOperand, ContextOf(q, check).(env := q.env + 4))
    ensures !AcceptsInits(rt, binds, ContextOf(p, check))
  {
    hide GenInits, Gen, AcceptsInits, AfterInits, Emitted, Next, ContextOf, Accepts, Grew, LetRecs, SlotOffset, InitCode;
    UnfoldInit(rt, rest, ContextOf(q, check));
  }

  lemma InitsEnd(rt: Runtime, check: bool, p: Progress, binds: Binds, done: Code, locals: seq<Cleanup>, rest: Binds, q: Progress)
    requires rest.NoBinds? && InitsSoFar(rt, check, p, binds, done, locals, rest, q)
    ensures AcceptsInits(rt, binds, ContextOf(p, check))
    ensures GrewTo(p, GenInits(rt, binds, ContextOf(p, check)), AfterInits(ContextOf(p, check), binds), q)
    ensures RecsOf(locals) == LetRecs(binds, p.env) && OnlyLets(locals)
  {
    hide GenInits, AcceptsInits, AfterInits, Emitted, LetRecs;
    EndedInits(rt, rest, ContextOf(q, check));
    assert done + [] == done;
  }

  /** The records from the n-th on are gone. */
  ghost function Trim(q: Progress, n: nat): Progress
    requires n <= |q.cleanups|
  {
    q.(cleanups := q.cleanups[..n])
  }

  lemma {:induction false} LetsHoldNothing(cl: seq<Cleanup>, lets: seq<Cleanup>, c: Code, pos: int)
    requires OnlyLets(lets)
    ensures AddBranches(cl + lets, c, pos) == AddBranches(cl, c, pos) + lets
    decreases c
  {
    hide Encode;
    if c != [] {
      assert AddItem(cl + lets, c[0], pos) == AddItem(cl, c[0], pos) + lets;
      LetsHoldNothing(AddItem(cl, c[0], pos), lets, c[1..], pos + Len(c[0]));
    }
  }

  /** Code compiled inside LET records is the same code once they are popped. */
  lemma TrimLets(q: Progress, c: Code, r: Progress, n: nat)
    requires Grew(q, c, r) && n <= |q.cleanups| && OnlyLets(q.cleanups[n..])
    ensures |r.cleanups| == |q.cleanups| && r.cleanups[n..] == q.cleanups[n..]
    ensures Grew(Trim(q, n), c, Trim(r, n))
  {
    hide BytesOf, RefsOf, AddBranches;
    var cl, lets := q.cleanups[..n], q.cleanups[n..];
    assert q.cleanups == cl + lets;
    LetsHoldNothing(cl, lets, c, |q.code|);
  }

  lemma RecsConcat(a: seq<Cleanup>, b: seq<Cleanup>)
    ensures RecsOf(a + b) == RecsOf(a) + RecsOf(b)
  {
  }

  /** LET after its initial values: the records pushed, the body compiled, the records popped. */
  lemma LetDone(rt: Runtime, check: bool, p: Progress, x: Form, dest: Dest, q: Progress, locals: seq<Cleanup>, r: Progress, s: Progress)
    requires x.Let?
    requires GrewTo(p, GenInits(rt, x.binds, ContextOf(p, check)), AfterInits(ContextOf(p, check), x.binds), q)
    requires RecsOf(locals) == LetRecs(x.binds, p.env) && OnlyLets(locals)
    requires FormsDone(rt, check, q.(cleanups := q.cleanups + locals), x.body, ToEax, r)
    requires s == Emitted(r, PushIfStack(dest), r.si + (if dest == ToStack then 4 else 0), r.env)
    ensures |s.cleanups| == |p.cleanups| + |locals| && FormDone(rt, check, p, x, dest, Trim(s, |p.cleanups|))
  {
    hide Emitted, Gen, GenInits, GenForms, LetRecs, Slots, Count, SlotsInits, CountInits, SlotsForms, CountForms, PushIfStack, Size, OnlyLets, RecsOf;
    var n, g := |p.cleanups|, GenInits(rt, x.binds, ContextOf(p, check));
    UnfoldLet(rt, x, dest, ContextOf(p, check));
    GrewContext(p, g, q, check);
    LetInner(check, p, x, q, locals);
    var inner := q.(cleanups := q.cleanups + locals);
    assert inner.cleanups[n..] == locals && inner.cleanups[..n] == q.cleanups;
    var b := GenForms(rt, x.body, ToEax, LetContext(ContextOf(p, check), x.binds));
    Grow(inner, b, r, PushIfStack(dest), s, check);
    TrimLets(inner, b + PushIfStack(dest), s, n);
    assert Trim(inner, n) == q;
    Grow(p, g, q, b + PushIfStack(dest), Trim(s, n), check);
    Joined(g, b, PushIfStack(dest));
  }

  lemma LetInner(check: bool, p: Progress, x: Form, q: Progress, locals: seq<Cleanup>)
    requires x.Let? && ContextOf(q, check) == AfterInits(ContextOf(p, check), x.binds) && RecsOf(locals) == LetRecs(x.binds, p.env)
    ensures ContextOf(q.(cleanups := q.cleanups + locals), check) == LetContext(ContextOf(p, check), x.binds)
  {
    hide LetRecs, SlotsInits, CountInits, RecsOf;
    RecsConcat(q.cleanups, locals);
  }

  lemma UnfoldChain(rt: Runtime, b: Chain, cx: Context)
    ensures b.Bind? ==>
      var cx2 := BindContext(cx, b.name, b.init);
      && GenChain(rt, b, cx) == InitCode(rt, b.init, cx) + GenChain(rt, b.rest, cx2)
      && AcceptsChain(rt, b, cx) == (Accepts(rt, b.init, ToOperand, cx.(env := cx.env + 4)) && AcceptsChain(rt, b.rest, cx2))
      && cx2.env + 4 * SlotsChain(b.rest) == cx.env + 4 * SlotsChain(b)
      && cx2.si - 4 * CountChain(b.rest, StackGo) == cx.si - 4 * CountChain(b, StackGo)
      && TypedFixnumChain(b) == TypedFixnumChain(b.rest)
    ensures b.Body? ==>
      && GenChain(rt, b, cx) == GenForms(rt, b.body, ToEax, cx) && AcceptsChain(rt, b, cx) == AcceptsForms(rt, b.body, ToEax, cx)
      && SlotsChain(b) == SlotsForms(b.body) && CountChain(b, StackGo) == CountForms(b.body, ToEax, StackGo)
      && TypedFixnumChain(b) == TypedFixnumForms(b.body)
  {
    hide Gen, Accepts, Slots, Count, GenForms, AcceptsForms, SlotsForms, CountForms, TypedFixnumForms;
  }

  ghost predicate ChainSoFar(rt: Runtime, check: bool, p: Progress, chain: Chain, done: Code, rest: Chain, q: Progress) {
    var cx, here, n := ContextOf(p, check), ContextOf(q, check), |p.cleanups|;
    && n <= |q.cleanups| && OnlyLets(q.cleanups[n..])
    && Grew(p, done, Trim(q, n))
    && done + GenChain(rt, rest, here) == GenChain(rt, chain, cx)
    && AcceptsChain(rt, rest, here) == AcceptsChain(rt, chain, cx)
    && q.env + 4 * SlotsChain(rest) == p.env + 4 * SlotsChain(chain)
    && q.si - 4 * CountChain(rest, StackGo) == p.si - 4 * CountChain(chain, StackGo)
    && TypedFixnumChain(rest) == TypedFixnumChain(chain)
  }

  /** When only the body is left, it decides. */
  lemma ChainBody(rt: Runtime, check: bool, p: Progress, chain: Chain, done: Code, rest: Chain, q: Progress)
    requires ChainSoFar(rt, check, p, chain, done, rest, q) && rest.Body?
    ensures AcceptsChain(rt, chain, ContextOf(p, check)) == AcceptsForms(rt, rest.body, ToEax, ContextOf(q, check))
    ensures TypedFixnumChain(chain) == TypedFixnumForms(rest.body) && |p.cleanups| <= |q.cleanups|
  {
    hide ContextOf, Grew, GenChain, AcceptsChain, AcceptsForms, SlotsChain, CountChain, OnlyLets, TypedFixnumForms, TypedFixnumChain;
    UnfoldChain(rt, rest, ContextOf(q, check));
  }

  lemma ChainStart(rt: Runtime, check: bool, p: Progress, chain: Chain)
    ensures ChainSoFar(rt, check, p, chain, [], chain, p)
  {
    hide GenChain, AcceptsChain, SlotsChain, CountChain, TypedFixnumChain, Emitted;
    GrewNothing(p);
    assert p.cleanups[..|p.cleanups|] == p.cleanups;
  }

  lemma ChainStep(rt: Runtime, check: bool, p: Progress, chain: Chain, done: Code, rest: Chain, q: Progress, r: Progress, r2: Progress)
    requires rest.Bind? && ChainSoFar(rt, check, p, chain, done, rest, q)
    requires FormDone(rt, check, q.(env := q.env + 4), rest.init, ToOperand, r) && Accepts(rt, rest.init, ToOperand, ContextOf(q, check).(env := q.env + 4))
    requires r2 == Emitted(r, [Plain(Store(EBP, SlotOffset(q.env)))], r.si, r.env)
    ensures ChainSoFar(rt, check, p, chain, done + InitCode(rt, rest.init, ContextOf(q, check)), rest.rest,
                       r2.(cleanups := r2.cleanups + [LetCleanup(rest.name, SlotOffset(q.env))]))
  {
    hide GenChain, AcceptsChain, SlotsChain, CountChain, TypedFixnumChain, Emitted, Gen, Next, FormDone, Accepts, InitCode, Encode, Size, Grew, ContextOf,
         BindContext, SlotOffset, OnlyLets;
    var here, n, g := ContextOf(q, check), |p.cleanups|, InitCode(rt, rest.init, ContextOf(q, check));
    GrewNothing(q);
    InitDone(rt, check, q, [], q, rest.init, r, r2);
    assert [] + g == g;
    UnfoldChain(rt, rest, here);
    TrimLets(q, g, r2, n);
    Grow(p, done, Trim(q, n), g, Trim(r2, n), check);
    var r3 := r2.(cleanups := r2.cleanups + [LetCleanup(rest.name, SlotOffset(q.env))]);
    TrimOneMore(r2, LetCleanup(rest.name, SlotOffset(q.env)), n);
    BoundContext(check, q, rest.name, rest.init, r2);
    Joined(done, g, GenChain(rt, rest.rest, ContextOf(r3, check)));
  }

  lemma TrimOneMore(q: Progress, r: Cleanup, n: nat)
    requires n <= |q.cleanups| && OnlyLets(q.cleanups[n..]) && r.LetCleanup?
    ensures var q' := q.(cleanups := q.cleanups + [r]);
            n <= |q'.cleanups| && OnlyLets(q'.cleanups[n..]) && Trim(q', n) == Trim(q, n)
  {
  }

  lemma BoundContext(check: bool, q: Progress, name: Name, x: Form, r: Progress)
    requires ContextOf(r, check) == Next(ContextOf(q, check).(env := q.env + 4), x, ToOperand)
    ensures ContextOf(r.(cleanups := r.cleanups + [LetCleanup(name, SlotOffset(q.env))]), check) == BindContext(ContextOf(q, check), name, x)
  {
    hide Slots, Count, RecsOf, SlotOffset;
    var one := [LetCleanup(name, SlotOffset(q.env))];
    RecsConcat(r.cleanups, one);
    OneRec(one[0]);
  }

  lemma OneRec(r: Cleanup)
    ensures RecsOf([r]) == [RecOf(r)]
  {
  }

  lemma ChainReject(rt: Runtime, check: bool, p: Progress, chain: Chain, done: Code, rest: Chain, q: Progress)
    requires ChainSoFar(rt, check, p, chain, done, rest, q)
    requires if rest.Bind? then !Accepts(rt, rest.init, ToOperand, ContextOf(q, check).(env := q.env + 4))
             else !AcceptsForms(rt, rest.body, ToEax, ContextOf(q, check))
    ensures !AcceptsChain(rt, chain, ContextOf(p, check))
  {
    hide GenChain, AcceptsChain, SlotsChain, CountChain, TypedFixnumChain, Emitted, Gen, Next, Accepts, AcceptsForms, InitCode, Grew, ContextOf, BindContext;
    UnfoldChain(rt, rest, ContextOf(q, check));
  }

  /** LET* from its body on: the body compiled, the value pushed if it is to be, all records popped. */
  lemma LetStarDone(rt: Runtime, check: bool, p: Progress, x: Form, dest: Dest, done: Code, rest: Chain, q: Progress, r: Progress, s: Progress)
    requires x.LetStar? && rest.Body? && ChainSoFar(rt, check, p, x.chain, done, rest, q)
    requires FormsDone(rt, check, q, rest.body, ToEax, r) && AcceptsForms(rt, rest.body, ToEax, ContextOf(q, check))
    requires s == Emitted(r, PushIfStack(dest), r.si + (if dest == ToStack then 4 else 0), r.env)
    ensures |s.cleanups| == |q.cleanups| && FormDone(rt, check, p, x, dest, Trim(s, |p.cleanups|)) && Accepts(rt, x, dest, ContextOf(p, check))
  {
    hide GenChain, AcceptsChain, SlotsChain, CountChain, TypedFixnumChain, Emitted, Gen, Accepts, GenForms, AcceptsForms, SlotsForms, CountForms,
         Slots, Count, Grew, ContextOf, PushIfStack, OnlyLets, Size;
    var n, here := |p.cleanups|, ContextOf(q, check);
    var b := GenForms(rt, rest.body, ToEax, here);
    UnfoldLetStar(rt, x, dest, ContextOf(p, check));
    UnfoldChain(rt, rest, here);
    GrewIs(q, b, r);
    GrewIs(r, PushIfStack(dest), s);
    Grow(q, b, r, PushIfStack(dest), s, check);
    TrimLets(q, b + PushIfStack(dest), s, n);
    Grow(p, done, Trim(q, n), b + PushIfStack(dest), Trim(s, n), check);
    Joined(done, b, PushIfStack(dest));
    GrewIs2(p, Gen(rt, x, dest, ContextOf(p, check)), Trim(s, n));
  }

  lemma GrewIs(p: Progress, c: Code, q: Progress)
    requires q == Emitted(p, c, q.si, q.env)
    ensures Grew(p, c, q)
  {
    hide Emitted;
  }

  lemma GrewIs2(p: Progress, c: Code, q: Progress)
    requires Grew(p, c, q)
    ensures q == Emitted(p, c, q.si, q.env)
  {
    hide Emitted;
  }

  lemma EnvContext(q: Progress, check: bool)
    ensures ContextOf(q.(env := q.env + 4), check) == ContextOf(q, check).(env := q.env + 4)
  {
  }

  lemma LetsWellFormed(cl: seq<Cleanup>, lets: seq<Cleanup>)
    requires WellFormed(cl) && OnlyLets(lets)
    ensures WellFormed(cl + lets)
  {
  }
}
