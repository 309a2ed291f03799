/**
 The compiler as it runs: a code buffer, a stack index and a list of cleanup records that its
 methods change, branches emitted with a zero displacement and patched when their target is known.
 Every method is specified by the code of CodeGen.
 */
module Compiler {
  import opened Words
  import opened X86
  import opened Runtime
  import opened Machine
  import opened Lisp
  import opened CodeGen
  import opened Tails
  import opened Layout
  import opened Calls
  import opened Exits
  import opened Parts
  import opened Encoding
  import opened Fitting
  import opened Program
  import opened Assembler
  import opened Patching
  import opened Stages
  import opened Landings
  import opened Shorts
  import opened Predicates
  import opened References
  import opened Scoping
  import opened Opcodes

  /** The bytes of a whole program, and, when its operands are in reach, its references. */
  ghost predicate IsProgram(rt: Runtime, x: Form, check: bool, code: seq<Byte>, refs: seq<Ref>) {
    && Slots(x) < 0x1_0000_0000
    && code == BytesOf(ExpressionCode(rt, x, check))
    && (rt.Linked() && Bounded(rt, x, check) ==> refs == RefsOf(ExpressionCode(rt, x, check), 0))
  }

  class Compiler {
    const rt: Runtime
    const check: bool
    var code: seq<Byte>
    var refs: seq<Ref>
    var stackIndex: int
    var envSize: int
    var cleanups: seq<Cleanup>

    ghost function Now(): Progress
      reads this
    {
      Progress(code, refs, stackIndex, envSize, cleanups)
    }

    /** The context of the next form. */
    ghost function Here(): Context
      reads this
    {
      ContextOf(Now(), check)
    }

    constructor (rt: Runtime, check: bool)
      ensures this.rt == rt && this.check == check && Now() == Progress([], [], 0, 0, [])
    {
      this.rt, this.check := rt, check;
      code, refs, stackIndex, envSize, cleanups := [], [], 0, 0, [];
    }

    // ----- the code buffer -----

    /** An assembler macro: bytes, a table reference if there is one, and the stack index. */
    method Put(i: Instr, note: Note := NoNote)
      modifies this
      ensures Now() == Emitted(old(Now()), [I(i, note)], old(stackIndex) + StackEffect(i), old(envSize))
    {
      hide Encode;
      OneItem(I(i, note));
      refs := refs + RefOf(I(i, note), |code|);
      code := code + Encode(i);
      stackIndex := stackIndex + StackEffect(i);
      assert RefsOf([I(i, note)], |old(code)|) == RefOf(I(i, note), |old(code)|);
      assert AddBranches(old(cleanups), [I(i, note)], |old(code)|) == old(cleanups);
    }

    /** CBsetLong: a 32-bit displacement over the four bytes at index. */
    method SetLong(index: int, n: int)
      requires 0 <= index && index + 4 <= |code|
      modifies this`code
      ensures code == Patched(old(code), index, Long(n))
    {
      code := code[..index] + Long(n) + code[index + 4..];
    }

    /** CBsetByte: the low byte of a displacement. */
    method SetByte(index: int, n: int)
      requires 0 <= index < |code|
      modifies this`code
      ensures code == Patched(old(code), index, [Byte8(n)])
    {
      code := code[index := Byte8(n)];
    }

    /** SET_ARG_COUNT(1) or a push, as the destination asks. */
    method PutTarget(dest: Dest)
      modifies this
      ensures Now() == Emitted(old(Now()), Target(dest), old(stackIndex) + (if dest == ToStack then 4 else 0), old(envSize))
    {
      match dest
      case ToEax => Put(MovImm(ECX, 1));
      case ToStack => Put(Push(EAX));
      case _ => EmittedNothing(Now());
    }

    method PutPushIfStack(dest: Dest)
      modifies this
      ensures Now() == Emitted(old(Now()), PushIfStack(dest), old(stackIndex) + (if dest == ToStack then 4 else 0), old(envSize))
    {
      if dest == ToStack {
        Put(Push(EAX));
      } else {
        EmittedNothing(Now());
      }
    }

    // ----- constants and variables -----

    method CompileNil(dest: Dest)
      requires dest != ToZeroFlag
      modifies this
      ensures Now() == Emitted(old(Now()), GenNil(dest), old(stackIndex) + (if dest == ToStack then 4 else 0), old(envSize))
    {
      hide Emitted;
      if dest == ToStack {
        Put(PushMem(ESI, 0));
      } else {
        ghost var p := Now();
        Put(Load(EAX, ESI, 0));
        ghost var q := Now();
        if dest == ToEax {
          Put(MovImm(ECX, 1));
          EmittedTwice(p, [LoadNil()], q.si, q.env, CountIfEax(dest), stackIndex, envSize);
        } else {
          assert GenNil(dest) == [LoadNil()];
        }
      }
    }

    method CompileLiteral(w: Word, dest: Dest, note: Note)
      requires dest != ToZeroFlag
      requires note == NoNote || note == LiteralRef(w)
      modifies this
      ensures Now() == Emitted(old(Now()), if note == NoNote then GenLit(w, dest) else GenSym(w, dest),
                               old(stackIndex) + (if dest == ToStack then 4 else 0), old(envSize))
    {
      hide Emitted;
      if dest == ToStack {
        Put(PushImm(w), note);
      } else {
        ghost var p := Now();
        var load := if note == NoNote then MovObj(EAX, w) else MovImm(EAX, w);
        Put(load, note);
        ghost var q := Now();
        if dest == ToEax {
          Put(MovImm(ECX, 1));
          EmittedTwice(p, [I(load, note)], q.si, q.env, CountIfEax(dest), stackIndex, envSize);
        } else {
          assert [I(load, note)] + CountIfEax(dest) == [I(load, note)];
        }
      }
    }

    /** The search of compileLexicalEntity, from the innermost record outwards. */
    method FindVariable(n: Name) returns (k: int)
      ensures k == FindLet(RecsOf(cleanups), n)
    {
      k := |cleanups| - 1;
      assert RecsOf(cleanups)[..|cleanups|] == RecsOf(cleanups);
      while k >= 0
        invariant -1 <= k < |cleanups|
        invariant FindLet(RecsOf(cleanups), n) == FindLet(RecsOf(cleanups)[..k + 1], n)
      {
        ghost var front := RecsOf(cleanups)[..k + 1];
        assert front[|front| - 1] == RecOf(cleanups[k]) && front[..|front| - 1] == RecsOf(cleanups)[..k];
        if cleanups[k].LetCleanup? && cleanups[k].name == n {
          return;
        }
        k := k - 1;
      }
    }

    method CompileGlobal(n: Name, dest: Dest)
      requires n in rt.vars && dest != ToZeroFlag
      modifies this
      ensures Now() == Emitted(old(Now()), GenGlobal(rt, n, dest), old(stackIndex) + (if dest == ToStack then 4 else 0), old(envSize))
    {
      hide Emitted, Encode, Size, Target, ContextOf, UnboundCall;
      ghost var p := Now();
      CompileBound(n);
      ghost var q := Now();
      PutTarget(dest);
      Grow(p, GenBound(rt, n), q, Target(dest), Now(), check);
    }

    /** The value of a global, and the call taken when it has none. */
    method CompileBound(n: Name)
      requires n in rt.vars
      modifies this
      ensures Now() == Emitted(old(Now()), GenBound(rt, n), old(stackIndex), old(envSize))
    {
      hide Emitted, Encode, Size, Patched, Long, ContextOf, UnboundCall, Len;
      ghost var p := Now();
      var e := rt.vars[n];
      PutLoads(e, n);
      ghost var a := [I(Load(EAX, ESI, e.offset), VarRef(n)), Plain(Load(EAX, EAX, -4)), Plain(CmpImm(UNINITIALIZED))];
      ghost var q := Now();
      Put(Jcc32(NE, 0));
      ghost var jump := Plain(Jcc32(NE, 0));
      Grow(p, a, q, [jump], Now(), check);
      var addr1 := |code|;
      q := Now();
      PutUnbound(e);
      ghost var u := UnboundCall(rt, e);
      Grow(p, a + [jump], q, u, Now(), check);
      OneItem(jump);
      BranchLens(NE, 0);
      BranchLens(NE, Size(u));
      q := Now();
      SetLong(addr1 - 4, |code| - addr1);
      ghost var settled := Plain(Jcc32(NE, Size(u)));
      PatchedAs(p, a, jump, settled, u, q, addr1 - 4, Now());
      assert a + [settled] + u == GenBound(rt, n);
    }

    method PutLoads(e: VarEntry, n: Name)
      modifies this
      ensures Now() == Emitted(old(Now()), [I(Load(EAX, ESI, e.offset), VarRef(n)), Plain(Load(EAX, EAX, -4)), Plain(CmpImm(UNINITIALIZED))],
                               old(stackIndex), old(envSize))
    {
      hide Emitted, Encode, Size;
      ghost var p := Now();
      Put(Load(EAX, ESI, e.offset), VarRef(n));
      ghost var q := Now();
      Put(Load(EAX, EAX, -4));
      Grow(p, [I(Load(EAX, ESI, e.offset), VarRef(n))], q, [Plain(Load(EAX, EAX, -4))], Now(), check);
      q := Now();
      Put(CmpImm(UNINITIALIZED));
      ghost var a, b, c := I(Load(EAX, ESI, e.offset), VarRef(n)), Plain(Load(EAX, EAX, -4)), Plain(CmpImm(UNINITIALIZED));
      Grow(p, [a] + [b], q, [c], Now(), check);
      assert [a] + [b] + [c] == [a, b, c];
    }

    /** CALL_INDIRECT: a call through the jump table, recorded in its reference table. */
    method PutCall(r: Routine)
      modifies this
      ensures Now() == Emitted(old(Now()), [CallRoutine(rt, r)], old(stackIndex), old(envSize))
    {
      Put(Call(rt.slot(r)), JumpRef(r));
    }

    method PutUnbound(e: VarEntry)
      modifies this
      ensures Now() == Emitted(old(Now()), UnboundCall(rt, e), old(stackIndex), old(envSize))
    {
      hide Emitted, Encode, Size, CallRoutine, GenLit;
      ghost var p := Now();
      CompileLiteral(e.sym, ToStack, LiteralRef(e.sym));
      ghost var q := Now();
      Put(MovImm(ECX, 1));
      Grow(p, GenSym(e.sym, ToStack), q, [Plain(MovImm(ECX, 1))], Now(), check);
      q := Now();
      PutCall(UnboundVariable);
      Grow(p, GenSym(e.sym, ToStack) + [Plain(MovImm(ECX, 1))], q, [CallRoutine(rt, UnboundVariable)], Now(), check);
      q := Now();
      Put(AddEsp(4));
      Grow(p, GenSym(e.sym, ToStack) + [Plain(MovImm(ECX, 1))] + [CallRoutine(rt, UnboundVariable)], q, [Plain(AddEsp(4))], Now(), check);
      assert GenSym(e.sym, ToStack) + [Plain(MovImm(ECX, 1))] + [CallRoutine(rt, UnboundVariable)] + [Plain(AddEsp(4))] == UnboundCall(rt, e);
    }

    method CompileSymbol(n: Name, dest: Dest) returns (ok: bool)
      requires dest != ToZeroFlag
      modifies this
      ensures ok <==> FindLet(old(Here()).recs, n) >= 0 || n in rt.vars
      ensures ok ==> Now() == Emitted(old(Now()), GenVar(rt, n, dest, old(Here())), old(stackIndex) + (if dest == ToStack then 4 else 0), old(envSize))
    {
      hide Emitted, Encode, GenGlobal, FindLet;
      var k := FindVariable(n);
      ok := true;
      if k >= 0 {
        var offset := cleanups[k].offset;
        if dest == ToStack {
          Put(PushMem(EBP, offset));
        } else {
          ghost var p := Now();
          Put(Load(EAX, EBP, offset));
          ghost var q := Now();
          if dest == ToEax {
            Put(MovImm(ECX, 1));
            EmittedTwice(p, [Plain(Load(EAX, EBP, offset))], q.si, q.env, CountIfEax(dest), stackIndex, envSize);
          } else {
            assert [Plain(Load(EAX, EBP, offset))] + CountIfEax(dest) == [Plain(Load(EAX, EBP, offset))];
          }
        }
      } else if n in rt.vars {
        CompileGlobal(n, dest);
      } else {
        ok := false;
      }
    }

    /** The store of SETQ: into the frame, or into the binding cell. */
    method CompileAssign(n: Name) returns (ok: bool)
      modifies this
      ensures ok <==> FindLet(old(Here()).recs, n) >= 0 || n in rt.vars
      ensures ok ==> Now() == Emitted(old(Now()), GenAssign(rt, n, old(Here())), old(stackIndex), old(envSize))
    {
      hide Emitted, Encode, FindLet;
      var k := FindVariable(n);
      ok := true;
      if k >= 0 {
        Put(Store(EBP, cleanups[k].offset));
      } else if n in rt.vars {
        ghost var p := Now();
        var offset := rt.vars[n].offset;
        Put(Load(EDI, ESI, offset), VarRef(n));
        ghost var q := Now();
        Put(Store(EDI, -4));
        EmittedTwice(p, [I(Load(EDI, ESI, offset), VarRef(n))], q.si, q.env, [Plain(Store(EDI, -4))], stackIndex, envSize);
        assert [I(Load(EDI, ESI, offset), VarRef(n))] + [Plain(Store(EDI, -4))] == GenAssign(rt, n, old(Here()));
      } else {
        ok := false;
      }
    }

    // ----- sequences of forms -----

    method CompileProgn(body: Forms, dest: Dest) returns (ok: bool, fixnum: bool)
      requires WellFormed(cleanups) && dest != ToZeroFlag
      modifies this
      ensures ok <==> AcceptsForms(rt, body, dest, old(Here()))
      ensures ok ==> FormsDone(rt, check, old(Now()), body, dest, Now()) && WellFormed(cleanups) && fixnum == TypedFixnumForms(body)
      decreases body, 5
    {
      hide Emitted, Gen, GenSeq, GenForms, AcceptsForms, AcceptsSeq, AfterForms, AfterSeq, ContextOf, WellFormed, TypedFixnumForms, Next, GenNil, PushIfStack, FormDone;
      ghost var p, cx := Now(), Here();
      UnfoldForms(rt, body, dest, cx);
      GrewNothing(p);
      if body.NoForms? {
        CompileNil(dest);
        ok, fixnum := true, false;
        StillWellFormed(p, GenNil(dest), Now());
      } else if body.tail.NoForms? {
        ok, fixnum := CompileForm(body.head, dest);
        FormIsForms(rt, check, p, body, dest, Now());
      } else {
        ok, fixnum := CompileSequence(body);
        if ok {
          ghost var q := Now();
          PutPushIfStack(dest);
          Grow(p, GenSeq(rt, body, cx), q, PushIfStack(dest), Now(), check);
          StillWellFormed(p, GenForms(rt, body, dest, cx), Now());
        }
      }
    }

    /** The forms of a PROGN with several, each for EAX. */
    method CompileSequence(body: Forms) returns (ok: bool, fixnum: bool)
      requires WellFormed(cleanups) && body.Forms?
      modifies this
      ensures ok <==> AcceptsSeq(rt, body, old(Here()))
      ensures ok ==> GrewTo(old(Now()), GenSeq(rt, body, old(Here())), AfterSeq(old(Here()), body), Now()) && WellFormed(cleanups)
      ensures ok ==> fixnum == TypedFixnumForms(body)
      decreases body, 4
    {
      hide Emitted, Gen, GenSeq, AcceptsSeq, AfterSeq, ContextOf, WellFormed, TypedFixnumForms, Next, FormDone, Accepts, SeqSoFar, GrewTo;
      ghost var p, done: Code := Now(), [];
      SeqStart(rt, check, p, body);
      ok := true;
      fixnum := false;
      var rest := body;
      while rest.Forms?
        invariant rest == body || rest < body
        invariant ok && WellFormed(cleanups) && SeqSoFar(rt, check, p, body, done, rest, Now(), fixnum)
        decreases rest
      {
        ghost var q, was := Now(), fixnum;
        ok, fixnum := CompileForm(rest.head, ToEax);
        if !ok {
          SeqReject(rt, check, p, body, done, rest, q, was);
          return;
        }
        SeqStep(rt, check, p, body, done, rest, q, Now(), was, fixnum);
        done := done + Gen(rt, rest.head, ToEax, ContextOf(q, check));
        rest := rest.tail;
      }
      SeqEnd(rt, check, p, body, done, rest, Now(), fixnum);
    }

    method CompileSetq(pairs: Binds) returns (ok: bool, fixnum: bool)
      requires WellFormed(cleanups) && pairs.Binds?
      modifies this
      ensures ok <==> AcceptsSetq(rt, pairs, old(Here()))
      ensures ok ==> GrewTo(old(Now()), GenSetq(rt, pairs, old(Here())), AfterSetq(old(Here()), pairs), Now()) && WellFormed(cleanups)
      ensures ok ==> fixnum == TypedFixnumBinds(pairs)
      decreases pairs, 4
    {
      hide Emitted, Gen, GenSetq, GenAssign, AcceptsSetq, AfterSetq, ContextOf, WellFormed, TypedFixnumBinds, Next, FormDone, Accepts, SetqSoFar, GrewTo, FindLet;
      ghost var p, done: Code := Now(), [];
      SetqStart(rt, check, p, pairs);
      ok := true;
      fixnum := false;
      var rest := pairs;
      while rest.Binds?
        invariant rest == pairs || rest < pairs
        invariant ok && WellFormed(cleanups) && SetqSoFar(rt, check, p, pairs, done, rest, Now(), fixnum)
        decreases rest
      {
        ghost var q, was := Now(), fixnum;
        ok, fixnum := CompileForm(rest.init, ToOperand);
        if !ok {
          SetqReject(rt, check, p, pairs, done, rest, q, was);
          return;
        }
        ghost var r := Now();
        SameRecsAfter(rt, check, q, rest.init, ToOperand, r);
        ok := CompileAssign(rest.name);
        if !ok {
          SetqReject(rt, check, p, pairs, done, rest, q, was);
          return;
        }
        StillWellFormed(r, GenAssign(rt, rest.name, ContextOf(r, check)), Now());
        SetqStep(rt, check, p, pairs, done, rest, q, r, Now(), was, fixnum);
        done := done + PairCode(rt, rest, ContextOf(q, check));
        rest := rest.rest;
      }
      SetqEnd(rt, check, p, pairs, done, rest, Now(), fixnum);
    }

    // ----- IF -----

    /** The test, its comparison with NIL, and the branch around the then part. */
    method CompileTest(test: Form, hasElse: bool) returns (ok: bool)
      requires WellFormed(cleanups) && (test.NumEqual? ==> hasElse)
      modifies this
      ensures ok <==> Accepts(rt, test, TestDest(test, hasElse), old(Here()))
      ensures ok ==> WellFormed(cleanups)
      ensures ok ==> GrewTo(old(Now()), Gen(rt, test, TestDest(test, hasElse), old(Here())) + TestCompare(test) + [Plain(Jcc32(TestCond(test), 0))],
                            Next(old(Here()), test, TestDest(test, hasElse)), Now())
      decreases test, 11
    {
      hide Emitted, Gen, ContextOf, WellFormed, Accepts, Encode, Size, Slots, Count, TypedFixnum;
      ghost var p, cx := Now(), Here();
      var dt := if test.NumEqual? then ToZeroFlag else if hasElse then ToOperand else ToEax;
      var fixnum: bool;
      ok, fixnum := CompileForm(test, dt);
      if ok {
        ghost var g, q := Gen(rt, test, dt, cx), Now();
        if test.NumEqual? {
          Put(Jcc32(NE, 0));
          assert g + TestCompare(test) == g;
          Grow(p, g, q, [Plain(Jcc32(NE, 0))], Now(), check);
        } else {
          Put(CmpMem(ESI, 0));
          Grow(p, g, q, TestCompare(test), Now(), check);
          q := Now();
          Put(Jcc32(E, 0));
          Grow(p, g + TestCompare(test), q, [Plain(Jcc32(E, 0))], Now(), check);
        }
        StillWellFormed(p, g + TestCompare(test) + [Plain(Jcc32(TestCond(test), 0))], Now());
      }
    }

    /** IF with neither an else form nor a numeric test. */
    method CompileIfThen(x: Form, dest: Dest) returns (ok: bool)
      requires x.If? && !x.test.NumEqual? && WellFormed(cleanups) && dest != ToZeroFlag
      modifies this
      ensures ok <==> Accepts(rt, x, dest, old(Here()))
      ensures ok ==> FormDone(rt, check, old(Now()), x, dest, Now()) && WellFormed(cleanups)
      decreases x, 5
    {
      hide Emitted, Gen, ContextOf, WellFormed, Encode, Size, Slots, Count, TypedFixnum, TestDest, TestCompare, FormDone, PushIfStack, Long, Patched, Len;
      ghost var p, cx := Now(), Here();
      ghost var dt, jump := TestDest(x.test, false), Plain(Jcc32(E, 0));
      ghost var a, cx1 := Gen(rt, x.test, dt, cx) + TestCompare(x.test), Next(cx, x.test, dt);
      UnfoldIfAccepts(rt, x, dest, cx);
      ok := CompileTest(x.test, false);
      if !ok {
        return;
      }
      ghost var q := Now();
      GrewContext(p, a + [jump], q, check);
      var addr1 := |code|;
      var fixnum: bool;
      ok, fixnum := CompileForm(x.thn, ToEax);
      if !ok {
        return;
      }
      var addr2 := |code|;
      ghost var thn := Gen(rt, x.thn, ToEax, cx1);
      GrowForm(rt, check, p, a + [jump], q, x.thn, ToEax, Now());
      PatchLong(p, a, E, Size(thn), thn, addr1, addr2);
      q := Now();
      PutPushIfStack(dest);
      IfDone(rt, check, p, x, dest, a, thn, q, Now());
      FormGrew(rt, check, p, x, dest, Now());
      StillWellFormed(p, Gen(rt, x, dest, cx), Now());
    }

    /** Resolves a conditional branch: its displacement is the distance from addr to target. */
    method PatchLong(ghost p: Progress, ghost a: Code, ghost cc: Cond, ghost d: int, ghost b: Code, addr: int, target: int)
      requires Grew(p, a + [Plain(Jcc32(cc, 0))] + b, Now())
      requires addr == |p.code| + Size(a + [Plain(Jcc32(cc, 0))]) && d == target - addr
      modifies this`code
      ensures Grew(p, a + [Plain(Jcc32(cc, d))] + b, Now())
    {
      hide Emitted, Encode, Size, Patched, Long, Len, ContextOf;
      ghost var q, jump, settled := Now(), Plain(Jcc32(cc, 0)), Plain(Jcc32(cc, d));
      BranchLens(cc, 0);
      BranchLens(cc, d);
      SizeConcat(a, [jump]);
      OneItem(jump);
      GrewContext(p, a + [jump] + b, q, check);
      SizeConcat(a + [jump], b);
      SetLong(addr - 4, target - addr);
      PatchedAs(p, a, jump, settled, b, q, addr - 4, Now());
    }

    method PatchJump(ghost p: Progress, ghost a: Code, ghost d: int, ghost b: Code, addr: int, target: int)
      requires Grew(p, a + [Plain(Jmp32(0))] + b, Now())
      requires addr == |p.code| + Size(a + [Plain(Jmp32(0))]) && d == target - addr
      modifies this`code
      ensures Grew(p, a + [Plain(Jmp32(d))] + b, Now())
    {
      hide Emitted, Encode, Size, Patched, Long, Len, ContextOf;
      ghost var q, jump, settled := Now(), Plain(Jmp32(0)), Plain(Jmp32(d));
      BranchLens(E, 0);
      BranchLens(E, d);
      SizeConcat(a, [jump]);
      OneItem(jump);
      GrewContext(p, a + [jump] + b, q, check);
      SizeConcat(a + [jump], b);
      SetLong(addr - 4, target - addr);
      PatchedAs(p, a, jump, settled, b, q, addr - 4, Now());
    }

    /** The else form, or NIL for an IF on = without one. */
    method CompileElse(x: Form) returns (ok: bool)
      requires (x.If? || x.IfElse?) && WellFormed(cleanups)
      modifies this
      ensures ok <==> (x.IfElse? ==> Accepts(rt, x.els, ToEax, old(Here())))
      ensures ok ==> GrewTo(old(Now()), ElseCode(rt, x, old(Here())), AfterElse(x, old(Here())), Now()) && WellFormed(cleanups)
      decreases x, 4
    {
      hide Emitted, Gen, WellFormed, GenNil, Accepts, Next, TypedFixnum, ContextOf;
      var fixnum: bool;
      ok := true;
      if x.IfElse? {
        ok, fixnum := CompileForm(x.els, ToEax);
      } else {
        ghost var p := Now();
        CompileNil(ToEax);
        StillWellFormed(p, GenNil(ToEax), Now());
      }
    }

    method CompileIfElse(x: Form, dest: Dest) returns (ok: bool)
      requires (x.IfElse? || (x.If? && x.test.NumEqual?)) && WellFormed(cleanups) && dest != ToZeroFlag
      modifies this
      ensures ok <==> Accepts(rt, x, dest, old(Here()))
      ensures ok ==> FormDone(rt, check, old(Now()), x, dest, Now()) && WellFormed(cleanups)
      decreases x, 6
    {
      hide Emitted, Gen, ContextOf, WellFormed, Encode, Size, Slots, Count, TypedFixnum, TestDest, TestCompare, TestCond, FormDone, PushIfStack, Long, Patched, Len, ElseCode, AfterElse;
      ghost var p, cx := Now(), Here();
      ghost var dt, cc := TestDest(x.test, true), TestCond(x.test);
      ghost var a, cx1 := Gen(rt, x.test, dt, cx) + TestCompare(x.test), Next(cx, x.test, dt);
      UnfoldIfAccepts(rt, x, dest, cx);
      ok := CompileTest(x.test, true);
      if !ok {
        return;
      }
      ghost var jump, jump2 := Plain(Jcc32(cc, 0)), Plain(Jmp32(0));
      ghost var q := Now();
      GrewContext(p, a + [jump], q, check);
      var addr1 := |code|;
      var fixnum: bool;
      ok, fixnum := CompileForm(x.thn, ToEax);
      if !ok {
        return;
      }
      ghost var thn := Gen(rt, x.thn, ToEax, cx1);
      GrowForm(rt, check, p, a + [jump], q, x.thn, ToEax, Now());
      ok := CompileElsePart(x, dest, p, a, thn, addr1);
    }

    /** From the end of the then part: the jump over the else part, the else part, and both branches resolved. */
    method CompileElsePart(x: Form, dest: Dest, ghost p: Progress, ghost a: Code, ghost thn: Code, addr1: int) returns (ok: bool)
      requires (x.IfElse? || (x.If? && x.test.NumEqual?)) && WellFormed(cleanups) && dest != ToZeroFlag
      requires Grew(p, a + [Plain(Jcc32(TestCond(x.test), 0))] + thn, Now()) && addr1 == |p.code| + Size(a + [Plain(Jcc32(TestCond(x.test), 0))])
      requires var cx, dt := ContextOf(p, check), TestDest(x.test, true);
               var cx1 := Next(cx, x.test, dt);
               && a == Gen(rt, x.test, dt, cx) + TestCompare(x.test) && thn == Gen(rt, x.thn, ToEax, cx1)
               && Here() == Next(cx1, x.thn, ToEax)
      modifies this
      ensures ok <==> (x.IfElse? ==> Accepts(rt, x.els, ToEax, old(Here())))
      ensures ok ==> FormDone(rt, check, p, x, dest, Now()) && WellFormed(cleanups)
      decreases x, 5
    {
      hide Emitted, Gen, ContextOf, WellFormed, Encode, Size, Slots, Count, TypedFixnum, TestDest, TestCompare, TestCond, FormDone, PushIfStack, Long, Patched,
           Len, ElseCode, AfterElse, Next;
      ghost var cc, jump2, cx2 := TestCond(x.test), Plain(Jmp32(0)), Here();
      ghost var jump := Plain(Jcc32(cc, 0));
      ghost var q := Now();
      Put(Jmp32(0));
      var addr2 := |code|;
      JumpedOver(p, a, cc, thn, q, Now(), check);
      StillWellFormed(q, [jump2], Now());
      q := Now();
      ok := CompileElse(x);
      if !ok {
        return;
      }
      ghost var els := ElseCode(rt, x, cx2);
      ElsePlaced(p, a, cc, thn, els, q, Now(), check);
      PatchLong(p, a, cc, Size(thn) + 5, thn + [jump2] + els, addr1, addr2);
      ghost var front := a + [Plain(Jcc32(cc, Size(thn) + 5))] + thn;
      ElseFront(p, a, cc, thn, els, Now(), check);
      PatchJump(p, front, Size(els), els, addr2, |code|);
      q := Now();
      PutPushIfStack(dest);
      IfElseDone(rt, check, p, x, dest, a, thn, els, q, Now());
      StillWellFormed(q, PushIfStack(dest), Now());
    }

    // ----- LET and LET* -----

    /** CBincDynamicEnvSize: one more word in the frame; the offset of that word from EBP. */
    method AllocateSlot() returns (offset: int)
      modifies this`envSize
      ensures Now() == old(Now()).(env := old(envSize) + 4) && offset == SlotOffset(old(envSize))
    {
      envSize := envSize + 4;
      offset := -4 - envSize;
    }

    /** CBpopCleanup, n times. */
    method PopCleanups(n: nat)
      requires n <= |cleanups|
      modifies this`cleanups
      ensures cleanups == old(cleanups)[..|old(cleanups)| - n]
    {
      var i := 0;
      while i < n
        invariant 0 <= i <= n
        invariant cleanups == old(cleanups)[..|old(cleanups)| - i]
      {
        cleanups := cleanups[..|cleanups| - 1];
        i := i + 1;
      }
    }

    /** The initial values of LET, each stored into a new slot; the bindings found, latest first. */
    method CompileInits(binds: Binds) returns (ok: bool, locals: seq<Cleanup>)
      requires WellFormed(cleanups)
      modifies this
      ensures ok <==> AcceptsInits(rt, binds, old(Here()))
      ensures ok ==> GrewTo(old(Now()), GenInits(rt, binds, old(Here())), AfterInits(old(Here()), binds), Now()) && WellFormed(cleanups)
      ensures ok ==> RecsOf(locals) == LetRecs(binds, old(envSize)) && OnlyLets(locals)
      decreases binds, 4
    {
      hide Emitted, Gen, GenInits, AcceptsInits, AfterInits, ContextOf, WellFormed, Next, FormDone, Accepts, InitsSoFar, GrewTo, Encode, InitCode, LetRecs, RecsOf,
           OnlyLets, SlotOffset, TypedFixnum;
      ghost var p, done: Code := Now(), [];
      ok, locals := true, [];
      InitsStart(rt, check, p, binds);
      var rest := binds;
      while rest.Binds?
        invariant rest == binds || rest < binds
        invariant ok && WellFormed(cleanups) && InitsSoFar(rt, check, p, binds, done, locals, rest, Now())
        decreases rest
      {
        ghost var q := Now();
        var offset := AllocateSlot();
        var fixnum: bool;
        EnvContext(q, check);
        ok, fixnum := CompileForm(rest.init, ToOperand);
        if !ok {
          InitsReject(rt, check, p, binds, done, locals, rest, q);
          return;
        }
        ghost var r := Now();
        Put(Store(EBP, offset));
        StillWellFormed(r, [Plain(Store(EBP, offset))], Now());
        InitsStep(rt, check, p, binds, done, locals, rest, q, r, Now());
        done := done + InitCode(rt, rest.init, ContextOf(q, check));
        locals := [LetCleanup(rest.name, offset)] + locals;
        rest := rest.rest;
      }
      InitsEnd(rt, check, p, binds, done, locals, rest, Now());
    }

    /** Adds the bindings of a LET to the records, one CBaddStackVar each. */
    method AddLocals(locals: seq<Cleanup>)
      modifies this`cleanups
      ensures cleanups == old(cleanups) + locals
    {
      var i := 0;
      while i < |locals|
        invariant 0 <= i <= |locals|
        invariant cleanups == old(cleanups) + locals[..i]
      {
        cleanups := cleanups + [locals[i]];
        i := i + 1;
      }
    }

    method CompileLet(x: Form, dest: Dest) returns (ok: bool, fixnum: bool)
      requires x.Let? && WellFormed(cleanups) && dest != ToZeroFlag
      modifies this
      ensures ok <==> Accepts(rt, x, dest, old(Here()))
      ensures ok ==> FormDone(rt, check, old(Now()), x, dest, Now()) && WellFormed(cleanups) && fixnum == TypedFixnumForms(x.body)
      decreases x, 5
    {
      hide Emitted, Gen, GenInits, AcceptsInits, ContextOf, WellFormed, FormDone, FormsDone, Accepts, AcceptsForms, Encode, LetRecs, RecsOf, OnlyLets,
           TypedFixnumForms, PushIfStack, SlotsInits, CountInits, SlotsForms, CountForms, Slots, Count, GenForms, Next, LetContext, Size;
      ghost var p := Now();
      UnfoldLet(rt, x, dest, Here());
      fixnum := false;
      var locals: seq<Cleanup>;
      ok, locals := CompileInits(x.binds);
      if !ok {
        return;
      }
      ghost var q := Now();
      GrewContext(p, GenInits(rt, x.binds, ContextOf(p, check)), q, check);
      LetInner(check, p, x, q, locals);
      AddLocals(locals);
      LetsWellFormed(q.cleanups, locals);
      ok, fixnum := CompileProgn(x.body, ToEax);
      if !ok {
        return;
      }
      ghost var r := Now();
      PutPushIfStack(dest);
      ghost var s := Now();
      LetDone(rt, check, p, x, dest, q, locals, r, s);
      PopCleanups(|locals|);
      FormGrew(rt, check, p, x, dest, Now());
      StillWellFormed(p, Gen(rt, x, dest, ContextOf(p, check)), Now());
    }

    method CompileLetStar(x: Form, dest: Dest) returns (ok: bool, fixnum: bool)
      requires x.LetStar? && WellFormed(cleanups) && dest != ToZeroFlag
      modifies this
      ensures ok <==> Accepts(rt, x, dest, old(Here()))
      ensures ok ==> FormDone(rt, check, old(Now()), x, dest, Now()) && WellFormed(cleanups) && fixnum == TypedFixnumChain(x.chain)
      decreases x, 5
    {
      hide Emitted, Gen, GenChain, ContextOf, WellFormed, FormDone, FormsDone, Accepts, AcceptsForms, AcceptsChain, Encode, ChainSoFar, TypedFixnumForms,
           TypedFixnumChain, PushIfStack, SlotOffset, InitCode, TypedFixnum, Slots, Count, SlotsChain, CountChain, Next, Size;
      ghost var p, done: Code := Now(), [];
      ok, fixnum := true, false;
      ChainStart(rt, check, p, x.chain);
      UnfoldLetStar(rt, x, dest, ContextOf(p, check));
      var rest, numLocals := x.chain, 0;
      while rest.Bind?
        invariant rest == x.chain || rest < x.chain
        invariant ok && WellFormed(cleanups) && ChainSoFar(rt, check, p, x.chain, done, rest, Now())
        invariant 0 <= numLocals && |cleanups| == |p.cleanups| + numLocals
        decreases rest
      {
        ghost var q := Now();
        var offset := AllocateSlot();
        EnvContext(q, check);
        ok, fixnum := CompileForm(rest.init, ToOperand);
        if !ok {
          ChainReject(rt, check, p, x.chain, done, rest, q);
          return;
        }
        ghost var r := Now();
        FormGrew(rt, check, q.(env := q.env + 4), rest.init, ToOperand, r);
        Put(Store(EBP, offset));
        StillWellFormed(r, [Plain(Store(EBP, offset))], Now());
        ChainStep(rt, check, p, x.chain, done, rest, q, r, Now());
        LetsWellFormed(cleanups, [LetCleanup(rest.name, offset)]);
        cleanups := cleanups + [LetCleanup(rest.name, offset)];
        numLocals := numLocals + 1;
        done := done + InitCode(rt, rest.init, ContextOf(q, check));
        rest := rest.rest;
      }
      ok, fixnum := FinishLetStar(x, dest, p, done, rest, numLocals);
    }

    method FinishLetStar(x: Form, dest: Dest, ghost p: Progress, ghost done: Code, rest: Chain, numLocals: nat) returns (ok: bool, fixnum: bool)
      requires x.LetStar? && rest.Body? && (rest == x.chain || rest < x.chain) && WellFormed(cleanups) && dest != ToZeroFlag
      requires ChainSoFar(rt, check, p, x.chain, done, rest, Now()) && |cleanups| == |p.cleanups| + numLocals && WellFormed(p.cleanups)
      modifies this
      ensures ok <==> AcceptsChain(rt, x.chain, ContextOf(p, check))
      ensures ok ==> FormDone(rt, check, p, x, dest, Now()) && WellFormed(cleanups) && fixnum == TypedFixnumChain(x.chain)
      decreases rest, 3
    {
      hide Emitted, Gen, ContextOf, WellFormed, FormDone, FormsDone, Accepts, AcceptsForms, Encode, TypedFixnumForms, PushIfStack, Grew, GenChain, AcceptsChain,
           SlotsChain, CountChain, OnlyLets, ChainSoFar, Slots, Count, Next, Size;
      ghost var q := Now();
      ChainBody(rt, check, p, x.chain, done, rest, q);
      UnfoldLetStar(rt, x, dest, ContextOf(p, check));
      ok, fixnum := CompileProgn(rest.body, ToEax);
      if !ok {
        ChainReject(rt, check, p, x.chain, done, rest, q);
        return;
      }
      ghost var r := Now();
      PutPushIfStack(dest);
      ghost var s := Now();
      LetStarDone(rt, check, p, x, dest, done, rest, q, r, s);
      PopCleanups(numLocals);
      FormGrew(rt, check, p, x, dest, Now());
      StillWellFormed(p, Gen(rt, x, dest, ContextOf(p, check)), Now());
    }

    // ----- BLOCK and RETURN-FROM -----

    /** Points each listed branch at the target. */
    method PatchBranches(branches: seq<int>, target: int, ghost p: Progress, ghost c: Code, ghost rec: nat, ghost targets: seq<int>, ghost tag: nat,
                         ghost before: set<int>, ghost q: Progress) returns (ghost done: set<int>)
      requires PatchedSome(p, c, rec, targets, before, q, Now()) && tag < |targets| && target == |p.code| + targets[tag]
      requires forall at :: at in branches ==> ExitAt(c, at - 1 - |p.code|, Label(rec, tag))
      modifies this`code
      ensures PatchedSome(p, c, rec, targets, done, q, Now()) && before <= done
      ensures forall at :: at in branches ==> at - 1 - |p.code| in done
    {
      hide PatchedSome, ExitAt, Patched, Long;
      done := before;
      var rest := branches;
      while |rest| > 0
        invariant PatchedSome(p, c, rec, targets, done, q, Now()) && before <= done
        invariant forall at :: at in rest ==> at in branches
        invariant forall at :: at in branches && at !in rest ==> at - 1 - |p.code| in done
        decreases |rest|
      {
        var at := rest[0];
        assert at in rest && at in branches;
        PatchedOne(p, c, rec, targets, done, q, Now(), at, tag);
        SetLong(at, target - (at + 4));
        done := done + {at - 1 - |p.code|};
        rest := rest[1..];
      }
    }

    method CompileBlock(x: Form, dest: Dest) returns (ok: bool)
      requires x.Block? && WellFormed(cleanups) && dest != ToZeroFlag
      modifies this
      ensures ok <==> Accepts(rt, x, dest, old(Here()))
      ensures ok ==> FormDone(rt, check, old(Now()), x, dest, Now()) && WellFormed(cleanups)
      decreases x, 5
    {
      hide Emitted, Gen, ContextOf, WellFormed, FormDone, Accepts, AcceptsForms, GenForms, TypedFixnumForms, SlotsForms, CountForms, PatchedSome, ExitAt, AllDone,
           SettleAll, Size, PushIfStack, Slots, Count;
      ghost var p, n := Now(), |cleanups|;
      UnfoldBlock(rt, x, dest, Here());
      var rec := BlockCleanup(x.name, stackIndex, []);
      OpenedContext(check, p, rec);
      BlockWellFormed(cleanups, rec);
      cleanups := cleanups + [rec];
      var fixnum: bool;
      ok, fixnum := CompileProgn(x.body, ToEax);
      if !ok {
        return;
      }
      ghost var q, b := Now(), GenForms(rt, x.body, ToEax, BlockContext(ContextOf(p, check), x.name));
      OpenRecord(p, b, rec, q);
      GrewContext(p.(cleanups := p.cleanups + [rec]), b, q, check);
      var branches := cleanups[|cleanups| - 1].branches;
      PopCleanups(1);
      PatchedNone(p, rec, b, n, [Size(b)], q);
      BlockWaits(p, b, x.name, q);
      ghost var done := PatchBranches(branches, |code|, p, b, n, [Size(b)], 0, {}, Trim(q, n));
      BlockListed(p, b, x.name, q, done, Size(b));
      LandBlock(p, b, rec, done, q, Now());
      q := Now();
      PutPushIfStack(dest);
      BlockDone(rt, check, p, x, dest, q, Now());
      FormGrew(rt, check, p, x, dest, Now());
      StillWellFormed(p, Gen(rt, x, dest, ContextOf(p, check)), Now());
    }

    /** findBlock: the innermost record of a block of this name. */
    method FindBlockRecord(n: Name) returns (k: int)
      ensures k == FindBlock(RecsOf(cleanups), n)
    {
      k := |cleanups| - 1;
      assert RecsOf(cleanups)[..|cleanups|] == RecsOf(cleanups);
      while k >= 0
        invariant -1 <= k < |cleanups|
        invariant FindBlock(RecsOf(cleanups), n) == FindBlock(RecsOf(cleanups)[..k + 1], n)
      {
        ghost var front := RecsOf(cleanups)[..k + 1];
        assert front[|front| - 1] == RecOf(cleanups[k]) && front[..|front| - 1] == RecsOf(cleanups)[..k];
        if cleanups[k].BlockCleanup? && cleanups[k].name == n {
          return;
        }
        k := k - 1;
      }
    }

    /** Drops the operands above the target's depth; the stack index is put back, as control does not come here again. */
    method PutAdjust(diff: int)
      requires diff >= 0
      modifies this
      ensures Now() == Emitted(old(Now()), Adjust(diff), old(stackIndex), old(envSize))
    {
      if diff > 0 {
        Put(AddEsp(diff), PutBack);
        stackIndex := stackIndex + diff;
      } else {
        EmittedNothing(Now());
      }
    }

    /** JMP_LONG_RELATIVE(0), its displacement's position put on the list of the label it waits for. */
    method PutExit(k: nat, tag: nat)
      requires CanWait(cleanups, Label(k, tag))
      modifies this
      ensures Now() == Emitted(old(Now()), [Exit(Label(k, tag))], old(stackIndex), old(envSize))
    {
      hide Encode;
      ghost var it := Exit(Label(k, tag));
      OneItem(it);
      code := code + Encode(Jmp32(0));
      BranchLens(E, 0);
      var at := |code| - 4;
      assert AddBranches(old(cleanups), [it], |old(code)|) == AddBranch(old(cleanups), Label(k, tag), at);
      match cleanups[k] {
        case BlockCleanup(n, depth, branches) =>
          cleanups := cleanups[k := BlockCleanup(n, depth, [at] + branches)];
        case TagsCleanup(tags, depth, waiting) =>
          cleanups := cleanups[k := TagsCleanup(tags, depth, waiting[tag := [at] + waiting[tag]])];
      }
      assert RefsOf([it], |old(code)|) == [];
    }

    method CompileReturnFrom(x: Form, dest: Dest) returns (ok: bool, fixnum: bool)
      requires x.ReturnFrom? && WellFormed(cleanups) && dest != ToZeroFlag
      modifies this
      ensures ok <==> Accepts(rt, x, dest, old(Here()))
      ensures ok ==> FormDone(rt, check, old(Now()), x, dest, Now()) && WellFormed(cleanups) && fixnum == TypedFixnum(x.value)
      decreases x, 5
    {
      hide Emitted, Gen, ContextOf, WellFormed, FormDone, Accepts, Slots, Count, Size, Adjust, FindBlock, CanWait, TypedFixnum;
      ghost var p := Now();
      UnfoldReturn(rt, x, dest, Here());
      fixnum := false;
      var k := FindBlockRecord(x.name);
      RecsAre(p, check);
      if k < 0 {
        ok := false;
        return;
      }
      ok, fixnum := CompileForm(x.value, dest);
      if !ok {
        return;
      }
      ghost var q := Now();
      SameRecsAfter(rt, check, p, x.value, dest, q);
      RecsAre(q, check);
      BlockCanWait(cleanups, k, ContextOf(p, check).recs);
      var diff := stackIndex - cleanups[k].depth;
      if diff < 0 {
        ok := false;
        return;
      }
      PutAdjust(diff);
      ghost var r := Now();
      AdjustCanWait(q, diff, r, k, 0);
      PutExit(k, 0);
      ReturnDone(rt, check, p, x, dest, k, q, r, Now());
      FormGrew(rt, check, p, x, dest, Now());
      StillWellFormed(p, Gen(rt, x, dest, ContextOf(p, check)), Now());
    }

    // ----- TAGBODY and GO -----

    /** The first pass: the tags in order, and the counts of GO forms and of all items. */
    method ScanItems(items: Items) returns (tags: seq<Name>, gos: nat, total: nat)
      ensures tags == TagNames(items) && gos == NumGos(items) && total == NumItems(items)
    {
      tags, gos, total := [], 0, 0;
      var p := items;
      while !p.NoItems?
        invariant tags + TagNames(p) == TagNames(items)
        invariant gos + NumGos(p) == NumGos(items)
        invariant total + NumItems(p) == NumItems(items)
        decreases p
      {
        match p {
          case Tag(t, rest) => tags := tags + [t];
          case Stmt(x, rest) => if x.Go? { gos := gos + 1; }
        }
        total := total + 1;
        p := p.rest;
      }
    }

    /** The second pass: the statements compiled, and the address of each tag. */
    method CompileItems(items: Items, ghost p: Progress, ghost pre: Code) returns (ok: bool, addresses: seq<int>)
      requires WellFormed(cleanups) && Grew(p, pre, Now()) && stackIndex == p.si && envSize == p.env
      modifies this
      ensures ok <==> AcceptsItems(rt, items, ContextOf(p, check))
      ensures ok ==> WellFormed(cleanups) && Relative(addresses, |p.code|) == TagOffsets(rt, items, ContextOf(p, check), Size(pre))
      ensures ok ==> GrewTo(p, pre + GenItems(rt, items, ContextOf(p, check)), AfterItems(ContextOf(p, check), items), Now())
      decreases items, 4
    {
      hide Emitted, Gen, GenItems, AcceptsItems, ContextOf, WellFormed, FormDone, Accepts, ItemsSoFar, GrewTo, Size, TagOffsets, Relative, AfterItems, TypedFixnum;
      ItemsStart(rt, check, p, items, pre, Now());
      ok, addresses := true, [];
      ghost var done := pre;
      var rest := items;
      while !rest.NoItems?
        invariant rest == items || rest < items
        invariant ok && WellFormed(cleanups) && ItemsSoFar(rt, check, p, items, pre, done, addresses, rest, Now())
        decreases rest
      {
        ghost var q := Now();
        match rest {
          case Tag(_, more) =>
            ItemsTag(rt, check, p, items, pre, done, addresses, rest, q);
            addresses := addresses + [|code|];
          case Stmt(x, more) =>
            var fixnum: bool;
            ok, fixnum := CompileForm(x, ToEax);
            if !ok {
              ItemsReject(rt, check, p, items, pre, done, addresses, rest, q);
              return;
            }
            ItemsStmt(rt, check, p, items, pre, done, addresses, rest, q, Now());
            done := done + Gen(rt, x, ToEax, ContextOf(q, check));
        }
        rest := rest.rest;
      }
      ItemsEnd(rt, check, p, items, pre, done, addresses, rest, Now());
    }

    /** The last pass: the branches listed for each tag pointed at its address. */
    method PatchTags(waiting: seq<seq<int>>, addresses: seq<int>, ghost p: Progress, ghost c: Code, ghost rec: nat, ghost targets: seq<int>, ghost q: Progress)
      returns (ghost done: set<int>)
      requires PatchedSome(p, c, rec, targets, {}, q, Now())
      requires |waiting| == |addresses| == |targets| && Relative(addresses, |p.code|) == targets
      requires forall t, at :: 0 <= t < |waiting| ==> (at in waiting[t] <==> ExitAt(c, at - 1 - |p.code|, Label(rec, t)))
      modifies this`code
      ensures PatchedSome(p, c, rec, targets, done, q, Now()) && AllDone(c, 0, rec, targets, done)
    {
      hide PatchedSome, ExitAt, AllDone;
      done := {};
      var t := 0;
      while t < |waiting|
        invariant 0 <= t <= |waiting|
        invariant PatchedSome(p, c, rec, targets, done, q, Now())
        invariant forall s, at :: 0 <= s < t && at in waiting[s] ==> at - 1 - |p.code| in done
      {
        assert Relative(addresses, |p.code|)[t] == addresses[t] - |p.code|;
        done := PatchBranches(waiting[t], addresses[t], p, c, rec, targets, t, done, q);
        t := t + 1;
      }
      TagsListed(p, c, rec, waiting, targets, done);
    }

    method CompileTagbody(x: Form, dest: Dest) returns (ok: bool)
      requires x.Tagbody? && WellFormed(cleanups) && dest != ToZeroFlag
      modifies this
      ensures ok <==> Accepts(rt, x, dest, old(Here()))
      ensures ok ==> FormDone(rt, check, old(Now()), x, dest, Now()) && WellFormed(cleanups)
      decreases x, 6
    {
      hide Emitted, Gen, GenItems, AcceptsItems, ContextOf, WellFormed, FormDone, Accepts, TagNames, NumGos, NumItems, Slots, Count, SlotsItems, CountItems, GenNil,
           TagsContext, Size, PushIfStack, SettleAll, TagOffsets;
      ghost var p := Now();
      UnfoldTagbody(rt, x, dest, Here());
      CountsDecide(x.items);
      var tags, gos, total := ScanItems(x.items);
      ok := true;
      if |tags| == total {
        CompileNil(dest);
        EmptyTagbody(rt, check, p, x, dest, Now());
        StillWellFormed(p, GenNil(dest), Now());
        return;
      }
      GrewNothing(p);
      if |tags| + gos == total {
        CompileNil(ToEax);
      }
      ghost var pre := TagbodyPre(x.items);
      assert Grew(p, pre, Now());
      ok := CompileStatements(x, dest, tags, p);
    }

    /** A TAGBODY from the point where its record is pushed. */
    method CompileStatements(x: Form, dest: Dest, tags: seq<Name>, ghost p: Progress) returns (ok: bool)
      requires x.Tagbody? && HasStmt(x.items) && tags == TagNames(x.items) && WellFormed(p.cleanups) && dest != ToZeroFlag
      requires Grew(p, TagbodyPre(x.items), Now()) && stackIndex == p.si && envSize == p.env
      modifies this
      ensures ok <==> AcceptsItems(rt, x.items, TagsContext(ContextOf(p, check), x.items))
      ensures ok ==> FormDone(rt, check, p, x, dest, Now()) && WellFormed(cleanups)
      decreases x, 5
    {
      hide Emitted, Gen, GenItems, AcceptsItems, ContextOf, WellFormed, FormDone, Accepts, TagNames, Slots, Count, SlotsItems, CountItems, GenNil,
           Size, PushIfStack, SettleAll, TagOffsets, TagbodyPre, Relative, NoExits, HasStmt;
      ghost var start, pre := Now(), TagbodyPre(x.items);
      var rec := TagsCleanup(tags, stackIndex, EmptyLists(|tags|));
      PreNoExits(x.items, dest);
      OpenedLater(p, pre, start, rec);
      OpenedContext(check, p, rec);
      StillWellFormed(p, pre, start);
      BlockWellFormed(cleanups, rec);
      cleanups := cleanups + [rec];
      ghost var p1 := p.(cleanups := p.cleanups + [rec]);
      var addresses: seq<int>;
      ok, addresses := CompileItems(x.items, p1, pre);
      if !ok {
        return;
      }
      FinishTagbody(x, dest, tags, addresses, p);
    }

    /** A TAGBODY from the end of its statements: the final NIL, the push, the record popped and its branches patched. */
    method FinishTagbody(x: Form, dest: Dest, tags: seq<Name>, addresses: seq<int>, ghost p: Progress)
      requires x.Tagbody? && HasStmt(x.items) && tags == TagNames(x.items) && WellFormed(p.cleanups) && dest != ToZeroFlag
      requires var inner := TagsContext(ContextOf(p, check), x.items);
               var p1 := p.(cleanups := p.cleanups + [TagsCleanup(tags, p.si, EmptyLists(|tags|))]);
               && GrewTo(p1, TagbodyPre(x.items) + GenItems(rt, x.items, inner), AfterItems(inner, x.items), Now())
               && Relative(addresses, |p.code|) == TagOffsets(rt, x.items, inner, Size(TagbodyPre(x.items)))
      modifies this
      ensures FormDone(rt, check, p, x, dest, Now()) && WellFormed(cleanups)
    {
      hide Emitted, Gen, GenItems, ContextOf, WellFormed, FormDone, TagNames, Slots, Count, SlotsItems, CountItems, GenNil,
           Size, PushIfStack, SettleAll, TagOffsets, TagbodyPre, Relative, HasStmt, PatchedSome, AllDone, ExitAt;
      ghost var q, n, inner := Now(), |p.cleanups|, TagsContext(ContextOf(p, check), x.items);
      ghost var p1 := p.(cleanups := p.cleanups + [TagsCleanup(tags, p.si, EmptyLists(|tags|))]);
      ghost var a, targets := TagbodyPre(x.items) + GenItems(rt, x.items, inner), TagbodyTargets(rt, x.items, inner);
      CompileNil(ToEax);
      ghost var r := Now();
      PutPushIfStack(dest);
      ghost var s := Now();
      ghost var c := a + GenNil(ToEax) + PushIfStack(dest);
      TagbodyCode(p1, a, q, dest, r, s, check);
      TagsOpen(p, c, tags, s);
      TargetsInReach(rt, x.items, inner);
      var waiting := cleanups[|cleanups| - 1].waiting;
      PopCleanups(1);
      PatchedNone(p, TagsCleanup(tags, p.si, EmptyLists(|tags|)), c, n, targets, s);
      ghost var done := PatchTags(waiting, addresses, p, c, n, targets, Trim(s, n));
      LandTags(rt, p, c, tags, targets, done, s, Now());
      TagbodyDone(rt, check, p, x, dest, Now());
      FormGrew(rt, check, p, x, dest, Now());
      StillWellFormed(p, Gen(rt, x, dest, ContextOf(p, check)), Now());
    }

    /** findTagbodyTag: the innermost record with this tag, and the tag's place in it. */
    method FindTag(tag: Name) returns (k: int, t: nat)
      ensures k == FindTags(RecsOf(cleanups), tag)
      ensures k >= 0 ==> t == IndexOf(RecsOf(cleanups)[k].tags, tag)
    {
      k, t := |cleanups| - 1, 0;
      assert RecsOf(cleanups)[..|cleanups|] == RecsOf(cleanups);
      while k >= 0
        invariant -1 <= k < |cleanups|
        invariant FindTags(RecsOf(cleanups), tag) == FindTags(RecsOf(cleanups)[..k + 1], tag)
      {
        ghost var front := RecsOf(cleanups)[..k + 1];
        assert front[|front| - 1] == RecOf(cleanups[k]) && front[..|front| - 1] == RecsOf(cleanups)[..k];
        if cleanups[k].TagsCleanup? {
          t := 0;
          var tags := cleanups[k].tags;
          while t < |tags|
            invariant 0 <= t <= |tags|
            invariant forall j :: 0 <= j < t ==> tags[j] != tag
          {
            if tags[t] == tag {
              return;
            }
            t := t + 1;
          }
        }
        k := k - 1;
      }
    }

    method CompileGo(x: Form, dest: Dest) returns (ok: bool)
      requires x.Go? && WellFormed(cleanups) && dest != ToZeroFlag
      modifies this
      ensures ok <==> Accepts(rt, x, dest, old(Here()))
      ensures ok ==> FormDone(rt, check, old(Now()), x, dest, Now()) && WellFormed(cleanups)
    {
      hide Emitted, ContextOf, WellFormed, FormDone, Size, Adjust, FindTags, IndexOf, CanWait, Gen;
      ghost var p := Now();
      RecsAre(p, check);
      var k, t := FindTag(x.tag);
      if k < 0 {
        ok := false;
        return;
      }
      TagsCanWait(cleanups, k, ContextOf(p, check).recs, x.tag);
      var diff := stackIndex - cleanups[k].depth;
      ok := diff >= 0;
      if !ok {
        return;
      }
      PutAdjust(diff);
      ghost var r := Now();
      AdjustCanWait(p, diff, r, k, t);
      PutExit(k, t);
      GoDone(rt, check, p, x, dest, k, t, r, Now());
      FormGrew(rt, check, p, x, dest, Now());
      StillWellFormed(p, Gen(rt, x, dest, ContextOf(p, check)), Now());
    }

    // ----- arithmetic and predicates -----

    /** Several macros in a row. */
    method PutAll(list: seq<Instr>)
      modifies this
      ensures Now() == Emitted(old(Now()), PlainAll(list), old(stackIndex) + EffectOf(list), old(envSize))
    {
      hide Emitted, PlainAll, EffectOf, Size;
      ghost var p := Now();
      EmittedNothing(p);
      NoneYet(list);
      var k := 0;
      while k < |list|
        invariant 0 <= k <= |list|
        invariant Now() == Emitted(p, PlainAll(list[..k]), p.si + EffectOf(list[..k]), p.env)
      {
        ghost var q := Now();
        Put(list[k]);
        PlainSnoc(list, k);
        EmittedTwice(p, PlainAll(list[..k]), q.si, q.env, [Plain(list[k])], stackIndex, envSize);
        k := k + 1;
      }
      assert list[..k] == list;
    }

    /** A tag test with its branch still zero; the address after it, or 0 when no test is needed. */
    method PutTest(needed: bool, t: Instr) returns (addr: int)
      requires t == TestAl(7) || t == TestDl(7)
      modifies this
      ensures Now() == Emitted(old(Now()), TagTest(needed, t, 0), old(stackIndex), old(envSize))
      ensures addr == (if needed then |code| else 0)
    {
      if needed {
        PutAll([t, Jcc8(NE, 0)]);
        assert PlainAll([t, Jcc8(NE, 0)]) == TagTest(needed, t, 0);
        PairEffect(t);
        addr := |code|;
      } else {
        EmittedNothing(Now());
        addr := 0;
      }
    }

    /** Points the branch of a tag test here. */
    method ResolveTest(addr: int, ghost p: Progress, ghost a: Code, ghost needed: bool, ghost t: Instr, ghost b: Code, ghost d: int)
      requires t == TestAl(7) || t == TestDl(7)
      requires Grew(p, a + TagTest(needed, t, 0) + b, Now())
      requires addr == if needed then |p.code| + Size(a) + Size(TagTest(needed, t, 0)) else 0
      requires needed ==> d == Size(b)
      modifies this`code
      ensures Grew(p, a + TagTest(needed, t, d) + b, Now())
    {
      hide Emitted, Encode, Size, Patched, Byte8;
      ghost var q := Now();
      if needed {
        TestPatched(p, a, t, b, q, addr, d);
        GrewContext(p, a + TagTest(needed, t, 0) + b, q, check);
        SizeConcat(a, TagTest(needed, t, 0));
        SizeConcat(a + TagTest(needed, t, 0), b);
      }
      if addr != 0 {
        SetByte(addr - 1, |code| - addr);
      }
    }

    /** Points both tag tests at the code that follows b. */
    method ResolveTests(addr1: int, addr2: int, ghost p: Progress, ghost al: bool, ghost dl: bool, ghost b: Code)
      requires Grew(p, TagTest(al, TestAl(7), 0) + TagTest(dl, TestDl(7), 0) + b, Now())
      requires addr1 == if al then |p.code| + Size(TagTest(al, TestAl(7), 0)) else 0
      requires addr2 == if dl then |p.code| + Size(TagTest(al, TestAl(7), 0)) + Size(TagTest(dl, TestDl(7), 0)) else 0
      modifies this`code
      ensures Grew(p, TagTests(al, dl, Size(b)) + b, Now())
    {
      hide Emitted, Encode, Size, Patched, TagTest;
      ghost var d, t2 := Size(b), TagTest(dl, TestDl(7), 0);
      ghost var d1 := d + (if dl then 5 else 0);
      TestSizes(al, TestAl(7), 0);
      TestSizes(al, TestAl(7), d1);
      TestSizes(dl, TestDl(7), 0);
      SizeConcat(t2, b);
      SizeConcat([], TagTest(al, TestAl(7), 0));
      assert TagTest(al, TestAl(7), 0) + t2 + b == [] + TagTest(al, TestAl(7), 0) + (t2 + b);
      SizeOfNothing();
      ResolveTest(addr1, p, [], al, TestAl(7), t2 + b, d1);
      ghost var t1 := TagTest(al, TestAl(7), d1);
      assert [] + t1 + (t2 + b) == t1 + t2 + b;
      ResolveTest(addr2, p, t1, dl, TestDl(7), b, d);
    }

    /** Points a short branch here. */
    method PatchShort(addr: int, ghost p: Progress, ghost a: Code, ghost it: Item, ghost settled: Item, ghost b: Code)
      requires SameBranch(it, settled) && (it.ins.Jcc8? || it.ins.Jmp8?) && Grew(p, a + [it] + b, Now())
      requires addr == |p.code| + Size(a) + 2 && settled.ins.disp == Size(b)
      modifies this`code
      ensures Grew(p, a + [settled] + b, Now())
    {
      hide Emitted, Encode, Size, Patched, Byte8;
      ghost var q := Now();
      ShortLens(it, settled);
      GrewContext(p, a + [it] + b, q, check);
      SizeConcat(a, [it]);
      SizeConcat(a + [it], b);
      OneItem(it);
      SetByte(addr - 1, |code| - addr);
      PatchedAs(p, a, it, settled, b, q, addr - 1, Now());
    }

    /** Inline + or -, with the generic routine for everything else. */
    method PutArith(fn: Arith, al: bool, dl: bool)
      modifies this
      ensures Now() == Emitted(old(Now()), ArithTail(rt, fn, al, dl), old(stackIndex), old(envSize))
    {
      hide Emitted, Encode, Size, TagTest, TagTests, CallRoutine;
      ghost var p := Now();
      var (op, undo, r) := ArithParts(fn);
      var addr3 := PutArithInline(fn, al, dl);
      ghost var jno, front := Plain(Jcc8(NO, 0)), TagTests(al, dl, 6) + [Plain(op)];
      ArithSizes(rt, fn, al, dl);
      ghost var q := Now();
      PutCall(r);
      Grow(p, front + [jno] + [Plain(undo)], q, [CallRoutine(rt, r)], Now(), check);
      ghost var b := [Plain(undo), CallRoutine(rt, r)];
      assert front + [jno] + [Plain(undo)] + [CallRoutine(rt, r)] == front + [jno] + b;
      ShortDisplacement(NO, 8);
      PatchShort(addr3, p, front, jno, Plain(Jcc8(NO, 8)), b);
      assert front + [Plain(Jcc8(NO, 8))] + b == ArithTail(rt, fn, al, dl);
    }

    /** The tag tests, the operation and the one that takes it back; the address after the overflow branch. */
    method PutArithInline(fn: Arith, al: bool, dl: bool) returns (addr3: int)
      modifies this
      ensures var (op, undo, r) := ArithParts(fn);
              Now() == Emitted(old(Now()), TagTests(al, dl, 6) + [Plain(op)] + [Plain(Jcc8(NO, 0))] + [Plain(undo)], old(stackIndex), old(envSize))
      ensures addr3 == |old(code)| + Size(TagTest(al, TestAl(7), 0)) + Size(TagTest(dl, TestDl(7), 0)) + 4
    {
      hide Emitted, Encode, Size, TagTest, TagTests, CallRoutine, PlainAll, ContextOf;
      ghost var p := Now();
      var (op, undo, r) := ArithParts(fn);
      var addr1 := PutTest(al, TestAl(7));
      ghost var q := Now();
      var addr2 := PutTest(dl, TestDl(7));
      ghost var t1, t2, jno := TagTest(al, TestAl(7), 0), TagTest(dl, TestDl(7), 0), Plain(Jcc8(NO, 0));
      Grow(p, t1, q, t2, Now(), check);
      q := Now();
      PutAll([op, Jcc8(NO, 0)]);
      addr3 := |code|;
      ArithStart(fn);
      Grow(p, t1 + t2, q, [Plain(op), jno], Now(), check);
      q := Now();
      Put(undo);
      Grow(p, t1 + t2 + [Plain(op), jno], q, [Plain(undo)], Now(), check);
      SizeConcat(t1, t2);
      assert t1 + t2 + [Plain(op), jno] + [Plain(undo)] == t1 + t2 + [Plain(op), jno, Plain(undo)];
      ArithSizes(rt, fn, al, dl);
      ResolveTests(addr1, addr2, p, al, dl, [Plain(op), jno, Plain(undo)]);
      assert TagTests(al, dl, 6) + [Plain(op), jno, Plain(undo)] == TagTests(al, dl, 6) + [Plain(op)] + [jno] + [Plain(undo)];
    }

    /** Both operands pushed and a two-argument predicate called. */
    method PutPredicateCall(r: Routine)
      modifies this
      ensures Now() == Emitted(old(Now()), PredicateCall(rt, r), old(stackIndex), old(envSize))
    {
      hide Emitted, Encode, Size, CallRoutine;
      ghost var p := Now();
      ghost var list := [Push(EDX), Push(EAX), Load(EDI, ESI, 0), MovImm(ECX, 2)];
      PutAll([Push(EDX), Push(EAX), Load(EDI, ESI, 0), MovImm(ECX, 2)]);
      PushesEffect();
      ghost var q := Now();
      PutCall(r);
      Grow(p, PlainAll(list), q, [CallRoutine(rt, r)], Now(), check);
      q := Now();
      Put(AddEsp(8));
      Grow(p, PlainAll(list) + [CallRoutine(rt, r)], q, [Plain(AddEsp(8))], Now(), check);
      assert PlainAll(list) + [CallRoutine(rt, r)] + [Plain(AddEsp(8))] == PredicateCall(rt, r);
    }

    /** The comparison, NIL or T, and the generic predicate when a tag test needs it. */
    method PutPredicate(r: Routine, cc: Cond, al: bool, dl: bool)
      modifies this
      ensures Now() == Emitted(old(Now()), PredicateTail(rt, r, cc, al, dl), old(stackIndex), old(envSize))
    {
      hide Emitted, Encode, Size, TagTest, TagTests, CallRoutine, PlainAll, PredicateCall;
      ghost var p := Now();
      var addr1 := PutTest(al, TestAl(7));
      ghost var q := Now();
      var addr2 := PutTest(dl, TestDl(7));
      ghost var t1, t2 := TagTest(al, TestAl(7), 0), TagTest(dl, TestDl(7), 0);
      Grow(p, t1, q, t2, Now(), check);
      SizeConcat(t1, t2);
      q := Now();
      var jump := r.GenericEqual? || al || dl;
      var addr3, addr4 := PutMiddle(cc, jump);
      ghost var mid := Middle(cc, 0, jump, 0);
      Grow(p, t1 + t2, q, mid, Now(), check);
      MiddleSize(cc, 0, jump, 0);
      if al || dl {
        ResolveTests(addr1, addr2, p, al, dl, mid);
        ghost var tests := TagTests(al, dl, 11);
        q := Now();
        PutPredicateCall(r);
        Grow(p, tests + mid, q, PredicateCall(rt, r), Now(), check);
        TestsSize(al, dl, 11);
        PatchMiddle(p, tests, cc, jump, PredicateCall(rt, r), addr3, addr4);
        CallLengths(rt, r);
        assert tests + Middle(cc, 23, jump, 18) + PredicateCall(rt, r) == PredicateTail(rt, r, cc, al, dl);
      } else {
        NoTests(mid);
        PatchMiddle(p, [], cc, jump, [], addr3, addr4);
        UntestedMiddle(rt, r, cc);
      }
    }

    /** Both branches between the comparison and its result pointed here, rest having been emitted after them. */
    method PatchMiddle(ghost p: Progress, ghost a: Code, cc: Cond, jump: bool, ghost rest: Code, addr3: int, addr4: int)
      requires Grew(p, a + Middle(cc, 0, jump, 0) + rest, Now())
      requires addr3 == |p.code| + Size(a) + 6 && (jump ==> addr4 == |p.code| + Size(a) + 11)
      modifies this`code
      ensures Grew(p, a + Middle(cc, (if jump then 5 else 3) + Size(rest), jump, Size(rest)) + rest, Now())
    {
      hide Emitted, Encode, Size;
      ghost var n := Size(rest);
      ghost var d := (if jump then 5 else 3) + n;
      ghost var front, jcc, settled, tail := [Plain(CmpEaxEdx), LoadNil()], Plain(Jcc8(cc, 0)), Plain(Jcc8(cc, d)),
                                             [LoadT()] + (if jump then [Plain(Jmp8(0))] else []) + rest;
      MiddleSize(cc, 0, jump, 0);
      MiddleTail(jump, rest);
      SizeConcat(a, front);
      assert a + Middle(cc, 0, jump, 0) + rest == (a + front) + [jcc] + tail;
      ShortDisplacement(cc, d);
      PatchShort(addr3, p, a + front, jcc, settled, tail);
      if jump {
        ghost var front2 := a + front + [settled] + [LoadT()];
        assert a + front + [settled] + tail == front2 + [Plain(Jmp8(0))] + rest;
        MiddleFront(a, cc, d);
        ShortDisplacement(cc, n);
        PatchShort(addr4, p, front2, Plain(Jmp8(0)), Plain(Jmp8(n)), rest);
        assert front2 + [Plain(Jmp8(n))] + rest == a + Middle(cc, d, jump, n) + rest;
      } else {
        assert a + front + [settled] + tail == a + Middle(cc, d, jump, n) + rest;
      }
    }

    method PutMiddle(cc: Cond, jump: bool) returns (addr3: int, addr4: int)
      modifies this
      ensures Now() == Emitted(old(Now()), Middle(cc, 0, jump, 0), old(stackIndex), old(envSize))
      ensures addr3 == |old(code)| + 6 && (jump ==> addr4 == |old(code)| + 11)
    {
      hide Emitted, Encode, Size;
      ghost var p := Now();
      PutAll([CmpEaxEdx, Load(EAX, ESI, 0), Jcc8(cc, 0)]);
      MiddleEffect(cc);
      ghost var front := [Plain(CmpEaxEdx), LoadNil(), Plain(Jcc8(cc, 0))];
      assert PlainAll([CmpEaxEdx, Load(EAX, ESI, 0), Jcc8(cc, 0)]) == front;
      addr3 := |code|;
      ghost var q := Now();
      Put(Load(EAX, ESI, 4));
      Grow(p, front, q, [LoadT()], Now(), check);
      MiddleSize(cc, 0, jump, 0);
      MiddleFrontSize(cc);
      addr4 := 0;
      if jump {
        q := Now();
        Put(Jmp8(0));
        addr4 := |code|;
        Grow(p, front + [LoadT()], q, [Plain(Jmp8(0))], Now(), check);
        assert front + [LoadT()] + [Plain(Jmp8(0))] == Middle(cc, 0, jump, 0);
      } else {
        assert front + [LoadT()] == Middle(cc, 0, jump, 0);
      }
    }

    /** = as a test: only the zero flag is wanted. */
    method PutEqualFlag(al: bool, dl: bool)
      modifies this
      ensures Now() == Emitted(old(Now()), EqualFlagTail(rt, al, dl), old(stackIndex), old(envSize))
    {
      hide Emitted, Encode, Size, TagTest, TagTests, CallRoutine, PlainAll, PredicateCall;
      ghost var p := Now();
      var addr1 := PutTest(al, TestAl(7));
      ghost var q := Now();
      var addr2 := PutTest(dl, TestDl(7));
      ghost var t1, t2 := TagTest(al, TestAl(7), 0), TagTest(dl, TestDl(7), 0);
      Grow(p, t1, q, t2, Now(), check);
      SizeConcat(t1, t2);
      q := Now();
      Put(CmpEaxEdx);
      Grow(p, t1 + t2, q, [Plain(CmpEaxEdx)], Now(), check);
      if al || dl {
        q := Now();
        Put(Jmp8(0));
        var addr5 := |code|;
        ghost var mid := [Plain(CmpEaxEdx), Plain(Jmp8(0))];
        Grow(p, t1 + t2 + [Plain(CmpEaxEdx)], q, [Plain(Jmp8(0))], Now(), check);
        assert t1 + t2 + [Plain(CmpEaxEdx)] + [Plain(Jmp8(0))] == t1 + t2 + mid;
        FlagSizes(al, dl);
        SizeConcat(t1 + t2, mid);
        assert addr5 == |p.code| + Size(t1) + Size(t2) + 4 by { GrewContext(p, t1 + t2 + mid, Now(), check); }
        ResolveTests(addr1, addr2, p, al, dl, mid);
        FinishEqualFlag(p, al, dl, addr5);
      } else {
        NoTests([Plain(CmpEaxEdx)]);
      }
    }

    method FinishEqualFlag(ghost p: Progress, ghost al: bool, ghost dl: bool, addr5: int)
      requires Grew(p, TagTests(al, dl, 4) + [Plain(CmpEaxEdx), Plain(Jmp8(0))], Now()) && (al || dl)
      requires addr5 == |p.code| + Size(TagTests(al, dl, 4)) + 4
      modifies this
      ensures Now() == Emitted(p, EqualFlagTail(rt, al, dl), old(stackIndex), old(envSize))
    {
      hide Emitted, Encode, Size, TagTests, CallRoutine, PredicateCall;
      ghost var tests, mid, call, cmp := TagTests(al, dl, 4), [Plain(CmpEaxEdx), Plain(Jmp8(0))], PredicateCall(rt, GenericEqual), [Plain(CmpMem(ESI, 4))];
      ghost var q := Now();
      PutPredicateCall(GenericEqual);
      Grow(p, tests + mid, q, call, Now(), check);
      q := Now();
      Put(CmpMem(ESI, 4));
      Grow(p, tests + mid + call, q, cmp, Now(), check);
      ghost var front, jmp := tests + [Plain(CmpEaxEdx)], Plain(Jmp8(0));
      assert tests + mid + call + cmp == front + [jmp] + (call + cmp);
      FlagRest(rt, tests);
      ShortDisplacement(NE, 21);
      PatchShort(addr5, p, front, jmp, Plain(Jmp8(21)), call + cmp);
      assert front + [Plain(Jmp8(21))] + (call + cmp) == EqualFlagTail(rt, al, dl);
    }

    /** EQ and NULL: the comparison, and NIL or T. */
    method PutSelect(cmp: Instr)
      requires cmp == CmpEaxEdx || cmp == CmpMem(ESI, 0)
      modifies this
      ensures Now() == Emitted(old(Now()), [Plain(cmp)] + SelectCode(NE, 3), old(stackIndex), old(envSize))
    {
      hide Emitted, Encode, Size;
      ghost var p := Now();
      PutAll([cmp, Load(EAX, ESI, 0), Jcc8(NE, 0)]);
      ghost var front, jcc := [Plain(cmp), LoadNil()], Plain(Jcc8(NE, 0));
      SelectEffect(cmp);
      assert PlainAll([cmp, Load(EAX, ESI, 0), Jcc8(NE, 0)]) == front + [jcc];
      var addr1 := |code|;
      ghost var q := Now();
      Put(Load(EAX, ESI, 4));
      Grow(p, front + [jcc], q, [LoadT()], Now(), check);
      SelectLengths(NE, 0);
      SizePair(Plain(cmp), LoadNil());
      SizeConcat(front, [jcc]);
      OneItem(jcc);
      OneItem(LoadT());
      ShortDisplacement(NE, 3);
      PatchShort(addr1, p, front, jcc, Plain(Jcc8(NE, 3)), [LoadT()]);
      assert front + [Plain(Jcc8(NE, 3))] + [LoadT()] == [Plain(cmp)] + SelectCode(NE, 3);
    }

    /** The arguments of a two-argument call, in the registers its tail expects; whether each has type FIXNUM. */
    method CompileArgs(x: Form) returns (ok: bool, type1: bool, type2: bool)
      requires IsCall(x) && WellFormed(cleanups)
      modifies this
      ensures ok <==> Accepts(rt, x.arg1, Arg1Dest(x), old(Here())) && Accepts(rt, x.arg2, ToOperand, Next(old(Here()), x.arg1, Arg1Dest(x)))
      ensures ok ==> ArgsDone(rt, check, old(Now()), x, Now()) && WellFormed(cleanups)
      ensures ok ==> type1 == TypedFixnum(x.arg1) && type2 == TypedFixnum(x.arg2)
      decreases x, 4
    {
      hide Emitted, Gen, Gen2, ContextOf, WellFormed, FormDone, Accepts, Slots, Count, TypedFixnum, ArgsDone, Encode, Size, IsSimple, MovObj, EffectOf, PlainAll;
      ghost var p := Now();
      type2 := false;
      Arg1DestCases(x);
      if x.ArithCall? && x.fn.Plus? && IsFixnumLiteral(x.arg2) {
        ok, type1 := CompileForm(x.arg1, ToOperand);
        LiteralAccepts(rt, x, ContextOf(p, check));
        if ok {
          ghost var q := Now();
          Put(MovObj(EDX, x.arg2.w));
          MovObjEffect(EDX, x.arg2.w);
          type2 := true;
          LiteralArgs(rt, check, p, x, q, Now());
          StillWellFormed(q, [Plain(MovObj(EDX, x.arg2.w))], Now());
        }
      } else if x.NumEqual? && IsSimple(x.arg1) && IsSimple(x.arg2) {
        ok, type1 := CompileForm(x.arg1, ToOperand);
        if ok {
          ghost var q := Now();
          Put(Mov(EDX, EAX));
          StillWellFormed(q, [Plain(Mov(EDX, EAX))], Now());
          ghost var r := Now();
          MovedContext(rt, check, p, x, q, r);
          ok, type2 := CompileForm(x.arg2, ToOperand);
          if ok {
            SimpleArgs(rt, check, p, x, q, r, Now());
          }
        }
      } else {
        ok, type1, type2 := CompileStackedArgs(x);
      }
    }

    method CompileStackedArgs(x: Form) returns (ok: bool, type1: bool, type2: bool)
      requires IsCall(x) && Arg1Dest(x) == ToStack && WellFormed(cleanups)
      modifies this
      ensures ok <==> Accepts(rt, x.arg1, Arg1Dest(x), old(Here())) && Accepts(rt, x.arg2, ToOperand, Next(old(Here()), x.arg1, Arg1Dest(x)))
      ensures ok ==> ArgsDone(rt, check, old(Now()), x, Now()) && WellFormed(cleanups)
      ensures ok ==> type1 == TypedFixnum(x.arg1) && type2 == TypedFixnum(x.arg2)
      decreases x, 3
    {
      hide Emitted, Gen, Gen2, ContextOf, WellFormed, FormDone, Accepts, Slots, Count, TypedFixnum, ArgsDone, Encode, Size, Arg1Dest, EffectOf, PlainAll;
      ghost var p := Now();
      type2 := false;
      ok, type1 := CompileForm(x.arg1, ToStack);
      if !ok {
        return;
      }
      ghost var q := Now();
      SameRecsAfter(rt, check, p, x.arg1, ToStack, q);
      ok, type2 := CompileForm(x.arg2, ToOperand);
      if !ok {
        return;
      }
      ghost var r := Now();
      if x.ArithCall? && x.fn.Minus? {
        PutAll([Mov(EDX, EAX), Pop(EAX)]);
      } else {
        PutAll([Pop(EDX)]);
      }
      CollectEffect(x);
      StackedArgs(rt, check, p, x, q, r, Now());
      StillWellFormed(r, Collect(x), Now());
    }

    /** From both arguments in registers to the result where the destination wants it. */
    method PutCallTail(x: Form, dest: Dest, type1: bool, type2: bool)
      requires IsCall(x) && (dest == ToZeroFlag ==> x.NumEqual?)
      requires type1 == TypedFixnum(x.arg1) && type2 == TypedFixnum(x.arg2)
      modifies this
      ensures Now() == Emitted(old(Now()), CallTail(rt, x, dest, check), old(stackIndex) + (if dest == ToStack then 4 else 0), old(envSize))
    {
      hide Emitted, Encode, Size, TypedFixnum, IsSimple, ArithTail, PredicateTail, EqualFlagTail, SelectCode, Target, IsFixnumLiteral;
      ghost var p := Now();
      var test1, test2 := !IsFixnumLiteral(x.arg1) && (!type1 || check), !IsFixnumLiteral(x.arg2) && (!type2 || check);
      ghost var tail: Code;
      match x {
        case ArithCall(fn, _, _) =>
          var swap := fn.Plus? && IsFixnumLiteral(x.arg2);
          var al, dl := if fn.Minus? || swap then test1 else test2, if fn.Minus? then test2 else if swap then false else test1;
          PutArith(fn, al, dl);
          tail := ArithTail(rt, fn, al, dl);
        case NumEqual(_, _) =>
          if dest == ToZeroFlag {
            PutEqualFlag(test2, test1);
            return;
          }
          PutPredicate(GenericEqual, NE, test2, test1);
          tail := PredicateTail(rt, GenericEqual, NE, test2, test1);
        case Compare(op, _, _) =>
          PutPredicate(GenericCompare(op), FailCond(op), test2, test1);
          tail := PredicateTail(rt, GenericCompare(op), FailCond(op), test2, test1);
        case Eq(_, _) =>
          PutSelect(CmpEaxEdx);
          tail := [Plain(CmpEaxEdx)] + SelectCode(NE, 3);
          SelectIsEq();
      }
      ghost var q := Now();
      PutTarget(dest);
      Grow(p, tail, q, Target(dest), Now(), check);
    }

    method CompileCall(x: Form, dest: Dest) returns (ok: bool)
      requires IsCall(x) && WellFormed(cleanups) && (dest == ToZeroFlag ==> x.NumEqual?)
      modifies this
      ensures ok <==> Accepts(rt, x, dest, old(Here()))
      ensures ok ==> FormDone(rt, check, old(Now()), x, dest, Now()) && WellFormed(cleanups)
      decreases x, 5
    {
      hide Emitted, Gen, Gen2, ContextOf, WellFormed, FormDone, Accepts, Slots, Count, TypedFixnum, ArgsDone, Size, Arg1Dest, CallTail;
      ghost var p := Now();
      UnfoldCallAccepts(rt, x, dest, ContextOf(p, check));
      var type1, type2: bool;
      ok, type1, type2 := CompileArgs(x);
      if ok {
        ghost var q := Now();
        PutCallTail(x, dest, type1, type2);
        CallDone(rt, check, p, x, dest, q, Now());
        StillWellFormed(q, CallTail(rt, x, dest, check), Now());
      }
    }

    method CompileNull(x: Form, dest: Dest) returns (ok: bool)
      requires x.Null? && WellFormed(cleanups) && dest != ToZeroFlag
      modifies this
      ensures ok <==> Accepts(rt, x, dest, old(Here()))
      ensures ok ==> FormDone(rt, check, old(Now()), x, dest, Now()) && WellFormed(cleanups)
      decreases x, 5
    {
      hide Emitted, Gen, ContextOf, WellFormed, FormDone, Accepts, Slots, Count, TypedFixnum, Size, Target, SelectCode, NullTail, Encode;
      ghost var p := Now();
      UnfoldNull(rt, x, dest, ContextOf(p, check));
      var fixnum: bool;
      ok, fixnum := CompileForm(x.arg, ToOperand);
      if ok {
        ghost var q := Now();
        PutSelect(CmpMem(ESI, 0));
        SelectIsEq();
        ghost var r := Now();
        PutTarget(dest);
        NullDone(rt, check, p, x, dest, q, r, Now());
        FormGrew(rt, check, p, x, dest, Now());
        StillWellFormed(p, Gen(rt, x, dest, ContextOf(p, check)), Now());
      }
    }

    // ----- all forms -----

    /** Constants and variables. */
    method CompileAtom(x: Form, dest: Dest) returns (ok: bool)
      requires (x.Lit? || x.SymLit? || x.NilForm? || x.Var?) && WellFormed(cleanups) && dest != ToZeroFlag
      modifies this
      ensures ok <==> Accepts(rt, x, dest, old(Here()))
      ensures ok ==> FormDone(rt, check, old(Now()), x, dest, Now()) && WellFormed(cleanups)
    {
      hide Emitted, ContextOf, WellFormed, GenLit, GenSym, GenNil, GenVar, FindLet, FormDone, Gen;
      ghost var p := Now();
      ok := true;
      match x {
        case Lit(w) => CompileLiteral(w, dest, NoNote);
        case SymLit(w, _) => CompileLiteral(w, dest, LiteralRef(w));
        case NilForm => CompileNil(dest);
        case Var(n) => ok := CompileSymbol(n, dest);
      }
      if ok {
        AtomDone(rt, check, p, x, dest, Now());
        FormGrew(rt, check, p, x, dest, Now());
        StillWellFormed(p, Gen(rt, x, dest, ContextOf(p, check)), Now());
      }
    }

    method CompileSetqForm(x: Form, dest: Dest) returns (ok: bool, fixnum: bool)
      requires x.Setq? && WellFormed(cleanups) && dest != ToZeroFlag
      modifies this
      ensures ok <==> Accepts(rt, x, dest, old(Here()))
      ensures ok ==> FormDone(rt, check, old(Now()), x, dest, Now()) && WellFormed(cleanups) && fixnum == TypedFixnum(x)
      decreases x, 5
    {
      hide Emitted, Gen, GenSetq, ContextOf, WellFormed, FormDone, Slots, Count, SlotsSetq, CountInits, GenNil, Target, Size;
      ghost var p := Now();
      UnfoldSetq(rt, x, dest, ContextOf(p, check));
      ok, fixnum := true, false;
      if x.pairs.NoBinds? {
        CompileNil(dest);
        EmptySetqDone(rt, check, p, x, dest, Now());
        StillWellFormed(p, GenNil(dest), Now());
      } else {
        ok, fixnum := CompileSetq(x.pairs);
        if ok {
          ghost var q := Now();
          PutTarget(dest);
          SetqDone(rt, check, p, x, dest, q, Now());
          FormGrew(rt, check, p, x, dest, Now());
          StillWellFormed(p, Gen(rt, x, dest, ContextOf(p, check)), Now());
        }
      }
    }

    /**
     compileForm: accepts exactly the forms that Accepts describes, emits their code after what is
     already there, and leaves the stack index and the frame size as Next says.
     */
    method CompileForm(x: Form, dest: Dest) returns (ok: bool, fixnum: bool)
      requires WellFormed(cleanups) && (dest == ToZeroFlag ==> x.NumEqual?)
      modifies this
      ensures ok <==> Accepts(rt, x, dest, old(Here()))
      ensures ok ==> FormDone(rt, check, old(Now()), x, dest, Now()) && WellFormed(cleanups) && fixnum == TypedFixnum(x)
      decreases x, 9
    {
      hide Emitted, Gen, ContextOf, WellFormed, FormDone, Accepts, TypedFixnumForms, TypedFixnumChain, TypedFixnumBinds, FormsDone, AcceptsForms;
      fixnum := false;
      match x {
        case Setq(_) => ok, fixnum := CompileSetqForm(x, dest);
        case Progn(body) =>
          PrognIs(rt, check, Now(), x, dest);
          ok, fixnum := CompileProgn(body, dest);
        case If(test, _) =>
          if test.NumEqual? {
            ok := CompileIfElse(x, dest);
          } else {
            ok := CompileIfThen(x, dest);
          }
        case IfElse(_, _, _) => ok := CompileIfElse(x, dest);
        case Let(_, _) => ok, fixnum := CompileLet(x, dest);
        case LetStar(_) => ok, fixnum := CompileLetStar(x, dest);
        case Block(_, _) => ok := CompileBlock(x, dest);
        case ReturnFrom(_, _) => ok, fixnum := CompileReturnFrom(x, dest);
        case Tagbody(_) => ok := CompileTagbody(x, dest);
        case Go(_) => ok := CompileGo(x, dest);
        case ArithCall(_, _, _) => ok := CompileCall(x, dest);
        case NumEqual(_, _) => ok := CompileCall(x, dest);
        case Compare(_, _, _) => ok := CompileCall(x, dest);
        case Eq(_, _) => ok := CompileCall(x, dest);
        case Null(_) => ok := CompileNull(x, dest);
        case _ =>
          ok := CompileAtom(x, dest);
          fixnum := IsFixnumLiteral(x);
      }
    }

    // ----- whole expressions -----

    /** epilog */
    method PutEpilog()
      modifies this
      ensures Now() == Emitted(old(Now()), Epilog(), old(stackIndex) - 4, old(envSize))
    {
      PutAll([Mov(ESP, EBP), Pop(EBP), Ret]);
      EpilogEffect();
    }

    /** prolog: the bytes that build a frame of envSize bytes. */
    method MakeProlog(envSize: nat) returns (pbuf: seq<Byte>)
      requires envSize / 4 < 0x1_0000_0000
      ensures pbuf == BytesOf(Prolog(envSize))
    {
      hide Encode;
      pbuf := [0x55, 0x8b, 0xec, 0x57];
      FrameBytes();
      if envSize > 0 {
        pbuf := pbuf + [0x8b, 0x06];
        if envSize < 64 {
          var i := 0;
          ghost var n := 0;
          while i < envSize
            invariant i == 4 * n && i < envSize + 4
            invariant pbuf == [0x55, 0x8b, 0xec, 0x57] + [0x8b, 0x06] + BytesOf(Repeat(Plain(Push(EAX)), n))
          {
            pbuf := pbuf + [0x50];
            RepeatBytes(n);
            n := n + 1;
            i := i + 4;
          }
        } else {
          var count := envSize / 4;
          pbuf := pbuf + [0xba, count % 0x100, (count / 0x100) % 0x100, (count / 0x1_0000) % 0x100, count / 0x100_0000];
          pbuf := pbuf + [0x50, 0x4a, 0x7f, 0xfc];
        }
      }
      PrologBytes(envSize, pbuf);
    }

    /** CBinsertCode at the front: the bytes, and every reference moved past them. */
    method InsertFront(b: seq<Byte>)
      modifies this`code, this`refs
      ensures code == b + old(code) && refs == MovedBy(old(refs), |b|)
    {
      code := b + code;
      var i := 0;
      while i < |refs|
        invariant 0 <= i <= |refs| == |old(refs)| && code == b + old(code)
        invariant forall k :: 0 <= k < i ==> refs[k] == MovedRef(old(refs)[k], |b|)
        invariant forall k :: i <= k < |refs| ==> refs[k] == old(refs)[k]
      {
        if refs[i].pos >= 0 {
          refs := refs[i := Ref(refs[i].pos + |b|, refs[i].note)];
        }
        i := i + 1;
      }
      assert forall k :: 0 <= k < |refs| ==> refs[k] == MovedBy(old(refs), |b|)[k];
    }

    /**
     compileExpression: succeeds exactly on the forms in scope that contain no GO compiled for the
     stack, the one case in which the final check of the stack index fires.
     */
    method CompileExpression(x: Form) returns (ok: bool)
      requires Now() == Progress([], [], 0, 0, []) && Slots(x) < 0x1_0000_0000
      modifies this
      ensures ok <==> Compilable(rt, x, check)
      ensures ok <==> Scoped(rt, x, NothingInScope) && Count(x, ToEax, StackGo) == 0
      ensures ok ==> IsProgram(rt, x, check, code, refs)
    {
      hide Gen, Slots, Count, Accepts, Emitted, FormDone, BytesOf, RefsOf, ExpressionCode, Prolog, Epilog, rt.Linked, Bounded, TypedFixnum, Size, MovedBy, Scoped;
      CompilableExact(rt, x, check);
      ghost var p, cx := Now(), Start(check);
      assert RecsOf([]) == [];
      var fixnum: bool;
      ok, fixnum := CompileForm(x, ToEax);
      if !ok {
        return;
      }
      FormGrew(rt, check, p, x, ToEax, Now());
      FinalIndex(rt, check, p, x, Now());
      if stackIndex != 0 {
        ok := false;
        return;
      }
      var stackNeeded := envSize;
      ghost var g, q := Gen(rt, x, ToEax, cx), Now();
      PutEpilog();
      Grow(p, g, q, Epilog(), Now(), check);
      WholeCode(p, g + Epilog(), Now());
      var pbuf := MakeProlog(stackNeeded);
      InsertFront(pbuf);
      WholeProgram(rt, x, check, pbuf);
    }
  }

  lemma EpilogEffect()
    ensures PlainAll([Mov(ESP, EBP), Pop(EBP), Ret]) == Epilog() && EffectOf([Mov(ESP, EBP), Pop(EBP), Ret]) == -4
  {
    var list := [Mov(ESP, EBP), Pop(EBP), Ret];
    assert list[..2][..1] == list[..1] && list[..1][..0] == [];
    assert EffectOf(list[..1]) == 0;
    assert EffectOf(list[..2]) == -4;
  }

  lemma FinalIndex(rt: Runtime, check: bool, p: Progress, x: Form, q: Progress)
    requires FormDone(rt, check, p, x, ToEax, q) && p.si == 0 && p.env == 0
    ensures q.si == 0 <==> Count(x, ToEax, StackGo) == 0
    ensures q.env == 4 * Slots(x)
  {
    hide Emitted, Gen, ContextOf, Count, Slots;
  }

  lemma WholeCode(p: Progress, c: Code, q: Progress)
    requires Grew(p, c, q) && p.code == [] && p.refs == []
    ensures q.code == BytesOf(c) && q.refs == RefsOf(c, 0)
  {
    hide BytesOf, RefsOf, AddBranches;
  }

  lemma WholeProgram(rt: Runtime, x: Form, check: bool, pbuf: seq<Byte>)
    requires Slots(x) < 0x1_0000_0000 && pbuf == BytesOf(Prolog(4 * Slots(x)))
    ensures var c := Gen(rt, x, ToEax, Start(check)) + Epilog();
            && pbuf + BytesOf(c) == BytesOf(ExpressionCode(rt, x, check))
            && (rt.Linked() && Bounded(rt, x, check) && Count(x, ToEax, StackGo) == 0 ==> MovedBy(RefsOf(c, 0), |pbuf|) == RefsOf(ExpressionCode(rt, x, check), 0))
  {
    hide Gen, Slots, Count, BytesOf, RefsOf, Prolog, Epilog, rt.Linked, Bounded, Size, MovedBy;
    var p, c := Prolog(4 * Slots(x)), Gen(rt, x, ToEax, Start(check)) + Epilog();
    BytesConcat(p, c);
    BytesSize(p);
    assert p + Gen(rt, x, ToEax, Start(check)) + Epilog() == p + c;
    if rt.Linked() && Bounded(rt, x, check) && Count(x, ToEax, StackGo) == 0 {
      ProgramRefsMoved(rt, x, check);
    }
  }

  lemma FrameBytes()
    ensures BytesOf([Plain(Push(EBP)), Plain(Mov(EBP, ESP)), Plain(Push(EDI))]) == [0x55, 0x8b, 0xec, 0x57]
    ensures BytesOf([LoadNil()]) == [0x8b, 0x06] && BytesOf(PushLoop()) == [0x50, 0x4a, 0x7f, 0xfc]
    ensures BytesOf([Plain(Push(EAX))]) == [0x50]
  {
    hide Encode;
    StackBytes();
    RegisterBytes();
    ArithmeticBytes();
    CellBytes();
    SmallBytes(0);
    var a, b := [Plain(Push(EBP)), Plain(Mov(EBP, ESP)), Plain(Push(EDI))], PushLoop();
    assert a[1..][1..] == [Plain(Push(EDI))] && b[1..][1..] == [Plain(Jcc8(G, -4))];
    OneItem(Plain(Push(EDI)));
    OneItem(Plain(Jcc8(G, -4)));
    OneItem(LoadNil());
    OneItem(Plain(Push(EAX)));
  }

  lemma RepeatBytes(n: nat)
    ensures BytesOf(Repeat(Plain(Push(EAX)), n)) + [0x50] == BytesOf(Repeat(Plain(Push(EAX)), n + 1))
  {
    hide Encode;
    FrameBytes();
    RepeatSnoc(n);
    BytesConcat(Repeat(Plain(Push(EAX)), n), [Plain(Push(EAX))]);
  }

  lemma {:induction false} RepeatSnoc(n: nat)
    ensures Repeat(Plain(Push(EAX)), n) + [Plain(Push(EAX))] == Repeat(Plain(Push(EAX)), n + 1)
  {
    if n > 0 {
      RepeatSnoc(n - 1);
    }
  }

  lemma PrologBytes(envSize: nat, pbuf: seq<Byte>)
    requires envSize / 4 < 0x1_0000_0000
    requires var start := [0x55, 0x8b, 0xec, 0x57];
             pbuf == if envSize == 0 then start
                     else if envSize < 64 then start + [0x8b, 0x06] + BytesOf(Repeat(Plain(Push(EAX)), (envSize + 3) / 4))
                     else start + [0x8b, 0x06] + ([0xba] + LE32(envSize / 4)) + [0x50, 0x4a, 0x7f, 0xfc]
    ensures pbuf == BytesOf(Prolog(envSize))
  {
    hide Encode, LE32, Repeat;
    FrameBytes();
    var start := [Plain(Push(EBP)), Plain(Mov(EBP, ESP)), Plain(Push(EDI))];
    BytesConcat(start, FillCode(envSize));
    if envSize == 0 {
    } else if envSize < 64 {
      BytesConcat([LoadNil()], Repeat(Plain(Push(EAX)), (envSize + 3) / 4));
    } else {
      var count := Plain(MovImm(EDX, envSize / 4));
      CountBytes(envSize / 4);
      BytesConcat([count], PushLoop());
      BytesConcat([LoadNil()], [count] + PushLoop());
    }
  }

  lemma CountBytes(w: Word)
    ensures BytesOf([Plain(MovImm(EDX, w))]) == [0xba] + LE32(w)
  {
    OneItem(Plain(MovImm(EDX, w)));
  }
}
