/**
 How a compiled frame represents the state of the source evaluator, what code may change in a
 frame, and the shape of the simulation between the two.
 */
module Relation {
  import opened Words
  import opened X86
  import opened Runtime
  import opened Machine
  import opened Lisp
  import opened CodeGen

  /** A frame: the cell EBP points at, and the number of slots the prolog fills. */
  datatype Frame = Frame(ebp: nat, slots: nat) {
    /** First cell above the slots; the saved EBP and the environment come before them. */
    function Base(): nat { ebp + 2 + slots }

    function CellOf(offset: int): int { ebp - offset / 4 }
  }

  /** The LET records, outermost first. */
  function Vars(recs: seq<Rec>): (v: seq<Rec>)
    ensures |v| <= |recs|
    ensures forall i :: 0 <= i < |v| ==> v[i].LetRec? && v[i] in recs
  {
    if recs == [] then []
    else
      var r := recs[|recs| - 1];
      if r.LetRec? then Vars(recs[..|recs| - 1]) + [r] else Vars(recs[..|recs| - 1])
  }

  predicate IsSlot(offset: int, env: int) {
    offset % 4 == 0 && -4 - env <= offset <= -8
  }

  /** No two live variables share a slot, every slot has been allocated, and exit depths are not above the stack index. */
  ghost predicate Sound(cx: Context) {
    && cx.env % 4 == 0 && cx.env >= 0 && cx.si % 4 == 0 && cx.si >= 0
    && (forall i :: 0 <= i < |Vars(cx.recs)| ==> IsSlot(Vars(cx.recs)[i].offset, cx.env))
    && (forall i, j :: 0 <= i < j < |Vars(cx.recs)| ==> Vars(cx.recs)[i].offset != Vars(cx.recs)[j].offset)
    && (forall i :: 0 <= i < |cx.recs| && !cx.recs[i].LetRec? ==> cx.recs[i].depth % 4 == 0 && 0 <= cx.recs[i].depth <= cx.si)
  }

  ghost predicate VarsMatch(fr: Frame, vars: seq<Rec>, env: Env, stack: seq<Cell>)
    requires forall i :: 0 <= i < |vars| ==> vars[i].LetRec?
  {
    && |vars| == |env|
    && forall i :: 0 <= i < |vars| ==>
         && vars[i].name == env[i].0
         && 0 <= fr.CellOf(vars[i].offset) < |stack|
         && stack[fr.CellOf(vars[i].offset)] == W(env[i].1)
  }

  ghost predicate HeapMatch(rt: Runtime, globals: map<Name, Word>, heap: map<Word, Word>) {
    forall n :: n in rt.vars ==> rt.vars[n].binding in heap && heap[rt.vars[n].binding] == GlobalValue(globals, n)
  }

  ghost predicate Matches(rt: Runtime, fr: Frame, recs: seq<Rec>, st: State, c: Cpu) {
    c.ebp == fr.ebp && VarsMatch(fr, Vars(recs), st.env, c.stack) && HeapMatch(rt, st.globals, c.heap)
  }

  /** At run time ESP is where the compile-time stack index says, and the slots hold the environment. */
  ghost predicate Related(rt: Runtime, fr: Frame, cx: Context, st: State, c: Cpu) {
    && Sound(cx)
    && cx.env <= 4 * fr.slots
    && |c.stack| == fr.Base() + cx.si / 4
    && Matches(rt, fr, cx.recs, st, c)
  }

  /** Cells that code compiled in cx leaves alone: not a live variable's, not an unallocated slot. */
  ghost predicate Protected(fr: Frame, cx: Context, i: int) {
    && (i < fr.ebp + 2 + cx.env / 4 || i >= fr.Base())
    && forall k :: 0 <= k < |Vars(cx.recs)| ==> fr.CellOf(Vars(cx.recs)[k].offset) != i
  }

  ghost predicate Keeps(fr: Frame, cx: Context, s: seq<Cell>, s': seq<Cell>, top: int) {
    && top <= |s| && top <= |s'|
    && forall i :: 0 <= i < top && Protected(fr, cx, i) ==> s'[i] == s[i]
  }

  /** The value is where the destination says; exact also claims the value count. */
  ghost predicate Delivered(rt: Runtime, dest: Dest, w: Word, c: Cpu, exact: bool) {
    match dest
    case ToEax => c.eax == w && (exact ==> c.ecx == 1)
    case ToOperand => c.eax == w
    case ToStack => |c.stack| > 0 && Top(c) == W(w)
    case ToZeroFlag => c.zf == (w != rt.nilWord)
  }

  function Height(fr: Frame, cx: Context, dest: Dest): int {
    fr.Base() + cx.si / 4 + (if dest == ToStack then 1 else 0)
  }

  ghost predicate Finished(rt: Runtime, fr: Frame, cx: Context, dest: Dest, end: int, w: Word, st': State,
                           c: Cpu, c': Cpu, exact: bool) {
    && c'.pc == end
    && |c'.stack| == Height(fr, cx, dest)
    && Matches(rt, fr, cx.recs, st', c')
    && Delivered(rt, dest, w, c', exact)
    && Keeps(fr, cx, c.stack, c'.stack, fr.Base() + cx.si / 4)
  }

  /** Control is at the label of record k, its operands dropped; bindings past those of cx are still to be dropped. */
  ghost predicate Exited(rt: Runtime, fr: Frame, cx: Context, tg: map<Label, int>, k: int, tag: nat, st': State,
                         c: Cpu, c': Cpu) {
    && 0 <= k < |cx.recs| && !cx.recs[k].LetRec?
    && Label(k, tag) in tg && c'.pc == tg[Label(k, tag)]
    && |c'.stack| == fr.Base() + cx.recs[k].depth / 4
    && |Vars(cx.recs)| <= |st'.env|
    && Matches(rt, fr, cx.recs, Truncate(st', |Vars(cx.recs)|), c')
    && Keeps(fr, cx, c.stack, c'.stack, |c'.stack|)
  }

  /** The machine, started at c, does what the evaluator's outcome says. */
  ghost predicate Simulates(img: Image, rt: Runtime, fr: Frame, tg: map<Label, int>, cx: Context, dest: Dest,
                            end: int, c: Cpu, out: Outcome, fuel: nat, exact: bool)
  {
    match out
    case Val(w, st') =>
      exists c' :: Reach(img, rt, Running(c), Running(c'), 0) && Finished(rt, fr, cx, dest, end, w, st', c, c', exact)
    case Return(n, w, st') =>
      exists c' ::
        && Reach(img, rt, Running(c), Running(c'), 1)
        && Exited(rt, fr, cx, tg, FindBlock(cx.recs, n), 0, st', c, c')
        && c'.eax == w && (exact ==> c'.ecx == 1)
    case Jump(tag, st') =>
      && FindTags(cx.recs, tag) >= 0
      && exists c' ::
        && Reach(img, rt, Running(c), Running(c'), 1)
        && Exited(rt, fr, cx, tg, FindTags(cx.recs, tag), IndexOf(cx.recs[FindTags(cx.recs, tag)].tags, tag), st', c, c')
    case Signal(st') =>
      exists h :: Reach(img, rt, Running(c), Raised(h), 0) && HeapMatch(rt, st'.globals, h)
    case Diverge =>
      exists c' :: Reach(img, rt, Running(c), Running(c'), fuel)
  }

  // ----- records and environments -----

  lemma VarsSnoc(recs: seq<Rec>, r: Rec)
    ensures Vars(recs + [r]) == Vars(recs) + (if r.LetRec? then [r] else [])
  {
    assert (recs + [r])[..|recs|] == recs;
  }

  lemma {:induction false} VarsConcat(a: seq<Rec>, b: seq<Rec>)
    ensures Vars(a + b) == Vars(a) + Vars(b)
  {
    if b == [] {
      assert a + b == a;
    } else {
      var n := |b| - 1;
      assert (a + b)[..|a + b| - 1] == a + b[..n];
      VarsConcat(a, b[..n]);
    }
  }

  /** The innermost record of a name describes the innermost binding of that name. */
  lemma {:induction false} LookupAgrees(fr: Frame, recs: seq<Rec>, env: Env, stack: seq<Cell>, n: Name)
    requires VarsMatch(fr, Vars(recs), env, stack)
    ensures var k, j := FindLet(recs, n), FindVar(env, n);
            && (k < 0 <==> j < 0)
            && (k >= 0 ==> Vars(recs)[j] == recs[k])
  {
    if recs != [] {
      var r, rest := recs[|recs| - 1], recs[..|recs| - 1];
      if r.LetRec? {
        if r.name != n {
          assert VarsMatch(fr, Vars(rest), env[..|env| - 1], stack);
          LookupAgrees(fr, rest, env[..|env| - 1], stack, n);
        }
      } else {
        LookupAgrees(fr, rest, env, stack, n);
      }
    }
  }
}
