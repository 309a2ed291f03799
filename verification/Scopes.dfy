/** Entering and leaving scopes: the records a form pushes, and what its exits look like from outside. */
module Scopes {
  import opened Words
  import opened X86
  import opened Runtime
  import opened Machine
  import opened Lisp
  import opened CodeGen
  import opened Relation
  import opened Steps
  import opened Glue

  /** inner is outer with more records and slots, its new variables in slots unallocated in outer. */
  ghost predicate Nested(outer: Context, inner: Context) {
    && |outer.recs| <= |inner.recs| && inner.recs[..|outer.recs|] == outer.recs
    && inner.env >= outer.env && inner.si == outer.si
    && |Vars(outer.recs)| <= |Vars(inner.recs)| && Vars(inner.recs)[..|Vars(outer.recs)|] == Vars(outer.recs)
    && forall i :: |Vars(outer.recs)| <= i < |Vars(inner.recs)| ==>
         IsSlot(Vars(inner.recs)[i].offset, inner.env) && Vars(inner.recs)[i].offset < -4 - outer.env
  }

  lemma ProtectedNested(fr: Frame, outer: Context, inner: Context)
    requires Nested(outer, inner) && outer.env % 4 == 0 && outer.env >= 0 && inner.env <= 4 * fr.slots
    ensures forall i :: Protected(fr, outer, i) ==> Protected(fr, inner, i)
  {
    forall i | Protected(fr, outer, i)
      ensures Protected(fr, inner, i)
    {
      var n := |Vars(outer.recs)|;
      forall k | 0 <= k < |Vars(inner.recs)|
        ensures fr.CellOf(Vars(inner.recs)[k].offset) != i
      {
        if k < n {
          assert Vars(inner.recs)[k] == Vars(inner.recs)[..n][k];
        } else {
          assert IsSlot(Vars(inner.recs)[k].offset, inner.env);
        }
      }
    }
  }

  lemma MatchesPrefix(rt: Runtime, fr: Frame, outer: Context, inner: Context, st: State, c: Cpu)
    requires Nested(outer, inner) && |Vars(inner.recs)| <= |st.env|
    requires Matches(rt, fr, inner.recs, Truncate(st, |Vars(inner.recs)|), c)
    ensures Matches(rt, fr, outer.recs, Truncate(st, |Vars(outer.recs)|), c)
  {
    hide HeapMatch;
    var n, k := |Vars(inner.recs)|, |Vars(outer.recs)|;
    assert Truncate(st, k).env == Truncate(st, n).env[..k];
    forall i | 0 <= i < k
      ensures Vars(inner.recs)[i] == Vars(outer.recs)[i]
    {
      assert Vars(inner.recs)[..k][i] == Vars(inner.recs)[i];
    }
  }

  lemma TruncateSelf(st: State)
    ensures Truncate(st, |st.env|) == st
  {
  }

  /** The labels of the outer records have the same addresses. */
  ghost predicate SameOuter(n: nat, tg: map<Label, int>, tg': map<Label, int>) {
    forall l: Label :: l.rec < n ==> (l in tg <==> l in tg') && (l in tg ==> tg[l] == tg'[l])
  }

  lemma ExitedOutside(rt: Runtime, fr: Frame, outer: Context, inner: Context, tg: map<Label, int>, tg': map<Label, int>,
                      k: int, tag: nat, st: State, c: Cpu, c1: Cpu, c': Cpu)
    requires Sound(outer) && Nested(outer, inner) && inner.env <= 4 * fr.slots
    requires SameOuter(|outer.recs|, tg, tg') && 0 <= k < |outer.recs|
    requires Exited(rt, fr, inner, tg', k, tag, st, c1, c')
    requires Keeps(fr, outer, c.stack, c1.stack, fr.Base() + outer.si / 4)
    ensures Exited(rt, fr, outer, tg, k, tag, st, c, c')
  {
    hide Matches, Protected;
    assert inner.recs[k] == inner.recs[..|outer.recs|][k] == outer.recs[k];
    MatchesPrefix(rt, fr, outer, inner, st, c');
    ProtectedNested(fr, outer, inner);
    assert outer.recs[k].depth / 4 <= outer.si / 4;
    var top := |c'.stack|;
    assert Keeps(fr, outer, c.stack, c1.stack, top);
    KeepsTrans(fr, outer, inner, c.stack, c1.stack, c'.stack, top, top);
    assert Label(k, tag).rec == k;
  }

  /** The exits of a form inside a scope keep their targets outside it. */
  ghost predicate SameTargets(outer: Context, inner: Context, out: Outcome) {
    match out
    case Return(n, _, _) => FindBlock(inner.recs, n) == FindBlock(outer.recs, n)
    case Jump(t, _) =>
      && FindTags(inner.recs, t) == FindTags(outer.recs, t)
      && (FindTags(outer.recs, t) >= 0 ==> inner.recs[FindTags(outer.recs, t)] == outer.recs[FindTags(outer.recs, t)])
    case _ => true
  }

  lemma LeaveExit(img: Image, rt: Runtime, fr: Frame, tg: map<Label, int>, tg': map<Label, int>, outer: Context, inner: Context,
                  dest1: Dest, end1: int, dest: Dest, end: int, c: Cpu, c1: Cpu, out: Outcome, fuel: nat, exact: bool)
    requires Sound(outer) && Nested(outer, inner) && inner.env <= 4 * fr.slots && SameOuter(|outer.recs|, tg, tg')
    requires Reach(img, rt, Running(c), Running(c1), 0)
    requires Keeps(fr, outer, c.stack, c1.stack, fr.Base() + outer.si / 4)
    requires !out.Val? && SameTargets(outer, inner, out)
    requires Simulates(img, rt, fr, tg', inner, dest1, end1, c1, out, fuel, exact)
    ensures Simulates(img, rt, fr, tg, outer, dest, end, c, out, fuel, exact)
  {
    hide Reach, Exited, HeapMatch, Keeps, SameOuter, Sound, Nested;
    match out
    case Return(n, w, st') =>
      var k := FindBlock(outer.recs, n);
      var c' :| Reach(img, rt, Running(c1), Running(c'), 1) && Exited(rt, fr, inner, tg', k, 0, st', c1, c')
                && c'.eax == w && (exact ==> c'.ecx == 1);
      Continue(img, rt, Running(c), Running(c1), Running(c'), 1);
      ExitedIndex(rt, fr, inner, tg', k, 0, st', c1, c');
      ExitedOutside(rt, fr, outer, inner, tg, tg', k, 0, st', c, c1, c');
    case Jump(tag, st') =>
      var k := FindTags(outer.recs, tag);
      var t := IndexOf(outer.recs[k].tags, tag);
      var c' :| Reach(img, rt, Running(c1), Running(c'), 1) && Exited(rt, fr, inner, tg', k, t, st', c1, c');
      Continue(img, rt, Running(c), Running(c1), Running(c'), 1);
      ExitedIndex(rt, fr, inner, tg', k, t, st', c1, c');
      ExitedOutside(rt, fr, outer, inner, tg, tg', k, t, st', c, c1, c');
    case Signal(st') =>
      var h :| Reach(img, rt, Running(c1), Raised(h), 0) && HeapMatch(rt, st'.globals, h);
      Continue(img, rt, Running(c), Running(c1), Raised(h), 0);
    case Diverge =>
      var c' :| Reach(img, rt, Running(c1), Running(c'), fuel);
      Continue(img, rt, Running(c), Running(c1), Running(c'), fuel);
  }

  lemma ExitedIndex(rt: Runtime, fr: Frame, cx: Context, tg: map<Label, int>, k: int, tag: nat, st': State, c: Cpu, c': Cpu)
    requires Exited(rt, fr, cx, tg, k, tag, st', c, c')
    ensures k >= 0
  {
  }

  /** Leaving a scope: the bindings it added are dropped from the state and the frame still matches. */
  lemma LeaveScope(img: Image, rt: Runtime, fr: Frame, tg: map<Label, int>, tg': map<Label, int>, outer: Context, inner: Context,
                   end: int, c: Cpu, c1: Cpu, out: Outcome, fuel: nat, exact: bool)
    requires Sound(outer) && Nested(outer, inner) && inner.env <= 4 * fr.slots && SameOuter(|outer.recs|, tg, tg')
    requires Reach(img, rt, Running(c), Running(c1), 0)
    requires Keeps(fr, outer, c.stack, c1.stack, fr.Base() + outer.si / 4)
    requires SameTargets(outer, inner, out)
    requires Simulates(img, rt, fr, tg', inner, ToEax, end, c1, out, fuel, exact)
    ensures Simulates(img, rt, fr, tg, outer, ToEax, end, c, Leave(out, |Vars(outer.recs)|), fuel, exact)
  {
    hide Reach, HeapMatch, Keeps, Protected, Sound, Exited, Nested, SameOuter;
    if out.Val? {
      var c' :| Reach(img, rt, Running(c1), Running(c'), 0)
                && Finished(rt, fr, inner, ToEax, end, out.w, out.st, c1, c', exact);
      Continue(img, rt, Running(c), Running(c1), Running(c'), 0);
      FinishedOutside(rt, fr, outer, inner, end, out.w, out.st, c, c1, c', exact);
    } else {
      LeaveExit(img, rt, fr, tg, tg', outer, inner, ToEax, end, ToEax, end, c, c1, out, fuel, exact);
    }
  }

  lemma FinishedOutside(rt: Runtime, fr: Frame, outer: Context, inner: Context, end: int, w: Word, st: State,
                        c: Cpu, c1: Cpu, c': Cpu, exact: bool)
    requires Sound(outer) && Nested(outer, inner) && inner.env <= 4 * fr.slots
    requires Keeps(fr, outer, c.stack, c1.stack, fr.Base() + outer.si / 4)
    requires Finished(rt, fr, inner, ToEax, end, w, st, c1, c', exact)
    ensures Finished(rt, fr, outer, ToEax, end, w, Truncate(st, |Vars(outer.recs)|), c, c', exact)
  {
    hide HeapMatch, Protected;
    TruncateSelf(st);
    MatchesPrefix(rt, fr, outer, inner, st, c');
    ProtectedNested(fr, outer, inner);
    var top := fr.Base() + outer.si / 4;
    KeepsTrans(fr, outer, inner, c.stack, c1.stack, c'.stack, top, top);
  }

  // ----- searching through the records a scope adds -----

  lemma FindSnoc(recs: seq<Rec>, r: Rec, n: Name)
    ensures FindBlock(recs + [r], n) == if r.BlockRec? && r.name == n then |recs| else FindBlock(recs, n)
    ensures FindTags(recs + [r], n) == if r.TagsRec? && n in r.tags then |recs| else FindTags(recs, n)
    ensures FindLet(recs + [r], n) == if r.LetRec? && r.name == n then |recs| else FindLet(recs, n)
  {
    assert (recs + [r])[..|recs|] == recs;
  }

  lemma {:induction false} FindThroughLets(recs: seq<Rec>, lets: seq<Rec>, n: Name)
    requires forall i :: 0 <= i < |lets| ==> lets[i].LetRec?
    ensures FindBlock(recs + lets, n) == FindBlock(recs, n)
    ensures FindTags(recs + lets, n) == FindTags(recs, n)
  {
    if lets == [] {
      assert recs + lets == recs;
    } else {
      var k := |lets| - 1;
      assert recs + lets == (recs + lets[..k]) + [lets[k]];
      FindSnoc(recs + lets[..k], lets[k], n);
      FindThroughLets(recs, lets[..k], n);
    }
  }

  /** A scope that adds only LET records. */
  lemma LetsSameTargets(outer: Context, inner: Context, lets: seq<Rec>, out: Outcome)
    requires inner.recs == outer.recs + lets && forall i :: 0 <= i < |lets| ==> lets[i].LetRec?
    ensures SameTargets(outer, inner, out)
  {
    match out
    case Return(n, _, _) => FindThroughLets(outer.recs, lets, n);
    case Jump(t, _) => FindThroughLets(outer.recs, lets, t);
    case _ =>
  }

  // ----- the records of LET -----

  lemma {:induction false} LetRecsFresh(b: Binds, env: int)
    requires env % 4 == 0 && env >= 0
    ensures var recs := LetRecs(b, env);
            && (forall i :: 0 <= i < |recs| ==> recs[i].LetRec? && IsSlot(recs[i].offset, env + 4 * SlotsInits(b)) && recs[i].offset < -4 - env)
            && (forall i, j :: 0 <= i < j < |recs| ==> recs[i].offset != recs[j].offset)
  {
    if b.Binds? {
      var env1 := env + 4 + 4 * Slots(b.init);
      assert env1 % 4 == 0;
      LetRecsFresh(b.rest, env1);
      assert env1 + 4 * SlotsInits(b.rest) == env + 4 * SlotsInits(b);
      assert IsSlot(SlotOffset(env), env + 4 * SlotsInits(b));
      assert LetRecs(b, env) == LetRecs(b.rest, env1) + [LetRec(b.name, SlotOffset(env))];
    }
  }

  lemma {:induction false} VarsOfLets(lets: seq<Rec>)
    requires forall i :: 0 <= i < |lets| ==> lets[i].LetRec?
    ensures Vars(lets) == lets
  {
    if lets != [] {
      VarsOfLets(lets[..|lets| - 1]);
    }
  }

  /** Old slots and new ones together: all allocated, all different. */
  lemma SlotsJoin(prior: seq<Rec>, lets: seq<Rec>, env: int, env1: int)
    requires env <= env1
    requires forall i :: 0 <= i < |prior| ==> prior[i].LetRec? && IsSlot(prior[i].offset, env)
    requires forall i, j :: 0 <= i < j < |prior| ==> prior[i].offset != prior[j].offset
    requires forall i :: 0 <= i < |lets| ==> lets[i].LetRec? && IsSlot(lets[i].offset, env1) && lets[i].offset < -4 - env
    requires forall i, j :: 0 <= i < j < |lets| ==> lets[i].offset != lets[j].offset
    ensures var all := prior + lets;
            && (forall i :: 0 <= i < |all| ==> all[i].LetRec? && IsSlot(all[i].offset, env1))
            && (forall i :: |prior| <= i < |all| ==> all[i].offset < -4 - env)
            && (forall i, j :: 0 <= i < j < |all| ==> all[i].offset != all[j].offset)
  {
    var all, n := prior + lets, |prior|;
    assert forall i :: 0 <= i < n ==> all[i] == prior[i];
    assert forall i :: n <= i < |all| ==> all[i] == lets[i - n];
    forall i, j | 0 <= i < j < |all|
      ensures all[i].offset != all[j].offset
    {
      if n <= i {
        assert all[i] == lets[i - n] && all[j] == lets[j - n];
      }
    }
  }

  /** A context extended with LET records whose slots are new. */
  lemma NestedLets(outer: Context, inner: Context, lets: seq<Rec>)
    requires Sound(outer) && inner.recs == outer.recs + lets && inner.si == outer.si && inner.env >= outer.env && inner.env % 4 == 0
    requires forall i :: 0 <= i < |lets| ==> lets[i].LetRec? && IsSlot(lets[i].offset, inner.env) && lets[i].offset < -4 - outer.env
    requires forall i, j :: 0 <= i < j < |lets| ==> lets[i].offset != lets[j].offset
    ensures Nested(outer, inner) && Sound(inner)
    ensures Vars(inner.recs) == Vars(outer.recs) + lets
  {
    hide Vars, IsSlot;
    VarsConcat(outer.recs, lets);
    VarsOfLets(lets);
    SlotsJoin(Vars(outer.recs), lets, outer.env, inner.env);
    assert inner.recs[..|outer.recs|] == outer.recs;
    var prior := Vars(outer.recs);
    assert (prior + lets)[..|prior|] == prior;
    DepthsJoin(outer, inner, lets);
  }

  lemma DepthsJoin(outer: Context, inner: Context, lets: seq<Rec>)
    requires Sound(outer) && inner.recs == outer.recs + lets && inner.si == outer.si
    requires forall i :: 0 <= i < |lets| ==> lets[i].LetRec?
    ensures forall i :: 0 <= i < |inner.recs| && !inner.recs[i].LetRec? ==> inner.recs[i].depth % 4 == 0 && 0 <= inner.recs[i].depth <= inner.si
  {
    forall i | 0 <= i < |inner.recs| && !inner.recs[i].LetRec?
      ensures inner.recs[i].depth % 4 == 0 && 0 <= inner.recs[i].depth <= inner.si
    {
      assert inner.recs[i] == outer.recs[i];
    }
  }

  /** Entering a scope of LET records: the frame matches once the new slots hold the new values. */
  lemma MatchesLets(rt: Runtime, fr: Frame, recs: seq<Rec>, lets: seq<Rec>, st: State, more: Env, c: Cpu)
    requires forall i :: 0 <= i < |lets| ==> lets[i].LetRec?
    requires Matches(rt, fr, recs, st, c) && VarsMatch(fr, lets, more, c.stack)
    ensures Matches(rt, fr, recs + lets, st.(env := st.env + more), c)
  {
    hide HeapMatch, VarsMatch;
    VarsConcat(recs, lets);
    VarsOfLets(lets);
    MatchConcat(fr, Vars(recs), st.env, lets, more, c.stack);
  }

  lemma MatchConcat(fr: Frame, vars: seq<Rec>, env: Env, lets: seq<Rec>, more: Env, stack: seq<Cell>)
    requires forall r :: r in vars || r in lets ==> r.LetRec?
    requires VarsMatch(fr, vars, env, stack) && VarsMatch(fr, lets, more, stack)
    ensures VarsMatch(fr, vars + lets, env + more, stack)
  {
  }

  /** A scope marker that is not a variable. */
  lemma NestedMarker(outer: Context, inner: Context, r: Rec)
    requires Sound(outer) && inner == outer.(recs := outer.recs + [r])
    requires !r.LetRec? && r.depth == outer.si
    ensures Nested(outer, inner) && Sound(inner) && Vars(inner.recs) == Vars(outer.recs)
  {
    VarsSnoc(outer.recs, r);
    assert inner.recs[..|outer.recs|] == outer.recs;
  }
}
