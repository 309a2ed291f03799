/** Block ends and tags: settled branches, the code of an exit, and the states at its target. */
module Exits {
  import opened Words
  import opened X86
  import opened Runtime
  import opened Machine
  import opened Lisp
  import opened CodeGen
  import opened Relation
  import opened Steps
  import opened Tails
  import opened Glue
  import opened Layout
  import opened Scopes

  /** tg with the labels of record rec at base plus the given offsets. */
  ghost function Retarget(tg: map<Label, int>, rec: nat, targets: seq<int>, base: int): map<Label, int> {
    tg + (map t: nat | t < |targets| :: Label(rec, t) := base + targets[t])
  }

  lemma RetargetFacts(tg: map<Label, int>, rec: nat, targets: seq<int>, base: int)
    ensures var r := Retarget(tg, rec, targets, base);
            && SameOuter(rec, tg, r)
            && (forall t: nat :: t < |targets| ==> Label(rec, t) in r && r[Label(rec, t)] == base + targets[t])
            && (forall l: Label :: l in tg && !(l.rec == rec && l.tag < |targets|) ==> l in r && r[l] == tg[l])
  {
  }

  lemma {:induction false} SettleSize(c: Code, pos: int, rec: nat, targets: seq<int>)
    ensures Size(SettleAll(c, pos, rec, targets)) == Size(c) && |SettleAll(c, pos, rec, targets)| == |c|
    decreases c
  {
    hide Len, SettleItem;
    if c != [] {
      var rest := SettleAll(c[1..], pos + Len(c[0]), rec, targets);
      SettleSize(c[1..], pos + Len(c[0]), rec, targets);
      assert ([SettleItem(c[0], pos, rec, targets)] + rest)[1..] == rest;
      SettleLen(c[0], pos, rec, targets);
    }
  }

  /** Settling a branch does not change its length. */
  lemma SettleLen(it: Item, pos: int, rec: nat, targets: seq<int>)
    ensures Len(SettleItem(it, pos, rec, targets)) == Len(it)
  {
  }

  /** A settled branch stands where the pending one would under the new labels. */
  lemma SettledPlaced(img: Image, pc: int, it: Item, pos: int, rec: nat, targets: seq<int>, tg: map<Label, int>)
    requires Placed(img, pc, SettleItem(it, pos, rec, targets), tg)
    ensures Placed(img, pc, it, Retarget(tg, rec, targets, pc - pos))
  {
    hide Encode;
    SettleLen(it, pos, rec, targets);
    RetargetFacts(tg, rec, targets, pc - pos);
  }

  /** Code whose branches to record rec have been settled is the pending code with those labels known. */
  lemma {:induction false} SettledCode(img: Image, pc: int, c: Code, pos: int, rec: nat, targets: seq<int>, tg: map<Label, int>)
    requires CodeAt(img, pc, SettleAll(c, pos, rec, targets), tg)
    ensures CodeAt(img, pc, c, Retarget(tg, rec, targets, pc - pos))
    decreases c
  {
    hide Encode, Placed, SettleItem, Retarget;
    if c != [] {
      var s, rest := SettleItem(c[0], pos, rec, targets), SettleAll(c[1..], pos + Len(c[0]), rec, targets);
      assert ([s] + rest)[0] == s && ([s] + rest)[1..] == rest;
      SettleLen(c[0], pos, rec, targets);
      SettledPlaced(img, pc, c[0], pos, rec, targets, tg);
      SettledCode(img, pc + Len(c[0]), c[1..], pos + Len(c[0]), rec, targets, tg);
    }
  }

  // ----- the code of an exit -----

  /** Dropping the operands above the target's depth. */
  lemma RunAdjust(img: Image, rt: Runtime, fr: Frame, tg: map<Label, int>, cx: Context, st: State, c0: Cpu, c: Cpu, depth: int, rest: Code)
    returns (c': Cpu)
    requires Sound(cx) && cx.env <= 4 * fr.slots && Reach(img, rt, Running(c0), Running(c), 0) && At(rt, fr, cx, st, c0, c)
    requires 0 <= depth <= cx.si && depth % 4 == 0
    requires CodeAt(img, c.pc, Adjust(cx.si - depth) + rest, tg)
    ensures Reach(img, rt, Running(c0), Running(c'), 0) && CodeAt(img, c'.pc, rest, tg)
    ensures c'.stack == c.stack[..fr.Base() + depth / 4] && c'.heap == c.heap && c'.ebp == c.ebp
    ensures c'.eax == c.eax && c'.ecx == c.ecx
  {
    hide Reach, CodeAt, Matches, Keeps, Encode;
    if cx.si - depth > 0 {
      var drop := I(AddEsp(cx.si - depth), PutBack);
      assert (cx.si - depth) / 4 == cx.si / 4 - depth / 4;
      Advance(img, rt, tg, c0, c, [drop] + rest, drop, rest);
      c' := DropCells(c.(pc := c.pc + Len(drop)), (cx.si - depth) / 4);
    } else {
      assert Adjust(cx.si - depth) + rest == rest;
      c' := c;
    }
  }

  /** The adjusted state at the exit's target. */
  lemma ExitState(rt: Runtime, fr: Frame, cx: Context, tg: map<Label, int>, st: State, c0: Cpu, c: Cpu, c2: Cpu, k: int, tag: nat)
    requires Sound(cx) && cx.env <= 4 * fr.slots && At(rt, fr, cx, st, c0, c)
    requires 0 <= k < |cx.recs| && !cx.recs[k].LetRec?
    requires Label(k, tag) in tg && c2.pc == tg[Label(k, tag)]
    requires c2.stack == c.stack[..fr.Base() + cx.recs[k].depth / 4] && c2.heap == c.heap && c2.ebp == c.ebp
    ensures Exited(rt, fr, cx, tg, k, tag, st, c0, c2)
  {
    hide HeapMatch, IsSlot;
    assert cx.recs[k].depth / 4 <= cx.si / 4;
    TruncateSelf(st);
    BelowFresh(fr, cx);
    assert cx.env / 4 <= fr.slots;
    assert forall i :: 0 <= i < |Vars(cx.recs)| ==> fr.CellOf(Vars(cx.recs)[i].offset) < |c2.stack|;
  }

  lemma RunExit(img: Image, rt: Runtime, fr: Frame, tg: map<Label, int>, cx: Context, st: State, c0: Cpu, c: Cpu, k: int, tag: nat)
    returns (c': Cpu)
    requires Sound(cx) && cx.env <= 4 * fr.slots && Reach(img, rt, Running(c0), Running(c), 0) && At(rt, fr, cx, st, c0, c)
    requires 0 <= k < |cx.recs| && !cx.recs[k].LetRec?
    requires CodeAt(img, c.pc, Adjust(cx.si - cx.recs[k].depth) + [Exit(Label(k, tag))], tg)
    ensures Reach(img, rt, Running(c0), Running(c'), 1) && Exited(rt, fr, cx, tg, k, tag, st, c0, c')
    ensures c'.eax == c.eax && c'.ecx == c.ecx
  {
    hide Reach, CodeAt, Matches, Keeps, Encode, At, Adjust;
    var exit := Exit(Label(k, tag));
    DepthsSound(cx, k);
    var c1 := RunAdjust(img, rt, fr, tg, cx, st, c0, c, cx.recs[k].depth, [exit]);
    Advance(img, rt, tg, c0, c1, [exit], exit, []);
    c' := c1.(pc := tg[Label(k, tag)]);
    ExitState(rt, fr, cx, tg, st, c0, c, c', k, tag);
  }

  lemma DepthsSound(cx: Context, k: int)
    requires Sound(cx) && 0 <= k < |cx.recs| && !cx.recs[k].LetRec?
    ensures 0 <= cx.recs[k].depth <= cx.si && cx.recs[k].depth % 4 == 0
  {
  }

  // ----- arriving at a block's end -----

  /** A RETURN-FROM that reached its block's end has finished the block. */
  lemma CatchReturn(rt: Runtime, fr: Frame, cx: Context, inner: Context, tg: map<Label, int>, st: State, c0: Cpu, c: Cpu, w: Word, exact: bool)
    requires Sound(cx) && Sound(inner) && inner.env == cx.env && inner.si == cx.si
    requires |inner.recs| == |cx.recs| + 1 && inner.recs[|cx.recs|].BlockRec? && inner.recs[|cx.recs|].depth == cx.si
    requires Vars(inner.recs) == Vars(cx.recs)
    requires Exited(rt, fr, inner, tg, |cx.recs|, 0, st, c0, c)
    requires c.eax == w && (exact ==> c.ecx == 1)
    ensures Finished(rt, fr, cx, ToEax, tg[Label(|cx.recs|, 0)], w, Truncate(st, |Vars(cx.recs)|), c0, c, exact)
  {
    hide HeapMatch;
    assert forall i :: Protected(fr, cx, i) ==> Protected(fr, inner, i);
  }

  /** A GO that reached its tag is back in the tagbody's frame. */
  lemma CatchJump(rt: Runtime, fr: Frame, cx: Context, cxt: Context, tg: map<Label, int>, tag: nat, st: State, c0: Cpu, c: Cpu)
    requires Sound(cx) && cxt.recs == cx.recs && cxt.si == cx.si && cxt.env % 4 == 0 && 0 <= cxt.env <= 4 * fr.slots
    requires |cx.recs| > 0 && cx.recs[|cx.recs| - 1].TagsRec? && cx.recs[|cx.recs| - 1].depth == cx.si
    requires Exited(rt, fr, cx, tg, |cx.recs| - 1, tag, st, c0, c)
    requires Sound(cxt)
    ensures Related(rt, fr, cxt, Truncate(st, |Vars(cx.recs)|), c) && c.pc == tg[Label(|cx.recs| - 1, tag)]
    ensures Keeps(fr, cx, c0.stack, c.stack, fr.Base() + cx.si / 4)
  {
    hide HeapMatch;
  }
}
