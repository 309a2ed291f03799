/** Blocks, tags and the exits to them: branches wait in the records and are patched where they land. */
module Landings {
  import opened Words
  import opened X86
  import opened Runtime
  import opened Machine
  import opened Lisp
  import opened CodeGen
  import opened Tails
  import opened Exits
  import opened Parts
  import opened Encoding
  import opened Assembler
  import opened Patching
  import opened Stages

  // ----- BLOCK -----

  /** Code c with the branches to record rec at the given offsets patched; everything else as in q. */
  ghost predicate PatchedSome(p: Progress, c: Code, rec: nat, targets: seq<int>, done: set<int>, q: Progress, now: Progress) {
    now == q.(code := p.code + BytesOf(SettleSome(c, 0, rec, targets, done)))
  }

  lemma PatchedNone(p: Progress, r: Cleanup, c: Code, rec: nat, targets: seq<int>, q: Progress)
    requires Grew(p.(cleanups := p.cleanups + [r]), c, q) && rec == |p.cleanups|
    ensures |q.cleanups| == rec + 1 && PatchedSome(p, c, rec, targets, {}, Trim(q, rec), Trim(q, rec))
  {
    SettleNone(c, 0, rec, targets);
  }

  /** Patching one waiting branch. */
  lemma PatchedOne(p: Progress, c: Code, rec: nat, targets: seq<int>, done: set<int>, q: Progress, now: Progress, at: int, tag: nat)
    requires PatchedSome(p, c, rec, targets, done, q, now)
    requires tag < |targets| && ExitAt(c, at - 1 - |p.code|, Label(rec, tag))
    ensures 0 <= at && at + 4 <= |now.code|
    ensures PatchedSome(p, c, rec, targets, done + {at - 1 - |p.code|}, q,
                        now.(code := Patched(now.code, at, Long(|p.code| + targets[tag] - (at + 4)))))
  {
    hide BytesOf, SettleSome, ExitAt, Patched;
    var o := at - 1 - |p.code|;
    SettleOneMore(c, 0, rec, targets, done, o, tag);
    assert targets[tag] - (0 + o + 5) == |p.code| + targets[tag] - (at + 4);
    PrefixPatched(p.code, BytesOf(SettleSome(c, 0, rec, targets, done)), o + 1, Long(targets[tag] - (0 + o + 5)));
    assert 0 + o == o;
  }

  lemma PrefixPatched(pre: seq<Byte>, s: seq<Byte>, at: int, b: seq<Byte>)
    requires 0 <= at && at + |b| <= |s|
    ensures Patched(pre + s, |pre| + at, b) == pre + Patched(s, at, b)
  {
  }

  /** All branches patched and the record popped: the settled code, as if it had been emitted in the outer context. */
  lemma LandedAll(p: Progress, c: Code, rec: nat, targets: seq<int>, done: set<int>, r: Cleanup, q: Progress, now: Progress)
    requires rec == |p.cleanups| && Grew(p.(cleanups := p.cleanups + [r]), c, q)
    requires forall t: nat :: CanWait(p.cleanups + [r], Label(rec, t)) ==> t < |targets|
    requires AllDone(c, 0, rec, targets, done)
    requires |q.cleanups| == rec + 1 && PatchedSome(p, c, rec, targets, done, Trim(q, rec), now)
    ensures Grew(p, SettleAll(c, 0, rec, targets), now)
  {
    hide BytesOf, SettleSome, SettleAll, AddBranches, RefsOf, CanWait, AllDone;
    SettleDone(c, 0, rec, targets, done);
    PoppedBranches(p.cleanups, r, c, |p.code|, 0, targets);
    SettledRefs(c, 0, rec, targets, |p.code|);
  }

  /** The branches that a record lists after its code was compiled. */
  lemma ListedBranches(p: Progress, c: Code, r: Cleanup, q: Progress, l: Label, at: int)
    requires l.rec == |p.cleanups| && Grew(p.(cleanups := p.cleanups + [r]), c, q)
    requires CanWait(p.cleanups + [r], l) && Waiting(p.cleanups + [r], l) == []
    ensures CanWait(q.cleanups, l) && (at in Waiting(q.cleanups, l) <==> ExitAt(c, at - 1 - |p.code|, l))
  {
    hide BytesOf, AddBranches, RefsOf, ExitAt, Waiting, CanWait;
    WaitingExact(p.cleanups + [r], c, |p.code|, l, at);
  }

  lemma OpenRecord(p: Progress, c: Code, r: Cleanup, q: Progress)
    requires Grew(p.(cleanups := p.cleanups + [r]), c, q)
    ensures |q.cleanups| == |p.cleanups| + 1 && RecOf(q.cleanups[|p.cleanups|]) == RecOf(r)
  {
    hide BytesOf, AddBranches, RefsOf;
    SameContext(p.cleanups + [r], c, |p.code|);
    assert RecsOf(q.cleanups)[|p.cleanups|] == RecOf(r);
  }

  /** The branches a block's record lists are all of those in its body. */
  lemma BlockListed(p: Progress, c: Code, name: Name, q: Progress, done: set<int>, size: int)
    requires Grew(p.(cleanups := p.cleanups + [BlockCleanup(name, p.si, [])]), c, q)
    requires |q.cleanups| == |p.cleanups| + 1 && q.cleanups[|p.cleanups|].BlockCleanup?
    requires forall at :: at in q.cleanups[|p.cleanups|].branches ==> at - 1 - |p.code| in done
    ensures AllDone(c, 0, |p.cleanups|, [size], done)
  {
    hide BytesOf, AddBranches, RefsOf, ExitAt;
    var l := Label(|p.cleanups|, 0);
    forall o: int, t: nat | t < 1 && ExitAt(c, o, Label(|p.cleanups|, t))
      ensures 0 + o in done
    {
      ListedBranches(p, c, BlockCleanup(name, p.si, []), q, l, o + 1 + |p.code|);
      assert o + 1 + |p.code| - 1 - |p.code| == o;
    }
  }

  lemma BlockWaits(p: Progress, c: Code, name: Name, q: Progress)
    requires Grew(p.(cleanups := p.cleanups + [BlockCleanup(name, p.si, [])]), c, q)
    requires |q.cleanups| == |p.cleanups| + 1 && q.cleanups[|p.cleanups|].BlockCleanup?
    ensures forall at :: at in q.cleanups[|p.cleanups|].branches ==> ExitAt(c, at - 1 - |p.code|, Label(|p.cleanups|, 0))
  {
    hide BytesOf, AddBranches, RefsOf, ExitAt;
    forall at | at in q.cleanups[|p.cleanups|].branches
      ensures ExitAt(c, at - 1 - |p.code|, Label(|p.cleanups|, 0))
    {
      ListedBranches(p, c, BlockCleanup(name, p.si, []), q, Label(|p.cleanups|, 0), at);
    }
  }

  lemma BlockDone(rt: Runtime, check: bool, p: Progress, x: Form, dest: Dest, q: Progress, r: Progress)
    requires x.Block?
    requires var b := GenForms(rt, x.body, ToEax, BlockContext(ContextOf(p, check), x.name));
             && Grew(p, SettleAll(b, 0, |p.cleanups|, [Size(b)]), q)
             && q.si == p.si - 4 * CountForms(x.body, ToEax, StackGo) && q.env == p.env + 4 * SlotsForms(x.body)
    requires r == Emitted(q, PushIfStack(dest), q.si + (if dest == ToStack then 4 else 0), q.env)
    ensures FormDone(rt, check, p, x, dest, r)
  {
    hide Emitted, Gen, GenForms, SlotsForms, CountForms, Slots, Count, PushIfStack, SettleAll, Size, BlockContext;
    var b := GenForms(rt, x.body, ToEax, BlockContext(ContextOf(p, check), x.name));
    UnfoldBlock(rt, x, dest, ContextOf(p, check));
    GrewIs(q, PushIfStack(dest), r);
    Grow(p, SettleAll(b, 0, |p.cleanups|, [Size(b)]), q, PushIfStack(dest), r, check);
  }

  lemma OpenedContext(check: bool, p: Progress, r: Cleanup)
    ensures ContextOf(p.(cleanups := p.cleanups + [r]), check) == ContextOf(p, check).(recs := ContextOf(p, check).recs + [RecOf(r)])
  {
    hide RecsOf;
    RecsConcat(p.cleanups, [r]);
    OneRec(r);
  }

  // ----- exits -----

  lemma ReturnDone(rt: Runtime, check: bool, p: Progress, x: Form, dest: Dest, k: int, q: Progress, r: Progress, s: Progress)
    requires x.ReturnFrom? && k == FindBlock(ContextOf(p, check).recs, x.name) && k >= 0
    requires FormDone(rt, check, p, x.value, dest, q)
    requires r == Emitted(q, Adjust(q.si - ContextOf(p, check).recs[k].depth), q.si, q.env)
    requires s == Emitted(r, [Exit(Label(k, 0))], r.si, r.env)
    ensures FormDone(rt, check, p, x, dest, s)
  {
    hide Emitted, Gen, Slots, Count, Size, Adjust, ContextOf, FindBlock;
    var cx := ContextOf(p, check);
    UnfoldReturn(rt, x, dest, cx);
    var g, a := Gen(rt, x.value, dest, cx), Adjust(q.si - cx.recs[k].depth);
    Grow(p, g, q, a, r, check);
    Grow(p, g + a, r, [Exit(Label(k, 0))], s, check);
  }

  lemma GoDone(rt: Runtime, check: bool, p: Progress, x: Form, dest: Dest, k: int, t: nat, r: Progress, s: Progress)
    requires x.Go? && k == FindTags(ContextOf(p, check).recs, x.tag) && k >= 0 && t == IndexOf(ContextOf(p, check).recs[k].tags, x.tag)
    requires r == Emitted(p, Adjust(p.si - ContextOf(p, check).recs[k].depth), p.si, p.env)
    requires s == Emitted(r, [Exit(Label(k, t))], r.si, r.env)
    ensures FormDone(rt, check, p, x, dest, s)
  {
    hide Emitted, Size, Adjust, ContextOf, FindTags, IndexOf;
    Grow(p, Adjust(p.si - ContextOf(p, check).recs[k].depth), r, [Exit(Label(k, t))], s, check);
    assert Next(ContextOf(p, check), x, dest).si == p.si && Next(ContextOf(p, check), x, dest).env == p.env;
  }

  lemma BlockWellFormed(cl: seq<Cleanup>, r: Cleanup)
    requires WellFormed(cl) && (r.TagsCleanup? ==> |r.tags| == |r.waiting|)
    ensures WellFormed(cl + [r])
  {
  }

  lemma LandBlock(p: Progress, c: Code, r: Cleanup, done: set<int>, q: Progress, now: Progress)
    requires r.BlockCleanup? && Grew(p.(cleanups := p.cleanups + [r]), c, q) && |q.cleanups| == |p.cleanups| + 1
    requires AllDone(c, 0, |p.cleanups|, [Size(c)], done)
    requires PatchedSome(p, c, |p.cleanups|, [Size(c)], done, Trim(q, |p.cleanups|), now)
    ensures Grew(p, SettleAll(c, 0, |p.cleanups|, [Size(c)]), now) && now.si == q.si && now.env == q.env
  {
    hide BytesOf, SettleSome, SettleAll, AddBranches, RefsOf, AllDone, Size;
    LandedAll(p, c, |p.cleanups|, [Size(c)], done, r, q, now);
  }

  lemma RecsAre(p: Progress, check: bool)
    ensures ContextOf(p, check).recs == RecsOf(p.cleanups)
  {
  }

  lemma BlockCanWait(cl: seq<Cleanup>, k: int, recs: seq<Rec>)
    requires recs == RecsOf(cl) && 0 <= k < |recs| && recs[k].BlockRec?
    ensures cl[k].BlockCleanup? && cl[k].depth == recs[k].depth && CanWait(cl, Label(k, 0))
  {
  }

  lemma AdjustCanWait(q: Progress, diff: int, r: Progress, k: nat, tag: nat)
    requires r == Emitted(q, Adjust(diff), q.si, q.env) && CanWait(q.cleanups, Label(k, tag))
    ensures CanWait(r.cleanups, Label(k, tag))
  {
    hide Encode, BytesOf, RefsOf, CanWait;
    assert AddBranches(q.cleanups, Adjust(diff), |q.code|) == q.cleanups;
  }

  lemma TagsCanWait(cl: seq<Cleanup>, k: int, recs: seq<Rec>, tag: Name)
    requires recs == RecsOf(cl) && 0 <= k < |recs| && recs[k].TagsRec? && tag in recs[k].tags && WellFormed(cl)
    ensures cl[k].TagsCleanup? && cl[k].depth == recs[k].depth && CanWait(cl, Label(k, IndexOf(recs[k].tags, tag)))
  {
  }

  // ----- TAGBODY -----

  ghost predicate NoExits(c: Code) {
    forall i :: 0 <= i < |c| ==> c[i].I?
  }

  lemma {:induction false} NoExitBranches(cl: seq<Cleanup>, c: Code, pos: int)
    requires NoExits(c)
    ensures AddBranches(cl, c, pos) == cl
    decreases c
  {
    hide Encode;
    if c != [] {
      NoExitBranches(cl, c[1..], pos + Len(c[0]));
    }
  }

  /** Code without exits is the same before and after a record is pushed. */
  lemma OpenedLater(p: Progress, c: Code, q: Progress, r: Cleanup)
    requires Grew(p, c, q) && NoExits(c)
    ensures Grew(p.(cleanups := p.cleanups + [r]), c, q.(cleanups := q.cleanups + [r]))
  {
    hide BytesOf, RefsOf, AddBranches, NoExits;
    NoExitBranches(p.cleanups, c, |p.code|);
    NoExitBranches(p.cleanups + [r], c, |p.code|);
  }

  lemma PreNoExits(items: Items, dest: Dest)
    ensures NoExits(TagbodyPre(items)) && NoExits(PushIfStack(dest))
  {
  }

  function AfterItems(cx: Context, items: Items): Context {
    cx.(env := cx.env + 4 * SlotsItems(items), si := cx.si - 4 * CountItems(items, StackGo))
  }

  function Relative(addresses: seq<int>, base: int): (r: seq<int>)
    ensures |r| == |addresses|
  {
    seq(|addresses|, i requires 0 <= i < |addresses| => addresses[i] - base)
  }

  ghost predicate ItemsSoFar(rt: Runtime, check: bool, p: Progress, items: Items, pre: Code, done: Code, addresses: seq<int>, rest: Items, q: Progress) {
    var cx, here := ContextOf(p, check), ContextOf(q, check);
    && Grew(p, done, q)
    && done + GenItems(rt, rest, here) == pre + GenItems(rt, items, cx)
    && AcceptsItems(rt, rest, here) == AcceptsItems(rt, items, cx)
    && AfterItems(here, rest) == AfterItems(cx, items)
    && Relative(addresses, |p.code|) + TagOffsets(rt, rest, here, Size(done)) == TagOffsets(rt, items, cx, Size(pre))
  }

  lemma ItemsStart(rt: Runtime, check: bool, p: Progress, items: Items, pre: Code, q: Progress)
    requires Grew(p, pre, q) && q.si == p.si && q.env == p.env
    ensures ItemsSoFar(rt, check, p, items, pre, pre, [], items, q)
  {
    hide GenItems, AcceptsItems, AfterItems, Emitted, TagOffsets, ContextOf, Size;
    GrewContext(p, pre, q, check);
  }

  lemma UnfoldTag(rt: Runtime, items: Items, cx: Context)
    requires items.Tag?
    ensures GenItems(rt, items, cx) == GenItems(rt, items.rest, cx) && AcceptsItems(rt, items, cx) == AcceptsItems(rt, items.rest, cx)
    ensures AfterItems(cx, items) == AfterItems(cx, items.rest)
  {
    hide Gen, Accepts, Slots, Count;
  }

  lemma UnfoldStmt(rt: Runtime, items: Items, cx: Context)
    requires items.Stmt?
    ensures var cx1 := Next(cx, items.form, ToEax);
            && GenItems(rt, items, cx) == Gen(rt, items.form, ToEax, cx) + GenItems(rt, items.rest, cx1)
            && AcceptsItems(rt, items, cx) == (Accepts(rt, items.form, ToEax, cx) && AcceptsItems(rt, items.rest, cx1))
            && AfterItems(cx, items) == AfterItems(cx1, items.rest)
  {
    hide Gen, Accepts, Slots, Count;
  }

  lemma ItemsTag(rt: Runtime, check: bool, p: Progress, items: Items, pre: Code, done: Code, addresses: seq<int>, rest: Items, q: Progress)
    requires rest.Tag? && ItemsSoFar(rt, check, p, items, pre, done, addresses, rest, q)
    ensures ItemsSoFar(rt, check, p, items, pre, done, addresses + [|q.code|], rest.rest, q)
  {
    hide GenItems, AcceptsItems, AfterItems, Emitted, TagOffsets, ContextOf, Size;
    var here := ContextOf(q, check);
    GrewContext(p, done, q, check);
    UnfoldTag(rt, rest, here);
    TagHeadOffset(rt, rest.tag, rest.rest, here, Size(done));
    var more := TagOffsets(rt, rest.rest, here, Size(done));
    assert Relative(addresses + [|q.code|], |p.code|) == Relative(addresses, |p.code|) + [Size(done)];
    assert Relative(addresses, |p.code|) + [Size(done)] + more == Relative(addresses, |p.code|) + ([Size(done)] + more);
  }

  lemma ItemsStmt(rt: Runtime, check: bool, p: Progress, items: Items, pre: Code, done: Code, addresses: seq<int>, rest: Items, q: Progress, r: Progress)
    requires rest.Stmt? && ItemsSoFar(rt, check, p, items, pre, done, addresses, rest, q)
    requires FormDone(rt, check, q, rest.form, ToEax, r) && Accepts(rt, rest.form, ToEax, ContextOf(q, check))
    ensures ItemsSoFar(rt, check, p, items, pre, done + Gen(rt, rest.form, ToEax, ContextOf(q, check)), addresses, rest.rest, r)
  {
    hide GenItems, AcceptsItems, AfterItems, Emitted, TagOffsets, ContextOf, Size, Gen, Accepts, FormDone, Grew, Relative;
    var here, next := ContextOf(q, check), ContextOf(r, check);
    var g := Gen(rt, rest.form, ToEax, here);
    GrowForm(rt, check, p, done, q, rest.form, ToEax, r);
    UnfoldStmt(rt, rest, here);
    StmtHead(rt, rest.form, rest.rest, here, Size(done));
    SizeConcat(done, g);
    Joined(done, g, GenItems(rt, rest.rest, next));
  }

  lemma ItemsReject(rt: Runtime, check: bool, p: Progress, items: Items, pre: Code, done: Code, addresses: seq<int>, rest: Items, q: Progress)
    requires rest.Stmt? && ItemsSoFar(rt, check, p, items, pre, done, addresses, rest, q)
    requires !Accepts(rt, rest.form, ToEax, ContextOf(q, check))
    ensures !AcceptsItems(rt, items, ContextOf(p, check))
  {
    hide GenItems, AcceptsItems, AfterItems, Emitted, TagOffsets, ContextOf, Size, Gen, Accepts, Grew, Relative;
    UnfoldStmt(rt, rest, ContextOf(q, check));
  }

  lemma EndedItems(rt: Runtime, rest: Items, cx: Context, pos: int)
    requires rest.NoItems?
    ensures GenItems(rt, rest, cx) == [] && AcceptsItems(rt, rest, cx) && AfterItems(cx, rest) == cx && TagOffsets(rt, rest, cx, pos) == []
  {
    hide Gen, Accepts, Count, Slots;
  }

  lemma ItemsEnd(rt: Runtime, check: bool, p: Progress, items: Items, pre: Code, done: Code, addresses: seq<int>, rest: Items, q: Progress)
    requires rest.NoItems? && ItemsSoFar(rt, check, p, items, pre, done, addresses, rest, q)
    ensures AcceptsItems(rt, items, ContextOf(p, check))
    ensures GrewTo(p, pre + GenItems(rt, items, ContextOf(p, check)), AfterItems(ContextOf(p, check), items), q)
    ensures Relative(addresses, |p.code|) == TagOffsets(rt, items, ContextOf(p, check), Size(pre))
  {
    hide GenItems, AcceptsItems, AfterItems, Emitted, TagOffsets, Size;
    EndedItems(rt, rest, ContextOf(q, check), Size(done));
    assert done + [] == done;
    assert Relative(addresses, |p.code|) + [] == Relative(addresses, |p.code|);
  }

  lemma {:induction false} SettleConcat(a: Code, b: Code, pos: int, rec: nat, targets: seq<int>)
    ensures SettleAll(a + b, pos, rec, targets) == SettleAll(a, pos, rec, targets) + SettleAll(b, pos + Size(a), rec, targets)
    decreases a
  {
    hide Encode, SettleItem;
    if a == [] {
      assert a + b == b;
    } else {
      assert (a + b)[1..] == a[1..] + b;
      SettleConcat(a[1..], b, pos + Len(a[0]), rec, targets);
    }
  }

  lemma SettlePush(dest: Dest, pos: int, rec: nat, targets: seq<int>)
    ensures SettleAll(PushIfStack(dest), pos, rec, targets) == PushIfStack(dest)
  {
  }

  /** The whole TAGBODY: its landed code is the code of the form. */
  lemma TagbodyDone(rt: Runtime, check: bool, p: Progress, x: Form, dest: Dest, q: Progress)
    requires x.Tagbody? && HasStmt(x.items)
    requires var inner := TagsContext(ContextOf(p, check), x.items);
             var c := TagbodyPre(x.items) + GenItems(rt, x.items, inner) + GenNil(ToEax) + PushIfStack(dest);
             Grew(p, SettleAll(c, 0, |p.cleanups|, TagbodyTargets(rt, x.items, inner)), q)
    requires q.si == p.si + (if dest == ToStack then 4 else 0) - 4 * CountItems(x.items, StackGo) && q.env == p.env + 4 * SlotsItems(x.items)
    ensures FormDone(rt, check, p, x, dest, q)
  {
    hide Emitted, Gen, GenItems, SlotsItems, CountItems, Slots, Count, PushIfStack, SettleAll, Size, GenNil, TagbodyPre, TagbodyTargets;
    var inner := TagsContext(ContextOf(p, check), x.items);
    var targets := TagbodyTargets(rt, x.items, inner);
    UnfoldTagbody(rt, x, dest, ContextOf(p, check));
    SettleConcat(TagbodyPre(x.items) + GenItems(rt, x.items, inner) + GenNil(ToEax), PushIfStack(dest), 0, |p.cleanups|, targets);
    SettlePush(dest, Size(TagbodyPre(x.items) + GenItems(rt, x.items, inner) + GenNil(ToEax)), |p.cleanups|, targets);
  }

  function NumItems(items: Items): nat {
    match items case NoItems => 0 case Tag(_, rest) => 1 + NumItems(rest) case Stmt(_, rest) => 1 + NumItems(rest)
  }

  function NumGos(items: Items): nat {
    match items
    case NoItems => 0
    case Tag(_, rest) => NumGos(rest)
    case Stmt(x, rest) => (if x.Go? then 1 else 0) + NumGos(rest)
  }

  /** Counting tags and GOs tells whether there are statements, and statements other than GOs. */
  lemma {:induction false} CountsDecide(items: Items)
    ensures |TagNames(items)| + NumGos(items) <= NumItems(items)
    ensures |TagNames(items)| == NumItems(items) <==> !HasStmt(items)
    ensures |TagNames(items)| + NumGos(items) == NumItems(items) <==> OnlyGos(items)
  {
    match items
    case NoItems =>
    case Tag(_, rest) => CountsDecide(rest);
    case Stmt(_, rest) => CountsDecide(rest);
  }

  function EmptyLists(n: nat): (w: seq<seq<int>>)
    ensures |w| == n
  {
    seq(n, i => [])
  }

  lemma TagsOpen(p: Progress, c: Code, tags: seq<Name>, q: Progress)
    requires Grew(p.(cleanups := p.cleanups + [TagsCleanup(tags, p.si, EmptyLists(|tags|))]), c, q)
    ensures |q.cleanups| == |p.cleanups| + 1
    ensures var r := q.cleanups[|p.cleanups|];
            && r.TagsCleanup? && r.tags == tags && |r.waiting| == |tags|
            && forall t, at :: 0 <= t < |tags| ==> (at in r.waiting[t] <==> ExitAt(c, at - 1 - |p.code|, Label(|p.cleanups|, t)))
  {
    hide BytesOf, AddBranches, RefsOf, ExitAt;
    var r := TagsCleanup(tags, p.si, EmptyLists(|tags|));
    OpenRecord(p, c, r, q);
    if |tags| > 0 {
      ListedBranches(p, c, r, q, Label(|p.cleanups|, |tags| - 1), 0);
      StillListed(p.cleanups + [r], c, |p.code|, |p.cleanups|);
    } else {
      StillListed(p.cleanups + [r], c, |p.code|, |p.cleanups|);
    }
    forall t, at | 0 <= t < |tags|
      ensures at in q.cleanups[|p.cleanups|].waiting[t] <==> ExitAt(c, at - 1 - |p.code|, Label(|p.cleanups|, t))
    {
      ListedBranches(p, c, r, q, Label(|p.cleanups|, t), at);
    }
  }

  lemma {:induction false} StillListed(cl: seq<Cleanup>, c: Code, pos: int, k: nat)
    requires k < |cl| && cl[k].TagsCleanup?
    ensures var r := AddBranches(cl, c, pos)[k]; r.TagsCleanup? && |r.waiting| == |cl[k].waiting|
    decreases c
  {
    hide Encode;
    if c != [] {
      StillListed(AddItem(cl, c[0], pos), c[1..], pos + Len(c[0]), k);
    }
  }

  /** The branches that the tags of the record list are all of those in the tagbody. */
  lemma TagsListed(p: Progress, c: Code, n: nat, w: seq<seq<int>>, targets: seq<int>, done: set<int>)
    requires |w| == |targets|
    requires forall t, at :: 0 <= t < |w| ==> (at in w[t] <==> ExitAt(c, at - 1 - |p.code|, Label(n, t)))
    requires forall t, at :: 0 <= t < |w| && at in w[t] ==> at - 1 - |p.code| in done
    ensures AllDone(c, 0, n, targets, done)
  {
    hide ExitAt;
    forall o: int, t: nat | t < |targets| && ExitAt(c, o, Label(n, t))
      ensures 0 + o in done
    {
      var at := o + 1 + |p.code|;
      assert at - 1 - |p.code| == o;
      assert at in w[t];
    }
  }

  lemma {:induction false} NoStmts(items: Items)
    requires !HasStmt(items)
    ensures SlotsItems(items) == 0 && CountItems(items, StackGo) == 0
  {
    match items
    case NoItems =>
    case Tag(_, rest) => NoStmts(rest);
  }

  lemma EmptyTagbody(rt: Runtime, check: bool, p: Progress, x: Form, dest: Dest, q: Progress)
    requires x.Tagbody? && !HasStmt(x.items) && q == Emitted(p, GenNil(dest), p.si + (if dest == ToStack then 4 else 0), p.env)
    ensures FormDone(rt, check, p, x, dest, q)
  {
    hide Emitted, Gen, GenItems, SlotsItems, CountItems, Slots, Count, GenNil, HasStmt;
    UnfoldTagbody(rt, x, dest, ContextOf(p, check));
    NoStmts(x.items);
  }

  /** The end of a TAGBODY's code: the final NIL and the push. */
  lemma TagbodyCode(p: Progress, a: Code, q: Progress, dest: Dest, r: Progress, s: Progress, check: bool)
    requires Grew(p, a, q) && r == Emitted(q, GenNil(ToEax), q.si, q.env)
    requires s == Emitted(r, PushIfStack(dest), r.si + (if dest == ToStack then 4 else 0), r.env)
    ensures Grew(p, a + GenNil(ToEax) + PushIfStack(dest), s)
  {
    hide Emitted, GenNil, PushIfStack, Size;
    Grow(p, a, q, GenNil(ToEax), r, check);
    Grow(p, a + GenNil(ToEax), r, PushIfStack(dest), s, check);
  }

  lemma LandTags(rt: Runtime, p: Progress, c: Code, tags: seq<Name>, targets: seq<int>, done: set<int>, q: Progress, now: Progress)
    requires Grew(p.(cleanups := p.cleanups + [TagsCleanup(tags, p.si, EmptyLists(|tags|))]), c, q) && |q.cleanups| == |p.cleanups| + 1
    requires |targets| == |tags| && AllDone(c, 0, |p.cleanups|, targets, done)
    requires PatchedSome(p, c, |p.cleanups|, targets, done, Trim(q, |p.cleanups|), now)
    ensures Grew(p, SettleAll(c, 0, |p.cleanups|, targets), now) && now.si == q.si && now.env == q.env
  {
    hide BytesOf, SettleSome, SettleAll, AddBranches, RefsOf, AllDone, Size;
    LandedAll(p, c, |p.cleanups|, targets, done, TagsCleanup(tags, p.si, EmptyLists(|tags|)), q, now);
  }
}
