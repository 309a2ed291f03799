/** Patching the branches that waited for a block's end or for tags, in whatever order, settles the code. */
module Patching {
  import opened Words
  import opened X86
  import opened Runtime
  import opened Machine
  import opened Lisp
  import opened CodeGen
  import opened Tails
  import opened Exits
  import opened Encoding
  import opened Assembler

  /** A pending branch to l stands at offset o. */
  ghost predicate ExitAt(c: Code, o: int, l: Label)
    decreases c
  {
    c != [] && (if o == 0 then c[0] == Exit(l) else ExitAt(c[1..], o - Len(c[0]), l))
  }

  /** The code, starting at offset pos, with those branches to record rec settled that stand at the offsets in done. */
  ghost function SettleSome(c: Code, pos: int, rec: nat, targets: seq<int>, done: set<int>): Code
    decreases c
  {
    if c == [] then []
    else [if pos in done then SettleItem(c[0], pos, rec, targets) else c[0]]
         + SettleSome(c[1..], pos + Len(c[0]), rec, targets, done)
  }

  lemma {:induction false} SettleNone(c: Code, pos: int, rec: nat, targets: seq<int>)
    ensures SettleSome(c, pos, rec, targets, {}) == c
    decreases c
  {
    hide Encode, SettleItem;
    if c != [] {
      SettleNone(c[1..], pos + Len(c[0]), rec, targets);
      assert c == [c[0]] + c[1..];
    }
  }

  lemma {:induction false} ExitInside(c: Code, o: int, l: Label)
    requires ExitAt(c, o, l)
    ensures 0 <= o && o + 5 <= Size(c)
    decreases c
  {
    hide Encode;
    if o != 0 {
      ExitInside(c[1..], o - Len(c[0]), l);
    }
  }

  lemma {:induction false} SettleSomeSize(c: Code, pos: int, rec: nat, targets: seq<int>, done: set<int>)
    ensures Size(SettleSome(c, pos, rec, targets, done)) == Size(c)
    decreases c
  {
    hide Encode, SettleItem;
    if c != [] {
      var h, t := if pos in done then SettleItem(c[0], pos, rec, targets) else c[0], SettleSome(c[1..], pos + Len(c[0]), rec, targets, done);
      SettleLen(c[0], pos, rec, targets);
      SettleSomeSize(c[1..], pos + Len(c[0]), rec, targets, done);
      assert ([h] + t)[1..] == t;
    }
  }

  /** Positions before the code do not matter. */
  lemma {:induction false} SettleLater(c: Code, pos: int, rec: nat, targets: seq<int>, done: set<int>, o: int)
    requires o < pos
    ensures SettleSome(c, pos, rec, targets, done + {o}) == SettleSome(c, pos, rec, targets, done)
    decreases c
  {
    hide Encode, SettleItem;
    if c != [] {
      SettleLater(c[1..], pos + Len(c[0]), rec, targets, done, o);
    }
  }

  lemma BytesHead(h: Item, t: Code)
    ensures BytesOf([h] + t) == Encode(InstrOf(h)) + BytesOf(t)
  {
    assert ([h] + t)[1..] == t;
  }

  lemma PatchedJump(pos: int, rec: nat, targets: seq<int>, tag: nat, settled: bool)
    requires tag < |targets|
    ensures var h := Exit(Label(rec, tag));
            var s := SettleItem(h, pos, rec, targets);
            && |Encode(InstrOf(h))| == 5 && |Encode(InstrOf(s))| == 5
            && Patched(Encode(InstrOf(if settled then s else h)), 1, Long(targets[tag] - (pos + 5))) == Encode(InstrOf(s))
  {
    hide Long;
    var s := SettleItem(Exit(Label(rec, tag)), pos, rec, targets);
    assert Encode(InstrOf(s)) == [0xe9] + Long(targets[tag] - (pos + 5));
    assert Encode(InstrOf(Exit(Label(rec, tag)))) == [0xe9] + Long(0);
  }

  lemma PatchHead(e: seq<Byte>, rest: seq<Byte>, b: seq<Byte>, e': seq<Byte>)
    requires |e| == 5 && |b| == 4 && Patched(e, 1, b) == e'
    ensures Patched(e + rest, 1, b) == e' + rest
  {
    PatchedMiddle([], e, rest, 1, b);
    assert [] + e + rest == e + rest;
    assert [] + e' + rest == e' + rest;
  }

  lemma PatchTail(e: seq<Byte>, rest: seq<Byte>, at: int, b: seq<Byte>)
    requires |e| <= at && at + |b| <= |e| + |rest|
    ensures Patched(e + rest, at, b) == e + Patched(rest, at - |e|, b)
  {
  }

  /** Writing the distance to the target into one waiting branch settles that branch and no other. */
  lemma {:induction false} SettleOneMore(c: Code, pos: int, rec: nat, targets: seq<int>, done: set<int>, o: int, tag: nat)
    requires ExitAt(c, o, Label(rec, tag)) && tag < |targets|
    ensures var b := BytesOf(SettleSome(c, pos, rec, targets, done));
            && 0 <= o && o + 5 <= |b|
            && Patched(b, o + 1, Long(targets[tag] - (pos + o + 5))) == BytesOf(SettleSome(c, pos, rec, targets, done + {pos + o}))
    decreases c
  {
    hide Encode, SettleItem, Patched, Long, InstrOf;
    SettleSomeSize(c, pos, rec, targets, done);
    BytesSize(SettleSome(c, pos, rec, targets, done));
    ExitInside(c, o, Label(rec, tag));
    var s := SettleItem(c[0], pos, rec, targets);
    var h, t := if pos in done then s else c[0], SettleSome(c[1..], pos + Len(c[0]), rec, targets, done);
    BytesHead(h, t);
    var v := Long(targets[tag] - (pos + o + 5));
    if o == 0 {
      PatchedJump(pos, rec, targets, tag, pos in done);
      PatchHead(Encode(InstrOf(h)), BytesOf(t), v, Encode(InstrOf(s)));
      SettleLater(c[1..], pos + Len(c[0]), rec, targets, done, pos);
      BytesHead(s, t);
    } else {
      SettleLaterItem(c, pos, rec, targets, done, o, tag);
    }
  }

  lemma SettleLaterItem(c: Code, pos: int, rec: nat, targets: seq<int>, done: set<int>, o: int, tag: nat)
    requires c != [] && ExitAt(c[1..], o - Len(c[0]), Label(rec, tag)) && tag < |targets|
    ensures var b := BytesOf(SettleSome(c, pos, rec, targets, done));
            && 0 <= o && o + 5 <= |b|
            && Patched(b, o + 1, Long(targets[tag] - (pos + o + 5))) == BytesOf(SettleSome(c, pos, rec, targets, done + {pos + o}))
    decreases c, 0
  {
    hide Encode, SettleItem, Patched, Long, InstrOf, Size, BytesOf, Len, ExitAt;
    var n := Len(c[0]);
    var more := done + {pos + o};
    var h, t, t' := if pos in done then SettleItem(c[0], pos, rec, targets) else c[0],
                    SettleSome(c[1..], pos + n, rec, targets, done), SettleSome(c[1..], pos + n, rec, targets, more);
    SettleOneMore(c[1..], pos + n, rec, targets, done, o - n, tag);
    assert pos + n + (o - n) == pos + o;
    SettleLen(c[0], pos, rec, targets);
    TailPatched(h, t, t', n, o, Long(targets[tag] - (pos + o + 5)));
    assert pos in more <==> pos in done;
    assert SettleSome(c, pos, rec, targets, done) == [h] + t;
    assert SettleSome(c, pos, rec, targets, more) == [h] + t';
  }

  lemma TailPatched(h: Item, t: Code, t': Code, n: int, o: int, v: seq<Byte>)
    requires Len(h) == n && |v| == 4 && 0 <= o - n && o - n + 5 <= |BytesOf(t)| && Patched(BytesOf(t), o - n + 1, v) == BytesOf(t')
    ensures 0 <= o && o + 5 <= |BytesOf([h] + t)| && Patched(BytesOf([h] + t), o + 1, v) == BytesOf([h] + t')
  {
    hide Encode, BytesOf, Patched;
    LenBytes(h);
    BytesHead(h, t);
    BytesHead(h, t');
    PatchTail(Encode(InstrOf(h)), BytesOf(t), o + 1, v);
  }

  lemma LenBytes(it: Item)
    ensures |Encode(InstrOf(it))| == Len(it)
  {
  }

  ghost predicate AllDone(c: Code, pos: int, rec: nat, targets: seq<int>, done: set<int>) {
    forall o: int, t: nat :: t < |targets| && ExitAt(c, o, Label(rec, t)) ==> pos + o in done
  }

  /** Once every branch to the record is done, the code is settled. */
  lemma {:induction false} SettleDone(c: Code, pos: int, rec: nat, targets: seq<int>, done: set<int>)
    requires AllDone(c, pos, rec, targets, done)
    ensures SettleSome(c, pos, rec, targets, done) == SettleAll(c, pos, rec, targets)
    decreases c
  {
    hide Encode, AllDone, SettleItem;
    if c != [] {
      TailDone(c, pos, rec, targets, done);
      SettleDone(c[1..], pos + Len(c[0]), rec, targets, done);
      HeadDone(c, pos, rec, targets, done);
    }
  }

  lemma ExitShift(c: Code, o: int, l: Label)
    requires c != [] && 0 <= o && ExitAt(c[1..], o, l)
    ensures ExitAt(c, o + Len(c[0]), l)
  {
    hide Encode;
    assert o + Len(c[0]) - Len(c[0]) == o;
  }

  lemma TailDone(c: Code, pos: int, rec: nat, targets: seq<int>, done: set<int>)
    requires c != [] && AllDone(c, pos, rec, targets, done)
    ensures AllDone(c[1..], pos + Len(c[0]), rec, targets, done)
  {
    hide Encode;
    var n, rest := Len(c[0]), c[1..];
    forall o: int, t: nat | t < |targets| && ExitAt(rest, o, Label(rec, t))
      ensures pos + n + o in done
    {
      var l := Label(rec, t);
      ExitInside(rest, o, l);
      ExitShift(c, o, l);
      assert pos + (o + n) in done;
    }
  }

  lemma HeadDone(c: Code, pos: int, rec: nat, targets: seq<int>, done: set<int>)
    requires c != [] && AllDone(c, pos, rec, targets, done)
    ensures pos !in done ==> SettleItem(c[0], pos, rec, targets) == c[0]
  {
    if c[0].Exit? && c[0].target.rec == rec && c[0].target.tag < |targets| {
      assert ExitAt(c, 0, Label(rec, c[0].target.tag));
      assert pos + 0 in done;
    }
  }

  // ----- the branches in the records -----

  /** The positions that wait for a label. */
  function Waiting(cl: seq<Cleanup>, l: Label): seq<int> {
    if l.rec >= |cl| then []
    else
      match cl[l.rec]
      case LetCleanup(_, _) => []
      case BlockCleanup(_, _, bs) => if l.tag == 0 then bs else []
      case TagsCleanup(_, _, w) => if l.tag < |w| then w[l.tag] else []
  }

  /** The record of l can hold branches to l. */
  predicate CanWait(cl: seq<Cleanup>, l: Label) {
    && l.rec < |cl|
    && match cl[l.rec]
       case LetCleanup(_, _) => false
       case BlockCleanup(_, _, _) => l.tag == 0
       case TagsCleanup(_, _, w) => l.tag < |w|
  }

  lemma AddedItem(cl: seq<Cleanup>, it: Item, pos: int, l: Label)
    ensures CanWait(AddItem(cl, it, pos), l) <==> CanWait(cl, l)
    ensures Waiting(AddItem(cl, it, pos), l) == if it == Exit(l) && CanWait(cl, l) then [pos + 1] + Waiting(cl, l) else Waiting(cl, l)
  {
  }

  /** The branches recorded for a label are exactly the pending ones in the code, and those recorded before. */
  lemma {:induction false} WaitingExact(cl: seq<Cleanup>, c: Code, pos: int, l: Label, at: int)
    requires CanWait(cl, l)
    ensures CanWait(AddBranches(cl, c, pos), l)
    ensures at in Waiting(AddBranches(cl, c, pos), l) <==> at in Waiting(cl, l) || ExitAt(c, at - 1 - pos, l)
    decreases c
  {
    hide Encode, AddItem, CanWait, Waiting;
    if c != [] {
      AddedItem(cl, c[0], pos, l);
      WaitingExact(AddItem(cl, c[0], pos), c[1..], pos + Len(c[0]), l, at);
      if ExitAt(c[1..], at - 1 - (pos + Len(c[0])), l) {
        ExitInside(c[1..], at - 1 - (pos + Len(c[0])), l);
      }
      assert at - 1 - pos - Len(c[0]) == at - 1 - (pos + Len(c[0]));
    }
  }

  lemma PoppedItem(cl: seq<Cleanup>, r: Cleanup, it: Item, pos: int, opos: int, targets: seq<int>)
    requires forall t: nat :: CanWait(cl + [r], Label(|cl|, t)) ==> t < |targets|
    ensures AddItem(cl + [r], it, pos)[..|cl|] == AddItem(cl, SettleItem(it, opos, |cl|, targets), pos)
    ensures |AddItem(cl + [r], it, pos)| == |cl| + 1
    ensures forall t: nat :: CanWait(AddItem(cl + [r], it, pos), Label(|cl|, t)) ==> t < |targets|
  {
    forall t: nat
      ensures CanWait(AddItem(cl + [r], it, pos), Label(|cl|, t)) ==> t < |targets|
    {
      AddedItem(cl + [r], it, pos, Label(|cl|, t));
    }
  }

  /** The outer records have, after the inner record is popped, the branches of the settled code. */
  lemma {:induction false} PoppedBranches(cl: seq<Cleanup>, r: Cleanup, c: Code, pos: int, opos: int, targets: seq<int>)
    requires forall t: nat :: CanWait(cl + [r], Label(|cl|, t)) ==> t < |targets|
    ensures AddBranches(cl + [r], c, pos)[..|cl|] == AddBranches(cl, SettleAll(c, opos, |cl|, targets), pos)
    decreases c
  {
    hide Encode, AddItem, SettleItem, CanWait;
    if c == [] {
      assert (cl + [r])[..|cl|] == cl;
    } else {
      var n := Len(c[0]);
      var all := AddItem(cl + [r], c[0], pos);
      PoppedItem(cl, r, c[0], pos, opos, targets);
      var s, rest := SettleItem(c[0], opos, |cl|, targets), SettleAll(c[1..], opos + n, |cl|, targets);
      assert ([s] + rest)[1..] == rest;
      SettleLen(c[0], opos, |cl|, targets);
      assert all == all[..|cl|] + [all[|cl|]];
      PoppedBranches(all[..|cl|], all[|cl|], c[1..], pos + n, opos + n, targets);
    }
  }

  lemma {:induction false} SettledRefs(c: Code, opos: int, rec: nat, targets: seq<int>, pos: int)
    ensures RefsOf(SettleAll(c, opos, rec, targets), pos) == RefsOf(c, pos)
    decreases c
  {
    hide Encode, SettleItem, RefOf;
    if c != [] {
      var s, rest := SettleItem(c[0], opos, rec, targets), SettleAll(c[1..], opos + Len(c[0]), rec, targets);
      assert ([s] + rest)[1..] == rest;
      SettleLen(c[0], opos, rec, targets);
      SettledRef(c[0], opos, rec, targets, pos);
      SettledRefs(c[1..], opos + Len(c[0]), rec, targets, pos + Len(c[0]));
    }
  }

  lemma SettledRef(it: Item, opos: int, rec: nat, targets: seq<int>, pos: int)
    ensures RefOf(SettleItem(it, opos, rec, targets), pos) == RefOf(it, pos)
  {
    hide Encode;
  }
}
