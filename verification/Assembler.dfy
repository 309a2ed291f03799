/**
 What the compiler has written so far, as a value: the bytes, the table references, the branches
 waiting in the cleanup records, the stack index and the frame size.  The compiler's methods are
 specified by how emitting code changes this value.
 */
module Assembler {
  import opened Words
  import opened X86
  import opened Runtime
  import opened Machine
  import opened Lisp
  import opened CodeGen
  import opened Tails
  import opened Exits
  import opened Encoding

  /** A record of COMPILER_CLEANUPS, with the positions of the branches that wait for its address. */
  datatype Cleanup =
    | LetCleanup(name: Name, offset: int)
    | BlockCleanup(name: Name, depth: int, branches: seq<int>)
    | TagsCleanup(tags: seq<Name>, depth: int, waiting: seq<seq<int>>)

  /** A table reference: the position of four bytes and what they stand for. */
  datatype Ref = Ref(pos: int, note: Note)

  datatype Progress = Progress(code: seq<Byte>, refs: seq<Ref>, si: int, env: int, cleanups: seq<Cleanup>)

  function RecOf(r: Cleanup): Rec {
    match r
    case LetCleanup(n, offset) => LetRec(n, offset)
    case BlockCleanup(n, depth, _) => BlockRec(n, depth)
    case TagsCleanup(tags, depth, _) => TagsRec(tags, depth)
  }

  function RecsOf(cl: seq<Cleanup>): (recs: seq<Rec>)
    ensures |recs| == |cl|
  {
    seq(|cl|, i requires 0 <= i < |cl| => RecOf(cl[i]))
  }

  /** The compile-time context a form is compiled in. */
  function ContextOf(p: Progress, check: bool): (cx: Context)
    ensures cx.si == p.si && cx.env == p.env && |cx.recs| == |p.cleanups| && cx.check == check
  {
    Context(RecsOf(p.cleanups), p.si, p.env, check)
  }

  /** Adds a branch position at the head of the list for its label. */
  function AddBranch(cl: seq<Cleanup>, l: Label, at: int): (r: seq<Cleanup>)
    ensures |r| == |cl|
  {
    if l.rec >= |cl| then cl
    else
      match cl[l.rec]
      case LetCleanup(_, _) => cl
      case BlockCleanup(n, depth, bs) => if l.tag == 0 then cl[l.rec := BlockCleanup(n, depth, [at] + bs)] else cl
      case TagsCleanup(tags, depth, w) =>
        if l.tag < |w| then cl[l.rec := TagsCleanup(tags, depth, w[l.tag := [at] + w[l.tag]])] else cl
  }

  function AddItem(cl: seq<Cleanup>, it: Item, pos: int): (r: seq<Cleanup>)
    ensures |r| == |cl|
  {
    match it case Exit(l) => AddBranch(cl, l, pos + 1) case I(_, _) => cl
  }

  /** The pending branches of code that starts at pos. */
  function AddBranches(cl: seq<Cleanup>, c: Code, pos: int): (r: seq<Cleanup>)
    ensures |r| == |cl|
    decreases c
  {
    if c == [] then cl else AddBranches(AddItem(cl, c[0], pos), c[1..], pos + Len(c[0]))
  }

  function RefOf(it: Item, pos: int): seq<Ref> {
    match it
    case I(_, note) => if note.NoNote? || note.PutBack? then [] else [Ref(pos + Len(it) - 4, note)]
    case Exit(_) => []
  }

  /** The references of code that starts at pos: each is the last four bytes of its instruction. */
  function RefsOf(c: Code, pos: int): seq<Ref>
    decreases c
  {
    if c == [] then [] else RefOf(c[0], pos) + RefsOf(c[1..], pos + Len(c[0]))
  }

  /** p after emitting code c, with the stack index and frame size then in force. */
  function Emitted(p: Progress, c: Code, si: int, env: int): (q: Progress)
    ensures q.si == si && q.env == env && |q.cleanups| == |p.cleanups|
  {
    Progress(p.code + BytesOf(c), p.refs + RefsOf(c, |p.code|), si, env, AddBranches(p.cleanups, c, |p.code|))
  }

  // ----- emitting in steps -----

  lemma {:induction false} RefsConcat(a: Code, b: Code, pos: int)
    ensures RefsOf(a + b, pos) == RefsOf(a, pos) + RefsOf(b, pos + Size(a))
    decreases a
  {
    hide Encode;
    if a == [] {
      assert a + b == b;
    } else {
      assert (a + b)[1..] == a[1..] + b;
      RefsConcat(a[1..], b, pos + Len(a[0]));
    }
  }

  lemma {:induction false} BranchesConcat(cl: seq<Cleanup>, a: Code, b: Code, pos: int)
    ensures AddBranches(cl, a + b, pos) == AddBranches(AddBranches(cl, a, pos), b, pos + Size(a))
    decreases a
  {
    hide Encode, AddItem;
    if a == [] {
      assert a + b == b;
    } else {
      assert (a + b)[1..] == a[1..] + b;
      BranchesConcat(AddItem(cl, a[0], pos), a[1..], b, pos + Len(a[0]));
    }
  }

  /** Emitting a and then b is emitting a + b. */
  lemma EmittedTwice(p: Progress, a: Code, si1: int, env1: int, b: Code, si2: int, env2: int)
    ensures Emitted(Emitted(p, a, si1, env1), b, si2, env2) == Emitted(p, a + b, si2, env2)
    ensures |Emitted(p, a, si1, env1).code| == |p.code| + Size(a)
  {
    hide BytesOf, RefsOf, AddBranches, Size;
    BytesConcat(a, b);
    BytesSize(a);
    RefsConcat(a, b, |p.code|);
    BranchesConcat(p.cleanups, a, b, |p.code|);
  }

  lemma EmittedNothing(p: Progress)
    ensures Emitted(p, [], p.si, p.env) == p
  {
  }

  lemma SameRecs(cl: seq<Cleanup>, it: Item, pos: int)
    ensures RecsOf(AddItem(cl, it, pos)) == RecsOf(cl)
  {
  }

  /** Branches never change what a record binds. */
  lemma {:induction false} SameContext(cl: seq<Cleanup>, c: Code, pos: int)
    ensures RecsOf(AddBranches(cl, c, pos)) == RecsOf(cl)
    decreases c
  {
    hide Encode, AddItem, RecsOf;
    if c != [] {
      SameRecs(cl, c[0], pos);
      SameContext(AddItem(cl, c[0], pos), c[1..], pos + Len(c[0]));
    }
  }

  lemma EmittedContext(p: Progress, c: Code, si: int, env: int, check: bool)
    ensures ContextOf(Emitted(p, c, si, env), check) == ContextOf(p, check).(si := si, env := env)
  {
    hide AddBranches, RecsOf;
    SameContext(p.cleanups, c, |p.code|);
  }

  // ----- patching -----

  /** The bytes with those from position at on replaced. */
  function Patched(s: seq<Byte>, at: int, b: seq<Byte>): (r: seq<Byte>)
    requires 0 <= at && at + |b| <= |s|
    ensures |r| == |s|
  {
    s[..at] + b + s[at + |b|..]
  }

  /** A patch in the middle of a concatenation. */
  lemma PatchedMiddle(a: seq<Byte>, m: seq<Byte>, z: seq<Byte>, at: int, b: seq<Byte>)
    requires |a| <= at && at + |b| <= |a| + |m|
    ensures Patched(a + m + z, at, b) == a + Patched(m, at - |a|, b) + z
  {
  }

  /** The same instruction with another branch distance: as long, and with the same references. */
  predicate SameBranch(it: Item, it': Item) {
    && it.I? && it'.I? && it.note == it'.note == NoNote
    && match it.ins
       case Jcc32(cc, _) => it'.ins.Jcc32? && it'.ins.cc == cc
       case Jmp32(_) => it'.ins.Jmp32?
       case Jcc8(cc, _) => it'.ins.Jcc8? && it'.ins.cc == cc
       case Jmp8(_) => it'.ins.Jmp8?
       case _ => false
  }

  /** The displacement bytes of a branch. */
  function Displacement(it: Item): (r: seq<Byte>)
    requires it.I? && (it.ins.Jcc32? || it.ins.Jmp32? || it.ins.Jcc8? || it.ins.Jmp8?)
  {
    if it.ins.Jcc32? || it.ins.Jmp32? then Long(it.ins.disp) else [Byte8(it.ins.disp)]
  }

  lemma PatchedBranch(it: Item, it': Item)
    requires SameBranch(it, it')
    ensures Len(it) == Len(it') && |Displacement(it')| <= Len(it)
    ensures Patched(Encode(it.ins), Len(it) - |Displacement(it')|, Displacement(it')) == Encode(it'.ins)
  {
  }

  /** Rewriting a branch's displacement in the buffer is emitting it with that displacement. */
  lemma EmittedPatch(p: Progress, a: Code, it: Item, it': Item, b: Code, si: int, env: int)
    requires SameBranch(it, it')
    ensures var q := Emitted(p, a + [it] + b, si, env);
            var at := |p.code| + Size(a) + Len(it) - |Displacement(it')|;
            && 0 <= at && at + |Displacement(it')| <= |q.code|
            && q.(code := Patched(q.code, at, Displacement(it'))) == Emitted(p, a + [it'] + b, si, env)
  {
    hide BytesOf, RefsOf, AddBranches, Size, Encode, Patched, Displacement;
    PatchedBranch(it, it');
    BytesConcat(a, [it]);
    BytesConcat(a + [it], b);
    BytesConcat(a, [it']);
    BytesConcat(a + [it'], b);
    BytesSize(a);
    OneItem(it);
    OneItem(it');
    var x, y, at, d := p.code + BytesOf(a), BytesOf(b), |p.code| + Size(a) + Len(it) - |Displacement(it')|, Displacement(it');
    assert p.code + (BytesOf(a) + BytesOf([it]) + y) == x + BytesOf([it]) + y;
    PatchedMiddle(x, BytesOf([it]), y, at, d);
    assert p.code + (BytesOf(a) + BytesOf([it']) + y) == x + BytesOf([it']) + y;
    SameShape(p, a, it, it', b);
  }

  lemma OneItem(it: Item)
    ensures BytesOf([it]) == Encode(InstrOf(it)) && Size([it]) == Len(it)
  {
    hide Encode;
    assert [it][1..] == [];
    assert BytesOf([it]) == Encode(InstrOf(it)) + BytesOf([]);
    SizePair(it, it);
  }

  lemma SameShape(p: Progress, a: Code, it: Item, it': Item, b: Code)
    requires SameBranch(it, it') && Len(it) == Len(it')
    ensures RefsOf(a + [it] + b, |p.code|) == RefsOf(a + [it'] + b, |p.code|)
    ensures AddBranches(p.cleanups, a + [it] + b, |p.code|) == AddBranches(p.cleanups, a + [it'] + b, |p.code|)
  {
    hide RefsOf, AddBranches, Size, Encode;
    RefsConcat(a, [it], |p.code|);
    RefsConcat(a + [it], b, |p.code|);
    RefsConcat(a, [it'], |p.code|);
    RefsConcat(a + [it'], b, |p.code|);
    BranchesConcat(p.cleanups, a, [it], |p.code|);
    BranchesConcat(p.cleanups, a + [it], b, |p.code|);
    BranchesConcat(p.cleanups, a, [it'], |p.code|);
    BranchesConcat(p.cleanups, a + [it'], b, |p.code|);
    SizeConcat(a, [it]);
    SizeConcat(a, [it']);
    OneItem(it);
    OneItem(it');
    NoRefs(it, |p.code| + Size(a));
    NoRefs(it', |p.code| + Size(a));
    NoBranches(AddBranches(p.cleanups, a, |p.code|), it, |p.code| + Size(a));
    NoBranches(AddBranches(p.cleanups, a, |p.code|), it', |p.code| + Size(a));
  }

  lemma NoRefs(it: Item, pos: int)
    requires it.I? && it.note == NoNote
    ensures RefsOf([it], pos) == []
  {
  }

  lemma NoBranches(cl: seq<Cleanup>, it: Item, pos: int)
    requires it.I?
    ensures AddBranches(cl, [it], pos) == cl
  {
  }
}
