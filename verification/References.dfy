/** The table references of a finished program: each addresses the operand it stands for. */
module References {
  import opened Words
  import opened X86
  import opened Runtime
  import opened Machine
  import opened Lisp
  import opened CodeGen
  import opened Tails
  import opened Encoding
  import opened Fitting
  import opened Program
  import opened Assembler
  import opened CodeBuffer

  /** The four bytes at a position are the operand that the note describes: the object, or the table offset of the routine or variable. */
  predicate Addresses(rt: Runtime, s: seq<Byte>, r: Ref) {
    && 0 <= r.pos && r.pos + 4 <= |s|
    && match r.note
       case NoNote => false
       case PutBack => false
       case LiteralRef(obj) => s[r.pos..r.pos + 4] == LE32(obj)
       case JumpRef(q) => r.pos >= 2 && s[r.pos - 2..r.pos] == [0xff, 0x96] && s[r.pos..r.pos + 4] == Long(rt.slot(q))
       case VarRef(n) => r.pos >= 2 && s[r.pos - 2] == 0x8b && n in rt.vars && s[r.pos..r.pos + 4] == Long(rt.vars[n].offset)
  }

  lemma NotedAddress(rt: Runtime, i: Instr, note: Note, pos: nat, pre: seq<Byte>, rest: seq<Byte>)
    requires Noted(rt, i, note) && note != NoNote && note != PutBack && Encodable(i) && |pre| == pos
    ensures Addresses(rt, pre + Encode(i) + rest, Ref(pos + |Encode(i)| - 4, note))
  {
    var e, s := Encode(i), pre + Encode(i) + rest;
    var at := pos + |e| - 4;
    match note
    case LiteralRef(obj) =>
      assert e == [e[0]] + LE32(obj);
      assert s[at..at + 4] == LE32(obj);
    case JumpRef(_) =>
      assert e == [0xff, 0x96] + Long(i.disp);
      assert s[at - 2..at] == [0xff, 0x96];
      assert s[at..at + 4] == Long(i.disp);
    case VarRef(_) =>
      var zeroForm := i.base != EBP;
      assert e == [0x8b] + ModRM(i.dst.Num(), i.base, i.disp, zeroForm);
      assert |e| == 6 && s[at - 2] == e[0];
      assert e[2..] == Long(i.disp);
      assert s[at..at + 4] == Long(i.disp);
  }

  lemma ItemRef(it: Item, pos: int, r: Ref)
    requires r in RefOf(it, pos)
    ensures it.I? && it.note != NoNote && it.note != PutBack && r == Ref(pos + |Encode(it.ins)| - 4, it.note)
  {
    hide Encode;
  }

  lemma ItemAddress(rt: Runtime, pre: Code, c: Code, r: Ref)
    requires c != [] && r in RefOf(c[0], Size(pre)) && c[0].I? && Noted(rt, c[0].ins, c[0].note) && Encodable(c[0].ins)
    ensures Addresses(rt, BytesOf(pre + c), r)
  {
    hide Encode, Addresses, Encodable, Noted, RefOf, Size;
    var it, n := c[0], Size(pre);
    BytesConcat(pre, c);
    BytesSize(pre);
    ItemRef(it, n, r);
    assert BytesOf(pre + c) == BytesOf(pre) + Encode(it.ins) + BytesOf(c[1..]);
    NotedAddress(rt, it.ins, it.note, n, BytesOf(pre), BytesOf(c[1..]));
  }

  /** In code whose operands fit, every reference addresses its operand. */
  lemma {:induction false} RefsAddress(rt: Runtime, pre: Code, c: Code, recs: seq<Rec>, r: Ref)
    requires AllFit(rt, c, recs) && r in RefsOf(c, Size(pre))
    ensures Addresses(rt, BytesOf(pre + c), r)
    decreases c
  {
    hide Encode, Addresses, Encodable, Noted, RefOf;
    var it, n := c[0], Size(pre);
    assert Fits(rt, it, recs);
    assert (pre + [it]) + c[1..] == pre + c;
    SizeConcat(pre, [it]);
    OneItem(it);
    if r in RefOf(it, n) {
      ItemRef(it, n, r);
      hide RefsOf, BytesOf, Size;
      ItemAddress(rt, pre, c, r);
    } else {
      hide BytesOf;
      assert r in RefsOf(c[1..], Size(pre + [it]));
      RefsAddress(rt, pre + [it], c[1..], recs, r);
    }
  }

  /** Every reference recorded while a program was compiled addresses its operand in the finished bytes. */
  lemma ProgramRefs(rt: Runtime, x: Form, check: bool, r: Ref)
    requires rt.Linked() && Bounded(rt, x, check) && Count(x, ToEax, StackGo) == 0
    requires r in RefsOf(ExpressionCode(rt, x, check), 0)
    ensures Addresses(rt, BytesOf(ExpressionCode(rt, x, check)), r)
  {
    hide ExpressionCode, AllFit, Count, Addresses, rt.Linked, RefsOf, BytesOf;
    var p := ExpressionCode(rt, x, check);
    FitProgram(rt, x, check);
    SizeNothing();
    assert [] + p == p;
    RefsAddress(rt, [], p, [], r);
  }

  // ----- moving references -----

  /** A reference after n bytes have been put in front of the code. */
  function MovedRef(r: Ref, n: int): Ref {
    if r.pos >= 0 then Ref(r.pos + n, r.note) else r
  }

  function MovedBy(refs: seq<Ref>, n: int): (r: seq<Ref>)
    ensures |r| == |refs|
  {
    seq(|refs|, i requires 0 <= i < |refs| => MovedRef(refs[i], n))
  }

  lemma MovedConcat(a: seq<Ref>, b: seq<Ref>, n: int)
    ensures MovedBy(a + b, n) == MovedBy(a, n) + MovedBy(b, n)
  {
  }

  /** Moving the references of code is recording them from further on. */
  lemma {:induction false} RefsMoved(rt: Runtime, c: Code, recs: seq<Rec>, pos: nat, n: int)
    requires AllFit(rt, c, recs)
    ensures MovedBy(RefsOf(c, pos), n) == RefsOf(c, pos + n)
    decreases c
  {
    hide Encode, Encodable, Noted;
    if c != [] {
      var len := Len(c[0]);
      assert Fits(rt, c[0], recs);
      RefsMoved(rt, c[1..], recs, pos + len, n);
      assert pos + n + len == pos + len + n;
      MovedConcat(RefOf(c[0], pos), RefsOf(c[1..], pos + len), n);
      RefMoved(rt, c[0], recs, pos, n);
    }
  }

  lemma RefMoved(rt: Runtime, it: Item, recs: seq<Rec>, pos: nat, n: int)
    requires Fits(rt, it, recs)
    ensures MovedBy(RefOf(it, pos), n) == RefOf(it, pos + n)
  {
    if it.I? && it.note != NoNote && it.note != PutBack {
      LongOperand(rt, it.ins, it.note);
    }
  }

  lemma LongOperand(rt: Runtime, i: Instr, note: Note)
    requires Noted(rt, i, note) && note != NoNote && note != PutBack
    ensures |Encode(i)| >= 5
  {
  }

  /** The references of the form and the epilog, moved past the prolog, are the references of the program. */
  lemma ProgramRefsMoved(rt: Runtime, x: Form, check: bool)
    requires rt.Linked() && Bounded(rt, x, check) && Count(x, ToEax, StackGo) == 0
    ensures var p := Prolog(4 * Slots(x));
            MovedBy(RefsOf(Gen(rt, x, ToEax, Start(check)) + Epilog(), 0), Size(p)) == RefsOf(ExpressionCode(rt, x, check), 0)
  {
    hide Gen, Size, Slots, AllFit, Prolog, Epilog, Count, RefsOf, MovedBy, rt.Linked;
    var p, g := Prolog(4 * Slots(x)), Gen(rt, x, ToEax, Start(check));
    FitForm(rt, x, ToEax, Start(check));
    FitFrame(rt, 4 * Slots(x));
    AllFitConcat(rt, g, Epilog(), []);
    RefsMoved(rt, g + Epilog(), [], 0, Size(p));
    RefsConcat(p, g + Epilog(), 0);
    PrologRefs(4 * Slots(x), 0);
    assert p + g + Epilog() == p + (g + Epilog());
    assert [] + RefsOf(g + Epilog(), Size(p)) == RefsOf(g + Epilog(), Size(p));
  }

  lemma PrologRefs(envSize: nat, pos: int)
    requires envSize <= REACH
    ensures RefsOf(Prolog(envSize), pos) == []
  {
    hide FillCode, Encode;
    var start := [Plain(Push(EBP)), Plain(Mov(EBP, ESP)), Plain(Push(EDI))];
    RefsConcat(start, FillCode(envSize), pos);
    NoNotes(start, pos);
    FillNotes(envSize);
    NoNotes(FillCode(envSize), pos + Size(start));
  }

  predicate Unnoted(c: Code) {
    forall k :: 0 <= k < |c| ==> c[k].I? && c[k].note == NoNote
  }

  lemma {:induction false} NoNotes(c: Code, pos: int)
    requires Unnoted(c)
    ensures RefsOf(c, pos) == []
    decreases c
  {
    hide Encode;
    if c != [] {
      NoNotes(c[1..], pos + Len(c[0]));
    }
  }

  lemma FillNotes(envSize: nat)
    requires envSize <= REACH
    ensures Unnoted(FillCode(envSize))
  {
    RepeatNotes((envSize + 3) / 4);
  }

  lemma {:induction false} RepeatNotes(n: nat)
    ensures Unnoted(Repeat(Plain(Push(EAX)), n))
  {
    if n > 0 {
      RepeatNotes(n - 1);
    }
  }

  // ----- the prolog put in front -----

  lemma {:induction false} RefsInside(rt: Runtime, c: Code, recs: seq<Rec>, pos: nat, k: nat)
    requires AllFit(rt, c, recs) && k < |RefsOf(c, pos)|
    ensures RefsOf(c, pos)[k].pos >= 0
    decreases c
  {
    hide Encode, Encodable, Noted;
    assert Fits(rt, c[0], recs);
    var r := RefOf(c[0], pos);
    if k < |r| {
      LongOperand(rt, c[0].ins, c[0].note);
    } else {
      RefsInside(rt, c[1..], recs, pos + Len(c[0]), k - |r|);
    }
  }

  /** Code whole is c with the bytes of p inserted in front of it and its references relocated. */
  predicate InsertedInFront(p: Code, c: Code, whole: Code) {
    var was, now := RefsOf(c, 0), RefsOf(whole, 0);
    && Inserted(BytesOf(c), 0, BytesOf(p)) == BytesOf(whole)
    && |was| == |now|
    && forall k :: 0 <= k < |was| ==> now[k] == Ref(Moved(was[k].pos, 0, |BytesOf(p)|), was[k].note)
  }

  /**
   Inserting the prolog's bytes in front of those of the form and the epilog gives the program's bytes,
   and relocating each reference as the insertion does gives the program's references.
   */
  lemma ProgramInserted(rt: Runtime, x: Form, check: bool)
    requires rt.Linked() && Bounded(rt, x, check) && Count(x, ToEax, StackGo) == 0
    ensures InsertedInFront(Prolog(4 * Slots(x)), Gen(rt, x, ToEax, Start(check)) + Epilog(), ExpressionCode(rt, x, check))
  {
    hide Gen, Size, Slots, AllFit, Prolog, Epilog, Count, RefsOf, BytesOf, rt.Linked;
    var p, c := Prolog(4 * Slots(x)), Gen(rt, x, ToEax, Start(check)) + Epilog();
    assert ExpressionCode(rt, x, check) == p + c;
    BytesConcat(p, c);
    BytesSize(p);
    ProgramRefsMoved(rt, x, check);
    FitForm(rt, x, ToEax, Start(check));
    FitFrame(rt, 4 * Slots(x));
    AllFitConcat(rt, Gen(rt, x, ToEax, Start(check)), Epilog(), []);
    forall k | 0 <= k < |RefsOf(c, 0)|
      ensures RefsOf(c, 0)[k].pos >= 0
    {
      RefsInside(rt, c, [], 0, k);
    }
  }
}
