/**
 The growable code buffer: bytes and reference cells in arrays that are replaced by larger ones,
 four lists of table references, and the insertion of a prolog in front of finished code.
 Each operation is specified on the sequences the buffer stands for.
 */
module CodeBuffer {
  import opened Words
  import opened X86
  import opened Machine
  import opened Encoding
  import opened Assembler

  const MAX_CODE_BYTES := 0x1000
  const MAX_REFS := 0x400

  /** A cell of the reference vector: objects at even places, their positions at odd ones. */
  datatype RefCell = Obj(w: Word) | Pos(n: int)

  /** An entry of a table reference list. */
  datatype TableRef = TableRef(pos: int, sym: Word)

  // ----- the operations on sequences -----

  function Inserted(s: seq<Byte>, pos: int, b: seq<Byte>): (r: seq<Byte>)
    requires 0 <= pos <= |s|
    ensures |r| == |s| + |b|
  {
    s[..pos] + b + s[pos..]
  }

  /** Where the byte at p is after n bytes have been inserted at pos. */
  function Moved(p: int, pos: int, n: int): int {
    if p >= pos then p + n else p
  }

  function MovedCells(r: seq<RefCell>, pos: int, n: int): (q: seq<RefCell>)
    ensures |q| == |r|
  {
    seq(|r|, i requires 0 <= i < |r| => if i % 2 == 1 && r[i].Pos? then Pos(Moved(r[i].n, pos, n)) else r[i])
  }

  function MovedRefs(r: seq<TableRef>, pos: int, n: int): (q: seq<TableRef>)
    ensures |q| == |r|
  {
    seq(|r|, i requires 0 <= i < |r| => TableRef(Moved(r[i].pos, pos, n), r[i].sym))
  }

  lemma TruncDifference(n: int) returns (k: int)
    ensures n == Trunc29(n) + 0x2000_0000 * k
  {
    var w := WrapInteger(n);
    var q := (8 * n) / 0x1_0000_0000;
    assert 8 * n == q * 0x1_0000_0000 + w;
    var v := n - 0x2000_0000 * q;
    assert w == 8 * v;
    k := if w < 0x8000_0000 then q else q + 1;
  }

  lemma SameByte(m: int, j: int)
    ensures (m + 0x100 * j) % 0x100 == m % 0x100
  {
    var d := (m + 0x100 * j) / 0x100 - m / 0x100 - j;
    assert 0x100 * d == m % 0x100 - (m + 0x100 * j) % 0x100;
  }

  /** Wrapping a number as a fixnum keeps its low eight bits. */
  lemma ByteOfTrunc29(n: int)
    ensures Byte8(Trunc29(n)) == Byte8(n)
  {
    hide Trunc29;
    var k := TruncDifference(n);
    SameByte(Trunc29(n), 0x20_0000 * k);
  }

  lemma Joined(r: seq<Byte>, s: seq<Byte>, pos: int, b: seq<Byte>)
    requires 0 <= pos <= |s| && |r| == |s| + |b|
    requires r[..pos] == s[..pos] && r[pos..pos + |b|] == b && r[pos + |b|..] == s[pos..]
    ensures r == Inserted(s, pos, b)
  {
    assert r == r[..pos] + r[pos..pos + |b|] + r[pos + |b|..];
  }

  class CodeBuffer {
    var cbuf: array<Byte>
    var refs: array<RefCell>
    var codeIndex: int
    var refIndex: int
    var dynamicEnvSize: int
    var maxBytes: int
    var maxRefs: int
    var jumpTableRefs: seq<TableRef>
    var envTableRefs: seq<TableRef>
    var varTableRefs: seq<TableRef>
    var loadTimeValues: seq<TableRef>

    /** Between operations the index is below the limit, and the arrays reach past it. */
    ghost predicate Valid()
      reads this
    {
      && 0 <= codeIndex < maxBytes && MAX_CODE_BYTES <= maxBytes && cbuf.Length == maxBytes + 16
      && 0 <= refIndex < maxRefs && 2 * MAX_REFS <= maxRefs && refs.Length == maxRefs + 8
      && refIndex % 2 == 0 && maxRefs % 2 == 0
    }

    ghost function Contents(): (s: seq<Byte>)
      requires Valid()
      reads this, cbuf
    {
      cbuf[..codeIndex]
    }

    ghost function Refs(): (s: seq<RefCell>)
      requires Valid()
      reads this, refs
    {
      refs[..refIndex]
    }

    constructor ()
      ensures Valid() && fresh(cbuf) && fresh(refs) && Contents() == [] && Refs() == [] && dynamicEnvSize == 0
      ensures jumpTableRefs == envTableRefs == varTableRefs == loadTimeValues == []
      ensures maxBytes == 0x1000 && maxRefs == 0x800
    {
      cbuf := new Byte[MAX_CODE_BYTES + 16];
      refs := new RefCell[MAX_REFS * 2 + 8];
      codeIndex, refIndex, dynamicEnvSize := 0, 0, 0;
      maxBytes, maxRefs := MAX_CODE_BYTES, MAX_REFS * 2;
      jumpTableRefs, envTableRefs, varTableRefs, loadTimeValues := [], [], [], [];
    }

    /** CBgrowCode: twice the limit, and the bytes up to the index copied. */
    method GrowCode()
      requires 0 <= codeIndex <= cbuf.Length && 0 < maxBytes && cbuf.Length == maxBytes + 16
      modifies this`cbuf, this`maxBytes
      ensures maxBytes == 2 * old(maxBytes) && cbuf.Length == maxBytes + 16 && fresh(cbuf)
      ensures codeIndex <= cbuf.Length && cbuf[..codeIndex] == old(cbuf[..codeIndex])
    {
      maxBytes := maxBytes * 2;
      var bv := new Byte[maxBytes + 16];
      forall k | 0 <= k < codeIndex {
        bv[k] := cbuf[k];
      }
      cbuf := bv;
    }

    method GrowRefs()
      requires 0 <= refIndex <= refs.Length && 0 < maxRefs && refs.Length == maxRefs + 8
      modifies this`refs, this`maxRefs
      ensures maxRefs == 2 * old(maxRefs) && refs.Length == maxRefs + 8 && fresh(refs)
      ensures refIndex <= refs.Length && refs[..refIndex] == old(refs[..refIndex])
    {
      maxRefs := maxRefs * 2;
      var v := new RefCell[maxRefs + 8];
      forall k | 0 <= k < refIndex {
        v[k] := refs[k];
      }
      refs := v;
    }

    /** CBaddByte: the low eight bits of a wrapped integer. */
    method AddByte(a: int)
      requires Valid()
      modifies this`cbuf, this`codeIndex, this`maxBytes, cbuf
      ensures Valid() && (cbuf == old(cbuf) || fresh(cbuf))
      ensures Contents() == old(Contents()) + [Byte8(a)]
    {
      ByteOfTrunc29(a);
      cbuf[codeIndex] := Byte8(Trunc29(a));
      codeIndex := codeIndex + 1;
      assert cbuf[..codeIndex] == old(cbuf[..codeIndex]) + [Byte8(a)];
      if codeIndex >= maxBytes {
        GrowCode();
      }
    }

    /** CBaddBytes with two operands. */
    method AddBytes2(a: int, b: int)
      requires Valid()
      modifies this`cbuf, this`codeIndex, this`maxBytes, cbuf
      ensures Valid() && (cbuf == old(cbuf) || fresh(cbuf))
      ensures Contents() == old(Contents()) + [Byte8(a), Byte8(b)]
    {
      ByteOfTrunc29(a);
      ByteOfTrunc29(b);
      cbuf[codeIndex] := Byte8(Trunc29(a));
      cbuf[codeIndex + 1] := Byte8(Trunc29(b));
      codeIndex := codeIndex + 2;
      assert cbuf[..codeIndex] == old(cbuf[..codeIndex]) + [Byte8(a), Byte8(b)];
      if codeIndex >= maxBytes {
        GrowCode();
      }
    }

    /** CBaddBytes with three operands. */
    method AddBytes3(a: int, b: int, c: int)
      requires Valid()
      modifies this`cbuf, this`codeIndex, this`maxBytes, cbuf
      ensures Valid() && (cbuf == old(cbuf) || fresh(cbuf))
      ensures Contents() == old(Contents()) + [Byte8(a), Byte8(b), Byte8(c)]
    {
      ByteOfTrunc29(a);
      ByteOfTrunc29(b);
      ByteOfTrunc29(c);
      cbuf[codeIndex] := Byte8(Trunc29(a));
      cbuf[codeIndex + 1] := Byte8(Trunc29(b));
      cbuf[codeIndex + 2] := Byte8(Trunc29(c));
      codeIndex := codeIndex + 3;
      assert cbuf[..codeIndex] == old(cbuf[..codeIndex]) + [Byte8(a), Byte8(b), Byte8(c)];
      if codeIndex >= maxBytes {
        GrowCode();
      }
    }

    /** Four bytes at index i. */
    method Write4(i: int, b: seq<Byte>)
      requires |b| == 4 && 0 <= i && i + 4 <= cbuf.Length
      modifies cbuf
      ensures cbuf[..] == Patched(old(cbuf[..]), i, b)
    {
      cbuf[i] := b[0];
      cbuf[i + 1] := b[1];
      cbuf[i + 2] := b[2];
      cbuf[i + 3] := b[3];
    }

    method Append4(b: seq<Byte>)
      requires Valid() && |b| == 4
      modifies this`cbuf, this`codeIndex, this`maxBytes, cbuf
      ensures Valid() && (cbuf == old(cbuf) || fresh(cbuf))
      ensures Contents() == old(Contents()) + b
    {
      Write4(codeIndex, b);
      codeIndex := codeIndex + 4;
      assert cbuf[..codeIndex] == cbuf[..][..codeIndex];
      assert cbuf[..codeIndex] == old(cbuf[..codeIndex]) + b;
      if codeIndex >= maxBytes {
        GrowCode();
      }
    }

    /** CBaddLongVal: four bytes of a wrapped integer. */
    method AddLongVal(a: int)
      requires Valid()
      modifies this`cbuf, this`codeIndex, this`maxBytes, cbuf
      ensures Valid() && (cbuf == old(cbuf) || fresh(cbuf))
      ensures Contents() == old(Contents()) + Long(a)
    {
      Append4(LE32(Wrap32(Trunc29(a))));
    }

    /** CBaddObject, and CBaddLong: a whole word. */
    method AddObject(w: Word)
      requires Valid()
      modifies this`cbuf, this`codeIndex, this`maxBytes, cbuf
      ensures Valid() && (cbuf == old(cbuf) || fresh(cbuf))
      ensures Contents() == old(Contents()) + LE32(w)
    {
      Append4(LE32(w));
    }

    method SetByte(index: int, b: int)
      requires Valid() && 0 <= index < codeIndex
      modifies cbuf
      ensures Valid() && Contents() == Patched(old(Contents()), index, [Byte8(b)])
    {
      ByteOfTrunc29(b);
      cbuf[index] := Byte8(Trunc29(b));
    }

    method SetLong(index: int, n: int)
      requires Valid() && 0 <= index && index + 4 <= codeIndex
      modifies cbuf
      ensures Valid() && Contents() == Patched(old(Contents()), index, Long(n))
    {
      Write4(index, LE32(Wrap32(Trunc29(n))));
      assert cbuf[..codeIndex] == cbuf[..][..codeIndex];
    }

    method SetObject(index: int, w: Word)
      requires Valid() && 0 <= index && index + 4 <= codeIndex
      modifies cbuf
      ensures Valid() && Contents() == Patched(old(Contents()), index, LE32(w))
    {
      Write4(index, LE32(w));
      assert cbuf[..codeIndex] == cbuf[..][..codeIndex];
    }

    /** CBref: an object and the position of its four bytes. */
    method AddRef(obj: Word, pos: int)
      requires Valid()
      modifies this`refs, this`refIndex, this`maxRefs, refs
      ensures Valid() && (refs == old(refs) || fresh(refs))
      ensures Refs() == old(Refs()) + [Obj(obj), Pos(pos)]
    {
      refs[refIndex] := Obj(obj);
      refs[refIndex + 1] := Pos(pos);
      refIndex := refIndex + 2;
      assert refs[..refIndex] == old(refs[..refIndex]) + [Obj(obj), Pos(pos)];
      if refIndex >= maxRefs {
        GrowRefs();
      }
    }

    /** CBaddJumpTableRef: the last four bytes emitted, at the head of the list. */
    method AddJumpTableRef(sym: Word)
      requires Valid()
      modifies this`jumpTableRefs
      ensures Valid() && jumpTableRefs == [TableRef(codeIndex - 4, sym)] + old(jumpTableRefs)
    {
      jumpTableRefs := [TableRef(codeIndex - 4, sym)] + jumpTableRefs;
    }

    method AddEnvTableRef(sym: Word)
      requires Valid()
      modifies this`envTableRefs
      ensures Valid() && envTableRefs == [TableRef(codeIndex - 4, sym)] + old(envTableRefs)
    {
      envTableRefs := [TableRef(codeIndex - 4, sym)] + envTableRefs;
    }

    method AddVarTableRef(sym: Word)
      requires Valid()
      modifies this`varTableRefs
      ensures Valid() && varTableRefs == [TableRef(codeIndex - 4, sym)] + old(varTableRefs)
    {
      varTableRefs := [TableRef(codeIndex - 4, sym)] + varTableRefs;
    }

    /** CBincDynamicEnvSize: the offset from EBP of the block allocated. */
    method IncDynamicEnvSize(size: int) returns (offset: int)
      requires Valid()
      modifies this`dynamicEnvSize
      ensures Valid() && dynamicEnvSize == old(dynamicEnvSize) + size && offset == -4 - dynamicEnvSize
    {
      dynamicEnvSize := dynamicEnvSize + size;
      offset := -4 - dynamicEnvSize;
    }

    /** The walk down one list that moves its positions. */
    method MoveList(list: seq<TableRef>, pos: int, n: int) returns (r: seq<TableRef>)
      ensures r == MovedRefs(list, pos, n)
    {
      r := list;
      var i := 0;
      while i < |r|
        invariant 0 <= i <= |r| == |list|
        invariant forall k :: 0 <= k < i ==> r[k] == TableRef(Moved(list[k].pos, pos, n), list[k].sym)
        invariant forall k :: i <= k < |r| ==> r[k] == list[k]
      {
        if r[i].pos >= pos {
          r := r[i := TableRef(r[i].pos + n, r[i].sym)];
        }
        i := i + 1;
      }
    }

    /** The walk over the reference vector that moves the positions in it. */
    method MoveCells(pos: int, n: int)
      requires Valid()
      modifies refs
      ensures Valid() && Refs() == MovedCells(old(Refs()), pos, n)
    {
      var i := 0;
      while i < refIndex
        invariant 0 <= i <= refIndex && i % 2 == 0 && Valid()
        invariant forall k :: 0 <= k < i ==> refs[k] == MovedCells(old(refs[..refIndex]), pos, n)[k]
        invariant forall k :: i <= k < refIndex ==> refs[k] == old(refs[k])
      {
        if refs[i + 1].Pos? && refs[i + 1].n >= pos {
          refs[i + 1] := Pos(refs[i + 1].n + n);
        }
        i := i + 2;
      }
    }

    /** Room for n more bytes.  The test wraps a length that is wrapped already, and so asks for eight times as many. */
    method Reserve(n: nat)
      requires Valid()
      modifies this`cbuf, this`maxBytes
      ensures Valid() && (cbuf == old(cbuf) || fresh(cbuf)) && codeIndex + n < maxBytes
      ensures Contents() == old(Contents())
    {
      while codeIndex + 8 * n >= maxBytes
        invariant Valid() && (cbuf == old(cbuf) || fresh(cbuf)) && Contents() == old(Contents())
        decreases codeIndex + 8 * n - maxBytes
      {
        GrowCode();
      }
    }

    method CopyIn(pos: int, b: seq<Byte>)
      requires 0 <= pos && pos + |b| <= cbuf.Length
      modifies cbuf
      ensures cbuf[..pos] == old(cbuf[..pos]) && cbuf[pos..pos + |b|] == b && cbuf[pos + |b|..] == old(cbuf[pos + |b|..])
    {
      forall k | 0 <= k < |b| {
        cbuf[pos + k] := b[k];
      }
    }

    /** The two memmoves of an insertion. */
    method Shift(pos: int, b: seq<Byte>)
      requires Valid() && 0 <= pos <= codeIndex && codeIndex + |b| < maxBytes
      modifies cbuf, this`codeIndex
      ensures Valid() && Contents() == Inserted(old(Contents()), pos, b)
    {
      hide Inserted;
      var n := |b|;
      ghost var was := cbuf[..codeIndex];
      forall k | pos <= k < codeIndex {
        cbuf[k + n] := cbuf[k];
      }
      ghost var tail := cbuf[pos + n..];
      assert cbuf[..pos] == was[..pos] && tail[..codeIndex - pos] == was[pos..];
      CopyIn(pos, b);
      codeIndex := codeIndex + n;
      ghost var now := cbuf[..codeIndex];
      assert now[pos + n..] == cbuf[pos + n..][..codeIndex - pos - n] == was[pos..];
      assert now[pos..pos + n] == cbuf[pos..pos + n] == b && now[..pos] == cbuf[..pos] == was[..pos];
      Joined(now, was, pos, b);
    }

    /** CBinsertCode: bytes in the middle of finished code, and every table entry past them moved. */
    method InsertCode(pos: int, b: seq<Byte>)
      requires Valid() && 0 <= pos <= codeIndex
      modifies this, cbuf, refs
      ensures Valid() && (cbuf == old(cbuf) || fresh(cbuf)) && refs == old(refs)
      ensures Contents() == Inserted(old(Contents()), pos, b)
      ensures Refs() == MovedCells(old(Refs()), pos, |b|)
      ensures jumpTableRefs == MovedRefs(old(jumpTableRefs), pos, |b|) && envTableRefs == MovedRefs(old(envTableRefs), pos, |b|)
      ensures varTableRefs == MovedRefs(old(varTableRefs), pos, |b|) && loadTimeValues == MovedRefs(old(loadTimeValues), pos, |b|)
      ensures dynamicEnvSize == old(dynamicEnvSize)
    {
      hide MovedCells, MovedRefs, Inserted;
      Reserve(|b|);
      Shift(pos, b);
      MoveCells(pos, |b|);
      MoveLists(pos, |b|);
    }

    /** The four lists moved. */
    method MoveLists(pos: int, n: int)
      modifies this`jumpTableRefs, this`envTableRefs, this`varTableRefs, this`loadTimeValues
      ensures jumpTableRefs == MovedRefs(old(jumpTableRefs), pos, n) && envTableRefs == MovedRefs(old(envTableRefs), pos, n)
      ensures varTableRefs == MovedRefs(old(varTableRefs), pos, n) && loadTimeValues == MovedRefs(old(loadTimeValues), pos, n)
    {
      hide MovedRefs;
      loadTimeValues := MoveList(loadTimeValues, pos, n);
      jumpTableRefs := MoveList(jumpTableRefs, pos, n);
      varTableRefs := MoveList(varTableRefs, pos, n);
      envTableRefs := MoveList(envTableRefs, pos, n);
    }
  }

  // ----- insertion is transparent -----

  /** The four bytes at p are split by an insertion at pos. */
  predicate Straddles(p: int, pos: int) {
    p < pos < p + 4
  }

  /** A moved entry addresses the same four bytes, whatever was inserted. */
  ghost predicate StillAddresses(s: seq<Byte>, pos: int, p: int)
    requires 0 <= pos <= |s| && 0 <= p && p + 4 <= |s|
  {
    forall b: seq<Byte> ::
      var q, r := Moved(p, pos, |b|), Inserted(s, pos, b);
      0 <= q && q + 4 <= |r| && r[q..q + 4] == s[p..p + 4]
  }

  /** Relocation is right for every insertion exactly when the entry's bytes are not split. */
  lemma InsertionTransparent(s: seq<Byte>, pos: int, p: int)
    requires 0 <= pos <= |s| && 0 <= p && p + 4 <= |s|
    ensures StillAddresses(s, pos, p) <==> !Straddles(p, pos)
  {
    if Straddles(p, pos) {
      var b: seq<Byte> := [if s[pos] == 0 then 1 else 0];
      var r := Inserted(s, pos, b);
      assert r[p..p + 4][pos - p] == b[0] && s[p..p + 4][pos - p] == s[pos];
      assert b[0] != s[pos];
      assert Moved(p, pos, |b|) == p;
    } else {
      forall b: seq<Byte>
        ensures var q, r := Moved(p, pos, |b|), Inserted(s, pos, b);
                0 <= q && q + 4 <= |r| && r[q..q + 4] == s[p..p + 4]
      {
        var q, r := Moved(p, pos, |b|), Inserted(s, pos, b);
        var u, v := r[q..q + 4], s[p..p + 4];
        assert forall k :: 0 <= k < 4 ==> u[k] == v[k];
      }
    }
  }

  /** Every table reference that an insertion does not split is moved so that it addresses its own four bytes, and keeps its symbol. */
  lemma TablesRelocated(s: seq<Byte>, pos: int, b: seq<Byte>, list: seq<TableRef>, i: nat)
    requires 0 <= pos <= |s| && i < |list|
    requires 0 <= list[i].pos && list[i].pos + 4 <= |s| && (list[i].pos + 4 <= pos || pos <= list[i].pos)
    ensures var r, m := Inserted(s, pos, b), MovedRefs(list, pos, |b|);
            && |m| == |list| && m[i].sym == list[i].sym
            && 0 <= m[i].pos && m[i].pos + 4 <= |r| && r[m[i].pos..m[i].pos + 4] == s[list[i].pos..list[i].pos + 4]
  {
    hide StillAddresses, Inserted;
    InsertionTransparent(s, pos, list[i].pos);
    StillThere(s, pos, list[i].pos, b);
  }

  /** The same for the positions in the reference vector; the objects stay as they are. */
  lemma CellsRelocated(s: seq<Byte>, pos: int, b: seq<Byte>, cells: seq<RefCell>, i: nat)
    requires 0 <= pos <= |s| && 2 * i + 1 < |cells| && cells[2 * i].Obj? && cells[2 * i + 1].Pos?
    requires var p := cells[2 * i + 1].n; 0 <= p && p + 4 <= |s| && (p + 4 <= pos || pos <= p)
    ensures var r, m := Inserted(s, pos, b), MovedCells(cells, pos, |b|);
            && |m| == |cells| && m[2 * i] == cells[2 * i] && m[2 * i + 1].Pos?
            && var p, q := cells[2 * i + 1].n, m[2 * i + 1].n; 0 <= q && q + 4 <= |r| && r[q..q + 4] == s[p..p + 4]
  {
    hide StillAddresses, Inserted;
    var p := cells[2 * i + 1].n;
    InsertionTransparent(s, pos, p);
    StillThere(s, pos, p, b);
    assert (2 * i + 1) % 2 == 1 && (2 * i) % 2 == 0;
  }

  lemma StillThere(s: seq<Byte>, pos: int, p: int, b: seq<Byte>)
    requires 0 <= pos <= |s| && 0 <= p && p + 4 <= |s| && StillAddresses(s, pos, p)
    ensures var q, r := Moved(p, pos, |b|), Inserted(s, pos, b);
            0 <= q && q + 4 <= |r| && r[q..q + 4] == s[p..p + 4]
  {
    hide Inserted, Moved;
  }

  /** Code in front of finished code: every instruction is found as far along as was inserted, with the same
      displacement, so relative branches keep their targets. */
  lemma FrontInsertion(s: seq<Byte>, b: seq<Byte>, pc: int)
    requires 0 <= pc
    ensures var img, img' := ByteImage(s), ByteImage(Inserted(s, 0, b));
            && (pc in img <==> |b| + pc in img')
            && (pc in img ==> img'[|b| + pc] == img[pc])
  {
    hide Decode;
    var r := Inserted(s, 0, b);
    if pc < |s| {
      assert r[|b| + pc..] == s[pc..];
    }
  }

  // ----- frame slots -----

  /** The range of EBP offsets [lo, hi) that the i-th of a run of allocations returns. */
  function Total(sizes: seq<nat>): nat {
    if sizes == [] then 0 else Total(sizes[..|sizes| - 1]) + sizes[|sizes| - 1]
  }

  function RangeLow(sizes: seq<nat>, i: nat): int
    requires i < |sizes|
  {
    -4 - Total(sizes[..i + 1])
  }

  lemma {:induction false} TotalGrows(sizes: seq<nat>, i: nat, j: nat)
    requires i <= j <= |sizes|
    ensures Total(sizes[..i]) <= Total(sizes[..j])
    decreases j - i
  {
    if i < j {
      TotalGrows(sizes, i, j - 1);
      assert sizes[..j][..j - 1] == sizes[..j - 1];
    }
  }

  /** Whatever blocks are allocated, in whatever sizes, they do not overlap, and all lie in the area under EBP - 4
      that the prolog fills. */
  lemma SlotsDisjoint(sizes: seq<nat>, i: nat, j: nat)
    requires i < j < |sizes|
    ensures RangeLow(sizes, j) + sizes[j] <= RangeLow(sizes, i)
    ensures -4 - Total(sizes) <= RangeLow(sizes, i) && RangeLow(sizes, i) + sizes[i] <= -4
    ensures -4 - Total(sizes) <= RangeLow(sizes, j) && RangeLow(sizes, j) + sizes[j] <= -4
  {
    hide Total;
    TotalSnoc(sizes, i);
    TotalSnoc(sizes, j);
    TotalGrows(sizes, i + 1, j);
    TotalGrows(sizes, j + 1, |sizes|);
    assert sizes[..|sizes|] == sizes;
  }

  lemma TotalSnoc(sizes: seq<nat>, i: nat)
    requires i < |sizes|
    ensures Total(sizes[..i + 1]) == Total(sizes[..i]) + sizes[i]
  {
    assert sizes[..i + 1][..i] == sizes[..i];
  }
}
