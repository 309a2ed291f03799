/**
 The instructions that the bootstrap compiler emits, the bytes each assembler macro
 appends for them, and a decoder.  Operand sizes are chosen as the macros choose them:
 no displacement, a signed byte, or a 32-bit long that has passed through wrapInteger.
 */
module X86 {
  import opened Options
  import opened Words

  datatype Reg = EAX | ECX | EDX | EBX | ESP | EBP | ESI | EDI {
    function Num(): (n: nat)
      ensures n < 8 && RegOf(n) == this
    {
      match this
      case EAX => 0 case ECX => 1 case EDX => 2 case EBX => 3
      case ESP => 4 case EBP => 5 case ESI => 6 case EDI => 7
    }
  }

  function RegOf(n: nat): Reg
    requires n < 8
  {
    if n == 0 then EAX else if n == 1 then ECX else if n == 2 then EDX else if n == 3 then EBX
    else if n == 4 then ESP else if n == 5 then EBP else if n == 6 then ESI else EDI
  }

  /** Branch conditions: no overflow, equal, not equal, and the signed orders. */
  datatype Cond = NO | E | NE | L | GE | LE | G {
    function Code(): (n: nat)
      ensures n < 16 && CondOf(n) == Some(this)
    {
      match this
      case NO => 1 case E => 4 case NE => 5 case L => 12 case GE => 13 case LE => 14 case G => 15
    }
  }

  function CondOf(n: nat): Option<Cond> {
    if n == 1 then Some(NO) else if n == 4 then Some(E) else if n == 5 then Some(NE)
    else if n == 12 then Some(L) else if n == 13 then Some(GE) else if n == 14 then Some(LE)
    else if n == 15 then Some(G) else None
  }

  datatype Instr =
    | Push(r: Reg)
    | Pop(r: Reg)
    | Mov(dst: Reg, src: Reg)
    | XorSelf(r: Reg)                  // xor r, r
    | MovImm(r: Reg, w: Word)
    | AddEaxEdx
    | SubEaxEdx
    | CmpEaxEdx
    | Load(dst: Reg, base: Reg, disp: int)   // mov dst, [base + disp]
    | Store(base: Reg, disp: int)            // mov [base + disp], eax
    | CmpMem(base: Reg, disp: int)           // cmp eax, [base + disp]
    | PushMem(base: Reg, disp: int)          // push [base + disp]
    | PushImm(w: Word)
    | CmpImm(w: Word)                        // cmp eax, w (long form)
    | TestAl(mask: Byte)
    | TestDl(mask: Byte)
    | AddEsp(n: int)
    | Jcc8(cc: Cond, disp: int)
    | Jmp8(disp: int)
    | Jcc32(cc: Cond, disp: int)
    | Jmp32(disp: int)
    | Call(disp: int)                        // call [esi + disp]
    | DecEdx
    | Ret

  predicate IsByte(n: int) {
    -128 <= n <= 127
  }

  /** ASM_BYTE: the low eight bits. */
  function Byte8(n: int): Byte {
    n % 0x100
  }

  /** ASM_LONG: four bytes of integer(wrapInteger(n)). */
  function Long(n: int): (r: seq<Byte>)
    ensures |r| == 4
  {
    LE32(Wrap32(Trunc29(n)))
  }

  /** A mod/rm operand [base + disp] with a register field. */
  function ModRM(reg: nat, base: Reg, disp: int, zeroForm: bool): (r: seq<Byte>)
    requires reg < 8
    ensures 1 <= |r| <= 5
  {
    if zeroForm && disp == 0 then [8 * reg + base.Num()]
    else if IsByte(disp) then [0x40 + 8 * reg + base.Num(), Byte8(disp)]
    else [0x80 + 8 * reg + base.Num()] + Long(disp)
  }

  function Encode(i: Instr): (r: seq<Byte>)
    ensures 1 <= |r| <= 7
  {
    match i
    case Push(r) => [0x50 + r.Num()]
    case Pop(r) => [0x58 + r.Num()]
    case Mov(dst, src) => [0x8b, 0xc0 + 8 * dst.Num() + src.Num()]
    case XorSelf(r) => [0x33, 0xc0 + 9 * r.Num()]
    case MovImm(r, w) => [0xb8 + r.Num()] + LE32(w)
    case AddEaxEdx => [0x03, 0xc2]
    case SubEaxEdx => [0x2b, 0xc2]
    case CmpEaxEdx => [0x3b, 0xc2]
    case Load(dst, base, disp) => [0x8b] + ModRM(dst.Num(), base, disp, base != EBP)
    case Store(base, disp) => [0x89] + ModRM(0, base, disp, false)
    case CmpMem(base, disp) => [0x3b] + ModRM(0, base, disp, true)
    case PushMem(base, disp) => [0xff] + ModRM(6, base, disp, base != EBP)
    case PushImm(w) => [0x68] + LE32(w)
    case CmpImm(w) => [0x3d] + LE32(w)
    case TestAl(n) => [0xa8, n]
    case TestDl(n) => [0xf6, 0xc2, n]
    case AddEsp(n) => if IsByte(n) then [0x83, 0xc4, Byte8(n)] else [0x81, 0xc4] + Long(n)
    case Jcc8(cc, d) => [0x70 + cc.Code(), Byte8(d)]
    case Jmp8(d) => [0xeb, Byte8(d)]
    case Jcc32(cc, d) => [0x0f, 0x80 + cc.Code()] + Long(d)
    case Jmp32(d) => [0xe9] + Long(d)
    case Call(disp) => [0xff, 0x96] + Long(disp)
    case DecEdx => [0x4a]
    case Ret => [0xc3]
  }

  /** Operands that survive encoding: 29-bit longs, byte displacements, and bases that need no SIB byte. */
  predicate Encodable(i: Instr) {
    match i
    case Load(_, base, disp) => base != ESP && InFixnumRange(disp)
    case Store(base, disp) => base != ESP && InFixnumRange(disp)
    case CmpMem(base, disp) => base != ESP && base != EBP && InFixnumRange(disp)
    case PushMem(base, disp) => base != ESP && InFixnumRange(disp)
    case AddEsp(n) => InFixnumRange(n)
    case Jcc8(_, d) => IsByte(d)
    case Jmp8(d) => IsByte(d)
    case Jcc32(_, d) => InFixnumRange(d)
    case Jmp32(d) => InFixnumRange(d)
    case Call(disp) => InFixnumRange(disp)
    case _ => true
  }

  // ----- decoder -----

  datatype Fetched = Fetched(ins: Instr, len: nat)

  function SignedByte(b: Byte): int {
    if b < 0x80 then b else b - 0x100
  }

  function Word32At(b: seq<Byte>, k: nat): Word
    requires k + 4 <= |b|
  {
    FromLE(b[k], b[k + 1], b[k + 2], b[k + 3])
  }

  function Long32At(b: seq<Byte>, k: nat): int
    requires k + 4 <= |b|
  {
    Signed(Word32At(b, k))
  }

  datatype MemOperand = RegOperand(rm: Reg) | MemOperand(base: Reg, disp: int, used: nat)

  /** Reads the operand whose mod/rm byte is b[1]; used counts the bytes from there on. */
  function DecodeRM(b: seq<Byte>): Option<MemOperand>
    requires |b| >= 2
  {
    var mod, rm := b[1] / 0x40, RegOf(b[1] % 8);
    if mod == 3 then Some(RegOperand(rm))
    else if rm == ESP || (mod == 0 && rm == EBP) then None
    else if mod == 0 then Some(MemOperand(rm, 0, 1))
    else if mod == 1 then (if |b| < 3 then None else Some(MemOperand(rm, SignedByte(b[2]), 2)))
    else if |b| < 6 then None
    else Some(MemOperand(rm, Long32At(b, 2), 5))
  }

  function DecodeMem(b: seq<Byte>): Option<Fetched>
    requires |b| >= 2
  {
    var op, reg := b[0], (b[1] / 8) % 8;
    match DecodeRM(b)
    case None => None
    case Some(RegOperand(rm)) =>
      if op == 0x8b then Some(Fetched(Mov(RegOf(reg), rm), 2))
      else if op == 0x33 && RegOf(reg) == rm then Some(Fetched(XorSelf(rm), 2))
      else if op == 0x03 && reg == 0 && rm == EDX then Some(Fetched(AddEaxEdx, 2))
      else if op == 0x2b && reg == 0 && rm == EDX then Some(Fetched(SubEaxEdx, 2))
      else if op == 0x3b && reg == 0 && rm == EDX then Some(Fetched(CmpEaxEdx, 2))
      else None
    case Some(MemOperand(base, disp, used)) =>
      if op == 0x8b then Some(Fetched(Load(RegOf(reg), base, disp), 1 + used))
      else if op == 0x89 && reg == 0 then Some(Fetched(Store(base, disp), 1 + used))
      else if op == 0x3b && reg == 0 then Some(Fetched(CmpMem(base, disp), 1 + used))
      else if op == 0xff && reg == 6 then Some(Fetched(PushMem(base, disp), 1 + used))
      else if op == 0xff && reg == 2 && base == ESI && used == 5 then Some(Fetched(Call(disp), 6))
      else None
  }

  function DecodeOther(b: seq<Byte>): Option<Fetched>
    requires |b| >= 1
  {
    var op := b[0];
    if 0x50 <= op < 0x58 then Some(Fetched(Push(RegOf(op - 0x50)), 1))
    else if 0x58 <= op < 0x60 then Some(Fetched(Pop(RegOf(op - 0x58)), 1))
    else if op == 0x4a then Some(Fetched(DecEdx, 1))
    else if op == 0xc3 then Some(Fetched(Ret, 1))
    else if |b| < 2 then None
    else if op == 0xa8 then Some(Fetched(TestAl(b[1]), 2))
    else if op == 0xeb then Some(Fetched(Jmp8(SignedByte(b[1])), 2))
    else if 0x70 <= op < 0x80 then
      (match CondOf(op - 0x70) case None => None case Some(c) => Some(Fetched(Jcc8(c, SignedByte(b[1])), 2)))
    else if |b| < 3 then None
    else if op == 0xf6 && b[1] == 0xc2 then Some(Fetched(TestDl(b[2]), 3))
    else if op == 0x83 && b[1] == 0xc4 then Some(Fetched(AddEsp(SignedByte(b[2])), 3))
    else if |b| < 5 then None
    else if 0xb8 <= op < 0xc0 then Some(Fetched(MovImm(RegOf(op - 0xb8), Word32At(b, 1)), 5))
    else if op == 0x68 then Some(Fetched(PushImm(Word32At(b, 1)), 5))
    else if op == 0x3d then Some(Fetched(CmpImm(Word32At(b, 1)), 5))
    else if op == 0xe9 then Some(Fetched(Jmp32(Long32At(b, 1)), 5))
    else if |b| < 6 then None
    else if op == 0x81 && b[1] == 0xc4 then Some(Fetched(AddEsp(Long32At(b, 2)), 6))
    else if op == 0x0f && 0x80 <= b[1] < 0x90 then
      (match CondOf(b[1] - 0x80) case None => None case Some(c) => Some(Fetched(Jcc32(c, Long32At(b, 2)), 6)))
    else None
  }

  function Decode(b: seq<Byte>): Option<Fetched> {
    if |b| == 0 then None
    else if b[0] in {0x8b, 0x89, 0x33, 0x03, 0x2b, 0x3b, 0xff} then
      if |b| < 2 then None else DecodeMem(b)
    else DecodeOther(b)
  }

  // ----- round trip -----

  lemma ModRMFields(mod: nat, reg: nat, rm: nat)
    requires mod < 4 && reg < 8 && rm < 8
    ensures var x := 0x40 * mod + 8 * reg + rm;
            x < 0x100 && x / 0x40 == mod && (x / 8) % 8 == reg && x % 8 == rm
  {
  }

  /** Decoding a mod/rm operand gives back the base and displacement, whichever form was chosen. */
  lemma ModRMRoundTrip(op: Byte, reg: nat, base: Reg, disp: int, zeroForm: bool, rest: seq<Byte>)
    requires reg < 8 && base != ESP && InFixnumRange(disp) && (zeroForm ==> base != EBP)
    ensures var m := ModRM(reg, base, disp, zeroForm);
            var b := [op] + m + rest;
            && (b[1] / 8) % 8 == reg
            && DecodeRM(b) == Some(MemOperand(base, disp, |m|))
  {
    var m := ModRM(reg, base, disp, zeroForm);
    var b := [op] + m + rest;
    assert b[1] == m[0];
    if zeroForm && disp == 0 {
      ModRMFields(0, reg, base.Num());
    } else if IsByte(disp) {
      ModRMFields(1, reg, base.Num());
      assert b[2] == m[1];
    } else {
      ModRMFields(2, reg, base.Num());
      LongAtRoundTrip([op, m[0]], disp, rest);
      assert b == [op, m[0]] + Long(disp) + rest;
    }
  }

  lemma WordRoundTrip(pre: seq<Byte>, w: Word, rest: seq<Byte>)
    ensures Word32At(pre + LE32(w) + rest, |pre|) == w
  {
    FromLE32(w);
    var b, l := pre + LE32(w) + rest, LE32(w);
    assert b[|pre|] == l[0] && b[|pre| + 1] == l[1] && b[|pre| + 2] == l[2] && b[|pre| + 3] == l[3];
  }

  lemma LongAtRoundTrip(pre: seq<Byte>, n: int, rest: seq<Byte>)
    requires InFixnumRange(n)
    ensures Long32At(pre + Long(n) + rest, |pre|) == n
  {
    Trunc29Exact(n);
    WordRoundTrip(pre, Wrap32(n), rest);
    SignedWrap32(n);
  }

  predicate UsesMemory(i: Instr) {
    i.Load? || i.Store? || i.CmpMem? || i.PushMem?
  }

  lemma RoundTripMemory(i: Instr, rest: seq<Byte>)
    requires Encodable(i) && UsesMemory(i)
    ensures Decode(Encode(i) + rest) == Some(Fetched(i, |Encode(i)|))
  {
    var op, reg, zeroForm := Encode(i)[0], if i.Load? then i.dst.Num() else if i.PushMem? then 6 else 0,
                             if i.Store? then false else i.base != EBP;
    var m := ModRM(reg, i.base, i.disp, zeroForm);
    ModRMRoundTrip(op, reg, i.base, i.disp, zeroForm, rest);
    assert Encode(i) == [op] + m;
    assert Decode([op] + m + rest) == DecodeMem([op] + m + rest);
  }

  lemma RoundTripImmediate(i: Instr, rest: seq<Byte>)
    requires i.MovImm? || i.PushImm? || i.CmpImm?
    ensures Decode(Encode(i) + rest) == Some(Fetched(i, |Encode(i)|))
  {
    var op := Encode(i)[0];
    WordRoundTrip([op], i.w, rest);
    var b := [op] + LE32(i.w) + rest;
    assert Encode(i) + rest == b;
    assert |b| >= 5 && b[0] == op;
    assert Decode(b) == DecodeOther(b);
  }

  lemma RoundTripLong(i: Instr, rest: seq<Byte>)
    requires Encodable(i)
    requires i.Jmp32? || i.Jcc32? || (i.AddEsp? && !IsByte(i.n))
    ensures Decode(Encode(i) + rest) == Some(Fetched(i, |Encode(i)|))
  {
    var n := if i.AddEsp? then i.n else i.disp;
    var k := if i.Jmp32? then 1 else 2;
    var pre := Encode(i)[..k];
    LongAtRoundTrip(pre, n, rest);
    var b := pre + Long(n) + rest;
    assert Encode(i) == pre + Long(n);
    assert |b| >= k + 4 && b[0] == Encode(i)[0] && (k == 2 ==> b[1] == Encode(i)[1]);
    assert Decode(b) == DecodeOther(b);
  }

  lemma RoundTripCall(disp: int, rest: seq<Byte>)
    requires InFixnumRange(disp)
    ensures Decode(Encode(Call(disp)) + rest) == Some(Fetched(Call(disp), 6))
  {
    hide Long, Long32At, DecodeOther;
    LongAtRoundTrip([0xff, 0x96], disp, rest);
    var b := [0xff, 0x96] + Long(disp) + rest;
    assert Encode(Call(disp)) + rest == b;
    assert b[0] == 0xff && b[1] == 0x96 && |b| >= 6;
    assert Decode(b) == DecodeMem(b);
  }

  lemma RoundTripRegisters(i: Instr, rest: seq<Byte>)
    requires i.Mov? || i.XorSelf? || i.AddEaxEdx? || i.SubEaxEdx? || i.CmpEaxEdx?
    ensures Decode(Encode(i) + rest) == Some(Fetched(i, |Encode(i)|))
  {
    var b := Encode(i) + rest;
    assert b[0] == Encode(i)[0] && b[1] == Encode(i)[1] && |b| >= 2;
    if i.Mov? {
      ModRMFields(3, i.dst.Num(), i.src.Num());
    } else if i.XorSelf? {
      ModRMFields(3, i.r.Num(), i.r.Num());
    } else {
      ModRMFields(3, 0, 2);
    }
    assert Decode(b) == DecodeMem(b);
  }

  lemma RoundTripShort(i: Instr, rest: seq<Byte>)
    requires Encodable(i)
    requires i.Push? || i.Pop? || i.DecEdx? || i.Ret? || i.TestAl? || i.TestDl? || i.Jmp8? || i.Jcc8?
          || (i.AddEsp? && IsByte(i.n))
    ensures Decode(Encode(i) + rest) == Some(Fetched(i, |Encode(i)|))
  {
    var e := Encode(i);
    var b := e + rest;
    assert b[0] == e[0] && (|e| > 1 ==> b[1] == e[1]) && (|e| > 2 ==> b[2] == e[2]);
    assert Decode(b) == DecodeOther(b);
  }

  /** The decoder recovers every encodable instruction from the bytes the macros emit, whatever follows. */
  lemma RoundTrip(i: Instr, rest: seq<Byte>)
    requires Encodable(i)
    ensures Decode(Encode(i) + rest) == Some(Fetched(i, |Encode(i)|))
  {
    if UsesMemory(i) {
      RoundTripMemory(i, rest);
    } else if i.MovImm? || i.PushImm? || i.CmpImm? {
      RoundTripImmediate(i, rest);
    } else if i.Jmp32? || i.Jcc32? || (i.AddEsp? && !IsByte(i.n)) {
      RoundTripLong(i, rest);
    } else if i.Call? {
      RoundTripCall(i.disp, rest);
    } else if i.Mov? || i.XorSelf? || i.AddEaxEdx? || i.SubEaxEdx? || i.CmpEaxEdx? {
      RoundTripRegisters(i, rest);
    } else {
      RoundTripShort(i, rest);
    }
  }

  // ----- streams -----

  function EncodeAll(code: seq<Instr>): seq<Byte> {
    if code == [] then [] else Encode(code[0]) + EncodeAll(code[1..])
  }

  function DecodeAll(b: seq<Byte>): Option<seq<Instr>> {
    if b == [] then Some([])
    else
      match Decode(b)
      case None => None
      case Some(f) =>
        if f.len == 0 || f.len > |b| then None
        else
          match DecodeAll(b[f.len..])
          case None => None
          case Some(code) => Some([f.ins] + code)
  }

  /** A stream emitted by the macros decodes to exactly the instruction sequence that was emitted. */
  lemma {:induction false} StreamRoundTrip(code: seq<Instr>)
    requires forall i :: i in code ==> Encodable(i)
    ensures DecodeAll(EncodeAll(code)) == Some(code)
  {
    if code != [] {
      var rest := EncodeAll(code[1..]);
      RoundTrip(code[0], rest);
      StreamRoundTrip(code[1..]);
      assert (Encode(code[0]) + rest)[|Encode(code[0])|..] == rest;
      assert [code[0]] + code[1..] == code;
    }
  }
}
