/** What compiled code can see of the Lisp system: constants, symbol tables and generic arithmetic. */
module Runtime {
  import opened Options
  import opened Words
  import opened X86

  type Name = string

  datatype Op = Less | LessEqual | Greater | GreaterEqual

  /** Kernel entry points reached through the jump table at ESI. */
  datatype Routine = GenericPlus | GenericMinus | GenericEqual | GenericCompare(op: Op) | UnboundVariable

  /** Registers and flags left behind by a kernel call. */
  datatype Scratch = Scratch(ecx: Word, edx: Word, edi: Word, zf: bool, sf: bool, of: bool)

  /** A literal symbol: a pointer with the uvector tag. */
  type SymbolWord = w: Word | w % 8 == 5 witness 5

  /** A symbol, the offset from ESI of its variable table entry, and the binding cell found there. */
  datatype VarEntry = VarEntry(sym: SymbolWord, offset: int, binding: Word)

  /** Generic arithmetic is a parameter; None is a condition signalled to the caller. */
  datatype Runtime = Runtime(
    nilWord: Word,
    tWord: Word,
    vars: map<Name, VarEntry>,
    qv: int -> Option<Word>,
    slot: Routine -> int,
    routineAt: int -> Option<Routine>,
    plus: (Word, Word) -> Option<Word>,
    minus: (Word, Word) -> Option<Word>,
    numEqual: (Word, Word) -> Option<bool>,
    compare: (Op, Word, Word) -> Option<bool>,
    scratch: (int, Word, Word) -> Scratch)
  {
    function Truth(b: bool): Word {
      if b then tWord else nilWord
    }

    /** The tables say what the symbols say, and binding cells are distinct.  Offsets below 128
        belong to fixed cells; a variable's offset is past them and always takes the long form. */
    ghost predicate Linked() {
      && nilWord != tWord
      && qv(0) == Some(nilWord)
      && qv(4) == Some(tWord)
      && (forall n :: n in vars ==> 127 < vars[n].offset && InFixnumRange(vars[n].offset) && qv(vars[n].offset) == Some(vars[n].binding))
      && (forall n, k :: n in vars && k in vars && n != k ==> vars[n].binding != vars[k].binding)
      && (forall r :: InFixnumRange(slot(r)) && routineAt(slot(r)) == Some(r))
      && (forall a, b :: plus(a, b) == plus(b, a))
    }
  }

  /** The unbound-variable marker, a bare cons tag. */
  const UNINITIALIZED: Word := 4

  function GlobalValue(globals: map<Name, Word>, n: Name): Word {
    if n in globals then globals[n] else UNINITIALIZED
  }
}
