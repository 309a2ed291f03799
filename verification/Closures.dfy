/**
 Closures: where the compiler looks for a variable or a local function of an enclosing function, and
 what it stores for it when it creates the closure.  A list of lexical records has those of the
 function being compiled first, then a mark, then those of the enclosing function at the place of the
 lambda expression, and so on outwards.
 */
module Closures {
  import opened Options

  type Sym = nat

  datatype Kind = Variable | Function

  /** heap: the binding is a cell that closures share, because some lambda expression mentions the name. */
  datatype Rec =
    | Binding(kind: Kind, name: Sym, heap: bool)
    | Environment
    | Special(names: seq<Sym>)
    | OnlyLexicals(names: seq<Sym>)
    | OtherRec

  predicate Matches(r: Rec, sym: Sym, kind: Kind) {
    r.Binding? && r.name == sym && r.kind == kind
  }

  predicate IsHeap(r: Rec) { r.Binding? && r.heap }

  /** Records that end a search: only the listed variables are inherited, or a name is declared special. */
  predicate Ends(r: Rec, sym: Sym, kind: Kind, atRead: bool) {
    (r.OnlyLexicals? && (kind == Function || sym !in r.names)) || (atRead && kind == Variable && r.Special? && sym in r.names)
  }

  /** Lexical scope: the innermost binding of the name, wherever it is kept. */
  function Scope(env: seq<Rec>, sym: Sym, kind: Kind, atRead: bool): (j: Option<nat>)
    ensures j.Some? ==> j.value < |env| && Matches(env[j.value], sym, kind)
  {
    if env == [] || Ends(env[0], sym, kind, atRead) then None
    else if Matches(env[0], sym, kind) then Some(0)
    else
      match Scope(env[1..], sym, kind, atRead)
      case None => None
      case Some(j) => Some(j + 1)
  }

  /**
   A search for this name goes on past the record: a binding of another name or kind, a list of
   inherited variables that has this variable, never one for a function, and for a read a declaration
   that does not make this variable special.
   */
  predicate Passed(r: Rec, sym: Sym, kind: Kind, atRead: bool) {
    match r
    case Binding(k, name, _) => name != sym || k != kind
    case OnlyLexicals(names) => kind == Variable && sym in names
    case Special(names) => kind == Function || !atRead || sym !in names
    case _ => true
  }

  /** Record j is a binding of the name, and every record in front of it is passed. */
  predicate Reached(env: seq<Rec>, sym: Sym, kind: Kind, atRead: bool, j: nat) {
    && j < |env| && env[j].Binding? && env[j].name == sym && env[j].kind == kind
    && forall i :: 0 <= i < j ==> Passed(env[i], sym, kind, atRead)
  }

  lemma ReachedLater(env: seq<Rec>, sym: Sym, kind: Kind, atRead: bool, j: nat)
    requires env != [] && j > 0
    ensures Reached(env, sym, kind, atRead, j) <==> Passed(env[0], sym, kind, atRead) && Reached(env[1..], sym, kind, atRead, j - 1)
  {
    hide Passed;
    if Passed(env[0], sym, kind, atRead) && Reached(env[1..], sym, kind, atRead, j - 1) {
      forall i | 0 < i < j
        ensures Passed(env[i], sym, kind, atRead)
      {
        assert env[i] == env[1..][i - 1];
      }
    }
  }

  lemma PassedIs(r: Rec, sym: Sym, kind: Kind, atRead: bool)
    ensures Passed(r, sym, kind, atRead) <==> !Ends(r, sym, kind, atRead) && !Matches(r, sym, kind)
    ensures Matches(r, sym, kind) ==> r.Binding? && r.name == sym && r.kind == kind && !Ends(r, sym, kind, atRead)
  {
  }

  /** The binding in scope is the first of the name and kind, with nothing in front of it that is not passed. */
  lemma {:induction false} ScopeExact(env: seq<Rec>, sym: Sym, kind: Kind, atRead: bool, j: nat)
    ensures Scope(env, sym, kind, atRead) == Some(j) <==> Reached(env, sym, kind, atRead, j)
    decreases |env|
  {
    if env != [] {
      ScopeUnfold(env, sym, kind, atRead);
      PassedIs(env[0], sym, kind, atRead);
      hide Passed, Ends, Scope;
      if j > 0 {
        ReachedLater(env, sym, kind, atRead, j);
        ScopeExact(env[1..], sym, kind, atRead, j - 1);
      }
    }
  }

  /** The place of the first mark, or the length. */
  function Mark(env: seq<Rec>): (m: nat)
    ensures m <= |env| && (m < |env| ==> env[m].Environment?) && forall i :: 0 <= i < m ==> !env[i].Environment?
  {
    if env == [] || env[0].Environment? then 0 else 1 + Mark(env[1..])
  }

  /** The records of the enclosing functions. */
  function Outer(env: seq<Rec>): (r: seq<Rec>)
    ensures env != [] ==> |r| < |env|
  {
    if Mark(env) < |env| then env[Mark(env) + 1..] else []
  }

  /** How many of the first n records are bindings in cells: the slot of record n, if it is one. */
  function Slots(env: seq<Rec>, n: nat): (k: nat)
    requires n <= |env|
    ensures k <= n
  {
    if n == 0 then 0 else (if IsHeap(env[0]) then 1 else 0) + Slots(env[1..], n - 1)
  }

  /** Where the generated code takes a binding from: the frame of its own function, or a slot of its environment vector. */
  datatype Place = Nowhere | InFrame(index: nat) | InVector(index: nat, slot: nat)

  /** Past the mark, with count cells of the enclosing functions passed. */
  function FindOuter(env: seq<Rec>, at: nat, count: nat, sym: Sym, kind: Kind, atRead: bool): Place {
    if env == [] || Ends(env[0], sym, kind, atRead) then Nowhere
    else if IsHeap(env[0]) && Matches(env[0], sym, kind) then InVector(at, count)
    else FindOuter(env[1..], at + 1, if IsHeap(env[0]) then count + 1 else count, sym, kind, atRead)
  }

  function FindFrom(env: seq<Rec>, at: nat, sym: Sym, kind: Kind, atRead: bool): Place {
    if env == [] || Ends(env[0], sym, kind, atRead) then Nowhere
    else if env[0].Environment? then FindOuter(env[1..], at + 1, 0, sym, kind, atRead)
    else if Matches(env[0], sym, kind) then InFrame(at)
    else FindFrom(env[1..], at + 1, sym, kind, atRead)
  }

  /** What the search of the compiler finds. */
  function Find(env: seq<Rec>, sym: Sym, kind: Kind, atRead: bool): Place {
    FindFrom(env, 0, sym, kind, atRead)
  }

  // ----- the search agrees with the scope -----

  lemma {:induction false} OuterFound(env: seq<Rec>, at: nat, count: nat, sym: Sym, kind: Kind, atRead: bool)
    ensures var j := Scope(env, sym, kind, atRead);
            if j == None then FindOuter(env, at, count, sym, kind, atRead) == Nowhere
            else if IsHeap(env[j.value]) then FindOuter(env, at, count, sym, kind, atRead) == InVector(at + j.value, count + Slots(env, j.value))
            else !AtIndex(FindOuter(env, at, count, sym, kind, atRead), at + j.value)
  {
    if env != [] && !Ends(env[0], sym, kind, atRead) {
      if Matches(env[0], sym, kind) {
        if !IsHeap(env[0]) {
          OuterLater(env[1..], at + 1, count, sym, kind, atRead, at);
        }
      } else {
        OuterFound(env[1..], at + 1, if IsHeap(env[0]) then count + 1 else count, sym, kind, atRead);
      }
    }
  }

  predicate AtIndex(p: Place, i: nat) {
    match p
    case Nowhere => false
    case InFrame(index) => index == i
    case InVector(index, _) => index == i
  }

  lemma {:induction false} OuterLater(env: seq<Rec>, at: nat, count: nat, sym: Sym, kind: Kind, atRead: bool, i: nat)
    requires i < at
    ensures !AtIndex(FindOuter(env, at, count, sym, kind, atRead), i)
  {
    if env != [] && !Ends(env[0], sym, kind, atRead) && !(IsHeap(env[0]) && Matches(env[0], sym, kind)) {
      OuterLater(env[1..], at + 1, if IsHeap(env[0]) then count + 1 else count, sym, kind, atRead, i);
    }
  }

  lemma ScopeUnfold(env: seq<Rec>, sym: Sym, kind: Kind, atRead: bool)
    ensures env == [] || Ends(env[0], sym, kind, atRead) ==> Scope(env, sym, kind, atRead) == None
    ensures env != [] && !Ends(env[0], sym, kind, atRead) ==>
              if Matches(env[0], sym, kind) then Scope(env, sym, kind, atRead) == Some(0)
              else
                (Scope(env[1..], sym, kind, atRead) == None ==> Scope(env, sym, kind, atRead) == None)
                && (Scope(env[1..], sym, kind, atRead).Some? ==> Scope(env, sym, kind, atRead) == Some(Scope(env[1..], sym, kind, atRead).value + 1))
  {
    hide Ends, Matches;
  }

  lemma MarkTail(env: seq<Rec>)
    requires env != []
    ensures Mark(env) == if env[0].Environment? then 0 else 1 + Mark(env[1..])
    ensures Mark(env) < |env| && !env[0].Environment? ==> env[1..][Mark(env[1..]) + 1..] == env[Mark(env) + 1..]
  {
  }

  /** Where a search from place at on should find record j. */
  predicate FoundAt(env: seq<Rec>, at: nat, j: Option<nat>, p: Place)
    requires j.Some? ==> j.value < |env|
  {
    var m := Mark(env);
    if j == None then p == Nowhere
    else if j.value < m then p == InFrame(at + j.value)
    else m < j.value
         && if IsHeap(env[j.value]) then p == InVector(at + j.value, Slots(env[m + 1..], j.value - m - 1)) else !AtIndex(p, at + j.value)
  }

  function Later(j: Option<nat>): Option<nat> {
    match j case None => None case Some(k) => Some(k + 1)
  }

  lemma FoundLater(env: seq<Rec>, at: nat, j: Option<nat>, p: Place)
    requires env != [] && !env[0].Environment? && (j.Some? ==> j.value + 1 < |env|)
    requires FoundAt(env[1..], at + 1, j, p)
    ensures FoundAt(env, at, Later(j), p)
  {
    hide Slots, IsHeap, Mark;
    MarkTail(env);
  }

  lemma {:induction false} FoundFrom(env: seq<Rec>, at: nat, sym: Sym, kind: Kind, atRead: bool)
    ensures FoundAt(env, at, Scope(env, sym, kind, atRead), FindFrom(env, at, sym, kind, atRead))
  {
    hide FindOuter, Slots, IsHeap, Ends, Mark, FindFrom, Scope;
    FromUnfold(env, at, sym, kind, atRead);
    ScopeUnfold(env, sym, kind, atRead);
    if env != [] && !Ends(env[0], sym, kind, atRead) {
      MarkTail(env);
      if env[0].Environment? {
        OuterFound(env[1..], at + 1, 0, sym, kind, atRead);
      } else if !Matches(env[0], sym, kind) {
        FoundFrom(env[1..], at + 1, sym, kind, atRead);
        FoundLater(env, at, Scope(env[1..], sym, kind, atRead), FindFrom(env[1..], at + 1, sym, kind, atRead));
      }
    }
  }

  /**
   The search finds the binding that is in scope exactly when it belongs to the function itself or is
   in a cell; and then the slot it computes is the number of cells between the mark and the binding.
   */
  lemma FindExact(env: seq<Rec>, sym: Sym, kind: Kind, atRead: bool, j: nat)
    requires Scope(env, sym, kind, atRead) == Some(j)
    ensures AtIndex(Find(env, sym, kind, atRead), j) <==> j < Mark(env) || IsHeap(env[j])
    ensures j < Mark(env) ==> Find(env, sym, kind, atRead) == InFrame(j)
    ensures j >= Mark(env) && IsHeap(env[j]) ==>
              j > Mark(env) && Find(env, sym, kind, atRead) == InVector(j, Slots(Outer(env), j - Mark(env) - 1))
  {
    hide FindFrom, Scope, Slots, IsHeap, Mark;
    FoundFrom(env, 0, sym, kind, atRead);
  }

  // ----- what the slots hold -----

  /** The record that a slot was made for. */
  function SlotRecord(env: seq<Rec>, slot: nat): (i: nat)
    ensures i <= |env|
  {
    if env == [] then 0
    else if IsHeap(env[0]) then (if slot == 0 then 0 else 1 + SlotRecord(env[1..], slot - 1))
    else 1 + SlotRecord(env[1..], slot)
  }

  lemma {:induction false} SlotRecordIs(env: seq<Rec>, i: nat)
    requires i < |env| && IsHeap(env[i])
    ensures SlotRecord(env, Slots(env, i)) == i
  {
    if i > 0 {
      SlotRecordIs(env[1..], i - 1);
    }
  }

  lemma {:induction false} SlotsInOrder(env: seq<Rec>, i: nat, j: nat)
    requires i < j <= |env|
    ensures Slots(env, i) + (if IsHeap(env[i]) then 1 else 0) <= Slots(env, j)
    ensures Slots(env, i + 1) == Slots(env, i) + if IsHeap(env[i]) then 1 else 0
  {
    if i > 0 {
      SlotsInOrder(env[1..], i - 1, j - 1);
    } else if j > 1 {
      SlotsFrom(env[1..], j - 1);
    }
  }

  lemma SlotsFrom(env: seq<Rec>, j: nat)
    requires j <= |env|
    ensures Slots(env, 0) == 0 <= Slots(env, j)
  {
  }

  /** The records among the first n that are bindings in cells. */
  function Cells(env: seq<Rec>, n: nat): set<nat>
    requires n <= |env|
  {
    set i: nat | i < n && env[i].Binding? && env[i].heap
  }

  /** Slots are numbered without a gap: the slot of record n is the number of cells in front of it. */
  lemma {:induction false} SlotsCount(env: seq<Rec>, n: nat)
    requires n <= |env|
    ensures Slots(env, n) == |Cells(env, n)|
  {
    hide Slots;
    SlotsFrom(env, n);
    if n > 0 {
      SlotsCount(env, n - 1);
      SlotsInOrder(env, n - 1, n);
      assert Cells(env, n) == Cells(env, n - 1) + if IsHeap(env[n - 1]) then {n - 1} else {};
    } else {
      assert Cells(env, 0) == {};
    }
  }

  /**
   The word that code of the function with these records loads from a place.  words[i] is the word in
   the frame place of record i, in the activation that made the binding: for a binding in a cell, the
   cell.  A slot of the environment vector holds what the enclosing function loaded for it when it
   created the closure.
   */
  function Fetch(env: seq<Rec>, words: seq<nat>, p: Place): nat
    requires |words| == |env|
    decreases |env|, 0
  {
    match p
    case Nowhere => 0
    case InFrame(i) => if i < |words| then words[i] else 0
    case InVector(_, slot) =>
      if Mark(env) < |env| then SlotWord(Outer(env), words[Mark(env) + 1..], slot) else 0
  }

  /** compileLexEnvironment: each slot is loaded by the name of its record. */
  function SlotWord(env: seq<Rec>, words: seq<nat>, slot: nat): nat
    requires |words| == |env|
    decreases |env|, 1
  {
    var i := SlotRecord(env, slot);
    if i < |env| && IsHeap(env[i]) then Fetch(env, words, Find(env, env[i].name, env[i].kind, false)) else 0
  }

  lemma {:induction false} ScopeOuter(env: seq<Rec>, sym: Sym, kind: Kind, atRead: bool, j: nat)
    requires Scope(env, sym, kind, atRead) == Some(j) && j > Mark(env)
    ensures Scope(Outer(env), sym, kind, atRead) == Some(j - Mark(env) - 1)
  {
    hide Ends;
    if Mark(env) > 0 {
      ScopeOuter(env[1..], sym, kind, atRead, j - 1);
      assert env[1..][Mark(env)..] == env[Mark(env) + 1..];
    }
  }

  /**
   For every nesting of lambda expressions: if the binding in scope is the function's own or in a
   cell, the code loads the very word that its binder put in its frame, through however many
   environment vectors.  So inner and outer functions share one cell.
   */
  lemma {:induction false} SharedCell(env: seq<Rec>, words: seq<nat>, sym: Sym, kind: Kind, j: nat)
    requires |words| == |env| && Scope(env, sym, kind, false) == Some(j)
    requires j < Mark(env) || IsHeap(env[j])
    ensures Fetch(env, words, Find(env, sym, kind, false)) == words[j]
    decreases |env|
  {
    hide Find, Scope, Slots, Outer, Mark, SlotRecord, SlotWord, Fetch;
    FindExact(env, sym, kind, false, j);
    FetchUnfold(env, words, Find(env, sym, kind, false));
    if j >= Mark(env) {
      var m, out := Mark(env), Outer(env);
      OuterRecords(env, j);
      ScopeOuter(env, sym, kind, false, j);
      SlotRecordIs(out, j - m - 1);
      SlotUnfold(out, words[m + 1..], j - m - 1);
      SharedCell(out, words[m + 1..], sym, kind, j - m - 1);
    }
  }

  lemma OuterRecords(env: seq<Rec>, j: nat)
    requires Mark(env) < j < |env|
    ensures |Outer(env)| == |env| - Mark(env) - 1 && j - Mark(env) - 1 < |Outer(env)| && Outer(env)[j - Mark(env) - 1] == env[j]
  {
    hide Mark;
  }

  lemma FetchUnfold(env: seq<Rec>, words: seq<nat>, p: Place)
    requires |words| == |env|
    ensures p.InFrame? && p.index < |words| ==> Fetch(env, words, p) == words[p.index]
    ensures p.InVector? && Mark(env) < |env| ==> |Outer(env)| == |env| - Mark(env) - 1 && Fetch(env, words, p) == SlotWord(Outer(env), words[Mark(env) + 1..], p.slot)
  {
    hide SlotWord, Mark;
  }

  lemma SlotUnfold(env: seq<Rec>, words: seq<nat>, i: nat)
    requires |words| == |env| && i < |env| && IsHeap(env[i]) && SlotRecord(env, Slots(env, i)) == i
    ensures SlotWord(env, words, Slots(env, i)) == Fetch(env, words, Find(env, env[i].name, env[i].kind, false))
  {
    hide Fetch, Find, SlotRecord, Slots;
  }

  /** A read finds what the creation of a closure and SETQ find, unless a special declaration stands in front. */
  lemma {:induction false} ReadsAgree(env: seq<Rec>, sym: Sym, kind: Kind)
    ensures Scope(env, sym, kind, true) == Scope(env, sym, kind, false) || Scope(env, sym, kind, true) == None
    ensures Scope(env, sym, kind, true) == Scope(env, sym, kind, false) <==>
            (Scope(env, sym, kind, false).Some? && kind == Variable ==>
               forall i :: 0 <= i < Scope(env, sym, kind, false).value ==> !(env[i].Special? && sym in env[i].names))
  {
    if env != [] && !Ends(env[0], sym, kind, false) && !Matches(env[0], sym, kind) {
      ReadsAgree(env[1..], sym, kind);
      if Ends(env[0], sym, kind, true) {
      } else if Scope(env[1..], sym, kind, false).Some? && kind == Variable {
        var j := Scope(env[1..], sym, kind, false).value;
        if forall i :: 0 <= i < j ==> !(env[1..][i].Special? && sym in env[1..][i].names) {
          forall i | 0 <= i < j + 1
            ensures !(env[i].Special? && sym in env[i].names)
          {
            if i > 0 {
              assert env[i] == env[1..][i - 1];
            }
          }
        } else {
          var i :| 0 <= i < j && env[1..][i].Special? && sym in env[1..][i].names;
          assert env[i + 1] == env[1..][i];
        }
      }
    }
  }

  /** Reads: the value is in the same cell, or in the same frame place. */
  lemma SharedRead(env: seq<Rec>, words: seq<nat>, sym: Sym, kind: Kind, j: nat)
    requires |words| == |env| && Scope(env, sym, kind, true) == Some(j)
    requires j < Mark(env) || IsHeap(env[j])
    ensures Find(env, sym, kind, true) == Find(env, sym, kind, false)
    ensures Fetch(env, words, Find(env, sym, kind, true)) == words[j]
  {
    hide Find, Scope, Mark, Fetch;
    ReadsAgree(env, sym, kind);
    FindExact(env, sym, kind, true, j);
    FindExact(env, sym, kind, false, j);
    SharedCell(env, words, sym, kind, j);
  }

  // ----- the loops -----

  lemma {:induction false} FindSteps(env: seq<Rec>, i: nat, m: nat, sym: Sym, kind: Kind, atRead: bool)
    requires i < |env|
    ensures env[i..][0] == env[i] && env[i..][1..] == env[i + 1..]
  {
  }

  /**
   The search of compileLexicalEntity (when reading), compileLexicalSlot and compileSetqForm: one pass over
   the records, counting cells once it is past the mark.
   */
  method Search(env: seq<Rec>, sym: Sym, kind: Kind, atRead: bool) returns (p: Place)
    ensures p == Find(env, sym, kind, atRead)
  {
    hide FindFrom, FindOuter, Ends, Matches;
    var isEnvironment, envCount := false, 0;
    var i := 0;
    assert env[0..] == env;
    while i < |env|
      invariant 0 <= i <= |env| && envCount >= (if isEnvironment then -1 else 0)
      invariant Find(env, sym, kind, atRead) ==
                if isEnvironment then FindOuter(env[i..], i, envCount + 1, sym, kind, atRead) else FindFrom(env[i..], i, sym, kind, atRead)
    {
      var rec := env[i];
      FindSteps(env, i, 0, sym, kind, atRead);
      OuterUnfold(env[i..], i, envCount + 1, sym, kind, atRead);
      FromUnfold(env[i..], i, sym, kind, atRead);
      if Ends(rec, sym, kind, atRead) {
        return Nowhere;
      }
      if !isEnvironment && rec.Environment? {
        isEnvironment := true;
        envCount := -1;
        i := i + 1;
        continue;
      }
      if rec.Binding? {
        if isEnvironment && rec.heap {
          envCount := envCount + 1;
        }
        if Matches(rec, sym, kind) {
          if isEnvironment {
            if rec.heap {
              return InVector(i, envCount);
            }
          } else {
            return InFrame(i);
          }
        }
      }
      MatchesBinding(rec, sym, kind);
      i := i + 1;
    }
    OuterUnfold(env[i..], i, envCount + 1, sym, kind, atRead);
    FromUnfold(env[i..], i, sym, kind, atRead);
    p := Nowhere;
  }

  lemma MatchesBinding(r: Rec, sym: Sym, kind: Kind)
    ensures Matches(r, sym, kind) ==> r.Binding?
  {
  }

  lemma OuterUnfold(env: seq<Rec>, at: nat, count: nat, sym: Sym, kind: Kind, atRead: bool)
    ensures FindOuter(env, at, count, sym, kind, atRead) ==
            if env == [] || Ends(env[0], sym, kind, atRead) then Nowhere
            else if IsHeap(env[0]) && Matches(env[0], sym, kind) then InVector(at, count)
            else FindOuter(env[1..], at + 1, if IsHeap(env[0]) then count + 1 else count, sym, kind, atRead)
  {
    hide Ends, Matches, IsHeap;
  }

  lemma FromUnfold(env: seq<Rec>, at: nat, sym: Sym, kind: Kind, atRead: bool)
    ensures FindFrom(env, at, sym, kind, atRead) ==
            if env == [] || Ends(env[0], sym, kind, atRead) then Nowhere
            else if env[0].Environment? then FindOuter(env[1..], at + 1, 0, sym, kind, atRead)
            else if Matches(env[0], sym, kind) then InFrame(at)
            else FindFrom(env[1..], at + 1, sym, kind, atRead)
  {
    hide Ends, Matches, FindOuter;
  }

  /** A name and the slot made for it. */
  datatype Entry = Entry(name: Sym, slot: nat)

  /** The entries of one kind for the first n records, the last one first. */
  function Entries(env: seq<Rec>, n: nat, kind: Kind): seq<Entry>
    requires n <= |env|
  {
    if n == 0 then []
    else (if IsHeap(env[n - 1]) && env[n - 1].kind == kind then [Entry(env[n - 1].name, Slots(env, n - 1))] else [])
         + Entries(env, n - 1, kind)
  }

  /** lexEnvironmentSlots: how many slots, and which name each is made for. */
  method LexEnvironmentSlots(env: seq<Rec>) returns (lexSize: nat, vars: seq<Entry>, funcs: seq<Entry>)
    ensures lexSize == Slots(env, |env|)
    ensures vars == Entries(env, |env|, Variable) && funcs == Entries(env, |env|, Function)
  {
    hide Slots;
    lexSize, vars, funcs := 0, [], [];
    SlotsFrom(env, 0);
    var i := 0;
    while i < |env|
      invariant 0 <= i <= |env| && lexSize == Slots(env, i)
      invariant vars == Entries(env, i, Variable) && funcs == Entries(env, i, Function)
    {
      SlotsInOrder(env, i, i + 1);
      var q := env[i];
      if q.Binding? && q.heap {
        if q.kind == Variable {
          vars := [Entry(q.name, lexSize)] + vars;
        } else {
          funcs := [Entry(q.name, lexSize)] + funcs;
        }
        lexSize := lexSize + 1;
      }
      i := i + 1;
    }
  }

  /** The entries of a kind are exactly those of its cells: each with the slot that inner functions compute. */
  lemma {:induction false} EntriesExact(env: seq<Rec>, n: nat, kind: Kind, e: Entry)
    requires n <= |env|
    ensures e in Entries(env, n, kind) <==> exists i :: 0 <= i < n && EntryOf(env, i, kind, e)
  {
    hide EntryOf;
    if n > 0 {
      EntriesExact(env, n - 1, kind, e);
      EntriesLast(env, n, kind, e);
    }
  }

  /** The entry made for record i. */
  predicate EntryOf(env: seq<Rec>, i: nat, kind: Kind, e: Entry)
    requires i < |env|
  {
    IsHeap(env[i]) && env[i].kind == kind && e == Entry(env[i].name, Slots(env, i))
  }

  lemma EntriesLast(env: seq<Rec>, n: nat, kind: Kind, e: Entry)
    requires 0 < n <= |env|
    ensures e in Entries(env, n, kind) <==> EntryOf(env, n - 1, kind, e) || e in Entries(env, n - 1, kind)
  {
    hide Slots;
  }

  /** Every slot was made for a record. */
  lemma {:induction false} SlotHasRecord(env: seq<Rec>, slot: nat)
    requires slot < Slots(env, |env|)
    ensures var i := SlotRecord(env, slot); i < |env| && IsHeap(env[i]) && Slots(env, i) == slot
  {
    if IsHeap(env[0]) {
      if slot > 0 {
        SlotHasRecord(env[1..], slot - 1);
      }
    } else {
      SlotHasRecord(env[1..], slot);
    }
  }

  /** What is loaded for an entry is the word of its slot. */
  lemma EntryWord(env: seq<Rec>, words: seq<nat>, kind: Kind, e: Entry)
    requires |words| == |env| && e in Entries(env, |env|, kind)
    ensures e.slot < Slots(env, |env|) && SlotWord(env, words, e.slot) == Fetch(env, words, Find(env, e.name, kind, false))
  {
    hide Slots, SlotWord, Fetch, Find, Entries, SlotRecord, EntryOf;
    EntriesExact(env, |env|, kind, e);
    var i :| 0 <= i < |env| && EntryOf(env, i, kind, e);
    EntryIs(env, i, kind, e);
    SlotsInOrder(env, i, |env|);
    SlotRecordIs(env, i);
    SlotUnfold(env, words, i);
  }

  lemma EntryIs(env: seq<Rec>, i: nat, kind: Kind, e: Entry)
    requires i < |env| && EntryOf(env, i, kind, e)
    ensures IsHeap(env[i]) && env[i].kind == kind && e == Entry(env[i].name, Slots(env, i))
  {
    hide Slots;
  }

  /** Every slot has an entry. */
  lemma SlotHasEntry(env: seq<Rec>, slot: nat)
    requires slot < Slots(env, |env|)
    ensures exists kind, e :: e in Entries(env, |env|, kind) && e.slot == slot
  {
    hide Slots, Entries, SlotRecord;
    SlotHasRecord(env, slot);
    var i := SlotRecord(env, slot);
    var e := Entry(env[i].name, slot);
    EntriesExact(env, |env|, env[i].kind, e);
    assert EntryOf(env, i, env[i].kind, e);
  }

  /** One of the two loops of compileLexEnvironment. */
  method FillSlots(env: seq<Rec>, words: seq<nat>, kind: Kind, entries: seq<Entry>, vec: array<nat>)
    requires |words| == |env| && entries == Entries(env, |env|, kind) && vec.Length == Slots(env, |env|)
    modifies vec
    ensures forall e :: e in entries ==> e.slot < vec.Length && vec[e.slot] == SlotWord(env, words, e.slot)
    ensures forall k :: 0 <= k < vec.Length && old(vec[k]) == SlotWord(env, words, k) ==> vec[k] == SlotWord(env, words, k)
  {
    hide Slots, SlotWord, Fetch, Find, Entries;
    var i := 0;
    while i < |entries|
      invariant 0 <= i <= |entries|
      invariant forall j :: 0 <= j < i ==> entries[j].slot < vec.Length && vec[entries[j].slot] == SlotWord(env, words, entries[j].slot)
      invariant forall k :: 0 <= k < vec.Length && old(vec[k]) == SlotWord(env, words, k) ==> vec[k] == SlotWord(env, words, k)
    {
      var e := entries[i];
      EntryWord(env, words, kind, e);
      var p := Search(env, e.name, kind, false);
      vec[e.slot] := Fetch(env, words, p);
      i := i + 1;
    }
  }

  /** compileLexEnvironment: the environment vector of a closure, without its header. */
  method LexEnvironment(env: seq<Rec>, words: seq<nat>) returns (vec: array<nat>)
    requires |words| == |env|
    ensures fresh(vec) && vec.Length == Slots(env, |env|)
    ensures forall k :: 0 <= k < vec.Length ==> vec[k] == SlotWord(env, words, k)
  {
    hide Slots, SlotWord, Entries;
    var lexSize, vars, funcs := LexEnvironmentSlots(env);
    vec := new nat[lexSize];
    FillSlots(env, words, Variable, vars, vec);
    FillSlots(env, words, Function, funcs, vec);
    forall k | 0 <= k < vec.Length
      ensures vec[k] == SlotWord(env, words, k)
    {
      SlotHasEntry(env, k);
      var kind, e :| e in Entries(env, |env|, kind) && e.slot == k;
      assert kind == Variable ==> e in vars;
      assert kind == Function ==> e in funcs;
    }
  }
}
