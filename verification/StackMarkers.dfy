/**
 The stack markers of a thread: where control passed from Lisp code to foreign code and back.  The
 collector, THROW and the abort request read them, so each return has to take away exactly what the
 entry it belongs to put there.
 */
module StackMarkers {
  const NUM_STACK_MARKERS: nat := 60

  /** The largest index, in units of four per marker pair. */
  const STACK_MARKERS_MAX: nat := NUM_STACK_MARKERS * 4 / 2

  const MAX_DEPTH: nat := 30

  /** The stack pointer at a transition and, for calls of foreign functions, the return address. */
  datatype Marker = Marker(esp: nat, ret: nat)

  datatype Mode = InLisp | InForeign

  datatype Event =
    | LispToForeign(esp: nat)
    | ForeignToLisp(esp: nat)
    | ForeignReturnToLisp
    | LispReturnToForeign
    | RecordReturn(address: nat)
    | Throw(target: nat)

  /** What a thread executes after an event, whatever the markers say. */
  function ModeAfter(e: Event, before: Mode): Mode {
    match e
    case LispToForeign(_) => InForeign
    case ForeignToLisp(_) => InLisp
    case ForeignReturnToLisp => InLisp
    case LispReturnToForeign => InForeign
    case RecordReturn(_) => before
    case Throw(_) => InLisp
  }

  predicate Parity(n: nat) { n % 2 == 1 }

  /** Takes away the markers below the stack pointer that a THROW restores. */
  function Peel(stack: seq<Marker>, target: nat): (r: seq<Marker>)
    ensures r <= stack
    decreases |stack|
  {
    if stack != [] && stack[|stack| - 1].esp < target then Peel(stack[..|stack| - 1], target) else stack
  }

  lemma PeelTop(stack: seq<Marker>, i: nat, target: nat)
    requires i <= |stack|
    ensures Peel(stack[..i], target) == if i > 0 && stack[i - 1].esp < target then Peel(stack[..i - 1], target) else stack[..i]
  {
    if i > 0 {
      assert stack[..i][..i - 1] == stack[..i - 1];
    }
  }

  datatype Outcome = Running(stack: seq<Marker>) | Reported

  /** One transition on the markers; Reported when its check fails. */
  function Step(stack: seq<Marker>, e: Event): Outcome {
    match e
    case LispToForeign(esp) =>
      if |stack| >= MAX_DEPTH || Parity(|stack|) then Reported else Running(stack + [Marker(esp, 0)])
    case ForeignToLisp(esp) =>
      if |stack| >= MAX_DEPTH || !Parity(|stack|) then Reported else Running(stack + [Marker(esp, 0)])
    case ForeignReturnToLisp =>
      if |stack| == 0 || !Parity(|stack|) then Reported else Running(stack[..|stack| - 1])
    case LispReturnToForeign =>
      if |stack| == 0 || Parity(|stack|) then Reported else Running(stack[..|stack| - 1])
    case RecordReturn(address) =>
      if !Parity(|stack|) then Reported else Running(stack[|stack| - 1 := stack[|stack| - 1].(ret := address)])
    case Throw(target) =>
      if Parity(|Peel(stack, target)|) then Reported else Running(Peel(stack, target))
  }

  function Run(stack: seq<Marker>, events: seq<Event>): Outcome
    decreases |events|
  {
    if events == [] then Running(stack)
    else
      match Step(stack, events[0])
      case Reported => Reported
      case Running(s) => Run(s, events[1..])
  }

  function ModeRun(events: seq<Event>, before: Mode): Mode
    decreases |events|
  {
    if events == [] then before else ModeRun(events[1..], ModeAfter(events[0], before))
  }

  /** An odd number of markers says that foreign code runs; there is room for all of them. */
  predicate Good(stack: seq<Marker>, mode: Mode) {
    (Parity(|stack|) <==> mode == InForeign) && |stack| <= MAX_DEPTH
  }

  lemma StepGood(stack: seq<Marker>, e: Event, mode: Mode)
    requires Good(stack, mode) && Step(stack, e).Running?
    ensures Good(Step(stack, e).stack, ModeAfter(e, mode))
  {
  }

  /** In every run in which no check fails the parity of the index says which code is running. */
  lemma {:induction false} RunGood(stack: seq<Marker>, events: seq<Event>, mode: Mode)
    requires Good(stack, mode) && Run(stack, events).Running?
    ensures Good(Run(stack, events).stack, ModeRun(events, mode))
    ensures var r := Run(stack, events).stack; |r| <= 30 && if |r| % 2 == 0 then ModeRun(events, mode) == InLisp else ModeRun(events, mode) == InForeign
    decreases |events|
  {
    if events != [] {
      StepGood(stack, events[0], mode);
      RunGood(Step(stack, events[0]).stack, events[1..], ModeAfter(events[0], mode));
    }
  }

  // ----- matching entries and returns -----

  /** The run never goes below n markers. */
  predicate StaysAbove(stack: seq<Marker>, events: seq<Event>, n: nat)
    decreases |events|
  {
    |stack| >= n && (events != [] && Step(stack, events[0]).Running? ==> StaysAbove(Step(stack, events[0]).stack, events[1..], n))
  }

  /** The stack pointers of markers: a return address is not part of what a marker delimits. */
  function Pointers(stack: seq<Marker>): (r: seq<nat>)
    ensures |r| == |stack|
  {
    seq(|stack|, i requires 0 <= i < |stack| => stack[i].esp)
  }

  lemma StepBelow(stack: seq<Marker>, e: Event, n: nat)
    requires |stack| >= n && Step(stack, e).Running? && |Step(stack, e).stack| >= n
    ensures Pointers(Step(stack, e).stack)[..n] == Pointers(stack)[..n]
  {
  }

  lemma {:induction false} RunBelow(stack: seq<Marker>, events: seq<Event>, n: nat)
    requires StaysAbove(stack, events, n) && Run(stack, events).Running?
    ensures |Run(stack, events).stack| >= n && Pointers(Run(stack, events).stack)[..n] == Pointers(stack)[..n]
    decreases |events|
  {
    hide Step;
    if events != [] {
      var s := Step(stack, events[0]).stack;
      RunBelow(s, events[1..], n);
      StepBelow(stack, events[0], n);
    }
  }

  predicate IsEntry(e: Event) { e.LispToForeign? || e.ForeignToLisp? }

  predicate IsReturn(e: Event) { e.ForeignReturnToLisp? || e.LispReturnToForeign? }

  /**
   A return pops exactly the marker its matching entry pushed: if the level never falls below that
   marker in between and is back at it, the marker on top is the entry's, and the return is of the
   kind that belongs to the entry.
   */
  lemma ReturnMatches(stack: seq<Marker>, entry: Event, inner: seq<Event>, back: Event)
    requires IsEntry(entry) && IsReturn(back) && Step(stack, entry).Running?
    requires StaysAbove(Step(stack, entry).stack, inner, |stack| + 1)
    requires Run(Step(stack, entry).stack, inner).Running? && |Run(Step(stack, entry).stack, inner).stack| == |stack| + 1
    ensures var top := Run(Step(stack, entry).stack, inner).stack;
            top[|stack|].esp == entry.esp
            && (Step(top, back).Running? <==> (entry.LispToForeign? <==> back.ForeignReturnToLisp?))
            && (Step(top, back).Running? ==> Pointers(Step(top, back).stack) == Pointers(stack))
  {
    hide Run, StaysAbove;
    var s := Step(stack, entry).stack;
    var top := Run(s, inner).stack;
    RunBelow(s, inner, |stack| + 1);
    assert Pointers(top)[..|stack| + 1] == Pointers(top) && Pointers(s)[..|stack| + 1] == Pointers(s);
    assert Pointers(s)[|stack|] == entry.esp;
    assert Pointers(top[..|stack|]) == Pointers(s)[..|stack|] == Pointers(stack);
  }

  // ----- nested calls -----

  /** A call into the other kind of code, and the calls back that happen during it. */
  datatype Call = Call(esp: nat, inner: seq<Call>)

  function Max(a: nat, b: nat): nat { if a > b then a else b }

  /** How many calls are under way at once. */
  function Depth(calls: seq<Call>): nat
    decreases calls
  {
    if calls == [] then 0 else Max(1 + Depth(calls[0].inner), Depth(calls[1..]))
  }

  function Events(lisp: bool, calls: seq<Call>): seq<Event>
    decreases calls
  {
    if calls == [] then []
    else
      [if lisp then LispToForeign(calls[0].esp) else ForeignToLisp(calls[0].esp)]
      + (Events(!lisp, calls[0].inner)
         + ([if lisp then ForeignReturnToLisp else LispReturnToForeign] + Events(lisp, calls[1..])))
  }

  lemma {:induction false} RunAppend(stack: seq<Marker>, a: seq<Event>, b: seq<Event>)
    ensures Run(stack, a + b) == match Run(stack, a) case Reported => Reported case Running(s) => Run(s, b)
    decreases |a|
  {
    hide Step;
    if a == [] {
      assert a + b == b;
    } else {
      assert (a + b)[0] == a[0] && (a + b)[1..] == a[1..] + b;
      var out := Step(stack, a[0]);
      if out.Running? {
        RunAppend(out.stack, a[1..], b);
      }
    }
  }

  lemma RunOne(stack: seq<Marker>, e: Event, rest: seq<Event>)
    ensures Run(stack, [e] + rest) == match Step(stack, e) case Reported => Reported case Running(s) => Run(s, rest)
  {
    hide Step;
    assert ([e] + rest)[1..] == rest;
  }

  /**
   Calls nested to any depth leave the markers as they found them, and a check fails exactly when
   they are nested deeper than the thirty markers that there is room for.
   */
  lemma {:induction false} CallsBalanced(stack: seq<Marker>, calls: seq<Call>)
    requires |stack| <= 30
    ensures Run(stack, Events(|stack| % 2 == 0, calls)) == if |stack| + Depth(calls) <= 30 then Running(stack) else Reported
    decreases calls
  {
    hide Run;
    var lisp := !Parity(|stack|);
    if calls == [] {
      RunNone(stack);
    } else {
      var enter := if lisp then LispToForeign(calls[0].esp) else ForeignToLisp(calls[0].esp);
      var back := if lisp then ForeignReturnToLisp else LispReturnToForeign;
      var inner, rest := Events(!lisp, calls[0].inner), Events(lisp, calls[1..]);
      RunOne(stack, enter, inner + ([back] + rest));
      if |stack| < MAX_DEPTH {
        var top := stack + [Marker(calls[0].esp, 0)];
        RunAppend(top, inner, [back] + rest);
        CallsBalanced(top, calls[0].inner);
        RunOne(top, back, rest);
        assert top[..|stack|] == stack;
        CallsBalanced(stack, calls[1..]);
      }
    }
  }

  lemma RunNone(stack: seq<Marker>)
    ensures Run(stack, []) == Running(stack)
  {
  }

  // ----- THROW -----

  /** The stack grows down: what was pushed after the target was recorded lies below it. */
  lemma {:induction false} PeelExact(kept: seq<Marker>, gone: seq<Marker>, target: nat)
    requires forall i :: 0 <= i < |kept| ==> kept[i].esp >= target
    requires forall i :: 0 <= i < |gone| ==> gone[i].esp < target
    ensures Peel(kept + gone, target) == kept
    decreases |gone|
  {
    if gone == [] {
      assert kept + gone == kept;
    } else {
      assert (kept + gone)[..|kept + gone| - 1] == kept + gone[..|gone| - 1];
      PeelExact(kept, gone[..|gone| - 1], target);
    }
  }

  /** A THROW to a catcher of Lisp code takes away exactly the transitions made since; to foreign code it is an error. */
  lemma ThrowRestores(kept: seq<Marker>, gone: seq<Marker>, target: nat)
    requires forall i :: 0 <= i < |kept| ==> kept[i].esp >= target
    requires forall i :: 0 <= i < |gone| ==> gone[i].esp < target
    ensures Step(kept + gone, Throw(target)) == if Parity(|kept|) then Reported else Running(kept)
  {
    PeelExact(kept, gone, target);
  }

  // ----- the cells -----

  /** The part of a thread's QV that holds the markers. */
  class ThreadMarkers {
    const cells: array<nat>
    var index: nat

    ghost predicate Valid()
      reads this, cells
    {
      && cells.Length == NUM_STACK_MARKERS
      && index % 4 == 0 && index <= STACK_MARKERS_MAX
      && forall k :: index / 4 <= k < MAX_DEPTH ==> cells[2 * k] == 0
    }

    /** All cells above the index are zero; only a THROW can leave a return address there. */
    ghost predicate Clean()
      requires Valid()
      reads this, cells
    {
      forall k :: index / 4 <= k < MAX_DEPTH ==> cells[2 * k + 1] == 0
    }

    ghost function Stack(): (r: seq<Marker>)
      requires Valid()
      reads this, cells
      ensures |r| == index / 4
    {
      seq(index / 4, k requires 0 <= k < index / 4 && Valid() reads this, cells => Marker(cells[2 * k], cells[2 * k + 1]))
    }

    /** The main thread starts in Lisp code. */
    constructor ()
      ensures Valid() && Clean() && Stack() == [] && fresh(cells) && Good(Stack(), InLisp) && cells.Length == 60
    {
      cells := new nat[NUM_STACK_MARKERS](i => 0);
      index := 0;
    }

    /** A thread that foreign code started: BlessThread. */
    constructor Blessed(stackStart: nat)
      ensures Valid() && Clean() && Stack() == [Marker(stackStart, 0)] && fresh(cells) && Good(Stack(), InForeign)
    {
      cells := new nat[NUM_STACK_MARKERS](i => 0);
      index := 4;
      new;
      cells[0] := stackStart;
      cells[1] := 0;
    }

    method Push(esp: nat)
      requires Valid() && index < STACK_MARKERS_MAX
      modifies this`index, cells
      ensures Valid() && Stack() == old(Stack()) + [Marker(esp, 0)] && (old(Clean()) ==> Clean())
    {
      ghost var k := index / 4;
      assert index / 2 == 2 * k;
      cells[index / 2] := esp;
      cells[index / 2 + 1] := 0;
      index := index + 4;
      assert Stack() == old(Stack()) + [Marker(esp, 0)];
    }

    method Pop()
      requires Valid() && index > 0
      modifies this`index, cells
      ensures Valid() && Stack() == old(Stack())[..old(|Stack()|) - 1] && (old(Clean()) ==> Clean())
    {
      index := index - 4;
      assert index / 2 == 2 * (index / 4);
      cells[index / 2] := 0;
      cells[index / 2 + 1] := 0;
      assert Stack() == old(Stack())[..old(|Stack()|) - 1];
    }

    /** The bit of the index that the macros and AbortLispThread test. */
    function OddTransitions(): (b: bool)
      requires Valid()
      reads this, cells
      ensures b <==> Parity(|Stack()|)
    {
      (index / 4) % 2 == 1
    }

    method LispToForeign(esp: nat) returns (ok: bool)
      requires Valid()
      modifies this`index, cells
      ensures Valid() && (old(Clean()) ==> Clean())
      ensures Step(old(Stack()), Event.LispToForeign(esp)) == if ok then Running(Stack()) else Reported
    {
      if index >= STACK_MARKERS_MAX || OddTransitions() {
        return false;
      }
      Push(esp);
      ok := true;
    }

    method ForeignToLisp(esp: nat) returns (ok: bool)
      requires Valid()
      modifies this`index, cells
      ensures Valid() && (old(Clean()) ==> Clean())
      ensures Step(old(Stack()), Event.ForeignToLisp(esp)) == if ok then Running(Stack()) else Reported
    {
      if index >= STACK_MARKERS_MAX || !OddTransitions() {
        return false;
      }
      Push(esp);
      ok := true;
    }

    method ForeignReturnToLisp() returns (ok: bool)
      requires Valid()
      modifies this`index, cells
      ensures Valid() && (old(Clean()) ==> Clean())
      ensures Step(old(Stack()), Event.ForeignReturnToLisp) == if ok then Running(Stack()) else Reported
    {
      if index <= 0 || !OddTransitions() {
        return false;
      }
      Pop();
      ok := true;
    }

    method LispReturnToForeign() returns (ok: bool)
      requires Valid()
      modifies this`index, cells
      ensures Valid() && (old(Clean()) ==> Clean())
      ensures Step(old(Stack()), Event.LispReturnToForeign) == if ok then Running(Stack()) else Reported
    {
      if index <= 0 || OddTransitions() {
        return false;
      }
      Pop();
      ok := true;
    }

    /** A call of a foreign function stores its return address in the second cell of its marker. */
    method RecordReturn(address: nat)
      requires Valid() && OddTransitions()
      modifies cells
      ensures Valid() && (old(Clean()) ==> Clean())
      ensures Step(old(Stack()), Event.RecordReturn(address)) == Running(Stack())
    {
      var k := index / 4 - 1;
      cells[2 * k + 1] := address;
      assert Stack() == old(Stack())[k := old(Stack())[k].(ret := address)];
    }

    lemma StackCells()
      requires Valid()
      ensures forall k :: 0 <= k < index / 4 ==> Stack()[k] == Marker(cells[2 * k], cells[2 * k + 1])
    {
    }

    /** The peeling loop of THROW: only the first cell of a marker is cleared. */
    method PeelCells(target: nat) returns (i: nat)
      requires Valid()
      modifies cells
      ensures i <= |old(Stack())| && Peel(old(Stack()), target) == old(Stack())[..i]
      ensures forall k :: 0 <= k < i ==> cells[2 * k] == old(cells[2 * k])
      ensures forall k :: i <= k < MAX_DEPTH ==> cells[2 * k] == 0
      ensures forall k :: 0 <= k < MAX_DEPTH ==> cells[2 * k + 1] == old(cells[2 * k + 1])
    {
      hide Peel, Stack, Parity;
      i := index / 4;
      ghost var was := Stack();
      StackCells();
      assert was[..i] == was;
      while i > 0 && cells[2 * (i - 1)] < target
        invariant 0 <= i <= |was| && Peel(was[..i], target) == Peel(was, target)
        invariant forall k :: 0 <= k < i ==> cells[2 * k] == was[k].esp == old(cells[2 * k])
        invariant forall k :: i <= k < MAX_DEPTH ==> cells[2 * k] == 0
        invariant forall k :: 0 <= k < MAX_DEPTH ==> cells[2 * k + 1] == old(cells[2 * k + 1])
      {
        PeelTop(was, i, target);
        cells[2 * (i - 1)] := 0;
        i := i - 1;
      }
      PeelTop(was, i, target);
    }

    /** THROW: an error when foreign code would be left running; otherwise the index follows the markers. */
    method Throw(target: nat) returns (ok: bool)
      requires Valid()
      modifies this`index, cells
      ensures Valid()
      ensures ok ==> Step(old(Stack()), Event.Throw(target)) == Running(Stack())
      ensures !ok ==> Step(old(Stack()), Event.Throw(target)) == Reported && index == old(index)
      ensures ok && old(Clean()) ==>
                (Clean() <==> forall k :: index / 4 <= k < old(index) / 4 ==> old(cells[2 * k + 1]) == 0)
      ensures forall k :: 0 <= k < MAX_DEPTH ==> cells[2 * k + 1] == old(cells[2 * k + 1])
    {
      hide Peel;
      ghost var was := Stack();
      var i := PeelCells(target);
      if i % 2 == 1 {
        return false;
      }
      index := 4 * i;
      ok := true;
      assert Stack() == was[..i];
    }

    /** AbortLispThread: the thread may be made to signal exactly when it runs Lisp code. */
    method MayAbort(ghost mode: Mode) returns (abort: bool)
      requires Valid() && Good(Stack(), mode)
      ensures abort <==> mode == InLisp
      ensures abort <==> |Stack()| % 2 == 0
    {
      abort := !OddTransitions();
    }
  }

  lemma PeelTwo(stack: seq<Marker>, target: nat)
    requires |stack| == 4 && stack[1].esp >= target && stack[2].esp < target && stack[3].esp < target
    ensures Peel(stack, target) == [stack[0], stack[1]]
  {
    assert stack[..4] == stack;
    PeelTop(stack, 4, target);
    PeelTop(stack, 3, target);
    PeelTop(stack, 2, target);
  }

  /**
   A catcher set up by Lisp code that foreign code called; from there a call of a foreign function,
   its return address recorded, and a callback that throws: the address is left above the index.
   */
  method AddressLeft(start: nat, catcher: nat, call: nat, callback: nat, address: nat) returns (m: ThreadMarkers)
    requires call < catcher && callback < catcher <= start && address != 0
    ensures fresh(m) && m.Valid() && m.Stack() == [Marker(start, 0), Marker(catcher, 0)]
    ensures m.cells[5] == address && !m.Clean()
  {
    hide Peel;
    m := new ThreadMarkers.Blessed(start);
    var ok := m.ForeignToLisp(catcher);
    assert m.Stack() == [Marker(start, 0), Marker(catcher, 0)];
    ok := m.LispToForeign(call);
    assert m.Stack() == [Marker(start, 0), Marker(catcher, 0), Marker(call, 0)];
    m.RecordReturn(address);
    assert m.Stack() == [Marker(start, 0), Marker(catcher, 0), Marker(call, address)];
    ok := m.ForeignToLisp(callback);
    ghost var thrown := [Marker(start, 0), Marker(catcher, 0), Marker(call, address), Marker(callback, 0)];
    assert m.Stack() == thrown;
    m.StackCells();
    assert m.Stack()[2] == Marker(m.cells[2 * 2], m.cells[2 * 2 + 1]);
    assert m.cells[5] == address;
    PeelTwo(thrown, catcher);
    ok := m.Throw(catcher);
    assert m.cells[2 * 2 + 1] == address && m.index / 4 == 2;
  }
}
