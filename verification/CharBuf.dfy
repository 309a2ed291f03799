/**
 The buffer between the terminal and the Lisp reader: producers add characters, the reader takes
 them out, each under the lock, in any interleaving.
 */
module CharBuf {
  /** A character and the producer that added it. */
  datatype Entry = Entry(from: nat, c: char)

  /** The buffer as a bounded queue, with everything it ever accepted and delivered. */
  datatype Queue = Queue(size: nat, held: seq<Entry>, accepted: seq<Entry>, delivered: seq<Entry>)

  /** One locked operation of some thread. */
  datatype Step = Add(from: nat, text: string) | Get(num: nat)

  function Tagged(from: nat, text: string): (r: seq<Entry>)
    ensures |r| == |text|
  {
    seq(|text|, i requires 0 <= i < |text| => Entry(from, text[i]))
  }

  function Chars(log: seq<Entry>): (r: string)
    ensures |r| == |log|
  {
    seq(|log|, i requires 0 <= i < |log| => log[i].c)
  }

  lemma CharsTagged(log: seq<Entry>, from: nat, text: string)
    ensures Chars(log + Tagged(from, text)) == Chars(log) + text
  {
  }

  lemma CharsSplit(log: seq<Entry>, n: nat)
    requires n <= |log|
    ensures Chars(log[..n]) == Chars(log)[..n] && Chars(log[n..]) == Chars(log)[n..]
  {
  }

  /** How many of num characters there is room for: one place is kept for the zero of getChars. */
  function Room(q: Queue, num: int): nat {
    var space := q.size - 1 - |q.held|;
    var n := if space < num then space else num;
    if n < 0 then 0 else n
  }

  function Accept(q: Queue, from: nat, text: string): Queue {
    var more := Tagged(from, text[..Room(q, |text|)]);
    q.(held := q.held + more, accepted := q.accepted + more)
  }

  function Deliver(q: Queue, num: nat): Queue {
    var n := if |q.held| > num then num else |q.held|;
    q.(held := q.held[n..], delivered := q.delivered + q.held[..n])
  }

  function Apply(q: Queue, step: Step): Queue {
    match step
    case Add(from, text) => Accept(q, from, text)
    case Get(num) => Deliver(q, num)
  }

  function Run(q: Queue, steps: seq<Step>): Queue
    decreases |steps|
  {
    if steps == [] then q else Run(Apply(q, steps[0]), steps[1..])
  }

  /** Nothing is lost, duplicated or reordered, and one place stays free. */
  predicate Good(q: Queue) {
    q.size >= 1 && q.accepted == q.delivered + q.held && |q.held| <= q.size - 1
  }

  lemma ApplyKeeps(q: Queue, step: Step)
    requires Good(q)
    ensures Good(Apply(q, step)) && Apply(q, step).size == q.size
  {
  }

  /**
   As many characters as fit are accepted, from the front of the text and behind those held: something
   is refused only when the buffer is then full.
   */
  lemma AcceptsAllThatFit(q: Queue, from: nat, text: string)
    requires Good(q)
    ensures var r := Accept(q, from, text);
            && |r.held| == (if |q.held| + |text| < q.size then |q.held| + |text| else q.size - 1)
            && r.held[..|q.held|] == q.held
            && (forall k :: |q.held| <= k < |r.held| ==> r.held[k] == Entry(from, text[k - |q.held|]))
            && r.accepted == q.accepted + r.held[|q.held|..] && r.delivered == q.delivered && r.size == q.size
  {
  }

  /** As many characters as are asked for are delivered, the oldest first: fewer only when nothing is left. */
  lemma DeliversAllThereAre(q: Queue, num: nat)
    ensures var r := Deliver(q, num);
            && |r.held| == (if num < |q.held| then |q.held| - num else 0)
            && r.delivered + r.held == q.delivered + q.held && |r.delivered| == |q.delivered| + |q.held| - |r.held|
            && r.accepted == q.accepted && r.size == q.size
  {
  }

  /** In every run of locked steps, what was delivered followed by what is held is what was accepted. */
  lemma {:induction false} RunKeeps(q: Queue, steps: seq<Step>)
    requires Good(q)
    ensures Good(Run(q, steps)) && Run(q, steps).size == q.size
    decreases |steps|
  {
    if steps != [] {
      ApplyKeeps(q, steps[0]);
      RunKeeps(Apply(q, steps[0]), steps[1..]);
    }
  }

  // ----- what one producer sees -----

  /** The characters of a log that one producer added, in order. */
  function By(log: seq<Entry>, from: nat): string {
    if log == [] then []
    else (if log[0].from == from then [log[0].c] else []) + By(log[1..], from)
  }

  lemma {:induction false} ByAppend(a: seq<Entry>, b: seq<Entry>, from: nat)
    ensures By(a + b, from) == By(a, from) + By(b, from)
    decreases |a|
  {
    if a == [] {
      assert a + b == b;
    } else {
      ByAppend(a[1..], b, from);
      assert (a + b)[0] == a[0] && (a + b)[1..] == a[1..] + b;
      var first := if a[0].from == from then [a[0].c] else [];
      hide By;
      assert first + (By(a[1..], from) + By(b, from)) == (first + By(a[1..], from)) + By(b, from);
    }
  }

  lemma {:induction false} ByTagged(from: nat, text: string, who: nat)
    ensures By(Tagged(from, text), who) == if from == who then text else []
    decreases |text|
  {
    if text != [] {
      assert Tagged(from, text)[1..] == Tagged(from, text[1..]);
      ByTagged(from, text[1..], who);
      assert text == [text[0]] + text[1..];
    }
  }

  /** Steps of other threads do not add to what this producer got in. */
  predicate OfOthers(steps: seq<Step>, me: nat) {
    forall i :: 0 <= i < |steps| ==> steps[i].Add? ==> steps[i].from != me
  }

  lemma {:induction false} OthersRun(q: Queue, steps: seq<Step>, me: nat)
    requires OfOthers(steps, me)
    ensures By(Run(q, steps).accepted, me) == By(q.accepted, me)
    decreases |steps|
  {
    if steps != [] {
      var q' := Apply(q, steps[0]);
      if steps[0].Add? {
        var more := Tagged(steps[0].from, steps[0].text[..Room(q, |steps[0].text|)]);
        ByAppend(q.accepted, more, me);
        ByTagged(steps[0].from, steps[0].text[..Room(q, |steps[0].text|)], me);
      }
      OthersRun(q', steps[1..], me);
    }
  }

  // ----- ProcessLispSource -----

  /**
   The retry loop of one producer.  turns[k] is what the other threads do before its k-th addChars;
   the loop is cut off when the turns are used up.  Returns what was not submitted.
   */
  function Submit(q: Queue, me: nat, text: string, turns: seq<seq<Step>>): (Queue, string)
    decreases |turns|
  {
    if text == [] || turns == [] then (q, text)
    else
      var q1 := Run(q, turns[0]);
      Submit(Accept(q1, me, text), me, text[Room(q1, |text|)..], turns[1..])
  }

  lemma RoomBound(q: Queue, num: nat)
    ensures Room(q, num) <= num
  {
  }

  lemma SubmitOver(q: Queue, me: nat, text: string, turns: seq<seq<Step>>)
    requires text == [] || turns == []
    ensures Submit(q, me, text, turns) == (q, text)
  {
  }

  lemma SubmitTurn(q: Queue, me: nat, text: string, i: nat, turns: seq<seq<Step>>, k: nat)
    requires i < |text| && k < |turns|
    ensures var q1 := Run(q, turns[k]); var n := Room(q1, |text| - i);
            Submit(q, me, text[i..], turns[k..]) == Submit(Accept(q1, me, text[i..]), me, text[i + n..], turns[k + 1..])
  {
    hide Run, Accept, Room;
    var n := Room(Run(q, turns[k]), |text| - i);
    RoomBound(Run(q, turns[k]), |text| - i);
    assert |text[i..]| == |text| - i;
    assert turns[k..][1..] == turns[k + 1..] && text[i..][n..] == text[i + n..];
  }

  /** Whatever the others do, the producer's characters are accepted in order, none lost and none twice. */
  lemma {:induction false} SubmitInOrder(q: Queue, me: nat, text: string, turns: seq<seq<Step>>)
    requires Good(q) && forall k :: 0 <= k < |turns| ==> OfOthers(turns[k], me)
    ensures var (q', rest) := Submit(q, me, text, turns);
            Good(q') && By(q'.accepted, me) + rest == By(q.accepted, me) + text
            && By(q'.delivered, me) + By(q'.held, me) + rest == By(q.accepted, me) + text
    decreases |turns|
  {
    hide Run, OfOthers, By;
    var (q', rest) := Submit(q, me, text, turns);
    if text != [] && turns != [] {
      var q1 := Run(q, turns[0]);
      RunKeeps(q, turns[0]);
      OthersRun(q, turns[0], me);
      var n := Room(q1, |text|);
      ApplyKeeps(q1, Add(me, text));
      ByAppend(q1.accepted, Tagged(me, text[..n]), me);
      ByTagged(me, text[..n], me);
      SubmitInOrder(Accept(q1, me, text), me, text[n..], turns[1..]);
      assert text[..n] + text[n..] == text;
    }
    ByAppend(q'.delivered, q'.held, me);
  }

  /** A turn in which the reader takes at least one character last. */
  predicate Serviced(turn: seq<Step>) {
    turn != [] && turn[|turn| - 1].Get? && turn[|turn| - 1].num > 0
  }

  lemma {:induction false} RunLast(q: Queue, steps: seq<Step>)
    requires steps != []
    ensures Run(q, steps) == Apply(Run(q, steps[..|steps| - 1]), steps[|steps| - 1])
    decreases |steps|
  {
    if |steps| > 1 {
      RunLast(Apply(q, steps[0]), steps[1..]);
      assert steps[1..][..|steps| - 2] == steps[..|steps| - 1][1..];
    } else {
      assert steps[1..] == [] && steps[..0] == [];
    }
  }

  lemma ServicedRoom(q: Queue, turn: seq<Step>)
    requires Good(q) && q.size >= 2 && Serviced(turn)
    ensures |Run(q, turn).held| < q.size - 1
  {
    hide Run;
    RunLast(q, turn);
    RunKeeps(q, turn[..|turn| - 1]);
  }

  /** A reader that keeps reading lets the whole text through: each turn makes progress. */
  lemma {:induction false} SubmitDone(q: Queue, me: nat, text: string, turns: seq<seq<Step>>)
    requires Good(q) && q.size >= 2 && |turns| >= |text|
    requires forall k :: 0 <= k < |turns| ==> Serviced(turns[k])
    ensures Submit(q, me, text, turns).1 == []
    decreases |turns|
  {
    hide Run, Serviced;
    if text != [] {
      var q1 := Run(q, turns[0]);
      ServicedRoom(q, turns[0]);
      RunKeeps(q, turns[0]);
      ApplyKeeps(q1, Add(me, text));
      SubmitDone(Accept(q1, me, text), me, text[Room(q1, |text|)..], turns[1..]);
    }
  }

  /** A full buffer that nobody reads accepts nothing, for ever. */
  lemma {:induction false} SubmitStuck(q: Queue, me: nat, text: string, turns: seq<seq<Step>>)
    requires |q.held| == q.size - 1 && forall k :: 0 <= k < |turns| ==> turns[k] == []
    ensures Submit(q, me, text, turns) == (q, text)
    decreases |turns|
  {
    if text != [] && turns != [] {
      assert text[..0] == [] && text[0..] == text && q.held + [] == q.held && q.accepted + [] == q.accepted;
      SubmitStuck(q, me, text, turns[1..]);
    }
  }

  // ----- the class -----

  class CharBuf {
    const fSize: nat
    const fBuf: array<char>
    var fIndex: nat
    ghost var held: seq<Entry>
    ghost var accepted: seq<Entry>
    ghost var delivered: seq<Entry>

    ghost function State(): Queue
      reads this
    {
      Queue(fSize, held, accepted, delivered)
    }

    ghost predicate Valid()
      reads this, fBuf
    {
      && fSize == fBuf.Length
      && fIndex < fSize
      && fBuf[..fIndex] == Chars(held)
      && Good(State())
    }

    constructor (length: nat)
      requires length >= 1
      ensures Valid() && fresh(fBuf) && State() == Queue(length, [], [], [])
    {
      fSize := length;
      fBuf := new char[length];
      fIndex := 0;
      held, accepted, delivered := [], [], [];
    }

    /** addChars: returns how many of the num characters were taken; waiting is an idle step. */
    method AddChars(ghost from: nat, buf: string, num: int) returns (i: nat)
      requires Valid() && num <= |buf|
      modifies this`fIndex, this`held, this`accepted, fBuf
      ensures Valid() && i == Room(old(State()), num)
      ensures num >= 0 ==> i == (if |old(held)| + num < fSize then num else fSize - 1 - |old(held)|)
      ensures num < 0 ==> i == 0
      ensures State() == Accept(old(State()), from, buf[..if num < 0 then 0 else num])
    {
      var spaceAvailable := fSize - 1 - fIndex;
      var n := if spaceAvailable < num then spaceAvailable else num;
      i := 0;
      while i < n
        invariant 0 <= i && (i == 0 || i <= n) && fIndex == old(fIndex) + i && fIndex <= fSize - 1
        invariant fBuf[..fIndex] == old(fBuf[..fIndex]) + buf[..i]
        invariant held == old(held) && accepted == old(accepted)
      {
        fBuf[fIndex] := buf[i];
        fIndex := fIndex + 1;
        i := i + 1;
      }
      ghost var more := Tagged(from, buf[..i]);
      held, accepted := held + more, accepted + more;
      CharsTagged(old(held), from, buf[..i]);
      assert buf[..if num < 0 then 0 else num][..i] == buf[..i];
    }

    /** memcpy within or out of the buffer, towards lower addresses. */
    static method Copy(dest: array<char>, src: array<char>, at: nat, num: nat)
      requires at + num <= src.Length && num <= dest.Length
      modifies dest
      ensures dest[..num] == old(src[at..at + num])
      ensures dest[num..] == old(dest[num..])
    {
      var k := 0;
      while k < num
        invariant 0 <= k <= num
        invariant forall m :: 0 <= m < k ==> dest[m] == old(src[at + m])
        invariant dest[num..] == old(dest[num..])
        invariant forall m :: at + k <= m < src.Length ==> src[m] == old(src[m])
      {
        dest[k] := src[at + k];
        k := k + 1;
      }
    }

    /** getCharsInBuffer: at most num characters, the oldest first; the rest moves down. */
    method GetCharsInBuffer(buf: array<char>, num: nat) returns (n: nat)
      requires Valid() && num <= buf.Length && buf != fBuf
      modifies this`fIndex, this`held, this`delivered, fBuf, buf
      ensures Valid() && n == (if num < |old(held)| then num else |old(held)|)
      ensures State() == Deliver(old(State()), num)
      ensures buf[..n] == Chars(old(held)[..n]) && buf[n..] == old(buf[n..])
    {
      ghost var was := fBuf[..fIndex];
      if fIndex > num {
        Copy(buf, fBuf, 0, num);
        Copy(fBuf, fBuf, num, fIndex - num);
        fIndex := fIndex - num;
        n := num;
        assert fBuf[..fIndex] == was[num..];
      } else {
        Copy(buf, fBuf, 0, fIndex);
        n := fIndex;
        fIndex := 0;
        assert fBuf[..fIndex] == was[n..];
      }
      assert buf[..n] == was[..n];
      CharsSplit(held, n);
      ApplyKeeps(State(), Get(num));
      hide Chars, Good;
      delivered := delivered + held[..n];
      held := held[n..];
    }
  }

  /** The steps of other threads. */
  method Others(b: CharBuf, steps: seq<Step>)
    requires b.Valid()
    modifies b`fIndex, b`held, b`accepted, b`delivered, b.fBuf
    ensures b.Valid() && b.State() == Run(old(b.State()), steps)
  {
    var k := 0;
    while k < |steps|
      invariant 0 <= k <= |steps| && b.Valid()
      invariant Run(b.State(), steps[k..]) == Run(old(b.State()), steps)
    {
      hide Good;
      match steps[k] {
        case Add(from, text) =>
          var i := b.AddChars(from, text, |text|);
          assert text[..|text|] == text;
        case Get(num) =>
          var dest := new char[num];
          var n := b.GetCharsInBuffer(dest, num);
      }
      assert steps[k..][1..] == steps[k + 1..];
      k := k + 1;
    }
  }

  /** One turn of the loop: the other threads, and then what is left of the text as far as it fits. */
  method AddRest(b: CharBuf, ghost me: nat, text: string, i: nat, turns: seq<seq<Step>>, k: nat) returns (added: nat)
    requires b.Valid() && i < |text| && k < |turns|
    modifies b`fIndex, b`held, b`accepted, b`delivered, b.fBuf
    ensures b.Valid() && added <= |text| - i
    ensures Submit(b.State(), me, text[i + added..], turns[k + 1..]) == Submit(old(b.State()), me, text[i..], turns[k..])
  {
    hide Run, Good, Submit, Accept, Room, b.Valid;
    SubmitTurn(b.State(), me, text, i, turns, k);
    Others(b, turns[k]);
    RoomBound(b.State(), |text| - i);
    var rest := text[i..];
    assert rest[..|text| - i] == rest;
    added := b.AddChars(me, rest, |text| - i);
  }

  /** ProcessLispSource: adds the text piece by piece until the buffer has taken all of it. */
  method ProcessLispSource(b: CharBuf, ghost me: nat, text: string, turns: seq<seq<Step>>) returns (numChars: nat)
    requires b.Valid()
    modifies b`fIndex, b`held, b`accepted, b`delivered, b.fBuf
    ensures b.Valid() && numChars <= |text|
    ensures (b.State(), text[|text| - numChars..]) == Submit(old(b.State()), me, text, turns)
  {
    hide Run, Good, Submit, b.Valid;
    var i, k := 0, 0;
    numChars := |text|;
    assert text[i..] == text && turns[k..] == turns;
    while numChars > 0 && k < |turns|
      invariant b.Valid() && i + numChars == |text| && 0 <= k <= |turns|
      invariant Submit(b.State(), me, text[i..], turns[k..]) == Submit(old(b.State()), me, text, turns)
    {
      var added := AddRest(b, me, text, i, turns, k);
      i := i + added;
      numChars := numChars - added;
      k := k + 1;
    }
    SubmitOver(b.State(), me, text[i..], turns[k..]);
  }
}
