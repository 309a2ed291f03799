/** Connection points: a growing table of sinks, numbered by cookies. */
module ConnectionPoint {
  import opened Com
  import opened EnumConnections

  const BLOCK_SIZE: nat := 8

  const MAX_COOKIE: nat := 16

  // ----- the table -----

  /** The sinks by slot; zero where there is none. */
  type Slots = seq<Pointer>

  function Filled(s: Slots): (n: nat)
    ensures n <= |s|
  {
    if s == [] then 0 else Filled(s[..|s| - 1]) + (if s[|s| - 1] != 0 then 1 else 0)
  }

  /** The connections in the first n slots, in slot order. */
  function Snapshot(s: Slots, n: nat): (r: seq<ConnectData>)
    requires n <= |s|
    ensures |r| <= n
  {
    if n == 0 then []
    else Snapshot(s, n - 1) + (if s[n - 1] != 0 then [ConnectData(s[n - 1], n)] else [])
  }

  /** One reference for each filled slot. */
  function Live(s: Slots): multiset<Pointer> {
    if s == [] then multiset{} else Live(s[..|s| - 1]) + (if s[|s| - 1] != 0 then multiset{s[|s| - 1]} else multiset{})
  }

  function FirstEmpty(s: Slots): (i: nat)
    ensures i <= |s| && (i < |s| ==> s[i] == 0) && forall k :: 0 <= k < i ==> s[k] != 0
  {
    if s == [] then 0
    else
      var i := FirstEmpty(s[..|s| - 1]);
      if i < |s| - 1 || s[i] == 0 then i else |s|
  }

  function Empties(n: nat): (s: Slots)
    ensures |s| == n
  {
    seq(n, i => 0)
  }

  /** A full table gets another block. */
  function Grown(s: Slots): Slots {
    if Filled(s) < |s| then s else s + Empties(BLOCK_SIZE)
  }

  lemma {:induction false} FullTable(s: Slots)
    ensures Filled(s) == |s| <==> forall i :: 0 <= i < |s| ==> s[i] != 0
    decreases |s|
  {
    if s != [] {
      FullTable(s[..|s| - 1]);
      if forall i :: 0 <= i < |s| ==> s[i] != 0 {
        assert forall i :: 0 <= i < |s| - 1 ==> s[..|s| - 1][i] == s[i];
      } else if Filled(s) == |s| {
        assert forall i :: 0 <= i < |s| - 1 ==> s[i] == s[..|s| - 1][i];
      }
    }
  }

  /** The search for an empty slot succeeds whenever the count says that there is one. */
  lemma SearchSucceeds(s: Slots)
    ensures FirstEmpty(s) < |s| <==> Filled(s) < |s|
  {
    FullTable(s);
  }

  lemma AllFilled(s: Slots)
    requires forall i :: 0 <= i < |s| ==> s[i] != 0
    ensures Filled(s) == |s|
  {
    hide Filled;
    FullTable(s);
  }

  lemma {:induction false} FilledAppend(a: Slots, b: Slots)
    ensures Filled(a + b) == Filled(a) + Filled(b) && Live(a + b) == Live(a) + Live(b)
    decreases |b|
  {
    if b == [] {
      assert a + b == a;
    } else {
      assert (a + b)[..|a + b| - 1] == a + b[..|b| - 1];
      FilledAppend(a, b[..|b| - 1]);
    }
  }

  lemma {:induction false} FilledEmpties(n: nat)
    ensures Filled(Empties(n)) == 0 && Live(Empties(n)) == multiset{}
  {
    if n > 0 {
      assert Empties(n)[..n - 1] == Empties(n - 1);
      FilledEmpties(n - 1);
    }
  }

  lemma SnapshotSlot(s: Slots, n: nat)
    requires n <= |s|
    ensures n == 0 ==> Snapshot(s, n) == []
    ensures n > 0 && s[n - 1] == 0 ==> Snapshot(s, n) == Snapshot(s, n - 1)
    ensures n > 0 && s[n - 1] != 0 ==> Snapshot(s, n) == Snapshot(s, n - 1) + [ConnectData(s[n - 1], n)]
  {
  }

  lemma NothingFilled()
    ensures Filled([]) == 0 && Live([]) == multiset{}
  {
  }

  lemma FilledOne(x: Pointer)
    ensures Filled([x]) == (if x != 0 then 1 else 0)
    ensures Live([x]) == if x != 0 then multiset{x} else multiset{}
  {
    assert [x][..0] == [];
  }

  /** What changing one slot does to the count and the references. */
  lemma OneSlot(s: Slots, i: nat, x: Pointer)
    requires i < |s|
    ensures Filled(s) == Filled(s[..i]) + Filled([s[i]]) + Filled(s[i + 1..])
    ensures Live(s) == Live(s[..i]) + Live([s[i]]) + Live(s[i + 1..])
    ensures Filled(s[i := x]) == Filled(s[..i]) + Filled([x]) + Filled(s[i + 1..])
    ensures Live(s[i := x]) == Live(s[..i]) + Live([x]) + Live(s[i + 1..])
  {
    hide Filled, Live;
    FilledAppend(s[..i] + [s[i]], s[i + 1..]);
    FilledAppend(s[..i], [s[i]]);
    FilledAppend(s[..i] + [x], s[i + 1..]);
    FilledAppend(s[..i], [x]);
    assert s[..i] + [s[i]] + s[i + 1..] == s;
    assert s[..i] + [x] + s[i + 1..] == s[i := x];
  }

  lemma GrownTable(s: Slots)
    ensures Filled(Grown(s)) == Filled(s) && Live(Grown(s)) == Live(s)
    ensures FirstEmpty(Grown(s)) < |Grown(s)| && s <= Grown(s)
    ensures |Grown(s)| <= |s| + BLOCK_SIZE && (|s| % BLOCK_SIZE == 0 ==> |Grown(s)| % BLOCK_SIZE == 0)
  {
    hide Filled, Live, FirstEmpty;
    FilledAppend(s, Empties(BLOCK_SIZE));
    FilledEmpties(BLOCK_SIZE);
    SearchSucceeds(Grown(s));
  }

  lemma FillSlot(s: Slots, i: nat, x: Pointer)
    requires i < |s| && s[i] == 0 && x != 0
    ensures Filled(s[i := x]) == Filled(s) + 1 && Live(s[i := x]) == Live(s) + multiset{x}
  {
    hide Filled, Live;
    OneSlot(s, i, x);
    FilledOne(x);
    FilledOne(0);
  }

  lemma EmptySlot(s: Slots, i: nat)
    requires i < |s| && s[i] != 0
    ensures s[i] in Live(s)
    ensures Filled(s[i := 0]) == Filled(s) - 1 && Live(s[i := 0]) == Live(s) - multiset{s[i]}
  {
    hide Filled, Live;
    OneSlot(s, i, 0);
    FilledOne(s[i]);
    FilledOne(0);
  }

  /** The snapshot lists each filled slot once, with its cookie, and so holds what the table holds. */
  lemma {:induction false} SnapshotSinks(s: Slots, n: nat)
    requires n <= |s|
    ensures Sinks(Snapshot(s, n)) == Live(s[..n]) && |Snapshot(s, n)| == Filled(s[..n])
  {
    hide Sinks, Live, Filled;
    if n == 0 {
      SinksNone();
      NothingFilled();
      assert s[..0] == [];
    } else {
      SnapshotSinks(s, n - 1);
      FilledAppend(s[..n - 1], [s[n - 1]]);
      FilledOne(s[n - 1]);
      assert s[..n - 1] + [s[n - 1]] == s[..n];
      if s[n - 1] != 0 {
        SinksAppend(Snapshot(s, n - 1), [ConnectData(s[n - 1], n)]);
        SinksOne(ConnectData(s[n - 1], n));
      } else {
        assert Snapshot(s, n) == Snapshot(s, n - 1);
      }
    }
  }

  // ----- operations and runs -----

  datatype Op = DoAdvise(sink: Pointer, supported: bool) | DoUnadvise(cookie: nat)

  /** Cookies for which Unadvise looks at its table, or refuses by number. */
  predicate CookieInRange(s: Slots, cookie: nat) {
    cookie >= 1 && (cookie <= |s| || cookie > MAX_COOKIE)
  }

  predicate Applies(s: Slots, op: Op) {
    match op
    case DoAdvise(sink, _) => sink != 0
    case DoUnadvise(cookie) => CookieInRange(s, cookie)
  }

  function Advised(s: Slots, sink: Pointer, supported: bool): Slots {
    if supported then Grown(s)[FirstEmptyOf(s) := sink] else Grown(s)
  }

  /** The slot that Advise finds. */
  function FirstEmptyOf(s: Slots): (i: nat)
    ensures i < |Grown(s)| && Grown(s)[i] == 0
  {
    GrownTable(s);
    FirstEmpty(Grown(s))
  }

  predicate Connected(s: Slots, cookie: nat) {
    1 <= cookie <= |s| && cookie <= MAX_COOKIE && s[cookie - 1] != 0
  }

  function Unadvised(s: Slots, cookie: nat): Slots {
    if Connected(s, cookie) then s[cookie - 1 := 0] else s
  }

  function Apply(s: Slots, op: Op): Slots {
    match op
    case DoAdvise(sink, supported) => Advised(s, sink, supported)
    case DoUnadvise(cookie) => Unadvised(s, cookie)
  }

  /** A run in which every operation is one that the source allows. */
  predicate Runs(s: Slots, ops: seq<Op>)
    decreases |ops|
  {
    ops == [] || (Applies(s, ops[0]) && Runs(Apply(s, ops[0]), ops[1..]))
  }

  function After(s: Slots, ops: seq<Op>): Slots
    decreases |ops|
  {
    if ops == [] then s else After(Apply(s, ops[0]), ops[1..])
  }

  /** The cookie stands for this sink. */
  predicate StandsFor(s: Slots, cookie: nat, sink: Pointer) {
    sink != 0 && 1 <= cookie <= |s| && s[cookie - 1] == sink
  }

  lemma StepKeepsCookie(s: Slots, op: Op, cookie: nat, sink: Pointer)
    requires StandsFor(s, cookie, sink) && Applies(s, op) && (op == DoUnadvise(cookie) ==> cookie > 16)
    ensures StandsFor(Apply(s, op), cookie, sink)
  {
    hide Filled, Live, FirstEmpty;
    GrownTable(s);
  }

  /**
   A cookie stands for its sink until it is itself given to Unadvise, through every run; one above
   sixteen stands for it for ever, because Unadvise refuses it.
   */
  lemma {:induction false} CookiesStable(s: Slots, ops: seq<Op>, cookie: nat, sink: Pointer)
    requires StandsFor(s, cookie, sink) && Runs(s, ops)
    requires cookie > 16 || forall k :: 0 <= k < |ops| ==> ops[k] != DoUnadvise(cookie)
    ensures StandsFor(After(s, ops), cookie, sink)
    decreases |ops|
  {
    hide Apply, StandsFor, Applies;
    if ops != [] {
      StepKeepsCookie(s, ops[0], cookie, sink);
      CookiesStable(Apply(s, ops[0]), ops[1..], cookie, sink);
    }
  }

  /** The first k slots hold the sink, and the others nothing. */
  predicate FilledTo(s: Slots, k: nat, sink: Pointer) {
    && k <= |s|
    && (forall i :: 0 <= i < k ==> s[i] == sink)
    && forall i :: k <= i < |s| ==> s[i] == 0
  }

  lemma AdviseNext(s: Slots, k: nat, sink: Pointer)
    requires sink != 0 && FilledTo(s, k, sink)
    ensures FilledTo(Apply(s, DoAdvise(sink, true)), k + 1, sink)
  {
    hide Filled, Live;
    GrownTable(s);
    var t := Grown(s);
    assert forall i :: |s| <= i < |t| ==> t[i] == 0;
    assert forall i :: 0 <= i < |s| ==> t[i] == s[i];
    assert forall i :: 0 <= i < k ==> t[i] == sink;
    assert k < |t| ==> t[k] == 0;
    assert FirstEmpty(t) == k;
  }

  function Advises(n: nat, sink: Pointer): (ops: seq<Op>)
    ensures |ops| == n
  {
    seq(n, i => DoAdvise(sink, true))
  }

  lemma {:induction false} AdviseRun(s: Slots, k: nat, n: nat, sink: Pointer)
    requires sink != 0 && FilledTo(s, k, sink)
    ensures Runs(s, Advises(n, sink)) && FilledTo(After(s, Advises(n, sink)), k + n, sink)
    decreases n
  {
    hide Apply, FilledTo;
    if n > 0 {
      AdviseNext(s, k, sink);
      AdviseRun(Apply(s, DoAdvise(sink, true)), k + 1, n - 1, sink);
      assert Advises(n, sink)[1..] == Advises(n - 1, sink);
    }
  }

  /** Seventeen calls of Advise on a new connection point: the last cookie can never be given back. */
  lemma NeverDisconnected(sink: Pointer, ops: seq<Op>)
    requires sink != 0 && Runs(After([], Advises(17, sink)), ops)
    ensures Runs([], Advises(17, sink))
    ensures StandsFor(After(After([], Advises(17, sink)), ops), 17, sink)
    ensures Runs(After([], Advises(17, sink)), [DoUnadvise(17)])
  {
    hide Apply;
    var s := After([], Advises(17, sink));
    AdviseRun([], 0, 17, sink);
    CookiesStable(s, ops, 17, sink);
    assert Applies(s, DoUnadvise(17));
  }

  /** Advise gives a cookie that stood for nothing, and the cookie then stands for the new sink. */
  lemma CookieUnique(s: Slots, sink: Pointer, other: Pointer)
    requires sink != 0
    ensures var cookie := FirstEmptyOf(s) + 1;
            !StandsFor(s, cookie, other) && StandsFor(Advised(s, sink, true), cookie, sink)
    ensures forall c: nat :: c != FirstEmptyOf(s) + 1 ==> (StandsFor(s, c, other) <==> StandsFor(Advised(s, sink, true), c, other))
  {
    hide Filled, Live, FirstEmpty;
    GrownTable(s);
    var i := FirstEmptyOf(s);
    var t := Advised(s, sink, true);
    forall c: nat | c != i + 1
      ensures StandsFor(s, c, other) <==> StandsFor(t, c, other)
    {
      if 1 <= c <= |Grown(s)| {
        assert t[c - 1] == Grown(s)[c - 1];
        if c > |s| {
          assert Grown(s)[c - 1] == 0;
        }
      }
    }
  }

  /** Unadvise of a live cookie up to sixteen ends that connection, no other, and gives up one reference to its sink. */
  lemma UnadviseDisconnects(s: Slots, cookie: nat, sink: Pointer, other: Pointer)
    requires StandsFor(s, cookie, sink) && cookie <= 16
    ensures Applies(s, DoUnadvise(cookie))
    ensures var t := Apply(s, DoUnadvise(cookie));
            && |t| == |s| && t[cookie - 1] == 0
            && (forall c: nat :: StandsFor(t, c, other) <==> c != cookie && StandsFor(s, c, other))
            && sink in Live(s) && Live(t) == Live(s) - multiset{sink}
  {
    hide Live, Filled;
    EmptySlot(s, cookie - 1);
  }

  /** From seventeen on, Unadvise changes nothing. */
  lemma UnadviseRefuses(s: Slots, cookie: nat)
    requires cookie >= 17
    ensures Applies(s, DoUnadvise(cookie)) && Apply(s, DoUnadvise(cookie)) == s
  {
  }

  /** A full table grows by eight empty slots, and no other table grows. */
  lemma GrowsByEight(s: Slots)
    ensures (forall i :: 0 <= i < |s| ==> s[i] != 0) ==> Grown(s) == s + [0, 0, 0, 0, 0, 0, 0, 0]
    ensures !(forall i :: 0 <= i < |s| ==> s[i] != 0) ==> Grown(s) == s
  {
    hide Filled;
    FullTable(s);
    assert Empties(8) == [0, 0, 0, 0, 0, 0, 0, 0];
  }

  /** The cookies listed are the live ones, each with the sink that it stands for. */
  lemma {:induction false} SnapshotCookies(s: Slots, n: nat, d: ConnectData)
    requires n <= |s|
    ensures d in Snapshot(s, n) <==> d.dwCookie <= n && StandsFor(s, d.dwCookie, d.pUnk)
  {
    if n > 0 {
      SnapshotCookies(s, n - 1, d);
    }
  }

  /** The reference that an operation brings, and the one that it gives up. */
  function Gained(op: Op): multiset<Pointer> {
    if op.DoAdvise? && op.supported then multiset{op.sink} else multiset{}
  }

  function Given(s: Slots, op: Op): multiset<Pointer> {
    if op.DoUnadvise? && Connected(s, op.cookie) then multiset{s[op.cookie - 1]} else multiset{}
  }

  /** What a run brings to the references held, and what it gives up. */
  function Held(s: Slots, ops: seq<Op>): (multiset<Pointer>, multiset<Pointer>)
    requires Runs(s, ops)
    decreases |ops|
  {
    if ops == [] then (multiset{}, multiset{})
    else
      var (added, removed) := Held(Apply(s, ops[0]), ops[1..]);
      (added + Gained(ops[0]), removed + Given(s, ops[0]))
  }

  /** In every run the table holds one reference for every connection made and not taken back. */
  lemma {:induction false} ReferencesConserved(s: Slots, ops: seq<Op>)
    requires Runs(s, ops)
    ensures var (added, removed) := Held(s, ops); Live(After(s, ops)) + removed == Live(s) + added
    decreases |ops|
  {
    hide Live, Apply, Applies, Connected, Held, After;
    HeldStep(s, ops);
    if ops != [] {
      var t := Apply(s, ops[0]);
      ReferencesConserved(t, ops[1..]);
      StepReferences(s, ops[0]);
      var (added, removed) := Held(t, ops[1..]);
      Balance(Live(s), Live(t), Live(After(t, ops[1..])), Gained(ops[0]), Given(s, ops[0]), added, removed);
    }
  }

  lemma Balance<X>(s: multiset<X>, t: multiset<X>, u: multiset<X>, gained: multiset<X>, given: multiset<X>, added: multiset<X>, removed: multiset<X>)
    requires t + given == s + gained && u + removed == t + added
    ensures u + (removed + given) == s + (added + gained)
  {
    assert u + (removed + given) == (u + removed) + given == (t + given) + added;
  }

  /** What one more operation adds and removes. */
  lemma HeldStep(s: Slots, ops: seq<Op>)
    requires Runs(s, ops)
    ensures ops == [] ==> Held(s, ops) == (multiset{}, multiset{}) && After(s, ops) == s
    ensures ops != [] ==>
              After(s, ops) == After(Apply(s, ops[0]), ops[1..])
              && Held(s, ops).0 == Held(Apply(s, ops[0]), ops[1..]).0 + Gained(ops[0])
              && Held(s, ops).1 == Held(Apply(s, ops[0]), ops[1..]).1 + Given(s, ops[0])
  {
    hide Apply, Applies, Connected;
  }

  lemma StepReferences(s: Slots, op: Op)
    requires Applies(s, op)
    ensures Live(Apply(s, op)) + Given(s, op) == Live(s) + Gained(op)
  {
    hide Filled, Live, FirstEmpty;
    GrownTable(s);
    if op.DoAdvise? {
      if op.supported {
        FillSlot(Grown(s), FirstEmptyOf(s), op.sink);
      }
    } else if Connected(s, op.cookie) {
      EmptySlot(s, op.cookie - 1);
    }
  }

  // ----- what a broadcast reaches -----

  type Interfaces = set<(Pointer, Iid)>

  /** The sinks in a list that implement an interface, in order. */
  function Receivers(data: seq<ConnectData>, has: Interfaces, iid: Iid): seq<Pointer>
    decreases |data|
  {
    if data == [] then []
    else
      var d := data[|data| - 1];
      Receivers(data[..|data| - 1], has, iid) + (if (d.pUnk, iid) in has then [d.pUnk] else [])
  }

  predicate Receives(s: Slots, has: Interfaces, iid: Iid, i: nat) {
    i < |s| && s[i] != 0 && (s[i], iid) in has
  }

  /** The slots among the first n whose sinks implement an interface. */
  function Positions(s: Slots, n: nat, has: Interfaces, iid: Iid): (r: seq<nat>)
    requires n <= |s|
    ensures forall k :: 0 <= k < |r| ==> r[k] < n
    ensures forall k :: 0 <= k < |r| ==> Receives(s, has, iid, r[k])
    ensures forall j, k :: 0 <= j < k < |r| ==> r[j] < r[k]
    ensures forall i :: 0 <= i < n && Receives(s, has, iid, i) ==> i in r
  {
    if n == 0 then [] else Positions(s, n - 1, has, iid) + (if Receives(s, has, iid, n - 1) then [n - 1] else [])
  }

  function SinksAt(s: Slots, places: seq<nat>): seq<Pointer>
    requires forall k :: 0 <= k < |places| ==> places[k] < |s|
  {
    seq(|places|, k requires 0 <= k < |places| => s[places[k]])
  }

  lemma ReceiversMore(data: seq<ConnectData>, d: ConnectData, has: Interfaces, iid: Iid)
    ensures Receivers(data + [d], has, iid) == Receivers(data, has, iid) + if (d.pUnk, iid) in has then [d.pUnk] else []
  {
    assert (data + [d])[..|data|] == data;
  }

  /** A broadcast reaches each live sink that implements the interface once, in the order of the slots. */
  lemma {:induction false} ReceiversInSlotOrder(s: Slots, n: nat, has: Interfaces, iid: Iid)
    requires n <= |s|
    ensures Receivers(Snapshot(s, n), has, iid) == SinksAt(s, Positions(s, n, has, iid))
  {
    hide Receivers, Positions, Receives;
    PositionsMore(s, n, has, iid);
    if n == 0 {
      NoReceivers(has, iid);
    } else {
      ReceiversInSlotOrder(s, n - 1, has, iid);
      var before := Positions(s, n - 1, has, iid);
      if s[n - 1] != 0 {
        ReceiversMore(Snapshot(s, n - 1), ConnectData(s[n - 1], n), has, iid);
      } else {
        assert Snapshot(s, n) == Snapshot(s, n - 1);
      }
      SinksAtMore(s, before, n - 1);
    }
  }

  lemma PositionsMore(s: Slots, n: nat, has: Interfaces, iid: Iid)
    requires n <= |s|
    ensures n == 0 ==> Positions(s, n, has, iid) == []
    ensures n > 0 ==>
              Positions(s, n, has, iid) == if s[n - 1] != 0 && (s[n - 1], iid) in has then Positions(s, n - 1, has, iid) + [n - 1] else Positions(s, n - 1, has, iid)
  {
  }

  lemma SinksAtMore(s: Slots, places: seq<nat>, i: nat)
    requires i < |s| && forall k :: 0 <= k < |places| ==> places[k] < |s|
    ensures SinksAt(s, places + [i]) == SinksAt(s, places) + [s[i]]
  {
  }

  lemma NoReceivers(has: Interfaces, iid: Iid)
    ensures Receivers([], has, iid) == []
  {
  }

  lemma {:induction false} FilledPrefix(s: Slots, n: nat)
    requires n <= |s|
    ensures Filled(s[..n]) <= Filled(s)
  {
    hide Filled;
    FilledAppend(s[..n], s[n..]);
    assert s[..n] + s[n..] == s;
  }

  // ----- the class -----

  class CoConnectionPoint {
    const world: Objects
    const m_iid: Iid
    var m_rgpUnk: array?<Pointer>
    var m_cConnections: nat
    var m_nArraySize: nat

    /** The table. */
    ghost function Table(): Slots
      reads this, m_rgpUnk
    {
      if m_rgpUnk == null then [] else m_rgpUnk[..]
    }

    ghost predicate Valid()
      reads this, m_rgpUnk, world`refs
    {
      && m_nArraySize == |Table()| < TWO_TO_THE_32
      && m_nArraySize % BLOCK_SIZE == 0
      && m_cConnections == Filled(Table())
      && Live(Table()) <= world.refs
    }

    constructor (world: Objects, riid: Iid)
      ensures Valid() && Table() == [] && this.world == world && m_iid == riid
    {
      this.world := world;
      m_iid := riid;
      m_rgpUnk := null;
      m_cConnections := 0;
      m_nArraySize := 0;
    }

    /** Where Advise puts a sink: the first empty slot, after growing a full table. */
    method FindSlot() returns (cIndex: nat)
      requires Valid() && m_nArraySize + BLOCK_SIZE < TWO_TO_THE_32
      modifies this`m_rgpUnk, this`m_nArraySize
      ensures Table() == Grown(old(Table())) && m_nArraySize == |Table()| && m_rgpUnk != null
      ensures m_rgpUnk != old(m_rgpUnk) ==> fresh(m_rgpUnk)
      ensures cIndex == FirstEmptyOf(old(Table()))
    {
      hide Filled, Live, FirstEmpty;
      ghost var s := Table();
      GrownTable(s);
      if m_cConnections < m_nArraySize {
        cIndex := SearchEmpty();
      } else {
        FullTable(s);
        cIndex := m_cConnections;
        m_rgpUnk := Expanded(m_nArraySize + BLOCK_SIZE);
        m_nArraySize := m_nArraySize + BLOCK_SIZE;
      }
      FirstEmptyIs(Grown(s), cIndex);
    }

    method SearchEmpty() returns (cIndex: nat)
      requires Valid() && Filled(Table()) < |Table()|
      ensures cIndex < |Table()| && Table()[cIndex] == 0 && forall k :: 0 <= k < cIndex ==> Table()[k] != 0
    {
      hide Filled, Live, FirstEmpty;
      SearchSucceeds(Table());
      cIndex := 0;
      while cIndex < m_nArraySize && m_rgpUnk[cIndex] != 0
        invariant 0 <= cIndex <= m_nArraySize
        invariant forall k :: 0 <= k < cIndex ==> Table()[k] != 0
      {
        cIndex := cIndex + 1;
      }
      if cIndex == m_nArraySize {
        AllFilled(Table());
      }
    }

    /** A larger array with the sinks of a full table. */
    method Expanded(nArraySize: nat) returns (rgpUnk: array<Pointer>)
      requires Valid() && Filled(Table()) == |Table()| && nArraySize == m_nArraySize + BLOCK_SIZE
      ensures fresh(rgpUnk) && rgpUnk[..] == Table() + Empties(BLOCK_SIZE)
    {
      hide Filled, Live;
      ghost var s := Table();
      rgpUnk := new Pointer[nArraySize];
      var cIndex := 0;
      while cIndex < m_cConnections
        invariant 0 <= cIndex <= m_cConnections
        invariant rgpUnk[..cIndex] == s[..cIndex]
      {
        rgpUnk[cIndex] := m_rgpUnk[cIndex];
        cIndex := cIndex + 1;
      }
      var cNewElements := cIndex;
      while cNewElements < nArraySize
        invariant cIndex <= cNewElements <= nArraySize
        invariant rgpUnk[..cIndex] == s
        invariant forall k :: cIndex <= k < cNewElements ==> rgpUnk[k] == 0
      {
        rgpUnk[cNewElements] := 0;
        cNewElements := cNewElements + 1;
      }
    }

    static lemma FirstEmptyIs(s: Slots, i: nat)
      requires i < |s| && s[i] == 0 && forall k :: 0 <= k < i ==> s[k] != 0
      ensures FirstEmpty(s) == i
    {
    }

    /** Advise: a cookie for the sink, or none when it has no interface of this point; the table may have grown all the same. */
    method Advise(pUnkSink: Pointer) returns (hr: Hresult, cookie: nat)
      requires Valid() && pUnkSink != 0 && m_nArraySize + BLOCK_SIZE < TWO_TO_THE_32
      modifies this`m_rgpUnk, this`m_nArraySize, this`m_cConnections, m_rgpUnk, world`refs
      ensures Valid() && (m_rgpUnk != old(m_rgpUnk) ==> fresh(m_rgpUnk))
      ensures var supported := (pUnkSink, m_iid) in world.implements;
              Table() == Advised(old(Table()), pUnkSink, supported)
              && hr == (if supported then S_OK else CANNOTCONNECT)
              && cookie == (if supported then FirstEmptyOf(old(Table())) + 1 else 0)
              && world.refs == if supported then old(world.refs) + multiset{pUnkSink} else old(world.refs)
    {
      hide Filled, Live, FirstEmpty, Grown;
      ghost var s := Table();
      GrownTable(s);
      var cIndex := FindSlot();
      var ok := world.QueryInterface(pUnkSink, m_iid);
      if !ok {
        return CANNOTCONNECT, 0;
      }
      FillSlot(Grown(s), cIndex, pUnkSink);
      m_rgpUnk[cIndex] := pUnkSink;
      cookie := cIndex + 1;
      m_cConnections := m_cConnections + 1;
      hr := S_OK;
      assert Table() == Grown(s)[cIndex := pUnkSink];
    }

    /** Unadvise: the sink of a live cookie up to sixteen loses its reference and its slot. */
    method Unadvise(dwCookie: nat) returns (hr: Hresult)
      requires Valid() && (1 <= dwCookie <= |Table()| || dwCookie > 16)
      modifies this`m_cConnections, m_rgpUnk, world`refs
      ensures Valid() && Table() == Apply(old(Table()), DoUnadvise(dwCookie))
      ensures dwCookie <= 16 && old(Table())[dwCookie - 1] != 0 ==>
                && hr == S_OK && Table() == old(Table())[dwCookie - 1 := 0]
                && world.refs == old(world.refs) - multiset{old(Table())[dwCookie - 1]}
      ensures dwCookie > 16 || old(Table())[dwCookie - 1] == 0 ==>
                hr == NOCONNECTION && Table() == old(Table()) && world.refs == old(world.refs)
    {
      hide Filled, Live;
      if dwCookie > MAX_COOKIE || m_rgpUnk[dwCookie - 1] == 0 {
        return NOCONNECTION;
      }
      ghost var s := Table();
      EmptySlot(s, dwCookie - 1);
      world.Release(m_rgpUnk[dwCookie - 1]);
      m_rgpUnk[dwCookie - 1] := 0;
      m_cConnections := m_cConnections - 1;
      hr := S_OK;
      assert Table() == s[dwCookie - 1 := 0];
    }

    /** EnumConnections: fails without connections; otherwise an enumerator of the filled slots, with references of its own. */
    method EnumConnections() returns (hr: Hresult, pEnum: CoEnumConnections?)
      requires Valid()
      modifies world`refs
      ensures Valid()
      ensures Filled(Table()) == 0 ==> hr == E_FAIL && pEnum == null && world.refs == old(world.refs)
      ensures Filled(Table()) > 0 ==>
                hr == S_OK && pEnum != null && fresh(pEnum) && fresh(pEnum.m_rgConnectData) && pEnum.Valid() && pEnum.world == world
                && pEnum.Data() == Snapshot(Table(), |Table()|) && pEnum.m_iPosition == 0 && pEnum.m_cRef == 1
                && world.refs == old(world.refs) + Sinks(pEnum.Data())
    {
      hide Filled, Live, Sinks;
      if m_cConnections == 0 {
        return E_FAIL, null;
      }
      var pCD := CollectConnections();
      pEnum := new CoEnumConnections(world, pCD[..]);
      var count := pEnum.AddRef();
      hr := S_OK;
    }

    /** The connection data, slot by slot. */
    method CollectConnections() returns (pCD: array<ConnectData>)
      requires Valid()
      ensures fresh(pCD) && pCD[..] == Snapshot(Table(), |Table()|)
    {
      hide Filled, Live, Snapshot;
      ghost var s := Table();
      pCD := new ConnectData[m_cConnections](i => ConnectData(0, 0));
      var cIndex, cConnections := 0, 0;
      SnapshotSlot(s, 0);
      while cIndex < m_nArraySize
        invariant 0 <= cIndex <= m_nArraySize && Table() == s
        invariant cConnections == |Snapshot(s, cIndex)| <= pCD.Length
        invariant pCD[..cConnections] == Snapshot(s, cIndex)
      {
        SnapshotSlot(s, cIndex + 1);
        SnapshotSinks(s, cIndex + 1);
        FilledPrefix(s, cIndex + 1);
        if m_rgpUnk[cIndex] != 0 {
          pCD[cConnections] := ConnectData(m_rgpUnk[cIndex], cIndex + 1);
          cConnections := cConnections + 1;
        }
        cIndex := cIndex + 1;
      }
      SnapshotSinks(s, |s|);
      assert s[..|s|] == s && pCD[..cConnections] == pCD[..];
    }
  }

  /** What the last sink answered, if there was one. */
  function LastAnswer(sinks: seq<Pointer>, answer: Pointer -> int): Hresult {
    if sinks == [] then S_OK else Answer(answer(sinks[|sinks| - 1]))
  }

  /**
   OutputText: every connected sink that implements text output is called once, in the order of the
   slots, and all reference counts are afterwards what they were before.
   */
  method OutputText(point: CoConnectionPoint?, world: Objects, textIid: Iid, answer: Pointer -> int) returns (hr: Hresult)
    requires point != null ==> point.Valid() && point.world == world
    modifies world`refs, world`calls
    ensures point != null ==> point.Valid()
    ensures world.refs == old(world.refs)
    ensures var reached := if point == null then [] else Receivers(Snapshot(point.Table(), |point.Table()|), world.implements, textIid);
            world.calls == old(world.calls) + reached && hr == if reached == [] then S_OK else Answer(answer(reached[|reached| - 1]))
  {
    hr := S_OK;
    if point != null {
      hr := Broadcast(point, textIid, answer);
    }
  }

  lemma NothingConnected(s: Slots)
    ensures Filled(s) == 0 ==> Snapshot(s, |s|) == []
  {
    hide Filled, Live, Sinks, Snapshot;
    SnapshotSinks(s, |s|);
    assert s[..|s|] == s;
  }

  lemma TakenAndGiven(refs: multiset<Pointer>, more: multiset<Pointer>)
    ensures more <= refs + more && refs + more - more == refs
  {
  }

  /** With a connection point: its enumerator, the loop, and the enumerator released. */
  method Broadcast(point: CoConnectionPoint, textIid: Iid, answer: Pointer -> int) returns (hr: Hresult)
    requires point.Valid()
    modifies point.world`refs, point.world`calls
    ensures point.Valid() && point.world.refs == old(point.world.refs)
    ensures var reached := Receivers(Snapshot(point.Table(), |point.Table()|), point.world.implements, textIid);
            point.world.calls == old(point.world.calls) + reached && hr == LastAnswer(reached, answer)
  {
    hide Filled, Live, Sinks, Receivers, Snapshot, LastAnswer;
    NoReceivers(point.world.implements, textIid);
    NoAnswer(answer);
    hr := S_OK;
    NothingConnected(point.Table());
    ghost var refs := point.world.refs;
    var e, pEnum := point.EnumConnections();
    if Failed(e) {
      return;
    }
    hr := Deliver(pEnum, textIid, answer);
    TakenAndGiven(refs, Sinks(pEnum.Data()));
    var count := pEnum.Release();
  }

  lemma NoAnswer(answer: Pointer -> int)
    ensures LastAnswer([], answer) == S_OK
  {
  }

  /** One sink of a broadcast: the call, if it has the interface, with a reference taken for it. */
  method SendTo(world: Objects, p: Pointer, textIid: Iid, answer: Pointer -> int, before: Hresult) returns (hr: Hresult)
    modifies world`refs, world`calls
    ensures world.refs == old(world.refs)
    ensures var reached := if (p, textIid) in world.implements then [p] else [];
            world.calls == old(world.calls) + reached && hr == if reached == [] then before else LastAnswer(reached, answer)
  {
    hr := before;
    var ok := world.QueryInterface(p, textIid);
    if ok {
      world.Call(p);
      hr := Answer(answer(p));
      world.Release(p);
    }
  }

  lemma LastOf(before: seq<Pointer>, more: seq<Pointer>, answer: Pointer -> int)
    ensures LastAnswer(before + more, answer) == if more == [] then LastAnswer(before, answer) else LastAnswer(more, answer)
  {
    if more == [] {
      assert before + more == before;
    }
  }

  lemma ReachOne(data: seq<ConnectData>, i: nat, has: Interfaces, iid: Iid, answer: Pointer -> int)
    requires i < |data|
    ensures var before, reached := Receivers(data[..i], has, iid), if (data[i].pUnk, iid) in has then [data[i].pUnk] else [];
            Receivers(data[..i + 1], has, iid) == before + reached
            && LastAnswer(before + reached, answer) == if reached == [] then LastAnswer(before, answer) else LastAnswer(reached, answer)
  {
    hide Receivers, LastAnswer;
    assert data[..i + 1] == data[..i] + [data[i]];
    ReceiversMore(data[..i], data[i], has, iid);
    LastOf(Receivers(data[..i], has, iid), if (data[i].pUnk, iid) in has then [data[i].pUnk] else [], answer);
  }

  /** The condition of that loop: the next connection, with a reference, if there is one. */
  method NextOne(pEnum: CoEnumConnections, cd: array<ConnectData>) returns (more: bool)
    requires pEnum.Valid() && cd != pEnum.m_rgConnectData && cd.Length == 1
    modifies pEnum`m_iPosition, pEnum.world`refs, cd
    ensures pEnum.Valid() && pEnum.Data() == old(pEnum.Data())
    ensures more <==> old(pEnum.m_iPosition) < pEnum.m_cConnections
    ensures pEnum.m_iPosition == old(pEnum.m_iPosition) + if more then 1 else 0
    ensures more ==> cd[0] == pEnum.Data()[old(pEnum.m_iPosition)] && pEnum.world.refs == old(pEnum.world.refs) + multiset{cd[0].pUnk}
    ensures !more ==> pEnum.world.refs == old(pEnum.world.refs)
  {
    hide Sinks;
    ghost var data, i := pEnum.Data(), pEnum.m_iPosition;
    var r, n := pEnum.Next(1, cd, false);
    more := r == S_OK;
    if more {
      assert cd[..1] == data[i..i + 1] == [data[i]] && cd[..1][0] == cd[0];
      SinksOne(data[i]);
    } else {
      SinksNone();
      assert data[i..i] == [];
    }
  }

  /** The loop of a broadcast. */
  method Deliver(pEnum: CoEnumConnections, textIid: Iid, answer: Pointer -> int) returns (hr: Hresult)
    requires pEnum.Valid() && pEnum.m_iPosition == 0
    modifies pEnum`m_iPosition, pEnum.world`refs, pEnum.world`calls
    ensures pEnum.Valid() && pEnum.Data() == old(pEnum.Data())
    ensures pEnum.world.refs == old(pEnum.world.refs)
    ensures var reached := Receivers(pEnum.Data(), pEnum.world.implements, textIid);
            pEnum.world.calls == old(pEnum.world.calls) + reached && hr == LastAnswer(reached, answer)
  {
    hide Sinks, Receivers, LastAnswer;
    NoAnswer(answer);
    var world := pEnum.world;
    ghost var data := pEnum.Data();
    hr := S_OK;
    NoReceivers(world.implements, textIid);
    var cd := new ConnectData[1](i => ConnectData(0, 0));
    var more := true;
    assert data[..0] == [];
    while more
      invariant pEnum.Valid() && pEnum.Data() == data && fresh(cd) && cd.Length == 1
      invariant world.refs == old(world.refs)
      invariant world.calls == old(world.calls) + Receivers(data[..pEnum.m_iPosition], world.implements, textIid)
      invariant hr == LastAnswer(Receivers(data[..pEnum.m_iPosition], world.implements, textIid), answer)
      invariant !more ==> pEnum.m_iPosition == pEnum.m_cConnections
      decreases pEnum.m_cConnections - pEnum.m_iPosition, more
    {
      ghost var i := pEnum.m_iPosition;
      more := NextOne(pEnum, cd);
      if more {
        var p := cd[0].pUnk;
        ReachOne(data, i, world.implements, textIid, answer);
        hr := SendTo(world, p, textIid, answer, hr);
        world.Release(p);
      }
    }
    assert data[..pEnum.m_iPosition] == data;
  }
}
