/** The objects that clients connect: which interfaces they have, their reference counts, and the calls they got. */
module Com {
  /** An interface pointer; zero is no pointer. */
  type Pointer = nat

  type Iid = nat

  datatype Hresult = S_OK | S_FALSE | E_FAIL | E_POINTER | CANNOTCONNECT | NOCONNECTION | Answer(code: int)

  predicate Failed(hr: Hresult) {
    match hr
    case S_OK => false
    case S_FALSE => false
    case Answer(code) => code < 0
    case _ => true
  }

  /** A connection as an enumerator reports it. */
  datatype ConnectData = ConnectData(pUnk: Pointer, dwCookie: nat)

  /** One reference for every connection in a list. */
  function Sinks(data: seq<ConnectData>): multiset<Pointer>
    decreases |data|
  {
    if data == [] then multiset{} else Sinks(data[..|data| - 1]) + multiset{data[|data| - 1].pUnk}
  }

  lemma SinksNone()
    ensures Sinks([]) == multiset{}
  {
  }

  lemma SinksOne(d: ConnectData)
    ensures Sinks([d]) == multiset{d.pUnk}
  {
    assert [d][..0] == [];
  }

  lemma SinksMore(data: seq<ConnectData>, i: nat)
    requires i < |data|
    ensures Sinks(data[..i + 1]) == Sinks(data[..i]) + multiset{data[i].pUnk}
  {
    assert data[..i + 1][..i] == data[..i];
  }

  lemma {:induction false} SinksAppend(a: seq<ConnectData>, b: seq<ConnectData>)
    ensures Sinks(a + b) == Sinks(a) + Sinks(b)
    decreases |b|
  {
    if b == [] {
      assert a + b == a;
    } else {
      assert (a + b)[..|a + b| - 1] == a + b[..|b| - 1];
      SinksAppend(a, b[..|b| - 1]);
    }
  }

  class Objects {
    const implements: set<(Pointer, Iid)>
    var refs: multiset<Pointer>
    var calls: seq<Pointer>

    constructor (implements: set<(Pointer, Iid)>, refs: multiset<Pointer>)
      ensures this.implements == implements && this.refs == refs && calls == []
    {
      this.implements := implements;
      this.refs := refs;
      calls := [];
    }

    method AddRef(p: Pointer)
      modifies this`refs
      ensures refs == old(refs) + multiset{p}
    {
      refs := refs + multiset{p};
    }

    method Release(p: Pointer)
      requires p in refs
      modifies this`refs
      ensures refs == old(refs) - multiset{p}
    {
      refs := refs - multiset{p};
    }

    /** A successful query adds a reference. */
    method QueryInterface(p: Pointer, iid: Iid) returns (ok: bool)
      modifies this`refs
      ensures ok <==> (p, iid) in implements
      ensures refs == if ok then old(refs) + multiset{p} else old(refs)
    {
      ok := (p, iid) in implements;
      if ok {
        AddRef(p);
      }
    }

    /** A call of a method of an object, which does not call back. */
    method Call(p: Pointer)
      modifies this`calls
      ensures calls == old(calls) + [p]
    {
      calls := calls + [p];
    }
  }
}

/** Enumerators over a list of connections taken when they were created. */
module EnumConnections {
  import opened Com

  const TWO_TO_THE_32: nat := 0x1_0000_0000

  type Ulong = n: nat | n < TWO_TO_THE_32

  class CoEnumConnections {
    const world: Objects
    var m_cRef: nat
    var m_iPosition: Ulong
    const m_cConnections: Ulong
    const m_rgConnectData: array<ConnectData>

    ghost predicate Valid()
      reads this, m_rgConnectData
    {
      m_rgConnectData.Length == m_cConnections && m_iPosition <= m_cConnections
    }

    /** What the enumerator enumerates. */
    ghost function Data(): seq<ConnectData>
      reads this, m_rgConnectData
    {
      m_rgConnectData[..]
    }

    /** Every connection in the list gets a reference. */
    constructor (world: Objects, prgConnectData: seq<ConnectData>)
      requires |prgConnectData| < TWO_TO_THE_32
      modifies world`refs
      ensures Valid() && fresh(m_rgConnectData) && this.world == world && Data() == prgConnectData
      ensures m_iPosition == 0 && m_cRef == 0
      ensures world.refs == old(world.refs) + Sinks(prgConnectData)
    {
      hide Sinks;
      this.world := world;
      m_cRef := 0;
      m_iPosition := 0;
      m_cConnections := |prgConnectData|;
      m_rgConnectData := new ConnectData[|prgConnectData|](i => ConnectData(0, 0));
      new;
      SinksNone();
      assert prgConnectData[..0] == [];
      var i := 0;
      while i < m_cConnections
        modifies world`refs, m_rgConnectData
        invariant 0 <= i <= m_cConnections
        invariant m_rgConnectData[..i] == prgConnectData[..i]
        invariant world.refs == old(world.refs) + Sinks(prgConnectData[..i])
      {
        SinksMore(prgConnectData, i);
        m_rgConnectData[i] := prgConnectData[i];
        world.AddRef(m_rgConnectData[i].pUnk);
        i := i + 1;
      }
      assert prgConnectData[..i] == prgConnectData;
    }

    method AddRef() returns (count: nat)
      modifies this`m_cRef
      ensures count == m_cRef == old(m_cRef) + 1
    {
      m_cRef := m_cRef + 1;
      count := m_cRef;
    }

    /** The last release gives back the references of the whole list, wherever the position is. */
    method Release() returns (count: nat)
      requires Valid() && m_cRef > 0 && Sinks(Data()) <= world.refs
      modifies this`m_cRef, world`refs
      ensures Valid() && count == m_cRef == old(m_cRef) - 1
      ensures world.refs == if count == 0 then old(world.refs) - Sinks(Data()) else old(world.refs)
    {
      hide Sinks;
      m_cRef := m_cRef - 1;
      if m_cRef != 0 {
        return m_cRef;
      }
      ReleaseAll();
      count := 0;
    }

    /** The loop of the destructor. */
    method ReleaseAll()
      requires Valid() && Sinks(Data()) <= world.refs
      modifies world`refs
      ensures world.refs == old(world.refs) - Sinks(Data())
    {
      hide Sinks;
      ghost var data, all := Data(), world.refs;
      var i := 0;
      SinksNone();
      assert data[..0] == [] && data[0..] == data;
      while i < m_cConnections
        invariant 0 <= i <= m_cConnections && Data() == data
        invariant Sinks(data[i..]) <= world.refs
        invariant world.refs == all - Sinks(data) + Sinks(data[i..])
      {
        SinksFirst(data, i);
        world.Release(m_rgConnectData[i].pUnk);
        i := i + 1;
      }
      assert data[i..] == [];
    }

    static lemma SinksFirst(data: seq<ConnectData>, i: nat)
      requires i < |data|
      ensures Sinks(data[i..]) == multiset{data[i].pUnk} + Sinks(data[i + 1..])
      ensures data[i].pUnk in Sinks(data[i..])
    {
      hide Sinks;
      SinksAppend([data[i]], data[i + 1..]);
      SinksOne(data[i]);
      assert [data[i]] + data[i + 1..] == data[i..];
    }

    /**
     Next: the following connections, each with a reference, as many as asked for or left.  S_OK is
     also the answer when fewer were left than asked for; S_FALSE only when none were left.
     */
    method Next(cConnections: Ulong, rg: array?<ConnectData>, counts: bool) returns (hr: Hresult, fetched: nat)
      requires Valid() && (rg != null ==> rg != m_rgConnectData && rg.Length >= cConnections)
      modifies this`m_iPosition, world`refs, rg
      ensures Valid()
      ensures !counts && cConnections != 1 ==> hr == E_POINTER && fetched == 0
      ensures counts || cConnections == 1 ==>
                hr == (if rg == null || old(m_iPosition) == m_cConnections then S_FALSE else S_OK)
                && fetched == if rg == null then 0 else if old(m_iPosition) + cConnections < m_cConnections then cConnections else m_cConnections - old(m_iPosition)
      ensures m_iPosition == old(m_iPosition) + fetched
      ensures fetched > 0 ==> rg != null && rg[..fetched] == Data()[old(m_iPosition)..m_iPosition]
      ensures world.refs == old(world.refs) + Sinks(Data()[old(m_iPosition)..m_iPosition])
      ensures Data() == old(Data())
    {
      hide Sinks;
      SinksNone();
      fetched := 0;
      assert Data()[m_iPosition..m_iPosition] == [];
      if !counts && cConnections != 1 {
        return E_POINTER, 0;
      }
      if rg == null || m_iPosition >= m_cConnections {
        return S_FALSE, 0;
      }
      hr := S_OK;
      fetched := Fetch(cConnections, rg);
    }

    /** The loop of Next. */
    method Fetch(cConnections: Ulong, rg: array<ConnectData>) returns (cReturn: nat)
      requires Valid() && rg != m_rgConnectData && rg.Length >= cConnections
      modifies this`m_iPosition, world`refs, rg
      ensures Valid() && m_iPosition == old(m_iPosition) + cReturn
      ensures cReturn == if old(m_iPosition) + cConnections < m_cConnections then cConnections else m_cConnections - old(m_iPosition)
      ensures rg[..cReturn] == Data()[old(m_iPosition)..m_iPosition]
      ensures world.refs == old(world.refs) + Sinks(Data()[old(m_iPosition)..m_iPosition])
      ensures Data() == old(Data())
    {
      hide Sinks;
      SinksNone();
      ghost var data, start := Data(), m_iPosition;
      cReturn := 0;
      var c := cConnections;
      assert data[start..start] == [];
      while m_iPosition < m_cConnections && c > 0
        invariant Valid() && Data() == data && cReturn + c == cConnections
        invariant m_iPosition == start + cReturn <= m_cConnections
        invariant rg[..cReturn] == data[start..m_iPosition]
        invariant world.refs == old(world.refs) + Sinks(data[start..m_iPosition])
        decreases c
      {
        SinksRange(data, start, m_iPosition);
        rg[cReturn] := m_rgConnectData[m_iPosition];
        world.AddRef(m_rgConnectData[m_iPosition].pUnk);
        m_iPosition := m_iPosition + 1;
        cReturn := cReturn + 1;
        c := c - 1;
      }
    }

    static lemma SinksRange(data: seq<ConnectData>, start: nat, i: nat)
      requires start <= i < |data|
      ensures Sinks(data[start..i + 1]) == Sinks(data[start..i]) + multiset{data[i].pUnk}
      ensures data[start..i + 1] == data[start..i] + [data[i]]
    {
      hide Sinks;
      SinksMore(data[start..], i - start);
      assert data[start..][..i - start] == data[start..i] && data[start..][..i - start + 1] == data[start..i + 1];
    }

    /** Skip: never to the end, and in 32-bit arithmetic, so a large count goes back. */
    method Skip(cConnections: Ulong) returns (hr: Hresult)
      requires Valid()
      modifies this`m_iPosition
      ensures Valid()
      ensures var to := (old(m_iPosition) + cConnections) % 0x1_0000_0000;
              if to < m_cConnections then hr == S_OK && m_iPosition == to else hr == S_FALSE && m_iPosition == old(m_iPosition)
    {
      var to := (m_iPosition + cConnections) % TWO_TO_THE_32;
      if to >= m_cConnections {
        return S_FALSE;
      }
      m_iPosition := to;
      hr := S_OK;
    }

    method Reset() returns (hr: Hresult)
      requires Valid()
      modifies this`m_iPosition
      ensures Valid() && hr == S_OK && m_iPosition == 0
    {
      m_iPosition := 0;
      hr := S_OK;
    }

    /** Clone: another enumerator of the same connections in the same place, with references of its own. */
    method Clone() returns (pClone: CoEnumConnections)
      requires Valid()
      modifies world`refs
      ensures fresh(pClone) && fresh(pClone.m_rgConnectData) && pClone.Valid() && pClone.world == world
      ensures pClone.Data() == Data() && pClone.m_iPosition == m_iPosition && pClone.m_cRef == 1
      ensures world.refs == old(world.refs) + Sinks(Data())
      ensures unchanged(this) && Valid()
    {
      pClone := new CoEnumConnections(world, m_rgConnectData[..]);
      var count := pClone.AddRef();
      pClone.m_iPosition := m_iPosition;
    }
  }
}
