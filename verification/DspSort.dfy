/** The DSP sorter: building a signal graph and turning it into a chain that runs on recycled
  buffers. */
module DspSort {
  import opened DspGraph
  import opened DspChain
  import opened DspPool

  // ---------------------------------------------------------------------------------------
  // Relations between moments of a sort
  // ---------------------------------------------------------------------------------------

  ghost function FirstN(n: nat): (r: set<nat>)
    ensures forall u: nat :: u in r <==> u < n
  {
    if n == 0 then {} else FirstN(n - 1) + {n - 1}
  }

  ghost predicate HasInput(g: Graph, v: nat) {
    exists e: Edge :: IsEdge(g, e) && Target(g, e).u == v
  }

  /** Some connection into box v has not been delivered. */
  ghost predicate Starved(g: Graph, delivered: set<Edge>, v: nat) {
    exists e: Edge :: IsEdge(g, e) && Target(g, e).u == v && e !in delivered
  }

  /** No box other than those named could be started by now and has not been. */
  ghost predicate NoneReady(g: Graph, st: State, but: set<nat>) {
    forall v: nat {:trigger Starved(g, st.delivered, v)} ::
      v < |g| && v !in st.started && v !in but && HasInput(g, v) ==> Starved(g, st.delivered, v)
  }

  /** Everything leaving box v has been delivered. */
  ghost predicate Finished(g: Graph, st: State, v: nat) {
    forall e: Edge :: IsEdge(g, e) && e.u == v ==> e in st.delivered
  }

  /** No box is halfway onto the chain. */
  ghost predicate Calm(g: Graph, st: State) {
    && st.pinned == {}
    && (forall v :: v in st.started ==> v in Performed(st.chain))
    && (forall x :: IsInlet(g, x) && x.u in st.started ==> x in st.released)
  }

  /** From a to b, boxes started meanwhile have been finished, and boxes started before,
    except those named, have delivered nothing. */
  ghost predicate Later(g: Graph, a: State, b: State, but: set<nat>) {
    && a.started <= b.started && a.delivered <= b.delivered
    && (forall e :: e in b.delivered && e.u in a.started && e.u !in but ==> e in a.delivered)
    && (forall x :: x in a.osig ==> x in b.osig && b.osig[x] == a.osig[x])
    && (forall v :: v in b.started && v !in a.started ==> Finished(g, b, v))
  }

  lemma LaterTrans(g: Graph, a: State, b: State, c: State, but: set<nat>)
    requires Later(g, a, b, but) && Later(g, b, c, but)
    ensures Later(g, a, c, but)
  {
  }

  /** A box all of whose inlets have got all their connections has nothing left to wait for. */
  lemma FilledMeansDelivered(g: Graph, st: State, v: nat)
    requires Wf(g) && FlowInv(g, st) && v < |g|
    requires forall i: nat {:trigger Inlet(v, i)} :: i < g[v].nin ==>
      Inlet(v, i) in st.ngot && st.ngot[Inlet(v, i)] >= |Into(g, Inlet(v, i))|
    ensures !Starved(g, st.delivered, v)
  {
    forall e: Edge | IsEdge(g, e) && Target(g, e).u == v
      ensures e in st.delivered
    {
      var x := Target(g, e);
      assert x == Inlet(v, x.i);
      assert e in Into(g, x);
      SubsetOfSameSize(Into(g, x) * st.delivered, Into(g, x));
    }
  }

  /** A started box has been sent everything connected to it. */
  lemma ArrivedAll(g: Graph, scalars: set<Inlet>, st: State, x: Inlet)
    requires Inv(g, scalars, st) && IsInlet(g, x) && x.u in st.started && x in st.isig && x !in st.released
    ensures Holding(Contents(st.chain), st.isig[x], Wanted(g, scalars, x))
  {
    assert Holds(st, ByInlet(x), st.isig[x]) && IsClaim(g, ByInlet(x)) && Live(st, ByInlet(x));
    assert Into(g, x) * st.delivered == Into(g, x);
  }

  lemma InvBounds(g: Graph, scalars: set<Inlet>, st: State)
    requires Inv(g, scalars, st)
    ensures Wf(g) && PoolShape(st.pool)
    ensures forall x :: x in st.isig ==> st.isig[x] < |st.pool.refcount|
    ensures forall x :: x in st.osig ==> st.osig[x] < |st.pool.refcount|
  {
  }

  lemma InvCounts(g: Graph, scalars: set<Inlet>, st: State)
    requires Inv(g, scalars, st)
    ensures Wf(g) && FlowInv(g, st)
    ensures forall x :: IsInlet(g, x) ==> x in st.ngot
  {
  }

  lemma SubsetOfSameSize<T>(a: set<T>, b: set<T>)
    requires a <= b && |a| >= |b|
    ensures a == b
  {
    assert b == a + (b - a);
    assert |b| == |a| + |b - a|;
  }

  lemma MissingMeansStarved(g: Graph, st: State, x: Inlet)
    requires FlowInv(g, st) && IsInlet(g, x) && x in st.ngot && st.ngot[x] < |Into(g, x)|
    ensures Starved(g, st.delivered, x.u)
  {
    assert Into(g, x) <= st.delivered ==> Into(g, x) * st.delivered == Into(g, x);
    var e :| e in Into(g, x) && e !in st.delivered;
    assert IsEdge(g, e) && Target(g, e).u == x.u;
  }

  lemma DeliverLater(g: Graph, st: State, e: Edge, x: Inlet)
    requires Deliverable(g, st, e, x) && x in st.ngot
    requires st.osig[Src(e)] < |st.pool.refcount| && (x in st.isig ==> st.isig[x] < |st.pool.refcount|)
    requires NoneReady(g, st, {})
    ensures Later(g, st, Deliver(st, e, x), {e.u})
    ensures NoneReady(g, Deliver(st, e, x), {x.u})
  {
    DeliverShape(st, e, x);
    var st' := Deliver(st, e, x);
    forall v: nat | v < |g| && v !in st'.started && v != x.u && HasInput(g, v)
      ensures Starved(g, st'.delivered, v)
    {
      assert Starved(g, st.delivered, v);
      var e': Edge :| IsEdge(g, e') && Target(g, e').u == v && e' !in st.delivered;
      assert e' !in st'.delivered;
    }
  }

  lemma DeliverCalm(g: Graph, st: State, e: Edge, x: Inlet)
    requires Deliverable(g, st, e, x) && x in st.ngot && Calm(g, st)
    requires st.osig[Src(e)] < |st.pool.refcount| && (x in st.isig ==> st.isig[x] < |st.pool.refcount|)
    requires Performed(Deliver(st, e, x).chain) == Performed(st.chain)
    ensures Calm(g, Deliver(st, e, x))
  {
    DeliverShape(st, e, x);
  }

  function WithConn(g: Graph, u: nat, o: nat, x: Inlet): Graph
    requires IsOutlet(g, Outlet(u, o))
  {
    g[u := g[u].(outs := g[u].outs[o := g[u].outs[o] + [Conn(x.u, x.i)]])]
  }

  lemma OneMoreEdge(g0: Graph, g: Graph, u: nat, o: nat, x: Inlet)
    requires IsOutlet(g0, Outlet(u, o)) && g == WithConn(g0, u, o, x)
    ensures forall e :: IsEdge(g, e) <==> IsEdge(g0, e) || e == Edge(u, o, |g0[u].outs[o]|)
    ensures forall e :: IsEdge(g0, e) ==> Target(g, e) == Target(g0, e)
    ensures Target(g, Edge(u, o, |g0[u].outs[o]|)) == x
    ensures forall y :: IsInlet(g, y) <==> IsInlet(g0, y)
  {
  }

  /** Appending a connection adds one edge and changes no other. */
  lemma NewConnection(g0: Graph, g: Graph, u: nat, o: nat, x: Inlet)
    requires IsOutlet(g0, Outlet(u, o)) && IsInlet(g0, x) && g == WithConn(g0, u, o, x) && Wf(g0)
    ensures Wf(g)
    ensures forall e :: IsEdge(g, e) <==> IsEdge(g0, e) || e == Edge(u, o, |g0[u].outs[o]|)
    ensures forall e :: IsEdge(g0, e) ==> Target(g, e) == Target(g0, e)
    ensures Edges(g) == Edges(g0) + {Edge(u, o, |g0[u].outs[o]|)} && Target(g, Edge(u, o, |g0[u].outs[o]|)) == x
    ensures forall y :: |Into(g, y)| == if y == x then |Into(g0, y)| + 1 else |Into(g0, y)|
  {
    var e := Edge(u, o, |g0[u].outs[o]|);
    OneMoreEdge(g0, g, u, o, x);
    assert Edges(g) == Edges(g0) + {e};
    forall y
      ensures |Into(g, y)| == if y == x then |Into(g0, y)| + 1 else |Into(g0, y)|
    {
      OneMoreInto(g0, g, e, x, y);
    }
  }

  lemma OneMoreInto(g0: Graph, g: Graph, e: Edge, x: Inlet, y: Inlet)
    requires !IsEdge(g0, e) && IsEdge(g, e) && Target(g, e) == x
    requires forall d: Edge :: d != e ==> (IsEdge(g, d) <==> IsEdge(g0, d))
    requires forall d :: IsEdge(g0, d) ==> IsEdge(g, d) && Target(g, d) == Target(g0, d)
    ensures |Into(g, y)| == if y == x then |Into(g0, y)| + 1 else |Into(g0, y)|
  {
    if y == x {
      assert Into(g, y) == Into(g0, y) + {e};
    } else {
      assert Into(g, y) == Into(g0, y);
    }
  }

  /** Starting a box that is not starved. */
  lemma StartKeeps(g: Graph, scalars: set<Inlet>, st: State, u: nat)
    requires Inv(g, scalars, st) && u < |g| && u !in st.started && !Starved(g, st.delivered, u)
    ensures Inv(g, scalars, st.(started := st.started + {u}))
    ensures u !in Performed(st.chain)
    ensures forall x :: x in st.osig ==> x.u != u
    ensures forall x: Inlet :: x.u == u ==> x !in st.released
    ensures forall i: nat {:trigger Inlet(u, i)} :: i < g[u].nin ==>
        (Inlet(u, i) in st.isig <==> Into(g, Inlet(u, i)) != {})
    ensures forall e :: e in st.delivered ==> e.u != u
  {
    var st' := st.(started := st.started + {u});
    forall i: nat {:trigger Inlet(u, i)} | i < g[u].nin
      ensures Inlet(u, i) in st.isig <==> Into(g, Inlet(u, i)) != {}
    {
      assert IsInlet(g, Inlet(u, i));
      if e :| e in Into(g, Inlet(u, i)) {
        assert e in Into(g, Inlet(u, i)) * st.delivered;
      }
    }
    StartPool(g, st, u);
    StartContent(g, scalars, st, u);
  }

  lemma NoneReadyStart(g: Graph, st: State, st': State, u: nat)
    requires NoneReady(g, st, {u}) && st'.started == st.started + {u} && st'.delivered == st.delivered
    ensures NoneReady(g, st', {})
  {
  }

  lemma CountShape(p: Pool, s1: nat, s2: nat)
    requires PoolShape(p) && s1 < |p.refcount| && s2 < |p.refcount|
    ensures PoolShape(p.Count(s1, -1).Count(s2, -1))
  {
  }

  lemma StarvedTooNoneReady(g: Graph, st: State, u: nat)
    requires NoneReady(g, st, {u})
    ensures Starved(g, st.delivered, u) ==> NoneReady(g, st, {})
  {
  }

  lemma CalmParts(g: Graph, st: State)
    requires Calm(g, st)
    ensures st.pinned == {} && forall v :: v in st.started ==> v in Performed(st.chain)
  {
  }

  lemma PutCalm(g: Graph, st: State, st': State, u: nat)
    requires Calm(g, st) && st'.pinned == {} && st'.started == st.started + {u}
    requires Performed(st'.chain) == Performed(st.chain) + [u] && u < |g|
    requires forall x :: x in st'.released <==> x in st.released || (x.u == u && x.i < g[u].nin)
    ensures Calm(g, st')
  {
  }

  lemma StartPool(g: Graph, st: State, u: nat)
    requires PoolInv(g, st) && FreshOuts(g, st)
    ensures PoolInv(g, st.(started := st.started + {u})) && FreshOuts(g, st.(started := st.started + {u}))
  {
    var st' := st.(started := st.started + {u});
    forall s: nat
      ensures Holders(g, st', s) == Holders(g, st, s) && Pinned(st', s) == Pinned(st, s)
    {
      SameHolders(g, st, st', s);
    }
    assert OwnHolders(g, st') by {
      forall x, h | x in st'.pinned && IsClaim(g, h) && Holds(st', h, st'.osig[x])
        ensures h.ByConn? && Src(h.e) == x
      {
        assert Holds(st, h, st.osig[x]);
      }
    }
  }

  lemma StartContent(g: Graph, scalars: set<Inlet>, st: State, u: nat)
    requires ContentInv(g, scalars, st)
    ensures ContentInv(g, scalars, st.(started := st.started + {u}))
  {
    var st' := st.(started := st.started + {u});
    forall h, s | IsClaim(g, h) && Live(st', h) && Holds(st', h, s)
      ensures Holding(Contents(st'.chain), s, Needs(g, scalars, st', h))
    {
      assert Holds(st, h, s) && Live(st, h);
    }
  }

  lemma TargetUnstarted(g: Graph, scalars: set<Inlet>, st: State, e: Edge)
    requires Inv(g, scalars, st) && IsEdge(g, e) && e !in st.delivered
    ensures Target(g, e).u !in st.started && IsInlet(g, Target(g, e)) && Target(g, e) in st.ngot
  {
  }

  /** The quick test on the inlet just filled decides for a box with one inlet. */
  lemma OneInlet(g: Graph, scalars: set<Inlet>, st: State, x: Inlet, full: bool)
    requires Inv(g, scalars, st) && IsInlet(g, x)
    requires full ==> st.ngot[x] >= |Into(g, x)| && (g[x.u].nin > 1 ==> !Starved(g, st.delivered, x.u))
    requires !full ==> st.ngot[x] < |Into(g, x)| || Starved(g, st.delivered, x.u)
    ensures full <==> !Starved(g, st.delivered, x.u)
  {
    hide Inv, FlowInv, Starved;
    InvCounts(g, scalars, st);
    if full && g[x.u].nin == 1 {
      assert x == Inlet(x.u, 0);
      FilledMeansDelivered(g, st, x.u);
    }
    if st.ngot[x] < |Into(g, x)| {
      MissingMeansStarved(g, st, x);
    }
  }

  lemma NoInletConnected(g: Graph, u: nat)
    requires Wf(g) && u < |g| && HasInput(g, u)
    ensures exists i: nat {:trigger Inlet(u, i)} :: i < g[u].nin && Into(g, Inlet(u, i)) != {}
  {
    var e: Edge :| IsEdge(g, e) && Target(g, e).u == u;
    var x := Target(g, e);
    assert e in Into(g, Inlet(u, x.i));
  }

  ghost predicate AllFree(p: Pool) {
    forall s: nat :: s < |p.refcount| ==> p.refcount[s] == 0 && s in p.free
  }

  function NothingGot(g: Graph): (m: map<Inlet, nat>)
    ensures forall x :: IsInlet(g, x) ==> x in m && m[x] == 0
  {
    var m: map<Inlet, nat> := map u, i | 0 <= u < |g| && 0 <= i < g[u].nin :: Inlet(u, i) := 0;
    assert forall x :: IsInlet(g, x) ==> x == Inlet(x.u, x.i);
    m
  }

  /** Before anything is sent, the invariants hold over a pool of free signals. */
  lemma StartOfSort(g: Graph, scalars: set<Inlet>, st: State)
    requires Wf(g) && PoolShape(st.pool) && AllFree(st.pool)
    requires forall x :: IsInlet(g, x) ==> x in st.ngot && st.ngot[x] == 0
    requires st.isig == map[] && st.osig == map[] && st.chain == []
    requires st.started == {} && st.delivered == {} && st.released == {} && st.pinned == {}
    ensures Inv(g, scalars, st) && Calm(g, st) && NoneReady(g, st, {})
  {
    forall s: nat
      ensures Holders(g, st, s) == {} && !Pinned(st, s)
    {
      NobodyHolds(g, st, s);
    }
    forall v: nat | HasInput(g, v)
      ensures Starved(g, st.delivered, v)
    {
      var e: Edge :| IsEdge(g, e) && Target(g, e).u == v;
      assert e !in st.delivered;
    }
  }

  lemma StartFree(g: Graph, scalars: set<Inlet>, st: State, u: nat)
    requires NoneReady(g, st, {}) && !HasInput(g, u)
    ensures !Starved(g, st.delivered, u) && NoneReady(g, st, {u})
  {
  }

  lemma StillFinished(g: Graph, a: State, b: State)
    requires Later(g, a, b, {}) && forall v :: v in a.started ==> Finished(g, a, v)
    ensures forall v :: v in b.started ==> Finished(g, b, v)
  {
    forall v | v in b.started
      ensures Finished(g, b, v)
    {
      if v in a.started { assert Finished(g, a, v); }
    }
  }

  /** When nothing more can be started: the order on the chain is complete but for the boxes
    behind loops, and if there are none of those every signal is free again. */
  lemma EndOfSort(g: Graph, scalars: set<Inlet>, st: State)
    requires Inv(g, scalars, st) && Calm(g, st) && NoneReady(g, st, {})
    requires forall v :: v in st.started ==> Finished(g, st, v)
    requires forall v :: 0 <= v < |g| && !HasInput(g, v) ==> v in st.started
    ensures ChainOk(g, scalars, st.chain) && Ordered(g, Performed(st.chain)) && Maximal(g, Performed(st.chain))
    ensures forall u: nat :: u in st.started <==> u in Performed(st.chain)
    ensures Acyclic(g) <==> forall u: nat :: u < |g| ==> u in st.started
    ensures Acyclic(g) ==> PoolShape(st.pool) && AllFree(st.pool)
  {
    hide PoolInv, ContentInv, FlowInv, SigInv, FreshOuts;
    var order := Performed(st.chain);
    forall b: nat | b < |g| && b !in order
      ensures Waits(g, order, b)
    {
      assert HasInput(g, b) && Starved(g, st.delivered, b);
      var e: Edge :| IsEdge(g, e) && Target(g, e).u == b && e !in st.delivered;
      assert e.u !in order && Feeds(g, e.u, b);
    }
    AcyclicSchedulesAll(g, order);
    if Acyclic(g) {
      AllReturned(g, st);
    }
  }

  /** With every box started and finished nobody holds anything, so the pool is whole again. */
  lemma AllReturned(g: Graph, st: State)
    requires PoolInv(g, st) && Calm(g, st)
    requires forall u: nat :: u < |g| ==> u in st.started && Finished(g, st, u)
    ensures PoolShape(st.pool) && AllFree(st.pool)
  {
    forall s: nat | s < |st.pool.refcount|
      ensures st.pool.refcount[s] == 0 && s in st.pool.free
    {
      NobodyHolds(g, st, s);
      assert !Pinned(st, s);
      forall h | IsClaim(g, h)
        ensures !Holds(st, h, s)
      {
        if h.ByConn? { assert Finished(g, st, h.e.u); }
      }
      assert st.pool.refcount[s] == |Holders(g, st, s)|;
    }
  }

  lemma CountedWf(g: Graph, nconnect: map<Inlet, nat>)
    requires Counted(g, nconnect)
    ensures Wf(g)
  {
  }

  ghost predicate Counted(g: Graph, nconnect: map<Inlet, nat>) {
    && Wf(g)
    && (forall x :: IsInlet(g, x) ==> x in nconnect && nconnect[x] == |Into(g, x)|)
  }

  // ---------------------------------------------------------------------------------------
  // The sorter
  // ---------------------------------------------------------------------------------------

  class DspContext {
    var g: Graph                     // the boxes and their connections
    var nconnect: map<Inlet, nat>
    var scalars: set<Inlet>          // inlets whose unconnected value is a number of the box
    var refcount: seq<int>
    var freelist: seq<nat>
    var ngot: map<Inlet, nat>
    var isig: map<Inlet, nat>
    var osig: map<Outlet, nat>
    var chain: Chain
    var done: set<nat>
    ghost var started: set<nat>
    ghost var delivered: set<Edge>
    ghost var released: set<Inlet>
    ghost var pinned: set<Outlet>

    ghost function View(): State
      reads this
    {
      State(Pool(refcount, freelist), ngot, isig, osig, chain, started, delivered, released, pinned)
    }

    /** Every connection leads to an existing inlet, and every inlet knows how many lead to it. */
    ghost predicate GraphValid()
      reads this
    {
      Counted(g, nconnect)
    }

    ghost predicate Valid()
      reads this
    {
      GraphValid() && Inv(g, scalars, View())
    }

    constructor ()
      ensures GraphValid() && g == []
    {
      g, nconnect, scalars := [], map[], {};
      refcount, freelist := [], [];
      ngot, isig, osig, chain, done := map[], map[], map[], [], {};
      started, delivered, released, pinned := {}, {}, {}, {};
    }

    /** ugen_add */
    method Add(nin: nat, nout: nat, own: set<nat>)
      requires GraphValid()
      modifies `g, `nconnect, `scalars
      ensures GraphValid()
      ensures g == old(g) + [Box(nin, seq(nout, o => []))]
      ensures scalars == old(scalars) + set i | i in own :: Inlet(|old(g)|, i)
    {
      var u := |g|;
      var added := map i: nat | i < nin :: Inlet(u, i) := 0 as nat;
      ghost var g0 := g;
      g := g + [Box(nin, seq(nout, o => []))];
      nconnect := nconnect + added;
      scalars := scalars + set i | i in own :: Inlet(u, i);
      forall e | IsEdge(g, e)
        ensures IsEdge(g0, e) && Target(g, e) == Target(g0, e)
      {
      }
      forall x | IsInlet(g, x)
        ensures x in nconnect && nconnect[x] == |Into(g, x)|
      {
        if x.u < u {
          assert Into(g, x) == Into(g0, x);
        } else {
          assert x == Inlet(u, x.i);
          assert Into(g, x) == {};
        }
      }
    }

    /** ugen_connect; a box that is not on the list is given as -1, and a signal inlet that does
      not exist likewise.  Such connections are ignored. */
    method Connect(u1: int, outno: int, u2: int, inno: int)
      requires GraphValid() && -1 <= u1 < |g| && -1 <= u2 < |g|
      requires 0 <= u1 && 0 <= u2 && 0 <= inno && g[u2].nin > 0 ==> 0 <= outno < |g[u1].outs| && inno < g[u2].nin
      modifies `g, `nconnect
      ensures GraphValid() && |g| == |old(g)|
      ensures u1 < 0 || u2 < 0 || inno < 0 || old(g)[u2].nin == 0 ==> g == old(g)
      ensures u1 >= 0 && u2 >= 0 && inno >= 0 && old(g)[u2].nin > 0 ==>
        && Edges(g) == Edges(old(g)) + {Edge(u1, outno, |old(g)[u1].outs[outno]|)}
        && Target(g, Edge(u1, outno, |old(g)[u1].outs[outno]|)) == Inlet(u2, inno)
        && (forall e :: e in Edges(old(g)) ==> Target(g, e) == Target(old(g), e))
        && (forall u :: 0 <= u < |g| ==> g[u].nin == old(g)[u].nin && |g[u].outs| == |old(g)[u].outs|)
    {
      if u1 < 0 || u2 < 0 || inno < 0 || g[u2].nin == 0 {
        return;
      }
      ghost var g0 := g;
      var conns := g[u1].outs[outno];
      ghost var e := Edge(u1, outno, |conns|);
      var x := Inlet(u2, inno);
      g := g[u1 := g[u1].(outs := g[u1].outs[outno := conns + [Conn(u2, inno)]])];
      nconnect := nconnect[x := nconnect[x] + 1];
      NewConnection(g0, g, u1, outno, x);
      forall y | IsInlet(g, y)
        ensures y in nconnect && nconnect[y] == |Into(g, y)|
      {
        assert IsInlet(g0, y);
      }
    }

    /** signal_new: reuse the signal freed last, or make another. */
    method SignalNew() returns (s: nat)
      requires PoolShape(Pool(refcount, freelist))
      modifies `refcount, `freelist
      ensures s == old(Pool(refcount, freelist)).Fresh() && s < |refcount|
      ensures Pool(refcount, freelist) == old(Pool(refcount, freelist)).Take(0)
    {
      if freelist != [] {
        assert freelist[0] in freelist;
        s := freelist[0];
        freelist := freelist[1..];
        refcount := refcount[s := 0];
      } else {
        s := |refcount|;
        refcount := refcount + [0];
      }
    }

    /** signal_makereusable: a signal already on the list is left alone. */
    method MakeReusable(s: nat)
      modifies `freelist
      ensures Pool(refcount, freelist) == old(Pool(refcount, freelist)).Give(s)
    {
      if s !in freelist {
        freelist := [s] + freelist;
      }
    }

    /** A buffer for an unconnected inlet, filled by the chain with a scalar or with zeros. */
    method FillInlet(x: Inlet)
      requires Valid() && IsInlet(g, x) && x.u in started && Into(g, x) == {} && x !in isig && x !in released
      modifies `refcount, `freelist, `isig, `chain
      ensures Valid() && View() == FillUnconnected(scalars, old(View()), x)
      ensures Performed(chain) == old(Performed(chain)) && isig.Keys == old(isig).Keys + {x}
    {
      hide Inv, PoolShape, Contents, StepContents, Counted;
      ghost var st := View();
      InvBounds(g, scalars, st);
      FillUnconnectedKeeps(g, scalars, st, x);
      FillShape(scalars, st, x);
      hide Performed;
      var s := SignalNew();
      if x in scalars {
        chain := chain + [ScalarCopy(x, s)];
      } else {
        chain := chain + [Zero(s)];
      }
      isig := isig[x := s];
      refcount := refcount[s := 1];
      assert View() == FillUnconnected(scalars, st, x);
      hide FillUnconnected;
    }

    /** Buffers for the unconnected inlets of box u. */
    method FillInlets(u: nat)
      requires Valid() && u < |g| && u in started
      requires forall x: Inlet :: x.u == u ==> x !in released
      requires forall i: nat {:trigger Inlet(u, i)} :: i < g[u].nin ==>
          (Inlet(u, i) in isig <==> Into(g, Inlet(u, i)) != {})
      modifies `refcount, `freelist, `isig, `chain
      ensures Valid() && Performed(chain) == old(Performed(chain))
      ensures forall i: nat {:trigger Inlet(u, i)} :: i < g[u].nin ==> Inlet(u, i) in isig
    {
      hide Inv, Performed;
      for i := 0 to g[u].nin
        invariant Valid() && Performed(chain) == old(Performed(chain))
        invariant forall j: nat {:trigger Inlet(u, j)} :: j < g[u].nin ==>
          (Inlet(u, j) in isig <==> j < i || Into(g, Inlet(u, j)) != {})
      {
        var x := Inlet(u, i);
        assert IsInlet(g, x);
        if nconnect[x] == 0 {
          assert Into(g, x) == {};
          FillInlet(x);
        } else {
          assert Into(g, x) != {};
        }
      }
    }

    /** The box of inlet x takes the signal that waits there. */
    method TakeInput(x: Inlet) returns (s: nat)
      requires Valid() && IsInlet(g, x) && x in isig && x.u in started && x !in released
      modifies `refcount, `freelist, `released
      ensures Valid() && View() == Release(old(View()), x)
      ensures s == isig[x] && released == old(released) + {x}
      ensures Holding(Contents(chain), s, Wanted(g, scalars, x))
    {
      hide Inv, Counted;
      ghost var st := View();
      InvBounds(g, scalars, st);
      ReleaseKeeps(g, scalars, st, x);
      ArrivedAll(g, scalars, st, x);
      s := isig[x];
      released := released + {x};
      refcount := refcount[s := refcount[s] - 1];
      if refcount[s] == 0 {
        MakeReusable(s);
      }
      assert View() == Release(st, x);
    }

    /** Box u takes the signals at its inlets. */
    method TakeInputs(u: nat) returns (ins: seq<nat>)
      requires Valid() && u < |g| && u in started
      requires forall i: nat {:trigger Inlet(u, i)} :: i < g[u].nin ==> Inlet(u, i) in isig
      requires forall x: Inlet :: x.u == u ==> x !in released
      modifies `refcount, `freelist, `released
      ensures Valid() && |ins| == g[u].nin
      ensures forall x :: x in released <==> x in old(released) || (x.u == u && x.i < g[u].nin)
      ensures forall k: nat {:trigger Inlet(u, k)} :: k < |ins| ==>
          Holding(Contents(chain), ins[k], Wanted(g, scalars, Inlet(u, k)))
    {
      hide Inv, Contents, Wanted, Counted;
      ins := [];
      for i := 0 to g[u].nin
        invariant Valid() && |ins| == i
        invariant forall x :: x in released <==> x in old(released) || (x.u == u && x.i < i)
        invariant forall k: nat {:trigger Inlet(u, k)} :: k < i ==>
            Holding(Contents(chain), ins[k], Wanted(g, scalars, Inlet(u, k)))
      {
        var s := TakeInput(Inlet(u, i));
        ins := ins + [s];
      }
    }

    /** A signal for outlet x of the box being scheduled. */
    method NewOutput(x: Outlet) returns (s: nat)
      requires Valid() && IsOutlet(g, x) && x.u in started && x.u !in Performed(chain) && x !in osig
      modifies `refcount, `freelist, `osig, `pinned
      ensures Valid() && View() == NewOutlet(old(View()), x, |g[x.u].outs[x.o]|)
      ensures osig == old(osig)[x := s] && pinned == old(pinned) + {x}
    {
      hide Inv, Counted;
      ghost var st := View();
      InvBounds(g, scalars, st);
      NewOutletKeeps(g, scalars, st, x);
      s := SignalNew();
      osig := osig[x := s];
      pinned := pinned + {x};
      refcount := refcount[s := |g[x.u].outs[x.o]|];
      assert View() == NewOutlet(st, x, |g[x.u].outs[x.o]|);
    }

    /** Signals for the outlets of box u. */
    method NewOutputs(u: nat) returns (outs: seq<nat>)
      requires Valid() && u < |g| && u in started && u !in Performed(chain) && pinned == {}
      requires forall x :: x in osig ==> x.u != u
      modifies `refcount, `freelist, `osig, `pinned
      ensures Valid() && |outs| == |g[u].outs|
      ensures forall o: nat {:trigger Outlet(u, o)} :: o < |outs| ==>
          Outlet(u, o) in osig && osig[Outlet(u, o)] == outs[o]
      ensures forall x :: x in pinned <==> x.u == u && x.o < |outs|
      ensures forall x :: x in old(osig) ==> x in osig && osig[x] == old(osig)[x]
    {
      hide Inv, Counted;
      outs := [];
      for o := 0 to |g[u].outs|
        invariant Valid() && |outs| == o
        invariant forall x :: x in osig && x.u == u ==> x.o < o
        invariant forall k: nat {:trigger Outlet(u, k)} :: k < o ==>
            Outlet(u, k) in osig && osig[Outlet(u, k)] == outs[k]
        invariant forall x :: x in pinned <==> x.u == u && x.o < o
        invariant forall x :: x in old(osig) ==> x in osig && osig[x] == old(osig)[x]
      {
        var s := NewOutput(Outlet(u, o));
        outs := outs + [s];
      }
    }

    /** The signal of outlet x can be reused at once if nothing is connected. */
    method SettleOutput(x: Outlet, s: nat)
      requires Valid() && x in pinned && x.u in Performed(chain) && x in osig && osig[x] == s
      modifies `freelist, `pinned
      ensures Valid() && View() == Settle(old(View()), x) && pinned == old(pinned) - {x}
    {
      hide Inv, Counted;
      ghost var st := View();
      InvBounds(g, scalars, st);
      SettleKeeps(g, scalars, st, x);
      if refcount[s] == 0 {
        MakeReusable(s);
      }
      pinned := pinned - {x};
      assert View() == Settle(st, x);
    }

    method SettleOutputs(u: nat, outs: seq<nat>)
      requires Valid() && u in Performed(chain)
      requires forall x :: x in pinned <==> x.u == u && x.o < |outs|
      requires forall o: nat {:trigger Outlet(u, o)} :: o < |outs| ==>
          Outlet(u, o) in osig && osig[Outlet(u, o)] == outs[o]
      modifies `freelist, `pinned
      ensures Valid() && pinned == {}
    {
      hide Inv, Counted;
      for o := 0 to |outs|
        invariant Valid()
        invariant forall x :: x in pinned <==> x.u == u && o <= x.o < |outs|
      {
        SettleOutput(Outlet(u, o), outs[o]);
      }
    }

    /** Are all the inlets of box v full? */
    method AllFull(v: nat) returns (b: bool)
      requires Valid() && v < |g|
      ensures b ==> !Starved(g, delivered, v)
      ensures !b ==> Starved(g, delivered, v)
    {
      hide Inv, FlowInv, Starved;
      InvCounts(g, scalars, View());
      for i := 0 to g[v].nin
        invariant forall j: nat {:trigger Inlet(v, j)} :: j < i ==> ngot[Inlet(v, j)] >= nconnect[Inlet(v, j)]
      {
        var x := Inlet(v, i);
        assert IsInlet(g, x);
        if ngot[x] < nconnect[x] {
          MissingMeansStarved(g, View(), x);
          return false;
        }
      }
      forall j: nat {:trigger Inlet(v, j)} | j < g[v].nin
        ensures Inlet(v, j) in ngot && ngot[Inlet(v, j)] >= |Into(g, Inlet(v, j))|
      {
        assert IsInlet(g, Inlet(v, j));
      }
      FilledMeansDelivered(g, View(), v);
      return true;
    }

    /** Deliver one connection to its inlet, adding to the signal already there if need be. */
    method DeliverConn(e: Edge, x: Inlet)
      requires Valid() && Calm(g, View()) && NoneReady(g, View(), {}) && Deliverable(g, View(), e, x)
      modifies `refcount, `freelist, `isig, `ngot, `chain, `delivered
      ensures Valid() && Calm(g, View()) && NoneReady(g, View(), {x.u})
      ensures Later(g, old(View()), View(), {e.u}) && delivered == old(delivered) + {e} && x in ngot
    {
      hide Inv, Later, NoneReady, Calm, Contents, Performed, PoolShape, Counted;
      ghost var st := View();
      InvBounds(g, scalars, st);
      DeliverKeeps(g, scalars, st, e, x);
      DeliverLater(g, st, e, x);
      DeliverCalm(g, st, e, x);
      if x in isig {
        AddSignal(e, x);
      } else {
        isig := isig[x := osig[Src(e)]];
      }
      ngot := ngot[x := ngot[x] + 1];
      delivered := delivered + {e};
      assert View() == Deliver(st, e, x);
    }

    /** Put the sum of connection e's signal and the one at inlet x in the inlet's place. */
    method AddSignal(e: Edge, x: Inlet)
      requires PoolShape(Pool(refcount, freelist)) && x in isig && Src(e) in osig
      requires isig[x] < |refcount| && osig[Src(e)] < |refcount|
      modifies `refcount, `freelist, `isig, `chain
      ensures View() == old(DeliverMore(View().(ngot := map[x := 0]), e, x).(ngot := ngot, delivered := delivered))
    {
      hide PoolShape;
      ghost var p := Pool(refcount, freelist);
      var s1, s2 := osig[Src(e)], isig[x];
      refcount := refcount[s1 := refcount[s1] - 1];
      refcount := refcount[s2 := refcount[s2] - 1];
      assert Pool(refcount, freelist) == p.Count(s1, -1).Count(s2, -1);
      CountShape(p, s1, s2);
      var s3 := SignalNew();
      chain := chain + [Plus(s1, s2, s3)];
      isig := isig[x := s3];
      refcount := refcount[s3 := 1];
      assert Pool(refcount, freelist) == p.Count(s1, -1).Count(s2, -1).Take(1);
      if refcount[s1] == 0 {
        MakeReusable(s1);
      }
      if refcount[s2] == 0 {
        MakeReusable(s2);
      }
    }

    /** Put box u on the chain, once all its inlets are full: take its inputs, make its outputs,
      and emit it. */
    method PutBox(u: nat)
      requires Valid() && Calm(g, View()) && u < |g| && u !in started && !Starved(g, delivered, u)
      requires NoneReady(g, View(), {u})
      modifies `refcount, `freelist, `isig, `osig, `chain, `started, `released, `pinned
      ensures Valid() && Calm(g, View()) && NoneReady(g, View(), {})
      ensures started == old(started) + {u} && u in Performed(chain)
      ensures forall o: nat {:trigger Outlet(u, o)} :: o < |g[u].outs| ==> Outlet(u, o) in osig
      ensures forall x :: x in old(osig) ==> x in osig && osig[x] == old(osig)[x]
      ensures forall e :: e in delivered ==> e.u != u
    {
      hide Inv, NoneReady, Calm, Wf, Counted;
      ghost var st := View();
      StartKeeps(g, scalars, st, u);
      CalmParts(g, st);
      started := started + {u};
      FillInlets(u);
      var ins := TakeInputs(u);
      EmitBox(u, ins);
      NoneReadyStart(g, st, View(), u);
      PutCalm(g, st, View(), u);
    }

    /** Make box u's outputs and put it on the chain. */
    method EmitBox(u: nat, ins: seq<nat>)
      requires Valid() && u < |g| && u in started && u !in Performed(chain) && pinned == {} && |ins| == g[u].nin
      requires forall k: nat {:trigger Inlet(u, k)} :: k < |ins| ==>
          Holding(Contents(chain), ins[k], Wanted(g, scalars, Inlet(u, k)))
      requires forall x :: x in osig ==> x.u != u
      modifies `refcount, `freelist, `osig, `chain, `pinned
      ensures Valid() && pinned == {} && Performed(chain) == old(Performed(chain)) + [u]
      ensures forall o: nat {:trigger Outlet(u, o)} :: o < |g[u].outs| ==> Outlet(u, o) in osig
      ensures forall x :: x in old(osig) ==> x in osig && osig[x] == old(osig)[x]
    {
      hide Inv, Wf, Contents, Performed, Wanted, Holding, Counted;
      var outs := NewOutputs(u);
      PutKeeps(g, scalars, View(), u, ins, outs);
      chain := chain + [Perform(u, ins, outs)];
      SettleOutputs(u, outs);
    }

    /** ugen_doit: put box u on the chain and then, recursively, any others that this one
      completes.  A box is marked done only after everything it sets off. */
    method DoIt(u: nat)
      requires Valid() && Calm(g, View()) && u < |g| && u !in started && !Starved(g, delivered, u)
      requires NoneReady(g, View(), {u})
      requires done <= started
      modifies `refcount, `freelist, `ngot, `isig, `osig, `chain, `done, `started, `delivered, `released, `pinned
      ensures Valid() && Calm(g, View()) && NoneReady(g, View(), {})
      ensures u in started && Later(g, old(View()), View(), {})
      ensures old(done) <= done <= started && forall v :: v in started && v !in old(started) ==> v in done
      decreases FirstN(|g|) - started, 0
    {
      hide Inv, Counted;
      ghost var st := View();
      PutBox(u);
      assert u in FirstN(|g|) - st.started;
      PassOn(u);
      done := done + {u};
    }

    /** Send box u's outputs along all their connections, and trip any box whose last inlet
      was filled. */
    method PassOn(u: nat)
      requires Valid() && Calm(g, View()) && NoneReady(g, View(), {}) && u < |g| && u in started
      requires forall o: nat {:trigger Outlet(u, o)} :: o < |g[u].outs| ==> Outlet(u, o) in osig
      requires forall e :: e in delivered ==> e.u != u
      requires done <= started
      modifies `refcount, `freelist, `ngot, `isig, `osig, `chain, `done, `started, `delivered, `released, `pinned
      ensures Valid() && Calm(g, View()) && NoneReady(g, View(), {})
      ensures Later(g, old(View()), View(), {u}) && Finished(g, View(), u)
      ensures old(done) <= done <= started && forall v :: v in started && v !in old(started) ==> v in done
      decreases FirstN(|g|) - started, 2
    {
      hide Inv, NoneReady, Calm, Counted;
      for o := 0 to |g[u].outs|
        invariant Valid() && Calm(g, View()) && NoneReady(g, View(), {})
        invariant Later(g, old(View()), View(), {u})
        invariant forall e :: IsEdge(g, e) && e.u == u ==> (e in delivered <==> e.o < o)
        invariant old(done) <= done <= started && forall v :: v in started && v !in old(started) ==> v in done
      {
        var k := |g[u].outs[o]|;
        while k > 0
          invariant 0 <= k <= |g[u].outs[o]|
          invariant Valid() && Calm(g, View()) && NoneReady(g, View(), {})
          invariant Later(g, old(View()), View(), {u})
          invariant forall e :: IsEdge(g, e) && e.u == u ==> (e in delivered <==> e.o < o || (e.o == o && e.k >= k))
          invariant old(done) <= done <= started && forall v :: v in started && v !in old(started) ==> v in done
        {
          k := k - 1;
          var e := Edge(u, o, k);
          var x := Target(g, e);
          PassOne(e, x);
        }
      }
    }

    /** Deliver one connection, and trip the box it leads to if that filled it. */
    method PassOne(e: Edge, x: Inlet)
      requires Valid() && Calm(g, View()) && NoneReady(g, View(), {})
      requires IsEdge(g, e) && x == Target(g, e) && e !in delivered && e.u in started && Src(e) in osig
      requires done <= started
      modifies `refcount, `freelist, `ngot, `isig, `osig, `chain, `done, `started, `delivered, `released, `pinned
      ensures Valid() && Calm(g, View()) && NoneReady(g, View(), {})
      ensures Later(g, old(View()), View(), {e.u})
      ensures forall d :: IsEdge(g, d) && d.u == e.u ==> (d in delivered <==> d in old(delivered) || d == e)
      ensures old(done) <= done <= started && forall v :: v in started && v !in old(started) ==> v in done
      decreases FirstN(|g|) - started, 1
    {
      hide Inv, Starved, NoneReady, Calm;
      TargetUnstarted(g, scalars, View(), e);
      ghost var st := View();
      CalmParts(g, st);
      DeliverConn(e, x);
      ghost var mid := View();
      var full := ngot[x] >= nconnect[x];
      if full && g[x.u].nin > 1 {
        full := AllFull(x.u);
      }
      OneInlet(g, scalars, View(), x, full);
      StarvedTooNoneReady(g, View(), x.u);
      if full {
        DoIt(x.u);
        LaterTrans(g, st, mid, View(), {e.u});
      }
    }

    method HasConnectedInlet(u: nat) returns (b: bool)
      requires GraphValid() && u < |g|
      ensures b <==> HasInput(g, u)
    {
      for i := 0 to g[u].nin
        invariant forall j: nat {:trigger Inlet(u, j)} :: j < i ==> Into(g, Inlet(u, j)) == {}
      {
        var x := Inlet(u, i);
        assert IsInlet(g, x);
        if nconnect[x] != 0 {
          var e :| e in Into(g, x);
          assert IsEdge(g, e) && Target(g, e).u == u;
          return true;
        }
      }
      if HasInput(g, u) {
        NoInletConnected(g, u);
      }
      return false;
    }

    /** Nothing sent, nothing started, nothing on the chain. */
    method StartSort()
      requires GraphValid() && PoolShape(Pool(refcount, freelist)) && AllFree(Pool(refcount, freelist))
      modifies `ngot, `isig, `osig, `chain, `done, `started, `delivered, `released, `pinned
      ensures Valid() && Calm(g, View()) && NoneReady(g, View(), {})
      ensures started == {} == done
    {
      hide Inv, Calm, NoneReady, AllFree, PoolShape, Counted;
      CountedWf(g, nconnect);
      ngot := NothingGot(g);
      isig, osig, chain, done := map[], map[], [], {};
      started, delivered, released, pinned := {}, {}, {}, {};
      StartOfSort(g, scalars, View());
    }

    /** The sorting part of ugen_done_graph: start every box without connected inlets, and
      report whether any box is left over.  All signals are free to begin with. */
    method SortGraph() returns (loop: bool)
      requires GraphValid() && PoolShape(Pool(refcount, freelist)) && AllFree(Pool(refcount, freelist))
      modifies `refcount, `freelist, `ngot, `isig, `osig, `chain, `done, `started, `delivered, `released, `pinned
      ensures Valid()
      ensures ChainOk(g, scalars, chain) && Ordered(g, Performed(chain)) && Maximal(g, Performed(chain))
      ensures forall u: nat :: u in done <==> u in Performed(chain)
      ensures loop <==> !Acyclic(g)
      ensures !loop ==> PoolShape(Pool(refcount, freelist)) && AllFree(Pool(refcount, freelist))
    {
      hide Inv, Later, Calm, NoneReady, AllFree, PoolShape, Acyclic, Finished, HasInput, Ordered, Maximal, Performed,
          Counted;
      StartSort();
      var n := |g|;
      while n > 0
        invariant 0 <= n <= |g|
        invariant Valid() && Calm(g, View()) && NoneReady(g, View(), {}) && done == started
        invariant forall v :: v in started ==> Finished(g, View(), v)
        invariant forall v :: n <= v < |g| && !HasInput(g, v) ==> v in started
      {
        n := n - 1;
        if n !in done {
          var connected := HasConnectedInlet(n);
          if !connected {
            StartFree(g, scalars, View(), n);
            ghost var st := View();
            DoIt(n);
            StillFinished(g, st, View());
          }
        }
      }
      EndOfSort(g, scalars, View());
      loop := exists u :: 0 <= u < |g| && u !in done;
    }
  }
}
