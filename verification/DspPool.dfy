/** The bookkeeping of a sort in progress: who holds which signal, what each buffer contains,
  and the small steps by which the sorter changes them. */
module DspPool {
  import opened DspGraph
  import opened DspChain

  /** A reason to keep a signal: a connection still to be delivered, or a waiting inlet. */
  datatype Holder = ByConn(e: Edge) | ByInlet(x: Inlet)

  /** Reference counts of all the signals made so far, and the list of reusable ones. */
  datatype Pool = Pool(refcount: seq<int>, free: seq<nat>) {
    function Fresh(): nat {
      if free != [] then free[0] else |refcount|
    }

    /** signal_new: take the head of the free list, or make another signal. */
    function Take(n: int): Pool {
      if free != [] && free[0] < |refcount| then Pool(refcount[free[0] := n], free[1..])
      else Pool(refcount + [n], [])
    }

    function Count(s: nat, d: int): Pool
      requires s < |refcount|
    {
      this.(refcount := refcount[s := refcount[s] + d])
    }

    /** signal_makereusable, with its guard against freeing twice. */
    function Give(s: nat): Pool {
      if s in free then this else this.(free := [s] + free)
    }

    function GiveIfUnused(s: nat): Pool
      requires s < |refcount|
    {
      if refcount[s] == 0 then Give(s) else this
    }
  }

  datatype State = State(
    pool: Pool,
    ngot: map<Inlet, nat>,        // connections delivered so far
    isig: map<Inlet, nat>,        // signal waiting at (or used by) an inlet
    osig: map<Outlet, nat>,       // signal of an outlet
    chain: Chain,
    started: set<nat>,
    delivered: set<Edge>,
    released: set<Inlet>,   // inlets whose box has taken their signal
    pinned: set<Outlet>)    // outlets of the box being scheduled right now

  ghost function Claims(g: Graph): set<Holder> {
    (set e | e in Edges(g) :: ByConn(e)) + (set u, i | 0 <= u < |g| && 0 <= i < g[u].nin :: ByInlet(Inlet(u, i)))
  }

  ghost predicate IsClaim(g: Graph, h: Holder) {
    match h
    case ByConn(e) => IsEdge(g, e)
    case ByInlet(x) => IsInlet(g, x)
  }

  lemma ClaimsAre(g: Graph)
    ensures forall h :: h in Claims(g) <==> IsClaim(g, h)
  {
    forall h | IsClaim(g, h)
      ensures h in Claims(g)
    {
      if h.ByInlet? { assert h == ByInlet(Inlet(h.x.u, h.x.i)); }
    }
  }

  ghost predicate Holds(st: State, h: Holder, s: nat) {
    match h
    case ByConn(e) => e !in st.delivered && Src(e) in st.osig && st.osig[Src(e)] == s
    case ByInlet(x) => x !in st.released && x in st.isig && st.isig[x] == s
  }

  ghost function Holders(g: Graph, st: State, s: nat): set<Holder> {
    set h | h in Claims(g) && Holds(st, h, s)
  }

  // ---------------------------------------------------------------------------------------
  // Invariants
  // ---------------------------------------------------------------------------------------

  /** Inlets and outlets have signals that exist. */
  ghost predicate SigInv(g: Graph, st: State) {
    && (forall x :: x in st.osig ==> IsOutlet(g, x) && x.u in st.started && st.osig[x] < |st.pool.refcount|)
    && (forall x :: x in st.isig ==> IsInlet(g, x) && st.isig[x] < |st.pool.refcount|)
  }

  /** How far the connections have been delivered. */
  ghost predicate FlowInv(g: Graph, st: State) {
    ReachInv(g, st) && CountInv(g, st.ngot, st.isig, st.delivered, st.started)
  }

  ghost predicate ReachInv(g: Graph, st: State) {
    && (forall e :: e in st.delivered ==> IsEdge(g, e) && Src(e) in st.osig && e.u in Performed(st.chain))
    && (forall e: Edge :: IsEdge(g, e) && Target(g, e).u in st.started ==> e in st.delivered)
    && (forall x :: x in st.released ==> x.u in st.started)
    && (forall u :: u in st.started ==> u < |g|)
  }

  ghost predicate CountInv(g: Graph, ngot: map<Inlet, nat>, isig: map<Inlet, nat>, delivered: set<Edge>,
                           started: set<nat>)
  {
    && (forall x :: IsInlet(g, x) ==> x in ngot && ngot[x] == |Into(g, x) * delivered|)
    && (forall x :: IsInlet(g, x) && Into(g, x) != {} ==> (x in isig <==> Into(g, x) * delivered != {}))
    && (forall x :: x in isig && Into(g, x) == {} ==> x.u in started)
  }

  /** Reference counts count holders, and the free list has every signal that nobody holds,
    once each. */
  ghost predicate PoolInv(g: Graph, st: State) {
    && (forall s: nat :: s < |st.pool.refcount| ==> st.pool.refcount[s] == |Holders(g, st, s)|)
    && PoolShape(st.pool)
    && (forall s: nat :: s < |st.pool.refcount| ==> (s in st.pool.free <==> Holders(g, st, s) == {} && !Pinned(st, s)))
  }

  ghost predicate Pinned(st: State, s: nat) {
    exists x :: x in st.pinned && x in st.osig && st.osig[x] == s
  }

  /** What has arrived at an inlet so far. */
  ghost function Arrived(g: Graph, scalars: set<Inlet>, st: State, x: Inlet): Bag {
    if Into(g, x) == {} then Wanted(g, scalars, x) else BagOf(Into(g, x) * st.delivered)
  }

  ghost predicate Holding(c: map<nat, Bag>, s: nat, b: Bag) {
    s in c && c[s] == b
  }

  /** What a holder expects to find in the signal it holds. */
  ghost function Needs(g: Graph, scalars: set<Inlet>, st: State, h: Holder): Bag {
    match h
    case ByConn(e) => multiset{FromOutlet(Src(e))}
    case ByInlet(x) => Arrived(g, scalars, st, x)
  }

  /** A box's outlets mean nothing before the box is on the chain. */
  ghost predicate Live(st: State, h: Holder) {
    h.ByConn? ==> h.e.u in Performed(st.chain)
  }

  ghost predicate OrderInv(g: Graph, scalars: set<Inlet>, chain: Chain, started: set<nat>) {
    && ChainOk(g, scalars, chain)
    && Ordered(g, Performed(chain))
    && (forall u :: u in Performed(chain) ==> u in started)
  }

  /** Every signal that somebody holds contains what that holder needs. */
  ghost predicate ContentInv(g: Graph, scalars: set<Inlet>, st: State) {
    forall h, s {:trigger Holds(st, h, s)} :: IsClaim(g, h) && Live(st, h) && Holds(st, h, s) ==>
      Holding(Contents(st.chain), s, Needs(g, scalars, st, h))
  }

  /** The signals of the box being scheduled differ from each other, and each is held only by
    its own outlet's connections. */
  ghost predicate FreshOuts(g: Graph, st: State) {
    && (forall x :: x in st.pinned ==> x in st.osig)
    && (forall x :: x in st.osig && x.u !in Performed(st.chain) ==> x in st.pinned)
    && (forall x, y :: x in st.pinned && y in st.pinned && x != y ==> st.osig[x] != st.osig[y])
    && OwnHolders(g, st)
  }

  ghost predicate OwnHolders(g: Graph, st: State)
    requires forall x :: x in st.pinned ==> x in st.osig
  {
    forall x, h :: x in st.pinned && IsClaim(g, h) && Holds(st, h, st.osig[x]) ==> h.ByConn? && Src(h.e) == x
  }

  ghost predicate Inv(g: Graph, scalars: set<Inlet>, st: State) {
    && Wf(g) && SigInv(g, st) && FlowInv(g, st) && PoolInv(g, st) && FreshOuts(g, st)
    && OrderInv(g, scalars, st.chain, st.started) && ContentInv(g, scalars, st)
  }

  // ---------------------------------------------------------------------------------------
  // Counting holders
  // ---------------------------------------------------------------------------------------

  lemma SameHolders(g: Graph, st: State, st': State, s: nat)
    requires forall h :: IsClaim(g, h) ==> (Holds(st', h, s) <==> Holds(st, h, s))
    ensures Holders(g, st', s) == Holders(g, st, s)
  {
    ClaimsAre(g);
  }

  lemma LoseHolder(g: Graph, st: State, st': State, s: nat, h0: Holder)
    requires IsClaim(g, h0) && Holds(st, h0, s)
    requires forall h :: IsClaim(g, h) ==> (Holds(st', h, s) <==> Holds(st, h, s) && h != h0)
    ensures Holders(g, st', s) == Holders(g, st, s) - {h0}
    ensures |Holders(g, st', s)| == |Holders(g, st, s)| - 1
  {
    ClaimsAre(g);
    assert Holders(g, st', s) == Holders(g, st, s) - {h0};
    assert h0 in Holders(g, st, s);
  }

  lemma GainHolder(g: Graph, st: State, st': State, s: nat, h0: Holder)
    requires IsClaim(g, h0) && !Holds(st, h0, s)
    requires forall h :: IsClaim(g, h) ==> (Holds(st', h, s) <==> Holds(st, h, s) || h == h0)
    ensures Holders(g, st', s) == Holders(g, st, s) + {h0}
    ensures |Holders(g, st', s)| == |Holders(g, st, s)| + 1
  {
    ClaimsAre(g);
    assert Holders(g, st', s) == Holders(g, st, s) + {h0};
  }

  lemma SwapHolder(g: Graph, st: State, st': State, s: nat, h1: Holder, h2: Holder)
    requires IsClaim(g, h1) && IsClaim(g, h2) && Holds(st, h1, s) && !Holds(st, h2, s)
    requires forall h :: IsClaim(g, h) ==> (Holds(st', h, s) <==> (Holds(st, h, s) && h != h1) || h == h2)
    ensures |Holders(g, st', s)| == |Holders(g, st, s)| && Holders(g, st', s) != {} && Holders(g, st, s) != {}
  {
    ClaimsAre(g);
    assert Holders(g, st', s) == Holders(g, st, s) - {h1} + {h2};
    assert h1 in Holders(g, st, s) && h2 in Holders(g, st', s);
  }

  lemma LoseHolders(g: Graph, st: State, st': State, s: nat, gone: set<Holder>)
    requires forall h :: h in gone ==> IsClaim(g, h) && Holds(st, h, s)
    requires forall h :: IsClaim(g, h) ==> (Holds(st', h, s) <==> Holds(st, h, s) && h !in gone)
    ensures |Holders(g, st', s)| == |Holders(g, st, s)| - |gone|
  {
    ClaimsAre(g);
    assert Holders(g, st', s) == Holders(g, st, s) - gone;
    assert gone <= Holders(g, st, s);
  }

  lemma NobodyHolds(g: Graph, st: State, s: nat)
    ensures Holders(g, st, s) == {} <==> forall h :: IsClaim(g, h) ==> !Holds(st, h, s)
    ensures Holders(g, st, s) == {} <==> |Holders(g, st, s)| == 0
  {
    ClaimsAre(g);
    if h :| h in Claims(g) && Holds(st, h, s) { assert h in Holders(g, st, s); }
  }

  ghost predicate PoolShape(p: Pool) {
    NoDup(p.free) && forall s :: s in p.free ==> s < |p.refcount|
  }

  lemma TakeShape(p: Pool, n: int)
    requires PoolShape(p)
    ensures PoolShape(p.Take(n))
    ensures forall s :: s in p.Take(n).free <==> s in p.free && s != p.Fresh()
    ensures |p.Take(n).refcount| == if p.free == [] then |p.refcount| + 1 else |p.refcount|
    ensures p.Fresh() < |p.Take(n).refcount| && p.Take(n).refcount[p.Fresh()] == n
    ensures forall s: nat :: s < |p.refcount| && s != p.Fresh() ==> p.Take(n).refcount[s] == p.refcount[s]
  {
    if p.free != [] {
      assert p.free == [p.free[0]] + p.free[1..];
      assert p.free[0] in p.free;
      assert forall s :: s in p.free[1..] ==> s in p.free;
    }
  }

  /** The signal that signal_new returns is nobody's. */
  lemma FreshIsUnused(g: Graph, st: State)
    requires SigInv(g, st) && PoolInv(g, st)
    ensures var s := st.pool.Fresh();
      && s <= |st.pool.refcount| && !Pinned(st, s)
      && (forall h :: IsClaim(g, h) ==> !Holds(st, h, s))
      && (s == |st.pool.refcount| <==> st.pool.free == [])
      && PoolShape(st.pool)
  {
    var s := st.pool.Fresh();
    if st.pool.free != [] {
      assert s in st.pool.free;
      NobodyHolds(g, st, s);
    }
  }

  // ---------------------------------------------------------------------------------------
  // Unconnected inlets
  // ---------------------------------------------------------------------------------------

  /** Give an unconnected inlet a buffer that the chain will fill with the box's scalar, or
    with zeros. */
  function FillUnconnected(scalars: set<Inlet>, st: State, x: Inlet): State {
    var s := st.pool.Fresh();
    st.(pool := st.pool.Take(1), isig := st.isig[x := s],
        chain := st.chain + [if x in scalars then ScalarCopy(x, s) else Zero(s)])
  }

  lemma FillUnconnectedPool(g: Graph, scalars: set<Inlet>, st: State, x: Inlet)
    requires SigInv(g, st) && PoolInv(g, st)
    requires IsInlet(g, x) && x !in st.isig && x !in st.released
    ensures PoolInv(g, FillUnconnected(scalars, st, x))
  {
    hide Holders, Performed, Contents;
    var st' := FillUnconnected(scalars, st, x);
    var dst := st.pool.Fresh();
    FreshIsUnused(g, st);
    TakeShape(st.pool, 1);
    forall s: nat | s < |st'.pool.refcount|
      ensures st'.pool.refcount[s] == |Holders(g, st', s)|
      ensures s in st'.pool.free <==> Holders(g, st', s) == {} && !Pinned(st', s)
    {
      assert Pinned(st', s) == Pinned(st, s);
      if s == dst {
        NobodyHolds(g, st, s);
        GainHolder(g, st, st', s, ByInlet(x));
      } else {
        SameHolders(g, st, st', s);
      }
    }
  }

  lemma FillUnconnectedFresh(g: Graph, scalars: set<Inlet>, st: State, x: Inlet)
    requires SigInv(g, st) && PoolInv(g, st) && FreshOuts(g, st)
    ensures FreshOuts(g, FillUnconnected(scalars, st, x))
  {
    var st' := FillUnconnected(scalars, st, x);
    FreshIsUnused(g, st);
    assert st'.chain[..|st.chain|] == st.chain;
    forall y, h | y in st'.pinned && IsClaim(g, h) && Holds(st', h, st'.osig[y])
      ensures h.ByConn? && Src(h.e) == y
    {
      assert Pinned(st, st.osig[y]);
      assert Holds(st, h, st.osig[y]);
    }
  }

  lemma FillUnconnectedContent(g: Graph, scalars: set<Inlet>, st: State, x: Inlet)
    requires SigInv(g, st) && PoolInv(g, st) && OrderInv(g, scalars, st.chain, st.started) && ContentInv(g, scalars, st)
    requires Into(g, x) == {}
    ensures OrderInv(g, scalars, FillUnconnected(scalars, st, x).chain, st.started)
        && ContentInv(g, scalars, FillUnconnected(scalars, st, x))
  {
    hide Into, BagOf, PoolInv;
    var st' := FillUnconnected(scalars, st, x);
    FreshIsUnused(g, st);
    Append(g, scalars, st.chain, st'.chain[|st.chain|]);
    hide Contents, Performed, ChainOk, Ordered, IsClaim, SigInv;
    forall h, s | IsClaim(g, h) && Live(st', h) && Holds(st', h, s)
      ensures Holding(Contents(st'.chain), s, Needs(g, scalars, st', h))
    {
      if h != ByInlet(x) {
        assert Holds(st, h, s);
        ContentAt(g, scalars, st, h, s);
      }
    }
  }

  lemma FillUnconnectedFlow(g: Graph, scalars: set<Inlet>, st: State, x: Inlet)
    requires SigInv(g, st) && FlowInv(g, st) && IsInlet(g, x) && x.u in st.started && Into(g, x) == {}
    requires st.pool.Fresh() <= |st.pool.refcount|
    ensures SigInv(g, FillUnconnected(scalars, st, x)) && FlowInv(g, FillUnconnected(scalars, st, x))
  {
    hide CountInv, Contents;
    var st' := FillUnconnected(scalars, st, x);
    assert st'.chain[..|st.chain|] == st.chain;
    FillUnconnectedCounts(g, st, st', x);
  }

  lemma FillUnconnectedCounts(g: Graph, st: State, st': State, x: Inlet)
    requires CountInv(g, st.ngot, st.isig, st.delivered, st.started) && x.u in st.started && Into(g, x) == {}
    requires st'.ngot == st.ngot && st'.delivered == st.delivered && st'.started == st.started
    requires st'.isig.Keys == st.isig.Keys + {x}
    ensures CountInv(g, st'.ngot, st'.isig, st'.delivered, st'.started)
  {
    hide Into;
    assert forall y :: y in st'.isig <==> y in st.isig || y == x;
  }

  lemma FillUnconnectedKeeps(g: Graph, scalars: set<Inlet>, st: State, x: Inlet)
    requires Inv(g, scalars, st)
    requires IsInlet(g, x) && x.u in st.started && Into(g, x) == {} && x !in st.isig && x !in st.released
    ensures Inv(g, scalars, FillUnconnected(scalars, st, x))
  {
    hide PoolInv, ContentInv, OrderInv, CountInv;
    FreshIsUnused(g, st);
    FillUnconnectedPool(g, scalars, st, x);
    FillUnconnectedFresh(g, scalars, st, x);
    FillUnconnectedContent(g, scalars, st, x);
    FillUnconnectedFlow(g, scalars, st, x);
  }

  lemma FillShape(scalars: set<Inlet>, st: State, x: Inlet)
    ensures Performed(FillUnconnected(scalars, st, x).chain) == Performed(st.chain)
    ensures FillUnconnected(scalars, st, x).isig.Keys == st.isig.Keys + {x}
  {
    var st' := FillUnconnected(scalars, st, x);
    assert st'.chain[..|st.chain|] == st.chain;
  }

  // ---------------------------------------------------------------------------------------
  // A box takes its inputs
  // ---------------------------------------------------------------------------------------

  /** The box of inlet x takes the inlet's signal, which is freed once nobody else waits for it. */
  function Release(st: State, x: Inlet): State
    requires x in st.isig && st.isig[x] < |st.pool.refcount|
  {
    st.(pool := st.pool.Count(st.isig[x], -1).GiveIfUnused(st.isig[x]), released := st.released + {x})
  }

  lemma ReleasePool(g: Graph, st: State, x: Inlet)
    requires SigInv(g, st) && PoolInv(g, st) && FreshOuts(g, st)
    requires x in st.isig && x !in st.released
    ensures PoolInv(g, Release(st, x))
  {
    hide Holders, Performed, Contents;
    var st' := Release(st, x);
    var s0 := st.isig[x];
    assert Holds(st, ByInlet(x), s0) && IsClaim(g, ByInlet(x));
    forall s: nat | s < |st'.pool.refcount|
      ensures st'.pool.refcount[s] == |Holders(g, st', s)|
      ensures s in st'.pool.free <==> Holders(g, st', s) == {} && !Pinned(st', s)
    {
      assert Pinned(st', s) == Pinned(st, s);
      if s == s0 {
        LoseHolder(g, st, st', s, ByInlet(x));
        NobodyHolds(g, st, s);
        NobodyHolds(g, st', s);
      } else {
        SameHolders(g, st, st', s);
      }
    }
  }

  /** Fewer holders, same contents. */
  lemma ReleaseContent(g: Graph, scalars: set<Inlet>, st: State, st': State)
    requires ContentInv(g, scalars, st)
    requires st' == st.(pool := st'.pool, released := st'.released) && st.released <= st'.released
    ensures ContentInv(g, scalars, st')
  {
    hide Contents, Performed, BagOf, Into;
    forall h, s | IsClaim(g, h) && Live(st', h) && Holds(st', h, s)
      ensures Holding(Contents(st'.chain), s, Needs(g, scalars, st', h))
    {
      assert Holds(st, h, s) && Live(st, h);
      assert Needs(g, scalars, st', h) == Needs(g, scalars, st, h);
    }
  }

  lemma ReleaseFresh(g: Graph, st: State, st': State)
    requires FreshOuts(g, st)
    requires st' == st.(pool := st'.pool, released := st'.released) && st.released <= st'.released
    ensures FreshOuts(g, st')
  {
    forall y, h | y in st'.pinned && IsClaim(g, h) && Holds(st', h, st'.osig[y])
      ensures h.ByConn? && Src(h.e) == y
    {
      assert Holds(st, h, st.osig[y]);
    }
  }

  lemma ReleaseKeeps(g: Graph, scalars: set<Inlet>, st: State, x: Inlet)
    requires Inv(g, scalars, st)
    requires x in st.isig && x.u in st.started && x !in st.released
    ensures Inv(g, scalars, Release(st, x))
  {
    hide PoolInv, ContentInv, OrderInv, CountInv;
    ReleasePool(g, st, x);
    ReleaseContent(g, scalars, st, Release(st, x));
    ReleaseFresh(g, st, Release(st, x));
  }

  // ---------------------------------------------------------------------------------------
  // Outlet signals for a box about to be scheduled
  // ---------------------------------------------------------------------------------------

  /** A signal for outlet x, counted for its n connections. */
  function NewOutlet(st: State, x: Outlet, n: nat): State {
    st.(pool := st.pool.Take(n), osig := st.osig[x := st.pool.Fresh()], pinned := st.pinned + {x})
  }

  lemma {:induction false} CountEdges(x: Outlet, n: nat, es: set<Holder>)
    requires forall h :: h in es <==> h.ByConn? && Src(h.e) == x && h.e.k < n
    ensures |es| == n
    decreases n
  {
    if n == 0 {
      assert es == {};
    } else {
      var h := ByConn(Edge(x.u, x.o, n - 1));
      assert h in es;
      CountEdges(x, n - 1, es - {h});
    }
  }

  lemma NewOutletHolders(g: Graph, st: State, x: Outlet, n: nat)
    requires IsOutlet(g, x) && n == |g[x.u].outs[x.o]|
    requires forall h :: IsClaim(g, h) ==> !Holds(st, h, st.pool.Fresh())
    requires forall e :: e in st.delivered ==> Src(e) != x
    ensures |Holders(g, NewOutlet(st, x, n), st.pool.Fresh())| == n
  {
    var st' := NewOutlet(st, x, n);
    var dst := st.pool.Fresh();
    ClaimsAre(g);
    forall h
      ensures h in Holders(g, st', dst) <==> h.ByConn? && Src(h.e) == x && h.e.k < n
    {
      if IsClaim(g, h) { assert !Holds(st, h, dst); }
    }
    CountEdges(x, n, Holders(g, st', dst));
  }

  lemma NewOutletPool(g: Graph, st: State, x: Outlet)
    requires SigInv(g, st) && FlowInv(g, st) && PoolInv(g, st)
    requires IsOutlet(g, x) && x !in st.osig
    ensures PoolInv(g, NewOutlet(st, x, |g[x.u].outs[x.o]|))
  {
    hide Performed, Contents, Target, Holders, CountInv;
    var n := |g[x.u].outs[x.o]|;
    var st' := NewOutlet(st, x, n);
    var dst := st.pool.Fresh();
    FreshIsUnused(g, st);
    TakeShape(st.pool, n);
    NewOutletHolders(g, st, x, n);
    assert Pinned(st', dst) by { assert st'.osig[x] == dst; }
    forall s: nat | s < |st'.pool.refcount| && s != dst
      ensures st'.pool.refcount[s] == |Holders(g, st', s)|
      ensures s in st'.pool.free <==> Holders(g, st', s) == {} && !Pinned(st', s)
    {
      assert Pinned(st, s) ==> Pinned(st', s);
      assert Pinned(st', s) == Pinned(st, s);
      SameHolders(g, st, st', s);
    }
  }

  lemma NewOutletOwn(g: Graph, st: State, x: Outlet, n: nat)
    requires forall y :: y in st.pinned ==> y in st.osig && y != x
    requires OwnHolders(g, st)
    requires forall y :: y in st.pinned ==> st.osig[y] != st.pool.Fresh()
    requires forall h :: IsClaim(g, h) ==> !Holds(st, h, st.pool.Fresh())
    ensures OwnHolders(g, NewOutlet(st, x, n))
  {
    var st' := NewOutlet(st, x, n);
    forall y, h | y in st'.pinned && IsClaim(g, h) && Holds(st', h, st'.osig[y]) && !(h.ByConn? && Src(h.e) == x)
      ensures h.ByConn? && Src(h.e) == y
    {
      assert Holds(st, h, st'.osig[y]);
    }
  }

  lemma NewOutletFresh(g: Graph, st: State, x: Outlet, n: nat)
    requires SigInv(g, st) && PoolInv(g, st) && FreshOuts(g, st)
    requires x !in st.osig
    ensures FreshOuts(g, NewOutlet(st, x, n))
  {
    FreshIsUnused(g, st);
    PinnedDiffer(st, x);
    NewOutletOwn(g, st, x, n);
  }

  lemma PinnedDiffer(st: State, x: Outlet)
    requires x !in st.osig && !Pinned(st, st.pool.Fresh())
    requires forall x :: x in st.pinned ==> x in st.osig
    ensures forall y :: y in st.pinned ==> y != x && st.osig[y] != st.pool.Fresh()
  {
    forall y | y in st.pinned
      ensures y != x && st.osig[y] != st.pool.Fresh()
    {
      assert Pinned(st, st.osig[y]);
    }
  }

  lemma NewOutletContent(g: Graph, scalars: set<Inlet>, st: State, x: Outlet, n: nat)
    requires ContentInv(g, scalars, st) && x.u !in Performed(st.chain)
    ensures ContentInv(g, scalars, NewOutlet(st, x, n))
  {
    var st' := NewOutlet(st, x, n);
    forall h, s | IsClaim(g, h) && Live(st', h) && Holds(st', h, s)
      ensures Holding(Contents(st'.chain), s, Needs(g, scalars, st', h))
    {
      assert Holds(st, h, s);
    }
  }

  lemma NewOutletKeeps(g: Graph, scalars: set<Inlet>, st: State, x: Outlet)
    requires Inv(g, scalars, st)
    requires IsOutlet(g, x) && x.u in st.started && x.u !in Performed(st.chain) && x !in st.osig
    ensures Inv(g, scalars, NewOutlet(st, x, |g[x.u].outs[x.o]|))
  {
    hide PoolInv, ContentInv, OrderInv, CountInv;
    FreshIsUnused(g, st);
    TakeShape(st.pool, |g[x.u].outs[x.o]|);
    NewOutletPool(g, st, x);
    NewOutletFresh(g, st, x, |g[x.u].outs[x.o]|);
    NewOutletContent(g, scalars, st, x, |g[x.u].outs[x.o]|);
  }

  // ---------------------------------------------------------------------------------------
  // The box goes on the chain
  // ---------------------------------------------------------------------------------------

  function PutOnChain(st: State, u: nat, ins: seq<nat>, outs: seq<nat>): State {
    st.(chain := st.chain + [Perform(u, ins, outs)])
  }

  /** The box has all its signals, and its input buffers contain what its inlets want. */
  ghost predicate ReadyToPut(g: Graph, scalars: set<Inlet>, st: State, u: nat, ins: seq<nat>, outs: seq<nat>) {
    && u < |g| && u in st.started && u !in Performed(st.chain)
    && |ins| == g[u].nin && |outs| == |g[u].outs|
    && (forall k :: 0 <= k < |ins| ==> Holding(Contents(st.chain), ins[k], Wanted(g, scalars, Inlet(u, k))))
    && (forall o: nat {:trigger Outlet(u, o)} :: o < |outs| ==>
        Outlet(u, o) in st.osig && st.osig[Outlet(u, o)] == outs[o])
    && (forall x :: x in st.pinned ==> x.u == u)
  }

  lemma PutOrder(g: Graph, scalars: set<Inlet>, st: State, u: nat, ins: seq<nat>, outs: seq<nat>)
    requires FlowInv(g, st) && OrderInv(g, scalars, st.chain, st.started) && FreshOuts(g, st)
        && ReadyToPut(g, scalars, st, u, ins, outs)
    ensures NoDup(outs)
    ensures OrderInv(g, scalars, PutOnChain(st, u, ins, outs).chain, st.started)
    ensures Performed(PutOnChain(st, u, ins, outs).chain) == Performed(st.chain) + [u]
    ensures Contents(PutOnChain(st, u, ins, outs).chain) == StepContents(Contents(st.chain), Perform(u, ins, outs))
  {
    forall i, j | 0 <= i < j < |outs|
      ensures outs[i] != outs[j]
    {
      assert Outlet(u, i) in st.pinned && Outlet(u, j) in st.pinned;
    }
    Append(g, scalars, st.chain, Perform(u, ins, outs));
    var order, order' := Performed(st.chain), Performed(st.chain) + [u];
    forall i: nat, a: nat | i < |order'| && Feeds(g, a, order'[i])
      ensures a in order'[..i]
    {
      if i < |order| {
        assert order'[..i] == order[..i];
      } else {
        var e: Edge :| IsEdge(g, e) && e.u == a && Target(g, e).u == u;
        assert e in st.delivered;
        assert order'[..i] == order;
      }
    }
  }

  lemma ContentAt(g: Graph, scalars: set<Inlet>, st: State, h: Holder, s: nat)
    requires ContentInv(g, scalars, st) && IsClaim(g, h) && Live(st, h) && Holds(st, h, s)
    ensures Holding(Contents(st.chain), s, Needs(g, scalars, st, h))
  {
  }

  /** Who holds a signal of the box being put is a connection from that very outlet. */
  lemma OwnOutlet(g: Graph, scalars: set<Inlet>, st: State, u: nat, ins: seq<nat>, outs: seq<nat>, h: Holder, o: nat)
    requires FreshOuts(g, st) && ReadyToPut(g, scalars, st, u, ins, outs)
    requires o < |outs| && IsClaim(g, h) && Holds(st, h, outs[o])
    ensures h.ByConn? && Src(h.e) == Outlet(u, o)
  {
    hide Contents, IsClaim, Holds;
    var x := Outlet(u, o);
    assert x in st.osig && st.osig[x] == outs[o];
    assert x in st.pinned;
  }

  /** A holder that comes alive with the box being put holds one of its signals. */
  lemma AliveBefore(g: Graph, scalars: set<Inlet>, st: State, u: nat, ins: seq<nat>, outs: seq<nat>, h: Holder, s: nat)
    requires ReadyToPut(g, scalars, st, u, ins, outs) && IsClaim(g, h) && Holds(st, h, s) && s !in outs
    requires h.ByConn? ==> h.e.u in Performed(st.chain) + [u]
    ensures Live(st, h)
  {
    hide Contents, Performed;
    if h.ByConn? && h.e.u == u { assert false; }
  }

  lemma PutContent(g: Graph, scalars: set<Inlet>, st: State, u: nat, ins: seq<nat>, outs: seq<nat>)
    requires FlowInv(g, st) && OrderInv(g, scalars, st.chain, st.started) && FreshOuts(g, st)
        && ContentInv(g, scalars, st)
    requires ReadyToPut(g, scalars, st, u, ins, outs)
    ensures ContentInv(g, scalars, PutOnChain(st, u, ins, outs))
  {
    PutOrder(g, scalars, st, u, ins, outs);
    PutAllAt(Contents(st.chain), outs, OutletBags(u, |outs|));
    var st' := PutOnChain(st, u, ins, outs);
    hide Contents, Performed, IsClaim, ReadyToPut, FreshOuts, FlowInv, OrderInv;
    forall h, s | IsClaim(g, h) && Live(st', h) && Holds(st', h, s)
      ensures Holding(Contents(st'.chain), s, Needs(g, scalars, st', h))
    {
      assert Holds(st, h, s);
      if o: nat :| o < |outs| && outs[o] == s {
        OwnOutlet(g, scalars, st, u, ins, outs, h, o);
      } else {
        AliveBefore(g, scalars, st, u, ins, outs, h, s);
        ContentAt(g, scalars, st, h, s);
      }
    }
  }

  lemma PutPool(g: Graph, st: State, u: nat, ins: seq<nat>, outs: seq<nat>)
    requires PoolInv(g, st) && SigInv(g, st)
    ensures PoolInv(g, PutOnChain(st, u, ins, outs)) && SigInv(g, PutOnChain(st, u, ins, outs))
  {
    var st' := PutOnChain(st, u, ins, outs);
    forall s: nat | s < |st'.pool.refcount|
      ensures st'.pool.refcount[s] == |Holders(g, st', s)|
      ensures s in st'.pool.free <==> Holders(g, st', s) == {} && !Pinned(st', s)
    {
      assert Pinned(st', s) == Pinned(st, s);
      SameHolders(g, st, st', s);
    }
  }

  lemma PutFresh(g: Graph, st: State, u: nat, ins: seq<nat>, outs: seq<nat>)
    requires FreshOuts(g, st)
    ensures FreshOuts(g, PutOnChain(st, u, ins, outs))
  {
    var st' := PutOnChain(st, u, ins, outs);
    assert st'.chain[..|st.chain|] == st.chain;
    forall y, h | y in st'.pinned && IsClaim(g, h) && Holds(st', h, st'.osig[y])
      ensures h.ByConn? && Src(h.e) == y
    {
      assert Holds(st, h, st.osig[y]);
    }
  }

  lemma PutKeeps(g: Graph, scalars: set<Inlet>, st: State, u: nat, ins: seq<nat>, outs: seq<nat>)
    requires Inv(g, scalars, st) && ReadyToPut(g, scalars, st, u, ins, outs)
    ensures Inv(g, scalars, PutOnChain(st, u, ins, outs))
    ensures Performed(PutOnChain(st, u, ins, outs).chain) == Performed(st.chain) + [u]
  {
    hide PoolInv, ContentInv, OrderInv, CountInv;
    PutOrder(g, scalars, st, u, ins, outs);
    PutContent(g, scalars, st, u, ins, outs);
    PutPool(g, st, u, ins, outs);
    PutFresh(g, st, u, ins, outs);
    assert FlowInv(g, PutOnChain(st, u, ins, outs));
  }

  // ---------------------------------------------------------------------------------------
  // Outlet signals without connections
  // ---------------------------------------------------------------------------------------

  /** After its box is on the chain, an outlet's signal is freed if nothing is connected. */
  function Settle(st: State, x: Outlet): State
    requires x in st.osig && st.osig[x] < |st.pool.refcount|
  {
    st.(pool := st.pool.GiveIfUnused(st.osig[x]), pinned := st.pinned - {x})
  }

  lemma SettlePool(g: Graph, st: State, x: Outlet)
    requires SigInv(g, st) && PoolInv(g, st) && FreshOuts(g, st) && x in st.pinned
    ensures PoolInv(g, Settle(st, x))
  {
    hide Holders, Performed, Contents;
    var st' := Settle(st, x);
    var s0 := st.osig[x];
    forall s: nat | s < |st'.pool.refcount|
      ensures st'.pool.refcount[s] == |Holders(g, st', s)|
      ensures s in st'.pool.free <==> Holders(g, st', s) == {} && !Pinned(st', s)
    {
      SameHolders(g, st, st', s);
      if s == s0 {
        NobodyHolds(g, st, s);
        assert Pinned(st, s) && !Pinned(st', s);
      } else {
        assert Pinned(st', s) == Pinned(st, s);
      }
    }
  }

  lemma SettleKeeps(g: Graph, scalars: set<Inlet>, st: State, x: Outlet)
    requires Inv(g, scalars, st) && x in st.pinned && x.u in Performed(st.chain)
    ensures Inv(g, scalars, Settle(st, x))
  {
    hide PoolInv, ContentInv, OrderInv, CountInv;
    SettlePool(g, st, x);
    SettleContent(g, scalars, st, x);
    SettleFresh(g, st, x);
  }

  lemma SettleContent(g: Graph, scalars: set<Inlet>, st: State, x: Outlet)
    requires ContentInv(g, scalars, st) && x in st.osig && st.osig[x] < |st.pool.refcount|
    ensures ContentInv(g, scalars, Settle(st, x))
  {
    var st' := Settle(st, x);
    forall h, s | IsClaim(g, h) && Live(st', h) && Holds(st', h, s)
      ensures Holding(Contents(st'.chain), s, Needs(g, scalars, st', h))
    {
      assert Holds(st, h, s) && Live(st, h);
    }
  }

  lemma SettleFresh(g: Graph, st: State, x: Outlet)
    requires FreshOuts(g, st) && x in st.osig && x.u in Performed(st.chain) && st.osig[x] < |st.pool.refcount|
    ensures FreshOuts(g, Settle(st, x))
  {
    var st' := Settle(st, x);
    forall y, h | y in st'.pinned && IsClaim(g, h) && Holds(st', h, st'.osig[y])
      ensures h.ByConn? && Src(h.e) == y
    {
      assert Holds(st, h, st.osig[y]);
    }
  }

  // ---------------------------------------------------------------------------------------
  // Delivering a connection
  // ---------------------------------------------------------------------------------------

  /** Connection e of a box on the chain is about to reach inlet x of a box not yet started. */
  ghost predicate Deliverable(g: Graph, st: State, e: Edge, x: Inlet) {
    && IsEdge(g, e) && x == Target(g, e) && IsInlet(g, x)
    && e !in st.delivered && Src(e) in st.osig && e.u in Performed(st.chain)
    && x.u !in st.started && st.pinned == {}
  }

  /** The first signal to reach an inlet simply waits there. */
  function DeliverFirst(st: State, e: Edge, x: Inlet): State
    requires Src(e) in st.osig && x in st.ngot
  {
    st.(isig := st.isig[x := st.osig[Src(e)]], ngot := st.ngot[x := st.ngot[x] + 1], delivered := st.delivered + {e})
  }

  /** A further signal is added to the one already there; the sum waits in their place. */
  function DeliverMore(st: State, e: Edge, x: Inlet): State
    requires Src(e) in st.osig && x in st.ngot && x in st.isig
    requires st.osig[Src(e)] < |st.pool.refcount| && st.isig[x] < |st.pool.refcount|
  {
    var s1, s2, s3 := st.osig[Src(e)], st.isig[x], st.pool.Fresh();
    var counted := st.pool.Count(s1, -1).Count(s2, -1).Take(1);
    st.(pool := counted.GiveIfUnused(s1).GiveIfUnused(s2),
        chain := st.chain + [Plus(s1, s2, s3)],
        isig := st.isig[x := s3], ngot := st.ngot[x := st.ngot[x] + 1], delivered := st.delivered + {e})
  }

  function Deliver(st: State, e: Edge, x: Inlet): State
    requires Src(e) in st.osig && x in st.ngot
    requires st.osig[Src(e)] < |st.pool.refcount| && (x in st.isig ==> st.isig[x] < |st.pool.refcount|)
  {
    if x in st.isig then DeliverMore(st, e, x) else DeliverFirst(st, e, x)
  }

  /** Delivering e adds e to what has arrived at its own inlet and nothing elsewhere. */
  lemma ArriveOne(g: Graph, scalars: set<Inlet>, st: State, st': State, e: Edge, x: Inlet)
    requires Deliverable(g, st, e, x) && st'.delivered == st.delivered + {e}
    ensures Into(g, x) * st'.delivered == Into(g, x) * st.delivered + {e}
    ensures |Into(g, x) * st'.delivered| == |Into(g, x) * st.delivered| + 1
    ensures Arrived(g, scalars, st', x) == BagOf(Into(g, x) * st.delivered) + multiset{FromOutlet(Src(e))}
    ensures forall y :: y != x ==> Into(g, y) * st'.delivered == Into(g, y) * st.delivered
  {
    assert e in Into(g, x);
    assert Into(g, x) * st'.delivered == Into(g, x) * st.delivered + {e};
    BagOfAdd(Into(g, x) * st.delivered, e);
    forall y | y != x
      ensures Into(g, y) * st'.delivered == Into(g, y) * st.delivered
    {
    }
  }

  lemma DeliverCountAt(g: Graph, st: State, st': State, e: Edge, x: Inlet, y: Inlet)
    requires Deliverable(g, st, e, x) && st'.delivered == st.delivered + {e}
    ensures |Into(g, y) * st'.delivered| == |Into(g, y) * st.delivered| + if y == x then 1 else 0
    ensures Into(g, y) * st'.delivered != {} <==> Into(g, y) * st.delivered != {} || y == x
    ensures Into(g, x) != {}
  {
    ArriveOne(g, {}, st, st', e, x);
    assert e in Into(g, x);
    assert e in Into(g, x) * st'.delivered;
  }

  lemma DeliverCounts(g: Graph, st: State, st': State, e: Edge, x: Inlet)
    requires CountInv(g, st.ngot, st.isig, st.delivered, st.started) && Deliverable(g, st, e, x)
    requires st'.delivered == st.delivered + {e} && x in st.ngot && st'.ngot == st.ngot[x := st.ngot[x] + 1]
    requires st'.isig.Keys == st.isig.Keys + {x} && st'.started == st.started
    ensures CountInv(g, st'.ngot, st'.isig, st'.delivered, st'.started)
  {
    hide Into, Performed;
    assert forall y :: y in st'.isig <==> y in st.isig || y == x;
    forall y
      ensures IsInlet(g, y) ==> y in st'.ngot && st'.ngot[y] == |Into(g, y) * st'.delivered|
      ensures IsInlet(g, y) && Into(g, y) != {} ==> (y in st'.isig <==> Into(g, y) * st'.delivered != {})
      ensures y in st'.isig && Into(g, y) == {} ==> y.u in st'.started
    {
      DeliverCountAt(g, st, st', e, x, y);
    }
  }

  lemma DeliverFlow(g: Graph, st: State, st': State, e: Edge, x: Inlet)
    requires ReachInv(g, st) && Deliverable(g, st, e, x)
    requires Performed(st'.chain) == Performed(st.chain) && st'.osig == st.osig
    requires st'.delivered == st.delivered + {e} && st'.started == st.started && st'.released == st.released
    ensures ReachInv(g, st')
  {
  }

  lemma DeliverFirstPool(g: Graph, st: State, e: Edge, x: Inlet)
    requires SigInv(g, st) && PoolInv(g, st) && Deliverable(g, st, e, x) && x in st.ngot
    requires x !in st.isig && x !in st.released
    ensures PoolInv(g, DeliverFirst(st, e, x))
  {
    var st' := DeliverFirst(st, e, x);
    var s1 := st.osig[Src(e)];
    forall s: nat | s < |st'.pool.refcount|
      ensures st'.pool.refcount[s] == |Holders(g, st', s)|
      ensures s in st'.pool.free <==> Holders(g, st', s) == {} && !Pinned(st', s)
    {
      if s == s1 {
        SwapHolder(g, st, st', s, ByConn(e), ByInlet(x));
      } else {
        SameHolders(g, st, st', s);
      }
    }
  }

  lemma DeliverFirstContent(g: Graph, scalars: set<Inlet>, st: State, e: Edge, x: Inlet)
    requires ContentInv(g, scalars, st) && Deliverable(g, st, e, x) && x in st.ngot
    requires Into(g, x) * st.delivered == {} && x !in st.isig
    ensures ContentInv(g, scalars, DeliverFirst(st, e, x))
  {
    var st' := DeliverFirst(st, e, x);
    ArriveOne(g, scalars, st, st', e, x);
    forall h, s | IsClaim(g, h) && Live(st', h) && Holds(st', h, s)
      ensures Holding(Contents(st'.chain), s, Needs(g, scalars, st', h))
    {
      if h == ByInlet(x) {
        assert Holds(st, ByConn(e), s) && IsClaim(g, ByConn(e)) && Live(st, ByConn(e));
      } else {
        assert Holds(st, h, s) && Live(st, h);
      }
    }
  }

  lemma GiveTwo(p: Pool, s1: nat, s2: nat)
    requires PoolShape(p) && s1 < |p.refcount| && s2 < |p.refcount|
    ensures var q := p.GiveIfUnused(s1).GiveIfUnused(s2);
      && PoolShape(q) && q.refcount == p.refcount
      && (forall s :: s in q.free <==> s in p.free || ((s == s1 || s == s2) && p.refcount[s] == 0))
  {
  }

  /** The pool step of adding two signals. */
  lemma MorePool(p: Pool, s1: nat, s2: nat)
    requires PoolShape(p) && s1 < |p.refcount| && s2 < |p.refcount| && s1 !in p.free && s2 !in p.free
    ensures var q := p.Count(s1, -1).Count(s2, -1).Take(1).GiveIfUnused(s1).GiveIfUnused(s2);
      && PoolShape(q) && |q.refcount| >= |p.refcount| && p.Fresh() < |q.refcount| <= |p.refcount| + 1
      && q.refcount[p.Fresh()] == 1 && p.Fresh() !in q.free
      && (p.free != [] ==> |q.refcount| == |p.refcount|)
      && (forall s: nat :: s < |p.refcount| && s != p.Fresh() ==>
            && q.refcount[s] == p.refcount[s] - (if s == s1 then 1 else 0) - (if s == s2 then 1 else 0)
            && (s in q.free <==> s in p.free || ((s == s1 || s == s2) && q.refcount[s] == 0)))
  {
    var c := p.Count(s1, -1).Count(s2, -1);
    TakeShape(c, 1);
    GiveTwo(c.Take(1), s1, s2);
    if p.free != [] { assert p.free[0] in p.free; }
  }

  lemma DeliverMorePool(g: Graph, st: State, e: Edge, x: Inlet)
    requires SigInv(g, st) && PoolInv(g, st) && Deliverable(g, st, e, x) && x in st.ngot
    requires x in st.isig && x !in st.released
    ensures PoolInv(g, DeliverMore(st, e, x))
  {
    var st' := DeliverMore(st, e, x);
    var s1, s2 := st.osig[Src(e)], st.isig[x];
    TwoHeld(g, st, e, x);
    MorePool(st.pool, s1, s2);
    hide Performed, Contents, StepContents, Holders, DeliverMore, Deliverable, SigInv;
    forall s: nat | s < |st'.pool.refcount|
      ensures st'.pool.refcount[s] == |Holders(g, st', s)|
      ensures s in st'.pool.free <==> Holders(g, st', s) == {} && !Pinned(st', s)
    {
      MoreAt(g, st, e, x, s);
    }
  }

  /** Both signals to be added are held, so neither is on the free list. */
  lemma TwoHeld(g: Graph, st: State, e: Edge, x: Inlet)
    requires SigInv(g, st) && PoolInv(g, st) && Deliverable(g, st, e, x) && x in st.isig && x !in st.released
    ensures st.osig[Src(e)] !in st.pool.free && st.isig[x] !in st.pool.free
  {
    hide Holders, Performed;
    var h1, h2 := ByConn(e), ByInlet(x);
    NobodyHolds(g, st, st.osig[Src(e)]);
    NobodyHolds(g, st, st.isig[x]);
    assert Holds(st, h1, st.osig[Src(e)]) && Holds(st, h2, st.isig[x]) && IsClaim(g, h1) && IsClaim(g, h2);
  }

  lemma MoreAt(g: Graph, st: State, e: Edge, x: Inlet, s: nat)
    requires SigInv(g, st) && PoolInv(g, st) && Deliverable(g, st, e, x) && x in st.ngot
    requires x in st.isig && x !in st.released && s < |DeliverMore(st, e, x).pool.refcount|
    ensures var st' := DeliverMore(st, e, x);
      && st'.pool.refcount[s] == |Holders(g, st', s)|
      && (s in st'.pool.free <==> Holders(g, st', s) == {} && !Pinned(st', s))
  {
    var st' := DeliverMore(st, e, x);
    hide Performed, Contents, StepContents, Holders, Holds;
    TwoHeld(g, st, e, x);
    MorePool(st.pool, st.osig[Src(e)], st.isig[x]);
    FreshIsUnused(g, st);
    assert !Pinned(st, s) && !Pinned(st', s);
    NobodyHolds(g, st', s);
    NobodyHolds(g, st, s);
    if s == st.pool.Fresh() {
      MoreGain(g, st, e, x);
    } else {
      MoreHolders(g, st, e, x, s);
    }
  }

  lemma MoreGain(g: Graph, st: State, e: Edge, x: Inlet)
    requires SigInv(g, st) && Deliverable(g, st, e, x) && x in st.ngot && x in st.isig && x !in st.released
    requires forall h :: IsClaim(g, h) ==> !Holds(st, h, st.pool.Fresh())
    ensures |Holders(g, DeliverMore(st, e, x), st.pool.Fresh())| == 1
  {
    hide Holders, Performed, Contents;
    NobodyHolds(g, st, st.pool.Fresh());
    GainHolder(g, st, DeliverMore(st, e, x), st.pool.Fresh(), ByInlet(x));
  }

  lemma MoreHold(g: Graph, st: State, e: Edge, x: Inlet, s: nat)
    requires SigInv(g, st) && Deliverable(g, st, e, x) && x in st.ngot && x in st.isig
    requires s != st.pool.Fresh()
    ensures forall h :: Holds(DeliverMore(st, e, x), h, s) <==> Holds(st, h, s) && h != ByConn(e) && h != ByInlet(x)
  {
    hide Performed, Contents;
  }

  lemma MoreHolders(g: Graph, st: State, e: Edge, x: Inlet, s: nat)
    requires SigInv(g, st) && Deliverable(g, st, e, x) && x in st.ngot && x in st.isig && x !in st.released
    requires s != st.pool.Fresh()
    ensures |Holders(g, DeliverMore(st, e, x), s)| ==
      |Holders(g, st, s)| - (if s == st.osig[Src(e)] then 1 else 0) - (if s == st.isig[x] then 1 else 0)
  {
    var h1, h2 := ByConn(e), ByInlet(x);
    var st' := DeliverMore(st, e, x);
    MoreHold(g, st, e, x, s);
    hide Holders, Performed, Contents, DeliverMore;
    var gone1 := if s == st.osig[Src(e)] then {h1} else {};
    var gone2 := if s == st.isig[x] then {h2} else {};
    assert |gone1 + gone2| == |gone1| + |gone2|;
    LoseHolders(g, st, st', s, gone1 + gone2);
  }

  lemma DeliverMoreOrder(g: Graph, scalars: set<Inlet>, st: State, e: Edge, x: Inlet)
    requires SigInv(g, st) && OrderInv(g, scalars, st.chain, st.started) && ContentInv(g, scalars, st)
    requires Deliverable(g, st, e, x) && x in st.ngot && x in st.isig && x !in st.released
    ensures OrderInv(g, scalars, DeliverMore(st, e, x).chain, st.started)
    ensures Performed(DeliverMore(st, e, x).chain) == Performed(st.chain)
    ensures Holding(Contents(st.chain), st.osig[Src(e)], multiset{FromOutlet(Src(e))})
    ensures Holding(Contents(st.chain), st.isig[x], Arrived(g, scalars, st, x))
    ensures Contents(DeliverMore(st, e, x).chain) ==
      Contents(st.chain)[st.pool.Fresh() := Arrived(g, scalars, st, x) + multiset{FromOutlet(Src(e))}]
  {
    var s1, s2, s3 := st.osig[Src(e)], st.isig[x], st.pool.Fresh();
    assert Holds(st, ByConn(e), s1) && Live(st, ByConn(e)) && IsClaim(g, ByConn(e));
    assert Holds(st, ByInlet(x), s2) && Live(st, ByInlet(x)) && IsClaim(g, ByInlet(x));
    Append(g, scalars, st.chain, Plus(s1, s2, s3));
    var b1, b2 := multiset{FromOutlet(Src(e))}, Arrived(g, scalars, st, x);
    assert b1 + b2 == b2 + b1;
  }

  lemma ConnectedIn(g: Graph, e: Edge, x: Inlet)
    requires IsEdge(g, e) && x == Target(g, e)
    ensures e in Into(g, x) && Into(g, x) != {}
  {
  }

  lemma DeliverMoreContent(g: Graph, scalars: set<Inlet>, st: State, st': State, e: Edge, x: Inlet, dst: nat)
    requires ContentInv(g, scalars, st) && Deliverable(g, st, e, x) && x in st.isig
    requires forall h :: IsClaim(g, h) ==> !Holds(st, h, dst)
    requires st'.delivered == st.delivered + {e} && st'.isig == st.isig[x := dst]
    requires st'.osig == st.osig && st'.released == st.released && Performed(st'.chain) == Performed(st.chain)
    requires Contents(st'.chain) == Contents(st.chain)[dst := Arrived(g, scalars, st, x) + multiset{FromOutlet(Src(e))}]
    ensures ContentInv(g, scalars, st')
  {
    hide Contents, Performed, BagOf, Into, IsClaim;
    ArriveOne(g, scalars, st, st', e, x);
    ConnectedIn(g, e, x);
    forall h, s | IsClaim(g, h) && Live(st', h) && Holds(st', h, s)
      ensures Holding(Contents(st'.chain), s, Needs(g, scalars, st', h))
    {
      if h != ByInlet(x) {
        assert Holds(st, h, s) && Live(st, h);
        ContentAt(g, scalars, st, h, s);
        assert Needs(g, scalars, st', h) == Needs(g, scalars, st, h);
      }
    }
  }

  lemma DeliverMoreKeeps(g: Graph, scalars: set<Inlet>, st: State, e: Edge, x: Inlet)
    requires SigInv(g, st) && PoolInv(g, st) && OrderInv(g, scalars, st.chain, st.started) && ContentInv(g, scalars, st)
    requires Deliverable(g, st, e, x) && x in st.ngot && x in st.isig && x !in st.released
    ensures PoolInv(g, DeliverMore(st, e, x))
    ensures OrderInv(g, scalars, DeliverMore(st, e, x).chain, st.started)
        && ContentInv(g, scalars, DeliverMore(st, e, x))
    ensures Performed(DeliverMore(st, e, x).chain) == Performed(st.chain)
  {
    FreshIsUnused(g, st);
    DeliverMorePool(g, st, e, x);
    DeliverMoreOrder(g, scalars, st, e, x);
    DeliverMoreContent(g, scalars, st, DeliverMore(st, e, x), e, x, st.pool.Fresh());
  }

  lemma DeliverFirstKeeps(g: Graph, scalars: set<Inlet>, st: State, e: Edge, x: Inlet)
    requires SigInv(g, st) && PoolInv(g, st) && OrderInv(g, scalars, st.chain, st.started) && ContentInv(g, scalars, st)
    requires Deliverable(g, st, e, x) && x in st.ngot && x !in st.isig && x !in st.released
    requires Into(g, x) * st.delivered == {}
    ensures PoolInv(g, DeliverFirst(st, e, x))
    ensures OrderInv(g, scalars, DeliverFirst(st, e, x).chain, st.started)
        && ContentInv(g, scalars, DeliverFirst(st, e, x))
  {
    DeliverFirstPool(g, st, e, x);
    DeliverFirstContent(g, scalars, st, e, x);
  }

  lemma DeliverAllowed(g: Graph, st: State, e: Edge, x: Inlet)
    requires SigInv(g, st) && FlowInv(g, st) && Deliverable(g, st, e, x)
    ensures x in st.ngot && x !in st.released && (x in st.isig ==> st.isig[x] < |st.pool.refcount|)
    ensures st.osig[Src(e)] < |st.pool.refcount|
    ensures x !in st.isig ==> Into(g, x) * st.delivered == {}
  {
    assert e in Into(g, x);
  }

  lemma DeliverKeeps(g: Graph, scalars: set<Inlet>, st: State, e: Edge, x: Inlet)
    requires Inv(g, scalars, st) && Deliverable(g, st, e, x)
    ensures x in st.ngot && (x in st.isig ==> st.isig[x] < |st.pool.refcount|)
    ensures st.osig[Src(e)] < |st.pool.refcount|
    ensures Inv(g, scalars, Deliver(st, e, x))
    ensures Performed(Deliver(st, e, x).chain) == Performed(st.chain)
  {
    hide PoolInv, ContentInv, OrderInv, CountInv;
    DeliverAllowed(g, st, e, x);
    if x in st.isig {
      DeliverMoreKeeps(g, scalars, st, e, x);
    } else {
      DeliverFirstKeeps(g, scalars, st, e, x);
    }
    DeliverShape(st, e, x);
    DeliverRest(g, st, Deliver(st, e, x), e, x);
    DeliverSig(g, st, e, x);
  }

  lemma DeliverShape(st: State, e: Edge, x: Inlet)
    requires Src(e) in st.osig && x in st.ngot
    requires st.osig[Src(e)] < |st.pool.refcount| && (x in st.isig ==> st.isig[x] < |st.pool.refcount|)
    ensures var st' := Deliver(st, e, x);
      && st'.delivered == st.delivered + {e} && st'.ngot == st.ngot[x := st.ngot[x] + 1]
      && st'.isig.Keys == st.isig.Keys + {x} && st'.started == st.started && st'.released == st.released
      && st'.osig == st.osig && st'.pinned == st.pinned
  {
  }

  lemma DeliverRest(g: Graph, st: State, st': State, e: Edge, x: Inlet)
    requires FlowInv(g, st) && FreshOuts(g, st) && Deliverable(g, st, e, x) && x in st.ngot
    requires st'.delivered == st.delivered + {e} && st'.ngot == st.ngot[x := st.ngot[x] + 1]
    requires st'.isig.Keys == st.isig.Keys + {x} && st'.started == st.started && st'.released == st.released
    requires Performed(st'.chain) == Performed(st.chain) && st'.osig == st.osig && st'.pinned == st.pinned
    ensures FlowInv(g, st') && FreshOuts(g, st')
  {
    DeliverCounts(g, st, st', e, x);
    DeliverFlow(g, st, st', e, x);
    DeliverFresh(g, st, st');
  }

  lemma DeliverFresh(g: Graph, st: State, st': State)
    requires FreshOuts(g, st) && st.pinned == {} == st'.pinned && st'.osig == st.osig
    requires Performed(st'.chain) == Performed(st.chain)
    ensures FreshOuts(g, st')
  {
  }

  lemma DeliverSig(g: Graph, st: State, e: Edge, x: Inlet)
    requires SigInv(g, st) && PoolInv(g, st) && Deliverable(g, st, e, x) && x in st.ngot
    ensures SigInv(g, Deliver(st, e, x))
  {
    FreshIsUnused(g, st);
    TakeShape(st.pool, 1);
  }
}
