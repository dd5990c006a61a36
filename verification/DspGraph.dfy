/** Signal graphs as the DSP sorter sees them, and what an exact sort of one is.

  Boxes and connections are numbered in the order in which they were added.  The C lists
  are newest-first, so a walk over one of them visits the numbers downwards. */
module DspGraph {

  datatype Inlet = Inlet(u: nat, i: nat)
  datatype Outlet = Outlet(u: nat, o: nat)

  /** One entry of an outlet's connection list: the box and signal inlet it leads to. */
  datatype Conn = Conn(who: nat, inno: nat)

  datatype Box = Box(nin: nat, outs: seq<seq<Conn>>)

  type Graph = seq<Box>

  /** The k-th connection made from outlet o of box u. */
  datatype Edge = Edge(u: nat, o: nat, k: nat)

  function Src(e: Edge): Outlet {
    Outlet(e.u, e.o)
  }

  predicate IsEdge(g: Graph, e: Edge) {
    e.u < |g| && e.o < |g[e.u].outs| && e.k < |g[e.u].outs[e.o]|
  }

  predicate IsInlet(g: Graph, x: Inlet) {
    x.u < |g| && x.i < g[x.u].nin
  }

  predicate IsOutlet(g: Graph, x: Outlet) {
    x.u < |g| && x.o < |g[x.u].outs|
  }

  function Target(g: Graph, e: Edge): Inlet
    requires IsEdge(g, e)
  {
    var c := g[e.u].outs[e.o][e.k];
    Inlet(c.who, c.inno)
  }

  /** Every connection leads to a signal inlet that exists. */
  ghost predicate Wf(g: Graph) {
    forall e: Edge {:trigger Target(g, e)} :: IsEdge(g, e) ==> IsInlet(g, Target(g, e))
  }

  function Edges(g: Graph): (es: set<Edge>)
    ensures forall e :: e in es <==> IsEdge(g, e)
  {
    set u, o, k | 0 <= u < |g| && 0 <= o < |g[u].outs| && 0 <= k < |g[u].outs[o]| :: Edge(u, o, k)
  }

  /** The connections that arrive at an inlet. */
  function Into(g: Graph, x: Inlet): (es: set<Edge>)
    ensures forall e :: e in es <==> IsEdge(g, e) && Target(g, e) == x
  {
    set e | e in Edges(g) && Target(g, e) == x
  }

  /** Box a feeds box b. */
  ghost predicate Feeds(g: Graph, a: nat, b: nat) {
    exists e: Edge :: IsEdge(g, e) && e.u == a && Target(g, e).u == b
  }

  /** A walk along connections; p holds at least one box. */
  ghost predicate IsWalk(g: Graph, p: seq<nat>) {
    && |p| > 0
    && (forall i :: 0 <= i < |p| ==> p[i] < |g|)
    && (forall i: nat, j: nat :: j == i + 1 < |p| ==> Feeds(g, p[i], p[j]))
  }

  ghost predicate IsCycle(g: Graph, p: seq<nat>) {
    IsWalk(g, p) && |p| > 1 && p[0] == p[|p| - 1]
  }

  /** Some signal loop lies upstream of u (or u is on it). */
  ghost predicate BehindLoop(g: Graph, u: nat) {
    exists c: seq<nat>, p: seq<nat> :: LoopTo(g, c, p, u)
  }

  ghost predicate LoopTo(g: Graph, c: seq<nat>, p: seq<nat>, u: nat) {
    IsCycle(g, c) && IsWalk(g, p) && p[0] == c[0] && p[|p| - 1] == u
  }

  ghost predicate Acyclic(g: Graph) {
    forall c: seq<nat> :: !IsCycle(g, c)
  }

  ghost predicate NoDup<T>(s: seq<T>) {
    forall i, j :: 0 <= i < j < |s| ==> s[i] != s[j]
  }

  /** Each box at most once, and every box after all the boxes that feed it. */
  ghost predicate Ordered(g: Graph, order: seq<nat>) {
    && NoDup(order)
    && (forall i :: 0 <= i < |order| ==> order[i] < |g|)
    && (forall i: nat, a: nat :: i < |order| && Feeds(g, a, order[i]) ==> a in order[..i])
  }

  ghost predicate Waits(g: Graph, order: seq<nat>, b: nat) {
    exists a: nat :: a < |g| && a !in order && Feeds(g, a, b)
  }

  /** Every box left out waits for another box left out. */
  ghost predicate Maximal(g: Graph, order: seq<nat>) {
    forall b: nat {:trigger Waits(g, order, b)} :: b < |g| && b !in order ==> Waits(g, order, b)
  }

  // ---------------------------------------------------------------------------------------
  // A maximal ordered list is exact: it misses the boxes behind a loop and no others.
  // ---------------------------------------------------------------------------------------

  /** In an ordered list, a walk that ends in the list runs strictly forward through it. */
  lemma {:induction false} WalkInOrder(g: Graph, order: seq<nat>, p: seq<nat>, j: nat)
    requires Ordered(g, order) && IsWalk(g, p)
    requires j < |order| && order[j] == p[|p| - 1]
    ensures exists i :: 0 <= i <= j && order[i] == p[0] && (|p| > 1 ==> i < j)
    decreases |p|
  {
    if |p| > 1 {
      var q := p[..|p| - 1];
      assert Feeds(g, p[|p| - 2], p[|p| - 1]);
      assert p[|p| - 2] in order[..j];
      var m :| 0 <= m < j && order[m] == p[|p| - 2];
      WalkInOrder(g, order, q, m);
    }
  }

  lemma OrderedAvoidsLoops(g: Graph, order: seq<nat>, u: nat)
    requires Ordered(g, order) && BehindLoop(g, u)
    ensures u !in order
  {
    if u in order {
      var c, p :| LoopTo(g, c, p, u);
      var j :| 0 <= j < |order| && order[j] == u;
      WalkInOrder(g, order, p, j);
      var i :| 0 <= i <= j && order[i] == p[0];
      WalkInOrder(g, order, c, i);
    }
  }

  /** Walking backwards among the boxes left out, n steps. */
  lemma {:induction false} BackWalk(g: Graph, order: seq<nat>, b: nat, n: nat) returns (p: seq<nat>)
    requires Maximal(g, order) && b < |g| && b !in order
    ensures IsWalk(g, p) && |p| == n + 1 && p[n] == b
    ensures forall i :: 0 <= i <= n ==> p[i] !in order
    decreases n
  {
    if n == 0 {
      p := [b];
    } else {
      var q := BackWalk(g, order, b, n - 1);
      assert Waits(g, order, q[0]);
      var a: nat :| a < |g| && a !in order && Feeds(g, a, q[0]);
      p := [a] + q;
      forall i: nat, j: nat | j == i + 1 < |p|
        ensures Feeds(g, p[i], p[j])
      {
        if i > 0 { assert p[i] == q[i - 1] && p[j] == q[i]; }
      }
    }
  }

  /** More entries than values: some value occurs twice. */
  lemma {:induction false} Pigeonhole(s: seq<nat>, n: nat)
    requires |s| > n && forall i :: 0 <= i < |s| ==> s[i] < n
    ensures !NoDup(s)
    decreases n
  {
    if NoDup(s) {
      assert s[0] < n;
      if m: nat :| m < |s| && s[m] == n - 1 {
        var t := s[..m] + s[m + 1..];
        forall i, j | 0 <= i < j < |t|
          ensures t[i] != t[j]
        {
          var i', j' := if i < m then i else i + 1, if j < m then j else j + 1;
          assert t[i] == s[i'] && t[j] == s[j'];
        }
        forall i | 0 <= i < |t|
          ensures t[i] < n - 1
        {
          var i' := if i < m then i else i + 1;
          assert t[i] == s[i'];
        }
        Pigeonhole(t, n - 1);
      } else {
        Pigeonhole(s, n - 1);
      }
    }
  }

  lemma SubWalk(g: Graph, p: seq<nat>, i: nat, j: nat)
    requires IsWalk(g, p) && i < j <= |p|
    ensures IsWalk(g, p[i..j])
  {
    var q := p[i..j];
    forall a: nat, b: nat | b == a + 1 < |q|
      ensures Feeds(g, q[a], q[b])
    {
      assert q[a] == p[i + a] && q[b] == p[i + b];
    }
  }

  lemma LeftOutIsBehindLoop(g: Graph, order: seq<nat>, b: nat)
    requires Maximal(g, order) && b < |g| && b !in order
    ensures BehindLoop(g, b)
  {
    var p := BackWalk(g, order, b, |g|);
    Pigeonhole(p, |g|);
    var i, j :| 0 <= i < j < |p| && p[i] == p[j];
    SubWalk(g, p, i, j + 1);
    SubWalk(g, p, i, |p|);
    assert LoopTo(g, p[i..j + 1], p[i..|p|], b);
  }

  /** The boxes that a maximal ordered list schedules are exactly those not behind a loop. */
  lemma ExactSchedule(g: Graph, order: seq<nat>, u: nat)
    requires Ordered(g, order) && Maximal(g, order) && u < |g|
    ensures u in order <==> !BehindLoop(g, u)
  {
    if u in order {
      if BehindLoop(g, u) { OrderedAvoidsLoops(g, order, u); }
    } else {
      LeftOutIsBehindLoop(g, order, u);
    }
  }

  lemma LoopIsCycle(g: Graph, u: nat)
    requires BehindLoop(g, u)
    ensures !Acyclic(g)
  {
    var c, p :| LoopTo(g, c, p, u);
    assert IsCycle(g, c);
  }

  lemma AcyclicSchedulesAll(g: Graph, order: seq<nat>)
    requires Ordered(g, order) && Maximal(g, order)
    ensures Acyclic(g) <==> forall u: nat :: u < |g| ==> u in order
  {
    if Acyclic(g) {
      forall u: nat | u < |g|
        ensures u in order
      {
        ExactSchedule(g, order, u);
        if BehindLoop(g, u) { LoopIsCycle(g, u); }
      }
    }
    if (forall u: nat :: u < |g| ==> u in order) && !Acyclic(g) {
      var c: seq<nat> :| IsCycle(g, c);
      assert LoopTo(g, c, [c[0]], c[0]);
      ExactSchedule(g, order, c[0]);
    }
  }
}
