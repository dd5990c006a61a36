/** The DSP chain as a little machine over numbered sample buffers, and what it means for a
  chain to compute a signal graph. */
module DspChain {
  import opened DspGraph

  /** One entry of the chain; buffers are named by the number of the signal that owns them.
    A box reads all its inputs before it writes any output. */
  datatype Instr =
    | Zero(dst: nat)
    | ScalarCopy(x: Inlet, dst: nat)
    | Plus(in1: nat, in2: nat, dst: nat)
    | Perform(u: nat, ins: seq<nat>, outs: seq<nat>)

  type Chain = seq<Instr>

  /** Where the samples of a buffer come from. */
  datatype Source = FromOutlet(x: Outlet) | FromScalar(y: Inlet)

  type Bag = multiset<Source>

  type Vec = seq<real>

  // ---------------------------------------------------------------------------------------
  // What an inlet ought to receive
  // ---------------------------------------------------------------------------------------

  ghost function BagOf(es: set<Edge>): Bag {
    if es == {} then multiset{}
    else
      var e :| e in es;
      BagOf(es - {e}) + multiset{FromOutlet(Src(e))}
  }

  lemma {:induction false} BagOfAdd(es: set<Edge>, e: Edge)
    requires e !in es
    ensures BagOf(es + {e}) == BagOf(es) + multiset{FromOutlet(Src(e))}
    decreases es
  {
    var all := es + {e};
    var p :| p in all && BagOf(all) == BagOf(all - {p}) + multiset{FromOutlet(Src(p))};
    if p == e {
      assert all - {p} == es;
    } else {
      assert all - {p} == (es - {p}) + {e};
      BagOfAdd(es - {p}, e);
      BagOfAdd(es - {p}, p);
      assert (es - {p}) + {p} == es;
    }
  }

  /** All the connected outlets, each as often as it is connected; for an unconnected inlet
    the box's own scalar if it has one, and otherwise nothing. */
  ghost function Wanted(g: Graph, scalars: set<Inlet>, x: Inlet): Bag {
    if Into(g, x) != {} then BagOf(Into(g, x))
    else if x in scalars then multiset{FromScalar(x)}
    else multiset{}
  }

  // ---------------------------------------------------------------------------------------
  // Which sources a buffer holds after a chain has run
  // ---------------------------------------------------------------------------------------

  /** Store vals[i] under keys[i], in order. */
  function PutAll<T>(m: map<nat, T>, keys: seq<nat>, vals: seq<T>): (r: map<nat, T>)
    requires |keys| == |vals|
  {
    if keys == [] then m
    else PutAll(m, keys[..|keys| - 1], vals[..|keys| - 1])[keys[|keys| - 1] := vals[|keys| - 1]]
  }

  lemma PutAllLast<T>(m: map<nat, T>, keys: seq<nat>, vals: seq<T>)
    requires |keys| == |vals| > 0
    ensures var n := |keys| - 1;
            PutAll(m, keys, vals) == PutAll(m, keys[..n], vals[..n])[keys[n] := vals[n]]
  {
  }

  lemma {:induction false} PutAllAt<T>(m: map<nat, T>, keys: seq<nat>, vals: seq<T>)
    requires |keys| == |vals| && NoDup(keys)
    ensures forall i :: 0 <= i < |keys| ==>
        keys[i] in PutAll(m, keys, vals) && PutAll(m, keys, vals)[keys[i]] == vals[i]
    ensures forall k :: k !in keys ==> (k in PutAll(m, keys, vals) <==> k in m)
    ensures forall k :: k !in keys && k in m ==> PutAll(m, keys, vals)[k] == m[k]
  {
    if keys != [] {
      var n := |keys| - 1;
      PutAllAt(m, keys[..n], vals[..n]);
      assert keys == keys[..n] + [keys[n]];
      PutAllLast(m, keys, vals);
      hide PutAll;
    }
  }

  function OutletBags(u: nat, n: nat): (r: seq<Bag>)
    ensures |r| == n
  {
    seq(n, o requires 0 <= o => multiset{FromOutlet(Outlet(u, o))})
  }

  function StepContents(c: map<nat, Bag>, i: Instr): map<nat, Bag> {
    match i
    case Zero(dst) => c[dst := multiset{}]
    case ScalarCopy(x, dst) => c[dst := multiset{FromScalar(x)}]
    case Plus(in1, in2, dst) =>
      if in1 in c && in2 in c then c[dst := c[in1] + c[in2]] else c - {dst}
    case Perform(u, ins, outs) => PutAll(c, outs, OutletBags(u, |outs|))
  }

  function Contents(chain: Chain): map<nat, Bag> {
    if chain == [] then map[]
    else StepContents(Contents(chain[..|chain| - 1]), chain[|chain| - 1])
  }

  /** The boxes that a chain performs, in order. */
  function Performed(chain: Chain): seq<nat> {
    if chain == [] then []
    else
      var r := Performed(chain[..|chain| - 1]);
      var i := chain[|chain| - 1];
      if i.Perform? then r + [i.u] else r
  }

  /** Instruction i finds in its buffers just what its inlets want. */
  ghost predicate StepOk(g: Graph, scalars: set<Inlet>, c: map<nat, Bag>, i: Instr) {
    match i
    case Zero(dst) => true
    case ScalarCopy(x, dst) => x in scalars
    case Plus(in1, in2, dst) => in1 in c && in2 in c
    case Perform(u, ins, outs) =>
      && u < |g| && |ins| == g[u].nin && |outs| == |g[u].outs| && NoDup(outs)
      && (forall k :: 0 <= k < |ins| ==> ins[k] in c && c[ins[k]] == Wanted(g, scalars, Inlet(u, k)))
  }

  ghost predicate ChainOk(g: Graph, scalars: set<Inlet>, chain: Chain) {
    chain == []
    || (var pre := chain[..|chain| - 1];
        ChainOk(g, scalars, pre) && StepOk(g, scalars, Contents(pre), chain[|chain| - 1]))
  }

  lemma Append(g: Graph, scalars: set<Inlet>, chain: Chain, i: Instr)
    requires ChainOk(g, scalars, chain) && StepOk(g, scalars, Contents(chain), i)
    ensures ChainOk(g, scalars, chain + [i])
    ensures Contents(chain + [i]) == StepContents(Contents(chain), i)
    ensures Performed(chain + [i]) == if i.Perform? then Performed(chain) + [i.u] else Performed(chain)
  {
    assert (chain + [i])[..|chain|] == chain;
  }

  // ---------------------------------------------------------------------------------------
  // Running a chain for one tick
  // ---------------------------------------------------------------------------------------

  function Add(a: Vec, b: Vec): (r: Vec)
    requires |a| == |b|
    ensures |r| == |a|
  {
    seq(|a|, i requires 0 <= i < |a| => a[i] + b[i])
  }

  function Const(n: nat, x: real): (r: Vec)
    ensures |r| == n
  {
    seq(n, i => x)
  }

  /** What each box does with its inputs during the tick. */
  type Boxes = (nat, seq<Vec>) -> seq<Vec>

  ghost predicate Shaped(g: Graph, f: Boxes, n: nat) {
    forall u: nat, ins: seq<Vec> :: u < |g| ==>
      |f(u, ins)| == |g[u].outs| && forall o :: 0 <= o < |f(u, ins)| ==> |f(u, ins)[o]| == n
  }

  /** Buffers, and a record of the vector each source stood for during the tick. */
  datatype Machine = Machine(mem: map<nat, Vec>, val: map<Source, Vec>)

  function Read(mem: map<nat, Vec>, s: nat, n: nat): (r: Vec)
    ensures |r| == n
  {
    if s in mem && |mem[s]| == n then mem[s] else Const(n, 0.0)
  }

  function ReadAll(mem: map<nat, Vec>, ins: seq<nat>, n: nat): (r: seq<Vec>)
    ensures |r| == |ins|
  {
    seq(|ins|, k requires 0 <= k < |ins| => Read(mem, ins[k], n))
  }

  function Record(val: map<Source, Vec>, u: nat, vals: seq<Vec>): map<Source, Vec> {
    val + map o: nat | o < |vals| :: FromOutlet(Outlet(u, o)) := vals[o]
  }

  function Step(m: Machine, i: Instr, f: Boxes, scalar: map<Inlet, real>, n: nat): Machine {
    match i
    case Zero(dst) => m.(mem := m.mem[dst := Const(n, 0.0)])
    case ScalarCopy(x, dst) =>
      m.(mem := m.mem[dst := Const(n, if x in scalar then scalar[x] else 0.0)])
    case Plus(in1, in2, dst) => m.(mem := m.mem[dst := Add(Read(m.mem, in1, n), Read(m.mem, in2, n))])
    case Perform(u, ins, outs) =>
      var vals := f(u, ReadAll(m.mem, ins, n));
      if |vals| == |outs| then Machine(PutAll(m.mem, outs, vals), Record(m.val, u, vals)) else m
  }

  function ScalarVals(scalar: map<Inlet, real>, n: nat): map<Source, Vec> {
    map x | x in scalar :: FromScalar(x) := Const(n, scalar[x])
  }

  /** One tick of the chain over buffers that start with any contents at all. */
  function Run(chain: Chain, f: Boxes, scalar: map<Inlet, real>, mem: map<nat, Vec>, n: nat): Machine {
    if chain == [] then Machine(mem, ScalarVals(scalar, n))
    else Step(Run(chain[..|chain| - 1], f, scalar, mem, n), chain[|chain| - 1], f, scalar, n)
  }

  // ---------------------------------------------------------------------------------------
  // Sums of sources
  // ---------------------------------------------------------------------------------------

  ghost predicate Covers(val: map<Source, Vec>, b: Bag, n: nat) {
    forall x :: x in b ==> x in val && |val[x]| == n
  }

  ghost predicate Agree(val: map<Source, Vec>, more: map<Source, Vec>, b: Bag) {
    forall x :: x in b && x in val ==> x in more && more[x] == val[x]
  }

  ghost function Sum(val: map<Source, Vec>, b: Bag, n: nat): (r: Vec)
    requires Covers(val, b, n)
    ensures |r| == n
    decreases |b|
  {
    if b == multiset{} then Const(n, 0.0)
    else
      var x :| x in b;
      Add(Sum(val, b - multiset{x}, n), val[x])
  }

  lemma AddSwap(a: Vec, b: Vec, c: Vec)
    requires |a| == |b| == |c|
    ensures Add(Add(a, b), c) == Add(Add(a, c), b)
    ensures Add(Add(a, b), c) == Add(a, Add(b, c))
  {
  }

  /** Some element the sum adds last. */
  lemma SumLast(val: map<Source, Vec>, b: Bag, n: nat) returns (p: Source)
    requires Covers(val, b, n) && b != multiset{}
    ensures p in b && p in val && |val[p]| == n && Covers(val, b - multiset{p}, n)
    ensures Sum(val, b, n) == Add(Sum(val, b - multiset{p}, n), val[p])
  {
    p :| p in b && Sum(val, b, n) == Add(Sum(val, b - multiset{p}, n), val[p]);
  }

  lemma CoversLess(val: map<Source, Vec>, b: Bag, c: Bag, x: Source, n: nat)
    requires b == c + multiset{x} && Covers(val, b, n)
    ensures Covers(val, c, n) && x in val && |val[x]| == n
  {
    forall y | y in c ensures y in val && |val[y]| == n { assert y in b; }
    assert x in b;
  }

  lemma {:induction false} SumAdd1(val: map<Source, Vec>, b: Bag, x: Source, n: nat)
    requires Covers(val, b + multiset{x}, n)
    ensures Covers(val, b, n) && Sum(val, b + multiset{x}, n) == Add(Sum(val, b, n), val[x])
    decreases |b|
  {
    hide Covers, Sum, Add;
    var all := b + multiset{x};
    CoversLess(val, all, b, x, n);
    var p := SumLast(val, all, n);
    if p == x {
      assert all - multiset{x} == b;
    } else {
      var c := b - multiset{p};
      assert all - multiset{p} == c + multiset{x};
      assert c + multiset{p} == b;
      CoversLess(val, b, c, p, n);
      SumAdd1(val, c, x, n);
      SumAdd1(val, c, p, n);
      AddSwap(Sum(val, c, n), val[x], val[p]);
    }
  }

  lemma {:induction false} SumAdd(val: map<Source, Vec>, a: Bag, b: Bag, n: nat)
    requires Covers(val, a, n) && Covers(val, b, n)
    ensures Covers(val, a + b, n) && Sum(val, a + b, n) == Add(Sum(val, a, n), Sum(val, b, n))
    decreases |b|
  {
    assert Covers(val, a + b, n);
    if b == multiset{} {
      assert a + b == a;
      assert Add(Sum(val, a, n), Const(n, 0.0)) == Sum(val, a, n);
    } else {
      var x :| x in b;
      var c := b - multiset{x};
      assert b == c + multiset{x};
      SumAdd(val, a, c, n);
      assert a + b == (a + c) + multiset{x};
      SumAdd1(val, a + c, x, n);
      SumAdd1(val, c, x, n);
      AddSwap(Sum(val, a, n), Sum(val, c, n), val[x]);
    }
  }

  lemma {:induction false} SumGrow(val: map<Source, Vec>, more: map<Source, Vec>, b: Bag, n: nat)
    requires Covers(val, b, n) && Agree(val, more, b)
    ensures Covers(more, b, n) && Sum(more, b, n) == Sum(val, b, n)
    decreases |b|
  {
    if b != multiset{} {
      var x := SumLast(val, b, n);
      SumGrow(val, more, b - multiset{x}, n);
      assert b == (b - multiset{x}) + multiset{x};
      SumAdd1(more, b - multiset{x}, x, n);
    }
  }

  lemma SumOne(val: map<Source, Vec>, x: Source, n: nat)
    requires x in val && |val[x]| == n
    ensures Covers(val, multiset{x}, n) && Sum(val, multiset{x}, n) == val[x]
  {
    SumAdd1(val, multiset{}, x, n);
    assert multiset{} + multiset{x} == multiset{x};
    assert Add(Const(n, 0.0), val[x]) == val[x];
  }

  // ---------------------------------------------------------------------------------------
  // The chain computes the graph
  // ---------------------------------------------------------------------------------------

  /** The sum that arrives at an inlet when the sources stand for val. */
  ghost function InletValue(g: Graph, scalars: set<Inlet>, val: map<Source, Vec>, x: Inlet, n: nat): Vec
    requires Covers(val, Wanted(g, scalars, x), n)
  {
    Sum(val, Wanted(g, scalars, x), n)
  }

  ghost predicate InletsCovered(g: Graph, scalars: set<Inlet>, val: map<Source, Vec>, u: nat, n: nat)
    requires u < |g|
  {
    forall i: nat {:trigger Inlet(u, i)} :: i < g[u].nin ==> Covers(val, Wanted(g, scalars, Inlet(u, i)), n)
  }

  ghost function InletValues(g: Graph, scalars: set<Inlet>, val: map<Source, Vec>, u: nat, n: nat): (r: seq<Vec>)
    requires u < |g| && InletsCovered(g, scalars, val, u, n)
    ensures |r| == g[u].nin
  {
    seq(g[u].nin, i requires 0 <= i < g[u].nin && InletsCovered(g, scalars, val, u, n) =>
      InletValue(g, scalars, val, Inlet(u, i), n))
  }

  /** Box u's outlets carry the given vectors. */
  ghost predicate Carries(g: Graph, val: map<Source, Vec>, u: nat, outs: seq<Vec>)
    requires u < |g|
  {
    forall o: nat :: o < |g[u].outs| ==>
      FromOutlet(Outlet(u, o)) in val && o < |outs| && val[FromOutlet(Outlet(u, o))] == outs[o]
  }

  /** Box u's outlets carry what the box makes of the sums at its inlets. */
  ghost predicate SolvedAt(g: Graph, scalars: set<Inlet>, f: Boxes, val: map<Source, Vec>, u: nat, n: nat)
    requires u < |g|
  {
    && InletsCovered(g, scalars, val, u, n)
    && Carries(g, val, u, f(u, InletValues(g, scalars, val, u, n)))
  }

  /** val satisfies the equations of the graph at all the listed boxes. */
  ghost predicate Solution(g: Graph, scalar: map<Inlet, real>, f: Boxes, val: map<Source, Vec>, boxes: seq<nat>,
                           n: nat)
  {
    && (forall x :: x in scalar ==> FromScalar(x) in val && val[FromScalar(x)] == Const(n, scalar[x]))
    && (forall k :: 0 <= k < |boxes| ==> boxes[k] < |g| && SolvedAt(g, scalar.Keys, f, val, boxes[k], n))
  }

  /** val knows the scalars and the outlets of the boxes performed so far. */
  ghost predicate Known(g: Graph, scalars: set<Inlet>, done: seq<nat>, val: map<Source, Vec>, n: nat) {
    forall x :: x in val <==>
      match x
      case FromOutlet(y) => y.u in done && IsOutlet(g, y)
      case FromScalar(y) => y in scalars
  }

  ghost predicate Sized(val: map<Source, Vec>, n: nat) {
    forall x :: x in val ==> |val[x]| == n
  }

  /** Every buffer holds the sum of the sources it is said to hold. */
  ghost predicate Faithful(c: map<nat, Bag>, m: Machine, n: nat) {
    forall s :: s in c ==> Covers(m.val, c[s], n) && s in m.mem && m.mem[s] == Sum(m.val, c[s], n)
  }

  lemma ReadFaithful(c: map<nat, Bag>, m: Machine, s: nat, n: nat)
    requires Faithful(c, m, n) && s in c
    ensures Covers(m.val, c[s], n) && Read(m.mem, s, n) == Sum(m.val, c[s], n)
  {
  }

  /** What a box reads is the sum of everything connected to its inlets. */
  lemma PerformReads(g: Graph, scalars: set<Inlet>, c: map<nat, Bag>, m: Machine, i: Instr, n: nat)
    requires i.Perform? && StepOk(g, scalars, c, i) && Faithful(c, m, n)
    ensures InletsCovered(g, scalars, m.val, i.u, n)
    ensures ReadAll(m.mem, i.ins, n) == InletValues(g, scalars, m.val, i.u, n)
  {
    forall k: nat | k < |i.ins|
      ensures Covers(m.val, Wanted(g, scalars, Inlet(i.u, k)), n)
      ensures Read(m.mem, i.ins[k], n) == InletValue(g, scalars, m.val, Inlet(i.u, k), n)
    {
      ReadFaithful(c, m, i.ins[k], n);
    }
  }

  /** Learning the outlets of a new box disturbs nothing already solved. */
  lemma SolvedGrow(g: Graph, scalars: set<Inlet>, f: Boxes, val: map<Source, Vec>, more: map<Source, Vec>, u: nat,
      n: nat)
    requires u < |g| && SolvedAt(g, scalars, f, val, u, n)
    requires forall x :: x in val ==> x in more && more[x] == val[x]
    ensures SolvedAt(g, scalars, f, more, u, n)
  {
    InletsGrow(g, scalars, val, more, u, n);
    hide InletsCovered, InletValues, Carries;
    CarriesGrow(g, val, more, u, f(u, InletValues(g, scalars, val, u, n)));
  }

  lemma CarriesGrow(g: Graph, val: map<Source, Vec>, more: map<Source, Vec>, u: nat, outs: seq<Vec>)
    requires u < |g| && Carries(g, val, u, outs)
    requires forall x :: x in val ==> x in more && more[x] == val[x]
    ensures Carries(g, more, u, outs)
  {
    forall o: nat | o < |g[u].outs|
      ensures FromOutlet(Outlet(u, o)) in more && o < |outs| && more[FromOutlet(Outlet(u, o))] == outs[o]
    {
      assert FromOutlet(Outlet(u, o)) in val;
    }
  }

  lemma InletAt(g: Graph, scalars: set<Inlet>, val: map<Source, Vec>, u: nat, n: nat, i: nat)
    requires u < |g| && InletsCovered(g, scalars, val, u, n) && i < g[u].nin
    ensures Covers(val, Wanted(g, scalars, Inlet(u, i)), n)
    ensures InletValues(g, scalars, val, u, n)[i] == InletValue(g, scalars, val, Inlet(u, i), n)
  {
  }

  lemma InletsGrow(g: Graph, scalars: set<Inlet>, val: map<Source, Vec>, more: map<Source, Vec>, u: nat, n: nat)
    requires u < |g| && InletsCovered(g, scalars, val, u, n)
    requires forall i: nat {:trigger Inlet(u, i)} :: i < g[u].nin ==> Agree(val, more, Wanted(g, scalars, Inlet(u, i)))
    ensures InletsCovered(g, scalars, more, u, n)
    ensures InletValues(g, scalars, more, u, n) == InletValues(g, scalars, val, u, n)
  {
    forall i: nat | i < g[u].nin
      ensures Covers(more, Wanted(g, scalars, Inlet(u, i)), n)
      ensures InletValue(g, scalars, more, Inlet(u, i), n) == InletValue(g, scalars, val, Inlet(u, i), n)
    {
      SumGrow(val, more, Wanted(g, scalars, Inlet(u, i)), n);
    }
    hide Sum, Wanted, Covers;
    var a, b := InletValues(g, scalars, more, u, n), InletValues(g, scalars, val, u, n);
    forall i: nat | i < g[u].nin ensures a[i] == b[i] {
      InletAt(g, scalars, more, u, n, i);
      InletAt(g, scalars, val, u, n, i);
    }
  }

  ghost predicate RunInv(g: Graph, scalar: map<Inlet, real>, chain: Chain, f: Boxes, m: Machine, n: nat) {
    && Known(g, scalar.Keys, Performed(chain), m.val, n)
    && Sized(m.val, n)
    && Faithful(Contents(chain), m, n)
    && Solution(g, scalar, f, m.val, Performed(chain), n)
  }

  lemma FaithfulUpdate(c: map<nat, Bag>, m: Machine, dst: nat, b: Bag, v: Vec, n: nat)
    requires Faithful(c, m, n) && Covers(m.val, b, n) && v == Sum(m.val, b, n)
    ensures Faithful(c[dst := b], m.(mem := m.mem[dst := v]), n)
  {
    hide Sum, Covers;
  }

  lemma SimpleFaithful(c: map<nat, Bag>, m: Machine, i: Instr, f: Boxes, scalar: map<Inlet, real>, n: nat)
    requires Faithful(c, m, n) && !i.Perform?
    requires i.Plus? ==> i.in1 in c && i.in2 in c
    requires i.ScalarCopy? ==>
        i.x in scalar && FromScalar(i.x) in m.val && m.val[FromScalar(i.x)] == Const(n, scalar[i.x])
    ensures Faithful(StepContents(c, i), Step(m, i, f, scalar, n), n)
  {
    hide Faithful;
    match i
    case Zero(dst) =>
      FaithfulUpdate(c, m, dst, multiset{}, Const(n, 0.0), n);
    case ScalarCopy(x, dst) =>
      SumOne(m.val, FromScalar(x), n);
      FaithfulUpdate(c, m, dst, multiset{FromScalar(x)}, Const(n, scalar[x]), n);
    case Plus(in1, in2, dst) =>
      ReadFaithful(c, m, in1, n);
      ReadFaithful(c, m, in2, n);
      SumAdd(m.val, c[in1], c[in2], n);
      FaithfulUpdate(c, m, dst, c[in1] + c[in2], Add(Read(m.mem, in1, n), Read(m.mem, in2, n)), n);
  }

  lemma SimpleStep(g: Graph, scalar: map<Inlet, real>, chain: Chain, i: Instr, f: Boxes, m: Machine, n: nat)
    requires RunInv(g, scalar, chain, f, m, n) && !i.Perform?
    requires ChainOk(g, scalar.Keys, chain) && StepOk(g, scalar.Keys, Contents(chain), i)
    ensures RunInv(g, scalar, chain + [i], f, Step(m, i, f, scalar, n), n)
  {
    hide Faithful, SolvedAt;
    Append(g, scalar.Keys, chain, i);
    SimpleFaithful(Contents(chain), m, i, f, scalar, n);
  }

  lemma RecordGrows(g: Graph, scalars: set<Inlet>, done: seq<nat>, m: Machine, u: nat, vals: seq<Vec>, n: nat)
    requires u < |g| && u !in done && |vals| == |g[u].outs|
    requires forall o :: 0 <= o < |vals| ==> |vals[o]| == n
    requires Known(g, scalars, done, m.val, n) && Sized(m.val, n)
    ensures Known(g, scalars, done + [u], Record(m.val, u, vals), n) && Sized(Record(m.val, u, vals), n)
    ensures forall x :: x in m.val ==> x in Record(m.val, u, vals) && Record(m.val, u, vals)[x] == m.val[x]
    ensures forall o: nat :: o < |vals| ==>
      FromOutlet(Outlet(u, o)) in Record(m.val, u, vals) && Record(m.val, u, vals)[FromOutlet(Outlet(u, o))] == vals[o]
  {
  }

  lemma PerformFaithful(c: map<nat, Bag>, m: Machine, val': map<Source, Vec>, u: nat, outs: seq<nat>, vals: seq<Vec>,
      n: nat)
    requires Faithful(c, m, n) && NoDup(outs) && |vals| == |outs|
    requires forall x :: x in m.val ==> x in val' && val'[x] == m.val[x]
    requires forall o: nat {:trigger Outlet(u, o)} :: o < |outs| ==>
      FromOutlet(Outlet(u, o)) in val' && val'[FromOutlet(Outlet(u, o))] == vals[o] && |vals[o]| == n
    ensures Faithful(PutAll(c, outs, OutletBags(u, |outs|)), Machine(PutAll(m.mem, outs, vals), val'), n)
  {
    PutAllAt(c, outs, OutletBags(u, |outs|));
    PutAllAt(m.mem, outs, vals);
    var m' := Machine(PutAll(m.mem, outs, vals), val');
    var c' := PutAll(c, outs, OutletBags(u, |outs|));
    forall s | s in c'
      ensures Covers(m'.val, c'[s], n) && s in m'.mem && m'.mem[s] == Sum(m'.val, c'[s], n)
    {
      if s in outs {
        var o: nat :| o < |outs| && outs[o] == s;
        SumOne(m'.val, FromOutlet(Outlet(u, o)), n);
      } else {
        SumGrow(m.val, m'.val, c[s], n);
      }
    }
  }

  lemma PerformSolves(g: Graph, scalar: map<Inlet, real>, f: Boxes, val: map<Source, Vec>, val': map<Source, Vec>,
                      done: seq<nat>, u: nat, n: nat)
    requires Solution(g, scalar, f, val, done, n) && u < |g| && InletsCovered(g, scalar.Keys, val, u, n)
    requires forall x :: x in val ==> x in val' && val'[x] == val[x]
    requires
      var vals := f(u, InletValues(g, scalar.Keys, val, u, n));
      |vals| == |g[u].outs| && forall o: nat {:trigger Outlet(u, o)} :: o < |vals| ==>
        FromOutlet(Outlet(u, o)) in val' && val'[FromOutlet(Outlet(u, o))] == vals[o]
    ensures Solution(g, scalar, f, val', done + [u], n)
  {
    var all := done + [u];
    forall k | 0 <= k < |all|
      ensures all[k] < |g| && SolvedAt(g, scalar.Keys, f, val', all[k], n)
    {
      if k < |done| {
        SolvedGrow(g, scalar.Keys, f, val, val', done[k], n);
      } else {
        InletsGrow(g, scalar.Keys, val, val', u, n);
      }
    }
  }

  lemma PerformStep(g: Graph, scalar: map<Inlet, real>, chain: Chain, i: Instr, f: Boxes, m: Machine, n: nat)
    requires RunInv(g, scalar, chain, f, m, n) && i.Perform? && i.u !in Performed(chain)
    requires Shaped(g, f, n)
    requires ChainOk(g, scalar.Keys, chain) && StepOk(g, scalar.Keys, Contents(chain), i)
    ensures RunInv(g, scalar, chain + [i], f, Step(m, i, f, scalar, n), n)
  {
    Append(g, scalar.Keys, chain, i);
    var vals := f(i.u, ReadAll(m.mem, i.ins, n));
    var val' := Record(m.val, i.u, vals);
    PerformReads(g, scalar.Keys, Contents(chain), m, i, n);
    RecordGrows(g, scalar.Keys, Performed(chain), m, i.u, vals, n);
    PerformFaithful(Contents(chain), m, val', i.u, i.outs, vals, n);
    PerformSolves(g, scalar, f, m.val, val', Performed(chain), i.u, n);
  }

  /** Running a chain that is in order keeps every buffer faithful and solves the graph's
    equations at every box performed, whatever the buffers held before. */
  lemma {:induction false} RunSolves(g: Graph, scalar: map<Inlet, real>, chain: Chain, f: Boxes, mem: map<nat, Vec>,
      n: nat)
    requires Shaped(g, f, n) && ChainOk(g, scalar.Keys, chain) && NoDup(Performed(chain))
    ensures RunInv(g, scalar, chain, f, Run(chain, f, scalar, mem, n), n)
  {
    if chain != [] {
      var pre, i := chain[..|chain| - 1], chain[|chain| - 1];
      assert chain == pre + [i];
      Append(g, scalar.Keys, pre, i);
      if i.Perform? {
        var d, d' := Performed(pre), Performed(chain);
        assert d' == d + [i.u];
        assert forall k :: 0 <= k < |d| ==> d[k] == d'[k] && d'[k] != d'[|d|];
        RunSolves(g, scalar, pre, f, mem, n);
        PerformStep(g, scalar, pre, i, f, Run(pre, f, scalar, mem, n), n);
      } else {
        RunSolves(g, scalar, pre, f, mem, n);
        SimpleStep(g, scalar, pre, i, f, Run(pre, f, scalar, mem, n), n);
      }
    }
  }

  // ---------------------------------------------------------------------------------------
  // The equations have one solution only
  // ---------------------------------------------------------------------------------------

  lemma {:induction false} BagOfMember(es: set<Edge>, x: Source)
    requires x in BagOf(es)
    ensures exists e :: e in es && x == FromOutlet(Src(e))
    decreases es
  {
    var e :| e in es && BagOf(es) == BagOf(es - {e}) + multiset{FromOutlet(Src(e))};
    if x != FromOutlet(Src(e)) { BagOfMember(es - {e}, x); }
  }

  lemma WantedFrom(g: Graph, scalars: set<Inlet>, u: nat, i: nat, x: Source)
    requires x in Wanted(g, scalars, Inlet(u, i))
    ensures x.FromOutlet? ==> Feeds(g, x.x.u, u) && IsOutlet(g, x.x)
    ensures x.FromScalar? ==> x.y in scalars
  {
    if Into(g, Inlet(u, i)) != {} {
      BagOfMember(Into(g, Inlet(u, i)), x);
      var e :| e in Into(g, Inlet(u, i)) && x == FromOutlet(Src(e));
      assert IsEdge(g, e) && Target(g, e).u == u;
    }
  }

  ghost predicate SameOutlets(g: Graph, a: map<Source, Vec>, b: map<Source, Vec>, u: nat)
    requires u < |g|
  {
    forall o: nat {:trigger Outlet(u, o)} :: o < |g[u].outs| ==>
      var x := FromOutlet(Outlet(u, o)); x in a && x in b && a[x] == b[x]
  }

  lemma {:induction false} SolutionUnique(g: Graph, scalar: map<Inlet, real>, f: Boxes, order: seq<nat>,
                                          a: map<Source, Vec>, b: map<Source, Vec>, k: nat, n: nat)
    requires Ordered(g, order) && k < |order|
    requires Solution(g, scalar, f, a, order, n) && Solution(g, scalar, f, b, order, n)
    ensures SameOutlets(g, a, b, order[k])
    decreases k
  {
    var u := order[k];
    forall i: nat | i < g[u].nin
      ensures Agree(a, b, Wanted(g, scalar.Keys, Inlet(u, i)))
    {
      forall x | x in Wanted(g, scalar.Keys, Inlet(u, i)) && x in a
        ensures x in b && b[x] == a[x]
      {
        WantedFrom(g, scalar.Keys, u, i, x);
        if x.FromOutlet? {
          var j :| 0 <= j < k && order[j] == x.x.u;
          SolutionUnique(g, scalar, f, order, a, b, j, n);
          assert x == FromOutlet(Outlet(x.x.u, x.x.o));
        }
      }
    }
    assert SolvedAt(g, scalar.Keys, f, a, u, n) && SolvedAt(g, scalar.Keys, f, b, u, n);
    InletsGrow(g, scalar.Keys, a, b, u, n);
  }

  /** An ordered chain whose buffers are right computes the meaning of the graph: after any
    tick, over any stale buffer contents, each performed box's outlets carry the values that
    every solution of the graph's equations gives them. */
  lemma ChainComputesGraph(g: Graph, scalar: map<Inlet, real>, chain: Chain, f: Boxes, mem: map<nat, Vec>,
                           val: map<Source, Vec>, n: nat)
    requires Shaped(g, f, n) && ChainOk(g, scalar.Keys, chain) && Ordered(g, Performed(chain))
    requires Solution(g, scalar, f, val, Performed(chain), n)
    ensures Solution(g, scalar, f, Run(chain, f, scalar, mem, n).val, Performed(chain), n)
    ensures forall k :: 0 <= k < |Performed(chain)| ==>
      SameOutlets(g, Run(chain, f, scalar, mem, n).val, val, Performed(chain)[k])
  {
    RunSolves(g, scalar, chain, f, mem, n);
    var run, order := Run(chain, f, scalar, mem, n).val, Performed(chain);
    forall k | 0 <= k < |order|
      ensures SameOutlets(g, run, val, order[k])
    {
      SolutionUnique(g, scalar, f, order, run, val, k, n);
    }
  }

  // ---------------------------------------------------------------------------------------
  // In plain numbers
  // ---------------------------------------------------------------------------------------

  /** The real sum, over connections, of sample j of what each one's outlet carries. */
  ghost function Total(es: set<Edge>, val: map<Source, Vec>, j: nat): real
    requires forall e :: e in es ==> FromOutlet(Src(e)) in val && j < |val[FromOutlet(Src(e))]|
    decreases es
  {
    if es == {} then 0.0
    else
      var e :| e in es;
      Total(es - {e}, val, j) + val[FromOutlet(Src(e))][j]
  }

  lemma {:induction false} SumIsTotal(es: set<Edge>, val: map<Source, Vec>, n: nat, j: nat)
    requires Covers(val, BagOf(es), n) && j < n
    ensures forall e :: e in es ==> FromOutlet(Src(e)) in val && |val[FromOutlet(Src(e))]| == n
    ensures Sum(val, BagOf(es), n)[j] == Total(es, val, j)
    decreases es
  {
    forall e | e in es ensures FromOutlet(Src(e)) in val && |val[FromOutlet(Src(e))]| == n { BagHas(es, e); }
    if es != {} {
      var e :| e in es && Total(es, val, j) == Total(es - {e}, val, j) + val[FromOutlet(Src(e))][j];
      BagHas(es, e);
      CoversLess(val, BagOf(es), BagOf(es - {e}), FromOutlet(Src(e)), n);
      SumIsTotal(es - {e}, val, n, j);
      SumAdd1(val, BagOf(es - {e}), FromOutlet(Src(e)), n);
      hide Sum, BagOf, Total, Covers;
    }
  }

  lemma BagHas(es: set<Edge>, e: Edge)
    requires e in es
    ensures BagOf(es) == BagOf(es - {e}) + multiset{FromOutlet(Src(e))} && FromOutlet(Src(e)) in BagOf(es)
  {
    BagOfAdd(es - {e}, e);
    assert es - {e} + {e} == es;
  }

  /** Sample j of what reaches an inlet. */
  ghost predicate Receives(g: Graph, scalar: map<Inlet, real>, val: map<Source, Vec>, x: Inlet, n: nat, y: real, j: nat)
    requires j < n
  {
    if Into(g, x) != {} then
      && (forall e :: e in Into(g, x) ==> FromOutlet(Src(e)) in val && |val[FromOutlet(Src(e))]| == n)
      && y == Total(Into(g, x), val, j)
    else y == if x in scalar then scalar[x] else 0.0
  }

  lemma InletReceives(g: Graph, scalar: map<Inlet, real>, val: map<Source, Vec>, x: Inlet, n: nat, j: nat)
    requires Covers(val, Wanted(g, scalar.Keys, x), n) && j < n
    requires forall y :: y in scalar ==> FromScalar(y) in val && val[FromScalar(y)] == Const(n, scalar[y])
    ensures Receives(g, scalar, val, x, n, InletValue(g, scalar.Keys, val, x, n)[j], j)
  {
    if Into(g, x) != {} {
      SumIsTotal(Into(g, x), val, n, j);
    } else if x in scalar {
      SumOne(val, FromScalar(x), n);
    }
  }

  /** In every solution of the equations a box works on just that. */
  lemma SolutionReceives(g: Graph, scalar: map<Inlet, real>, f: Boxes, val: map<Source, Vec>, boxes: seq<nat>, b: nat,
                         k: nat, n: nat, j: nat)
    requires Solution(g, scalar, f, val, boxes, n) && b < |boxes| && boxes[b] < |g| && k < g[boxes[b]].nin && j < n
    ensures InletsCovered(g, scalar.Keys, val, boxes[b], n)
    ensures var ins := InletValues(g, scalar.Keys, val, boxes[b], n);
            |ins[k]| == n && Receives(g, scalar, val, Inlet(boxes[b], k), n, ins[k][j], j)
  {
    assert SolvedAt(g, scalar.Keys, f, val, boxes[b], n);
    InletAt(g, scalar.Keys, val, boxes[b], n, k);
    InletReceives(g, scalar, val, Inlet(boxes[b], k), n, j);
  }

  /**
   * What a box finds in its buffers at its turn in a running chain, sample by sample: for an inlet without
   * connections its scalar, or zero; for another, the sum over its connections of what their outlets put out.
   */
  lemma RunReads(g: Graph, scalar: map<Inlet, real>, chain: Chain, i: Instr, f: Boxes, mem: map<nat, Vec>, n: nat,
                 k: nat, j: nat)
    requires Shaped(g, f, n) && ChainOk(g, scalar.Keys, chain) && NoDup(Performed(chain))
    requires i.Perform? && StepOk(g, scalar.Keys, Contents(chain), i) && k < |i.ins| && j < n
    ensures var m := Run(chain, f, scalar, mem, n);
      && |ReadAll(m.mem, i.ins, n)[k]| == n
      && Receives(g, scalar, m.val, Inlet(i.u, k), n, ReadAll(m.mem, i.ins, n)[k][j], j)
  {
    var m := Run(chain, f, scalar, mem, n);
    RunSolves(g, scalar, chain, f, mem, n);
    hide Run, ReadAll, Faithful, StepOk, Wanted, Into;
    PerformReads(g, scalar.Keys, Contents(chain), m, i, n);
    InletAt(g, scalar.Keys, m.val, i.u, n, k);
    InletReceives(g, scalar, m.val, Inlet(i.u, k), n, j);
  }
}
