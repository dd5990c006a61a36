/**
 * Patches as data: boxes with outlets, each outlet an ordered list of connections, and what one message
 * leaving an outlet leads to.  The rewritings of the patch editor (src/g_editor_extras.c) are stated here as
 * functions of a patch.
 */
module PatchModel {

  datatype Conn = Conn(dest: nat, inlet: nat)

  /** A box: `types` are a trigger's arguments, `signal` tells which outlets carry signals. */
  datatype Box = Box(trigger: bool, types: seq<char>, signal: seq<bool>, conns: seq<seq<Conn>>)
  {
    predicate Valid() {
      && |signal| == |conns|
      && (trigger ==> |types| == |conns| && forall o: nat :: o < |signal| ==> !signal[o])
    }

    /** Some control outlet leads to more than one place. */
    predicate HasFanout() {
      exists o: nat :: o < |conns| && o < |signal| && !signal[o] && |conns[o]| > 1
    }
  }

  type Boxes = map<nat, Box>

  ghost predicate AllValid(b: Boxes) {
    forall u: nat :: u in b ==> b[u].Valid()
  }

  function WithConns(b: Boxes, u: nat, o: nat, cs: seq<Conn>): (r: Boxes)
    requires u in b && o < |b[u].conns|
    ensures r.Keys == b.Keys
  {
    b[u := b[u].(conns := b[u].conns[o := cs])]
  }

  // ----- lists of connections -----

  /** A disconnection takes out the first connection of its kind. */
  function RemoveFirst(cs: seq<Conn>, c: Conn): (r: seq<Conn>) {
    if cs == [] then [] else if cs[0] == c then cs[1..] else [cs[0]] + RemoveFirst(cs[1..], c)
  }

  lemma {:induction false} RemoveFirstAt(cs: seq<Conn>, i: nat)
    requires i < |cs| && cs[i] !in cs[..i]
    ensures RemoveFirst(cs, cs[i]) == cs[..i] + cs[i + 1..]
  {
    if i > 0 {
      assert cs[0] in cs[..i];
      assert cs[1..][..i - 1] == cs[..i][1..];
      RemoveFirstAt(cs[1..], i - 1);
      assert cs[..i] + cs[i + 1..] == [cs[0]] + (cs[1..][..i - 1] + cs[1..][i..]);
    }
  }

  lemma {:induction false} RemoveFirstNone(cs: seq<Conn>, c: Conn)
    requires c !in cs
    ensures RemoveFirst(cs, c) == cs
  {
    if cs != [] { RemoveFirstNone(cs[1..], c); }
  }

  lemma {:induction false} RemoveFirstMultiset(cs: seq<Conn>, c: Conn)
    ensures multiset(RemoveFirst(cs, c)) == multiset(cs) - multiset{c}
  {
    if cs != [] {
      assert cs == [cs[0]] + cs[1..];
      if cs[0] != c { RemoveFirstMultiset(cs[1..], c); }
    }
  }

  /** Connections taken out one by one, the last of `ds` first. */
  function RemoveBackward(cs: seq<Conn>, ds: seq<Conn>): seq<Conn> {
    if ds == [] then cs else RemoveFirst(RemoveBackward(cs, ds[1..]), ds[0])
  }

  lemma {:induction false} RemoveBackwardMultiset(cs: seq<Conn>, ds: seq<Conn>)
    ensures multiset(RemoveBackward(cs, ds)) == multiset(cs) - multiset(ds)
  {
    if ds != [] {
      RemoveBackwardMultiset(cs, ds[1..]);
      RemoveFirstMultiset(RemoveBackward(cs, ds[1..]), ds[0]);
      HeadTail(ds);
      hide RemoveFirst;
      TakeTwice(multiset(cs), multiset(ds[1..]), ds[0]);
    }
  }

  lemma HeadTail(ds: seq<Conn>)
    requires ds != []
    ensures multiset(ds) == multiset(ds[1..]) + multiset{ds[0]}
  {
    assert ds == [ds[0]] + ds[1..];
  }

  lemma TakeTwice(m: multiset<Conn>, n: multiset<Conn>, c: Conn)
    ensures m - n - multiset{c} == m - (n + multiset{c})
  {
  }

  /** Taking all of a list out of it, in whatever order and however often they repeat, leaves nothing. */
  lemma RemoveAll(cs: seq<Conn>)
    ensures RemoveBackward(cs, cs) == []
  {
    RemoveBackwardMultiset(cs, cs);
    var r := RemoveBackward(cs, cs);
    assert multiset(r) == multiset{};
    assert |r| == |multiset(r)|;
  }

  /** Connections handed to successive outlets from `base` up, the last of `ds` to the first of them. */
  function Placed(outs: seq<seq<Conn>>, base: nat, ds: seq<Conn>): (r: seq<seq<Conn>>)
    requires base + |ds| <= |outs|
    ensures |r| == |outs|
  {
    if ds == [] then outs
    else
      var rest := Placed(outs, base, ds[1..]);
      rest[base + |ds| - 1 := rest[base + |ds| - 1] + [ds[0]]]
  }

  /** One outlet per connection, the first connection on the last outlet. */
  function Singles(ds: seq<Conn>): (r: seq<seq<Conn>>)
    ensures |r| == |ds|
  {
    if ds == [] then [] else Singles(ds[1..]) + [[ds[0]]]
  }

  lemma {:induction false} PlacedIs(outs: seq<seq<Conn>>, base: nat, ds: seq<Conn>)
    requires base + |ds| <= |outs|
    requires forall o: nat :: base <= o < base + |ds| ==> outs[o] == []
    ensures Placed(outs, base, ds) == outs[..base] + Singles(ds) + outs[base + |ds|..]
  {
    if ds == [] {
      assert outs == outs[..base] + [] + outs[base..];
    } else {
      PlacedIs(outs, base, ds[1..]);
      var rest := Placed(outs, base, ds[1..]);
      var i := base + |ds| - 1;
      assert outs[i] == [];
      assert rest[i] == outs[base + |ds| - 1..][0] == outs[i];
      assert [] + [ds[0]] == [ds[0]];
      assert Singles(ds) == Singles(ds[1..]) + [[ds[0]]];
      assert rest[i := [ds[0]]] == outs[..base] + Singles(ds) + outs[base + |ds|..];
    }
  }

  // ----- redirecting connections -----

  /** The connections that do not lead to `org`. */
  function Others(cs: seq<Conn>, org: nat): (r: seq<Conn>)
    ensures |r| <= |cs|
    ensures forall c :: c in r ==> c in cs && c.dest != org
  {
    if cs == [] then []
    else if cs[0].dest == org then Others(cs[1..], org) else [cs[0]] + Others(cs[1..], org)
  }

  /** Those that do, leading to `rep` instead. */
  function Redirected(cs: seq<Conn>, org: nat, rep: nat): (r: seq<Conn>)
    ensures |r| <= |cs|
    ensures forall c :: c in r ==> c.dest == rep
  {
    if cs == [] then []
    else if cs[0].dest == org then [Conn(rep, cs[0].inlet)] + Redirected(cs[1..], org, rep)
    else Redirected(cs[1..], org, rep)
  }

  /** An outlet's list after its connections to `org` have been redirected: they have moved to the end. */
  function Moved(cs: seq<Conn>, org: nat, rep: nat): (r: seq<Conn>) {
    Others(cs, org) + Redirected(cs, org, rep)
  }

  lemma {:induction false} OthersJoin(cs: seq<Conn>, ds: seq<Conn>, org: nat)
    ensures Others(cs + ds, org) == Others(cs, org) + Others(ds, org)
  {
    if cs == [] {
      assert cs + ds == ds;
    } else {
      assert (cs + ds)[1..] == cs[1..] + ds && (cs + ds)[0] == cs[0];
      OthersJoin(cs[1..], ds, org);
    }
  }

  lemma {:induction false} RedirectedJoin(cs: seq<Conn>, ds: seq<Conn>, org: nat, rep: nat)
    ensures Redirected(cs + ds, org, rep) == Redirected(cs, org, rep) + Redirected(ds, org, rep)
  {
    if cs == [] {
      assert cs + ds == ds;
    } else {
      assert (cs + ds)[1..] == cs[1..] + ds && (cs + ds)[0] == cs[0];
      RedirectedJoin(cs[1..], ds, org, rep);
    }
  }

  lemma {:induction false} MovedNone(cs: seq<Conn>, org: nat, rep: nat)
    requires forall c :: c in cs ==> c.dest != org
    ensures Others(cs, org) == cs && Redirected(cs, org, rep) == [] && Moved(cs, org, rep) == cs
  {
    if cs != [] {
      assert cs[0] in cs;
      MovedNone(cs[1..], org, rep);
    }
  }

  lemma {:induction false} MovedLength(cs: seq<Conn>, org: nat, rep: nat)
    ensures |Moved(cs, org, rep)| == |cs|
  {
    if cs != [] { MovedLength(cs[1..], org, rep); }
  }

  lemma OthersStep(a: seq<Conn>, c: Conn, b: seq<Conn>, n: Conn, org: nat)
    requires c.dest == org != n.dest && forall x :: x in a ==> x.dest != org
    ensures Others(a + [c] + b, org) == a + Others(b, org)
    ensures Others(a + b + [n], org) == a + Others(b, org) + [n]
  {
    MovedNone(a, org, 0);
    MovedNone([n], org, 0);
    assert Others([c], org) == [];
    hide Others;
    OthersJoin(a + [c], b, org);
    OthersJoin(a, [c], org);
    OthersJoin(a + b, [n], org);
    OthersJoin(a, b, org);
  }

  lemma RedirectedStep(a: seq<Conn>, c: Conn, b: seq<Conn>, n: Conn, org: nat, rep: nat)
    requires c.dest == org != n.dest && n == Conn(rep, c.inlet) && forall x :: x in a ==> x.dest != org
    ensures Redirected(a + [c] + b, org, rep) == [n] + Redirected(b, org, rep)
    ensures Redirected(a + b + [n], org, rep) == Redirected(b, org, rep)
  {
    MovedNone(a, org, rep);
    MovedNone([n], org, rep);
    assert Redirected([c], org, rep) == [n];
    hide Redirected;
    RedirectedJoin(a + [c], b, org, rep);
    RedirectedJoin(a, [c], org, rep);
    RedirectedJoin(a + b, [n], org, rep);
    RedirectedJoin(a, b, org, rep);
  }

  /** Taking the first connection to `org` out and putting its replacement at the end changes nothing more. */
  lemma MovedStep(cs: seq<Conn>, i: nat, org: nat, rep: nat)
    requires i < |cs| && cs[i].dest == org != rep && forall k: nat :: k < i ==> cs[k].dest != org
    ensures Moved(cs[..i] + cs[i + 1..] + [Conn(rep, cs[i].inlet)], org, rep) == Moved(cs, org, rep)
    ensures |Redirected(cs[..i] + cs[i + 1..] + [Conn(rep, cs[i].inlet)], org, rep)| + 1
            == |Redirected(cs, org, rep)|
  {
    hide Others, Redirected;
    var a, b, n := cs[..i], cs[i + 1..], Conn(rep, cs[i].inlet);
    assert cs == a + [cs[i]] + b;
    OthersStep(a, cs[i], b, n, org);
    RedirectedStep(a, cs[i], b, n, org, rep);
  }

  /** All outlets of a box redirected. */
  function MovedBox(x: Box, org: nat, rep: nat): (r: Box)
    ensures |r.conns| == |x.conns| && r.trigger == x.trigger && r.types == x.types && r.signal == x.signal
  {
    x.(conns := seq(|x.conns|, o requires 0 <= o < |x.conns| => Moved(x.conns[o], org, rep)))
  }

  function MovedAll(b: Boxes, org: nat, rep: nat): (r: Boxes)
    ensures r.Keys == b.Keys
  {
    map u: nat | u in b :: MovedBox(b[u], org, rep)
  }

  /** The first n outlets of a box redirected. */
  function PartMoved(x: Box, n: nat, org: nat, rep: nat): (r: Box)
    ensures |r.conns| == |x.conns|
  {
    x.(conns := seq(|x.conns|, o requires 0 <= o < |x.conns| =>
                      if o < n then Moved(x.conns[o], org, rep) else x.conns[o]))
  }

  lemma PartMovedEnds(x: Box, org: nat, rep: nat)
    ensures PartMoved(x, 0, org, rep) == x && PartMoved(x, |x.conns|, org, rep) == MovedBox(x, org, rep)
  {
    assert PartMoved(x, 0, org, rep).conns == x.conns;
    assert PartMoved(x, |x.conns|, org, rep).conns == MovedBox(x, org, rep).conns;
  }

  lemma PartMovedStep(b: Boxes, u: nat, n: nat, org: nat, rep: nat)
    requires u in b && n < |b[u].conns|
    ensures var p := b[u := PartMoved(b[u], n, org, rep)];
            && p[u].conns[n] == b[u].conns[n]
            && WithConns(p, u, n, Moved(p[u].conns[n], org, rep)) == b[u := PartMoved(b[u], n + 1, org, rep)]
  {
    hide Moved;
    var p := b[u := PartMoved(b[u], n, org, rep)];
    var m := Moved(b[u].conns[n], org, rep);
    assert p[u].conns[n := m] == PartMoved(b[u], n + 1, org, rep).conns;
  }

  /** The boxes in `done` redirected. */
  function MovedSome(b: Boxes, done: set<nat>, org: nat, rep: nat): (r: Boxes)
    ensures r.Keys == b.Keys
  {
    map u: nat | u in b :: if u in done then MovedBox(b[u], org, rep) else b[u]
  }

  lemma MovedSomeStep(b: Boxes, done: set<nat>, u: nat, org: nat, rep: nat)
    requires u in b && u !in done
    ensures var m := MovedSome(b, done, org, rep);
            m[u] == b[u] && m[u := MovedBox(m[u], org, rep)] == MovedSome(b, done + {u}, org, rep)
  {
    hide MovedBox;
  }

  lemma MovedSomeEnds(b: Boxes, done: set<nat>, org: nat, rep: nat)
    ensures MovedSome(b, {}, org, rep) == b
    ensures (forall u: nat :: u in b ==> u in done) ==> MovedSome(b, done, org, rep) == MovedAll(b, org, rep)
  {
    hide MovedBox;
  }

  // ----- new triggers -----

  function Repeat<T>(x: T, n: nat): (r: seq<T>)
    ensures |r| == n && forall k: nat :: k < n ==> r[k] == x
  {
    seq(n, _ => x)
  }

  /** The trigger that takes over the connections `ds`. */
  function StubBox(ds: seq<Conn>): (x: Box)
    ensures x.trigger && |x.conns| == |ds| && x.Valid()
  {
    Box(true, Repeat('a', |ds|), Repeat(false, |ds|), Singles(ds))
  }

  /** A fan-out resolved: outlet o of u leads to the new trigger s, and s to the old destinations. */
  function Split(b: Boxes, u: nat, o: nat, s: nat): (r: Boxes)
    requires u in b && o < |b[u].conns| && s !in b
    ensures r.Keys == b.Keys + {s}
  {
    WithConns(b, u, o, [Conn(s, 0)])[s := StubBox(b[u].conns[o])]
  }

  function SpreadTypes(types: seq<char>, outs: seq<seq<Conn>>): (r: seq<char>)
    requires |types| == |outs|
  {
    if outs == [] then []
    else SpreadTypes(types[..|outs| - 1], outs[..|outs| - 1]) + Repeat(types[|outs| - 1], |outs[|outs| - 1]|)
  }

  function SpreadConns(outs: seq<seq<Conn>>): (r: seq<seq<Conn>>) {
    if outs == [] then [] else SpreadConns(outs[..|outs| - 1]) + Singles(outs[|outs| - 1])
  }

  lemma {:induction false} SpreadLengths(types: seq<char>, outs: seq<seq<Conn>>)
    requires |types| == |outs|
    ensures |SpreadTypes(types, outs)| == |SpreadConns(outs)|
  {
    if outs != [] { SpreadLengths(types[..|outs| - 1], outs[..|outs| - 1]); }
  }

  /** A trigger with as many outlets for each of its outlets as that had connections. */
  function SpreadBox(x: Box): (r: Box)
    requires x.trigger && x.Valid()
    ensures r.trigger && r.Valid()
  {
    SpreadLengths(x.types, x.conns);
    Box(true, SpreadTypes(x.types, x.conns), Repeat(false, |SpreadConns(x.conns)|), SpreadConns(x.conns))
  }

  /** Expansion in place: everything that led to t leads to s, which sends what t sent. */
  function Expand(b: Boxes, t: nat, s: nat): (r: Boxes)
    requires t in b && s !in b && b[t].trigger && b[t].Valid()
    ensures r.Keys == b.Keys - {t} + {s}
  {
    var m := MovedAll(b, t, s);
    (m - {t})[s := SpreadBox(m[t])]
  }

  /** The connections `ds` taken from outlet o of u, the last first, and put on outlets of s from `base` up. */
  function Stacked(b: Boxes, u: nat, o: nat, s: nat, base: nat, ds: seq<Conn>): (r: Boxes)
    requires u in b && s in b && u != s && o < |b[u].conns| && base + |ds| <= |b[s].conns|
    ensures r.Keys == b.Keys
  {
    WithConns(b, u, o, RemoveBackward(b[u].conns[o], ds))[s := b[s].(conns := Placed(b[s].conns, base, ds))]
  }

  lemma WithSame(b: Boxes, u: nat, o: nat)
    requires u in b && o < |b[u].conns|
    ensures WithConns(b, u, o, b[u].conns[o]) == b
  {
    assert b[u].conns[o := b[u].conns[o]] == b[u].conns;
    assert b[u].(conns := b[u].conns) == b[u];
  }

  lemma WithTwice(b: Boxes, u: nat, o: nat, x: seq<Conn>, y: seq<Conn>)
    requires u in b && o < |b[u].conns|
    ensures WithConns(b, u, o, x)[u].conns[o] == x
    ensures WithConns(WithConns(b, u, o, x), u, o, y) == WithConns(b, u, o, y)
  {
    assert b[u].conns[o := x][o := y] == b[u].conns[o := y];
  }

  lemma StackedNone(b: Boxes, u: nat, o: nat, s: nat, base: nat)
    requires u in b && s in b && u != s && o < |b[u].conns| && base <= |b[s].conns|
    ensures Stacked(b, u, o, s, base, []) == b
  {
    WithSame(b, u, o);
    assert b[s].(conns := b[s].conns) == b[s];
  }

  lemma StackedStep(b: Boxes, u: nat, o: nat, s: nat, base: nat, ds: seq<Conn>)
    requires u in b && s in b && u != s && o < |b[u].conns| && base + |ds| <= |b[s].conns| && ds != []
    ensures var r, i := Stacked(b, u, o, s, base, ds[1..]), base + |ds| - 1;
            var r1 := WithConns(r, u, o, RemoveFirst(r[u].conns[o], ds[0]));
            Stacked(b, u, o, s, base, ds) == WithConns(r1, s, i, r1[s].conns[i] + [ds[0]])
  {
    var r, i := Stacked(b, u, o, s, base, ds[1..]), base + |ds| - 1;
    var rest, left := Placed(b[s].conns, base, ds[1..]), RemoveBackward(b[u].conns[o], ds[1..]);
    assert r[u].conns[o] == left && r[s].conns == rest;
    assert b[u].conns[o := left][o := RemoveFirst(left, ds[0])] == b[u].conns[o := RemoveFirst(left, ds[0])];
  }

  function UpTo(from: nat, to: nat): (r: seq<nat>)
    requires from <= to
  {
    seq(to - from, i requires 0 <= i => from + i)
  }

  function Members(l: seq<nat>): set<nat> {
    set u: nat | u in l
  }

  /** Every box has a number below `top`. */
  ghost predicate Below(b: Boxes, top: nat) {
    forall v: nat :: v in b ==> v < top
  }

  /** The outlets of u below o rewritten, from the left, new boxes numbered from `next` on. */
  function SplitAll(b: Boxes, u: nat, o: nat, next: nat): (r: (Boxes, nat))
    requires u in b && o <= |b[u].conns| && b[u].Valid() && Below(b, next)
    ensures u in r.0 && |r.0[u].conns| == |b[u].conns| && r.1 >= next && Below(r.0, r.1)
  {
    if o == 0 then (b, next)
    else
      var (b1, f1) := SplitAll(b, u, o - 1, next);
      if !b[u].signal[o - 1] && |b[u].conns[o - 1]| > 1 then (Split(b1, u, o - 1, f1), f1 + 1) else (b1, f1)
  }

  // ----- how expansion in place goes along -----

  function Emptied(x: Box, n: nat): (r: Box)
    ensures |r.conns| == |x.conns|
  {
    x.(conns := seq(|x.conns|, o requires 0 <= o < |x.conns| => if o < n then [] else x.conns[o]))
  }

  lemma {:induction false} SpreadConnsLength(outs: seq<seq<Conn>>, n: nat)
    requires n <= |outs|
    ensures |SpreadConns(outs[..n])| <= |SpreadConns(outs)|
    ensures n < |outs| ==> |SpreadConns(outs[..n])| + |outs[n]| == |SpreadConns(outs[..n + 1])| <= |SpreadConns(outs)|
    decreases |outs| - n
  {
    if n < |outs| {
      assert outs[..n + 1][..n] == outs[..n];
      SpreadConnsLength(outs, n + 1);
    } else {
      assert outs[..n] == outs;
    }
  }

  /** Outlets below n of t emptied onto the new trigger s. */
  function Expanding(m: Boxes, t: nat, s: nat, types: seq<char>, n: nat): (r: Boxes)
    requires t in m && n <= |m[t].conns| && |SpreadConns(m[t].conns[..n])| <= |types|
    ensures r.Keys == m.Keys + {s}
  {
    var placed := SpreadConns(m[t].conns[..n]);
    m[t := Emptied(m[t], n)]
     [s := Box(true, types, Repeat(false, |types|), placed + Repeat([], |types| - |placed|))]
  }

  lemma ExpandingStep(m: Boxes, t: nat, s: nat, types: seq<char>, n: nat)
    requires t in m && t != s && n < |m[t].conns| && |types| == |SpreadConns(m[t].conns)|
    ensures |SpreadConns(m[t].conns[..n])| <= |SpreadConns(m[t].conns[..n + 1])| <= |types|
    ensures var e, base, ds := Expanding(m, t, s, types, n), |SpreadConns(m[t].conns[..n])|, m[t].conns[n];
            && e[t].conns[n] == ds && base + |ds| == |SpreadConns(m[t].conns[..n + 1])|
            && |e[s].conns| == |types| && |e[t].conns| == |m[t].conns|
            && Stacked(e, t, n, s, base, ds) == Expanding(m, t, s, types, n + 1)
  {
    SpreadConnsLength(m[t].conns, n);
    var e, ds := Expanding(m, t, s, types, n), m[t].conns[n];
    var placed := SpreadConns(m[t].conns[..n]);
    var base := |placed|;
    var after := Expanding(m, t, s, types, n + 1);
    RemoveAll(ds);
    assert e[t].conns[n := []] == Emptied(m[t], n + 1).conns;
    PlacedIs(e[s].conns, base, ds);
    assert m[t].conns[..n + 1][..n] == m[t].conns[..n];
    assert SpreadConns(m[t].conns[..n + 1]) == placed + Singles(ds);
    hide SpreadConns, Singles, Placed;
    assert e[s].conns[..base] == placed;
    assert e[s].conns[base + |ds|..] == Repeat([], |types| - base - |ds|);
    assert after[s].conns == placed + Singles(ds) + Repeat([], |types| - base - |ds|);
  }

  lemma {:induction false} SpreadMoved(types: seq<char>, outs: seq<seq<Conn>>, moved: seq<seq<Conn>>)
    requires |types| == |outs| == |moved| && forall o: nat :: o < |outs| ==> |moved[o]| == |outs[o]|
    ensures SpreadTypes(types, moved) == SpreadTypes(types, outs)
  {
    if outs != [] {
      var n := |outs| - 1;
      SpreadMoved(types[..n], outs[..n], moved[..n]);
    }
  }

  lemma ExpandingStarts(b: Boxes, t: nat, s: nat, types: seq<char>)
    requires t in b && s !in b
    ensures var empty := Box(true, types, Repeat(false, |types|), Repeat([], |types|));
            var m := MovedAll(b[s := empty], t, s);
            && m == MovedAll(b, t, s)[s := empty] && Expanding(m, t, s, types, 0) == m
  {
    var empty := Box(true, types, Repeat(false, |types|), Repeat([], |types|));
    assert Moved([], t, s) == [];
    hide Moved;
    assert MovedBox(empty, t, s).conns == empty.conns;
    var m := MovedAll(b[s := empty], t, s);
    assert Emptied(m[t], 0).conns == m[t].conns;
    assert m[t].conns[..0] == [];
    assert [] + Repeat<seq<Conn>>([], |types| - 0) == Repeat([], |types|);
  }

  lemma ExpandingEnds(b: Boxes, t: nat, s: nat, types: seq<char>, m: Boxes)
    requires t in b && s !in b && b[t].trigger && b[t].Valid() && types == SpreadTypes(b[t].types, b[t].conns)
    requires m == MovedAll(b, t, s)[s := Box(true, types, Repeat(false, |types|), Repeat([], |types|))]
    ensures |types| == |SpreadConns(m[t].conns)|
    ensures m[t].conns[..|m[t].conns|] == m[t].conns
    ensures Expanding(m, t, s, types, |m[t].conns|) - {t} == Expand(b, t, s)
  {
    var x, outs := MovedBox(b[t], t, s), m[t].conns;
    forall o: nat | o < |outs| ensures |outs[o]| == |b[t].conns[o]| { MovedLength(b[t].conns[o], t, s); }
    hide Moved;
    SpreadMoved(b[t].types, b[t].conns, outs);
    SpreadIs(x, types);
    assert outs[..|outs|] == outs;
    hide SpreadConns, SpreadTypes, MovedBox, MovedAll, SpreadBox, Emptied;
    var empty := Box(true, types, Repeat(false, |types|), Repeat([], |types|));
    AroundKey(MovedAll(b, t, s), t, s, empty, Emptied(m[t], |outs|), SpreadBox(x));
  }

  /** With all outlets emptied onto it, the new trigger is the expanded one. */
  lemma SpreadIs(x: Box, types: seq<char>)
    requires x.trigger && x.Valid() && types == SpreadTypes(x.types, x.conns)
    ensures |types| == |SpreadConns(x.conns)|
    ensures SpreadBox(x)
            == Box(true, types, Repeat(false, |types|),
                   SpreadConns(x.conns) + Repeat([], |types| - |SpreadConns(x.conns)|))
  {
    SpreadLengths(x.types, x.conns);
    hide SpreadConns, SpreadTypes;
    assert SpreadConns(x.conns) + Repeat([], 0) == SpreadConns(x.conns);
  }

  lemma AroundKey(m: Boxes, t: nat, s: nat, x: Box, y: Box, z: Box)
    requires t != s
    ensures m[s := x][t := y][s := z] - {t} == (m - {t})[s := z]
  {
  }

  lemma SplitIs(b: Boxes, u: nat, o: nat, s: nat)
    requires u in b && o < |b[u].conns| && s !in b
    ensures var ds := b[u].conns[o];
            var b2 := b[s := Box(true, Repeat('a', |ds|), Repeat(false, |ds|), Repeat([], |ds|))];
            var b3 := Stacked(b2, u, o, s, 0, ds);
            && |b3[u].conns| == |b[u].conns| && b3[u].conns[o] == []
            && WithConns(b3, u, o, b3[u].conns[o] + [Conn(s, 0)]) == Split(b, u, o, s)
  {
    var ds := b[u].conns[o];
    var outs := Repeat<seq<Conn>>([], |ds|);
    RemoveAll(ds);
    PlacedIs(outs, 0, ds);
    assert outs[..0] + Singles(ds) + outs[|ds|..] == Singles(ds);
    assert b[u].conns[o := []][o := [Conn(s, 0)]] == b[u].conns[o := [Conn(s, 0)]];
    assert [] + [Conn(s, 0)] == [Conn(s, 0)];
  }

  /** The outlets not yet reached, and all but the connections of the others, are as they were. */
  lemma {:induction false} SplitAllKeeps(b: Boxes, u: nat, o: nat, next: nat)
    requires u in b && o <= |b[u].conns| && b[u].Valid() && Below(b, next)
    ensures var x := SplitAll(b, u, o, next).0[u];
            && x.signal == b[u].signal && x.trigger == b[u].trigger && x.types == b[u].types
            && forall p: nat :: o <= p < |b[u].conns| ==> x.conns[p] == b[u].conns[p]
  {
    if o > 0 { SplitAllKeeps(b, u, o - 1, next); }
  }

  lemma SplitAllStep(b: Boxes, u: nat, o: nat, next: nat)
    requires u in b && o < |b[u].conns| && b[u].Valid() && Below(b, next)
    ensures var (b1, f1) := SplitAll(b, u, o, next);
            && b1[u].conns[o] == b[u].conns[o] && |b1[u].signal| == |b1[u].conns| && b1[u].signal[o] == b[u].signal[o]
            && SplitAll(b, u, o + 1, next)
               == if !b[u].signal[o] && |b[u].conns[o]| > 1 then (Split(b1, u, o, f1), f1 + 1) else (b1, f1)
  {
    SplitAllKeeps(b, u, o, next);
  }
}
