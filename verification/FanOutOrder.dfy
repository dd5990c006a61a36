/**
 * What the fan-out rewriting preserves.  A message leaving an outlet is followed to the inlets it reaches,
 * through the triggers that the rewriting has put in between; boxes that have replaced others go by the
 * name of what they replaced.  Deliveries to triggers that have been replaced may come later than before;
 * everything else comes in the same order, and nothing is lost or doubled.
 */
module FanOutOrder {
  import opened PatchModel

  /** One delivery: the kind of message and where it goes. */
  datatype Send = Send(kind: char, dest: nat, inlet: nat)

  function Name(name: map<nat, nat>, u: nat): nat {
    if u in name then name[u] else u
  }

  function Sends(kind: char, name: map<nat, nat>, cs: seq<Conn>): (r: seq<Send>)
    ensures |r| == |cs|
  {
    if cs == [] then [] else [Send(kind, Name(name, cs[0].dest), cs[0].inlet)] + Sends(kind, name, cs[1..])
  }

  /** A trigger's connections in the order it sends along them: its outlets from right to left. */
  function RightToLeft(outs: seq<seq<Conn>>): seq<Conn> {
    if outs == [] then [] else outs[|outs| - 1] + RightToLeft(outs[..|outs| - 1])
  }

  /** What a trigger's argument makes of a message: `a` passes it on, any other converts it. */
  function Passed(kind: char, argument: char): char {
    if argument == 'a' then kind else argument
  }

  /** What a trigger makes of a message, outlet by outlet from the right. */
  function Relay(kind: char, types: seq<char>, outs: seq<seq<Conn>>, name: map<nat, nat>): seq<Send>
    requires |types| == |outs|
  {
    if outs == [] then []
    else
      var n := |outs| - 1;
      Sends(Passed(kind, types[n]), name, outs[n]) + Relay(kind, types[..n], outs[..n], name)
  }

  /** How many connections leave the outlets to the right of outlet o. */
  function Rightward(outs: seq<seq<Conn>>, o: nat): nat
    requires o < |outs|
    decreases |outs|
  {
    if o == |outs| - 1 then 0 else |outs[|outs| - 1]| + Rightward(outs[..|outs| - 1], o)
  }

  /**
   * Connection i of outlet o comes after all those of the outlets to its right and the i before it, and sends the
   * message as it came if the outlet's argument is `a`, otherwise converted to the argument's kind.
   */
  lemma {:induction false} RelayAt(kind: char, types: seq<char>, outs: seq<seq<Conn>>, name: map<nat, nat>, o: nat,
                                   i: nat)
    requires |types| == |outs| && o < |outs| && i < |outs[o]|
    ensures var r, k, c := Relay(kind, types, outs, name), Rightward(outs, o) + i, outs[o][i];
            && k < |r|
            && r[k] == Send(if types[o] == 'a' then kind else types[o], if c.dest in name then name[c.dest] else c.dest,
                            c.inlet)
    decreases |outs|
  {
    var n := |outs| - 1;
    SendsAt(Passed(kind, types[n]), name, outs[n], if o == n then i else 0);
    if o < n { RelayAt(kind, types[..n], outs[..n], name, o, i); }
  }

  lemma {:induction false} SendsAt(kind: char, name: map<nat, nat>, cs: seq<Conn>, i: nat)
    ensures i < |cs| ==> Sends(kind, name, cs)[i] == Send(kind, Name(name, cs[i].dest), cs[i].inlet)
  {
    if 0 < i < |cs| { SendsAt(kind, name, cs[1..], i - 1); }
  }

  /** What a message of some kind, sent along a connection, reaches; an inserted trigger is followed through. */
  function Reach(kind: char, b: Boxes, ins: set<nat>, name: map<nat, nat>, c: Conn): seq<Send> {
    if c.dest in ins && c.dest in b && |b[c.dest].types| == |b[c.dest].conns|
    then Relay(kind, b[c.dest].types, b[c.dest].conns, name)
    else [Send(kind, Name(name, c.dest), c.inlet)]
  }

  /** ... and sent along several, one after the other. */
  function Out(kind: char, b: Boxes, ins: set<nat>, name: map<nat, nat>, cs: seq<Conn>): seq<Send> {
    if cs == [] then [] else Reach(kind, b, ins, name, cs[0]) + Out(kind, b, ins, name, cs[1..])
  }

  /** Everything one message to a trigger sends on. */
  function Fire(b: Boxes, ins: set<nat>, name: map<nat, nat>, types: seq<char>, outs: seq<seq<Conn>>): seq<Send>
    requires |types| == |outs|
  {
    if outs == [] then []
    else
      var n := |outs| - 1;
      Out(types[n], b, ins, name, outs[n]) + Fire(b, ins, name, types[..n], outs[..n])
  }

  // ----- the same but for the replaced -----

  function Keep(d: set<nat>, x: seq<Send>): (r: seq<Send>) {
    if x == [] then [] else (if x[0].dest in d then [] else [x[0]]) + Keep(d, x[1..])
  }

  /** The same deliveries, and in the same order but for those to members of d. */
  ghost predicate Close(d: set<nat>, x: seq<Send>, y: seq<Send>) {
    multiset(x) == multiset(y) && Keep(d, x) == Keep(d, y)
  }

  lemma {:induction false} KeepJoin(d: set<nat>, x: seq<Send>, y: seq<Send>)
    ensures Keep(d, x + y) == Keep(d, x) + Keep(d, y)
  {
    if x == [] {
      assert x + y == y;
    } else {
      assert (x + y)[0] == x[0] && (x + y)[1..] == x[1..] + y;
      KeepJoin(d, x[1..], y);
    }
  }

  lemma {:induction false} KeepMore(d: set<nat>, e: set<nat>, x: seq<Send>)
    requires d <= e
    ensures Keep(e, x) == Keep(e, Keep(d, x))
  {
    if x != [] {
      KeepMore(d, e, x[1..]);
      KeepJoin(e, if x[0].dest in d then [] else [x[0]], Keep(d, x[1..]));
    }
  }

  lemma {:induction false} KeepNone(x: seq<Send>)
    ensures Keep({}, x) == x
  {
    if x != [] { KeepNone(x[1..]); }
  }

  lemma CloseJoin(d: set<nat>, x: seq<Send>, y: seq<Send>, u: seq<Send>, v: seq<Send>)
    requires Close(d, x, y) && Close(d, u, v)
    ensures Close(d, x + u, y + v)
  {
    KeepJoin(d, x, u);
    KeepJoin(d, y, v);
  }

  lemma CloseMore(d: set<nat>, e: set<nat>, x: seq<Send>, y: seq<Send>)
    requires d <= e && Close(d, x, y)
    ensures Close(e, x, y)
  {
    KeepMore(d, e, x);
    KeepMore(d, e, y);
  }

  /** If nothing has been replaced, the same means exactly the same. */
  lemma CloseIsSame(x: seq<Send>, y: seq<Send>)
    ensures Close({}, x, y) <==> x == y
  {
    KeepNone(x);
    KeepNone(y);
  }

  // ----- following messages -----

  lemma {:induction false} SendsJoin(kind: char, name: map<nat, nat>, cs: seq<Conn>, ds: seq<Conn>)
    ensures Sends(kind, name, cs + ds) == Sends(kind, name, cs) + Sends(kind, name, ds)
  {
    if cs == [] {
      assert cs + ds == ds;
    } else {
      assert (cs + ds)[0] == cs[0] && (cs + ds)[1..] == cs[1..] + ds;
      SendsJoin(kind, name, cs[1..], ds);
    }
  }

  lemma OutFirst(kind: char, b: Boxes, ins: set<nat>, name: map<nat, nat>, cs: seq<Conn>)
    requires cs != []
    ensures Out(kind, b, ins, name, cs) == Reach(kind, b, ins, name, cs[0]) + Out(kind, b, ins, name, cs[1..])
  {
  }

  lemma SendsRegroup(a: seq<Send>, b: seq<Send>, c: seq<Send>)
    ensures (a + b) + c == a + (b + c)
  {
  }

  lemma {:induction false} OutJoin(kind: char, b: Boxes, ins: set<nat>, name: map<nat, nat>, cs: seq<Conn>,
                                   ds: seq<Conn>)
    ensures Out(kind, b, ins, name, cs + ds) == Out(kind, b, ins, name, cs) + Out(kind, b, ins, name, ds)
  {
    if cs == [] {
      assert cs + ds == ds;
    } else {
      OutFirst(kind, b, ins, name, cs + ds);
      OutFirst(kind, b, ins, name, cs);
      hide Reach, Out;
      assert (cs + ds)[0] == cs[0] && (cs + ds)[1..] == cs[1..] + ds;
      OutJoin(kind, b, ins, name, cs[1..], ds);
      SendsRegroup(Reach(kind, b, ins, name, cs[0]), Out(kind, b, ins, name, cs[1..]), Out(kind, b, ins, name, ds));
    }
  }

  lemma {:induction false} OutPlain(kind: char, b: Boxes, ins: set<nat>, name: map<nat, nat>, cs: seq<Conn>)
    requires forall c :: c in cs ==> c.dest !in ins
    ensures Out(kind, b, ins, name, cs) == Sends(kind, name, cs)
  {
    if cs != [] {
      assert cs[0] in cs;
      OutPlain(kind, b, ins, name, cs[1..]);
    }
  }

  /** A trigger all of whose arguments are `a`. */
  ghost predicate Passes(x: Box) {
    |x.types| == |x.conns| && forall p: nat :: p < |x.types| ==> x.types[p] == 'a'
  }

  /** Such a trigger sends what it gets along all its connections, from the right. */
  lemma {:induction false} RelayPasses(kind: char, types: seq<char>, outs: seq<seq<Conn>>, name: map<nat, nat>)
    requires |types| == |outs| && forall p: nat :: p < |types| ==> types[p] == 'a'
    ensures Relay(kind, types, outs, name) == Sends(kind, name, RightToLeft(outs))
  {
    if outs != [] {
      var n := |outs| - 1;
      RelayPasses(kind, types[..n], outs[..n], name);
      SendsJoin(kind, name, outs[n], RightToLeft(outs[..n]));
    }
  }

  /** ... and it is what one connection to it reaches. */
  lemma OutThrough(kind: char, b: Boxes, ins: set<nat>, name: map<nat, nat>, cs: seq<Conn>)
    requires |cs| == 1 && cs[0].dest in ins && cs[0].dest in b && Passes(b[cs[0].dest])
    ensures Out(kind, b, ins, name, cs) == Sends(kind, name, RightToLeft(b[cs[0].dest].conns))
  {
    var x := b[cs[0].dest];
    assert cs[1..] == [];
    RelayPasses(kind, x.types, x.conns, name);
    hide Relay, RightToLeft, Sends;
    assert Out(kind, b, ins, name, cs) == Relay(kind, x.types, x.conns, name) + [];
  }

  /** A new trigger sends along the connections it took over in their own order. */
  lemma {:induction false} RightToLeftSingles(ds: seq<Conn>)
    ensures RightToLeft(Singles(ds)) == ds
  {
    if ds != [] {
      RightToLeftSingles(ds[1..]);
      assert Singles(ds)[..|ds| - 1] == Singles(ds[1..]);
    }
  }

  /** A group of outlets of one kind, one for each connection, sends what one outlet with all of them sends. */
  lemma {:induction false} FireSingles(b: Boxes, ins: set<nat>, name: map<nat, nat>, types: seq<char>,
                                       outs: seq<seq<Conn>>, kind: char, ds: seq<Conn>)
    requires |types| == |outs|
    ensures Fire(b, ins, name, types + Repeat(kind, |ds|), outs + Singles(ds))
            == Out(kind, b, ins, name, ds) + Fire(b, ins, name, types, outs)
  {
    OutNone(kind, b, ins, name);
    hide Fire, Out, Singles;
    if ds == [] {
      NoSingles(types, outs, kind);
    } else {
      var t, o := types + Repeat(kind, |ds|), outs + Singles(ds);
      LastSingle(types, outs, kind, ds);
      FireSingles(b, ins, name, types, outs, kind, ds[1..]);
      OutJoin(kind, b, ins, name, [ds[0]], ds[1..]);
      assert [ds[0]] + ds[1..] == ds;
      FireStep(b, ins, name, t, o);
    }
  }

  lemma SinglesStep(ds: seq<Conn>)
    ensures Singles(ds) == if ds == [] then [] else Singles(ds[1..]) + [[ds[0]]]
  {
  }

  lemma NoSingles(types: seq<char>, outs: seq<seq<Conn>>, kind: char)
    ensures types + Repeat(kind, 0) == types && outs + Singles([]) == outs
  {
  }

  lemma LastSingle(types: seq<char>, outs: seq<seq<Conn>>, kind: char, ds: seq<Conn>)
    requires |types| == |outs| && ds != []
    ensures var t, o, n := types + Repeat(kind, |ds|), outs + Singles(ds), |outs| + |ds| - 1;
      && |t| == |o| == n + 1 && t[..n] == types + Repeat(kind, |ds| - 1) && t[n] == kind
      && o[..n] == outs + Singles(ds[1..]) && o[n] == [ds[0]]
  {
    SinglesStep(ds);
    hide Singles;
    assert outs + Singles(ds) == outs + Singles(ds[1..]) + [[ds[0]]];
  }

  lemma OutNone(kind: char, b: Boxes, ins: set<nat>, name: map<nat, nat>)
    ensures Out(kind, b, ins, name, []) == []
  {
  }

  lemma FireStep(b: Boxes, ins: set<nat>, name: map<nat, nat>, types: seq<char>, outs: seq<seq<Conn>>)
    requires |types| == |outs| && outs != []
    ensures var n := |outs| - 1;
            Fire(b, ins, name, types, outs)
            == Out(types[n], b, ins, name, outs[n]) + Fire(b, ins, name, types[..n], outs[..n])
  {
  }

  /** An expanded trigger sends exactly what the original sends: the same places, in order, the same kinds. */
  lemma {:induction false} FireSpread(b: Boxes, ins: set<nat>, name: map<nat, nat>, types: seq<char>,
                                      outs: seq<seq<Conn>>)
    requires |types| == |outs|
    ensures |SpreadTypes(types, outs)| == |SpreadConns(outs)|
    ensures Fire(b, ins, name, SpreadTypes(types, outs), SpreadConns(outs)) == Fire(b, ins, name, types, outs)
  {
    SpreadLengths(types, outs);
    if outs != [] {
      var n := |outs| - 1;
      SpreadLengths(types[..n], outs[..n]);
      FireSpread(b, ins, name, types[..n], outs[..n]);
      FireSingles(b, ins, name, SpreadTypes(types[..n], outs[..n]), SpreadConns(outs[..n]), types[n], outs[n]);
    }
  }

  // ----- redirecting -----

  /** Redirecting the connections to t, to its replacement, changes only when t's deliveries come. */
  lemma {:induction false} MovedClose(kind: char, name: map<nat, nat>, d: set<nat>, cs: seq<Conn>, t: nat, s: nat)
    requires Name(name, t) in d && forall c :: c in cs ==> c.dest != s
    ensures Close(d, Sends(kind, name[s := Name(name, t)], Moved(cs, t, s)), Sends(kind, name, cs))
  {
    var name2 := name[s := Name(name, t)];
    MovedSends(kind, name, d, cs, t, s);
    SendsJoin(kind, name2, Others(cs, t), Redirected(cs, t, s));
    KeepJoin(d, Sends(kind, name2, Others(cs, t)), Sends(kind, name2, Redirected(cs, t, s)));
  }

  lemma MovedSends(kind: char, name: map<nat, nat>, d: set<nat>, cs: seq<Conn>, t: nat, s: nat)
    requires Name(name, t) in d && forall c :: c in cs ==> c.dest != s
    ensures var name2 := name[s := Name(name, t)];
            var x, y := Sends(kind, name2, Others(cs, t)), Sends(kind, name2, Redirected(cs, t, s));
            && multiset(x) + multiset(y) == multiset(Sends(kind, name, cs))
            && Keep(d, x) == Keep(d, Sends(kind, name, cs)) && Keep(d, y) == []
  {
    MovedCounts(kind, name, cs, t, s);
    OthersKept(kind, name, d, cs, t, s);
    RedirectedDropped(kind, name, d, cs, t, s);
  }

  lemma {:induction false} MovedCounts(kind: char, name: map<nat, nat>, cs: seq<Conn>, t: nat, s: nat)
    requires forall c :: c in cs ==> c.dest != s
    ensures var name2 := name[s := Name(name, t)];
            multiset(Sends(kind, name2, Others(cs, t))) + multiset(Sends(kind, name2, Redirected(cs, t, s)))
            == multiset(Sends(kind, name, cs))
  {
    if cs != [] {
      assert cs[0] in cs;
      MovedCounts(kind, name, cs[1..], t, s);
      var name2, o, r := name[s := Name(name, t)], Others(cs[1..], t), Redirected(cs[1..], t, s);
      var c, n := cs[0], Conn(s, cs[0].inlet);
      assert c.dest == t ==> Others(cs, t) == o && Redirected(cs, t, s) == [n] + r;
      assert c.dest != t ==> Others(cs, t) == [c] + o && Redirected(cs, t, s) == r;
      hide Sends, Others, Redirected;
      HeadSends(kind, name, cs);
      var x := multiset{Send(kind, Name(name, c.dest), c.inlet)};
      AddedCounts(multiset(Sends(kind, name2, o)), multiset(Sends(kind, name2, r)),
                  multiset(Sends(kind, name, cs[1..])), x);
      if c.dest == t {
        HeadSends(kind, name2, [n] + r);
        assert ([n] + r)[1..] == r && Name(name2, s) == Name(name, t);
      } else {
        HeadSends(kind, name2, [c] + o);
        assert ([c] + o)[1..] == o && Name(name2, c.dest) == Name(name, c.dest);
      }
    }
  }

  lemma AddedCounts(a: multiset<Send>, b: multiset<Send>, c: multiset<Send>, x: multiset<Send>)
    requires a + b == c
    ensures a + (x + b) == x + c && (x + a) + b == x + c
  {
  }

  lemma HeadSends(kind: char, name: map<nat, nat>, cs: seq<Conn>)
    requires cs != []
    ensures multiset(Sends(kind, name, cs))
            == multiset{Send(kind, Name(name, cs[0].dest), cs[0].inlet)} + multiset(Sends(kind, name, cs[1..]))
  {
  }

  lemma {:induction false} OthersKept(kind: char, name: map<nat, nat>, d: set<nat>, cs: seq<Conn>, t: nat, s: nat)
    requires Name(name, t) in d && forall c :: c in cs ==> c.dest != s
    ensures Keep(d, Sends(kind, name[s := Name(name, t)], Others(cs, t))) == Keep(d, Sends(kind, name, cs))
  {
    if cs != [] {
      assert cs[0] in cs;
      OthersKept(kind, name, d, cs[1..], t, s);
    }
  }

  lemma {:induction false} RedirectedDropped(kind: char, name: map<nat, nat>, d: set<nat>, cs: seq<Conn>, t: nat,
                                             s: nat)
    requires Name(name, t) in d
    ensures Keep(d, Sends(kind, name[s := Name(name, t)], Redirected(cs, t, s))) == []
  {
    if cs != [] { RedirectedDropped(kind, name, d, cs[1..], t, s); }
  }

  /** Everything after a connection to t leads to t. */
  ghost predicate LastOnes(cs: seq<Conn>, t: nat) {
    forall i: nat, j: nat :: i < j < |cs| && cs[i].dest == t ==> cs[j].dest == t
  }

  /** Redirecting keeps a list's own order exactly when the connections to the replaced box came last in it. */
  lemma {:induction false} MovedInOrderIff(kind: char, cs: seq<Conn>, t: nat, s: nat)
    requires forall c :: c in cs ==> c.dest != s
    ensures Sends(kind, map[s := t], Moved(cs, t, s)) == Sends(kind, map[], cs) <==> LastOnes(cs, t)
  {
    var x, y := Sends(kind, map[s := t], Moved(cs, t, s)), Sends(kind, map[], cs);
    if cs != [] {
      assert cs[0] in cs;
      var tail := cs[1..];
      MovedInOrderIff(kind, tail, t, s);
      if cs[0].dest != t {
        assert Moved(cs, t, s) == [cs[0]] + Moved(tail, t, s);
        HeadOther(cs, t);
        var c := Send(kind, cs[0].dest, cs[0].inlet);
        assert x == [c] + Sends(kind, map[s := t], Moved(tail, t, s)) && y == [c] + Sends(kind, map[], tail);
        assert x[1..] == Sends(kind, map[s := t], Moved(tail, t, s)) && y[1..] == Sends(kind, map[], tail);
      } else if Others(tail, t) == [] {
        OthersNone(tail, t);
        assert forall c :: c in cs ==> c.dest == t;
        RedirectedAll(kind, cs, t, s);
        assert [] + Redirected(cs, t, s) == Redirected(cs, t, s);
        assert forall j: nat :: j < |cs| ==> cs[j] in cs;
      } else {
        OtherFirst(kind, cs, t, s);
        OtherAfter(cs, t);
      }
    }
  }

  lemma OtherFirst(kind: char, cs: seq<Conn>, t: nat, s: nat)
    requires cs != [] && cs[0].dest == t && Others(cs[1..], t) != [] && forall c :: c in cs ==> c.dest != s
    ensures Sends(kind, map[s := t], Moved(cs, t, s)) != Sends(kind, map[], cs)
  {
    assert Moved(cs, t, s)[0] == Others(cs[1..], t)[0] && Others(cs[1..], t)[0] in Others(cs[1..], t);
    assert Sends(kind, map[s := t], Moved(cs, t, s))[0].dest != t && Sends(kind, map[], cs)[0].dest == t;
  }

  lemma HeadOther(cs: seq<Conn>, t: nat)
    requires cs != [] && cs[0].dest != t
    ensures LastOnes(cs, t) <==> LastOnes(cs[1..], t)
  {
    if LastOnes(cs[1..], t) {
      forall i: nat, j: nat | i < j < |cs| && cs[i].dest == t ensures cs[j].dest == t {
        assert cs[1..][i - 1] == cs[i] && cs[1..][j - 1] == cs[j];
      }
    }
  }

  lemma OtherAfter(cs: seq<Conn>, t: nat)
    requires cs != [] && cs[0].dest == t && Others(cs[1..], t) != []
    ensures !LastOnes(cs, t)
  {
    var c := Others(cs[1..], t)[0];
    assert c in cs[1..] && c.dest != t;
    var j: nat :| j < |cs[1..]| && cs[1..][j] == c;
    assert cs[j + 1].dest != t;
  }

  lemma {:induction false} OthersNone(cs: seq<Conn>, t: nat)
    requires Others(cs, t) == []
    ensures forall c :: c in cs ==> c.dest == t
  {
    if cs != [] { OthersNone(cs[1..], t); }
  }

  lemma {:induction false} RedirectedAll(kind: char, cs: seq<Conn>, t: nat, s: nat)
    requires forall c :: c in cs ==> c.dest == t
    ensures Others(cs, t) == [] && Sends(kind, map[s := t], Redirected(cs, t, s)) == Sends(kind, map[], cs)
  {
    if cs != [] {
      assert cs[0] in cs;
      RedirectedAll(kind, cs[1..], t, s);
    }
  }

  /** Connected to the replaced box first and to another second: the other's message now comes first. */
  lemma MovedOutOfOrder()
    ensures var cs := [Conn(1, 0), Conn(2, 0)];
            && Sends('b', map[], cs) == [Send('b', 1, 0), Send('b', 2, 0)]
            && Sends('b', map[3 := 1], Moved(cs, 1, 3)) == [Send('b', 2, 0), Send('b', 1, 0)]
  {
    var cs := [Conn(1, 0), Conn(2, 0)];
    assert cs[1..] == [Conn(2, 0)];
    assert Moved(cs, 1, 3) == [Conn(2, 0), Conn(3, 0)];
    assert [Conn(2, 0), Conn(3, 0)][1..] == [Conn(3, 0)];
  }

  // ----- what holds all along the rewriting -----

  ghost predicate Plain(cs: seq<Conn>, ins: set<nat>) {
    forall c :: c in cs ==> c.dest !in ins
  }

  ghost predicate Into(cs: seq<Conn>, keys: set<nat>) {
    forall c :: c in cs ==> c.dest in keys
  }

  /** An inserted trigger shares an outlet with nothing else. */
  ghost predicate Uses(cs: seq<Conn>, ins: set<nat>) {
    Plain(cs, ins) || |cs| == 1
  }

  ghost predicate OutletsFine(x: Box, ins: set<nat>, keys: set<nat>) {
    forall p: nat :: p < |x.conns| ==> Uses(x.conns[p], ins) && Into(x.conns[p], keys)
  }

  ghost predicate Inserted(x: Box, ins: set<nat>) {
    x.trigger && Passes(x) && forall p: nat :: p < |x.conns| ==> |x.conns[p]| == 1 && Plain(x.conns[p], ins)
  }

  ghost predicate Shape(b: Boxes, ins: set<nat>) {
    && AllValid(b) && ins <= b.Keys
    && (forall q: nat :: q in ins ==> Inserted(b[q], ins))
    && (forall u: nat :: u in b ==> OutletsFine(b[u], ins, b.Keys))
  }

  const PLAIN: char := '.'

  /** Box x, in patch b, sends what the original y sent in patch b0. */
  ghost predicate Kept(b0: Boxes, b: Boxes, ins: set<nat>, name: map<nat, nat>, d: set<nat>, x: Box, y: Box) {
    && x.trigger == y.trigger && x.Valid() && y.Valid()
    && (x.trigger ==> Close(d, Fire(b, ins, name, x.types, x.conns), Fire(b0, {}, map[], y.types, y.conns)))
    && (!x.trigger ==>
          && x.signal == y.signal
          && forall p: nat :: p < |x.conns| ==>
               Close(d, Out(PLAIN, b, ins, name, x.conns[p]), Out(PLAIN, b0, {}, map[], y.conns[p])))
  }

  ghost predicate Inv(b0: Boxes, b: Boxes, ins: set<nat>, name: map<nat, nat>, d: set<nat>) {
    && Shape(b, ins) && ins !! b0.Keys
    && forall u: nat :: u in b && u !in ins ==>
        Name(name, u) in b0 && Kept(b0, b, ins, name, d, b[u], b0[Name(name, u)])
  }

  /** Every connection leads to a box of the patch. */
  ghost predicate Closed(b: Boxes) {
    forall u: nat :: u in b ==> forall p: nat :: p < |b[u].conns| ==> Into(b[u].conns[p], b.Keys)
  }

  lemma InvStarts(b: Boxes)
    requires AllValid(b) && Closed(b)
    ensures Inv(b, b, {}, map[], {})
  {
    hide Fire, Out, Keep;
  }

  // ----- resolving a fan-out -----

  lemma {:induction false} OutSplit(kind: char, b: Boxes, u: nat, o: nat, s: nat, ins: set<nat>, name: map<nat, nat>,
                                    cs: seq<Conn>)
    requires u in b && u !in ins && o < |b[u].conns| && s !in b && Into(cs, b.Keys)
    ensures Out(kind, Split(b, u, o, s), ins + {s}, name, cs) == Out(kind, b, ins, name, cs)
  {
    if cs != [] {
      assert cs[0] in cs;
      hide Relay;
      OutSplit(kind, b, u, o, s, ins, name, cs[1..]);
    }
  }

  lemma {:induction false} FireSplit(b: Boxes, u: nat, o: nat, s: nat, ins: set<nat>, name: map<nat, nat>,
                                     types: seq<char>, outs: seq<seq<Conn>>)
    requires u in b && u !in ins && o < |b[u].conns| && s !in b && |types| == |outs|
    requires forall p: nat :: p < |outs| ==> Into(outs[p], b.Keys)
    ensures Fire(Split(b, u, o, s), ins + {s}, name, types, outs) == Fire(b, ins, name, types, outs)
  {
    if outs != [] {
      var n := |outs| - 1;
      OutSplit(types[n], b, u, o, s, ins, name, outs[n]);
      hide Split, Out;
      FireSplit(b, u, o, s, ins, name, types[..n], outs[..n]);
    }
  }

  /** Through the new trigger the rewritten outlet leads where it led, in the same order. */
  lemma OutStub(kind: char, b: Boxes, u: nat, o: nat, s: nat, ins: set<nat>, name: map<nat, nat>)
    requires u in b && o < |b[u].conns| && s !in b && Plain(b[u].conns[o], ins)
    ensures Out(kind, Split(b, u, o, s), ins + {s}, name, [Conn(s, 0)]) == Out(kind, b, ins, name, b[u].conns[o])
  {
    var ds, b2 := b[u].conns[o], Split(b, u, o, s);
    assert b2[s] == StubBox(ds) && Passes(b2[s]);
    OutPlain(kind, b, ins, name, ds);
    RightToLeftSingles(ds);
    hide Split, Out, RightToLeft, Singles, Sends, Passes;
    OutThrough(kind, b2, ins + {s}, name, [Conn(s, 0)]);
  }

  lemma SplitShape(b: Boxes, u: nat, o: nat, s: nat, ins: set<nat>)
    requires Shape(b, ins) && u in b && u !in ins && o < |b[u].conns| && s !in b && |b[u].conns[o]| > 1
    ensures Plain(b[u].conns[o], ins) && Shape(Split(b, u, o, s), ins + {s})
  {
    var b2, ins2, ds := Split(b, u, o, s), ins + {s}, b[u].conns[o];
    assert Uses(ds, ins) && Into(ds, b.Keys);
    SinglesFine(ds, ins2, b2.Keys);
    forall q: nat | q in ins2 ensures Inserted(b2[q], ins2) {
      if q != s {
        assert b2[q] == b[q] && Inserted(b[q], ins) && OutletsFine(b[q], ins, b.Keys);
      }
    }
    forall v: nat | v in b2 ensures OutletsFine(b2[v], ins2, b2.Keys) {
      if v != s {
        assert OutletsFine(b[v], ins, b.Keys);
        forall p: nat | p < |b2[v].conns| ensures Uses(b2[v].conns[p], ins2) && Into(b2[v].conns[p], b2.Keys) {
          if v != u || p != o { assert b2[v].conns[p] == b[v].conns[p]; }
        }
      }
    }
  }

  lemma {:induction false} SinglesFine(ds: seq<Conn>, ins: set<nat>, keys: set<nat>)
    requires Plain(ds, ins) && Into(ds, keys)
    ensures forall p: nat :: p < |ds| ==>
              |Singles(ds)[p]| == 1 && Plain(Singles(ds)[p], ins) && Into(Singles(ds)[p], keys)
  {
    if ds != [] {
      assert ds[0] in ds;
      SinglesFine(ds[1..], ins, keys);
    }
  }

  /** Resolving one fan-out of an ordinary box keeps everything. */
  lemma InvSplit(b0: Boxes, b: Boxes, ins: set<nat>, name: map<nat, nat>, d: set<nat>, u: nat, o: nat, s: nat)
    requires Inv(b0, b, ins, name, d) && u in b && u !in ins && !b[u].trigger
    requires o < |b[u].conns| && |b[u].conns[o]| > 1 && s !in b && s !in b0
    ensures Inv(b0, Split(b, u, o, s), ins + {s}, name, d)
  {
    var b2, ins2 := Split(b, u, o, s), ins + {s};
    SplitShape(b, u, o, s, ins);
    OutStub(PLAIN, b, u, o, s, ins, name);
    forall v: nat | v in b2 && v !in ins2
      ensures Name(name, v) in b0 && Kept(b0, b2, ins2, name, d, b2[v], b0[Name(name, v)])
    {
      SplitKeeps(b0, b, ins, name, d, u, o, s, v);
    }
  }

  lemma SplitKeeps(b0: Boxes, b: Boxes, ins: set<nat>, name: map<nat, nat>, d: set<nat>, u: nat, o: nat, s: nat, v: nat)
    requires Inv(b0, b, ins, name, d) && u in b && u !in ins && !b[u].trigger
    requires o < |b[u].conns| && |b[u].conns[o]| > 1 && s !in b && v in b && v !in ins
    ensures Name(name, v) in b0
    ensures Kept(b0, Split(b, u, o, s), ins + {s}, name, d, Split(b, u, o, s)[v], b0[Name(name, v)])
  {
    var b2, ins2 := Split(b, u, o, s), ins + {s};
    var x, x2 := b[v], b2[v];
    SplitShape(b, u, o, s, ins);
    assert OutletsFine(x, ins, b.Keys) && x2.Valid();
    if x.trigger {
      assert x2 == x;
      FireSplit(b, u, o, s, ins, name, x.types, x.conns);
    } else {
      OutStub(PLAIN, b, u, o, s, ins, name);
      forall p: nat | p < |x2.conns|
        ensures Close(d, Out(PLAIN, b2, ins2, name, x2.conns[p]), Out(PLAIN, b0, {}, map[], b0[Name(name, v)].conns[p]))
      {
        if v != u || p != o {
          assert x2.conns[p] == x.conns[p];
          OutSplit(PLAIN, b, u, o, s, ins, name, x.conns[p]);
        }
      }
    }
  }

  // ----- expanding a trigger in place -----

  /** The lists of a box, redirected one by one. */
  ghost predicate MovedLists(outs: seq<seq<Conn>>, moved: seq<seq<Conn>>, t: nat, s: nat) {
    |moved| == |outs| && forall p: nat :: p < |outs| ==> moved[p] == Moved(outs[p], t, s)
  }

  ghost predicate NoneTo(outs: seq<seq<Conn>>, s: nat) {
    forall p: nat :: p < |outs| ==> forall c :: c in outs[p] ==> c.dest != s
  }

  lemma {:induction false} RightToLeftMoved(kind: char, name: map<nat, nat>, d: set<nat>, outs: seq<seq<Conn>>,
                                            moved: seq<seq<Conn>>, t: nat, s: nat)
    requires Name(name, t) in d && MovedLists(outs, moved, t, s) && NoneTo(outs, s)
    ensures Close(d, Sends(kind, name[s := Name(name, t)], RightToLeft(moved)), Sends(kind, name, RightToLeft(outs)))
  {
    if outs != [] {
      var n, name2 := |outs| - 1, name[s := Name(name, t)];
      RightToLeftMoved(kind, name, d, outs[..n], moved[..n], t, s);
      MovedClose(kind, name, d, outs[n], t, s);
      SendsJoin(kind, name, outs[n], RightToLeft(outs[..n]));
      SendsJoin(kind, name2, moved[n], RightToLeft(moved[..n]));
      hide Close, Sends;
      CloseJoin(d, Sends(kind, name2, moved[n]), Sends(kind, name, outs[n]),
                Sends(kind, name2, RightToLeft(moved[..n])), Sends(kind, name, RightToLeft(outs[..n])));
    }
  }

  /** The inserted triggers' own lists have been redirected too. */
  ghost predicate StubsMoved(b: Boxes, b2: Boxes, ins: set<nat>, t: nat, s: nat) {
    forall q: nat :: q in ins ==>
      && q in b && q in b2 && MovedLists(b[q].conns, b2[q].conns, t, s) && NoneTo(b[q].conns, s)
      && Passes(b[q]) && Passes(b2[q])
  }

  lemma OutMoved(kind: char, b: Boxes, b2: Boxes, ins: set<nat>, name: map<nat, nat>, d: set<nat>, cs: seq<Conn>,
                 t: nat, s: nat)
    requires Name(name, t) in d && Uses(cs, ins) && t !in ins && s !in ins && (forall c :: c in cs ==> c.dest != s)
    requires StubsMoved(b, b2, ins, t, s)
    ensures Close(d, Out(kind, b2, ins, name[s := Name(name, t)], Moved(cs, t, s)), Out(kind, b, ins, name, cs))
  {
    hide Relay, Out, Passes;
    if Plain(cs, ins) {
      OutPlain(kind, b, ins, name, cs);
      assert Plain(Moved(cs, t, s), ins);
      OutPlain(kind, b2, ins, name[s := Name(name, t)], Moved(cs, t, s));
      MovedClose(kind, name, d, cs, t, s);
    } else {
      var q := cs[0].dest;
      assert cs == [cs[0]] && q in ins;
      MovedNone(cs, t, s);
      OutThrough(kind, b, ins, name, cs);
      OutThrough(kind, b2, ins, name[s := Name(name, t)], cs);
      hide RightToLeft, Sends, Close;
      RightToLeftMoved(kind, name, d, b[q].conns, b2[q].conns, t, s);
    }
  }

  lemma {:induction false} FireMoved(b: Boxes, b2: Boxes, ins: set<nat>, name: map<nat, nat>, d: set<nat>,
                                     types: seq<char>, outs: seq<seq<Conn>>, moved: seq<seq<Conn>>, t: nat, s: nat)
    requires |types| == |outs| && MovedLists(outs, moved, t, s) && NoneTo(outs, s)
    requires Name(name, t) in d && t !in ins && s !in ins && StubsMoved(b, b2, ins, t, s)
    requires forall p: nat :: p < |outs| ==> Uses(outs[p], ins)
    ensures Close(d, Fire(b2, ins, name[s := Name(name, t)], types, moved), Fire(b, ins, name, types, outs))
  {
    if outs != [] {
      var n, name2 := |outs| - 1, name[s := Name(name, t)];
      OutMoved(types[n], b, b2, ins, name, d, outs[n], t, s);
      hide Close, Out, StubsMoved, Uses;
      FireMoved(b, b2, ins, name, d, types[..n], outs[..n], moved[..n], t, s);
      CloseJoin(d, Out(types[n], b2, ins, name2, moved[n]), Out(types[n], b, ins, name, outs[n]),
                Fire(b2, ins, name2, types[..n], moved[..n]), Fire(b, ins, name, types[..n], outs[..n]));
    } else {
      hide Out;
    }
  }

  lemma MovedInto(cs: seq<Conn>, t: nat, s: nat, ins: set<nat>, keys: set<nat>)
    requires Into(cs, keys) && Uses(cs, ins) && t !in ins && s !in ins
    ensures Into(Moved(cs, t, s), keys - {t} + {s}) && Uses(Moved(cs, t, s), ins)
    ensures |Moved(cs, t, s)| == |cs| && (Plain(cs, ins) ==> Plain(Moved(cs, t, s), ins))
  {
    MovedLength(cs, t, s);
  }

  lemma {:induction false} SpreadFine(outs: seq<seq<Conn>>, ins: set<nat>, keys: set<nat>)
    requires forall p: nat :: p < |outs| ==> Into(outs[p], keys)
    ensures forall i: nat :: i < |SpreadConns(outs)| ==>
        Uses(SpreadConns(outs)[i], ins) && Into(SpreadConns(outs)[i], keys)
  {
    if outs != [] {
      SpreadFine(outs[..|outs| - 1], ins, keys);
      SinglesFine(outs[|outs| - 1], {}, keys);
    }
  }

  lemma ExpandShape(b: Boxes, ins: set<nat>, t: nat, s: nat)
    requires Shape(b, ins) && t in b && t !in ins && b[t].trigger && s !in b
    ensures Shape(Expand(b, t, s), ins) && StubsMoved(b, Expand(b, t, s), ins, t, s)
    ensures forall u: nat :: u in b ==> NoneTo(b[u].conns, s)
  {
    var b2, keys := Expand(b, t, s), b.Keys - {t} + {s};
    assert b2.Keys == keys;
    forall u: nat | u in b ensures OutletsFine(MovedBox(b[u], t, s), ins, keys) && NoneTo(b[u].conns, s) {
      assert OutletsFine(b[u], ins, b.Keys);
      forall p: nat | p < |b[u].conns|
        ensures Uses(MovedBox(b[u], t, s).conns[p], ins) && Into(MovedBox(b[u], t, s).conns[p], keys)
      {
        MovedInto(b[u].conns[p], t, s, ins, b.Keys);
      }
    }
    assert OutletsFine(MovedBox(b[t], t, s), ins, keys);
    SpreadFine(MovedBox(b[t], t, s).conns, ins, keys);
    forall q: nat | q in ins ensures Inserted(b2[q], ins) {
      assert Inserted(b[q], ins) && OutletsFine(b[q], ins, b.Keys);
      forall p: nat | p < |b2[q].conns| ensures |b2[q].conns[p]| == 1 && Plain(b2[q].conns[p], ins) {
        MovedInto(b[q].conns[p], t, s, ins, b.Keys);
      }
    }
    forall u: nat | u in b2 ensures OutletsFine(b2[u], ins, b2.Keys) {
      if u != s { assert b2[u] == MovedBox(b[u], t, s); }
    }
  }

  /** Expanding a trigger in place keeps everything, its own name added to those whose deliveries may be late. */
  lemma InvExpand(b0: Boxes, b: Boxes, ins: set<nat>, name: map<nat, nat>, d: set<nat>, t: nat, s: nat)
    requires Inv(b0, b, ins, name, d) && t in b && t !in ins && b[t].trigger && s !in b && s !in b0
    ensures Inv(b0, Expand(b, t, s), ins, name[s := Name(name, t)], d + {Name(name, t)})
  {
    var b2, name2, d2 := Expand(b, t, s), name[s := Name(name, t)], d + {Name(name, t)};
    ExpandShape(b, ins, t, s);
    forall u: nat | u in b2 && u !in ins
      ensures Name(name2, u) in b0 && Kept(b0, b2, ins, name2, d2, b2[u], b0[Name(name2, u)])
    {
      if u == s { ExpandKeepsNew(b0, b, ins, name, d, t, s); } else { ExpandKeeps(b0, b, ins, name, d, t, s, u); }
    }
  }

  lemma ExpandKeepsNew(b0: Boxes, b: Boxes, ins: set<nat>, name: map<nat, nat>, d: set<nat>, t: nat, s: nat)
    requires Inv(b0, b, ins, name, d) && t in b && t !in ins && b[t].trigger && s !in b
    ensures Name(name, t) in b0
    ensures Kept(b0, Expand(b, t, s), ins, name[s := Name(name, t)], d + {Name(name, t)}, Expand(b, t, s)[s],
                 b0[Name(name, t)])
  {
    var b2, name2, d2 := Expand(b, t, s), name[s := Name(name, t)], d + {Name(name, t)};
    var x, y, m := b[t], b0[Name(name, t)], MovedBox(b[t], t, s);
    ExpandShape(b, ins, t, s);
    assert Kept(b0, b, ins, name, d, x, y) && OutletsFine(x, ins, b.Keys);
    assert NoneTo(x.conns, s) && MovedLists(x.conns, m.conns, t, s);
    FireMoved(b, b2, ins, name, d2, x.types, x.conns, m.conns, t, s);
    FireSpread(b2, ins, name2, m.types, m.conns);
    CloseMore(d, d2, Fire(b, ins, name, x.types, x.conns), Fire(b0, {}, map[], y.types, y.conns));
  }

  lemma ExpandKeeps(b0: Boxes, b: Boxes, ins: set<nat>, name: map<nat, nat>, d: set<nat>, t: nat, s: nat, u: nat)
    requires Inv(b0, b, ins, name, d) && t in b && t !in ins && b[t].trigger && s !in b
    requires u in b && u !in ins && u != t
    ensures Name(name, u) in b0
    ensures Kept(b0, Expand(b, t, s), ins, name[s := Name(name, t)], d + {Name(name, t)}, Expand(b, t, s)[u],
                 b0[Name(name, u)])
  {
    var b2, name2, d2 := Expand(b, t, s), name[s := Name(name, t)], d + {Name(name, t)};
    var x, x2, y := b[u], MovedBox(b[u], t, s), b0[Name(name, u)];
    ExpandShape(b, ins, t, s);
    assert Kept(b0, b, ins, name, d, x, y) && OutletsFine(x, ins, b.Keys);
    assert NoneTo(x.conns, s) && MovedLists(x.conns, x2.conns, t, s);
    if x.trigger {
      FireMoved(b, b2, ins, name, d2, x.types, x.conns, x2.conns, t, s);
      CloseMore(d, d2, Fire(b, ins, name, x.types, x.conns), Fire(b0, {}, map[], y.types, y.conns));
    } else {
      forall p: nat | p < |x2.conns|
        ensures Close(d2, Out(PLAIN, b2, ins, name2, x2.conns[p]), Out(PLAIN, b0, {}, map[], y.conns[p]))
      {
        OutMoved(PLAIN, b, b2, ins, name, d2, x.conns[p], t, s);
        CloseMore(d, d2, Out(PLAIN, b, ins, name, x.conns[p]), Out(PLAIN, b0, {}, map[], y.conns[p]));
      }
    }
  }
}
