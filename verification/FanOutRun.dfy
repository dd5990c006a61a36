/**
 * Whole runs of the fan-out rewriting: what holds after any number of the selected boxes have been visited
 * (src/g_editor_extras.c:317-334).
 */
module FanOutRun {
  import opened FanOutOrder
  import opened PatchModel

  /** The boxes that are not inserted triggers stand, one for one, for the boxes of the original patch. */
  ghost predicate Stands(b0: Boxes, b: Boxes, ins: set<nat>, name: map<nat, nat>) {
    && (forall u: nat :: u in b0 ==> exists v: nat :: v in b && v !in ins && Name(name, v) == u)
    && (forall v: nat, w: nat :: v in b && w in b && v !in ins && w !in ins ==>
          Name(name, v) == Name(name, w) ==> v == w)
  }

  /** The selected boxes with a control fan-out, and the triggers among them. */
  ghost function Fanning(b: Boxes, sel: set<nat>): set<nat> {
    set u: nat | u in b && u in sel && b[u].HasFanout()
  }

  ghost function Replaced(b: Boxes, sel: set<nat>): set<nat> {
    set u: nat | u in b && u in sel && b[u].HasFanout() && b[u].trigger
  }

  // ----- which boxes have fan-outs -----

  lemma MovedFanout(x: Box, t: nat, s: nat)
    ensures MovedBox(x, t, s).HasFanout() <==> x.HasFanout()
  {
    var m := MovedBox(x, t, s);
    forall o: nat | o < |x.conns| ensures |m.conns[o]| == |x.conns[o]| { MovedLength(x.conns[o], t, s); }
  }

  lemma {:induction false} SinglesShort(ds: seq<Conn>)
    ensures forall o: nat :: o < |ds| ==> |Singles(ds)[o]| == 1
  {
    if ds != [] { SinglesShort(ds[1..]); }
  }

  lemma {:induction false} SpreadShort(outs: seq<seq<Conn>>)
    ensures forall o: nat :: o < |SpreadConns(outs)| ==> |SpreadConns(outs)[o]| == 1
  {
    if outs != [] {
      SpreadShort(outs[..|outs| - 1]);
      SinglesShort(outs[|outs| - 1]);
    }
  }

  lemma ExpandFanouts(b: Boxes, t: nat, s: nat)
    requires AllValid(b) && t in b && b[t].trigger && s !in b
    ensures Expand(b, t, s)[s].trigger && !Expand(b, t, s)[s].HasFanout()
    ensures forall v: nat :: v in b && v != t ==> (Expand(b, t, s)[v].HasFanout() <==> b[v].HasFanout())
  {
    SpreadShort(MovedBox(b[t], t, s).conns);
    forall v: nat | v in b && v != t ensures Expand(b, t, s)[v].HasFanout() <==> b[v].HasFanout() {
      MovedFanout(b[v], t, s);
    }
  }

  lemma {:induction false} SplitAllKeys(b: Boxes, u: nat, o: nat, f: nat)
    requires u in b && o <= |b[u].conns| && b[u].Valid() && Below(b, f)
    ensures SplitAll(b, u, o, f).0.Keys == b.Keys + Members(UpTo(f, SplitAll(b, u, o, f).1))
  {
    if o == 0 {
      assert UpTo(f, f) == [];
    } else {
      hide SplitAll, Split, Below, UpTo, Members, Box.Valid;
      SplitAllKeys(b, u, o - 1, f);
      SplitAllStep(b, u, o - 1, f);
      var b1, f1 := SplitAll(b, u, o - 1, f).0, SplitAll(b, u, o - 1, f).1;
      MembersGrow(f, f1);
      AboveBoth(b1, b1, f1, f1);
      assert b.Keys + Members(UpTo(f, f1)) + {f1} == b.Keys + (Members(UpTo(f, f1)) + {f1});
    }
  }

  lemma MembersGrow(f: nat, g: nat)
    requires f <= g
    ensures Members(UpTo(f, g + 1)) == Members(UpTo(f, g)) + {g}
  {
    assert UpTo(f, g + 1) == UpTo(f, g) + [g];
  }

  /** No other box is changed, and the new boxes are triggers without a fan-out. */
  lemma {:induction false} SplitAllOthers(b: Boxes, u: nat, o: nat, f: nat)
    requires u in b && o <= |b[u].conns| && b[u].Valid() && Below(b, f)
    ensures forall v: nat :: v in b && v != u ==> v in SplitAll(b, u, o, f).0 && SplitAll(b, u, o, f).0[v] == b[v]
    ensures forall v: nat :: v in SplitAll(b, u, o, f).0 && v !in b ==> CalmTrigger(SplitAll(b, u, o, f).0[v])
  {
    if o > 0 {
      SplitAllOthers(b, u, o - 1, f);
      SplitAllStep(b, u, o - 1, f);
      var b1, f1 := SplitAll(b, u, o - 1, f).0, SplitAll(b, u, o - 1, f).1;
      StubCalm(b1[u].conns[o - 1]);
      hide SplitAll, StubBox, CalmTrigger, Box.Valid;
    }
  }

  ghost predicate CalmTrigger(x: Box) {
    x.trigger && !x.HasFanout()
  }

  lemma StubCalm(ds: seq<Conn>)
    ensures CalmTrigger(StubBox(ds))
  {
    SinglesShort(ds);
  }

  /** Once its outlets have been gone through a box has no fan-out; there are new boxes exactly if it had. */
  lemma {:induction false} SplitAllResolves(b: Boxes, u: nat, o: nat, f: nat)
    requires u in b && o <= |b[u].conns| && b[u].Valid() && Below(b, f)
    ensures var (r, g) := SplitAll(b, u, o, f);
            && (forall p: nat :: p < o && !b[u].signal[p] ==> |r[u].conns[p]| <= 1)
            && (g > f <==> Fans(b[u], o))
  {
    if o > 0 {
      SplitAllResolves(b, u, o - 1, f);
      SplitAllStep(b, u, o - 1, f);
      var (b1, f1) := SplitAll(b, u, o - 1, f);
      SplitConns(b1, u, o - 1, f1);
      var r := SplitAll(b, u, o, f).0;
      hide SplitAll, Split, Below;
      forall p: nat | p < o && !b[u].signal[p] ensures |r[u].conns[p]| <= 1 {
        if p < o - 1 { assert r[u].conns[p] == b1[u].conns[p]; }
      }
      assert Fans(b[u], o) <==> Fans(b[u], o - 1) || (!b[u].signal[o - 1] && |b[u].conns[o - 1]| > 1);
    }
  }

  lemma SplitConns(b: Boxes, u: nat, o: nat, s: nat)
    requires u in b && o < |b[u].conns| && s !in b
    ensures u in Split(b, u, o, s) && Split(b, u, o, s)[u].conns == b[u].conns[o := [Conn(s, 0)]]
  {
  }

  /** One of the first o outlets has a control fan-out. */
  ghost predicate Fans(x: Box, o: nat)
    requires o <= |x.conns| == |x.signal|
  {
    exists p: nat :: p < o && !x.signal[p] && |x.conns[p]| > 1
  }

  lemma SplitAllFanouts(b: Boxes, u: nat, f: nat)
    requires u in b && b[u].Valid() && Below(b, f)
    ensures var (r, g) := SplitAll(b, u, |b[u].conns|, f); !r[u].HasFanout() && (g > f <==> b[u].HasFanout())
  {
    SplitAllResolves(b, u, |b[u].conns|, f);
    SplitAllKeeps(b, u, |b[u].conns|, f);
    hide SplitAll;
  }

  // ----- the rewritings keep what the patch does -----

  lemma {:induction false} InvSplitAll(b0: Boxes, b: Boxes, ins: set<nat>, name: map<nat, nat>, d: set<nat>, u: nat,
                                       o: nat, f: nat)
    requires Inv(b0, b, ins, name, d) && Stands(b0, b, ins, name) && u in b && !b[u].trigger && b[u].Valid()
    requires o <= |b[u].conns| && Below(b, f) && Below(b0, f)
    ensures var (r, g) := SplitAll(b, u, o, f);
            Inv(b0, r, ins + Members(UpTo(f, g)), name, d) && Stands(b0, r, ins + Members(UpTo(f, g)), name)
  {
    hide SplitAll, Inv, Stands, Split, Members, UpTo, Below, Box.Valid;
    if o == 0 {
      SplitAllNone(b, u, f);
      assert ins + {} == ins;
    } else {
      InvSplitAll(b0, b, ins, name, d, u, o - 1, f);
      SplitAllStep(b, u, o - 1, f);
      SplitAllKeeps(b, u, o - 1, f);
      var (r1, g1) := SplitAll(b, u, o - 1, f);
      var ins1 := ins + Members(UpTo(f, g1));
      MembersGrow(f, g1);
      assert ins1 + {g1} == ins + Members(UpTo(f, g1 + 1));
      AboveBoth(r1, b0, f, g1);
      InsertedTrigger(b0, r1, ins1, name, d, u);
      if !b[u].signal[o - 1] && |b[u].conns[o - 1]| > 1 {
        InvSplit(b0, r1, ins1, name, d, u, o - 1, g1);
        StandsSplit(b0, r1, ins1, name, u, o - 1, g1);
      }
    }
  }

  lemma SplitAllNone(b: Boxes, u: nat, f: nat)
    requires u in b && b[u].Valid() && Below(b, f)
    ensures SplitAll(b, u, 0, f) == (b, f) && Members(UpTo(f, f)) == {}
  {
    assert UpTo(f, f) == [];
  }

  lemma AboveBoth(b: Boxes, b0: Boxes, f: nat, g: nat)
    requires Below(b, g) && Below(b0, f) && f <= g
    ensures g !in b && g !in b0
  {
  }

  lemma InsertedTrigger(b0: Boxes, b: Boxes, ins: set<nat>, name: map<nat, nat>, d: set<nat>, u: nat)
    requires Inv(b0, b, ins, name, d) && u in b && !b[u].trigger
    ensures u !in ins
  {
    hide AllValid, OutletsFine, Kept;
  }

  lemma StandsSplit(b0: Boxes, b: Boxes, ins: set<nat>, name: map<nat, nat>, u: nat, o: nat, s: nat)
    requires Stands(b0, b, ins, name) && u in b && o < |b[u].conns| && s !in b
    ensures Stands(b0, Split(b, u, o, s), ins + {s}, name)
  {
    var b2 := Split(b, u, o, s);
    hide Split;
    forall w: nat | w in b0 ensures exists v: nat :: v in b2 && v !in ins + {s} && Name(name, v) == w {
      var v: nat :| v in b && v !in ins && Name(name, v) == w;
      assert v in b2 && v !in ins + {s};
    }
  }

  lemma StandsExpand(b0: Boxes, b: Boxes, ins: set<nat>, name: map<nat, nat>, t: nat, s: nat)
    requires Stands(b0, b, ins, name) && t in b && t !in ins && b[t].trigger && b[t].Valid() && s !in b && s !in ins
    ensures Stands(b0, Expand(b, t, s), ins, name[s := Name(name, t)])
  {
    var b2, name2 := Expand(b, t, s), name[s := Name(name, t)];
    hide Expand;
    forall w: nat | w in b0 ensures exists v: nat :: v in b2 && v !in ins && Name(name2, v) == w {
      var v: nat :| v in b && v !in ins && Name(name, v) == w;
      var v2 := if v == t then s else v;
      assert v2 in b2 && v2 !in ins && Name(name2, v2) == w;
    }
  }

  // ----- along a run -----

  /** The boxes of `rest` are still to be visited; only they can be selected and have a fan-out. */
  ghost predicate Ahead(b0: Boxes, sel0: set<nat>, f0: nat, b: Boxes, sel: set<nat>, rest: seq<nat>) {
    && (forall v: nat :: v in b && v >= f0 ==> b[v].trigger && !b[v].HasFanout())
    && (forall v: nat :: v in b && v in sel && b[v].HasFanout() ==> v in rest)
    && (forall v: nat :: v in rest ==>
          v in b0 && v in b && (b[v].HasFanout() <==> b0[v].HasFanout()) && (v in sel <==> v in sel0))
    && (forall i: nat, j: nat :: i < j < |rest| ==> rest[i] != rest[j])
  }

  ghost predicate Numbered(f0: nat, ins: set<nat>, name: map<nat, nat>) {
    forall v: nat :: v in name || v in ins ==> v >= f0
  }

  /** The selection: the replaced triggers have left it, the inserted ones have joined. */
  ghost predicate Chosen(b0: Boxes, sel0: set<nat>, sel: set<nat>, ins: set<nat>, rest: seq<nat>) {
    sel == sel0 - (Replaced(b0, sel0) - Members(rest)) + ins
  }

  /** The patch so far: it does what the original does, late deliveries only to triggers replaced so far. */
  ghost predicate SoFar(b0: Boxes, sel0: set<nat>, f0: nat, b: Boxes, sel: set<nat>, ins: set<nat>,
                        name: map<nat, nat>, rest: seq<nat>) {
    && Below(b0, f0) && sel0 <= b0.Keys
    && Inv(b0, b, ins, name, Replaced(b0, sel0) - Members(rest)) && Stands(b0, b, ins, name)
    && Numbered(f0, ins, name) && Chosen(b0, sel0, sel, ins, rest)
    && Ahead(b0, sel0, f0, b, sel, rest)
  }

  lemma RunStarts(b: Boxes, sel: set<nat>, f: nat, l: seq<nat>)
    requires AllValid(b) && Closed(b) && Below(b, f) && sel <= b.Keys
    requires forall u: nat :: u in b <==> u in l
    requires forall i: nat, j: nat :: i < j < |l| ==> l[i] != l[j]
    ensures SoFar(b, sel, f, b, sel, {}, map[], l)
  {
    InvStarts(b);
    assert Replaced(b, sel) - Members(l) == {};
    hide Inv, Box.HasFanout;
    forall u: nat | u in b ensures exists v: nat :: v in b && v !in {} && Name(map[], v) == u {
      assert Name(map[], u) == u;
    }
  }

  lemma HeadApart(rest: seq<nat>)
    requires rest != [] && forall i: nat, j: nat :: i < j < |rest| ==> rest[i] != rest[j]
    ensures Members(rest) == Members(rest[1..]) + {rest[0]} && rest[0] !in rest[1..]
    ensures forall v: nat :: v in rest <==> v == rest[0] || v in rest[1..]
    ensures forall i: nat, j: nat :: i < j < |rest[1..]| ==> rest[1..][i] != rest[1..][j]
  {
    assert rest == [rest[0]] + rest[1..];
  }

  lemma DropHead(x: set<nat>, rest: seq<nat>)
    requires rest != [] && forall i: nat, j: nat :: i < j < |rest| ==> rest[i] != rest[j]
    ensures rest[0] in x ==> x - Members(rest[1..]) == x - Members(rest) + {rest[0]}
    ensures rest[0] !in x ==> x - Members(rest[1..]) == x - Members(rest)
  {
    HeadApart(rest);
  }

  /** What is known of the next box to be visited. */
  lemma HeadFacts(b0: Boxes, sel0: set<nat>, f0: nat, b: Boxes, sel: set<nat>, ins: set<nat>, name: map<nat, nat>,
                  rest: seq<nat>)
    requires SoFar(b0, sel0, f0, b, sel, ins, name, rest) && rest != []
    ensures var u := rest[0];
            && u in b && u in b0 && u !in ins && Name(name, u) == u && b[u].trigger == b0[u].trigger
            && (u in Fanning(b0, sel0) <==> u in sel && b[u].HasFanout())
            && (u in Replaced(b0, sel0) <==> u in sel && b[u].HasFanout() && b[u].trigger)
            && AllValid(b) && ins <= b.Keys && Below(b0, f0)
    ensures forall i: nat, j: nat :: i < j < |rest| ==> rest[i] != rest[j]
  {
    var u, d := rest[0], Replaced(b0, sel0) - Members(rest);
    InsFacts(b0, b, ins, name, d);
    assert u in rest;
    assert u !in ins && u !in name;
    SameTrigger(b0, b, ins, name, d, u);
    hide Inv, Stands, Box.HasFanout;
  }

  lemma InsFacts(b0: Boxes, b: Boxes, ins: set<nat>, name: map<nat, nat>, d: set<nat>)
    requires Inv(b0, b, ins, name, d)
    ensures ins <= b.Keys && ins !! b0.Keys && AllValid(b)
  {
  }

  lemma SameTrigger(b0: Boxes, b: Boxes, ins: set<nat>, name: map<nat, nat>, d: set<nat>, u: nat)
    requires Inv(b0, b, ins, name, d) && u in b && u !in ins
    ensures Name(name, u) in b0 && b[u].trigger == b0[Name(name, u)].trigger
  {
    assert Kept(b0, b, ins, name, d, b[u], b0[Name(name, u)]);
  }

  /** A box that needs nothing done. */
  lemma RunPasses(b0: Boxes, sel0: set<nat>, f0: nat, b: Boxes, sel: set<nat>, ins: set<nat>, name: map<nat, nat>,
                  rest: seq<nat>)
    requires SoFar(b0, sel0, f0, b, sel, ins, name, rest) && rest != []
    requires rest[0] !in sel || !b[rest[0]].HasFanout()
    ensures SoFar(b0, sel0, f0, b, sel, ins, name, rest[1..])
    ensures Fanning(b0, sel0) - Members(rest[1..]) == Fanning(b0, sel0) - Members(rest)
  {
    hide Inv, Stands, Box.HasFanout, Fanning, Replaced, Ahead, Numbered, Name, Below, Members;
    HeadFacts(b0, sel0, f0, b, sel, ins, name, rest);
    AheadPasses(b0, sel0, f0, b, sel, rest);
    DropHead(Replaced(b0, sel0), rest);
    DropHead(Fanning(b0, sel0), rest);
  }

  lemma AheadPasses(b0: Boxes, sel0: set<nat>, f0: nat, b: Boxes, sel: set<nat>, rest: seq<nat>)
    requires Ahead(b0, sel0, f0, b, sel, rest) && rest != [] && (rest[0] in sel ==> !b[rest[0]].HasFanout())
    ensures Ahead(b0, sel0, f0, b, sel, rest[1..])
  {
    hide Box.HasFanout, Members;
    HeadApart(rest);
  }

  lemma AheadExpands(b0: Boxes, sel0: set<nat>, f0: nat, b: Boxes, sel: set<nat>, rest: seq<nat>, s: nat)
    requires Ahead(b0, sel0, f0, b, sel, rest) && rest != [] && AllValid(b)
    requires b[rest[0]].trigger && f0 <= s && s !in b && s !in sel && Below(b0, f0)
    ensures Ahead(b0, sel0, f0, Expand(b, rest[0], s), sel - {rest[0]}, rest[1..])
  {
    HeadApart(rest);
    var t := rest[0];
    var b2 := Expand(b, t, s);
    hide Box.HasFanout, AllValid;
    ExpandFanouts(b, t, s);
    ExpandTriggers(b, t, s);
    hide Expand;
  }

  lemma ChosenExpands(b0: Boxes, sel0: set<nat>, sel: set<nat>, ins: set<nat>, rest: seq<nat>)
    requires Chosen(b0, sel0, sel, ins, rest) && rest != [] && rest[0] in Replaced(b0, sel0) && rest[0] !in ins
    requires forall i: nat, j: nat :: i < j < |rest| ==> rest[i] != rest[j]
    ensures Chosen(b0, sel0, sel - {rest[0]}, ins, rest[1..])
  {
    hide Replaced, Members;
    DropHead(Replaced(b0, sel0), rest);
  }

  lemma ExpandTriggers(b: Boxes, t: nat, s: nat)
    requires t in b && b[t].trigger && b[t].Valid() && s !in b
    ensures forall v: nat :: v in b && v != t ==> v in Expand(b, t, s) && Expand(b, t, s)[v].trigger == b[v].trigger
  {
    hide SpreadBox, Moved, Box.Valid;
  }

  /** A trigger expanded in place. */
  lemma RunExpands(b0: Boxes, sel0: set<nat>, f0: nat, b: Boxes, sel: set<nat>, ins: set<nat>, name: map<nat, nat>,
                   rest: seq<nat>, s: nat)
    requires SoFar(b0, sel0, f0, b, sel, ins, name, rest) && rest != [] && rest[0] in sel
    requires rest[0] in b && b[rest[0]].trigger && b[rest[0]].HasFanout() && f0 <= s && s !in b
    ensures b[rest[0]].Valid()
    ensures SoFar(b0, sel0, f0, Expand(b, rest[0], s), sel - {rest[0]}, ins, name[s := Name(name, rest[0])], rest[1..])
    ensures Fanning(b0, sel0) - Members(rest[1..]) == Fanning(b0, sel0) - Members(rest) + {rest[0]}
  {
    hide Inv, Stands, Box.HasFanout, Fanning, Replaced, Expand, Below, AllValid, Ahead, Members, Box.Valid, Chosen;
    hide Numbered, Name;
    var t, d := rest[0], Replaced(b0, sel0) - Members(rest);
    HeadFacts(b0, sel0, f0, b, sel, ins, name, rest);
    NewNumber(b0, sel0, f0, b, sel, ins, name, rest, s);
    AllAreValid(b, t);
    InvExpand(b0, b, ins, name, d, t, s);
    StandsExpand(b0, b, ins, name, t, s);
    AheadExpands(b0, sel0, f0, b, sel, rest, s);
    DropHead(Replaced(b0, sel0), rest);
    DropHead(Fanning(b0, sel0), rest);
    ChosenExpands(b0, sel0, sel, ins, rest);
    NumberedName(f0, ins, name, s, Name(name, t));
  }

  lemma NumberedName(f0: nat, ins: set<nat>, name: map<nat, nat>, s: nat, u: nat)
    requires Numbered(f0, ins, name) && f0 <= s
    ensures Numbered(f0, ins, name[s := u])
  {
  }

  lemma NewNumber(b0: Boxes, sel0: set<nat>, f0: nat, b: Boxes, sel: set<nat>, ins: set<nat>, name: map<nat, nat>,
                  rest: seq<nat>, s: nat)
    requires SoFar(b0, sel0, f0, b, sel, ins, name, rest) && f0 <= s && s !in b
    ensures s !in b0 && s !in ins && s !in sel
  {
    InsFacts(b0, b, ins, name, Replaced(b0, sel0) - Members(rest));
    hide Inv, Stands, Ahead, Members;
  }

  lemma AllAreValid(b: Boxes, u: nat)
    requires AllValid(b) && u in b
    ensures b[u].Valid()
  {
  }

  lemma AheadSplits(b0: Boxes, sel0: set<nat>, f0: nat, b: Boxes, sel: set<nat>, rest: seq<nat>, f: nat)
    requires Ahead(b0, sel0, f0, b, sel, rest) && rest != [] && rest[0] in b && b[rest[0]].Valid()
    requires !b[rest[0]].trigger && f0 <= f && Below(b, f) && Below(b0, f0)
    ensures var (r, g) := SplitAll(b, rest[0], |b[rest[0]].conns|, f);
            Ahead(b0, sel0, f0, r, sel + Members(UpTo(f, g)), rest[1..])
  {
    HeadApart(rest);
    var u, n := rest[0], |b[rest[0]].conns|;
    var (r, g) := SplitAll(b, u, n, f);
    SplitAllKeys(b, u, n, f);
    SplitAllOthers(b, u, n, f);
    SplitAllFanouts(b, u, f);
    assert u < f0;
    assert forall v: nat :: v in Members(UpTo(f, g)) ==> v >= f && v !in b;
    hide SplitAll, Box.HasFanout, Box.Valid, Members, UpTo;
  }

  /** An ordinary box gone through. */
  lemma RunSplits(b0: Boxes, sel0: set<nat>, f0: nat, b: Boxes, sel: set<nat>, ins: set<nat>, name: map<nat, nat>,
                  rest: seq<nat>, f: nat)
    requires SoFar(b0, sel0, f0, b, sel, ins, name, rest) && rest != [] && rest[0] in sel
    requires rest[0] in b && !b[rest[0]].trigger && b[rest[0]].Valid() && f0 <= f && Below(b, f)
    ensures var (r, g) := SplitAll(b, rest[0], |b[rest[0]].conns|, f);
            && SoFar(b0, sel0, f0, r, sel + Members(UpTo(f, g)), ins + Members(UpTo(f, g)), name, rest[1..])
            && (g > f <==> b[rest[0]].HasFanout())
            && Fanning(b0, sel0) - Members(rest[1..])
               == Fanning(b0, sel0) - Members(rest) + if g > f then {rest[0]} else {}
  {
    var u, n, d := rest[0], |b[rest[0]].conns|, Replaced(b0, sel0) - Members(rest);
    var (r, g) := SplitAll(b, u, n, f);
    hide Inv, Stands, Box.HasFanout, SplitAll, UpTo, Members, Fanning, Replaced, Below, Ahead, AllValid, Box.Valid;
    hide Numbered, Name, Chosen;
    HeadFacts(b0, sel0, f0, b, sel, ins, name, rest);
    BelowMore(b0, f0, f);
    NumberedMore(f0, ins, name, f, g);
    InvSplitAll(b0, b, ins, name, d, u, n, f);
    SplitAllFanouts(b, u, f);
    AheadSplits(b0, sel0, f0, b, sel, rest, f);
    DropHead(Replaced(b0, sel0), rest);
    DropHead(Fanning(b0, sel0), rest);
    ChosenSplits(b0, sel0, sel, ins, rest, Members(UpTo(f, g)));
  }

  lemma ChosenSplits(b0: Boxes, sel0: set<nat>, sel: set<nat>, ins: set<nat>, rest: seq<nat>, stubs: set<nat>)
    requires Chosen(b0, sel0, sel, ins, rest) && rest != [] && rest[0] !in Replaced(b0, sel0)
    requires forall i: nat, j: nat :: i < j < |rest| ==> rest[i] != rest[j]
    ensures Chosen(b0, sel0, sel + stubs, ins + stubs, rest[1..])
  {
    hide Replaced, Members;
    DropHead(Replaced(b0, sel0), rest);
  }

  lemma BelowMore(b: Boxes, f: nat, g: nat)
    requires Below(b, f) && f <= g
    ensures Below(b, g)
  {
  }

  lemma NumberedMore(f0: nat, ins: set<nat>, name: map<nat, nat>, f: nat, g: nat)
    requires Numbered(f0, ins, name) && f0 <= f <= g
    ensures Numbered(f0, ins + Members(UpTo(f, g)), name)
  {
  }
}
