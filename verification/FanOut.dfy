// Replacing control fan-outs by triggers (src/g_editor_extras.c): the editing steps, on the patch itself.
module FanOut {
  import opened FanOutOrder
  import opened FanOutRun
  import opened PatchModel

  /** A box's place in the list is followed by another box or by nothing. */
  datatype Link = End | To(box: nat)

  class Patch {
    var list: seq<nat>          // the boxes in drawing order
    var box: Boxes
    var selected: set<nat>
    var unused: nat             // the next box's number

    ghost predicate Valid()
      reads this
    {
      AllValid(box) && ListValid(list, box, unused)
    }

    method Connect(src: nat, o: nat, c: Conn)
      requires src in box && o < |box[src].conns|
      modifies this`box
      ensures box == WithConns(old(box), src, o, old(box)[src].conns[o] + [c])
    {
      box := WithConns(box, src, o, box[src].conns[o] + [c]);
    }

    /** The list of connections is walked until the one to be taken out is met. */
    method Disconnect(src: nat, o: nat, c: Conn)
      requires src in box && o < |box[src].conns|
      modifies this`box
      ensures box == WithConns(old(box), src, o, RemoveFirst(old(box)[src].conns[o], c))
    {
      var cs := box[src].conns[o];
      WithSame(box, src, o);
      if cs == [] { return; }
      if cs[0] == c {
        box := WithConns(box, src, o, cs[1..]);
        return;
      }
      var i := 0;
      while i + 1 < |cs|
        invariant i < |cs| && c !in cs[..i + 1] && box == old(box)
      {
        if cs[i + 1] == c {
          RemoveFirstAt(cs, i + 1);
          box := WithConns(box, src, o, cs[..i + 1] + cs[i + 2..]);
          return;
        }
        i := i + 1;
      }
      assert cs[..i + 1] == cs;
      RemoveFirstNone(cs, c);
    }

    /** Moves a chain of connections from `org` to outlets of `stub` from `newoutlet` up, the last one first. */
    method StackConn(stub: nat, newoutlet: nat, org: nat, orgoutlet: nat, conn: seq<Conn>) returns (next: nat)
      requires org in box && stub in box && org != stub && orgoutlet < |box[org].conns|
      requires newoutlet + |conn| <= |box[stub].conns|
      modifies this`box
      ensures next == newoutlet + |conn|
      ensures box == Stacked(old(box), org, orgoutlet, stub, newoutlet, conn)
      decreases conn
    {
      ghost var b := box;
      if conn == [] {
        StackedNone(b, org, orgoutlet, stub, newoutlet);
        return newoutlet;
      }
      StackedStep(b, org, orgoutlet, stub, newoutlet, conn);
      hide Stacked, WithConns;
      next := StackConn(stub, newoutlet, org, orgoutlet, conn[1..]);
      Disconnect(org, orgoutlet, conn[0]);
      Connect(stub, next, conn[0]);
      next := next + 1;
    }

    /** The same for a new trigger, counting its outlets down. */
    method Defanout(count: int, conn: seq<Conn>, obj: nat, trigger: nat, nout: nat)
      requires obj in box && trigger in box && obj != trigger && nout < |box[obj].conns|
      requires 0 <= count + 1 - |conn| && count < |box[trigger].conns|
      modifies this`box
      ensures box == Stacked(old(box), obj, nout, trigger, count + 1 - |conn|, conn)
      decreases conn
    {
      ghost var b, base: nat := box, count + 1 - |conn|;
      if conn == [] {
        StackedNone(b, obj, nout, trigger, base);
        return;
      }
      StackedStep(b, obj, nout, trigger, base, conn);
      hide WithConns;
      Defanout(count - 1, conn[1..], obj, trigger, nout);
      Disconnect(obj, nout, conn[0]);
      Connect(trigger, count, conn[0]);
    }

    method HasFanoutIn(obj: nat) returns (r: bool)
      requires obj in box && box[obj].Valid()
      ensures r <==> box[obj].HasFanout()
    {
      var nout := 0;
      while nout < |box[obj].conns|
        invariant nout <= |box[obj].conns|
        invariant forall o: nat :: o < nout && !box[obj].signal[o] ==> |box[obj].conns[o]| <= 1
      {
        if !box[obj].signal[nout] {
          var conn, count := box[obj].conns[nout], 0;
          while conn != []
            invariant count + |conn| == |box[obj].conns[nout]| && count <= 1
            decreases conn
          {
            if count != 0 { return true; }
            conn := conn[1..];
            count := count + 1;
          }
        }
        nout := nout + 1;
      }
      r := false;
    }

    /** One outlet's connections to `org` are made again, to `replace`, which puts them at the end. */
    method DereconnectOutlet(obj: nat, nout: nat, org: nat, replace_: nat)
      requires obj in box && nout < |box[obj].conns| && org != replace_
      modifies this`box
      ensures box == WithConns(old(box), obj, nout, Moved(old(box)[obj].conns[nout], org, replace_))
    {
      ghost var b, cs := box, box[obj].conns[nout];
      WithSame(b, obj, nout);
      var i := 0;
      while i < |box[obj].conns[nout]|
        invariant obj in box && nout < |box[obj].conns| && i <= |box[obj].conns[nout]|
        invariant box == WithConns(b, obj, nout, box[obj].conns[nout])
        invariant forall k: nat :: k < i ==> box[obj].conns[nout][k].dest != org
        invariant Moved(box[obj].conns[nout], org, replace_) == Moved(cs, org, replace_)
        decreases |Redirected(box[obj].conns[nout], org, replace_)|, |box[obj].conns[nout]| - i
      {
        ghost var live := box[obj].conns[nout];
        var c := box[obj].conns[nout][i];
        if c.dest != org {
          i := i + 1;
        } else {
          MovedStep(live, i, org, replace_);
          RemoveFirstAt(live, i) by { assert forall x :: x in live[..i] ==> x.dest != org; }
          WithTwice(b, obj, nout, live, live[..i] + live[i + 1..]);
          WithTwice(b, obj, nout, live[..i] + live[i + 1..], live[..i] + live[i + 1..] + [Conn(replace_, c.inlet)]);
          Disconnect(obj, nout, c);
          Connect(obj, nout, Conn(replace_, c.inlet));
          assert box[obj].conns[nout] == live[..i] + live[i + 1..] + [Conn(replace_, c.inlet)];
        }
      }
      MovedNone(box[obj].conns[nout], org, replace_);
    }

    /** All outlets of one box. */
    method DereconnectBox(obj: nat, org: nat, replace_: nat)
      requires obj in box && org != replace_
      modifies this`box
      ensures box == old(box)[obj := MovedBox(old(box)[obj], org, replace_)]
    {
      ghost var b := box;
      PartMovedEnds(b[obj], org, replace_);
      assert b[obj := b[obj]] == b;
      hide PartMoved, MovedBox, Moved;
      var nout := 0;
      while nout < |box[obj].conns|
        invariant nout <= |b[obj].conns| && box == b[obj := PartMoved(b[obj], nout, org, replace_)]
      {
        PartMovedStep(b, obj, nout, org, replace_);
        DereconnectOutlet(obj, nout, org, replace_);
        nout := nout + 1;
      }
    }

    /** Every connection to `org` in the patch, remade to `replace`. */
    method Dereconnect(org: nat, replace_: nat)
      requires Valid() && org != replace_
      modifies this`box
      ensures box == MovedAll(old(box), org, replace_)
    {
      ghost var b, done: set<nat> := box, {};
      MovedSomeEnds(b, done, org, replace_);
      hide MovedSome, MovedBox;
      var i := 0;
      while i < |list|
        invariant i <= |list| && box == MovedSome(b, done, org, replace_)
        invariant forall k: nat :: k < |list| ==> (list[k] in done <==> k < i)
      {
        MovedSomeStep(b, done, list[i], org, replace_);
        DereconnectBox(list[i], org, replace_);
        done := done + {list[i]};
        i := i + 1;
      }
      MovedSomeEnds(b, done, org, replace_);
    }

    /** A new trigger at the end of the list, nothing connected to it yet. */
    method CreateTrigger(types: seq<char>) returns (stub: nat)
      requires Valid()
      modifies this`box, this`list, this`unused
      ensures Valid() && stub == old(unused) && unused == stub + 1 && stub !in old(box)
      ensures list == old(list) + [stub]
      ensures box == old(box)[stub := Box(true, types, Repeat(false, |types|), Repeat([], |types|))]
    {
      stub := unused;
      assert forall i: nat :: i < |list| ==> list[i] in list;
      unused := unused + 1;
      ghost var was := list;
      list := list + [stub];
      assert forall u: nat :: u in list <==> u in was || u == stub;
      box := box[stub := Box(true, types, Repeat(false, |types|), Repeat([], |types|))];
    }

    /** The types of the expanded trigger: each argument as often as its outlet has connections. */
    method SpreadArguments(obj: nat) returns (types: seq<char>)
      requires obj in box && box[obj].trigger && box[obj].Valid()
      ensures types == SpreadTypes(box[obj].types, box[obj].conns)
    {
      types := [];
      var x, nout := box[obj], 0;
      while nout < |x.conns|
        invariant nout <= |x.conns| && types == SpreadTypes(x.types[..nout], x.conns[..nout])
      {
        var conn := x.conns[nout];
        ghost var before, count: nat := types, 0;
        while conn != []
          invariant count + |conn| == |x.conns[nout]| && types == before + Repeat(x.types[nout], count)
          decreases conn
        {
          conn := conn[1..];
          assert Repeat(x.types[nout], count + 1) == Repeat(x.types[nout], count) + [x.types[nout]];
          types := types + [x.types[nout]];
          count := count + 1;
        }
        assert x.conns[..nout + 1][..nout] == x.conns[..nout] && x.types[..nout + 1][..nout] == x.types[..nout];
        nout := nout + 1;
      }
      assert x.conns[..nout] == x.conns && x.types[..nout] == x.types;
    }

    /** Expansion of a trigger: a new trigger, after it, sends each of its messages from an outlet of its own. */
    method FanoutInplace(obj: nat) returns (didit: bool)
      requires Valid() && obj in box && box[obj].trigger
      modifies this
      ensures Valid() && didit == old(box)[obj].HasFanout()
      ensures !didit ==> list == old(list) && box == old(box) && selected == old(selected) && unused == old(unused)
      ensures didit ==>
                && box == Expand(old(box), obj, old(unused)) && selected == old(selected) - {obj}
                && unused == old(unused) + 1 && list == Without(old(list), obj) + [old(unused)]
    {
      didit := HasFanoutIn(obj);
      if !didit { return; }
      ExpandTrigger(obj);
    }

    method ExpandTrigger(obj: nat)
      requires Valid() && obj in box && box[obj].trigger
      modifies this
      ensures Valid()
      ensures box == Expand(old(box), obj, old(unused)) && selected == old(selected) - {obj}
      ensures unused == old(unused) + 1 && list == Without(old(list), obj) + [old(unused)]
    {
      ghost var b, l := box, list;
      hide Expand, ListValid, AllValid;
      UnusedIsNew(l, b, unused);
      ExpandValid(b, obj, unused);
      var stub := BuildStub(obj);
      Delete(obj, l, b, stub);
    }

    /** The new trigger, connected in the old one's place. */
    method BuildStub(obj: nat) returns (stub: nat)
      requires Valid() && obj in box && box[obj].trigger
      modifies this`box, this`list, this`unused
      ensures stub == old(unused) && stub !in old(box) && unused == stub + 1 && list == old(list) + [stub]
      ensures box - {obj} == Expand(old(box), obj, stub) && box.Keys == old(box).Keys + {stub}
    {
      ghost var b := box;
      hide Expanding, Expand, Stacked, ListValid;
      var types := SpreadArguments(obj);
      stub := CreateTrigger(types);
      ExpandingStarts(b, obj, stub, types);
      Dereconnect(obj, stub);
      ghost var m := box;
      ExpandingEnds(b, obj, stub, types, m);
      MoveOutlets(obj, stub, types, m);
    }

    /** As many arguments `a`. */
    method Arguments(count: nat) returns (types: seq<char>)
      ensures types == Repeat('a', count)
    {
      types := [];
      var i := 0;
      while i < count
        invariant i <= count && types == Repeat('a', i)
      {
        types := types + ['a'];
        i := i + 1;
      }
    }

    /** One outlet of an ordinary box, its connections handed over to a new, selected trigger. */
    method SplitOutlet(obj: nat, nout: nat)
      requires Valid() && obj in box && nout < |box[obj].conns|
      modifies this
      ensures Valid() && unused == old(unused) + 1 && old(unused) !in old(box)
      ensures box == Split(old(box), obj, nout, old(unused))
      ensures list == old(list) + [old(unused)] && selected == old(selected) + {old(unused)}
    {
      ghost var b := box;
      hide Stacked, Split, WithConns, UpTo;
      var conn := box[obj].conns[nout];
      var types := Arguments(|conn|);
      var stub := CreateTrigger(types);
      SplitIs(b, obj, nout, stub);
      SplitValid(b, obj, nout, stub);
      hide ListValid, AllValid;
      ghost var l := box;
      Defanout(|conn| - 1, conn, obj, stub, nout);
      Connect(obj, nout, Conn(stub, 0));
      selected := selected + {stub};
      KeysOnly(list, l, box, unused);
    }

    /** A box's fan-outs resolved; a trigger is expanded in place, any other box gets new triggers. */
    method Fanout(obj: nat) returns (didit: nat)
      requires Valid() && obj in box
      modifies this
      ensures Valid()
      ensures old(box)[obj].trigger && !old(box)[obj].HasFanout() ==>
                didit == 0 && list == old(list) && box == old(box) && selected == old(selected) && unused == old(unused)
      ensures old(box)[obj].trigger && old(box)[obj].HasFanout() ==>
                && didit == 1 && box == Expand(old(box), obj, old(unused)) && selected == old(selected) - {obj}
                && unused == old(unused) + 1 && list == Without(old(list), obj) + [old(unused)]
      ensures !old(box)[obj].trigger ==>
                && Below(old(box), old(unused))
                    && (box, unused) == SplitAll(old(box), obj, |old(box)[obj].conns|, old(unused))
                && Grown(old(list), old(selected), old(unused), list, selected, unused) && didit == unused - old(unused)
    {
      if box[obj].trigger {
        var d := FanoutInplace(obj);
        return if d then 1 else 0;
      }
      didit := FanoutOrdinary(obj);
    }

    method FanoutOrdinary(obj: nat) returns (didit: nat)
      requires Valid() && obj in box && !box[obj].trigger
      modifies this
      ensures Valid()
      ensures Below(old(box), old(unused))
          && (box, unused) == SplitAll(old(box), obj, |old(box)[obj].conns|, old(unused))
      ensures Grown(old(list), old(selected), old(unused), list, selected, unused) && didit == unused - old(unused)
    {
      ghost var b, f, l, s := box, unused, list, selected;
      BelowTop(l, b, f);
      GrownNone(l, s, f);
      SplitAllNone(b, obj, f);
      assert Under(b, f, l, s, obj, 0);
      assert b[obj].Valid();
      hide SplitAll, ListValid, AllValid, Below, Grown, Under, Box.Valid;
      didit := FanoutAll(obj, b, f, l, s);
      UnderIs(b, f, l, s, obj, |b[obj].conns|);
    }

    /** All outlets of a box, in turn. */
    method FanoutAll(obj: nat, ghost b: Boxes, ghost f: nat, ghost l: seq<nat>, ghost s: set<nat>)
      returns (didit: nat)
      requires obj in b && b[obj].Valid() && Below(b, f) && Under(b, f, l, s, obj, 0) && box == b && unused == f
      modifies this
      ensures Under(b, f, l, s, obj, |b[obj].conns|) && unused == f + didit
    {
      hide SplitAll, ListValid, AllValid, Below, Grown, Under, Box.Valid;
      didit := 0;
      var n, nout := |box[obj].conns|, 0;
      while nout < n
        invariant nout <= n == |b[obj].conns| && Under(b, f, l, s, obj, nout) && unused == f + didit
      {
        var did := FanoutStep(obj, nout, b, f, l, s);
        if did { didit := didit + 1; }
        nout := nout + 1;
      }
    }

    lemma UnderIs(b: Boxes, f: nat, l: seq<nat>, s: set<nat>, obj: nat, nout: nat)
      requires obj in b && nout <= |b[obj].conns| && b[obj].Valid() && Below(b, f)
      requires Under(b, f, l, s, obj, nout)
      ensures Valid() && (box, unused) == SplitAll(b, obj, nout, f) && Grown(l, s, f, list, selected, unused)
    {
    }

    /** The outlets below nout have been rewritten, starting from boxes b, list l and selection s. */
    ghost predicate Under(b: Boxes, f: nat, l: seq<nat>, s: set<nat>, obj: nat, nout: nat)
      requires obj in b && nout <= |b[obj].conns| && b[obj].Valid() && Below(b, f)
      reads this
    {
      Valid() && (box, unused) == SplitAll(b, obj, nout, f) && Grown(l, s, f, list, selected, unused)
    }

    method FanoutStep(obj: nat, nout: nat, ghost b: Boxes, ghost f: nat, ghost l: seq<nat>, ghost s: set<nat>)
      returns (did: bool)
      requires obj in b && nout < |b[obj].conns| && b[obj].Valid() && Below(b, f)
      requires Under(b, f, l, s, obj, nout)
      modifies this
      ensures Under(b, f, l, s, obj, nout + 1) && unused == old(unused) + if did then 1 else 0
    {
      hide SplitAll, Split, AllValid, ListValid, Below, Grown, Box.Valid;
      SplitAllStep(b, obj, nout, f);
      did := false;
      var count := 0;
      if !box[obj].signal[nout] { count := Count(obj, nout); }
      if count > 1 {
        GrownStep(l, s, f, list, selected, unused);
        SplitOutlet(obj, nout);
        did := true;
      }
    }

    method Count(obj: nat, nout: nat) returns (count: nat)
      requires obj in box && nout < |box[obj].conns|
      ensures count == |box[obj].conns[nout]|
    {
      var conn := box[obj].conns[nout];
      count := 0;
      while conn != []
        invariant count + |conn| == |box[obj].conns[nout]|
        decreases conn
      {
        conn := conn[1..];
        count := count + 1;
      }
    }

    /** The outlets of the old trigger, one after the other, emptied onto the new one. */
    method MoveOutlets(obj: nat, stub: nat, ghost types: seq<char>, ghost m: Boxes)
      requires obj in m && stub in m && obj != stub && |types| == |SpreadConns(m[obj].conns)|
      requires m[obj].conns[..|m[obj].conns|] == m[obj].conns
      requires m == Expanding(m, obj, stub, types, 0) && box == m
      modifies this`box
      ensures box == Expanding(m, obj, stub, types, |m[obj].conns|)
    {
      var nout, newout := 0, 0;
      var n := |box[obj].conns|;
      SpreadConnsLength(m[obj].conns, 0);
      while nout < n
        invariant nout <= n && |SpreadConns(m[obj].conns[..nout])| <= |types|
        invariant newout == |SpreadConns(m[obj].conns[..nout])|
        invariant box == Expanding(m, obj, stub, types, nout)
      {
        ExpandingStep(m, obj, stub, types, nout);
        hide Expanding, Stacked;
        newout := StackConn(stub, newout, obj, nout, box[obj].conns[nout]);
        nout := nout + 1;
      }
    }

    /** The old trigger goes: from the list, from the patch and from the selection. */
    method Delete(obj: nat, ghost l: seq<nat>, ghost b: Boxes, ghost stub: nat)
      requires obj in box && list == l + [stub] && obj in b && ListValid(l, b, stub) && box.Keys == b.Keys + {stub}
      modifies this`box, this`list, this`selected
      ensures box == old(box) - {obj} && selected == old(selected) - {obj}
      ensures list == Without(l, obj) + [stub] && ListValid(list, box, stub + 1)
    {
      var i := Find(obj);
      DeleteList(l, b, obj, stub, i);
      hide ListValid;
      list := list[..i] + list[i + 1..];
      box := box - {obj};
      selected := selected - {obj};
      SameKeys(list, b.Keys - {obj} + {stub}, box, stub + 1);
    }

    method Next(obj: nat) returns (r: Link, ghost at: nat)
      requires obj in list
      ensures at < |list| && list[at] == obj && r == if at + 1 < |list| then To(list[at + 1]) else End
    {
      var i := Find(obj);
      r, at := if i + 1 < |list| then To(list[i + 1]) else End, i;
    }

    /** One box of the list; nothing happens unless it is selected. */
    method Visit(obj: nat, ghost b0: Boxes, ghost sel0: set<nat>, ghost f0: nat, ghost ins: set<nat>,
                 ghost name: map<nat, nat>, ghost rest: seq<nat>)
      returns (did: bool, ghost ins2: set<nat>, ghost name2: map<nat, nat>)
      requires Valid() && f0 <= unused && SoFar(b0, sel0, f0, box, selected, ins, name, rest)
      requires obj in box && if rest == [] then obj >= f0 else obj == rest[0]
      modifies this
      ensures Valid() && f0 <= unused
      ensures SoFar(b0, sel0, f0, box, selected, ins2, name2, if rest == [] then [] else rest[1..])
      ensures rest == [] ==> !did && list == old(list)
      ensures rest != [] ==>
                && Fanning(b0, sel0) - Members(rest[1..])
                    == Fanning(b0, sel0) - Members(rest) + (if did then {obj} else {})
                && ((unused >= old(unused) && list == old(list) + UpTo(old(unused), unused))
                    || list == Without(old(list), obj) + [old(unused)])
    {
      did, ins2, name2 := false, ins, name;
      ghost var b, f := box, unused;
      hide SoFar, Fanning, Members, UpTo, Without, Expand, SplitAll, Below, AllValid, ListValid, Box.HasFanout;
      VisitFacts(b0, sel0, f0, b, selected, ins, name, rest, obj, list, f);
      if obj !in selected || (box[obj].trigger && !box[obj].HasFanout()) {
        if rest != [] { RunPasses(b0, sel0, f0, b, selected, ins, name, rest); }
      }
      if obj in selected {
        if rest != [] {
          if b[obj].trigger {
            if b[obj].HasFanout() {
              RunExpands(b0, sel0, f0, b, selected, ins, name, rest, f);
              name2 := name[f := Name(name, obj)];
            }
          } else {
            RunSplits(b0, sel0, f0, b, selected, ins, name, rest, f);
          }
        }
        var didit := Fanout(obj);
        did := didit > 0;
        if !b[obj].trigger { ins2 := ins + Members(UpTo(f, unused)); }
      }
    }

    /** Every selected box in turn: its fan-outs are resolved, and the patch goes on doing what it did. */
    method Fanouts() returns (count: nat, ghost ins: set<nat>, ghost name: map<nat, nat>)
      requires Valid() && Closed(box) && selected <= box.Keys
      modifies this
      ensures Valid()
      ensures forall u: nat :: u in box && u in selected ==> !box[u].HasFanout()
      ensures Inv(old(box), box, ins, name, Replaced(old(box), old(selected))) && Stands(old(box), box, ins, name)
      ensures selected == old(selected) - Replaced(old(box), old(selected)) + ins
      ensures count == |Fanning(old(box), old(selected))|
    {
      ghost var b0, sel0, f0 := box, selected, unused;
      RunBegins(b0, sel0, f0, list);
      hide SoFar, Fanning, Members, AllValid, ListValid, Box.HasFanout, Closed, Inv, Stands, Replaced;
      count, ins, name := VisitAll(b0, sel0, f0);
      RunEnds(b0, sel0, f0, box, selected, ins, name);
    }

    /** The boxes of the list visited one after the other. */
    method VisitAll(ghost b0: Boxes, ghost sel0: set<nat>, ghost f0: nat)
      returns (count: nat, ghost ins: set<nat>, ghost name: map<nat, nat>)
      requires Valid() && f0 == unused && SoFar(b0, sel0, f0, box, selected, {}, map[], list) && At(list, 0, list, f0)
      requires Counted(0, b0, sel0, list)
      modifies this
      ensures Valid() && SoFar(b0, sel0, f0, box, selected, ins, name, []) && Counted(count, b0, sel0, [])
    {
      hide SoFar, Counted, At, Valid, Fanning, Members;
      ghost var pos, rest := 0, list;
      count, ins, name := 0, {}, map[];
      var gobj := if list == [] then End else To(list[0]);
      while gobj.To?
        invariant Valid() && f0 <= unused && SoFar(b0, sel0, f0, box, selected, ins, name, rest)
        invariant Reached(gobj, pos, rest, f0) && Counted(count, b0, sel0, rest)
        decreases |rest|, |list| - pos
      {
        var did;
        ghost var was := rest;
        gobj, did, ins, name, pos, rest := Step(gobj.box, b0, sel0, f0, ins, name, pos, rest);
        CountedStep(count, b0, sel0, was, did);
        if did { count := count + 1; }
      }
    }

    /** Where the loop stands: at entry `pos` of the list, or past everything there was to visit. */
    ghost predicate Reached(gobj: Link, pos: nat, rest: seq<nat>, f0: nat)
      reads this`list
    {
      At(list, pos, rest, f0) && if gobj.To? then pos < |list| && list[pos] == gobj.box else rest == []
    }

    method Step(obj: nat, ghost b0: Boxes, ghost sel0: set<nat>, ghost f0: nat, ghost ins: set<nat>,
                ghost name: map<nat, nat>, ghost pos: nat, ghost rest: seq<nat>)
      returns (gobj: Link, did: bool, ghost ins2: set<nat>, ghost name2: map<nat, nat>, ghost pos2: nat,
               ghost rest2: seq<nat>)
      requires Valid() && f0 <= unused && SoFar(b0, sel0, f0, box, selected, ins, name, rest)
      requires Reached(To(obj), pos, rest, f0)
      modifies this
      ensures Valid() && f0 <= unused && SoFar(b0, sel0, f0, box, selected, ins2, name2, rest2)
      ensures Reached(gobj, pos2, rest2, f0)
      ensures if rest == [] then !did && rest2 == [] && list == old(list) && pos2 == pos + 1 <= |list|
              else rest2 == rest[1..]
      ensures rest != [] ==>
                Fanning(b0, sel0) - Members(rest2)
                    == Fanning(b0, sel0) - Members(rest) + (if did then {rest[0]} else {})
    {
      hide SoFar, Fanning, Members, UpTo, Without, At, AllValid, ListValid;
      ghost var l, f := list, unused;
      AtFacts(l, box, f, pos, rest, f0);
      var next;
      ghost var place;
      next, place := Next(obj);
      assert place == pos;
      did, ins2, name2 := Visit(obj, b0, sel0, f0, ins, name, rest);
      gobj := next;
      if rest == [] {
        AtPast(l, pos, f0);
        pos2, rest2 := pos + 1, [];
      } else {
        rest2 := rest[1..];
        if unused >= f && list == l + UpTo(f, unused) {
          AtGrown(l, pos, rest, f0, f, unused);
          pos2 := pos + 1;
        } else {
          AtWithout(l, pos, rest, f0, f);
          pos2 := pos;
        }
      }
    }

    method Find(obj: nat) returns (i: nat)
      requires obj in list
      ensures i < |list| && list[i] == obj
    {
      ghost var pos: nat :| pos < |list| && list[pos] == obj;
      i := 0;
      while list[i] != obj
        invariant i <= pos < |list| && list[pos] == obj
        decreases pos - i
      {
        i := i + 1;
      }
    }
  }

  /** From `pos` on the list holds `rest` and then new boxes. */
  ghost predicate At(l: seq<nat>, pos: nat, rest: seq<nat>, f0: nat) {
    && pos + |rest| <= |l| && l[pos..pos + |rest|] == rest
    && forall k: nat :: pos + |rest| <= k < |l| ==> l[k] >= f0
  }

  lemma AtFacts(l: seq<nat>, b: Boxes, top: nat, pos: nat, rest: seq<nat>, f0: nat)
    requires At(l, pos, rest, f0) && pos < |l| && ListValid(l, b, top)
    ensures if rest == [] then l[pos] >= f0 else l[pos] == rest[0]
    ensures l[pos] in b && l[pos] in l
    ensures forall j: nat, k: nat :: j < k < |l| ==> l[j] != l[k]
  {
  }

  lemma AtPast(l: seq<nat>, pos: nat, f0: nat)
    requires At(l, pos, [], f0) && pos < |l|
    ensures At(l, pos + 1, [], f0)
  {
  }

  lemma AtGrown(l: seq<nat>, pos: nat, rest: seq<nat>, f0: nat, f: nat, g: nat)
    requires At(l, pos, rest, f0) && rest != [] && f0 <= f <= g
    ensures At(l + UpTo(f, g), pos + 1, rest[1..], f0)
    ensures pos + 1 < |l| ==> (l + UpTo(f, g))[pos + 1] == l[pos + 1]
    ensures pos + 1 == |l| ==> |rest| == 1
  {
    var l2 := l + UpTo(f, g);
    assert l2[pos + 1..pos + |rest|] == l[pos..pos + |rest|][1..];
  }

  lemma AtWithout(l: seq<nat>, pos: nat, rest: seq<nat>, f0: nat, f: nat)
    requires At(l, pos, rest, f0) && rest != [] && f0 <= f
    requires forall j: nat, k: nat :: j < k < |l| ==> l[j] != l[k]
    ensures |Without(l, rest[0])| == |l| - 1 && At(Without(l, rest[0]) + [f], pos, rest[1..], f0)
    ensures pos + 1 < |l| ==> (Without(l, rest[0]) + [f])[pos] == l[pos + 1]
    ensures pos + 1 == |l| ==> |rest| == 1
  {
    assert rest[0] == l[pos];
    WithoutAt(l, pos);
    hide Without;
    AtCut(l, pos, rest, f0, f);
  }

  lemma AtCut(l: seq<nat>, pos: nat, rest: seq<nat>, f0: nat, f: nat)
    requires At(l, pos, rest, f0) && rest != [] && f0 <= f
    ensures At(l[..pos] + l[pos + 1..] + [f], pos, rest[1..], f0)
  {
    var l2 := l[..pos] + l[pos + 1..] + [f];
    assert forall k: nat :: pos <= k < |l| - 1 ==> l2[k] == l[k + 1];
    assert l2[pos..pos + |rest| - 1] == l[pos..pos + |rest|][1..];
  }

  /** As many boxes have been rewritten as there are selected ones with a fan-out, those in `rest` apart. */
  ghost predicate Counted(count: nat, b0: Boxes, sel0: set<nat>, rest: seq<nat>) {
    count == |Fanning(b0, sel0) - Members(rest)|
  }

  lemma CountedStep(count: nat, b0: Boxes, sel0: set<nat>, rest: seq<nat>, did: bool)
    requires Counted(count, b0, sel0, rest) && (rest == [] ==> !did)
    requires rest != [] ==>
      Fanning(b0, sel0) - Members(rest[1..]) == Fanning(b0, sel0) - Members(rest) + if did then {rest[0]} else {}
    ensures Counted(count + if did then 1 else 0, b0, sel0, if rest == [] then [] else rest[1..])
  {
    hide Fanning;
    assert rest != [] ==> rest[0] !in Fanning(b0, sel0) - Members(rest);
  }

  lemma VisitFacts(b0: Boxes, sel0: set<nat>, f0: nat, b: Boxes, sel: set<nat>, ins: set<nat>, name: map<nat, nat>,
                   rest: seq<nat>, obj: nat, l: seq<nat>, f: nat)
    requires SoFar(b0, sel0, f0, b, sel, ins, name, rest) && obj in b && ListValid(l, b, f) && AllValid(b)
    ensures Below(b, f) && f !in b && b[obj].Valid()
    ensures obj >= f0 ==> b[obj].trigger && !b[obj].HasFanout()
    ensures l + UpTo(f, f) == l
  {
    hide Inv, Stands, Box.HasFanout;
  }

  lemma RunBegins(b: Boxes, sel: set<nat>, f: nat, l: seq<nat>)
    requires AllValid(b) && Closed(b) && ListValid(l, b, f) && sel <= b.Keys
    ensures SoFar(b, sel, f, b, sel, {}, map[], l) && At(l, 0, l, f)
    ensures Counted(0, b, sel, l)
  {
    hide Box.HasFanout;
    assert Fanning(b, sel) - Members(l) == {};
    RunStarts(b, sel, f, l);
  }

  lemma RunEnds(b0: Boxes, sel0: set<nat>, f0: nat, b: Boxes, sel: set<nat>, ins: set<nat>, name: map<nat, nat>)
    requires SoFar(b0, sel0, f0, b, sel, ins, name, [])
    ensures forall u: nat :: u in b && u in sel ==> !b[u].HasFanout()
    ensures Inv(b0, b, ins, name, Replaced(b0, sel0)) && Stands(b0, b, ins, name)
    ensures sel == sel0 - Replaced(b0, sel0) + ins
    ensures forall count: nat :: Counted(count, b0, sel0, []) ==> count == |Fanning(b0, sel0)|
  {
    hide Inv, Stands, Box.HasFanout;
    assert Replaced(b0, sel0) - Members([]) == Replaced(b0, sel0);
    assert Fanning(b0, sel0) - Members([]) == Fanning(b0, sel0);
  }

  /** Boxes f up to f2 have been added to the list and to the selection. */
  ghost predicate Grown(l: seq<nat>, s: set<nat>, f: nat, l2: seq<nat>, s2: set<nat>, f2: nat) {
    f <= f2 && l2 == l + UpTo(f, f2) && s2 == s + Members(UpTo(f, f2))
  }

  lemma GrownNone(l: seq<nat>, s: set<nat>, f: nat)
    ensures Grown(l, s, f, l, s, f)
  {
    assert UpTo(f, f) == [];
  }

  lemma GrownStep(l: seq<nat>, s: set<nat>, f: nat, l2: seq<nat>, s2: set<nat>, f2: nat)
    requires Grown(l, s, f, l2, s2, f2)
    ensures Grown(l, s, f, l2 + [f2], s2 + {f2}, f2 + 1)
  {
    assert UpTo(f, f2 + 1) == UpTo(f, f2) + [f2];
  }

  lemma BelowTop(l: seq<nat>, b: Boxes, top: nat)
    requires ListValid(l, b, top)
    ensures Below(b, top)
  {
  }

  lemma SplitValid(b: Boxes, u: nat, o: nat, s: nat)
    requires AllValid(b) && u in b && o < |b[u].conns| && s !in b
    ensures AllValid(Split(b, u, o, s))
  {
    hide Singles;
  }

  lemma KeysOnly(l: seq<nat>, b: Boxes, c: Boxes, top: nat)
    requires ListValid(l, b, top) && b.Keys == c.Keys
    ensures ListValid(l, c, top)
  {
  }

  /** The list holds every box once, and numbers are below `top`. */
  ghost predicate ListValid(l: seq<nat>, b: Boxes, top: nat) {
    && (forall i: nat, j: nat :: i < j < |l| ==> l[i] != l[j])
    && (forall u: nat :: u in b <==> u in l)
    && (forall u: nat :: u in b ==> u < top)
  }

  /** The same, said of a set of numbers. */
  ghost predicate Lists(l: seq<nat>, keys: set<nat>, top: nat) {
    && (forall i: nat, j: nat :: i < j < |l| ==> l[i] != l[j])
    && (forall u: nat :: u in keys <==> u in l)
    && (forall u: nat :: u in keys ==> u < top)
  }

  lemma SameKeys(l: seq<nat>, keys: set<nat>, b: Boxes, top: nat)
    requires Lists(l, keys, top) && b.Keys == keys
    ensures ListValid(l, b, top)
  {
  }

  /** Taking entry i, the box t, out of the list with the new box s at its end. */
  lemma DeleteList(l: seq<nat>, b: Boxes, t: nat, s: nat, i: nat)
    requires ListValid(l, b, s) && t in b && i < |l + [s]| && (l + [s])[i] == t
    ensures (l + [s])[..i] + (l + [s])[i + 1..] == Without(l, t) + [s]
    ensures Lists(Without(l, t) + [s], b.Keys - {t} + {s}, s + 1)
  {
    ListFacts(l, b, s);
    assert i < |l| && l[i] == t;
    hide Without, ListValid;
    WithoutAt(l, i);
    CutBefore(l, s, i);
    ListsCut(l, b.Keys, i, s);
    ListsAppended(l[..i] + l[i + 1..], b.Keys - {t}, s);
  }

  lemma ListFacts(l: seq<nat>, b: Boxes, top: nat)
    requires ListValid(l, b, top)
    ensures top !in l && Lists(l, b.Keys, top)
    ensures forall u: nat :: u in b ==> u in l && u != top
  {
  }

  lemma CutBefore(l: seq<nat>, s: nat, i: nat)
    requires i < |l|
    ensures (l + [s])[..i] + (l + [s])[i + 1..] == l[..i] + l[i + 1..] + [s]
  {
  }

  lemma ListsCut(l: seq<nat>, keys: set<nat>, i: nat, top: nat)
    requires Lists(l, keys, top) && i < |l|
    ensures Lists(l[..i] + l[i + 1..], keys - {l[i]}, top)
  {
    WithoutMembers(l, i);
  }

  lemma ListsAppended(r: seq<nat>, keys: set<nat>, s: nat)
    requires Lists(r, keys, s)
    ensures Lists(r + [s], keys + {s}, s + 1)
  {
    assert s !in r;
    AppendDistinct(r, s);
    assert forall u: nat :: u in r + [s] <==> u in r || u == s;
  }

  lemma AppendDistinct(r: seq<nat>, s: nat)
    requires s !in r && forall j: nat, k: nat :: j < k < |r| ==> r[j] != r[k]
    ensures forall j: nat, k: nat :: j < k < |r + [s]| ==> (r + [s])[j] != (r + [s])[k]
  {
    forall j: nat, k: nat | j < k < |r + [s]| ensures (r + [s])[j] != (r + [s])[k] {
      if k == |r| { assert r[j] in r; }
    }
  }

  lemma UnusedIsNew(l: seq<nat>, b: Boxes, top: nat)
    requires ListValid(l, b, top)
    ensures top !in b
  {
  }

  lemma WithoutMembers(l: seq<nat>, i: nat)
    requires i < |l| && forall j: nat, k: nat :: j < k < |l| ==> l[j] != l[k]
    ensures forall u: nat :: u in l[..i] + l[i + 1..] <==> u in l && u != l[i]
  {
    var r := l[..i] + l[i + 1..];
    forall u: nat ensures u in r <==> u in l && u != l[i] {
      if u in l && u != l[i] {
        var k: nat :| k < |l| && l[k] == u;
        assert r[if k < i then k else k - 1] == u;
      }
    }
  }

  /** A list without one of its members. */
  function Without(l: seq<nat>, u: nat): seq<nat> {
    if l == [] then [] else if l[0] == u then Without(l[1..], u) else [l[0]] + Without(l[1..], u)
  }

  lemma {:induction false} WithoutNone(l: seq<nat>, u: nat)
    requires u !in l
    ensures Without(l, u) == l
  {
    if l != [] { WithoutNone(l[1..], u); }
  }

  lemma {:induction false} WithoutAt(l: seq<nat>, i: nat)
    requires i < |l| && forall j: nat, k: nat :: j < k < |l| ==> l[j] != l[k]
    ensures Without(l, l[i]) == l[..i] + l[i + 1..]
  {
    if i == 0 {
      WithoutNone(l[1..], l[0]);
    } else {
      WithoutAt(l[1..], i - 1);
      assert l[..i] + l[i + 1..] == [l[0]] + (l[1..][..i - 1] + l[1..][i..]);
    }
  }

  lemma ExpandValid(b: Boxes, t: nat, s: nat)
    requires AllValid(b) && t in b && s !in b && b[t].trigger
    ensures AllValid(Expand(b, t, s))
  {
  }
}
