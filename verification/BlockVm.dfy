/** The DSP chain as code with jumps: block~ and switch~ prologs and epilogs.

  A patch is a list of items, nested through blocks.  Code lays it out flat, the machine runs
  the flat code word by word, and Exec says what a patch means without any jumps. */
module BlockVm {
  import opened Arith

  datatype Item =
    | Work(id: nat, nargs: nat)
    | Block(b: nat, body: seq<Item>, epilog: seq<Item>)

  datatype Word = Done | Perf(id: nat, nargs: nat) | Prolog(b: nat) | Epilog(b: nat) | Arg

  const PROLOGCALL := 2
  const EPILOGCALL := 2

  /** The fields of a block~ or switch~ object that its chain code uses. */
  datatype Blk = Blk(phase: int, period: int, frequency: int, count: int, blocklength: int, epiloglength: int,
                     switchon: bool, reblock: bool, ret: bool)

  type Blocks = map<nat, Blk>

  // ---------------------------------------------------------------------------------------
  // The flat machine
  // ---------------------------------------------------------------------------------------

  datatype Config = At(ip: int, st: Blocks, trace: seq<nat>) | Halted(st: Blocks, trace: seq<nat>) | Crashed

  /** block_prolog */
  function PrologStep(ip: int, st: Blocks, trace: seq<nat>, b: nat): Config
    requires b in st
  {
    var x := st[b];
    if !x.switchon then At(ip + x.blocklength, st, trace)
    else if x.phase != 0 then
      At(ip + x.blocklength, st[b := x.(phase := if x.phase + 1 == x.period then 0 else x.phase + 1)], trace)
    else
      At(ip + PROLOGCALL, st[b := x.(count := x.frequency, phase := if x.period > 1 then 1 else 0)], trace)
  }

  /** block_epilog */
  function EpilogStep(ip: int, st: Blocks, trace: seq<nat>, b: nat): Config
    requires b in st
  {
    var x := st[b];
    if x.ret then Halted(st, trace)
    else if !x.reblock then At(ip + x.epiloglength + EPILOGCALL, st, trace)
    else if x.count - 1 != 0 then
      At(ip - (x.blocklength - (PROLOGCALL + EPILOGCALL)), st[b := x.(count := x.count - 1)], trace)
    else At(ip + EPILOGCALL, st, trace)
  }

  function Step(code: seq<Word>, c: Config): Config {
    if !c.At? then c
    else if !(0 <= c.ip < |code|) then Crashed
    else
      match code[c.ip]
      case Done => Halted(c.st, c.trace)
      case Perf(id, n) => At(c.ip + n + 1, c.st, c.trace + [id])
      case Prolog(b) => if b in c.st then PrologStep(c.ip, c.st, c.trace, b) else Crashed
      case Epilog(b) => if b in c.st then EpilogStep(c.ip, c.st, c.trace, b) else Crashed
      case Arg => Crashed
  }

  function StepN(code: seq<Word>, c: Config, n: nat): Config
    decreases n
  {
    if n == 0 then c else StepN(code, Step(code, c), n - 1)
  }

  ghost predicate RunsTo(code: seq<Word>, c: Config, d: Config) {
    exists n: nat :: StepN(code, c, n) == d
  }

  lemma {:induction false} StepNAdd(code: seq<Word>, c: Config, m: nat, n: nat)
    ensures StepN(code, c, m + n) == StepN(code, StepN(code, c, m), n)
    decreases m
  {
    if m > 0 { StepNAdd(code, Step(code, c), m - 1, n); }
  }

  lemma RunsTrans(code: seq<Word>, c: Config, d: Config, e: Config)
    requires RunsTo(code, c, d) && RunsTo(code, d, e)
    ensures RunsTo(code, c, e)
  {
    var m: nat :| StepN(code, c, m) == d;
    var n: nat :| StepN(code, d, n) == e;
    StepNAdd(code, c, m, n);
  }

  lemma RunsOne(code: seq<Word>, c: Config)
    ensures RunsTo(code, c, Step(code, c))
  {
    assert StepN(code, c, 1) == Step(code, c);
  }

  lemma RunsNone(code: seq<Word>, c: Config)
    ensures RunsTo(code, c, c)
  {
    assert StepN(code, c, 0) == c;
  }

  // ---------------------------------------------------------------------------------------
  // Layout
  // ---------------------------------------------------------------------------------------

  function Args(n: nat): (r: seq<Word>)
    ensures |r| == n
  {
    seq(n, i => Arg)
  }

  function Code(items: seq<Item>): seq<Word> {
    if items == [] then [] else Code1(items[0]) + Code(items[1..])
  }

  function Code1(i: Item): (r: seq<Word>)
    ensures |r| > 0
  {
    match i
    case Work(id, n) => [Perf(id, n)] + Args(n)
    case Block(b, body, epilog) => [Prolog(b), Arg] + Code(body) + [Epilog(b), Arg] + Code(epilog)
  }

  function Ids(items: seq<Item>): set<nat> {
    if items == [] then {} else Ids1(items[0]) + Ids(items[1..])
  }

  function Ids1(i: Item): set<nat> {
    match i
    case Work(_, _) => {}
    case Block(b, body, epilog) => {b} + Ids(body) + Ids(epilog)
  }

  /** No block~ object occurs twice. */
  ghost predicate Distinct(items: seq<Item>) {
    items == [] || (Distinct1(items[0]) && Distinct(items[1..]) && Ids1(items[0]) !! Ids(items[1..]))
  }

  ghost predicate Distinct1(i: Item) {
    match i
    case Work(_, _) => true
    case Block(b, body, epilog) =>
      Distinct(body) && Distinct(epilog) && Ids(body) !! Ids(epilog) && b !in Ids(body) && b !in Ids(epilog)
  }

  /** Every block knows its lengths, runs at least once when it runs, and is not in one-shot
    mode. */
  ghost predicate Laid(items: seq<Item>, st: Blocks) {
    items == [] || (Laid1(items[0], st) && Laid(items[1..], st))
  }

  ghost predicate Laid1(i: Item, st: Blocks) {
    match i
    case Work(_, _) => true
    case Block(b, body, epilog) =>
      && b in st && !st[b].ret && st[b].frequency >= 1
      && st[b].blocklength == |Code(body)| + PROLOGCALL + EPILOGCALL && st[b].epiloglength == |Code(epilog)|
      && Laid(body, st) && Laid(epilog, st)
  }

  // ---------------------------------------------------------------------------------------
  // What a patch means
  // ---------------------------------------------------------------------------------------

  datatype Outcome = Outcome(st: Blocks, trace: seq<nat>)

  function Then(a: Outcome, b: Outcome): Outcome {
    Outcome(b.st, a.trace + b.trace)
  }

  function Exec(items: seq<Item>, st: Blocks): Outcome
    decreases items, 0
  {
    if items == [] then Outcome(st, [])
    else
      var a := Exec1(items[0], st);
      Then(a, Exec(items[1..], a.st))
  }

  /** A block that is switched off, or out of phase, does its outlet epilogs only; one that
    runs does so frequency times if it reblocks and once if not. */
  function Exec1(i: Item, st: Blocks): Outcome
    decreases i, 1
  {
    match i
    case Work(id, _) => Outcome(st, [id])
    case Block(b, body, epilog) =>
      if b !in st || !st[b].switchon then Exec(epilog, st)
      else
        var x := st[b];
        if x.phase != 0 then
          Exec(epilog, st[b := x.(phase := if x.phase + 1 == x.period then 0 else x.phase + 1)])
        else
          var st1 := st[b := x.(count := x.frequency, phase := if x.period > 1 then 1 else 0)];
          if !x.reblock then Exec(body, st1)
          else
            var r := Repeat(b, body, st1, if x.frequency >= 1 then x.frequency else 1);
            Then(r, Exec(epilog, r.st))
  }

  /** The body n times over; the block's own counter runs down from n to 1 meanwhile. */
  function Repeat(b: nat, body: seq<Item>, st: Blocks, n: nat): Outcome
    requires n >= 1
    decreases body, 1, n
  {
    var r := Exec(body, st);
    if n == 1 then r
    else
      var st1 := if b in r.st then r.st[b := r.st[b].(count := n - 1)] else r.st;
      Then(r, Repeat(b, body, st1, n - 1))
  }

  // ---------------------------------------------------------------------------------------
  // Running changes phases and counters only, and only of the blocks that are run
  // ---------------------------------------------------------------------------------------

  ghost predicate SameShape(a: Blk, b: Blk) {
    a == b.(phase := a.phase, count := a.count)
  }

  ghost predicate Only(ids: set<nat>, st: Blocks, st': Blocks) {
    && st'.Keys == st.Keys
    && (forall b :: b in st ==> SameShape(st'[b], st[b]))
    && (forall b :: b in st && b !in ids ==> st'[b] == st[b])
  }

  lemma {:induction false} ExecOnly(items: seq<Item>, st: Blocks)
    ensures Only(Ids(items), st, Exec(items, st).st)
    decreases items, 0
  {
    if items != [] {
      Exec1Only(items[0], st);
      ExecOnly(items[1..], Exec1(items[0], st).st);
    }
  }

  lemma {:induction false} Exec1Only(i: Item, st: Blocks)
    ensures Only(Ids1(i), st, Exec1(i, st).st)
    decreases i, 1
  {
    hide Exec, Repeat;
    match i
    case Work(_, _) =>
    case Block(b, body, epilog) =>
      if b !in st || !st[b].switchon {
        ExecOnly(epilog, st);
      } else if st[b].phase != 0 {
        ExecOnly(epilog, st[b := st[b].(phase := if st[b].phase + 1 == st[b].period then 0 else st[b].phase + 1)]);
      } else {
        RunOnly(b, body, epilog, st);
      }
  }

  lemma {:induction false} RunOnly(b: nat, body: seq<Item>, epilog: seq<Item>, st: Blocks)
    requires b in st && st[b].switchon && st[b].phase == 0
    ensures Only({b} + Ids(body) + Ids(epilog), st, Exec1(Block(b, body, epilog), st).st)
    decreases Block(b, body, epilog), 0
  {
    hide Exec, Repeat, Ids;
    var x := st[b];
    var st1 := st[b := x.(count := x.frequency, phase := if x.period > 1 then 1 else 0)];
    if !x.reblock {
      ExecOnly(body, st1);
      OnlyTrans({b}, Ids(body), st, st1, Exec(body, st1).st);
    } else {
      var n := if x.frequency >= 1 then x.frequency else 1;
      var r := Repeat(b, body, st1, n);
      RepeatOnly(b, body, st1, n);
      ExecOnly(epilog, r.st);
      OnlyTrans({b}, Ids(body) + {b}, st, st1, r.st);
      OnlyTrans({b} + (Ids(body) + {b}), Ids(epilog), st, r.st, Exec(epilog, r.st).st);
      hide Only;
      assert {b} + (Ids(body) + {b}) + Ids(epilog) == {b} + Ids(body) + Ids(epilog);
    }
  }

  lemma OnlyTrans(x: set<nat>, y: set<nat>, s0: Blocks, s1: Blocks, s2: Blocks)
    requires Only(x, s0, s1) && Only(y, s1, s2)
    ensures Only(x + y, s0, s2)
  {
  }

  lemma {:induction false} RepeatOnly(b: nat, body: seq<Item>, st: Blocks, n: nat)
    requires n >= 1
    ensures Only(Ids(body) + {b}, st, Repeat(b, body, st, n).st)
    decreases body, 1, n
  {
    ExecOnly(body, st);
    if n > 1 {
      var r := Exec(body, st);
      var st1 := if b in r.st then r.st[b := r.st[b].(count := n - 1)] else r.st;
      RepeatOnly(b, body, st1, n - 1);
    }
  }

  lemma {:induction false} LaidStays(items: seq<Item>, st: Blocks, st': Blocks)
    requires Laid(items, st) && st'.Keys == st.Keys
    requires forall b :: b in Ids(items) && b in st ==> SameShape(st'[b], st[b])
    ensures Laid(items, st')
    decreases items
  {
    if items != [] {
      LaidStays1(items[0], st, st');
      LaidStays(items[1..], st, st');
    }
  }

  lemma {:induction false} LaidStays1(i: Item, st: Blocks, st': Blocks)
    requires Laid1(i, st) && st'.Keys == st.Keys
    requires forall b :: b in Ids1(i) && b in st ==> SameShape(st'[b], st[b])
    ensures Laid1(i, st')
    decreases i
  {
    match i
    case Work(_, _) =>
    case Block(b, body, epilog) =>
      LaidStays(body, st, st');
      LaidStays(epilog, st, st');
  }

  // ---------------------------------------------------------------------------------------
  // The flat code does what the patch means
  // ---------------------------------------------------------------------------------------

  /** The code of items lies at address ip. */
  ghost predicate LiesAt(code: seq<Word>, ip: int, part: seq<Word>) {
    0 <= ip && ip + |part| <= |code| && code[ip..ip + |part|] == part
  }

  lemma LiesSplit(code: seq<Word>, ip: int, a: seq<Word>, b: seq<Word>)
    requires LiesAt(code, ip, a + b)
    ensures LiesAt(code, ip, a) && LiesAt(code, ip + |a|, b)
  {
    assert code[ip..ip + |a|] == (a + b)[..|a|];
    assert code[ip + |a|..ip + |a| + |b|] == (a + b)[|a|..];
  }

  lemma {:induction false} ExecRefines(code: seq<Word>, ip: int, items: seq<Item>, st: Blocks, tr: seq<nat>)
    requires LiesAt(code, ip, Code(items)) && Laid(items, st) && Distinct(items)
    ensures RunsTo(code, At(ip, st, tr), At(ip + |Code(items)|, Exec(items, st).st, tr + Exec(items, st).trace))
    decreases items, 0
  {
    var here := At(ip, st, tr);
    if items == [] {
      assert tr + [] == tr;
      RunsNone(code, here);
    } else {
      var i, rest := items[0], items[1..];
      var a := Exec1(i, st);
      LiesSplit(code, ip, Code1(i), Code(rest));
      Exec1Refines(code, ip, i, st, tr);
      Exec1Only(i, st);
      LaidStays(rest, st, a.st);
      ExecRefines(code, ip + |Code1(i)|, rest, a.st, tr + a.trace);
      var e := Exec(rest, a.st);
      assert tr + a.trace + e.trace == tr + (a.trace + e.trace);
      RunsTrans(code, here, At(ip + |Code1(i)|, a.st, tr + a.trace),
          At(ip + |Code(items)|, e.st, tr + a.trace + e.trace));
    }
  }

  /** Where the parts of a block's code lie. */
  lemma BlockLies(code: seq<Word>, ip: int, b: nat, body: seq<Item>, epilog: seq<Item>)
    requires LiesAt(code, ip, Code1(Block(b, body, epilog)))
    ensures code[ip] == Prolog(b) && LiesAt(code, ip + 2, Code(body))
    ensures var q := ip + 2 + |Code(body)|;
      q < |code| && code[q] == Epilog(b) && LiesAt(code, q + 2, Code(epilog))
  {
    var head, tail: seq<Word> := [Prolog(b), Arg], [Epilog(b), Arg];
    FourParts(code, ip, head, Code(body), tail, Code(epilog));
    assert code[ip] == code[ip..ip + 2][0];
    var q := ip + 2 + |Code(body)|;
    assert code[q] == code[q..q + 2][0];
  }

  lemma FourParts(code: seq<Word>, ip: int, a: seq<Word>, b: seq<Word>, c: seq<Word>, d: seq<Word>)
    requires LiesAt(code, ip, a + b + c + d)
    ensures LiesAt(code, ip, a) && LiesAt(code, ip + |a|, b)
    ensures LiesAt(code, ip + |a| + |b|, c) && LiesAt(code, ip + |a| + |b| + |c|, d)
  {
    assert a + b + c + d == a + (b + (c + d));
    LiesSplit(code, ip, a, b + (c + d));
    LiesSplit(code, ip + |a|, b, c + d);
    LiesSplit(code, ip + |a| + |b|, c, d);
  }

  lemma {:induction false} Exec1Refines(code: seq<Word>, ip: int, i: Item, st: Blocks, tr: seq<nat>)
    requires LiesAt(code, ip, Code1(i)) && Laid1(i, st) && Distinct1(i)
    ensures RunsTo(code, At(ip, st, tr), At(ip + |Code1(i)|, Exec1(i, st).st, tr + Exec1(i, st).trace))
    decreases i, 2
  {
    var here := At(ip, st, tr);
    match i
    case Work(id, n) =>
      assert code[ip] == code[ip..ip + |Code1(i)|][0];
      RunsOne(code, here);
    case Block(b, body, epilog) =>
      Block1Refines(code, ip, b, body, epilog, st, tr);
  }

  lemma {:induction false} Block1Refines(code: seq<Word>, ip: int, b: nat, body: seq<Item>, epilog: seq<Item>,
                                         st: Blocks, tr: seq<nat>)
    requires var i := Block(b, body, epilog); LiesAt(code, ip, Code1(i)) && Laid1(i, st) && Distinct1(i)
    ensures var i := Block(b, body, epilog);
            RunsTo(code, At(ip, st, tr), At(ip + |Code1(i)|, Exec1(i, st).st, tr + Exec1(i, st).trace))
    decreases Block(b, body, epilog), 1
  {
    var i, here := Block(b, body, epilog), At(ip, st, tr);
    BlockLies(code, ip, b, body, epilog);
    RunsOne(code, here);
    var x := st[b];
    var end := ip + x.blocklength;
    var next := Step(code, here);
    if !x.switchon || x.phase != 0 {
      LaidStays(epilog, st, next.st);
      ExecRefines(code, end, epilog, next.st, tr);
      var e := Exec(epilog, next.st);
      RunsTrans(code, here, next, At(end + |Code(epilog)|, e.st, tr + e.trace));
    } else {
      LaidStays(body, st, next.st);
      LaidStays(epilog, st, next.st);
      BlockRuns(code, ip, b, body, epilog, next.st, tr);
      RunsTrans(code, here, next, At(ip + |Code1(i)|, Exec1(i, st).st, tr + Exec1(i, st).trace));
    }
  }

  /** From just after the prolog of a block that is to run, to the end of its outlet epilogs. */
  lemma {:induction false} BlockRuns(code: seq<Word>, ip: int, b: nat, body: seq<Item>, epilog: seq<Item>, st: Blocks,
      tr: seq<nat>)
    requires LiesAt(code, ip, Code1(Block(b, body, epilog)))
    requires Laid1(Block(b, body, epilog), st) && Distinct1(Block(b, body, epilog)) && st[b].count == st[b].frequency
    ensures
      var x := st[b];
      var n := if x.frequency >= 1 then x.frequency else 1;
      var r := if x.reblock then Then(Repeat(b, body, st, n), Exec(epilog, Repeat(b, body, st, n).st))
               else Exec(body, st);
      RunsTo(code, At(ip + 2, st, tr), At(ip + |Code1(Block(b, body, epilog))|, r.st, tr + r.trace))
    decreases Block(b, body, epilog), 0
  {
    hide LiesAt;
    BlockLies(code, ip, b, body, epilog);
    var x := st[b];
    var q := ip + 2 + |Code(body)|;
    var end := ip + |Code1(Block(b, body, epilog))|;
    var here := At(ip + 2, st, tr);
    if x.reblock {
      var r := Repeat(b, body, st, x.frequency);
      RepeatRefines(code, ip, b, body, epilog, st, tr, x.frequency);
      RepeatOnly(b, body, st, x.frequency);
      LaidStays(epilog, st, r.st);
      var e := Exec(epilog, r.st);
      ExecRefines(code, q + 2, epilog, r.st, tr + r.trace);
      assert tr + r.trace + e.trace == tr + (r.trace + e.trace);
      RunsTrans(code, here, At(q + 2, r.st, tr + r.trace), At(end, e.st, tr + r.trace + e.trace));
    } else {
      var e := Exec(body, st);
      ExecRefines(code, ip + 2, body, st, tr);
      ExecOnly(body, st);
      var there := At(q, e.st, tr + e.trace);
      RunsOne(code, there);
      RunsTrans(code, here, there, At(end, e.st, tr + e.trace));
    }
  }

  /** Once through the body and the epilog that follows it. */
  lemma RoundRefines(code: seq<Word>, ip: int, b: nat, body: seq<Item>, epilog: seq<Item>, st: Blocks, tr: seq<nat>)
    requires LiesAt(code, ip, Code1(Block(b, body, epilog)))
    requires Laid1(Block(b, body, epilog), st) && Distinct1(Block(b, body, epilog)) && st[b].reblock
    ensures
      var r := Exec(body, st);
      var c := At(ip + 2, st, tr);
      && Only(Ids(body), st, r.st)
      && RunsTo(code, c, if st[b].count - 1 != 0
                         then At(ip + 2, r.st[b := r.st[b].(count := r.st[b].count - 1)], tr + r.trace)
                         else At(ip + 2 + |Code(body)| + 2, r.st, tr + r.trace))
    decreases body, 1
  {
    hide LiesAt;
    BlockLies(code, ip, b, body, epilog);
    var r := Exec(body, st);
    ExecRefines(code, ip + 2, body, st, tr);
    ExecOnly(body, st);
    var there := At(ip + 2 + |Code(body)|, r.st, tr + r.trace);
    RunsOne(code, there);
    RunsTrans(code, At(ip + 2, st, tr), there, Step(code, there));
  }

  lemma {:induction false} RepeatRefines(code: seq<Word>, ip: int, b: nat, body: seq<Item>, epilog: seq<Item>,
                                         st: Blocks, tr: seq<nat>, n: nat)
    requires LiesAt(code, ip, Code1(Block(b, body, epilog)))
    requires Laid1(Block(b, body, epilog), st) && Distinct1(Block(b, body, epilog))
    requires n >= 1 && st[b].count == n && st[b].reblock
    ensures RunsTo(code, At(ip + 2, st, tr),
                   At(ip + 2 + |Code(body)| + 2, Repeat(b, body, st, n).st, tr + Repeat(b, body, st, n).trace))
    decreases body, 2, n
  {
    hide LiesAt, RunsTo;
    RoundRefines(code, ip, b, body, epilog, st, tr);
    if n > 1 {
      var r := Exec(body, st);
      var st1 := r.st[b := r.st[b].(count := n - 1)];
      LaidStays1(Block(b, body, epilog), st, st1);
      RepeatRefines(code, ip, b, body, epilog, st1, tr + r.trace, n - 1);
      var s := Repeat(b, body, st1, n - 1);
      assert tr + r.trace + s.trace == tr + (r.trace + s.trace);
      RunsTrans(code, At(ip + 2, st, tr), At(ip + 2, st1, tr + r.trace),
          At(ip + 2 + |Code(body)| + 2, s.st, tr + r.trace + s.trace));
    }
  }

  /** Every tick of any nesting of blocks, in any phase and switch state, reaches the end of the
    chain, having done just what the patch means. */
  lemma TickHalts(items: seq<Item>, st: Blocks)
    requires Laid(items, st) && Distinct(items)
    ensures RunsTo(Code(items) + [Done], At(0, st, []), Halted(Exec(items, st).st, Exec(items, st).trace))
  {
    var code := Code(items) + [Done];
    var r := Exec(items, st);
    assert LiesAt(code, 0, Code(items));
    ExecRefines(code, 0, items, st, []);
    assert [] + r.trace == r.trace;
    RunsOne(code, At(|Code(items)|, r.st, r.trace));
    RunsTrans(code, At(0, st, []), At(|Code(items)|, r.st, r.trace), Halted(r.st, r.trace));
  }

  // ---------------------------------------------------------------------------------------
  // One-shot mode
  // ---------------------------------------------------------------------------------------

  /** A bang to a switched-off block runs its body exactly once and leaves the block's own phase
    and counter as they were. */
  lemma BangRunsOnce(code: seq<Word>, ip: int, b: nat, body: seq<Item>, epilog: seq<Item>, st: Blocks)
    requires LiesAt(code, ip, Code1(Block(b, body, epilog)))
    requires Laid1(Block(b, body, epilog), st) && Distinct1(Block(b, body, epilog)) && !st[b].switchon
    ensures
      var st1 := st[b := st[b].(ret := true)];
      var r := Exec(body, st1);
      && RunsTo(code, At(ip + PROLOGCALL, st1, []), Halted(r.st, r.trace))
      && b in r.st && r.st[b].(ret := false) == st[b]
  {
    var st1 := st[b := st[b].(ret := true)];
    var r := Exec(body, st1);
    BlockLies(code, ip, b, body, epilog);
    LaidStays(body, st, st1);
    ExecRefines(code, ip + 2, body, st1, []);
    ExecOnly(body, st1);
    assert [] + r.trace == r.trace;
    var there := At(ip + 2 + |Code(body)|, r.st, r.trace);
    RunsOne(code, there);
    RunsTrans(code, At(ip + 2, st1, []), there, Halted(r.st, r.trace));
  }

  // ---------------------------------------------------------------------------------------
  // Tick after tick
  // ---------------------------------------------------------------------------------------

  /** The work ids that occur anywhere in a patch. */
  function Works(items: seq<Item>): set<nat> {
    if items == [] then {} else Works1(items[0]) + Works(items[1..])
  }

  function Works1(i: Item): set<nat> {
    match i
    case Work(id, _) => {id}
    case Block(b, body, epilog) => Works(body) + Works(epilog)
  }

  function Times(trace: seq<nat>, w: nat): nat {
    multiset(trace)[w]
  }

  lemma TimesAdd(a: seq<nat>, b: seq<nat>, w: nat)
    ensures Times(a + b, w) == Times(a, w) + Times(b, w)
  {
  }

  lemma {:induction false} ElsewhereNever(items: seq<Item>, st: Blocks, w: nat)
    requires w !in Works(items)
    ensures Times(Exec(items, st).trace, w) == 0
    decreases items, 0
  {
    if items != [] {
      ElsewhereNever1(items[0], st, w);
      ElsewhereNever(items[1..], Exec1(items[0], st).st, w);
      TimesAdd(Exec1(items[0], st).trace, Exec(items[1..], Exec1(items[0], st).st).trace, w);
    }
  }

  lemma {:induction false} ElsewhereNever1(i: Item, st: Blocks, w: nat)
    requires w !in Works1(i)
    ensures Times(Exec1(i, st).trace, w) == 0
    decreases i, 1
  {
    hide Exec, Repeat;
    match i
    case Work(_, _) =>
    case Block(b, body, epilog) =>
      if b !in st || !st[b].switchon {
        ElsewhereNever(epilog, st, w);
      } else {
        var x := st[b];
        if x.phase != 0 {
          ElsewhereNever(epilog, st[b := x.(phase := if x.phase + 1 == x.period then 0 else x.phase + 1)], w);
        } else {
          var st1 := st[b := x.(count := x.frequency, phase := if x.period > 1 then 1 else 0)];
          ElsewhereNever(body, st1, w);
          if x.reblock {
            var n := if x.frequency >= 1 then x.frequency else 1;
            RepeatNever(b, body, st1, n, w);
            var r := Repeat(b, body, st1, n);
            ElsewhereNever(epilog, r.st, w);
            TimesAdd(r.trace, Exec(epilog, r.st).trace, w);
          }
        }
      }
  }

  lemma {:induction false} RepeatNever(b: nat, body: seq<Item>, st: Blocks, n: nat, w: nat)
    requires n >= 1 && w !in Works(body)
    ensures Times(Repeat(b, body, st, n).trace, w) == 0
    decreases body, 1, n
  {
    var r := Exec(body, st);
    ElsewhereNever(body, st, w);
    if n > 1 {
      var st1 := if b in r.st then r.st[b := r.st[b].(count := n - 1)] else r.st;
      RepeatNever(b, body, st1, n - 1, w);
      TimesAdd(r.trace, Repeat(b, body, st1, n - 1).trace, w);
    }
  }

  /** Routine w stands k times at the top level of body, and nowhere deeper. */
  ghost predicate Marks(w: nat, body: seq<Item>, k: nat)
    decreases body
  {
    if body == [] then k == 0
    else if IsWork(body[0], w) then k > 0 && Marks(w, body[1..], k - 1)
    else w !in Works1(body[0]) && Marks(w, body[1..], k)
  }

  predicate IsWork(i: Item, w: nat) {
    i.Work? && i.id == w
  }

  /** f runs of something that is done k times in each. */
  function Often(f: int, k: nat): int {
    f * k
  }

  lemma OftenNext(f: int, k: nat)
    ensures Often(1, k) == k && Often(f, k) == k + Often(f - 1, k)
  {
  }

  lemma {:induction false} RepeatTimes(b: nat, body: seq<Item>, st: Blocks, n: nat, w: nat, k: nat)
    requires n >= 1 && Marks(w, body, k)
    ensures Times(Repeat(b, body, st, n).trace, w) == Often(n, k)
    decreases n
  {
    MarkedTimes(body, st, w, k);
    OftenNext(n, k);
    if n > 1 {
      var r := Exec(body, st);
      var st1 := if b in r.st then r.st[b := r.st[b].(count := n - 1)] else r.st;
      RepeatTimes(b, body, st1, n - 1, w, k);
      TimesAdd(r.trace, Repeat(b, body, st1, n - 1).trace, w);
    }
  }

  lemma {:induction false} MarkedTimes(body: seq<Item>, st: Blocks, w: nat, k: nat)
    requires Marks(w, body, k)
    ensures Times(Exec(body, st).trace, w) == k
    decreases body
  {
    if body != [] {
      var first := Exec1(body[0], st);
      var rest := Exec(body[1..], first.st);
      TimesAdd(first.trace, rest.trace, w);
      if IsWork(body[0], w) {
        MarkedTimes(body[1..], first.st, w, k - 1);
        assert first.trace == [w];
      } else {
        MarkedTimes(body[1..], first.st, w, k);
        ElsewhereNever1(body[0], st, w);
      }
    }
  }

  /** A reblocked block, switched on, with its phase in range. */
  predicate Due(x: Blk) {
    x.switchon && x.reblock && x.frequency >= 1 && 0 <= x.phase < x.period
  }

  /** A block that runs its body exactly once on every tick. */
  ghost predicate Steady(c: nat, st: Blocks) {
    c in st && st[c].switchon && st[c].phase == 0 && st[c].period == 1 && (st[c].reblock ==> st[c].frequency == 1)
  }

  /** Somewhere in the patch, however deep inside blocks that run once a tick, stands a due block b, with
    routine w k times at the top level of its body and nowhere else. */
  ghost predicate Watched(items: seq<Item>, b: nat, w: nat, k: nat, st: Blocks)
    decreases items
  {
    items != []
    && if b in Ids1(items[0]) then Watched1(items[0], b, w, k, st) && w !in Works(items[1..])
       else w !in Works1(items[0]) && Watched(items[1..], b, w, k, st)
  }

  ghost predicate Watched1(i: Item, b: nat, w: nat, k: nat, st: Blocks)
    decreases i
  {
    match i
    case Work(_, _) => false
    case Block(c, body, epilog) =>
      if c == b then b in st && Due(st[b]) && Marks(w, body, k) && w !in Works(epilog)
      else Steady(c, st) && Watched(body, b, w, k, st) && w !in Works(epilog)
  }

  /** What a tick does to b: one phase on, and w as often as its body is run frequency times, or not at all. */
  ghost predicate Ticked(b: nat, w: nat, k: nat, st: Blocks, r: Outcome) {
    && b in st && b in r.st && st[b].period > 0 && SameShape(r.st[b], st[b])
    && r.st[b].phase == (st[b].phase + 1) % st[b].period
    && Times(r.trace, w) == if st[b].phase == 0 then Often(st[b].frequency, k) else 0
  }

  lemma {:induction false} WatchedSame(items: seq<Item>, b: nat, w: nat, k: nat, st: Blocks, st': Blocks)
    requires Watched(items, b, w, k, st) && forall c :: c in Ids(items) && c in st ==> c in st' && st'[c] == st[c]
    ensures Watched(items, b, w, k, st') && b in Ids(items) && b in st
    decreases items
  {
    if b in Ids1(items[0]) {
      WatchedSame1(items[0], b, w, k, st, st');
    } else {
      WatchedSame(items[1..], b, w, k, st, st');
    }
  }

  lemma {:induction false} WatchedSame1(i: Item, b: nat, w: nat, k: nat, st: Blocks, st': Blocks)
    requires Watched1(i, b, w, k, st) && forall c :: c in Ids1(i) && c in st ==> c in st' && st'[c] == st[c]
    ensures Watched1(i, b, w, k, st') && b in Ids1(i) && b in st
    decreases i
  {
    match i
    case Block(c, body, epilog) =>
      if c != b { WatchedSame(body, b, w, k, st, st'); }
  }

  /** On one tick a watched block advances its phase by one, modulo the period, and runs its body frequency
    times if the phase was zero and not at all otherwise; and it is watched again. */
  lemma {:induction false} OneTick(items: seq<Item>, b: nat, w: nat, k: nat, st: Blocks)
    requires Distinct(items) && Watched(items, b, w, k, st)
    ensures Ticked(b, w, k, st, Exec(items, st)) && Watched(items, b, w, k, Exec(items, st).st)
    decreases items, 0
  {
    var i, rest := items[0], items[1..];
    var a := Exec1(i, st);
    var z := Exec(rest, a.st);
    Exec1Only(i, st);
    ExecOnly(rest, a.st);
    TimesAdd(a.trace, z.trace, w);
    hide Exec1, Works, Works1, SameShape;
    if b in Ids1(i) {
      OneTick1(i, b, w, k, st);
      ElsewhereNever(rest, a.st, w);
      WatchedSame1(i, b, w, k, a.st, z.st);
    } else {
      ElsewhereNever1(i, st, w);
      WatchedSame(rest, b, w, k, st, a.st);
      OneTick(rest, b, w, k, a.st);
    }
  }

  lemma {:induction false} OneTick1(i: Item, b: nat, w: nat, k: nat, st: Blocks)
    requires Distinct1(i) && Watched1(i, b, w, k, st)
    ensures Ticked(b, w, k, st, Exec1(i, st)) && Watched1(i, b, w, k, Exec1(i, st).st)
    decreases i, 1
  {
    match i
    case Block(c, body, epilog) =>
      if c == b {
        BlockTick(b, body, epilog, w, k, st);
      } else {
        InnerTick(c, body, epilog, b, w, k, st);
      }
  }

  /** A tick of a block c that runs once, with b inside. */
  lemma {:induction false} InnerTick(c: nat, body: seq<Item>, epilog: seq<Item>, b: nat, w: nat, k: nat, st: Blocks)
    requires Distinct1(Block(c, body, epilog)) && c != b && Watched1(Block(c, body, epilog), b, w, k, st)
    ensures var r := Exec1(Block(c, body, epilog), st);
            Ticked(b, w, k, st, r) && Watched1(Block(c, body, epilog), b, w, k, r.st)
    decreases Block(c, body, epilog), 0
  {
    var st1 := st[c := st[c].(count := st[c].frequency, phase := 0)];
    WatchedSame(body, b, w, k, st, st1);
    OneTick(body, b, w, k, st1);
    var r := Exec(body, st1);
    var z := Exec(epilog, r.st);
    ExecOnly(body, st1);
    ExecOnly(epilog, r.st);
    OnceRound(c, body, epilog, st);
    hide Exec, Exec1, Distinct, Works;
    WatchedSame(body, b, w, k, r.st, z.st);
    ElsewhereNever(epilog, r.st, w);
    TimesAdd(r.trace, z.trace, w);
  }

  lemma OnceRound(c: nat, body: seq<Item>, epilog: seq<Item>, st: Blocks)
    requires Steady(c, st)
    ensures var st1 := st[c := st[c].(count := st[c].frequency, phase := 0)];
            var r := Exec(body, st1);
            Exec1(Block(c, body, epilog), st) == if st[c].reblock then Then(r, Exec(epilog, r.st)) else r
  {
  }

  ghost predicate DueBlock(b: nat, body: seq<Item>, epilog: seq<Item>, w: nat, k: nat, st: Blocks) {
    && b in st && Due(st[b]) && b !in Ids(body) && b !in Ids(epilog)
    && Marks(w, body, k) && w !in Works(epilog)
  }

  lemma TickWaits(b: nat, body: seq<Item>, epilog: seq<Item>, w: nat, k: nat, st: Blocks)
    requires DueBlock(b, body, epilog, w, k, st) && st[b].phase != 0
    ensures
      var r := Exec1(Block(b, body, epilog), st);
      && b in r.st && r.st[b] == st[b].(phase := (st[b].phase + 1) % st[b].period)
      && Times(r.trace, w) == 0
  {
    hide Works, Marks;
    var x := st[b];
    var st1 := st[b := x.(phase := if x.phase + 1 == x.period then 0 else x.phase + 1)];
    ExecOnly(epilog, st1);
    ElsewhereNever(epilog, st1, w);
    PhaseWraps(x.phase, x.period);
  }

  lemma TickRuns(b: nat, body: seq<Item>, epilog: seq<Item>, w: nat, k: nat, st: Blocks)
    requires DueBlock(b, body, epilog, w, k, st) && st[b].phase == 0
    ensures
      var r := Exec1(Block(b, body, epilog), st);
      && b in r.st && SameShape(r.st[b], st[b]) && r.st[b].phase == 1 % st[b].period
      && Times(r.trace, w) == Often(st[b].frequency, k)
  {
    hide Works, Marks;
    var x := st[b];
    var st1 := st[b := x.(count := x.frequency, phase := if x.period > 1 then 1 else 0)];
    PhaseWraps(0, x.period);
    RepeatTimes(b, body, st1, x.frequency, w, k);
    RepeatPhase(b, body, st1, x.frequency);
    var r := Repeat(b, body, st1, x.frequency);
    ExecOnly(epilog, r.st);
    ElsewhereNever(epilog, r.st, w);
    TimesAdd(r.trace, Exec(epilog, r.st).trace, w);
  }

  lemma BlockTick(b: nat, body: seq<Item>, epilog: seq<Item>, w: nat, k: nat, st: Blocks)
    requires DueBlock(b, body, epilog, w, k, st)
    ensures Ticked(b, w, k, st, Exec1(Block(b, body, epilog), st)) && Due(Exec1(Block(b, body, epilog), st).st[b])
  {
    hide Exec1, Works, Marks;
    if st[b].phase != 0 {
      TickWaits(b, body, epilog, w, k, st);
    } else {
      TickRuns(b, body, epilog, w, k, st);
    }
    PhaseWraps(st[b].phase, st[b].period);
  }

  lemma PhaseWraps(phase: int, p: int)
    requires 0 <= phase < p
    ensures (phase + 1) % p == if phase + 1 == p then 0 else phase + 1
  {
    if phase + 1 == p { DivIs(p, p, 1, 0); } else { DivIs(phase + 1, p, 0, phase + 1); }
  }

  lemma {:induction false} RepeatPhase(b: nat, body: seq<Item>, st: Blocks, n: nat)
    requires n >= 1 && b in st && b !in Ids(body)
    ensures b in Repeat(b, body, st, n).st
    ensures SameShape(Repeat(b, body, st, n).st[b], st[b]) && Repeat(b, body, st, n).st[b].phase == st[b].phase
    decreases n
  {
    ExecOnly(body, st);
    if n > 1 {
      var r := Exec(body, st);
      RepeatPhase(b, body, r.st[b := r.st[b].(count := n - 1)], n - 1);
    }
  }

  function TickN(items: seq<Item>, st: Blocks, n: nat): Blocks
    decreases n
  {
    if n == 0 then st else TickN(items, Exec(items, st).st, n - 1)
  }

  /** How often work w is done in n ticks. */
  function TotalTimes(items: seq<Item>, st: Blocks, w: nat, n: nat): nat
    decreases n
  {
    if n == 0 then 0 else Times(Exec(items, st).trace, w) + TotalTimes(items, Exec(items, st).st, w, n - 1)
  }

  /** How many of the n ticks from u on are multiples of p. */
  function Hits(u: nat, p: nat, n: nat): nat
    requires p > 0
    decreases n
  {
    if n == 0 then 0 else (if u % p == 0 then 1 else 0) + Hits(u + 1, p, n - 1)
  }

  lemma {:induction false} HitsAre(u: nat, p: nat, n: nat)
    requires p > 0
    ensures Hits(u, p, n) == (u + n + p - 1) / p - (u + p - 1) / p
    decreases n
  {
    if n > 0 {
      HitsAre(u + 1, p, n - 1);
      CeilStep(u, p);
    }
  }

  lemma CeilStep(u: nat, p: nat)
    requires p > 0
    ensures (u + p) / p - (u + p - 1) / p == if u % p == 0 then 1 else 0
  {
    var q, r := u / p, u % p;
    DivMod(u, p);
    assert p * (q + 1) == p * q + p;
    DivIs(u + p, p, q + 1, r);
    if r == 0 {
      DivIs(u + p - 1, p, q, p - 1);
    } else {
      DivIs(u + p - 1, p, q + 1, r - 1);
    }
  }

  lemma NextPhase(u: nat, p: nat)
    requires p > 0
    ensures (u % p + 1) % p == (u + 1) % p
  {
    var q, r := u / p, u % p;
    DivMod(u, p);
    if r + 1 == p {
      assert p * (q + 1) == p * q + p;
      DivIs(u + 1, p, q + 1, 0);
      DivIs(p, p, 1, 0);
    } else {
      DivIs(u + 1, p, q, r + 1);
      DivIs(r + 1, p, 0, r + 1);
    }
  }

  /** The block's phase follows the tick counter forever, and the body, so each routine in it, runs frequency
    times on exactly the ticks that are multiples of the period. */
  lemma {:induction false} EveryTick(items: seq<Item>, b: nat, w: nat, k: nat, st: Blocks, u: nat, n: nat)
    requires Distinct(items) && Watched(items, b, w, k, st) && b in st && st[b].period > 0
    requires st[b].phase == u % st[b].period
    ensures b in TickN(items, st, n) && TickN(items, st, n)[b].phase == (u + n) % st[b].period
    ensures TotalTimes(items, st, w, n) == Often(st[b].frequency, k) * Hits(u, st[b].period, n)
    decreases n
  {
    if n > 0 {
      var r := Exec(items, st);
      OneTick(items, b, w, k, st);
      hide Watched, Distinct, Exec, Often;
      NextPhase(u, st[b].period);
      EveryTick(items, b, w, k, r.st, u + 1, n - 1);
      OneHit(Often(st[b].frequency, k), u, st[b].period, n);
    }
  }

  lemma OneHit(f: int, u: nat, p: nat, n: nat)
    requires p > 0 && n > 0
    ensures f * Hits(u, p, n) == (if u % p == 0 then f else 0) + f * Hits(u + 1, p, n - 1)
  {
    var hit, later := if u % p == 0 then 1 else 0, Hits(u + 1, p, n - 1);
    assert f * (hit + later) == f * hit + f * later;
  }

  lemma OnePeriodHit(u: nat, p: nat)
    requires p > 0
    ensures Hits(u, p, p) == 1
  {
    HitsAre(u, p, p);
    var q, r := (u + p - 1) / p, (u + p - 1) % p;
    DivMod(u + p - 1, p);
    assert p * (q + 1) == p * q + p;
    DivIs(u + p + p - 1, p, q + 1, r);
  }

  /** In any period consecutive ticks the body runs exactly frequency times: a routine that stands in it k times
    is done k times as often. */
  lemma OnePeriod(items: seq<Item>, b: nat, w: nat, k: nat, st: Blocks, u: nat)
    requires Distinct(items) && Watched(items, b, w, k, st) && b in st && st[b].period > 0
    requires st[b].phase == u % st[b].period
    ensures TotalTimes(items, st, w, st[b].period) == Often(st[b].frequency, k)
  {
    var p: nat := st[b].period;
    EveryTick(items, b, w, k, st, u, p);
    OnePeriodHit(u, p);
    assert Often(st[b].frequency, k) * 1 == Often(st[b].frequency, k);
  }

  // ---------------------------------------------------------------------------------------
  // What each kind of block does, and switched-off blocks in whole runs of the flat machine
  // ---------------------------------------------------------------------------------------

  /**
   * How often one tick does a routine of a block's body, and one of its outlet epilogs.  A block that is
   * switched off or out of phase does its outlet epilogs and nothing else; a reblocked one does its body
   * frequency times and then them; one that is not reblocked, its body once and not them.
   */
  lemma BlockCounts(b: nat, body: seq<Item>, epilog: seq<Item>, st: Blocks, w: nat, k: nat)
    requires b in st && st[b].frequency >= 1
    ensures var x, n := st[b], Times(Exec1(Block(b, body, epilog), st).trace, w);
      && (Marks(w, body, k) && w !in Works(epilog) ==>
            n == if !x.switchon || x.phase != 0 then 0 else if x.reblock then Often(x.frequency, k) else k)
      && (Marks(w, epilog, k) && w !in Works(body) ==>
            n == if x.switchon && x.phase == 0 && !x.reblock then 0 else k)
  {
    var x := st[b];
    if !x.switchon {
      BlockIdle(epilog, body, st, w, k);
    } else if x.phase != 0 {
      BlockIdle(epilog, body, st[b := x.(phase := if x.phase + 1 == x.period then 0 else x.phase + 1)], w, k);
    } else {
      var st1 := st[b := x.(count := x.frequency, phase := if x.period > 1 then 1 else 0)];
      if !x.reblock {
        BlockIdle(body, epilog, st1, w, k);
      } else {
        var r := Repeat(b, body, st1, x.frequency);
        TimesAdd(r.trace, Exec(epilog, r.st).trace, w);
        if Marks(w, body, k) && w !in Works(epilog) {
          RepeatTimes(b, body, st1, x.frequency, w, k);
          ElsewhereNever(epilog, r.st, w);
        }
        if Marks(w, epilog, k) && w !in Works(body) {
          RepeatNever(b, body, st1, x.frequency, w);
          MarkedTimes(epilog, r.st, w, k);
        }
      }
    }
  }

  /** Only `part` is done. */
  lemma BlockIdle(part: seq<Item>, other: seq<Item>, st: Blocks, w: nat, k: nat)
    ensures Marks(w, other, k) && w !in Works(part) ==> Times(Exec(part, st).trace, w) == 0
    ensures Marks(w, part, k) && w !in Works(other) ==> Times(Exec(part, st).trace, w) == k
  {
    if Marks(w, part, k) { MarkedTimes(part, st, w, k); }
    if w !in Works(part) { ElsewhereNever(part, st, w); }
  }

  /** ... and what becomes of its own phase and counter. */
  lemma BlockState(b: nat, body: seq<Item>, epilog: seq<Item>, st: Blocks)
    requires Distinct1(Block(b, body, epilog)) && b in st && st[b].frequency >= 1 && 0 <= st[b].phase < st[b].period
    ensures var x, r := st[b], Exec1(Block(b, body, epilog), st).st;
      && b in r && SameShape(r[b], x)
      && r[b].phase == (if x.switchon then (x.phase + 1) % x.period else x.phase)
      && r[b].count == if !x.switchon || x.phase != 0 then x.count else if x.reblock then 1 else x.frequency
  {
    var x := st[b];
    PhaseWraps(x.phase, x.period);
    if !x.switchon {
      ExecOnly(epilog, st);
    } else if x.phase != 0 {
      ExecOnly(epilog, st[b := x.(phase := if x.phase + 1 == x.period then 0 else x.phase + 1)]);
    } else {
      var st1 := st[b := x.(count := x.frequency, phase := if x.period > 1 then 1 else 0)];
      if !x.reblock {
        ExecOnly(body, st1);
      } else {
        RepeatCount(b, body, st1, x.frequency);
        RepeatPhase(b, body, st1, x.frequency);
        ExecOnly(epilog, Repeat(b, body, st1, x.frequency).st);
      }
    }
  }

  /** The counter runs down to 1. */
  lemma {:induction false} RepeatCount(b: nat, body: seq<Item>, st: Blocks, n: nat)
    requires n >= 1 && b in st && b !in Ids(body) && st[b].count == n
    ensures b in Repeat(b, body, st, n).st && Repeat(b, body, st, n).st[b].count == 1
    decreases n
  {
    ExecOnly(body, st);
    if n > 1 {
      var r := Exec(body, st);
      RepeatCount(b, body, r.st[b := r.st[b].(count := n - 1)], n - 1);
    }
  }

  /** w stands nowhere but in the body of b. */
  ghost predicate OnlyIn(items: seq<Item>, b: nat, w: nat) {
    items == [] || (OnlyIn1(items[0], b, w) && OnlyIn(items[1..], b, w))
  }

  ghost predicate OnlyIn1(i: Item, b: nat, w: nat) {
    match i
    case Work(id, _) => id != w
    case Block(c, body, epilog) => (c == b || OnlyIn(body, b, w)) && OnlyIn(epilog, b, w)
  }

  ghost predicate Off(b: nat, st: Blocks) {
    b in st && !st[b].switchon
  }

  /** While b is off, nothing of its body is done, in any patch, and the block itself stays as it is. */
  lemma {:induction false} OffNever(items: seq<Item>, b: nat, w: nat, st: Blocks)
    requires OnlyIn(items, b, w) && Off(b, st)
    ensures var r := Exec(items, st); Times(r.trace, w) == 0 && Off(b, r.st) && r.st[b] == st[b]
    decreases items, 0
  {
    if items != [] {
      var a := Exec1(items[0], st);
      OffNever1(items[0], b, w, st);
      OffNever(items[1..], b, w, a.st);
      TimesAdd(a.trace, Exec(items[1..], a.st).trace, w);
    }
  }

  lemma {:induction false} OffNever1(i: Item, b: nat, w: nat, st: Blocks)
    requires OnlyIn1(i, b, w) && Off(b, st)
    ensures var r := Exec1(i, st); Times(r.trace, w) == 0 && Off(b, r.st) && r.st[b] == st[b]
    decreases i, 1
  {
    hide Exec, Repeat, OnlyIn;
    match i
    case Work(_, _) =>
    case Block(c, body, epilog) =>
      if c !in st || !st[c].switchon {
        OffNever(epilog, b, w, st);
      } else {
        var x := st[c];
        if x.phase != 0 {
          OffNever(epilog, b, w, st[c := x.(phase := if x.phase + 1 == x.period then 0 else x.phase + 1)]);
        } else {
          var st1 := st[c := x.(count := x.frequency, phase := if x.period > 1 then 1 else 0)];
          if !x.reblock {
            OffNever(body, b, w, st1);
          } else {
            var n := if x.frequency >= 1 then x.frequency else 1;
            var r := Repeat(c, body, st1, n);
            OffRepeat(c, body, b, w, st1, n);
            OffNever(epilog, b, w, r.st);
            TimesAdd(r.trace, Exec(epilog, r.st).trace, w);
          }
        }
      }
  }

  lemma {:induction false} OffRepeat(c: nat, body: seq<Item>, b: nat, w: nat, st: Blocks, n: nat)
    requires n >= 1 && c != b && OnlyIn(body, b, w) && Off(b, st)
    ensures var r := Repeat(c, body, st, n); Times(r.trace, w) == 0 && Off(b, r.st) && r.st[b] == st[b]
    decreases body, 1, n
  {
    hide OnlyIn;
    var r := Exec(body, st);
    OffNever(body, b, w, st);
    if n > 1 {
      var st1 := if c in r.st then r.st[c := r.st[c].(count := n - 1)] else r.st;
      OffRepeat(c, body, b, w, st1, n - 1);
      TimesAdd(r.trace, Repeat(c, body, st1, n - 1).trace, w);
    }
  }

  /** Somewhere in the patch, however deep inside blocks that run once a tick, stands b, switched off, with
    routine w k times at the top level of its outlet epilogs and nowhere else. */
  ghost predicate Bypassed(items: seq<Item>, b: nat, w: nat, k: nat, st: Blocks)
    decreases items
  {
    items != []
    && if b in Ids1(items[0]) then Bypassed1(items[0], b, w, k, st) && w !in Works(items[1..])
       else w !in Works1(items[0]) && Bypassed(items[1..], b, w, k, st)
  }

  ghost predicate Bypassed1(i: Item, b: nat, w: nat, k: nat, st: Blocks)
    decreases i
  {
    match i
    case Work(_, _) => false
    case Block(c, body, epilog) =>
      if c == b then Off(b, st) && Marks(w, epilog, k) && w !in Works(body)
      else Steady(c, st) && Bypassed(body, b, w, k, st) && w !in Works(epilog)
  }

  lemma {:induction false} BypassedSame(items: seq<Item>, b: nat, w: nat, k: nat, st: Blocks, st': Blocks)
    requires Bypassed(items, b, w, k, st) && forall c :: c in Ids(items) && c in st ==> c in st' && st'[c] == st[c]
    ensures Bypassed(items, b, w, k, st')
    decreases items
  {
    if b in Ids1(items[0]) {
      BypassedSame1(items[0], b, w, k, st, st');
    } else {
      BypassedSame(items[1..], b, w, k, st, st');
    }
  }

  lemma {:induction false} BypassedSame1(i: Item, b: nat, w: nat, k: nat, st: Blocks, st': Blocks)
    requires Bypassed1(i, b, w, k, st) && forall c :: c in Ids1(i) && c in st ==> c in st' && st'[c] == st[c]
    ensures Bypassed1(i, b, w, k, st')
    decreases i
  {
    match i
    case Block(c, body, epilog) =>
      if c != b { BypassedSame(body, b, w, k, st, st'); }
  }

  /** The outlet epilogs of a block that is off are done once a tick. */
  lemma {:induction false} OffEpilog(items: seq<Item>, b: nat, w: nat, k: nat, st: Blocks)
    requires Distinct(items) && Bypassed(items, b, w, k, st)
    ensures var r := Exec(items, st); Times(r.trace, w) == k && Bypassed(items, b, w, k, r.st)
    decreases items, 0
  {
    var i, rest := items[0], items[1..];
    var a := Exec1(i, st);
    var z := Exec(rest, a.st);
    Exec1Only(i, st);
    ExecOnly(rest, a.st);
    TimesAdd(a.trace, z.trace, w);
    hide Exec1, Works, Works1, SameShape;
    if b in Ids1(i) {
      OffEpilog1(i, b, w, k, st);
      ElsewhereNever(rest, a.st, w);
      BypassedSame1(i, b, w, k, a.st, z.st);
    } else {
      ElsewhereNever1(i, st, w);
      BypassedSame(rest, b, w, k, st, a.st);
      OffEpilog(rest, b, w, k, a.st);
    }
  }

  lemma {:induction false} OffEpilog1(i: Item, b: nat, w: nat, k: nat, st: Blocks)
    requires Distinct1(i) && Bypassed1(i, b, w, k, st)
    ensures var r := Exec1(i, st); Times(r.trace, w) == k && Bypassed1(i, b, w, k, r.st)
    decreases i, 1
  {
    match i
    case Block(c, body, epilog) =>
      if c == b {
        MarkedTimes(epilog, st, w, k);
        ExecOnly(epilog, st);
      } else {
        OffInner(c, body, epilog, b, w, k, st);
      }
  }

  lemma {:induction false} OffInner(c: nat, body: seq<Item>, epilog: seq<Item>, b: nat, w: nat, k: nat, st: Blocks)
    requires Distinct1(Block(c, body, epilog)) && c != b && Bypassed1(Block(c, body, epilog), b, w, k, st)
    ensures var r := Exec1(Block(c, body, epilog), st);
            Times(r.trace, w) == k && Bypassed1(Block(c, body, epilog), b, w, k, r.st)
    decreases Block(c, body, epilog), 0
  {
    var st1 := st[c := st[c].(count := st[c].frequency, phase := 0)];
    BypassedSame(body, b, w, k, st, st1);
    OffEpilog(body, b, w, k, st1);
    var r := Exec(body, st1);
    var z := Exec(epilog, r.st);
    ExecOnly(body, st1);
    ExecOnly(epilog, r.st);
    OnceRound(c, body, epilog, st);
    hide Exec, Exec1, Distinct, Works;
    BypassedSame(body, b, w, k, r.st, z.st);
    ElsewhereNever(epilog, r.st, w);
    TimesAdd(r.trace, z.trace, w);
  }

  lemma {:induction false} HaltedStays(code: seq<Word>, c: Config, n: nat)
    requires c.Halted?
    ensures StepN(code, c, n) == c
    decreases n
  {
    if n > 0 { HaltedStays(code, c, n - 1); }
  }

  /** The machine halts in one way only. */
  lemma HaltsOnce(code: seq<Word>, c: Config, d: Config, e: Config)
    requires RunsTo(code, c, d) && RunsTo(code, c, e) && d.Halted? && e.Halted?
    ensures d == e
  {
    var m: nat :| StepN(code, c, m) == d;
    var n: nat :| StepN(code, c, n) == e;
    if m <= n {
      StepNAdd(code, c, m, n - m);
      HaltedStays(code, d, n - m);
    } else {
      StepNAdd(code, c, n, m - n);
      HaltedStays(code, e, m - n);
    }
  }

  /** A run of the flat machine, tick after tick: the states between, and what each tick does. */
  ghost predicate Played(items: seq<Item>, sts: seq<Blocks>, trs: seq<seq<nat>>) {
    && |sts| == |trs| + 1
    && forall t: nat :: t < |trs| ==> RunsTo(Code(items) + [Done], At(0, sts[t], []), Halted(sts[t + 1], trs[t]))
  }

  lemma {:induction false} PlayedIs(items: seq<Item>, sts: seq<Blocks>, trs: seq<seq<nat>>, t: nat)
    requires Played(items, sts, trs) && Laid(items, sts[0]) && Distinct(items) && t <= |trs|
    ensures Laid(items, sts[t])
    ensures t < |trs| ==> Exec(items, sts[t]) == Outcome(sts[t + 1], trs[t])
  {
    if t > 0 {
      PlayedIs(items, sts, trs, t - 1);
      ExecOnly(items, sts[t - 1]);
      LaidStays(items, sts[t - 1], sts[t]);
    }
    if t < |trs| {
      TickHalts(items, sts[t]);
      hide Exec, RunsTo;
      HaltsOnce(Code(items) + [Done], At(0, sts[t], []), Halted(sts[t + 1], trs[t]),
                Halted(Exec(items, sts[t]).st, Exec(items, sts[t]).trace));
    }
  }

  /** In every run of the flat machine, a block that is off does nothing of its body and does not change. */
  lemma {:induction false} OffRun(items: seq<Item>, sts: seq<Blocks>, trs: seq<seq<nat>>, b: nat, w: nat, t: nat)
    requires Played(items, sts, trs) && Laid(items, sts[0]) && Distinct(items) && t <= |trs|
    requires OnlyIn(items, b, w) && Off(b, sts[0])
    ensures b in sts[t] && sts[t][b] == sts[0][b]
    ensures t < |trs| ==> Times(trs[t], w) == 0
  {
    hide Exec, Laid, Distinct, OnlyIn, RunsTo;
    if t > 0 {
      OffRun(items, sts, trs, b, w, t - 1);
      PlayedIs(items, sts, trs, t - 1);
      OffNever(items, b, w, sts[t - 1]);
    }
    if t < |trs| {
      PlayedIs(items, sts, trs, t);
      OffNever(items, b, w, sts[t]);
    }
  }

  /** ... and does its outlet epilogs in every tick, once. */
  lemma {:induction false} OffRunEpilog(items: seq<Item>, sts: seq<Blocks>, trs: seq<seq<nat>>, b: nat, w: nat, k: nat,
                                        t: nat)
    requires Played(items, sts, trs) && Laid(items, sts[0]) && Distinct(items) && t <= |trs|
    requires Bypassed(items, b, w, k, sts[0])
    ensures Bypassed(items, b, w, k, sts[t])
    ensures t < |trs| ==> Times(trs[t], w) == k
  {
    hide Exec, Laid, Distinct, Bypassed, RunsTo;
    if t > 0 {
      OffRunEpilog(items, sts, trs, b, w, k, t - 1);
      PlayedIs(items, sts, trs, t - 1);
      OffEpilog(items, b, w, k, sts[t - 1]);
    }
    if t < |trs| {
      PlayedIs(items, sts, trs, t);
      OffEpilog(items, b, w, k, sts[t]);
    }
  }

  /** In every run of the flat machine a watched block keeps its rhythm: in tick t it does its body frequency
    times if the tick counter is then a multiple of its period, and not at all otherwise. */
  lemma {:induction false} WatchedRun(items: seq<Item>, sts: seq<Blocks>, trs: seq<seq<nat>>, b: nat, w: nat, k: nat,
                                      u: nat, t: nat)
    requires Played(items, sts, trs) && Laid(items, sts[0]) && Distinct(items) && t <= |trs|
    requires Watched(items, b, w, k, sts[0]) && b in sts[0] && InStep(sts[0], b, u)
    ensures Watched(items, b, w, k, sts[t]) && b in sts[t] && SameShape(sts[t][b], sts[0][b])
    ensures sts[0][b].period > 0 && sts[t][b].phase == (u + t) % sts[0][b].period
    ensures t < |trs| ==>
              Times(trs[t], w) == if (u + t) % sts[0][b].period == 0 then Often(sts[0][b].frequency, k) else 0
  {
    assert |sts| == |trs| + 1;
    hide Exec, Laid, Distinct, Watched, RunsTo, Played, Ticked, Often, SameShape;
    if t > 0 {
      WatchedRun(items, sts, trs, b, w, k, u, t - 1);
      PlayedIs(items, sts, trs, t - 1);
      OneTick(items, b, w, k, sts[t - 1]);
      TickStep(items, b, w, k, sts[0], sts[t - 1], u, t - 1);
    } else {
      ShapeItself(sts[0][b]);
    }
    if t < |trs| {
      PlayedIs(items, sts, trs, t);
      OneTick(items, b, w, k, sts[t]);
      TickStep(items, b, w, k, sts[0], sts[t], u, t);
    }
  }

  lemma ShapeItself(x: Blk)
    ensures SameShape(x, x)
  {
  }

  lemma TickStep(items: seq<Item>, b: nat, w: nat, k: nat, st0: Blocks, st: Blocks, u: nat, t: nat)
    requires b in st0 && b in st && SameShape(st[b], st0[b]) && st0[b].period > 0
    requires st[b].phase == (u + t) % st0[b].period && Ticked(b, w, k, st, Exec(items, st))
    ensures var r := Exec(items, st);
      && b in r.st && SameShape(r.st[b], st0[b]) && r.st[b].phase == (u + (t + 1)) % st0[b].period
      && Times(r.trace, w) == if (u + t) % st0[b].period == 0 then Often(st0[b].frequency, k) else 0
  {
    hide Exec, Often;
    NextPhase(u + t, st0[b].period);
  }

  /** The block's phase is the tick counter modulo its period. */
  predicate InStep(st: Blocks, b: nat, u: nat) {
    b in st && st[b].period > 0 && st[b].phase == u % st[b].period
  }

  // ---------------------------------------------------------------------------------------
  // Building the chain
  // ---------------------------------------------------------------------------------------

  class DspInstance {
    var chain: seq<Word>          // u_dspchain, always ending in dsp_done
    var blocks: Blocks
    var chainonset: map<nat, nat> // where a one-shot run of a block begins

    ghost predicate Valid()
      reads this
    {
      chain != [] && chain[|chain| - 1] == Done
    }

    ghost function Body(): seq<Word>
      reads this
      requires Valid()
    {
      chain[..|chain| - 1]
    }

    /** ugen_start */
    constructor (all: Blocks)
      ensures Valid() && Body() == [] && blocks == all && chainonset == map[]
    {
      chain, blocks, chainonset := [Done], all, map[];
    }

    /** dsp_add: the new routine takes the place of dsp_done, which moves to the end. */
    method DspAdd(f: Word, n: nat)
      requires Valid()
      modifies `chain
      ensures Valid() && Body() == old(Body()) + [f] + Args(n)
    {
      chain := chain[..|chain| - 1] + [f] + Args(n) + [Done];
    }

    /** Lay out a canvas and, from inside it, the canvases it contains; when a block has been
      laid out its lengths are known, and where its body begins. */
    method Layout(items: seq<Item>)
      requires Valid() && Distinct(items) && Unlaid(Ids(items), blocks)
      modifies this
      ensures Valid() && Body() == old(Body()) + Code(items)
      ensures Laid(items, blocks) && Measured(Ids(items), old(blocks), blocks)
      ensures Onsets(items, |old(Body())|, chainonset) && Noted(Ids(items), old(chainonset), chainonset)
      decreases items, 0
    {
      hide Unlaid, Measured, Code1, Laid1, Distinct1, Onset1, Noted;
      ghost var was, st0, on0 := Body(), blocks, chainonset;
      if items == [] {
        assert was + [] == was;
        MeasuredNone(blocks);
        NotedNone(chainonset);
      } else {
        var i, rest := items[0], items[1..];
        UnlaidParts(Ids1(i), Ids(rest), st0);
        Layout1(i);
        ghost var st1, on1 := blocks, chainonset;
        UnlaidStays(Ids(rest), Ids1(i), st0, st1);
        Layout(rest);
        OnsetStays1(i, |was|, Ids(rest), on1, chainonset);
        NotedTrans(Ids1(i), Ids(rest), on0, on1, chainonset);
        MeasuredLaid1(i, Ids(rest), st1, blocks);
        MeasuredTrans(Ids1(i), Ids(rest), st0, st1, blocks);
        assert was + Code1(i) + Code(rest) == was + (Code1(i) + Code(rest));
      }
    }

    method Layout1(i: Item)
      requires Valid() && Distinct1(i) && Unlaid(Ids1(i), blocks)
      modifies this
      ensures Valid() && Body() == old(Body()) + Code1(i)
      ensures Laid1(i, blocks) && Measured(Ids1(i), old(blocks), blocks)
      ensures Onset1(i, |old(Body())|, chainonset) && Noted(Ids1(i), old(chainonset), chainonset)
      decreases i, 3
    {
      match i
      case Work(id, n) =>
        ghost var was := Body();
        DspAdd(Perf(id, n), n);
        assert was + [Perf(id, n)] + Args(n) == was + ([Perf(id, n)] + Args(n));
        MeasuredNone(blocks);
        NotedNone(chainonset);
      case Block(b, body, epilog) =>
        LayoutBlock(b, body, epilog);
    }

    /** The prolog, the canvas, the epilog, the outlet epilogs: the part of ugen_done_graph
      that emits code and measures it. */
    method LayoutBlock(b: nat, body: seq<Item>, epilog: seq<Item>)
      requires Valid() && Distinct1(Block(b, body, epilog)) && Unlaid({b} + Ids(body) + Ids(epilog), blocks)
      modifies this
      ensures Valid() && Body() == old(Body()) + Code1(Block(b, body, epilog))
      ensures Laid1(Block(b, body, epilog), blocks) && Measured({b} + Ids(body) + Ids(epilog), old(blocks), blocks)
      ensures Onset1(Block(b, body, epilog), |old(Body())|, chainonset)
      ensures Noted({b} + Ids(body) + Ids(epilog), old(chainonset), chainonset)
      decreases Block(b, body, epilog), 2
    {
      hide Unlaid, Measured, Laid, Laid1, Distinct1, Code, Code1, Ids, Onset1, Noted;
      ghost var st0 := blocks;
      UnlaidBlock(b, body, epilog, st0);
      ghost var st1;
      var blocklength, epiloglength;
      blocklength, epiloglength, st1 := EmitBlock(b, body, epilog);
      ghost var st2 := blocks;
      UnlaidStill(b, body, epilog, st0, st1, st2);
      blocks := blocks[b := blocks[b].(blocklength := blocklength, epiloglength := epiloglength)];
      MeasuredBlock(b, body, epilog, st0, st1, st2, blocks);
    }

    /** The code of a block, and how long its two parts are. */
    method EmitBlock(b: nat, body: seq<Item>, epilog: seq<Item>)
      returns (blocklength: nat, epiloglength: nat, ghost st1: Blocks)
      requires Valid() && Distinct1(Block(b, body, epilog)) && Unlaid({b} + Ids(body) + Ids(epilog), blocks)
      modifies this
      ensures Valid() && Body() == old(Body()) + Code1(Block(b, body, epilog))
      ensures blocklength == |Code(body)| + PROLOGCALL + EPILOGCALL && epiloglength == |Code(epilog)|
      ensures Laid(body, st1) && Measured(Ids(body), old(blocks), st1)
      ensures Laid(epilog, blocks) && Measured(Ids(epilog), st1, blocks)
      ensures Onset1(Block(b, body, epilog), |old(Body())|, chainonset)
      ensures Noted({b} + Ids(body) + Ids(epilog), old(chainonset), chainonset)
      decreases Block(b, body, epilog), 1
    {
      DistinctParts(b, body, epilog);
      hide Unlaid, Measured, Laid, Distinct, Distinct1, Code, Code1, PartCode, Ids, Onsets, Onset1, Noted, Valid, Body;
      ghost var was, on0 := Body(), chainonset;
      UnlaidBlock(b, body, epilog, blocks);
      ghost var on2;
      blocklength, epiloglength, st1, on2 := EmitParts(b, body, epilog);
      assert Onset1(Block(b, body, epilog), |was|, chainonset)
        && Noted({b} + Ids(body) + Ids(epilog), on0, chainonset) by {
        NotedBlock(b, body, epilog, |was|, on0, on0[b := |was| + PROLOGCALL], on2, chainonset);
      }
      BlockCode(was, b, body, epilog);
    }

    /** Prolog and body, then epilog and what comes after it. */
    method EmitParts(b: nat, body: seq<Item>, epilog: seq<Item>)
      returns (blocklength: nat, epiloglength: nat, ghost st1: Blocks, ghost on2: map<nat, nat>)
      requires Valid() && Distinct(body) && Distinct(epilog) && Ids(body) !! Ids(epilog)
      requires Unlaid(Ids(body), blocks) && Unlaid(Ids(epilog), blocks)
      modifies this
      ensures Valid()
      ensures Body() == old(Body()) + PartCode(Prolog(b), body) + PartCode(Epilog(b), epilog)
      ensures blocklength == |Code(body)| + PROLOGCALL + EPILOGCALL && epiloglength == |Code(epilog)|
      ensures Laid(body, st1) && Measured(Ids(body), old(blocks), st1)
      ensures Laid(epilog, blocks) && Measured(Ids(epilog), st1, blocks)
      ensures Onsets(body, |old(Body())| + PROLOGCALL, on2)
      ensures Noted(Ids(body), old(chainonset)[b := |old(Body())| + PROLOGCALL], on2)
      ensures Onsets(epilog, |old(Body())| + PROLOGCALL + |Code(body)| + EPILOGCALL, chainonset)
      ensures Noted(Ids(epilog), on2, chainonset)
      decreases Block(b, body, epilog), 0
    {
      hide Unlaid, Measured, Laid, Distinct, Code, PartCode, Ids, Onsets, Noted, Valid, Body;
      ghost var st0 := blocks;
      var chainblockbegin := |chain|;
      EmitPart(Prolog(b), body);
      st1, on2 := blocks, chainonset;
      UnlaidStays(Ids(epilog), Ids(body), st0, st1);
      var chainblockend := |chain| + EPILOGCALL;
      EmitPart(Epilog(b), epilog);
      blocklength, epiloglength := chainblockend - chainblockbegin, |chain| - chainblockend;
    }

    /** A prolog, whose place is noted, or an epilog, and the canvas that follows it. */
    method EmitPart(f: Word, items: seq<Item>)
      requires Valid() && Distinct(items) && Unlaid(Ids(items), blocks) && (f.Prolog? || f.Epilog?)
      modifies this
      ensures Valid() && Body() == old(Body()) + PartCode(f, items) && |chain| == old(|chain|) + |PartCode(f, items)|
      ensures Laid(items, blocks) && Measured(Ids(items), old(blocks), blocks)
      ensures Onsets(items, |old(Body())| + PROLOGCALL, chainonset)
      ensures Noted(Ids(items),
                    if f.Prolog? then old(chainonset)[f.b := |old(Body())| + PROLOGCALL] else old(chainonset),
                    chainonset)
      decreases items, 1
    {
      hide Unlaid, Measured, Laid, Distinct, Code, Ids, Onsets, Noted;
      ghost var was := Body();
      DspAdd(f, 1);
      if f.Prolog? { chainonset := chainonset[f.b := |chain| - 1]; }
      Layout(items);
      TwoJoined(was, f, items);
    }
  }

  /** A prolog or epilog and what follows it. */
  function PartCode(f: Word, items: seq<Item>): (r: seq<Word>)
    ensures |r| == PROLOGCALL + |Code(items)|
  {
    [f, Arg] + Code(items)
  }

  lemma TwoJoined(was: seq<Word>, f: Word, items: seq<Item>)
    ensures was + [f] + Args(1) + Code(items) == was + PartCode(f, items)
  {
    assert Args(1) == [Arg] && [f] + [Arg] == [f, Arg];
  }

  /** Each block's onset is noted: the word after its prolog, for code that begins at ip. */
  ghost predicate Onsets(items: seq<Item>, ip: nat, on: map<nat, nat>)
    decreases items
  {
    items == [] || (Onset1(items[0], ip, on) && Onsets(items[1..], ip + |Code1(items[0])|, on))
  }

  ghost predicate Onset1(i: Item, ip: nat, on: map<nat, nat>)
    decreases i
  {
    match i
    case Work(_, _) => true
    case Block(b, body, epilog) =>
      && b in on && on[b] == ip + PROLOGCALL && Onsets(body, ip + PROLOGCALL, on)
      && Onsets(epilog, ip + PROLOGCALL + |Code(body)| + EPILOGCALL, on)
  }

  /** Only the onsets of these blocks have been noted. */
  ghost predicate Noted(ids: set<nat>, on: map<nat, nat>, on': map<nat, nat>) {
    forall b: nat :: b !in ids ==> (b in on' <==> b in on) && (b in on ==> on'[b] == on[b])
  }

  lemma NotedNone(on: map<nat, nat>)
    ensures Noted({}, on, on)
  {
  }

  lemma NotedOne(on: map<nat, nat>, b: nat, at: nat)
    ensures Noted({b}, on, on[b := at])
  {
  }

  lemma NotedTrans(x: set<nat>, y: set<nat>, on0: map<nat, nat>, on1: map<nat, nat>, on2: map<nat, nat>)
    requires Noted(x, on0, on1) && Noted(y, on1, on2)
    ensures Noted(x + y, on0, on2)
  {
  }

  lemma NotedAll(b: nat, x: set<nat>, y: set<nat>, on0: map<nat, nat>, on1: map<nat, nat>, on2: map<nat, nat>,
                 on3: map<nat, nat>)
    requires Noted({b}, on0, on1) && Noted(x, on1, on2) && Noted(y, on2, on3)
    ensures Noted({b} + x + y, on0, on3)
    ensures b !in x && b !in y && b in on1 ==> b in on3 && on3[b] == on1[b]
  {
    NotedTrans({b}, x, on0, on1, on2);
    NotedTrans({b} + x, y, on0, on2, on3);
  }

  lemma {:induction false} OnsetStays(items: seq<Item>, ip: nat, ids: set<nat>, on: map<nat, nat>, on': map<nat, nat>)
    requires Onsets(items, ip, on) && Noted(ids, on, on') && Ids(items) !! ids
    ensures Onsets(items, ip, on')
    decreases items
  {
    if items != [] {
      OnsetStays1(items[0], ip, ids, on, on');
      OnsetStays(items[1..], ip + |Code1(items[0])|, ids, on, on');
    }
  }

  lemma {:induction false} OnsetStays1(i: Item, ip: nat, ids: set<nat>, on: map<nat, nat>, on': map<nat, nat>)
    requires Onset1(i, ip, on) && Noted(ids, on, on') && Ids1(i) !! ids
    ensures Onset1(i, ip, on')
    decreases i
  {
    match i
    case Work(_, _) =>
    case Block(b, body, epilog) =>
      OnsetStays(body, ip + PROLOGCALL, ids, on, on');
      OnsetStays(epilog, ip + PROLOGCALL + |Code(body)| + EPILOGCALL, ids, on, on');
  }

  /** Somewhere in the patch, however deep, stands this block. */
  ghost predicate Holds(items: seq<Item>, k: Item)
    decreases items
  {
    items != [] && (Holds1(items[0], k) || Holds(items[1..], k))
  }

  ghost predicate Holds1(i: Item, k: Item)
    decreases i
  {
    i == k || (i.Block? && (Holds(i.body, k) || Holds(i.epilog, k)))
  }

  /** A block's code begins two words before its onset. */
  lemma {:induction false} OnsetLies(code: seq<Word>, items: seq<Item>, ip: nat, on: map<nat, nat>, k: Item)
    requires Onsets(items, ip, on) && LiesAt(code, ip, Code(items)) && Holds(items, k) && k.Block?
    ensures k.b in on && on[k.b] >= PROLOGCALL && LiesAt(code, on[k.b] - PROLOGCALL, Code1(k))
    decreases items
  {
    var c1 := Code1(items[0]);
    LiesSplit(code, ip, c1, Code(items[1..]));
    hide Code1, LiesAt;
    if Holds1(items[0], k) {
      OnsetLies1(code, items[0], ip, on, k);
    } else {
      OnsetLies(code, items[1..], ip + |c1|, on, k);
    }
  }

  lemma {:induction false} OnsetLies1(code: seq<Word>, i: Item, ip: nat, on: map<nat, nat>, k: Item)
    requires Onset1(i, ip, on) && LiesAt(code, ip, Code1(i)) && Holds1(i, k) && k.Block?
    ensures k.b in on && on[k.b] >= PROLOGCALL && LiesAt(code, on[k.b] - PROLOGCALL, Code1(k))
    decreases i
  {
    if i != k {
      BlockLies(code, ip, i.b, i.body, i.epilog);
      hide Code1, Code, LiesAt;
      if Holds(i.body, k) {
        OnsetLies(code, i.body, ip + PROLOGCALL, on, k);
      } else {
        OnsetLies(code, i.epilog, ip + PROLOGCALL + |Code(i.body)| + EPILOGCALL, on, k);
      }
    }
  }

  /** A bang to any switched-off block of a patch that has been laid out, run from the noted onset, runs its body
    once and leaves the block as it was. */
  lemma BangFromOnset(code: seq<Word>, items: seq<Item>, on: map<nat, nat>, k: Item, st: Blocks)
    requires Onsets(items, 0, on) && LiesAt(code, 0, Code(items)) && Holds(items, k) && k.Block?
    requires Laid1(k, st) && Distinct1(k) && !st[k.b].switchon
    ensures k.b in on
    ensures var st1 := st[k.b := st[k.b].(ret := true)];
            var r := Exec(k.body, st1);
            && RunsTo(code, At(on[k.b], st1, []), Halted(r.st, r.trace))
            && k.b in r.st && r.st[k.b].(ret := false) == st[k.b]
  {
    OnsetLies(code, items, 0, on, k);
    hide Onsets, Holds, Exec, Code, Code1, LiesAt;
    BangRunsOnce(code, on[k.b] - PROLOGCALL, k.b, k.body, k.epilog, st);
  }

  lemma UnlaidBlock(b: nat, body: seq<Item>, epilog: seq<Item>, st: Blocks)
    requires Unlaid({b} + Ids(body) + Ids(epilog), st)
    ensures Unlaid({b}, st) && Unlaid(Ids(body), st) && Unlaid(Ids(epilog), st)
  {
    hide Unlaid, Ids;
    UnlaidParts({b} + Ids(body), Ids(epilog), st);
    UnlaidParts({b}, Ids(body), st);
  }

  lemma UnlaidStill(b: nat, body: seq<Item>, epilog: seq<Item>, st0: Blocks, st1: Blocks, st2: Blocks)
    requires Unlaid({b}, st0) && Measured(Ids(body), st0, st1) && Measured(Ids(epilog), st1, st2)
    ensures b in st2 && st2[b].frequency >= 1 && !st2[b].ret
  {
    hide Unlaid, Measured, Ids;
    UnlaidStays({b}, Ids(body), st0, st1);
    UnlaidStays({b}, Ids(epilog), st1, st2);
    UnlaidHas({b}, st2, b);
  }

  lemma DistinctParts(b: nat, body: seq<Item>, epilog: seq<Item>)
    requires Distinct1(Block(b, body, epilog))
    ensures Distinct(body) && Distinct(epilog) && Ids(body) !! Ids(epilog) && b !in Ids(body) && b !in Ids(epilog)
  {
  }

  lemma MeasuredBlock(b: nat, body: seq<Item>, epilog: seq<Item>, st0: Blocks, st1: Blocks, st2: Blocks, st3: Blocks)
    requires Distinct1(Block(b, body, epilog)) && b in st2 && b in st3 && st2[b].frequency >= 1 && !st2[b].ret
    requires Laid(body, st1) && Measured(Ids(body), st0, st1) && Laid(epilog, st2) && Measured(Ids(epilog), st1, st2)
    requires st3 == st2[b := st2[b].(blocklength := |Code(body)| + PROLOGCALL + EPILOGCALL,
        epiloglength := |Code(epilog)|)]
    ensures Laid1(Block(b, body, epilog), st3) && Measured({b} + Ids(body) + Ids(epilog), st0, st3)
  {
    hide Measured, Laid, Distinct, Code, Ids;
    MeasuredOne(b, st2, st3);
    MeasuredLaid(body, Ids(epilog), st1, st2);
    MeasuredLaid(body, {b}, st2, st3);
    MeasuredLaid(epilog, {b}, st2, st3);
    MeasuredTrans(Ids(body), Ids(epilog), st0, st1, st2);
    MeasuredTrans(Ids(body) + Ids(epilog), {b}, st0, st2, st3);
    assert Ids(body) + Ids(epilog) + {b} == {b} + Ids(body) + Ids(epilog);
  }

  lemma NotedBlock(b: nat, body: seq<Item>, epilog: seq<Item>, ip: nat, on0: map<nat, nat>, on1: map<nat, nat>,
                   on2: map<nat, nat>, on3: map<nat, nat>)
    requires Distinct1(Block(b, body, epilog))
    requires on1 == on0[b := ip + PROLOGCALL] && Onsets(body, ip + PROLOGCALL, on2) && Noted(Ids(body), on1, on2)
    requires Onsets(epilog, ip + PROLOGCALL + |Code(body)| + EPILOGCALL, on3) && Noted(Ids(epilog), on2, on3)
    ensures Onset1(Block(b, body, epilog), ip, on3) && Noted({b} + Ids(body) + Ids(epilog), on0, on3)
  {
    hide Onsets, Noted, Distinct, Code, Ids;
    NotedOne(on0, b, ip + PROLOGCALL);
    NotedAll(b, Ids(body), Ids(epilog), on0, on1, on2, on3);
    OnsetStays(body, ip + PROLOGCALL, Ids(epilog), on2, on3);
  }

  lemma BlockCode(was: seq<Word>, b: nat, body: seq<Item>, epilog: seq<Item>)
    ensures was + PartCode(Prolog(b), body) + PartCode(Epilog(b), epilog)
            == was + Code1(Block(b, body, epilog))
  {
    hide Code;
  }

  /** Blocks about to be laid out. */
  ghost predicate Unlaid(ids: set<nat>, st: Blocks) {
    ids <= st.Keys && forall b :: b in ids ==> st[b].frequency >= 1 && !st[b].ret
  }

  /** Laying out sets lengths only, and only of the blocks laid out. */
  ghost predicate Measured(ids: set<nat>, st: Blocks, st': Blocks) {
    && st'.Keys == st.Keys
    && (forall b :: b in st && b !in ids ==> st'[b] == st[b])
    && (forall b :: b in st ==> st'[b] == st[b].(blocklength := st'[b].blocklength,
        epiloglength := st'[b].epiloglength))
  }

  lemma MeasuredNone(st: Blocks)
    ensures Measured({}, st, st)
  {
  }

  lemma MeasuredOne(b: nat, st: Blocks, st': Blocks)
    requires b in st && b in st'
    requires st' == st[b := st[b].(blocklength := st'[b].blocklength, epiloglength := st'[b].epiloglength)]
    ensures Measured({b}, st, st')
  {
  }

  lemma MeasuredTrans(a: set<nat>, c: set<nat>, s0: Blocks, s1: Blocks, s2: Blocks)
    requires Measured(a, s0, s1) && Measured(c, s1, s2)
    ensures Measured(a + c, s0, s2)
  {
  }

  lemma UnlaidParts(a: set<nat>, c: set<nat>, st: Blocks)
    requires Unlaid(a + c, st)
    ensures Unlaid(a, st) && Unlaid(c, st)
  {
  }

  lemma UnlaidHas(a: set<nat>, st: Blocks, b: nat)
    requires Unlaid(a, st) && b in a
    ensures b in st && st[b].frequency >= 1 && !st[b].ret
  {
  }

  lemma UnlaidStays(a: set<nat>, c: set<nat>, st: Blocks, st': Blocks)
    requires Unlaid(a, st) && Measured(c, st, st')
    ensures Unlaid(a, st')
  {
  }

  lemma MeasuredLaid(items: seq<Item>, c: set<nat>, st: Blocks, st': Blocks)
    requires Laid(items, st) && Measured(c, st, st') && Ids(items) !! c
    ensures Laid(items, st')
  {
    LaidStays(items, st, st');
  }

  lemma MeasuredLaid1(i: Item, c: set<nat>, st: Blocks, st': Blocks)
    requires Laid1(i, st) && Measured(c, st, st') && Ids1(i) !! c
    ensures Laid1(i, st')
  {
    LaidStays1(i, st, st');
  }
}
