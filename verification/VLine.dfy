// The line generator vline~ (src/d_ctl.c): a queue of segments, each with a start, an end and a target,
// and a perform routine that walks down the queue as audio time passes.
module VLine {
  import opened Arith

  const DEFDACBLKSIZE: nat := 64
  const NEVER: real := 100000000000000000000.0

  datatype Seg = Seg(target: real, start: real, end: real)

  /** The queue's order: earlier starts first, and at one moment a jump before a slide. */
  predicate Before(a: Seg, b: Seg) {
    a.start < b.start || (a.start == b.start && a.end <= a.start && b.end > b.start)
  }

  ghost predicate Ordered(l: seq<Seg>) {
    && (forall i: nat, j: nat :: i < j < |l| ==> Before(l[i], l[j]))
    && (forall i: nat :: i < |l| ==> l[i].start <= l[i].end)
  }

  /** The queue after adding a segment: what was ordered before it, then the segment itself. */
  ghost predicate Queued(was: seq<Seg>, now: seq<Seg>, snew: Seg) {
    && now != [] && now[|now| - 1] == snew
    && |now| - 1 <= |was| && now[..|now| - 1] == was[..|now| - 1]
    && forall i: nat :: i < |was| ==> (i < |now| - 1 <==> Before(was[i], snew))
  }

  lemma CutAt(was: seq<Seg>, k: nat, snew: Seg)
    requires Ordered(was) && k <= |was| && snew.start <= snew.end
    requires (k > 0 ==> Before(was[k - 1], snew)) && (k < |was| ==> !Before(was[k], snew))
    ensures Ordered(was[..k] + [snew]) && Queued(was, was[..k] + [snew], snew)
  {
    var now := was[..k] + [snew];
    assert now[..|now| - 1] == was[..k];
    forall i: nat | i < |was| ensures i < k <==> Before(was[i], snew) {
      if i < k - 1 { assert Before(was[i], was[k - 1]); }
      if k < i { assert Before(was[k], was[i]); }
    }
  }

  lemma OrderedTail(l: seq<Seg>, k: nat)
    requires Ordered(l) && k <= |l|
    ensures Ordered(l[k..])
    ensures k < |l| ==> l[k].start <= l[|l| - 1].start
  {
    if k < |l| - 1 { assert Before(l[k], l[|l| - 1]); }
  }

  // ----- straight lines -----

  predicate In(x: real, lo: real, hi: real) { lo <= x <= hi }

  /** The value f at time u lies on the line of the given slope per sample that meets `target` at time end. */
  predicate OnLine(f: real, inc: real, ms: real, u: real, target: real, end: real) {
    (target - f) * ms == inc * (end - u)
  }

  /** Starting a slide from f0: the new value is on the line, and within the hull unless already past the end. */
  lemma SlideStarts(f0: real, s: Seg, k: real, f: real, inc: real, u: real, ms: real, lo: real,
                   hi: real)
    requires s.start < s.end && s.start < u && inc == k * ms
    requires k == (s.target - f0) / (s.end - s.start) && f == f0 + k * (u - s.start)
    ensures OnLine(f, inc, ms, u, s.target, s.end)
    ensures u < s.end && In(f0, lo, hi) && In(s.target, lo, hi) ==> In(f, lo, hi)
  {
    Divided(s.target - f0, s.end - s.start);
    Distribute(k, u - s.start, s.end - u);
    assert s.target - f == k * (s.end - u);
    Regroup(k, s.end - u, ms);
    SignOf(k, u - s.start);
    if u < s.end { SignOf(k, s.end - u); }
  }

  lemma Distribute(k: real, a: real, b: real)
    ensures k * (a + b) == k * a + k * b
  {
  }

  lemma Divided(a: real, b: real)
    requires b != 0.0
    ensures (a / b) * b == a
  {
  }

  lemma Regroup(a: real, b: real, c: real)
    ensures (a * b) * c == (a * c) * b
  {
  }

  lemma SignOf(k: real, d: real)
    requires d > 0.0
    ensures k >= 0.0 ==> k * d >= 0.0
    ensures k <= 0.0 ==> k * d <= 0.0
    ensures k > 0.0 <==> k * d > 0.0
    ensures k < 0.0 <==> k * d < 0.0
  {
    if k > 0.0 {
      assert k * d > 0.0;
    } else if k < 0.0 {
      assert (-k) * d > 0.0;
    }
  }

  /** A value at rest on its target is on every flat line. */
  lemma LineFlat(f: real, ms: real, u: real, end: real)
    ensures OnLine(f, 0.0, ms, u, f, end)
  {
  }

  /** One sample on: still on the line. */
  lemma LineGoesOn(f: real, inc: real, ms: real, u: real, target: real, end: real)
    requires OnLine(f, inc, ms, u, target, end)
    ensures OnLine(f + inc, inc, ms, u + ms, target, end)
  {
    Distribute(inc, end - u - ms, ms);
    assert (target - f - inc) * ms == (target - f) * ms - inc * ms;
  }

  /** Between a sample in the hull and a target in the hull the line stays in the hull. */
  lemma LineInHull(f: real, inc: real, ms: real, u: real, target: real, end: real, lo: real, hi: real)
    requires OnLine(f, inc, ms, u, target, end) && ms > 0.0 && u < end
    requires In(f - inc, lo, hi) && In(target, lo, hi)
    ensures In(f, lo, hi)
  {
    SignOf(inc, end - u);
    SignOf(target - f, ms);
  }

  // ----- the queue's final word -----

  /** The target the envelope is bound for: that of the last segment, or the present one. */
  function Final(l: seq<Seg>, target: real): real {
    if l == [] then target else l[|l| - 1].target
  }

  /** The time k samples after t0. */
  function After(t0: real, ms: real, k: int): real {
    t0 + k as real * ms
  }

  lemma AfterIs(t0: real, ms: real, k: int)
    ensures After(t0, ms, k) == t0 + k as real * ms && After(t0, ms, 0) == t0
  {
  }

  lemma AfterNext(t0: real, ms: real, k: int)
    ensures After(t0, ms, k + 1) == After(t0, ms, k) + ms
  {
    assert (k + 1) as real * ms == k as real * ms + ms;
  }

  /** If the segment has begun and ended by the end of a sample, the sample is its target. */
  predicate Landed(y: real, timenext: real, last: Seg) {
    last.start < timenext && last.end <= timenext ==> y == last.target
  }

  /** So for every sample of a block that starts at t0. */
  ghost predicate Lands(out: seq<real>, t0: real, ms: real, last: Seg) {
    forall i: nat :: i < |out| ==> Landed(out[i], After(t0, ms, i + 1), last)
  }

  // ----- what a block puts out, as a function -----

  /** The moving value, its step per sample, the present target and its time, and the queue. */
  datatype Env = Env(f: real, inc: real, target: real, end: real, list: seq<Seg>)

  /** The first segment begins, in the sample that ends at u, from wherever the one before has got. */
  function Begin(e: Env, u: real, ms: real): Env
    requires e.list != []
  {
    var s := e.list[0];
    var (f, inc) := Slide(if e.end <= u then e.target else e.f, s, u, ms);
    Env(f, inc, s.target, s.end, e.list[1..])
  }

  /** A segment taken up at f: where that leads to by u, and the step per sample from then on. */
  function Slide(f: real, s: Seg, u: real, ms: real): (real, real) {
    if s.end <= s.start then (s.target, 0.0)
    else
      var k := Over(s.target - f, s.end - s.start);
      (f + Times(k, u - s.start), Times(k, ms))
  }

  function Times(a: real, b: real): real { a * b }

  function Over(a: real, b: real): real
    requires b != 0.0
  {
    a / b
  }

  lemma TimesIs(a: real, b: real)
    ensures Times(a, b) == a * b && (b != 0.0 ==> Over(a, b) == a / b)
  {
  }

  function BeginAll(e: Env, u: real, ms: real): Env
    decreases |e.list|
  {
    if e.list == [] || e.list[0].start >= u then e else BeginAll(Begin(e, u, ms), u, ms)
  }

  lemma BeginAllOne(e: Env, u: real, ms: real)
    requires e.list != [] && e.list[0].start < u
    ensures BeginAll(e, u, ms) == BeginAll(Begin(e, u, ms), u, ms)
  {
  }

  lemma BeginAllNone(e: Env, u: real, ms: real)
    requires e.list == [] || e.list[0].start >= u
    ensures BeginAll(e, u, ms) == e
  {
  }

  /** What is taken off the queue, and what the last one taken leaves behind. */
  lemma {:induction false} BeginAllIs(e: Env, u: real, ms: real)
    ensures var b, k := BeginAll(e, u, ms), |e.list| - |BeginAll(e, u, ms).list|;
      && k >= 0 && b.list == e.list[k..] && (b.list != [] ==> u <= b.list[0].start)
      && (forall i: nat :: i < k ==> e.list[i].start < u)
      && if k == 0 then b == e else b.target == e.list[k - 1].target && b.end == e.list[k - 1].end
    decreases |e.list|
  {
    if e.list != [] && e.list[0].start < u {
      var n, b := Begin(e, u, ms), BeginAll(e, u, ms);
      BeginAllIs(n, u, ms);
      var k := |e.list| - |b.list|;
      forall i: nat | i < k ensures e.list[i].start < u {
        if i > 0 { assert e.list[i] == n.list[i - 1]; }
      }
      if k > 1 { assert e.list[k - 1] == n.list[k - 2]; }
    }
  }

  /** In the middle of a sample: on the line, in the interval unless past the end, and so are all targets. */
  ghost predicate Mid(e: Env, ms: real, u: real, lo: real, hi: real) {
    && OnLine(e.f, e.inc, ms, u, e.target, e.end) && In(e.target, lo, hi) && (u < e.end ==> In(e.f, lo, hi))
    && forall i: nat :: i < |e.list| ==> In(e.list[i].target, lo, hi)
  }

  lemma SnappedIs(e: Env, u: real)
    ensures Snapped(e, u) == if e.end <= u then Env(e.target, 0.0, e.target, NEVER, e.list) else e
  {
  }

  lemma NowIs(e: Env, u: real, ms: real)
    ensures Now(e, u, ms) == Snapped(BeginAll(e, u, ms), u)
  {
  }

  /** Whether `last` is still queued last, or being slid to, or has been reached. */
  predicate BoundFor(e: Env, last: Seg) {
    if e.list != [] then e.list[|e.list| - 1] == last
    else e.target == last.target && (e.end == last.end || (e.inc == 0.0 && e.f == e.target))
  }

  /** The envelope goes on being bound for the last segment, and from its end on is there; and rests if it did. */
  lemma BoundStays(e: Env, u: real, ms: real, last: Seg)
    requires Ordered(e.list)
    ensures var b := Now(e, u, ms);
      && Ordered(b.list) && Final(b.list, b.target) == Final(e.list, e.target)
      && (e.list == [] && e.inc == 0.0 && e.f == e.target ==>
            b.list == [] && b.inc == 0.0 && b.f == b.target == e.target)
      && (BoundFor(e, last) ==> BoundFor(Moved(b), last) && Landed(b.f, u, last))
  {
    BeginAllIs(e, u, ms);
    SnappedIs(BeginAll(e, u, ms), u);
    hide BeginAll, Snapped, Ordered;
    OrderedTail(e.list, |e.list| - |Now(e, u, ms).list|);
  }

  /** A slide that has ended snaps to its target; out goes a value in the interval, and the next is on the line. */
  lemma SnapHeld(e: Env, u: real, ms: real, lo: real, hi: real)
    requires Mid(e, ms, u, lo, hi)
    ensures var b := Snapped(e, u);
      && In(b.f, lo, hi) && In(b.target, lo, hi) && OnLine(b.f + b.inc, b.inc, ms, u + ms, b.target, b.end)
      && forall i: nat :: i < |b.list| ==> In(b.list[i].target, lo, hi)
  {
    hide OnLine;
    var b := Snapped(e, u);
    if e.end <= u { LineFlat(b.f, ms, u, NEVER); }
    LineGoesOn(b.f, b.inc, ms, u, b.target, b.end);
  }

  lemma HeldIsMid(e: Env, ms: real, u: real, lo: real, hi: real)
    requires ms > 0.0 && In(e.f - e.inc, lo, hi) && In(e.target, lo, hi)
    requires OnLine(e.f, e.inc, ms, u, e.target, e.end)
    requires forall i: nat :: i < |e.list| ==> In(e.list[i].target, lo, hi)
    ensures Mid(e, ms, u, lo, hi)
  {
    if u < e.end { LineInHull(e.f, e.inc, ms, u, e.target, e.end, lo, hi); }
  }

  lemma BeginMid(e: Env, u: real, ms: real, lo: real, hi: real)
    requires Mid(e, ms, u, lo, hi) && e.list != [] && e.list[0].start < u
    ensures Mid(Begin(e, u, ms), ms, u, lo, hi)
  {
    hide OnLine;
    var s, f, b := e.list[0], if e.end <= u then e.target else e.f, Begin(e, u, ms);
    assert In(f, lo, hi) && In(s.target, lo, hi);
    if s.end <= s.start {
      LineFlat(s.target, ms, u, s.end);
    } else {
      var k := (s.target - f) / (s.end - s.start);
      TimesIs(s.target - f, s.end - s.start);
      TimesIs(k, u - s.start);
      TimesIs(k, ms);
      hide Times, Over;
      SlideStarts(f, s, k, b.f, b.inc, u, ms, lo, hi);
    }
    assert forall i: nat :: i < |b.list| ==> b.list[i] == e.list[i + 1];
  }

  /** The envelope as the sample that ends at u goes out. */
  function Now(e: Env, u: real, ms: real): Env {
    Snapped(BeginAll(e, u, ms), u)
  }

  function Snapped(e: Env, u: real): Env {
    if e.end <= u then e.(f := e.target, inc := 0.0, end := NEVER) else e
  }

  function Moved(e: Env): Env {
    e.(f := e.f + e.inc)
  }

  /** The envelope after n samples from t0, and what they are. */
  function Ran(e: Env, t0: real, ms: real, n: nat): Env {
    if n == 0 then e else Moved(Now(Ran(e, t0, ms, n - 1), After(t0, ms, n), ms))
  }

  function Outputs(e: Env, t0: real, ms: real, n: nat): (ys: seq<real>)
    ensures |ys| == n
  {
    if n == 0 then []
    else Outputs(e, t0, ms, n - 1) + [Now(Ran(e, t0, ms, n - 1), After(t0, ms, n), ms).f]
  }

  lemma RanNone(e: Env, t0: real, ms: real)
    ensures Ran(e, t0, ms, 0) == e && Outputs(e, t0, ms, 0) == []
  {
  }

  lemma RanOne(e: Env, t0: real, ms: real, n: nat)
    ensures var b := Now(Ran(e, t0, ms, n), After(t0, ms, n + 1), ms);
            Ran(e, t0, ms, n + 1) == Moved(b) && Outputs(e, t0, ms, n + 1) == Outputs(e, t0, ms, n) + [b.f]
  {
  }

  /** The segments at the head of a queue that start before s. */
  function Front(l: seq<Seg>, s: real): seq<Seg> {
    if l == [] || l[0].start >= s then [] else [l[0]] + Front(l[1..], s)
  }

  /** Two envelopes that differ at most in what starts at s or later. */
  predicate Agree(a: Env, b: Env, s: real) {
    a.(list := []) == b.(list := []) && Front(a.list, s) == Front(b.list, s)
  }

  lemma {:induction false} BeginAllAgree(a: Env, b: Env, u: real, ms: real, s: real)
    requires Agree(a, b, s) && u <= s
    ensures Agree(BeginAll(a, u, ms), BeginAll(b, u, ms), s)
    decreases |a.list|
  {
    if a.list != [] && a.list[0].start < u {
      FrontHead(a.list, s);
      FrontHead(b.list, s);
      assert a.list[0] == Front(a.list, s)[0] == b.list[0];
      assert a == Env(a.f, a.inc, a.target, a.end, a.list) && b == Env(a.f, a.inc, a.target, a.end, b.list);
      hide Slide;
      BeginAllAgree(Begin(a, u, ms), Begin(b, u, ms), u, ms, s);
    } else if b.list != [] && b.list[0].start < u {
      FrontHead(a.list, s);
      FrontHead(b.list, s);
      assert false;
    }
  }

  lemma FrontHead(l: seq<Seg>, s: real)
    ensures Front(l, s) != [] <==> l != [] && l[0].start < s
    ensures Front(l, s) != [] ==> Front(l, s)[0] == l[0] && Front(l, s)[1..] == Front(l[1..], s)
  {
  }

  lemma {:induction false} RanAgree(a: Env, b: Env, t0: real, ms: real, n: nat, s: real)
    requires Agree(a, b, s) && ms >= 0.0 && (n > 0 ==> After(t0, ms, n) <= s)
    ensures Agree(Ran(a, t0, ms, n), Ran(b, t0, ms, n), s)
    ensures Outputs(a, t0, ms, n) == Outputs(b, t0, ms, n)
  {
    if n > 0 {
      AfterNext(t0, ms, n - 1);
      RanAgree(a, b, t0, ms, n - 1, s);
      BeginAllAgree(Ran(a, t0, ms, n - 1), Ran(b, t0, ms, n - 1), After(t0, ms, n), ms, s);
    }
  }

  lemma {:induction false} FrontStarts(l: seq<Seg>, s: real, k: nat)
    requires k <= |l| && (forall i: nat :: i < k ==> l[i].start < s) && (k < |l| ==> l[k].start >= s)
    ensures Front(l, s) == l[..k]
  {
    if k > 0 {
      FrontStarts(l[1..], s, k - 1);
      assert l[..k] == [l[0]] + l[1..][..k - 1];
    }
  }

  lemma {:induction false} FrontIs(l: seq<Seg>, s: real)
    ensures var k := |Front(l, s)|;
      k <= |l| && Front(l, s) == l[..k] && (forall i: nat :: i < k ==> l[i].start < s) && (k < |l| ==> l[k].start >= s)
  {
    if l != [] && l[0].start < s {
      FrontIs(l[1..], s);
      var k := |Front(l, s)|;
      assert l[..k] == [l[0]] + l[1..][..k - 1];
      forall i: nat | i < k ensures l[i].start < s { if i > 0 { assert l[i] == l[1..][i - 1]; } }
    }
  }

  /** A new segment changes nothing about what starts before it. */
  lemma QueuedFront(was: seq<Seg>, now: seq<Seg>, snew: Seg)
    requires Queued(was, now, snew)
    ensures Front(now, snew.start) == Front(was, snew.start)
  {
    var k := |Front(was, snew.start)|;
    FrontIs(was, snew.start);
    if k > 0 { assert Before(was[k - 1], snew); }
    KeptFront(was, now, snew, snew.start, k);
  }

  lemma KeptFront(was: seq<Seg>, now: seq<Seg>, snew: Seg, s: real, k: nat)
    requires Queued(was, now, snew) && k < |now| && k <= |was| && s <= snew.start
    requires (forall i: nat :: i < k ==> was[i].start < s) && (k < |was| ==> was[k].start >= s)
    ensures Front(now, s) == was[..k]
  {
    forall i: nat | i < k ensures now[i].start < s { assert now[i] == now[..|now| - 1][i] == was[i]; }
    if k < |now| - 1 { assert now[k] == now[..|now| - 1][k] == was[k]; }
    FrontStarts(now, s, k);
    assert now[..k] == was[..k];
  }

  /** And two envelopes that agree on what starts before s still do after the same message. */
  lemma MessageAgrees(la: seq<Seg>, lb: seq<Seg>, na: seq<Seg>, nb: seq<Seg>, m: Seg, s: real)
    requires Front(la, s) == Front(lb, s) && Queued(la, na, m) && Queued(lb, nb, m)
    ensures Front(na, s) == Front(nb, s)
  {
    var k := |Front(la, s)|;
    FrontIs(la, s);
    FrontIs(lb, s);
    if m.start >= s {
      if k > 0 { assert Before(la[k - 1], m) && lb[k - 1] == Front(lb, s)[k - 1]; }
      KeptFront(la, na, m, s, k);
      KeptFront(lb, nb, m, s, k);
    } else {
      CutsSame(la, lb, na, nb, m, s);
      CutsSame(lb, la, nb, na, m, s);
      assert na == nb;
    }
  }

  lemma CutsSame(la: seq<Seg>, lb: seq<Seg>, na: seq<Seg>, nb: seq<Seg>, m: Seg, s: real)
    requires Front(la, s) == Front(lb, s) && Queued(la, na, m) && Queued(lb, nb, m) && m.start < s
    ensures |na| <= |nb| && na[..|na| - 1] == nb[..|na| - 1]
  {
    FrontIs(la, s);
    FrontIs(lb, s);
    var k, j := |Front(la, s)|, |na| - 1;
    if j > 0 { assert Before(la[j - 1], m); }
    assert k < |la| ==> !Before(la[k], m);
    forall i: nat | i < j ensures i < |lb| && lb[i] == la[i] && i < |nb| - 1 && nb[i] == na[i] {
      assert la[i] == Front(la, s)[i] == lb[i] && Before(la[i], m);
      assert na[i] == na[..j][i] && nb[i] == nb[..|nb| - 1][i];
    }
  }

  // ----- in plain numbers -----

  /** The samples of one slide taken up at rest: the line from the resting value, at u milliseconds. */
  function Line(v: real, s: Seg, u: real): real {
    if u <= s.start || s.end <= s.start then v else v + Times(Over(s.target - v, s.end - s.start), u - s.start)
  }

  /** The envelope after n samples, with nothing but a slide ahead of it at first. */
  lemma {:induction false} RanSlide(e: Env, s: Seg, t0: real, ms: real, n: nat)
    requires e.inc == 0.0 && e.f == e.target && e.list == [s] && s.start < s.end && ms > 0.0
    ensures var b, u := Ran(e, t0, ms, n), After(t0, ms, n);
      && (n == 0 || u <= s.start ==> b.f == b.target == e.f && b.inc == 0.0 && b.list == [s])
      && (n > 0 && s.start < u < s.end ==>
            b == Env(Line(e.f, s, u) + Times(Over(s.target - e.f, s.end - s.start), ms),
                     Times(Over(s.target - e.f, s.end - s.start), ms), s.target, s.end, []))
      && (n > 0 && s.end <= u ==> b.f == b.target == s.target && b.inc == 0.0 && b.list == [])
  {
    if n > 0 {
      RanSlide(e, s, t0, ms, n - 1);
      AfterNext(t0, ms, n - 1);
      SlideOne(e.f, Ran(e, t0, ms, n - 1), s, After(t0, ms, n), ms, n > 1 && s.start < After(t0, ms, n - 1));
    }
  }

  /** One sample of it, that ends at u. */
  lemma SlideOne(v: real, a: Env, s: Seg, u: real, ms: real, begun: bool)
    requires s.start < s.end && ms > 0.0 && (begun ==> s.start < u - ms)
    requires !begun ==> a.f == a.target == v && a.inc == 0.0 && a.list == [s]
    requires begun && u - ms < s.end ==>
               a == Env(Line(v, s, u - ms) + Times(Over(s.target - v, s.end - s.start), ms),
                        Times(Over(s.target - v, s.end - s.start), ms), s.target, s.end, [])
    requires begun && s.end <= u - ms ==> a.f == a.target == s.target && a.inc == 0.0 && a.list == []
    ensures var b := Now(a, u, ms);
      && b.f == (if s.end <= u then s.target else Line(v, s, u))
      && (u <= s.start ==> Moved(b).f == Moved(b).target == v && Moved(b).inc == 0.0 && Moved(b).list == [s])
      && (s.start < u < s.end ==>
            Moved(b) == Env(Line(v, s, u) + Times(Over(s.target - v, s.end - s.start), ms),
                            Times(Over(s.target - v, s.end - s.start), ms), s.target, s.end, []))
      && (s.end <= u ==> Moved(b).f == Moved(b).target == s.target && Moved(b).inc == 0.0 && Moved(b).list == [])
  {
    var k := Over(s.target - v, s.end - s.start);
    TimesAdds(k, u - ms - s.start, ms);
    hide Times, Over;
    if !begun && s.start < u {
      BeginAllOne(a, u, ms);
      BeginAllNone(Begin(a, u, ms), u, ms);
    } else {
      BeginAllNone(a, u, ms);
    }
  }

  lemma TimesAdds(k: real, a: real, b: real)
    ensures Times(k, a) + Times(k, b) == Times(k, a + b)
  {
  }

  /**
   * What a slide sounds like that is taken up at rest, sample by sample: the resting value before it starts, the
   * straight line from there to its target while it lasts, and its target from its end on.
   */
  lemma SlideHeard(e: Env, s: Seg, t0: real, ms: real, n: nat, j: nat)
    requires e.inc == 0.0 && e.f == e.target && e.list == [s] && s.start < s.end && ms > 0.0 && j < n
    ensures var u := t0 + (j + 1) as real * ms;
            Outputs(e, t0, ms, n)[j]
            == if u <= s.start then e.f
               else if s.end <= u then s.target
               else e.f + (s.target - e.f) / (s.end - s.start) * (u - s.start)
  {
    var u := t0 + (j + 1) as real * ms;
    AfterIs(t0, ms, j + 1);
    hide Outputs, After, Line;
    SlideAt(e, s, t0, ms, n, j, u);
    LineIs(e.f, s, u);
  }

  lemma SlideAt(e: Env, s: Seg, t0: real, ms: real, n: nat, j: nat, u: real)
    requires e.inc == 0.0 && e.f == e.target && e.list == [s] && s.start < s.end && ms > 0.0 && j < n
    requires u == After(t0, ms, j + 1)
    ensures Outputs(e, t0, ms, n)[j] == if s.end <= u then s.target else Line(e.f, s, u)
  {
    hide Outputs, Ran, Now, After, Line, Times, Over;
    OutputAt(e, t0, ms, n, j);
    RanSlide(e, s, t0, ms, j);
    AfterNext(t0, ms, j);
    SlideOne(e.f, Ran(e, t0, ms, j), s, u, ms, j > 0 && s.start < After(t0, ms, j));
  }

  lemma LineIs(v: real, s: Seg, u: real)
    requires s.start < s.end
    ensures Line(v, s, u) == if u <= s.start then v else v + (s.target - v) / (s.end - s.start) * (u - s.start)
  {
  }

  lemma {:induction false} OutputAt(e: Env, t0: real, ms: real, n: nat, j: nat)
    requires j < n
    ensures Outputs(e, t0, ms, n)[j] == Now(Ran(e, t0, ms, j), After(t0, ms, j + 1), ms).f
  {
    if j < n - 1 { OutputAt(e, t0, ms, n - 1, j); }
  }

  /** How many samples audio time runs behind logical time at the start of a tick. */
  function Ahead(n: nat): nat {
    if n > DEFDACBLKSIZE then n else DEFDACBLKSIZE
  }

  /** ... in milliseconds. */
  function Lead(n: nat, ms: real): real {
    Ahead(n) as real * ms
  }

  function Clean(f: real, bigOrSmall: real -> bool): real {
    if bigOrSmall(f) then 0.0 else f
  }

  class VLine {
    var value: real
    var inc: real
    var lastlogicaltime: real
    var nextblocktime: real
    var msecpersamp: real
    var targettime: real
    var target: real
    var inlet1: real
    var inlet2: real
    var list: seq<Seg>

    /**
     * Everything the object holds lies in [lo, hi]: its last output, its target and every target to
     * come; and the value it is about to output is on the line towards its target.
     */
    ghost predicate Held(lo: real, hi: real)
      reads this
    {
      && msecpersamp > 0.0
      && HeldAt(value, inc, nextblocktime + msecpersamp, lo, hi)
      && TargetsIn(lo, hi)
    }

    /** The moving part of the object. */
    ghost function Moving(): Env
      reads this`value, this`inc, this`target, this`targettime, this`list
    {
      Env(value, inc, target, targettime, list)
    }

    /** The envelope rests on its target. */
    predicate AtRest()
      reads this`value, this`inc, this`target
    {
      inc == 0.0 && value == target
    }

    ghost predicate HeldAt(f: real, step: real, u: real, lo: real, hi: real)
      reads this`msecpersamp, this`target, this`targettime
    {
      In(f - step, lo, hi) && In(target, lo, hi) && OnLine(f, step, msecpersamp, u, target, targettime)
    }

    constructor (now: real)
      ensures list == [] && value == 0.0 && inc == 0.0 && target == 0.0 && targettime == NEVER
      ensures lastlogicaltime == nextblocktime == now && Ordered(list)
      ensures inlet1 == inlet2 == 0.0
    {
      value, inc, target, targettime, list := 0.0, 0.0, 0.0, NEVER, [];
      lastlogicaltime, nextblocktime, inlet1, inlet2, msecpersamp := now, now, 0.0, 0.0, 0.0;
    }

    /** Entering the chain at a sample rate (in samples per second). */
    method Dsp(sr: real)
      requires sr > 0.0
      modifies this`msecpersamp
      ensures msecpersamp * sr == 1000.0 && msecpersamp > 0.0
      ensures inc == 0.0 && value == target && list == [] ==> Held(value, value)
    {
      msecpersamp := 1000.0 / sr;
      Quotient(sr);
    }

    static lemma Quotient(sr: real)
      requires sr > 0.0
      ensures (1000.0 / sr) * sr == 1000.0 && 1000.0 / sr > 0.0
    {
    }

    /** The `stop` message: nothing queued, and the value stays where it is. */
    method Stop()
      modifies this`list, this`inc, this`inlet1, this`inlet2, this`target, this`targettime
      ensures list == [] && inc == 0.0 && target == value && inlet1 == inlet2 == 0.0 && targettime == NEVER
      ensures msecpersamp > 0.0 ==> forall lo: real, hi: real :: Held(lo, hi) <==> In(value, lo, hi)
    {
      list, inc, inlet1, inlet2, target, targettime := [], 0.0, 0.0, 0.0, value, NEVER;
    }

    /** Finds the first queued segment the new one supplants, and cuts the queue there. */
    method Enqueue(snew: Seg, length: real)
      requires Ordered(list) && snew.end == snew.start + length && length >= 0.0
      modifies this`list
      ensures Ordered(list) && Queued(old(list), list, snew)
      ensures forall lo: real, hi: real :: old(TargetsIn(lo, hi)) && In(snew.target, lo, hi) ==> TargetsIn(lo, hi)
    {
      hide Ordered, Queued, Before;
      ghost var was := list;
      if list == [] || Supplants(list[0], snew.start, length) {
        CutAt(was, 0, snew) by { if list != [] { SupplantsIff(list[0], snew, length); } }
        assert was[..0] + [snew] == [snew];
        list := [snew];
      } else {
        var s1 := 0;
        SupplantsIff(list[0], snew, length);
        while s1 + 1 < |list| && !Supplants(list[s1 + 1], snew.start, length)
          invariant list == was && s1 < |list| && Before(list[s1], snew)
        {
          s1 := s1 + 1;
          SupplantsIff(list[s1], snew, length);
        }
        if s1 + 1 < |list| { SupplantsIff(list[s1 + 1], snew, length); }
        CutAt(was, s1 + 1, snew);
        list := list[..s1 + 1] + [snew];
      }
    }

    /**
     * A number: a new last segment.  The segments that survive are exactly those ordered before it, and
     * they keep their order.
     */
    method Float(timenow: real, number: real, bigOrSmall: real -> bool)
      requires Ordered(list)
      modifies this`list, this`inc, this`inlet1, this`inlet2, this`target, this`targettime, this`value
      ensures Ordered(list) && inlet1 == inlet2 == 0.0
      ensures old(inlet2) < 0.0 ==>
                list == [] && value == target == Clean(number, bigOrSmall) && inc == 0.0
      ensures old(inlet2) >= 0.0 ==>
                && value == old(value) && inc == old(inc) && target == old(target) && targettime == old(targettime)
                && var start := timenow + old(inlet2);
                   var snew := Seg(Clean(number, bigOrSmall), start,
                                   start + if old(inlet1) < 0.0 then 0.0 else old(inlet1));
                   Queued(old(list), list, snew)
      ensures forall lo: real, hi: real ::
                old(Held(lo, hi)) && In(Clean(number, bigOrSmall), lo, hi) ==> Held(lo, hi)
    {
      var length := if inlet1 < 0.0 then 0.0 else inlet1;
      var starttime := timenow + inlet2;
      var f := number;
      if bigOrSmall(f) { f := 0.0; }
      if inlet2 < 0.0 {
        value := f;
        Stop();
        return;
      }
      hide Ordered, Queued, OnLine;
      var snew := Seg(f, starttime, starttime + length);
      Enqueue(snew, length);
      inlet1, inlet2 := 0.0, 0.0;
    }

    static lemma SupplantsIff(s: Seg, snew: Seg, length: real)
      requires snew.end == snew.start + length && length >= 0.0
      ensures Supplants(s, snew.start, length) <==> !Before(s, snew)
    {
    }

    /** The test that throws a queued segment out when a new one is put in. */
    static predicate Supplants(s: Seg, starttime: real, length: real) {
      s.start > starttime || (s.start == starttime && (s.end > s.start || length <= 0.0))
    }

    /** Whether this block begins where the last one ended. */
    predicate Contiguous(logicaltimenow: real, n: nat)
      reads this`lastlogicaltime, this`nextblocktime, this`msecpersamp
    {
      logicaltimenow != lastlogicaltime ==>
        logicaltimenow - Lead(n, msecpersamp) == nextblocktime
    }

    /**
     * The start of one sample, ending at `timenext`: every segment begun by then is taken off the queue
     * in turn, each sliding from the value the one before had reached.
     */
    method CheckNext(f0: real, inc0: real, timenext: real, ghost lo: real, ghost hi: real, ghost ok: bool)
      returns (f: real, step: real)
      requires Ordered(list) && inc == inc0
      requires ok ==> msecpersamp > 0.0 && HeldAt(f0, inc0, timenext, lo, hi) && TargetsIn(lo, hi)
      modifies this`list, this`inc, this`target, this`targettime
      ensures step == inc && Env(f, step, target, targettime, list)
                             == BeginAll(Env(f0, inc0, old(target), old(targettime), old(list)), timenext, msecpersamp)
      ensures ok ==> Mid(Env(f, step, target, targettime, list), msecpersamp, timenext, lo, hi)
    {
      hide OnLine, BeginAll, Mid, Begin;
      ghost var e0 := Env(f0, inc0, target, targettime, list);
      if ok { HeldIsMid(e0, msecpersamp, timenext, lo, hi); }
      f, step := f0, inc0;
      while list != [] && list[0].start < timenext
        invariant inc == step && |list| <= |old(list)|
        invariant BeginAll(Env(f, step, target, targettime, list), timenext, msecpersamp)
                  == BeginAll(e0, timenext, msecpersamp)
        invariant ok ==> Mid(Env(f, step, target, targettime, list), msecpersamp, timenext, lo, hi)
        decreases |list|
      {
        ghost var e := Env(f, step, target, targettime, list);
        f, step := BeginNext(f, step, timenext);
        BeginAllOne(e, timenext, msecpersamp);
        if ok { BeginMid(e, timenext, msecpersamp, lo, hi); }
      }
      BeginAllNone(Env(f, step, target, targettime, list), timenext, msecpersamp);
    }

    /** The first segment of the queue begins. */
    method BeginNext(f0: real, inc0: real, timenext: real) returns (f: real, step: real)
      requires list != [] && inc == inc0
      modifies this`list, this`inc, this`target, this`targettime
      ensures inc == step && |list| == |old(list)| - 1
      ensures Env(f, step, target, targettime, list)
              == Begin(old(Env(f0, inc0, target, targettime, list)), timenext, msecpersamp)
    {
      hide Times, Over;
      f, step := f0, inc0;
      var s := list[0];
      if targettime <= timenext { f, step := target, 0.0; }
      if s.end <= s.start {
        f, step := s.target, 0.0;
      } else {
        var incpermsec := (s.target - f) / (s.end - s.start);
        TimesIs(s.target - f, s.end - s.start);
        TimesIs(incpermsec, timenext - s.start);
        TimesIs(incpermsec, msecpersamp);
        f := f + incpermsec * (timenext - s.start);
        step := incpermsec * msecpersamp;
      }
      inc, target, targettime := step, s.target, s.end;
      list := list[1..];
    }

    /** One sample: the queue is checked, an ended slide snaps to its target, the value goes out and moves on. */
    method OneSample(f0: real, inc0: real, timenext: real, ghost last: Seg, ghost lo: real, ghost hi: real,
                     ghost ok: bool)
      returns (y: real, f: real, step: real)
      requires Ordered(list) && inc == inc0
      requires ok ==> msecpersamp > 0.0 && HeldAt(f0, inc0, timenext, lo, hi) && TargetsIn(lo, hi)
      modifies this`list, this`inc, this`target, this`targettime
      ensures Ordered(list) && inc == step
      ensures var e := Now(old(Env(f0, inc0, target, targettime, list)), timenext, msecpersamp);
              y == e.f && Env(f, step, target, targettime, list) == Moved(e)
      ensures Final(list, target) == old(Final(list, target))
      ensures ok ==> In(y, lo, hi) && HeldAt(f, step, timenext + msecpersamp, lo, hi) && TargetsIn(lo, hi)
      ensures old(list) == [] && inc0 == 0.0 && f0 == old(target) ==>
                list == [] && step == 0.0 && y == f == target == old(target)
      ensures old(Bound(last, f0, inc0)) ==> Bound(last, f, step)
      ensures old(Bound(last, f0, inc0)) ==> Landed(y, timenext, last)
    {
      hide OnLine, Ordered, In, BeginAll, Mid, Snapped, Now, Final, Landed, BoundFor;
      ghost var e0 := Env(f0, inc0, target, targettime, list);
      NowIs(e0, timenext, msecpersamp);
      BoundStays(e0, timenext, msecpersamp, last);
      f, step := CheckNext(f0, inc0, timenext, lo, hi, ok);
      ghost var e := Env(f, step, target, targettime, list);
      SnappedIs(e, timenext);
      if targettime <= timenext {
        f, step, inc, targettime := target, 0.0, 0.0, NEVER;
      }
      if ok { SnapHeld(e, timenext, msecpersamp, lo, hi); }
      y := f;
      f := f + step;
    }

    /**
     * One block.  If time is contiguous, or nothing moves, every output sample lies in any interval that holds
     * the last output and all targets so far.  And the envelope ends where the last segment says, whether
     * that is still queued or already under way: once its end has passed, the output is exactly its target.
     */
    method Perform(out: array<real>, logicaltimenow: real, ghost last: Seg, ghost lo: real, ghost hi: real)
      requires Ordered(list)
      modifies this`list, this`inc, this`target, this`targettime, this`value, this`lastlogicaltime,
               this`nextblocktime, out
      ensures Ordered(list) && lastlogicaltime == logicaltimenow
      ensures var t0 := old(BlockStart(logicaltimenow, out.Length));
              && out[..] == Outputs(old(Moving()), t0, msecpersamp, out.Length)
              && Moving() == Ran(old(Moving()), t0, msecpersamp, out.Length)
      ensures old(Held(lo, hi)) && old(Contiguous(logicaltimenow, out.Length) || AtRest()) ==>
                Held(lo, hi) && forall i: nat :: i < out.Length ==> In(out[i], lo, hi)
      ensures nextblocktime == After(old(BlockStart(logicaltimenow, out.Length)), msecpersamp, out.Length)
      ensures Final(list, target) == old(Final(list, target))
      ensures old(Settled()) ==> Settled() && forall i: nat :: i < out.Length ==> out[i] == target
      ensures old(Bound(last, value, inc)) ==>
                && Bound(last, value, inc)
                && Lands(out[..], old(BlockStart(logicaltimenow, out.Length)), msecpersamp, last)
    {
      hide OnLine, After, Final, Bound, HeldAt, TargetsIn, Ordered, In, Lead, Lands, Contiguous, BlockStart, Outputs,
           Ran;
      ghost var ok := Held(lo, hi) && (Contiguous(logicaltimenow, out.Length) || AtRest());
      if ok && AtRest() { RestsAnywhere(lo, hi); }
      var timenow := BeginBlock(logicaltimenow, out.Length);
      RunBlock(out, timenow, last, lo, hi, ok);
    }

    /** What rests on its target is held at any time. */
    lemma RestsAnywhere(lo: real, hi: real)
      requires AtRest() && Held(lo, hi)
      ensures forall u: real :: HeldAt(value, inc, u, lo, hi)
    {
      forall u: real ensures HeldAt(value, inc, u, lo, hi) { LineFlat(value, msecpersamp, u, targettime); }
    }

    /** Where the block begins: audio time is set by logical time whenever that has moved. */
    method BeginBlock(logicaltimenow: real, n: nat) returns (timenow: real)
      modifies this`lastlogicaltime, this`nextblocktime
      ensures lastlogicaltime == logicaltimenow && timenow == old(BlockStart(logicaltimenow, n))
      ensures nextblocktime == After(timenow, msecpersamp, n)
      ensures old(Contiguous(logicaltimenow, n)) ==> timenow == old(nextblocktime)
    {
      hide Ahead;
      if logicaltimenow != lastlogicaltime {
        var sampstotime := Ahead(n);
        lastlogicaltime := logicaltimenow;
        nextblocktime := logicaltimenow - sampstotime as real * msecpersamp;
      }
      timenow := nextblocktime;
      nextblocktime := timenow + n as real * msecpersamp;
    }

    /** The samples of a block that begins at t0. */
    method RunBlock(out: array<real>, t0: real, ghost last: Seg, ghost lo: real, ghost hi: real, ghost ok: bool)
      requires Ordered(list)
      requires ok ==> msecpersamp > 0.0 && HeldAt(value, inc, t0 + msecpersamp, lo, hi) && TargetsIn(lo, hi)
      modifies this`list, this`inc, this`target, this`targettime, this`value, out
      ensures Ordered(list) && out[..] == Outputs(old(Moving()), t0, msecpersamp, out.Length)
      ensures Moving() == Ran(old(Moving()), t0, msecpersamp, out.Length)
      ensures ok ==> HeldAt(value, inc, After(t0, msecpersamp, out.Length) + msecpersamp, lo, hi) && TargetsIn(lo, hi)
      ensures ok ==> forall i: nat :: i < out.Length ==> In(out[i], lo, hi)
      ensures Final(list, target) == old(Final(list, target))
      ensures old(Settled()) ==> Settled() && forall i: nat :: i < out.Length ==> out[i] == target
      ensures old(Bound(last, value, inc)) ==> Bound(last, value, inc) && Lands(out[..], t0, msecpersamp, last)
    {
      hide OnLine, After, Final, Bound, HeldAt, TargetsIn, Ordered, In, Lands, Landed, Now, Moved, Outputs, Ran;
      ghost var e0 := Moving();
      RanNone(e0, t0, msecpersamp);
      var n, f, step := out.Length, value, inc;
      ghost var bound := Bound(last, value, inc);
      LandsNone(t0, msecpersamp, last);
      AfterIs(t0, msecpersamp, 0);
      var timenow, i := t0, 0;
      while i < n
        modifies this`list, this`inc, this`target, this`targettime, out
        invariant 0 <= i <= n && Ordered(list) && inc == step
        invariant timenow == After(t0, msecpersamp, i)
        invariant out[..i] == Outputs(e0, t0, msecpersamp, i)
        invariant Env(f, step, target, targettime, list) == Ran(e0, t0, msecpersamp, i)
        invariant ok ==> HeldAt(f, step, timenow + msecpersamp, lo, hi) && TargetsIn(lo, hi)
        invariant ok ==> forall j: nat :: j < i ==> In(out[j], lo, hi)
        invariant Final(list, target) == old(Final(list, target))
        invariant old(Settled()) ==> list == [] && step == 0.0 && f == target == old(target)
        invariant old(Settled()) ==> forall j: nat :: j < i ==> out[j] == target
        invariant bound ==> Bound(last, f, step) && Lands(out[..i], t0, msecpersamp, last)
      {
        label Before:
        var y;
        var timenext := timenow + msecpersamp;
        AfterNext(t0, msecpersamp, i);
        RanOne(e0, t0, msecpersamp, i);
        y, f, step := OneSample(f, step, timenext, last, lo, hi, ok);
        if bound { LandsOne(out[..i], y, t0, msecpersamp, last); }
        out[i] := y;
        assert out[..i + 1] == old@Before(out[..i]) + [y];
        timenow := timenext;
        i := i + 1;
      }
      value := f;
      assert out[..n] == out[..];
    }

    ghost predicate TargetsIn(lo: real, hi: real)
      reads this`list
    {
      forall i: nat :: i < |list| ==> In(list[i].target, lo, hi)
    }

    /** Where audio time stands when a block begins. */
    function BlockStart(logicaltimenow: real, n: nat): real
      reads this`lastlogicaltime, this`nextblocktime, this`msecpersamp
    {
      if logicaltimenow != lastlogicaltime
      then logicaltimenow - Lead(n, msecpersamp)
      else nextblocktime
    }

    /** Nothing is queued and nothing moves. */
    predicate Settled()
      reads this
    {
      list == [] && inc == 0.0 && value == target
    }

    /** `last` is still queued last, or is being slid to, or has been reached. */
    ghost predicate Bound(last: Seg, f: real, step: real)
      reads this`list, this`target, this`targettime
    {
      BoundFor(Env(f, step, target, targettime, list), last)
    }
  }

  // ----- whole runs -----

  /** A number sent with a length and a delay, and the logical time at which it is. */
  datatype Message = Message(number: real, length: real, delay: real, at: real)

  lemma AfterAdds(l: real, ms: real, a: int, b: int)
    ensures After(After(l, ms, a), ms, b) == After(l, ms, a + b)
  {
    assert (a + b) as real * ms == a as real * ms + b as real * ms;
  }

  /**
   * The segment a message asks for; `audio` is where audio time stands when it comes in.  A negative delay is
   * a jump, at once.
   */
  function SegOf(m: Message, audio: real, bigOrSmall: real -> bool): Seg {
    if m.delay < 0.0 then Seg(Clean(m.number, bigOrSmall), audio, audio)
    else
      var start := m.at + m.delay;
      Seg(Clean(m.number, bigOrSmall), start, start + if m.length < 0.0 then 0.0 else m.length)
  }

  /** What the envelope is bound for after some messages. */
  function LastOf(messages: seq<Message>, last: Seg, audio: real, bigOrSmall: real -> bool): Seg {
    if messages == [] then last else SegOf(messages[|messages| - 1], audio, bigOrSmall)
  }

  /** ... and after the messages of the first t ticks, of d samples each, of a run whose audio begins at a0. */
  function LastBy(script: seq<seq<Message>>, t: nat, last: Seg, a0: real, ms: real, d: nat,
                  bigOrSmall: real -> bool): Seg
    requires t <= |script|
  {
    if t == 0 then last
    else
      LastOf(script[t - 1], LastBy(script, t - 1, last, a0, ms, d, bigOrSmall), After(a0, ms, d * (t - 1)),
             bigOrSmall)
  }

  lemma LastByNext(script: seq<seq<Message>>, t: nat, last: Seg, a0: real, ms: real, d: nat, bigOrSmall: real -> bool)
    requires t < |script|
    ensures LastBy(script, t + 1, last, a0, ms, d, bigOrSmall)
            == LastOf(script[t], LastBy(script, t, last, a0, ms, d, bigOrSmall), After(a0, ms, d * t), bigOrSmall)
  {
  }

  /** The samples of tick t have all landed, if the last message handled before them lets them. */
  ghost predicate TickLanded(outs: seq<real>, script: seq<seq<Message>>, t: nat, last: Seg, a0: real, ms: real, d: nat,
                             bigOrSmall: real -> bool)
    requires t < |script| && |outs| >= d * (t + 1)
  {
    forall j: nat {:trigger outs[j]} :: d * t <= j < d * (t + 1) ==>
      j < |outs| && Landed(outs[j], After(a0, ms, j + 1), LastBy(script, t + 1, last, a0, ms, d, bigOrSmall))
  }

  /** So for the first u ticks of a run. */
  ghost predicate AllLanded(outs: seq<real>, script: seq<seq<Message>>, u: nat, last: Seg, a0: real, ms: real, d: nat,
                            bigOrSmall: real -> bool)
    requires u <= |script| && |outs| == d * u
  {
    forall t: nat :: t < u ==>
      d * (t + 1) <= |outs| && TickLanded(outs, script, t, last, a0, ms, d, bigOrSmall)
  }

  lemma TickEnd(t: nat, u: nat, d: nat)
    requires t < u
    ensures d * t + d == d * (t + 1) <= d * u
  {
    MulMono(d, t + 1, u);
  }

  /**
   * Scheduler ticks of d samples: before each some messages are handled, each at a time of its own, and then
   * the chain runs the d samples in blocks of n.  However the messages are timed, no output sample of the
   * whole run leaves any interval that holds the starting value and all numbers sent, and every sample after
   * the end of the last message handled so far is exactly that message's number.
   */
  method Play(x: VLine, script: seq<seq<Message>>, now: real, n: nat, d: nat, bigOrSmall: real -> bool,
              ghost last: Seg, ghost lo: real, ghost hi: real)
    returns (outs: seq<real>)
    requires Ordered(x.list) && x.Held(lo, hi) && Multiple(d, n) && d > 0
    requires x.lastlogicaltime != After(now, x.msecpersamp, d)
    requires x.AtRest() || x.Contiguous(After(now, x.msecpersamp, d), n)
    requires x.Bound(last, x.value, x.inc)
    requires forall t: nat, i: nat :: t < |script| && i < |script[t]| ==>
               In(Clean(script[t][i].number, bigOrSmall), lo, hi)
    modifies x
    ensures Ordered(x.list) && x.Held(lo, hi)
    ensures |outs| == d * |script| && forall j: nat :: j < |outs| ==> In(outs[j], lo, hi)
    ensures var ms := old(x.msecpersamp);
            var a0 := AudioStart(now, ms, n, d);
            && AllLanded(outs, script, |script|, last, a0, ms, d, bigOrSmall)
            && x.Bound(LastBy(script, |script|, last, a0, ms, d, bigOrSmall), x.value, x.inc)
  {
    outs := [];
    var logical, t := now, 0;
    ghost var ms := x.msecpersamp;
    ghost var a0 := AudioStart(now, ms, n, d);
    AfterIs(now, ms, 0);
    assert d * 0 == 0;
    NothingLanded(script, last, a0, ms, d, bigOrSmall);
    assert LastBy(script, 0, last, a0, ms, d, bigOrSmall) == last;
    hide Ordered, OnLine, In, After, LastOf, Landed, Lands, AllLanded, AudioStart, LastBy, Lead,
         VLine.Held, VLine.Contiguous, VLine.AtRest, VLine.Bound, Multiple;
    while t < |script|
      invariant t <= |script| && |outs| == d * t && x.msecpersamp == ms
      invariant Ordered(x.list) && x.Held(lo, hi)
      invariant logical == After(now, ms, d * t) && x.lastlogicaltime != After(logical, ms, d)
      invariant x.AtRest() || x.Contiguous(After(logical, ms, d), n)
      invariant x.Bound(LastBy(script, t, last, a0, ms, d, bigOrSmall), x.value, x.inc)
      invariant forall j: nat :: j < |outs| ==> In(outs[j], lo, hi)
      invariant AllLanded(outs, script, t, last, a0, ms, d, bigOrSmall)
    {
      ghost var was, l, audio := outs, LastBy(script, t, last, a0, ms, d, bigOrSmall), After(a0, ms, d * t);
      TickEnd(t, |script|, d);
      AudioMoves(now, ms, n, d, t);
      LastByNext(script, t, last, a0, ms, d, bigOrSmall);
      logical := After(logical, x.msecpersamp, d);
      var o := PlayTick(x, script[t], logical, n, d, bigOrSmall, audio, l, lo, hi);
      TickLands(was, o, script, t, last, a0, ms, d, bigOrSmall);
      outs := outs + o;
      t := t + 1;
    }
  }

  /** The messages of one tick, and then its samples. */
  method PlayTick(x: VLine, messages: seq<Message>, logical: real, n: nat, d: nat, bigOrSmall: real -> bool,
                  ghost audio: real, ghost last: Seg, ghost lo: real, ghost hi: real)
    returns (o: seq<real>)
    requires Ordered(x.list) && x.Held(lo, hi) && Multiple(d, n) && d > 0 && x.Bound(last, x.value, x.inc)
    requires x.lastlogicaltime != logical && (x.AtRest() || x.Contiguous(logical, n))
    requires audio == logical - Lead(n, x.msecpersamp)
    requires forall i: nat :: i < |messages| ==> In(Clean(messages[i].number, bigOrSmall), lo, hi)
    modifies x
    ensures Ordered(x.list) && x.Held(lo, hi) && x.msecpersamp == old(x.msecpersamp)
    ensures x.Bound(LastOf(messages, last, audio, bigOrSmall), x.value, x.inc)
    ensures x.lastlogicaltime != After(logical, x.msecpersamp, d)
    ensures x.Contiguous(After(logical, x.msecpersamp, d), n)
    ensures |o| == d && forall j: nat :: j < |o| ==> In(o[j], lo, hi)
    ensures Lands(o, audio, x.msecpersamp, LastOf(messages, last, audio, bigOrSmall))
  {
    hide Ordered, OnLine, In, After, LastOf, Lands, Multiple, Lead, VLine.Contiguous, VLine.AtRest, VLine.Bound;
    Receive(x, messages, bigOrSmall, audio, last, lo, hi);
    o := RunTick(x, logical, n, d, LastOf(messages, last, audio, bigOrSmall), lo, hi);
  }

  /**
   * Where the audio time of a run begins whose clock stood at `now`: with the clock, if a tick is one block of
   * 64 samples or more, or several that make 64; apart from it by a constant where the object's samples are
   * resampled.
   */
  function AudioStart(now: real, ms: real, n: nat, d: nat): real {
    After(now, ms, d - Ahead(n))
  }

  lemma AudioMoves(now: real, ms: real, n: nat, d: nat, t: nat)
    ensures var logical := After(now, ms, d * (t + 1));
      && After(After(now, ms, d * t), ms, d) == logical
      && logical - Lead(n, ms) == After(AudioStart(now, ms, n, d), ms, d * t)
  {
    AfterAdds(now, ms, d * t, d);
    AfterAdds(now, ms, d - Ahead(n), d * t);
    AfterAdds(now, ms, d - Ahead(n) + d * t, Ahead(n));
    AfterIs(After(now, ms, d - Ahead(n) + d * t), ms, Ahead(n));
    assert d * (t + 1) == d * t + d;
  }

  lemma NothingLanded(script: seq<seq<Message>>, last: Seg, a0: real, ms: real, d: nat, bigOrSmall: real -> bool)
    ensures d * 0 == 0 && AllLanded([], script, 0, last, a0, ms, d, bigOrSmall)
  {
  }

  /** The samples of tick t, joined to those before. */
  lemma TickLands(outs: seq<real>, o: seq<real>, script: seq<seq<Message>>, t: nat, last: Seg, a0: real, ms: real,
                  d: nat, bigOrSmall: real -> bool)
    requires t < |script| && |outs| == d * t && |o| == d && d * (t + 1) == d * t + d
    requires AllLanded(outs, script, t, last, a0, ms, d, bigOrSmall)
    requires Lands(o, After(a0, ms, d * t), ms, LastBy(script, t + 1, last, a0, ms, d, bigOrSmall))
    ensures AllLanded(outs + o, script, t + 1, last, a0, ms, d, bigOrSmall)
  {
    hide After, Landed, LastBy;
    forall k: nat | k < t + 1
      ensures d * (k + 1) <= |outs + o| && TickLanded(outs + o, script, k, last, a0, ms, d, bigOrSmall)
    {
      TickEnd(k, t + 1, d);
      if k < t {
        TickEnd(k, t, d);
        assert TickLanded(outs, script, k, last, a0, ms, d, bigOrSmall);
      } else {
        forall j: nat | d * t <= j < d * (t + 1)
          ensures Landed((outs + o)[j], After(a0, ms, j + 1), LastBy(script, t + 1, last, a0, ms, d, bigOrSmall))
        {
          var i: nat := j - |outs|;
          assert Landed(o[i], After(After(a0, ms, d * t), ms, i + 1),
                        LastBy(script, t + 1, last, a0, ms, d, bigOrSmall));
          AfterAdds(a0, ms, d * t, i + 1);
        }
      }
    }
  }

  /** While no more messages come the envelope stays bound for the last one. */
  lemma {:induction false} LastByStays(script: seq<seq<Message>>, t: nat, u: nat, last: Seg, a0: real, ms: real,
                                       d: nat, bigOrSmall: real -> bool)
    requires t <= u <= |script| && forall k: nat :: t <= k < u ==> script[k] == []
    ensures LastBy(script, u, last, a0, ms, d, bigOrSmall) == LastBy(script, t, last, a0, ms, d, bigOrSmall)
    decreases u
  {
    if t < u { LastByStays(script, t, u - 1, last, a0, ms, d, bigOrSmall); }
  }

  /**
   * From the tick before which a message is handled, until another one comes, every sample after its end is
   * exactly its number: a number sent at any time inside the tick is there from its own sample on.
   */
  lemma SettlesUntil(outs: seq<real>, script: seq<seq<Message>>, t: nat, u: nat, last: Seg, a0: real, ms: real, d: nat,
                     bigOrSmall: real -> bool)
    requires |outs| == d * |script| && AllLanded(outs, script, |script|, last, a0, ms, d, bigOrSmall)
    requires t < u <= |script| && script[t] != [] && forall k: nat :: t < k < u ==> script[k] == []
    ensures var m := script[t][|script[t]| - 1];
            var s := SegOf(m, After(a0, ms, d * t), bigOrSmall);
            d * u <= |outs|
            && forall j: nat {:trigger outs[j]} :: d * t <= j < d * u ==>
                 s.start < After(a0, ms, j + 1) && s.end <= After(a0, ms, j + 1) ==>
                 outs[j] == Clean(m.number, bigOrSmall)
  {
    MulMono(d, u, |script|);
    LastByNext(script, t, last, a0, ms, d, bigOrSmall);
    hide After, AllLanded, LastBy;
    forall j: nat | d * t <= j < d * u
      ensures Landed(outs[j], After(a0, ms, j + 1), LastBy(script, t + 1, last, a0, ms, d, bigOrSmall))
    {
      InTick(j, d, t, u);
      SampleLanded(outs, script, j / d, j, last, a0, ms, d, bigOrSmall);
      LastByStays(script, t + 1, j / d + 1, last, a0, ms, d, bigOrSmall);
    }
  }

  lemma SampleLanded(outs: seq<real>, script: seq<seq<Message>>, k: nat, j: nat, last: Seg, a0: real, ms: real, d: nat,
                     bigOrSmall: real -> bool)
    requires |outs| == d * |script| && AllLanded(outs, script, |script|, last, a0, ms, d, bigOrSmall)
    requires k < |script| && d * k <= j < d * (k + 1) && j < |outs|
    ensures Landed(outs[j], After(a0, ms, j + 1), LastBy(script, k + 1, last, a0, ms, d, bigOrSmall))
  {
    hide After, LastBy, Landed;
    assert TickLanded(outs, script, k, last, a0, ms, d, bigOrSmall);
  }

  lemma InTick(j: nat, d: nat, t: nat, u: nat)
    requires d > 0 && d * t <= j < d * u
    ensures t <= j / d < u && d * (j / d) <= j < d * (j / d + 1)
  {
    DivMod(j, d);
    var k := j / d;
    if k < t { MulMono(d, k + 1, t); }
    if k >= u { MulMono(d, u, k); }
  }

  /**
   * In numbers, for chains of one block of 64 samples or more a tick, or of smaller blocks that make 64: audio time
   * starts with the clock, at `now`, and sample j of the run ends j + 1 samples later.  The last message handled
   * before tick t has taken effect from the first sample on that ends after its start, and not before its end.
   */
  lemma HeardFrom(outs: seq<real>, script: seq<seq<Message>>, t: nat, u: nat, last: Seg, now: real, ms: real,
                  n: nat, d: nat, bigOrSmall: real -> bool, j: nat)
    requires d == (if n > 64 then n else 64) && |outs| == d * |script|
    requires AllLanded(outs, script, |script|, last, AudioStart(now, ms, n, d), ms, d, bigOrSmall)
    requires t < u <= |script| && script[t] != [] && forall k: nat :: t < k < u ==> script[k] == []
    requires var m := script[t][|script[t]| - 1];
             var end := now + (j + 1) as real * ms;
             && d * t <= j < d * u && m.delay >= 0.0 && m.at + m.delay < end
             && m.at + m.delay + (if m.length < 0.0 then 0.0 else m.length) <= end
    ensures j < |outs|
    ensures var m := script[t][|script[t]| - 1]; outs[j] == if bigOrSmall(m.number) then 0.0 else m.number
  {
    MulMono(d, u, |script|);
    StartIs(now, ms, n, d);
    AfterIs(now, ms, j + 1);
    hide After, AllLanded, AudioStart;
    SettlesUntil(outs, script, t, u, last, now, ms, d, bigOrSmall);
  }

  lemma StartIs(now: real, ms: real, n: nat, d: nat)
    requires d == if n > 64 then n else 64
    ensures AudioStart(now, ms, n, d) == now
  {
    AfterIs(now, ms, 0);
  }

  /**
   * So a number without delay or length is there from a given sample on: if it comes after sample k of the tick
   * has begun, and before it has ended, that is sample k.
   */
  lemma FirstSample(outs: seq<real>, script: seq<seq<Message>>, t: nat, u: nat, last: Seg, now: real, ms: real,
                    n: nat, d: nat, bigOrSmall: real -> bool, k: nat)
    requires d == (if n > 64 then n else 64) && |outs| == d * |script| && ms > 0.0 && k < d
    requires AllLanded(outs, script, |script|, last, AudioStart(now, ms, n, d), ms, d, bigOrSmall)
    requires t < u <= |script| && script[t] != [] && forall k: nat :: t < k < u ==> script[k] == []
    requires var m := script[t][|script[t]| - 1];
             m.delay == 0.0 && m.length <= 0.0 && m.at < now + (d * t + k + 1) as real * ms
    ensures d * u <= |outs|
    ensures var m := script[t][|script[t]| - 1];
            forall j: nat :: d * t + k <= j < d * u ==> outs[j] == if bigOrSmall(m.number) then 0.0 else m.number
  {
    MulMono(d, u, |script|);
    hide AllLanded, AudioStart;
    var m := script[t][|script[t]| - 1];
    forall j: nat | d * t + k <= j < d * u ensures outs[j] == if bigOrSmall(m.number) then 0.0 else m.number {
      Later(ms, d * t + k + 1, j + 1);
      HeardFrom(outs, script, t, u, last, now, ms, n, d, bigOrSmall, j);
    }
  }

  lemma Later(ms: real, a: int, b: int)
    requires ms > 0.0 && a <= b
    ensures a as real * ms <= b as real * ms
  {
    assert (b - a) as real * ms >= 0.0;
    assert b as real * ms == a as real * ms + (b - a) as real * ms;
  }

  /**
   * And no sample before that one knows of it: in the block of a tick whose logical time is `logical` -- which is the
   * tick's end, 64 samples after its audio time begins -- the first k samples are the same with and without
   * a message that starts k samples after the beginning, or later.
   */
  lemma NoSampleBefore(x: VLine, queued: seq<Seg>, m: Seg, logical: real, n: nat, k: nat)
    requires Queued(x.list, queued, m) && n <= 64 && k <= n && x.msecpersamp > 0.0 && x.lastlogicaltime != logical
    requires logical - 64.0 * x.msecpersamp + k as real * x.msecpersamp <= m.start
    ensures var t0 := x.BlockStart(logical, n);
            Outputs(x.Moving(), t0, x.msecpersamp, k) == Outputs(x.Moving().(list := queued), t0, x.msecpersamp, k)
  {
    var t0 := x.BlockStart(logical, n);
    AfterIs(t0, x.msecpersamp, k);
    QueuedFront(x.list, queued, m);
    RanAgree(x.Moving(), x.Moving().(list := queued), t0, x.msecpersamp, k, m.start);
  }

  method Receive(x: VLine, messages: seq<Message>, bigOrSmall: real -> bool, ghost audio: real, ghost last: Seg,
                 ghost lo: real, ghost hi: real)
    requires Ordered(x.list) && x.Held(lo, hi) && x.Bound(last, x.value, x.inc)
    requires forall i: nat :: i < |messages| ==> In(Clean(messages[i].number, bigOrSmall), lo, hi)
    modifies x`list, x`inc, x`inlet1, x`inlet2, x`target, x`targettime, x`value
    ensures Ordered(x.list) && x.Held(lo, hi) && (old(x.AtRest()) ==> x.AtRest())
    ensures x.Bound(LastOf(messages, last, audio, bigOrSmall), x.value, x.inc)
  {
    hide Ordered, OnLine, In;
    var i := 0;
    while i < |messages|
      invariant i <= |messages| && Ordered(x.list) && x.Held(lo, hi) && (old(x.AtRest()) ==> x.AtRest())
      invariant x.Bound(LastOf(messages[..i], last, audio, bigOrSmall), x.value, x.inc)
    {
      x.inlet1, x.inlet2 := messages[i].length, messages[i].delay;
      x.Float(messages[i].at, messages[i].number, bigOrSmall);
      i := i + 1;
    }
    assert messages[..i] == messages;
  }

  /** The d samples of a tick, in blocks of n; afterwards the next tick goes on where this one ended. */
  method RunTick(x: VLine, logical: real, n: nat, d: nat, ghost last: Seg, ghost lo: real, ghost hi: real)
    returns (outs: seq<real>)
    requires Ordered(x.list) && x.Held(lo, hi) && Multiple(d, n) && d > 0 && x.Bound(last, x.value, x.inc)
    requires x.lastlogicaltime != logical && (x.AtRest() || x.Contiguous(logical, n))
    modifies x`list, x`inc, x`target, x`targettime, x`value, x`lastlogicaltime, x`nextblocktime
    ensures Ordered(x.list) && x.Held(lo, hi) && x.Bound(last, x.value, x.inc)
    ensures x.lastlogicaltime == logical != After(logical, x.msecpersamp, d)
    ensures x.Contiguous(After(logical, x.msecpersamp, d), n)
    ensures |outs| == d && forall j: nat :: j < |outs| ==> In(outs[j], lo, hi)
    ensures Lands(outs, logical - Lead(n, x.msecpersamp), x.msecpersamp, last)
  {
    hide Ordered, OnLine, In, After, Lands, Multiple, VLine.Bound, Outputs, Ran, Lead;
    outs := [];
    ghost var ms := x.msecpersamp;
    ghost var t0 := logical - Lead(n, ms);
    AfterIs(t0, ms, 0);
    MultipleIs(d, d, 1);
    LandsNone(t0, ms, last);
    while |outs| < d
      invariant Ordered(x.list) && x.Held(lo, hi) && x.Bound(last, x.value, x.inc) && x.msecpersamp == ms
      invariant |outs| <= d && Multiple(d - |outs|, n)
      invariant if outs == [] then x.lastlogicaltime != logical && (x.AtRest() || x.Contiguous(logical, n))
                else x.lastlogicaltime == logical && x.nextblocktime == After(t0, ms, |outs|)
      invariant forall j: nat :: j < |outs| ==> In(outs[j], lo, hi)
      invariant Lands(outs, t0, ms, last)
    {
      var out := new real[n];
      BlockLeft(d - |outs|, n);
      assert x.BlockStart(logical, n) == After(t0, ms, |outs|);
      AfterAdds(t0, ms, |outs|, n);
      x.Perform(out, logical, last, lo, hi);
      LandsJoin(outs, out[..], t0, ms, last);
      outs := outs + out[..];
    }
    TickFollows(logical, ms, n, d);
  }

  lemma TickFollows(logical: real, ms: real, n: nat, d: nat)
    requires ms > 0.0 && d > 0
    ensures var next := After(logical, ms, d);
      next != logical && next - Lead(n, ms) == After(logical - Lead(n, ms), ms, d)
  {
    AfterIs(logical, ms, d);
  }

  lemma LandsNone(t0: real, ms: real, last: Seg)
    ensures Lands([], t0, ms, last)
  {
  }

  lemma LandsOne(a: seq<real>, y: real, t0: real, ms: real, last: Seg)
    requires Lands(a, t0, ms, last) && Landed(y, After(t0, ms, |a| + 1), last)
    ensures Lands(a + [y], t0, ms, last)
  {
  }

  lemma LandsJoin(a: seq<real>, b: seq<real>, t0: real, ms: real, last: Seg)
    requires Lands(a, t0, ms, last) && Lands(b, After(t0, ms, |a|), ms, last)
    ensures Lands(a + b, t0, ms, last)
  {
    hide After, Landed;
    forall i: nat | i < |a + b| ensures Landed((a + b)[i], After(t0, ms, i + 1), last) {
      if i >= |a| {
        var k: nat := i - |a|;
        assert Landed(b[k], After(After(t0, ms, |a|), ms, k + 1), last);
        AfterAdds(t0, ms, |a|, k + 1);
      }
    }
  }

  lemma BlockLeft(left: nat, n: nat)
    requires Multiple(left, n) && left > 0
    ensures n <= left && Multiple(left - n, n)
  {
    MultipleIs(0, n, 0);
    MultipleGap(0, left, n);
    MultipleIs(n, n, 1);
    MultipleSum(left, n, n);
  }
}
