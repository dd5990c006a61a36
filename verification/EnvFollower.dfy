// The envelope follower env~ (src/d_ctl.c).  It reports, once per period, the power of the last npoints
// samples under a window.  Windows overlap, so up to 32 sums are being filled at once; every block adds
// its share to each of them, newest sample first.
module EnvFollower {
  import opened Arith

  const MAXOVERLAP: nat := 32
  const INITVSTAKEN: nat := 64

  // ----- specification -----

  /** Power of a history under weights w[s], w[s + 1], ..., the first for the newest sample. */
  function Power(w: seq<real>, xs: seq<real>, s: nat): real
    decreases |xs|
  {
    if xs == [] || s >= |w| then 0.0
    else w[s] * (xs[|xs| - 1] * xs[|xs| - 1]) + Power(w, xs[..|xs| - 1], s + 1)
  }

  ghost predicate ZeroFrom(w: seq<real>, npoints: nat) {
    forall i: nat :: npoints <= i < |w| ==> w[i] == 0.0
  }

  lemma {:induction false} PowerPastEnd(w: seq<real>, xs: seq<real>, s: nat, npoints: nat)
    requires ZeroFrom(w, npoints) && s >= npoints
    ensures Power(w, xs, s) == 0.0
    decreases |xs|
  {
    if xs != [] && s < |w| {
      PowerPastEnd(w, xs[..|xs| - 1], s + 1, npoints);
      assert w[s] == 0.0;
    }
  }

  /** Padding the window with zeros changes nothing. */
  lemma {:induction false} PowerPadded(w: seq<real>, v: seq<real>, xs: seq<real>, s: nat, npoints: nat)
    requires npoints <= |w| && npoints <= |v| && w[..npoints] == v[..npoints]
    requires ZeroFrom(w, npoints) && ZeroFrom(v, npoints)
    ensures Power(w, xs, s) == Power(v, xs, s)
    decreases |xs|
  {
    if s >= npoints {
      PowerPastEnd(w, xs, s, npoints);
      PowerPastEnd(v, xs, s, npoints);
    } else if xs != [] {
      assert w[s] == w[..npoints][s] == v[s];
      PowerPadded(w, v, xs[..|xs| - 1], s + 1, npoints);
    }
  }

  /** Sample k back from the newest carries weight w[k]; samples before the first count as zero. */
  lemma {:induction false} PowerTerms(w: seq<real>, xs: seq<real>, k: nat)
    requires k <= |xs| && k <= |w|
    ensures Power(w, xs, 0) == Terms(w, xs, k) + Power(w, xs[..|xs| - k], k)
  {
    if k == 0 {
      assert xs[..|xs|] == xs;
    } else {
      PowerTerms(w, xs, k - 1);
      assert xs[..|xs| - (k - 1)][..|xs| - k] == xs[..|xs| - k];
    }
  }

  /** The first k terms of the windowed sum, written out by index. */
  function Terms(w: seq<real>, xs: seq<real>, k: nat): real
    requires k <= |xs| && k <= |w|
  {
    if k == 0 then 0.0 else Terms(w, xs, k - 1) + w[k - 1] * (xs[|xs| - k] * xs[|xs| - k])
  }

  /** The report is the sum over k of window[k] * x[now - k]^2, k below the window and history lengths. */
  lemma PowerIsWindowedSum(w: seq<real>, xs: seq<real>, npoints: nat)
    requires npoints <= |w| && ZeroFrom(w, npoints)
    ensures Power(w, xs, 0) == Terms(w, xs, if npoints < |xs| then npoints else |xs|)
  {
    var k := if npoints < |xs| then npoints else |xs|;
    PowerTerms(w, xs, k);
    if k == npoints { PowerPastEnd(w, xs[..|xs| - k], k, npoints); }
  }

  /** So a click of height x that came k samples ago, in silence otherwise, counts window[k] times x squared. */
  lemma {:induction false} PowerOfClick(w: seq<real>, xs: seq<real>, s: nat, k: nat, x: real)
    requires k < |xs| && s + k < |w| && xs[|xs| - 1 - k] == x
    requires forall i: nat :: i < |xs| && i != |xs| - 1 - k ==> xs[i] == 0.0
    ensures Power(w, xs, s) == w[s + k] * (x * x)
    decreases |xs|
  {
    var ys := xs[..|xs| - 1];
    if k == 0 {
      PowerOfSilence(w, ys, s + 1);
    } else {
      PowerOfClick(w, ys, s + 1, k - 1, x);
      assert w[s] * (0.0 * 0.0) == 0.0;
    }
  }

  lemma {:induction false} PowerOfSilence(w: seq<real>, xs: seq<real>, s: nat)
    requires forall i: nat :: i < |xs| ==> xs[i] == 0.0
    ensures Power(w, xs, s) == 0.0
    decreases |xs|
  {
    if xs != [] && s < |w| {
      PowerOfSilence(w, xs[..|xs| - 1], s + 1);
      assert w[s] * (0.0 * 0.0) == 0.0;
    }
  }

  // ----- the sums in progress -----

  /** Slot j's place in its window: how far its next block is from the window's newest end. */
  function Count(phase: int, period: nat, j: nat): int {
    phase + j * period
  }

  /** Every slot whose window has begun holds the power of the history as seen from its place. */
  ghost predicate Sums(sums: seq<real>, w: seq<real>, xs: seq<real>, phase: int, period: nat, n: nat,
                       npoints: nat)
  {
    forall j: nat :: j < |sums| && 0 <= Count(phase, period, j) + n && Count(phase, period, j) < npoints ==>
      sums[j] == Power(w, xs, Count(phase, period, j) + n)
  }

  lemma CountStarts(phase: int, period: nat)
    ensures Count(phase, period, 0) == phase
  {
  }

  lemma CountShift(period: nat, j: nat)
    ensures Count(period, period, j) == Count(0, period, j + 1)
  {
    Apart(j, j + 1, period);
  }

  lemma Apart(i: int, j: int, p: int)
    requires p >= 0
    ensures j * p == i * p + (j - i) * p
    ensures i <= j ==> i * p <= j * p
    ensures i < j ==> i * p + p <= j * p
  {
    Spread(i, j - i, p);
    if i < j {
      Spread(1, j - i - 1, p);
      NotNegative(j - i - 1, p);
    }
    if i <= j { NotNegative(j - i, p); }
  }

  lemma Spread(a: int, b: int, p: int)
    ensures (a + b) * p == a * p + b * p
  {
  }

  lemma NotNegative(a: int, p: int)
    requires a >= 0 && p >= 0
    ensures a * p >= 0
  {
  }

  lemma CountGrows(phase: int, period: nat, i: nat, j: nat)
    requires i <= j
    ensures Count(phase, period, i) <= Count(phase, period, j)
    ensures i < j ==> Count(phase, period, i) + period <= Count(phase, period, j)
    ensures Count(phase, period, i) + period == Count(phase, period, i + 1)
  {
    Apart(i, j, period);
    Apart(i, i + 1, period);
  }

  /** The phase counts down to the next report, in whole blocks. */
  lemma PhaseMoves(k: nat, phase: nat, n: nat, period: nat)
    requires n > 0 && phase < period && Multiple(period, n) && Multiple(phase, n) && Multiple(k + phase, period)
    ensures n <= period && (phase == 0 <==> k % period == 0) && (phase > 0 ==> phase >= n)
    ensures var next := if phase == 0 then period - n else phase - n;
            0 <= next < period && Multiple(next, n) && Multiple(k + n + next, period)
  {
    MultipleIs(0, n, 0);
    MultipleIs(0, period, 0);
    MultipleGap(0, period, n);
    if phase > 0 {
      MultipleGap(0, phase, n);
      if k % period == 0 {
        MultipleSum(k + phase, k, period);
        MultipleGap(0, phase, period);
        assert false;
      }
    } else {
      MultipleIs(period, period, 1);
      MultipleSum(k, period, period);
    }
    MultipleIs(n, n, 1);
    MultipleSum(phase, n, n);
    MultipleSum(period, n, n);
  }

  /** At most 32 windows overlap, given the period the constructor enforces. */
  lemma OverlapBound(phase: nat, period: nat, npoints: nat, j: nat)
    requires period > npoints / MAXOVERLAP
    ensures Count(phase, period, j) < npoints ==> j < MAXOVERLAP
  {
    if j >= MAXOVERLAP {
      Apart(MAXOVERLAP, j, period);
    }
  }

  /** What one block does to the sums: the places move n nearer, and the powers take in the block. */
  ghost predicate Added(after: seq<real>, w: seq<real>, ys: seq<real>, phase: int, period: nat, upto: nat)
  {
    forall j: nat :: j < upto && j < |after| && 0 <= Count(phase, period, j) ==>
      after[j] == Power(w, ys, Count(phase, period, j))
  }

  lemma AddedStarts(after: seq<real>, w: seq<real>, ys: seq<real>, phase: int, period: nat)
    ensures Added(after, w, ys, phase, period, 0)
  {
  }

  lemma AddedGrows(after: seq<real>, w: seq<real>, ys: seq<real>, phase: int, period: nat, upto: nat, s: real)
    requires Added(after, w, ys, phase, period, upto) && upto < |after|
    requires Count(phase, period, upto) >= 0 && s == Power(w, ys, Count(phase, period, upto))
    ensures Added(after[upto := s], w, ys, phase, period, upto + 1)
  {
  }

  lemma AddedKept(after: seq<real>, w: seq<real>, ys: seq<real>, phase: int, period: nat, upto: nat, s: real)
    requires Added(after, w, ys, phase, period, upto) && upto < |after|
    ensures Added(after[upto := s], w, ys, phase, period, upto)
  {
  }

  lemma SumsAt(sums: seq<real>, w: seq<real>, xs: seq<real>, phase: int, period: nat, n: nat, npoints: nat, j: nat)
    requires Sums(sums, w, xs, phase, period, n, npoints)
    requires j < |sums| && 0 <= Count(phase, period, j) + n && Count(phase, period, j) < npoints
    ensures sums[j] == Power(w, xs, Count(phase, period, j) + n)
  {
  }

  lemma AddedIsSums(after: seq<real>, w: seq<real>, ys: seq<real>, phase: nat, period: nat, n: nat,
                    npoints: nat, last: nat)
    requires last < |after| && npoints <= Count(phase, period, last) && n <= period
    requires Added(after, w, ys, phase, period, last)
    requires after[last] == 0.0 && ZeroFrom(w, npoints)
    ensures Sums(after, w, ys, phase - n, period, n, npoints)
  {
    forall j: nat | j < |after| && 0 <= Count(phase - n, period, j) + n && Count(phase - n, period, j) < npoints
      ensures after[j] == Power(w, ys, Count(phase - n, period, j) + n)
    {
      assert Count(phase - n, period, j) + n == Count(phase, period, j);
      if j > last {
        CountGrows(phase, period, last, j);
        assert false;
      } else if j == last {
        PowerPastEnd(w, ys, Count(phase, period, j), npoints);
      }
    }
  }

  /** Moving every slot down one, at a report, is the same as moving the phase up a period. */
  lemma ShiftedIsSums(sums: seq<real>, after: seq<real>, w: seq<real>, ys: seq<real>, period: nat, n: nat,
                      npoints: nat, last: nat)
    requires |after| == |sums| && last < |sums| && npoints <= Count(period, period, last) && n <= period
    requires Sums(sums, w, ys, 0 - n as int, period, n, npoints) && ZeroFrom(w, npoints)
    requires forall j: nat :: j < last ==>
        j + 1 < |sums| && after[j] == sums[j + 1] && Count(period, period, j) < npoints
    requires after[last] == 0.0
    ensures Sums(after, w, ys, period - n, period, n, npoints)
  {
    forall j: nat | j < |after| && 0 <= Count(period - n, period, j) + n && Count(period - n, period, j) < npoints
      ensures after[j] == Power(w, ys, Count(period - n, period, j) + n)
    {
      assert Count(period - n, period, j) + n == Count(period, period, j);
      if j > last {
        CountGrows(period, period, last, j);
        assert false;
      } else if j == last {
        PowerPastEnd(w, ys, Count(period, period, j), npoints);
      } else {
        CountGrows(0 - n as int, period, j, j);
        assert sums[j + 1] == Power(w, ys, Count(0 - n as int, period, j + 1) + n);
        assert Count(0 - n as int, period, j + 1) == Count(period - n, period, j);
      }
    }
  }

  /** Before anything has been heard all sums are right, and zero. */
  lemma NothingSummed(sums: seq<real>, w: seq<real>, period: nat, n: nat, npoints: nat)
    requires n > 0 && period > 0 && forall j: nat :: j < |sums| ==> sums[j] == 0.0
    ensures Sums(sums, w, [], 0, period, n, npoints) && Multiple(0, n) && Multiple(0, period)
  {
    hide Count;
    MultipleIs(0, n, 0);
    MultipleIs(0, period, 0);
  }

  /** The newest sample's share of the power, and the rest. */
  lemma PowerNewest(w: seq<real>, xs: seq<real>, ys: seq<real>, fp: nat, s: nat)
    requires fp < |ys| && s < |w|
    ensures Power(w, xs + ys[..fp + 1], s) == w[s] * (ys[fp] * ys[fp]) + Power(w, xs + ys[..fp], s + 1)
  {
    var longer := xs + ys[..fp + 1];
    assert longer[..|longer| - 1] == xs + ys[..fp] && longer[|longer| - 1] == ys[fp];
  }

  /** All 32 windows are open. */
  predicate AllOpen(phase: nat, period: nat, npoints: nat) {
    Count(phase, period, MAXOVERLAP - 1) < npoints
  }

  /** The slot after the open windows is number 32 exactly if the 32nd window is open. */
  lemma SpareIff(phase: nat, period: nat, npoints: nat, last: nat)
    requires last <= MAXOVERLAP && npoints <= Count(phase, period, last)
    requires last > 0 ==> Count(phase, period, last - 1) < npoints
    ensures last == MAXOVERLAP <==> AllOpen(phase, period, npoints)
  {
    if last < MAXOVERLAP - 1 { CountGrows(phase, period, last, MAXOVERLAP - 1); }
  }

  /** Some phase opens them all exactly if 31 periods are shorter than the window; then a report's does. */
  lemma SpareEver(period: nat, npoints: nat)
    requires period > 0
    ensures (exists phase: nat :: phase < period && AllOpen(phase, period, npoints))
            <==> (MAXOVERLAP - 1) * period < npoints
    ensures (MAXOVERLAP - 1) * period < npoints <==> AllOpen(0, period, npoints)
  {
    assert AllOpen(0, period, npoints) <==> (MAXOVERLAP - 1) * period < npoints;
    if AllOpen(0, period, npoints) { assert 0 < period; }
    forall phase: nat | AllOpen(phase, period, npoints) ensures AllOpen(0, period, npoints) {
      assert Count(phase, period, MAXOVERLAP - 1) == phase + Count(0, period, MAXOVERLAP - 1);
    }
  }

  class Env {
    var buf: array<real>          // the window, and zeros past it for one block
    var sumbuf: array<real>       // sums in progress, and one slot past them
    var npoints: nat
    var period: nat
    var realperiod: nat
    var phase: int
    var result: real
    var allocforvs: nat
    ghost var hist: seq<real>

    /** Geometry of the object, whatever signal it has seen. */
    ghost predicate Shape()
      reads this, buf
    {
      && npoints > 0 && period > npoints / MAXOVERLAP
      && buf.Length == npoints + allocforvs && ZeroFrom(buf[..], npoints)
      && sumbuf.Length == MAXOVERLAP + 1 && sumbuf != buf
    }

    /** In the chain with blocks of n: each sum is the power of the history from its place. */
    ghost predicate Valid(n: nat)
      reads this, buf, sumbuf
    {
      && Shape() && 0 < n <= allocforvs
      && realperiod >= period && Multiple(realperiod, n)
      && 0 <= phase < realperiod && Multiple(phase, n)
      && Multiple(|hist| + phase, realperiod)
      && Sums(sumbuf[..], buf[..], hist, phase, realperiod, n, npoints)
    }

    constructor (points: int, reportEvery: int, window: nat -> real)
      ensures Shape() && fresh(buf) && fresh(sumbuf)
      ensures npoints == if points < 1 then 1024 else points
      ensures var asked := if reportEvery < 1 then npoints / 2 else reportEvery;
              period == if asked > npoints / MAXOVERLAP then asked else npoints / MAXOVERLAP + 1
      ensures forall i: nat :: i < npoints ==> buf[i] == window(i)
      ensures phase == 0 && hist == [] && forall j: nat :: j < sumbuf.Length ==> sumbuf[j] == 0.0
    {
      var np: nat := if points < 1 then 1024 else points;
      var p := if reportEvery < 1 then np / 2 else reportEvery;
      if p < np / MAXOVERLAP + 1 { p := np / MAXOVERLAP + 1; }
      var b := new real[np + INITVSTAKEN](i requires 0 <= i => if i < np then window(i) else 0.0);
      var s := new real[MAXOVERLAP + 1](_ => 0.0);
      buf, sumbuf, npoints, period, phase := b, s, np, p, 0;
      allocforvs, realperiod, result, hist := INITVSTAKEN, p, 0.0, [];
    }

    /** Joining a chain with blocks of n: the period becomes a whole number of blocks. */
    method Dsp(n: nat)
      requires Shape() && n > 0
      modifies this`realperiod, this`buf, this`allocforvs
      ensures Shape() && n <= allocforvs
      ensures period <= realperiod < period + n && Multiple(realperiod, n)
      ensures buf[..npoints] == old(buf[..npoints])
      ensures phase == 0 && hist == [] && (forall j: nat :: j < sumbuf.Length ==> sumbuf[j] == 0.0) ==> Valid(n)
      ensures old(Valid(n)) && old(realperiod) < period + n ==> Valid(n)
    {
      hide Sums, ZeroFrom, Multiple;
      ghost var kept := Valid(n) && realperiod < period + n;
      RoundedUp(period, n);
      if kept { MultipleClose(realperiod, if period % n != 0 then period + n - period % n else period, n); }
      if period % n != 0 {
        realperiod := period + n - period % n;
      } else {
        realperiod := period;
      }
      if n > allocforvs { Pad(n); }
      if phase == 0 && hist == [] && forall j: nat :: j < sumbuf.Length ==> sumbuf[j] == 0.0 {
        NothingSummed(sumbuf[..], buf[..], realperiod, n, npoints);
      }
    }

    /** More zeros behind the window. */
    method Pad(n: nat)
      requires Shape() && n > allocforvs
      modifies this`buf, this`allocforvs
      ensures Shape() && allocforvs == n && buf[..npoints] == old(buf[..npoints])
    {
      var was := buf;
      var b := new real[npoints + n](i requires 0 <= i reads was => if i < was.Length then was[i] else 0.0);
      buf := b;
      allocforvs := n;
      assert buf[..npoints] == was[..npoints];
    }

    static lemma RoundedUp(p: nat, n: nat)
      requires n > 0
      ensures 0 <= p % n < n
      ensures p % n == 0 ==> Multiple(p, n)
      ensures p % n != 0 ==> Multiple(p + n - p % n, n)
    {
      DivMod(p, n);
      if p % n != 0 {
        assert p + n - p % n == (p / n + 1) * n;
        MultipleIs(p + n - p % n, n, p / n + 1);
      }
    }

    static lemma MultipleClose(a: int, b: int, n: int)
      requires Multiple(a, n) && Multiple(b, n) && -n < a - b < n
      ensures a == b
    {
      hide Multiple;
      if a > b { MultipleGap(b, a, n); } else if b > a { MultipleGap(a, b, n); }
    }

    /** One slot's share of one block, newest sample first. */
    method AddBlock(in_: array<real>, hp: nat, before: real, ghost xs: seq<real>) returns (sum: real)
      requires buf.Length >= hp + in_.Length
      requires before == Power(buf[..], xs, hp + in_.Length)
      ensures sum == Power(buf[..], xs + in_[..], hp)
    {
      hide Power;
      var n := in_.Length;
      sum := before;
      var fp, i := n, 0;
      ghost var whole := Power(buf[..], xs + in_[..], hp);
      assert in_[..n] == in_[..];
      while i < n
        invariant 0 <= i <= n && fp == n - i
        invariant sum + Power(buf[..], xs + in_[..fp], hp + i) == whole + before
      {
        fp := fp - 1;
        PowerNewest(buf[..], xs, in_[..], fp, hp + i);
        assert in_[..][..fp + 1] == in_[..fp + 1] && in_[..][..fp] == in_[..fp];
        sum := sum + buf[hp + i] * (in_[fp] * in_[fp]);
        i := i + 1;
      }
      assert xs + in_[..0] == xs;
    }

    /**
     * First half of perform: the block is added to every open window, and the slot after them cleared.  That
     * slot is the spare one, past the source's buffer, exactly when 32 windows are open.
     */
    method AddToAll(in_: array<real>) returns (ghost last: nat)
      requires Valid(in_.Length) && in_ != sumbuf
      modifies sumbuf
      ensures last <= MAXOVERLAP && sumbuf[last] == 0.0
      ensures forall j: nat :: last < j < sumbuf.Length ==> sumbuf[j] == old(sumbuf[j])
      ensures phase >= 0 && (last == MAXOVERLAP <==> AllOpen(phase, realperiod, npoints))
      ensures Sums(sumbuf[..], buf[..], hist + in_[..], phase - in_.Length, realperiod, in_.Length, npoints)
    {
      hide Sums, Added, Power, ZeroFrom, Multiple, Count, AllOpen;
      var n := in_.Length;
      PhaseMoves(|hist|, phase, n, realperiod);
      CountStarts(phase, realperiod);
      var count, sump: nat := phase, 0;
      ghost var ys, was := hist + in_[..], sumbuf[..];
      AddedStarts(was, buf[..], ys, phase, realperiod);
      while count < npoints
        invariant count == Count(phase, realperiod, sump) && phase <= count
        invariant sump <= MAXOVERLAP && (sump > 0 ==> Count(phase, realperiod, sump - 1) < npoints)
        invariant Added(sumbuf[..], buf[..], ys, phase, realperiod, sump)
        invariant sumbuf[sump..] == was[sump..]
        decreases npoints - count
        modifies sumbuf
      {
        OverlapBound(phase, realperiod, npoints, sump);
        SumsAt(was, buf[..], hist, phase, realperiod, n, npoints, sump);
        assert sumbuf[sump] == sumbuf[sump..][0] == was[sump..][0] == was[sump];
        var s := AddBlock(in_, count, sumbuf[sump], hist);
        AddedGrows(sumbuf[..], buf[..], ys, phase, realperiod, sump, s);
        assert sumbuf[sump + 1..] == was[sump + 1..] by {
          assert sumbuf[sump + 1..] == sumbuf[sump..][1..];
          assert was[sump + 1..] == was[sump..][1..];
        }
        sumbuf[sump] := s;
        CountGrows(phase, realperiod, sump, sump);
        count := count + realperiod;
        sump := sump + 1;
        OverlapBound(phase, realperiod, npoints, sump - 1);
      }
      AddedKept(sumbuf[..], buf[..], ys, phase, realperiod, sump, 0.0);
      last := sump;
      SpareIff(phase, realperiod, npoints, last);
      assert forall j: nat :: last < j < sumbuf.Length ==>
          sumbuf[j] == sumbuf[last..][j - last] == was[last..][j - last];
      sumbuf[sump] := 0.0;
      AddedIsSums(sumbuf[..], buf[..], ys, phase, realperiod, n, npoints, sump);
    }

    /** Second half, at a report: every open window moves down one slot. */
    method ShiftDown(ghost n: nat)
      requires Shape() && 0 < n <= realperiod && realperiod >= period
      requires Sums(sumbuf[..], buf[..], hist, 0 - n, realperiod, n, npoints)
      modifies sumbuf
      ensures Sums(sumbuf[..], buf[..], hist, realperiod - n, realperiod, n, npoints)
    {
      hide Sums, Power, ZeroFrom, Count;
      CountStarts(realperiod, realperiod);
      var count, sump: nat := realperiod, 0;
      ghost var sums := sumbuf[..];
      while count < npoints
        invariant count == Count(realperiod, realperiod, sump) && sump < MAXOVERLAP
        invariant forall j: nat :: j < sump ==> sumbuf[j] == sums[j + 1] && Count(realperiod, realperiod, j) < npoints
        invariant forall j: nat :: sump <= j < sumbuf.Length ==> sumbuf[j] == sums[j]
        decreases npoints - count
        modifies sumbuf
      {
        CountShift(realperiod, sump);
        OverlapBound(0, realperiod, npoints, sump + 1);
        CountGrows(realperiod, realperiod, sump, sump);
        sumbuf[sump] := sumbuf[sump + 1];
        count := count + realperiod;
        sump := sump + 1;
      }
      sumbuf[sump] := 0.0;
      ShiftedIsSums(sums, sumbuf[..], buf[..], hist, realperiod, n, npoints, sump);
    }

    /**
     * One block.  A report falls due exactly when the number of samples seen before it is a multiple of the
     * period, and then it is the windowed power of the whole history, direct.
     */
    method Perform(in_: array<real>) returns (report: bool)
      requires Valid(in_.Length) && in_ != sumbuf
      modifies this`hist, this`phase, this`result, sumbuf
      ensures Valid(in_.Length) && hist == old(hist) + in_[..]
      ensures report <==> |old(hist)| % realperiod == 0
      ensures report ==> result == Power(buf[..], hist, 0)
      ensures !report ==> result == old(result)
    {
      hide Sums, Power, ZeroFrom, Multiple;
      var n := in_.Length;
      PhaseMoves(|hist|, phase, n, realperiod);
      ghost var last := AddToAll(in_);
      report := false;
      hist := hist + in_[..];
      phase := phase - n;
      if phase < 0 {
        SumsAt(sumbuf[..], buf[..], hist, phase, realperiod, n, npoints, 0);
        result := sumbuf[0];
        ShiftDown(n);
        phase := realperiod - n;
        report := true;
      }
    }
  }

  /** An object that clears the slot past the source's buffer: a window of 2000 samples, reports every 64. */
  method SpareExample(window: nat -> real, in_: array<real>) returns (x: Env, ghost last: nat)
    requires in_.Length == 64
    ensures fresh(x) && x.npoints == 2000 && x.realperiod == 64 && last == MAXOVERLAP
    ensures x.sumbuf.Length == MAXOVERLAP + 1 && x.sumbuf[last] == 0.0
  {
    x := new Env(2000, 64, window);
    x.Dsp(64);
    Env.RoundedUp(64, 64);
    Env.MultipleClose(x.realperiod, 64, 64);
    SpareEver(64, 2000);
    last := x.AddToAll(in_);
  }
}
