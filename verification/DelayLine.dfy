// The delay ring shared by delwrite~, delread~ and delread4~ (src/d_delay.c).
//
// delwrite~ owns `n + 4` samples.  Samples 4 .. n+3 are the ring; samples 0 .. 3 repeat the last four,
// so that a reader may look three samples behind any ring position without testing for the wrap.
// The specification is the whole history of samples written: what a reader sees is history, delayed.
module DelayLine {

  const XTRASAMPS: nat := 4
  const SAMPBLK: nat := 4
  const DEFDELVS: nat := 64

  // ----- specification: history and its image in the ring -----

  /** The sample written at time j; everything before the first sample is silence. */
  function Past(hist: seq<real>, j: int): real {
    if 0 <= j < |hist| then hist[j] else 0.0
  }

  /** Which moment of history ring position p holds, when the next write goes to `phase`. */
  function Moment(n: nat, phase: nat, k: nat, p: nat): int {
    if p < phase then k - (phase - p) else k - (phase - p) - n
  }

  /** The ring `vec`, next written at `phase`, holds the last n samples of `hist` and the margin. */
  ghost predicate Tracks(vec: seq<real>, n: nat, phase: nat, hist: seq<real>) {
    && n >= XTRASAMPS
    && |vec| == n + XTRASAMPS
    && XTRASAMPS <= phase < n + XTRASAMPS
    && forall p: nat :: p < |vec| ==> vec[p] == Past(hist, Moment(n, phase, |hist|, p))
  }

  /** One written sample: store, and at the end of the ring refresh the margin and go back to 4. */
  function PushVec(vec: seq<real>, n: nat, phase: nat, f: real): seq<real>
    requires n >= XTRASAMPS && |vec| == n + XTRASAMPS && phase < |vec|
  {
    var v := vec[phase := f];
    if phase + 1 == n + XTRASAMPS then [v[n], v[n + 1], v[n + 2], v[n + 3]] + v[4..] else v
  }

  function PushPhase(n: nat, phase: nat): nat {
    if phase + 1 == n + XTRASAMPS then XTRASAMPS else phase + 1
  }

  lemma PushVecAt(vec: seq<real>, n: nat, phase: nat, f: real, p: nat)
    requires n >= XTRASAMPS && |vec| == n + XTRASAMPS && XTRASAMPS <= phase < |vec| && p < |vec|
    ensures |PushVec(vec, n, phase, f)| == |vec|
    ensures PushVec(vec, n, phase, f)[p]
            == var q := if phase + 1 == n + XTRASAMPS && p < XTRASAMPS then n + p else p;
               if q == phase then f else vec[q]
  {
  }

  lemma PushTracks(vec: seq<real>, n: nat, phase: nat, hist: seq<real>, f: real)
    requires Tracks(vec, n, phase, hist)
    ensures Tracks(PushVec(vec, n, phase, f), n, PushPhase(n, phase), hist + [f])
  {
    var w, q, h := PushVec(vec, n, phase, f), PushPhase(n, phase), hist + [f];
    PushVecAt(vec, n, phase, f, 0);
    forall p: nat | p < |w| ensures w[p] == Past(h, Moment(n, q, |h|, p)) {
      hide PushVec;
      PushVecAt(vec, n, phase, f, p);
      var o: nat := if phase + 1 == n + XTRASAMPS && p < XTRASAMPS then n + p else p;
      assert vec[o] == Past(hist, Moment(n, phase, |hist|, o));
    }
  }

  lemma TracksShape(vec: seq<real>, n: nat, phase: nat, hist: seq<real>)
    requires Tracks(vec, n, phase, hist)
    ensures n >= XTRASAMPS && |vec| == n + XTRASAMPS && XTRASAMPS <= phase < n + XTRASAMPS
  {
  }

  lemma PushVecIs(vec: seq<real>, w: seq<real>, n: nat, phase: nat, f: real)
    requires n >= XTRASAMPS && |vec| == n + XTRASAMPS == |w| && XTRASAMPS <= phase < |vec|
    requires var v := vec[phase := f];
             if phase + 1 == n + XTRASAMPS then w == v[0 := v[n]][1 := v[n + 1]][2 := v[n + 2]][3 := v[n + 3]]
             else w == v
    ensures w == PushVec(vec, n, phase, f)
  {
  }

  /** A silent ring holds the empty history, wherever its phase is. */
  lemma SilenceTracks(vec: seq<real>, n: nat, phase: nat)
    requires n >= XTRASAMPS && |vec| == n + XTRASAMPS && XTRASAMPS <= phase < n + XTRASAMPS
    ensures Tracks(vec, n, phase, []) <==> forall p: nat :: p < |vec| ==> vec[p] == 0.0
  {
    forall p: nat | p < |vec|
      ensures vec[p] == Past([], Moment(n, phase, 0, p)) <==> vec[p] == 0.0
    {
      assert Past([], Moment(n, phase, 0, p)) == 0.0;
    }
    if Tracks(vec, n, phase, []) {
      forall p: nat | p < |vec| ensures vec[p] == 0.0 {
        assert vec[p] == Past([], Moment(n, phase, 0, p));
      }
    }
  }

  // ----- the three readers' address arithmetic, on values -----

  /** Where a read `delsamps` behind the write point starts (delread~). */
  function ReadStart(n: nat, phase: nat, delsamps: nat): int {
    if phase - delsamps < 0 then phase - delsamps + n else phase - delsamps
  }

  /** Where delread4~ puts its first tap: it moves up a lap already inside the margin. */
  function TapStart(n: nat, phase: nat, idelsamps: nat): int {
    if phase - idelsamps < XTRASAMPS then phase - idelsamps + n else phase - idelsamps
  }

  lemma ReadStartIs(vec: seq<real>, n: nat, phase: nat, hist: seq<real>, delsamps: nat)
    requires Tracks(vec, n, phase, hist) && 1 <= delsamps <= n
    ensures 0 <= ReadStart(n, phase, delsamps) < n + XTRASAMPS
    ensures vec[ReadStart(n, phase, delsamps)] == Past(hist, |hist| - delsamps)
  {
    var p: nat := ReadStart(n, phase, delsamps);
    assert vec[p] == Past(hist, Moment(n, phase, |hist|, p));
  }

  /** What history had at tap j of a read idelsamps back, wherever in the ring that falls. */
  function Tapped(hist: seq<real>, n: nat, phase: nat, idelsamps: nat, j: nat): real {
    var t := TapStart(n, phase, idelsamps) - j;
    if t >= 0 then Past(hist, Moment(n, phase, |hist|, t)) else 0.0
  }

  lemma TapsAre(vec: seq<real>, n: nat, phase: nat, hist: seq<real>, idelsamps: nat)
    requires Tracks(vec, n, phase, hist) && idelsamps < n
    ensures var t := TapStart(n, phase, idelsamps);
      && 3 <= t < |vec|
      && vec[t] == Tapped(hist, n, phase, idelsamps, 0) && vec[t - 1] == Tapped(hist, n, phase, idelsamps, 1)
      && vec[t - 2] == Tapped(hist, n, phase, idelsamps, 2) && vec[t - 3] == Tapped(hist, n, phase, idelsamps, 3)
  {
  }

  /** The four taps read from ring position t downward are history from `idelsamps` ago backward. */
  ghost predicate TapsRight(vec: seq<real>, n: nat, phase: nat, hist: seq<real>, idelsamps: nat) {
    var t := TapStart(n, phase, idelsamps);
    && 3 <= t < |vec|
    && vec[t] == Past(hist, |hist| - idelsamps)
    && vec[t - 1] == Past(hist, |hist| - idelsamps - 1)
    && vec[t - 2] == Past(hist, |hist| - idelsamps - 2)
    && vec[t - 3] == Past(hist, |hist| - idelsamps - 3)
  }

  /** The oldest tap is still in the ring. */
  predicate InReach(n: nat, phase: nat, idelsamps: nat) {
    phase - idelsamps >= XTRASAMPS || idelsamps + 3 <= n
  }

  /**
   * The four taps of delread4~ are four consecutive samples of history whenever the oldest of them
   * is still in the ring, across the wrap and through the margin alike.
   */
  lemma TapsConsecutive(vec: seq<real>, n: nat, phase: nat, hist: seq<real>, idelsamps: nat)
    requires Tracks(vec, n, phase, hist) && 1 <= idelsamps < n
    ensures InReach(n, phase, idelsamps) ==> TapsRight(vec, n, phase, hist, idelsamps)
  {
    if InReach(n, phase, idelsamps) {
      var t: nat, k := TapStart(n, phase, idelsamps), |hist|;
      assert vec[t] == Past(hist, Moment(n, phase, k, t));
      assert vec[t - 1] == Past(hist, Moment(n, phase, k, t - 1));
      assert vec[t - 2] == Past(hist, Moment(n, phase, k, t - 2));
      assert vec[t - 3] == Past(hist, Moment(n, phase, k, t - 3));
    }
  }

  /**
   * Past that length the claim fails: after the lap is taken up and idelsamps + j > n, tap j has run
   * into the newest samples, a whole lap too late.
   */
  lemma TapsRunIntoNewest(vec: seq<real>, n: nat, phase: nat, hist: seq<real>, idelsamps: nat, j: nat)
    requires Tracks(vec, n, phase, hist) && 1 <= idelsamps < n && j < 4
    requires phase - idelsamps < XTRASAMPS && idelsamps + j > n
    ensures TapStart(n, phase, idelsamps) - j >= 0
    ensures vec[TapStart(n, phase, idelsamps) - j] == Past(hist, |hist| - idelsamps - j + n)
  {
    var q: nat := TapStart(n, phase, idelsamps) - j;
    assert vec[q] == Past(hist, Moment(n, phase, |hist|, q));
  }

  /** The exact condition: the four taps are right for every history iff the oldest is in reach. */
  lemma TapsRightIff(n: nat, phase: nat, idelsamps: nat)
    requires n >= XTRASAMPS && XTRASAMPS <= phase < n + XTRASAMPS && 1 <= idelsamps < n
    ensures (forall vec: seq<real>, hist: seq<real> ::
               Tracks(vec, n, phase, hist) ==> TapsRight(vec, n, phase, hist, idelsamps))
            <==> InReach(n, phase, idelsamps)
  {
    if InReach(n, phase, idelsamps) {
      forall vec: seq<real>, hist: seq<real> | Tracks(vec, n, phase, hist)
        ensures TapsRight(vec, n, phase, hist, idelsamps)
      {
        TapsConsecutive(vec, n, phase, hist, idelsamps);
      }
    } else {
      var hist := seq(2 * n, i requires 0 <= i => i as real);
      var vec := seq(n + XTRASAMPS, p requires 0 <= p => Past(hist, Moment(n, phase, |hist|, p)));
      assert Tracks(vec, n, phase, hist);
      TapsRunIntoNewest(vec, n, phase, hist, idelsamps, 3);
      assert !TapsRight(vec, n, phase, hist, idelsamps);
    }
  }

  // ----- integer delays -----

  /** C's conversion from a float to an int: toward zero. */
  function Trunc(x: real): (r: int)
    ensures x >= 0.0 ==> r as real <= x < r as real + 1.0
    ensures x <= 0.0 ==> r as real - 1.0 < x <= r as real
  {
    if x >= 0.0 then x.Floor else -((-x).Floor)
  }

  function Sample(f: real, bigOrSmall: real -> bool): real {
    if bigOrSmall(f) then 0.0 else f
  }

  function Samples(xs: seq<real>, bigOrSmall: real -> bool): (r: seq<real>)
    ensures |r| == |xs|
  {
    if xs == [] then [] else Samples(xs[..|xs| - 1], bigOrSmall) + [Sample(xs[|xs| - 1], bigOrSmall)]
  }

  class DelWrite {
    var cVec: array<real>
    var cN: nat
    var cPhase: nat
    ghost var hist: seq<real>

    ghost predicate Valid()
      reads this, cVec
    {
      cN > 0 ==> Tracks(cVec[..], cN, cPhase, hist)
    }

    /** A new delwrite~: no ring yet, only the margin. */
    constructor ()
      ensures Valid() && fresh(cVec)
      ensures cN == 0 && hist == [] && cVec[..] == [0.0, 0.0, 0.0, 0.0]
    {
      cN, cPhase, hist := 0, 0, [];
      cVec := new real[XTRASAMPS](_ => 0.0);
    }

    /** The ring length for a delay time: at least one sample, rounded up to blocks of four, and 64 more. */
    static function RingLength(deltime: real, sr: real): (r: nat)
      ensures r % SAMPBLK == 0 && r > DEFDELVS
      ensures Trunc(deltime * sr * 0.001) + DEFDELVS <= r
      ensures r < DEFDELVS + SAMPBLK + (if Trunc(deltime * sr * 0.001) < 1 then 1 else Trunc(deltime * sr * 0.001))
    {
      var t := Trunc(deltime * sr * 0.001);
      var s := if t < 1 then 1 else t;
      s + (-s) % SAMPBLK + DEFDELVS
    }

    /**
     * Resizes the ring when the sample rate asks for another length.  The old samples stay where they
     * were, so the ring holds a history again only if it was silent.
     */
    method UpdateSr(deltime: real, sr: real)
      requires cVec.Length == cN + XTRASAMPS
      modifies this
      ensures cN == RingLength(deltime, sr) && cVec.Length == cN + XTRASAMPS
      ensures cN == old(cN) ==> cVec == old(cVec) && cPhase == old(cPhase) && hist == old(hist)
      ensures cN == old(cN) ==> cVec[..] == old(cVec[..])
      ensures cN != old(cN) ==> fresh(cVec) && cPhase == XTRASAMPS && hist == []
      ensures cN != old(cN) ==> forall p: nat :: p < cVec.Length ==>
                                  cVec[p] == if p < old(cVec.Length) then old(cVec[p]) else 0.0
      ensures cN != old(cN) && (forall p: nat :: p < old(cVec.Length) ==> old(cVec[p]) == 0.0) ==> Valid()
    {
      var nsamps := RingLength(deltime, sr);
      if cN != nsamps {
        var was := cVec;
        var bigger := new real[nsamps + XTRASAMPS]
          (p requires 0 <= p reads was => if p < was.Length then was[p] else 0.0);
        cVec, cN, cPhase := bigger, nsamps, XTRASAMPS;
        hist := [];
        SilenceTracks(cVec[..], cN, cPhase);
      }
    }

    /** The `clear` message: silence, as if nothing had ever been written. */
    method Clear()
      requires cVec.Length == cN + XTRASAMPS
      requires cN > 0 ==> cN >= XTRASAMPS && XTRASAMPS <= cPhase < cN + XTRASAMPS
      modifies this`hist, cVec
      ensures Valid()
      ensures cN > 0 ==> hist == [] && forall p: nat :: p < cVec.Length ==> cVec[p] == 0.0
      ensures cN == 0 ==> hist == old(hist) && cVec[..] == old(cVec[..])
    {
      if cN > 0 {
        forall p | 0 <= p < cVec.Length { cVec[p] := 0.0; }
        hist := [];
        SilenceTracks(cVec[..], cN, cPhase);
      }
    }

    /** One block written: the history grows by the block. */
    method Perform(in_: array<real>, bigOrSmall: real -> bool)
      requires cN > 0 && Valid() && in_ != cVec
      modifies this`cPhase, this`hist, cVec
      ensures Valid() && hist == old(hist) + Samples(in_[..], bigOrSmall)
    {
      hide Tracks, Past, Moment, PushVec;
      TracksShape(cVec[..], cN, cPhase, hist);
      var n, phase, nsamps, bp, ep := in_.Length, cPhase, cN, cPhase, cN + XTRASAMPS;
      phase := phase + n;
      var i := 0;
      ghost var h0 := hist;
      assert h0 + Samples(in_[..0], bigOrSmall) == h0;
      while n > 0
        invariant 0 <= n <= in_.Length && i == in_.Length - n
        invariant XTRASAMPS <= bp < ep && Tracks(cVec[..], cN, bp, hist) && hist == h0 + Samples(in_[..i], bigOrSmall)
        invariant phase == bp + n
      {
        n := n - 1;
        var f := in_[i];
        if bigOrSmall(f) { f := 0.0; }
        ghost var vec, b := cVec[..], bp;
        cVec[bp] := f;
        bp := bp + 1;
        if bp == ep {
          cVec[0] := cVec[ep - 4];
          cVec[1] := cVec[ep - 3];
          cVec[2] := cVec[ep - 2];
          cVec[3] := cVec[ep - 1];
          bp := XTRASAMPS;
          phase := phase - nsamps;
        }
        PushVecIs(vec, cVec[..], cN, b, f);
        PushTracks(vec, cN, b, hist, f);
        hist := hist + [f];
        assert in_[..i + 1][..i] == in_[..i];
        i := i + 1;
      }
      assert in_[..i] == in_[..];
      cPhase := phase;
    }
  }

  class DelRead {
    var deltime: real
    var delsamps: int
    var sr: real        // samples per millisecond
    var n: nat          // block size
    var zerodel: nat    // 0 if the writer comes earlier in the chain, else the block size

    /** The delay, in samples, that a delread~ is asked for: the nearest number to it. */
    function Asked(): (a: int)
      reads this
      ensures sr * deltime >= 0.0 ==> a as real - 0.5 <= sr * deltime < a as real + 0.5
    {
      Trunc(0.5 + sr * deltime)
    }

    constructor ()
      ensures sr == 1.0 && n == 1 && zerodel == 0
    {
      sr, n, zerodel, deltime, delsamps := 1.0, 1, 0, 0.0, 0;
    }

    /** A float message sets the delay, clamped to at least one block and at most the ring. */
    method Float(f: real, writer: DelWrite)
      modifies this`deltime, this`delsamps
      ensures deltime == f
      ensures n <= writer.cN ==> n <= delsamps <= writer.cN
      ensures n > writer.cN ==> delsamps == if Asked() < zerodel then n else writer.cN
      ensures Asked() + n - zerodel <= writer.cN ==>
                delsamps - n + zerodel == if Asked() < zerodel then zerodel else Asked()
      ensures n <= writer.cN < Asked() + n - zerodel ==> delsamps == writer.cN
    {
      hide Trunc;
      deltime := f;
      delsamps := Trunc(0.5 + sr * deltime) + n - zerodel;
      assert delsamps == Asked() + n - zerodel;
      if delsamps < n {
        delsamps := n;
      } else if delsamps > writer.cN {
        delsamps := writer.cN;
      }
    }

    /** The dsp routine: the writer's ring gets its length, and the delay is worked out again. */
    method Dsp(rate: real, blockSize: nat, writerFirst: bool, writer: DelWrite, writerTime: real)
      requires writer.cVec.Length == writer.cN + XTRASAMPS
      modifies this, writer
      ensures n == blockSize && sr == rate * 0.001 && deltime == old(deltime)
      ensures zerodel == if writerFirst then 0 else blockSize
      ensures writer.cN == DelWrite.RingLength(writerTime, rate)
      ensures n <= writer.cN ==> n <= delsamps <= writer.cN
      ensures Asked() + n - zerodel <= writer.cN ==>
                delsamps - n + zerodel == if Asked() < zerodel then zerodel else Asked()
    {
      sr, n := rate * 0.001, blockSize;
      writer.UpdateSr(writerTime, rate);
      zerodel := if writerFirst then 0 else blockSize;
      Float(deltime, writer);
    }

    /** One block read: history, delsamps behind the end of what has been written. */
    method Perform(out: array<real>, c: DelWrite)
      requires c.cN > 0 && c.Valid() && out != c.cVec
      requires out.Length <= delsamps <= c.cN
      modifies out
      ensures forall i: nat :: i < out.Length ==> out[i] == Past(c.hist, |c.hist| - delsamps + i)
    {
      var n, phase, nsamps, ep := out.Length, c.cPhase - delsamps, c.cN, c.cN + XTRASAMPS;
      if phase < 0 { phase := phase + nsamps; }
      var bp, i := phase, 0;
      assert 0 < n ==> bp == ReadStart(nsamps, c.cPhase, delsamps);
      while n > 0
        invariant 0 <= n <= out.Length && i == out.Length - n
        invariant n > 0 ==> bp == ReadStart(nsamps, c.cPhase, delsamps - i)
                            || (bp == ReadStart(nsamps, c.cPhase, delsamps - i) + nsamps && bp < ep)
                            || (bp == ReadStart(nsamps, c.cPhase, delsamps - i) - nsamps && bp >= XTRASAMPS)
        invariant forall j: nat :: j < i ==> out[j] == Past(c.hist, |c.hist| - delsamps + j)
      {
        n := n - 1;
        var p: nat := bp;
        assert c.cVec[..][p] == Past(c.hist, Moment(nsamps, c.cPhase, |c.hist|, p));
        out[i] := c.cVec[bp];
        bp := bp + 1;
        i := i + 1;
        if bp == ep { bp := bp - nsamps; }
      }
    }
  }
  // ----- fractional delays -----

  /** Four-point interpolation between b (frac == 0) and c (frac == 1). */
  function Interpolate(a: real, b: real, c: real, d: real, frac: real): real {
    var cminusb := c - b;
    b + frac * (cminusb - 0.1666667 * (1.0 - frac) * ((d - a - 3.0 * cminusb) * frac + (d + 2.0 * a - 3.0 * b)))
  }

  /** On a straight line the interpolation is exact. */
  lemma InterpolateLine(v: real, slope: real, frac: real)
    ensures Interpolate(v + slope, v, v - slope, v - 2.0 * slope, frac) == v - frac * slope
  {
    var a, b, c, d := v + slope, v, v - slope, v - 2.0 * slope;
    assert (d - a - 3.0 * (c - b)) == 0.0 && d + 2.0 * a - 3.0 * b == 0.0;
    assert (d - a - 3.0 * (c - b)) * frac == 0.0;
  }

  /**
   * The blend is the cubic through the four taps -- a at -1, b at 0, c at 1, d at 2 -- taken at frac, tap by tap, up to
   * what seven digits of 1/6 leave over.
   */
  lemma InterpolateCubic(a: real, b: real, c: real, d: real, frac: real)
    ensures Interpolate(a, b, c, d, frac)
            == -(frac * (1.0 - frac) * (2.0 - frac)) / 6.0 * a
               + (1.0 + frac) * (1.0 - frac) * (2.0 - frac) / 2.0 * b
               + (1.0 + frac) * frac * (2.0 - frac) / 2.0 * c
               - (1.0 + frac) * frac * (1.0 - frac) / 6.0 * d
               - (0.1666667 - 1.0 / 6.0) * frac * (1.0 - frac)
                 * ((2.0 - frac) * a - 3.0 * (1.0 - frac) * b - 3.0 * frac * c + (1.0 + frac) * d)
  {
  }

  /** So a signal that is a cubic around the wanted moment is met there, but for the same rest. */
  lemma InterpolatePolynomial(p0: real, p1: real, p2: real, p3: real, frac: real)
    ensures Interpolate(p0 - p1 + p2 - p3, p0, p0 + p1 + p2 + p3, p0 + 2.0 * p1 + 4.0 * p2 + 8.0 * p3, frac)
            == p0 + p1 * frac + p2 * frac * frac + p3 * frac * frac * frac
               - (0.1666667 - 1.0 / 6.0) * frac * (1.0 - frac) * (6.0 * p2 + 6.0 * p3 * (1.0 + frac))
  {
  }

  class DelRead4 {
    var sr: real        // samples per millisecond
    var zerodel: nat    // 0 if the writer comes earlier in the chain, else the block size

    constructor ()
      ensures sr == 1.0 && zerodel == 0
    {
      sr, zerodel := 1.0, 0;
    }

    /** Put on the chain: the sample rate, and on which side of the writer it is. */
    method Dsp(blockSize: nat, rate: real, writerFirst: bool)
      modifies this
      ensures sr == rate * 0.001 && zerodel == if writerFirst then 0 else blockSize
    {
      sr := rate * 0.001;
      zerodel := if writerFirst then 0 else blockSize;
    }

    /** The delay behind the end of the block, in samples: at least a little over one, at most `limit`. */
    static function Clamp(delsamps: real, limit: int): real {
      var d := if delsamps >= 1.00001 then delsamps else 1.00001;
      if d > limit as real then limit as real else d
    }

    /** What output sample i of a block of n is read at, in samples behind the write point. */
    function Behind(ms: real, limit: int, n: nat, i: nat): real
      reads this`sr, this`zerodel
    {
      Clamp(sr * ms - zerodel as real, limit) + (n - 1 - i) as real
    }

    /**
     * One block: each input sample gives a delay in milliseconds, each output is four taps blended.  Input and
     * output may share a buffer.
     */
    method Perform(in_: array<real>, out: array<real>, ctl: DelWrite)
      requires ctl.cN > 0 && ctl.Valid() && out != ctl.cVec && in_ != ctl.cVec
      requires in_.Length == out.Length
      modifies out
      ensures out.Length > ctl.cN ==> forall i: nat :: i < out.Length ==> out[i] == 0.0
      ensures out.Length <= ctl.cN ==>
                Taps(old(in_[..]), out[..], ctl.hist, ctl.cN, ctl.cPhase, out.Length)
      ensures out.Length <= ctl.cN ==>
                forall i: nat :: i < out.Length ==>
                  OnCubic(old(in_[i]), out[i], ctl.hist, ctl.cN, ctl.cPhase, out.Length, i)
    {
      hide Tracks, Past, Tap, Taps, OnCubic, DelWrite.Valid;
      ghost var ins := in_[..];
      var n, nsamps := out.Length, ctl.cN;
      var limit := nsamps - n;
      if limit < 0 {
        Silence(out);
      } else {
        Read(in_, out, ctl, limit);
        TapsOnCubic(ins, out[..], ctl.hist, ctl.cN, ctl.cPhase, out.Length);
      }
    }

    /** A block within the ring, sample by sample. */
    method Read(in_: array<real>, out: array<real>, ctl: DelWrite, limit: int)
      requires ctl.cN > 0 && ctl.Valid() && out != ctl.cVec && in_ != ctl.cVec
      requires in_.Length == out.Length && 0 <= limit == ctl.cN - out.Length
      modifies out
      ensures Taps(old(in_[..]), out[..], ctl.hist, ctl.cN, ctl.cPhase, out.Length)
    {
      hide Tracks, Past, Tap, Taps, DelWrite.Valid;
      ghost var ins := in_[..];
      var n, fn, i := out.Length, out.Length - 1, 0;
      ghost var ys: seq<real> := [];
      TapsNone(ins, ctl.hist, ctl.cN, ctl.cPhase, n);
      while n > 0
        invariant 0 <= n <= out.Length && i == |ys| == out.Length - n && fn == n - 1
        invariant ctl.Valid() && out[..i] == ys && in_[i..] == ins[i..]
        invariant Taps(ins, ys, ctl.hist, ctl.cN, ctl.cPhase, out.Length)
      {
        n := n - 1;
        RestIs(in_[..], ins, i);
        var y := Sample(in_[i], ctl, limit, fn, out.Length, i);
        TapsOne(ins, ys, y, ctl.hist, ctl.cN, ctl.cPhase, out.Length);
        fn := fn - 1;
        out[i] := y;
        ys := ys + [y];
        i := i + 1;
      }
      assert out[..i] == out[..];
    }

    /** Every output so far is the blend its input asks for. */
    ghost predicate Taps(ins: seq<real>, ys: seq<real>, hist: seq<real>, cN: nat, phase: nat, n: nat)
      requires |ys| <= |ins|
      reads this`sr, this`zerodel
    {
      forall i: nat :: i < |ys| ==> Tap(ins[i], ys[i], hist, cN, phase, n, i)
    }

    lemma RestIs(a: seq<real>, b: seq<real>, i: nat)
      requires i < |a| == |b| && a[i..] == b[i..]
      ensures a[i] == b[i] && a[i + 1..] == b[i + 1..]
    {
      assert a[i] == a[i..][0] && b[i] == b[i..][0];
      assert a[i + 1..] == a[i..][1..] && b[i + 1..] == b[i..][1..];
    }

    lemma TapsNone(ins: seq<real>, hist: seq<real>, cN: nat, phase: nat, n: nat)
      ensures Taps(ins, [], hist, cN, phase, n)
    {
    }

    lemma TapsOne(ins: seq<real>, ys: seq<real>, y: real, hist: seq<real>, cN: nat, phase: nat, n: nat)
      requires |ys| < |ins| && Taps(ins, ys, hist, cN, phase, n) && Tap(ins[|ys|], y, hist, cN, phase, n, |ys|)
      ensures Taps(ins, ys + [y], hist, cN, phase, n)
    {
      hide Tap;
    }

    /** A block longer than the ring. */
    method Silence(out: array<real>)
      modifies out
      ensures forall i: nat :: i < out.Length ==> out[i] == 0.0
    {
      var n, i := out.Length, 0;
      while n > 0
        invariant 0 <= n <= out.Length && i == out.Length - n
        invariant forall j: nat :: j < i ==> out[j] == 0.0
      {
        n := n - 1;
        out[i] := 0.0;
        i := i + 1;
      }
    }

    /** One sample: its delay, clamped; four samples of the ring, blended. */
    method Sample(ms: real, ctl: DelWrite, limit: int, fn: int, ghost n: nat, ghost i: nat) returns (y: real)
      requires ctl.cN > 0 && ctl.Valid() && limit == ctl.cN - n && 0 <= limit && i < n && fn == n - 1 - i
      ensures Tap(ms, y, ctl.hist, ctl.cN, ctl.cPhase, n, i)
    {
      hide Tracks, Past, Interpolate, Tap, TapsRight;
      TracksShape(ctl.cVec[..], ctl.cN, ctl.cPhase, ctl.hist);
      var nsamps := ctl.cN;
      var delsamps := sr * ms - zerodel as real;
      if !(delsamps >= 1.00001) { delsamps := 1.00001; }
      if delsamps > limit as real { delsamps := limit as real; }
      delsamps := delsamps + fn as real;
      var idelsamps := Trunc(delsamps);
      var frac := delsamps - idelsamps as real;
      var bp := ctl.cPhase - idelsamps;
      if bp < XTRASAMPS { bp := bp + nsamps; }
      var d, c, b, a := ctl.cVec[bp - 3], ctl.cVec[bp - 2], ctl.cVec[bp - 1], ctl.cVec[bp];
      y := Interpolate(a, b, c, d, frac);
      TapHolds(ms, y, ctl.cVec[..], ctl.hist, nsamps, ctl.cPhase, n, i, delsamps, idelsamps);
    }

    lemma TapHolds(ms: real, y: real, vec: seq<real>, hist: seq<real>, cN: nat, phase: nat, n: nat, i: nat,
                   q: real, idelsamps: int)
      requires Tracks(vec, cN, phase, hist) && i < n <= cN
      requires q == Behind(ms, cN - n, n, i) && idelsamps == q.Floor && 0 <= idelsamps < cN
      requires var t := TapStart(cN, phase, idelsamps);
               y == Interpolate(vec[t], vec[t - 1], vec[t - 2], vec[t - 3], q - idelsamps as real)
      ensures Tap(ms, y, hist, cN, phase, n, i)
    {
      hide Interpolate, Behind, Tracks, Past, Tapped;
      if idelsamps >= 1 { TapsConsecutive(vec, cN, phase, hist, idelsamps); }
      TapsAre(vec, cN, phase, hist, idelsamps);
    }

    /** Output sample i is the blend of its four taps; in reach, these are four consecutive samples of history. */
    ghost predicate Tap(ms: real, y: real, hist: seq<real>, cN: nat, phase: nat, n: nat, i: nat)
      reads this`sr, this`zerodel
    {
      var q := Behind(ms, cN - n, n, i);
      var idelsamps, k := q.Floor, |hist|;
      && 0 <= idelsamps < cN
      && y == Interpolate(Tapped(hist, cN, phase, idelsamps, 0), Tapped(hist, cN, phase, idelsamps, 1),
                          Tapped(hist, cN, phase, idelsamps, 2), Tapped(hist, cN, phase, idelsamps, 3),
                          q - idelsamps as real)
      && (idelsamps >= 1 && InReach(cN, phase, idelsamps) ==>
            y == Interpolate(Past(hist, k - idelsamps), Past(hist, k - idelsamps - 1),
                             Past(hist, k - idelsamps - 2), Past(hist, k - idelsamps - 3),
                             q - idelsamps as real))
    }

    /**
     * The same in plain numbers: the input asks for `ms` milliseconds, and is given no less than a sample and no more
     * than the ring has room for behind the block.  Sample i is then on the cubic through the four samples
     * around the moment `late` samples before sample i of the last block written, as long as the oldest of
     * them is in the ring.
     */
    ghost predicate OnCubic(ms: real, y: real, hist: seq<real>, cN: nat, phase: nat, n: nat, i: nat)
      reads this`sr, this`zerodel
    {
      var asked := sr * ms - zerodel as real;
      var late := if (cN - n) as real < 1.00001 || (cN - n) as real < asked then (cN - n) as real
                  else if asked < 1.00001 then 1.00001 else asked;
      var k, f, m := late.Floor + n - 1 - i, late - late.Floor as real, |hist| - n + i - late.Floor;
      k >= 1 && (k + 3 <= cN || k + 4 <= phase) ==>
        y == -(f * (1.0 - f) * (2.0 - f)) / 6.0 * Past(hist, m + 1)
             + (1.0 + f) * (1.0 - f) * (2.0 - f) / 2.0 * Past(hist, m)
             + (1.0 + f) * f * (2.0 - f) / 2.0 * Past(hist, m - 1)
             - (1.0 + f) * f * (1.0 - f) / 6.0 * Past(hist, m - 2)
             - (0.1666667 - 1.0 / 6.0) * f * (1.0 - f)
               * ((2.0 - f) * Past(hist, m + 1) - 3.0 * (1.0 - f) * Past(hist, m)
                  - 3.0 * f * Past(hist, m - 1) + (1.0 + f) * Past(hist, m - 2))
    }

    lemma TapOnCubic(ms: real, y: real, hist: seq<real>, cN: nat, phase: nat, n: nat, i: nat)
      requires Tap(ms, y, hist, cN, phase, n, i) && i < n <= cN
      ensures OnCubic(ms, y, hist, cN, phase, n, i)
    {
      hide Interpolate, Past, Tapped;
      var late := Clamp(sr * ms - zerodel as real, cN - n);
      var m := |hist| - n + i - late.Floor;
      assert (late + (n - 1 - i) as real).Floor == late.Floor + n - 1 - i;
      InterpolateCubic(Past(hist, m + 1), Past(hist, m), Past(hist, m - 1), Past(hist, m - 2),
                       late - late.Floor as real);
    }

    lemma TapsOnCubic(ins: seq<real>, ys: seq<real>, hist: seq<real>, cN: nat, phase: nat, n: nat)
      requires |ys| == n <= |ins| && n <= cN && Taps(ins, ys, hist, cN, phase, n)
      ensures forall i: nat :: i < n ==> OnCubic(ins[i], ys[i], hist, cN, phase, n, i)
    {
      hide Tap, OnCubic;
      forall i: nat | i < n ensures OnCubic(ins[i], ys[i], hist, cN, phase, n, i) {
        TapOnCubic(ins[i], ys[i], hist, cN, phase, n, i);
      }
    }
  }

  /**
   * delread4~ on a straight line: when the four samples around the wanted moment lie on a line, the
   * output is that line exactly `delay` samples ago, fractions included.  `now` is the moment of the
   * output sample; `written` is where the write point stands, a block later if the writer came first.
   */
  lemma LineDelayedExactly(hist: seq<real>, n: nat, i: nat, zerodel: nat, delay: real, limit: int,
                           v: real, slope: real)
    requires i < n && (zerodel == 0 || zerodel == n)
    requires 1.00001 <= delay - zerodel as real <= limit as real
    requires var now := |hist| + i - (n - zerodel);
             forall j: int :: now - delay.Floor - 2 <= j <= now - delay.Floor + 1 ==>
               Past(hist, j) == v + slope * j as real
    ensures var now := |hist| + i - (n - zerodel);
            var q := DelRead4.Clamp(delay - zerodel as real, limit) + (n - 1 - i) as real;
            var m := |hist| - q.Floor;
            && m - 1 == now - delay.Floor
            && Interpolate(Past(hist, m), Past(hist, m - 1), Past(hist, m - 2), Past(hist, m - 3),
                           q - q.Floor as real)
               == v + slope * (now as real - delay)
  {
    var now := |hist| + i - (n - zerodel);
    var q := DelRead4.Clamp(delay - zerodel as real, limit) + (n - 1 - i) as real;
    assert q == delay + (n - 1 - i - zerodel) as real;
    assert q.Floor == delay.Floor + (n - 1 - i - zerodel);
    var b := now - delay.Floor;
    var x := v + slope * b as real;
    assert slope * (b + 1) as real == slope * b as real + slope;
    assert slope * (b - 1) as real == slope * b as real - slope;
    assert slope * (b - 2) as real == slope * b as real - 2.0 * slope;
    var frac := q - q.Floor as real;
    InterpolateLine(x, slope, frac);
    assert now as real - delay == b as real - frac;
    assert slope * (b as real - frac) == slope * b as real - frac * slope;
  }

  // ----- a writer and a reader in one chain -----

  /** `outs` is what came in from moment `start` on, `delay` samples late. */
  ghost predicate Delayed(outs: seq<real>, hist: seq<real>, start: nat, delay: int) {
    forall t: nat :: t < |outs| ==> outs[t] == Past(hist, start + t - delay)
  }

  lemma DelayedGrows(outs: seq<real>, o: seq<real>, was: seq<real>, more: seq<real>, start: nat, delay: nat)
    requires Delayed(outs, was, start, delay) && |was| == start + |outs|
    requires Delayed(o, was + more, |was|, delay)
    ensures Delayed(outs + o, was + more, start, delay)
  {
    PastStable(was, more);
    forall t: nat | t < |outs + o| ensures (outs + o)[t] == Past(was + more, start + t - delay) {
      if t < |outs| {
        assert outs[t] == Past(was, start + t - delay);
      } else {
        assert (outs + o)[t] == o[t - |outs|];
      }
    }
  }

  /** One tick of the chain on one block of input: both perform routines, in chain order. */
  method Tick(w: DelWrite, r: DelRead, block: seq<real>, writerFirst: bool, bigOrSmall: real -> bool)
    returns (o: seq<real>)
    requires w.cN > 0 && w.Valid() && 0 < r.n <= r.delsamps <= w.cN
    requires r.zerodel == if writerFirst then 0 else r.n
    requires |block| == r.n
    modifies w`cPhase, w`hist, w.cVec
    ensures w.Valid() && w.hist == old(w.hist) + Samples(block, bigOrSmall) && |o| == r.n
    ensures Delayed(o, w.hist, |old(w.hist)|, r.delsamps - r.n + r.zerodel)
  {
    hide Tracks, Past, Samples;
    var in_ := new real[|block|](i requires 0 <= i < |block| => block[i]);
    assert in_[..] == block;
    var out := new real[r.n];
    if writerFirst {
      w.Perform(in_, bigOrSmall);
      r.Perform(out, w);
    } else {
      r.Perform(out, w);
      ghost var was := w.hist;
      w.Perform(in_, bigOrSmall);
      PastStable(was, Samples(block, bigOrSmall));
    }
    o := out[..];
  }

  /**
   * Ticks of a chain holding one delwrite~ and one delread~: over the whole run the reader's output is
   * the written signal delayed by the reader's delay less one block if the writer comes first, and by
   * all of it if the writer comes second.
   */
  method RunChain(w: DelWrite, r: DelRead, input: seq<real>, writerFirst: bool, bigOrSmall: real -> bool)
    returns (outs: seq<real>)
    requires w.cN > 0 && w.Valid() && 0 < r.n <= r.delsamps <= w.cN
    requires r.zerodel == if writerFirst then 0 else r.n
    modifies w`cPhase, w`hist, w.cVec
    ensures w.Valid() && |input| - r.n < |outs| <= |input|
    ensures w.hist == old(w.hist) + Samples(input[..|outs|], bigOrSmall)
    ensures Delayed(outs, w.hist, |old(w.hist)|, r.delsamps - r.n + r.zerodel)
  {
    outs := [];
    assert Delayed(outs, w.hist, |w.hist|, r.delsamps - r.n + r.zerodel);
    hide Tracks, Past, Samples, Delayed, DelWrite.Valid;
    ghost var h0 := w.hist;
    NoSamples(input, bigOrSmall);
    while |outs| + r.n <= |input|
      invariant w.Valid() && |outs| <= |input|
      invariant w.hist == h0 + Samples(input[..|outs|], bigOrSmall)
      invariant Delayed(outs, w.hist, |h0|, r.delsamps - r.n + r.zerodel)
      decreases |input| - |outs|
    {
      ghost var was, m := w.hist, |outs|;
      var block := input[|outs|..|outs| + r.n];
      var o := Tick(w, r, block, writerFirst, bigOrSmall);
      SamplesUpTo(h0, was, input, m, block, bigOrSmall);
      DelayedGrows(outs, o, was, Samples(block, bigOrSmall), |h0|, r.delsamps - r.n + r.zerodel);
      outs := outs + o;
    }
  }

  lemma NoSamples(input: seq<real>, bigOrSmall: real -> bool)
    ensures Samples(input[..0], bigOrSmall) == []
  {
  }

  lemma SamplesUpTo(h0: seq<real>, was: seq<real>, input: seq<real>, m: nat, block: seq<real>,
                    bigOrSmall: real -> bool)
    requires m + |block| <= |input| && block == input[m..m + |block|]
    requires was == h0 + Samples(input[..m], bigOrSmall)
    ensures was + Samples(block, bigOrSmall) == h0 + Samples(input[..m + |block|], bigOrSmall)
  {
    hide Samples;
    UpTo(input, m, block);
    SamplesJoin(input[..m], block, bigOrSmall);
    Regroup(h0, Samples(input[..m], bigOrSmall), Samples(block, bigOrSmall));
  }

  lemma UpTo(s: seq<real>, m: nat, block: seq<real>)
    requires m + |block| <= |s| && block == s[m..m + |block|]
    ensures s[..m] + block == s[..m + |block|]
  {
  }

  lemma Regroup(a: seq<real>, b: seq<real>, c: seq<real>)
    ensures (a + b) + c == a + (b + c)
  {
  }

  lemma PastStable(h: seq<real>, more: seq<real>)
    ensures forall j: int :: j < |h| ==> Past(h + more, j) == Past(h, j)
  {
  }

  lemma {:induction false} SamplesJoin(a: seq<real>, b: seq<real>, bigOrSmall: real -> bool)
    ensures Samples(a + b, bigOrSmall) == Samples(a, bigOrSmall) + Samples(b, bigOrSmall)
  {
    if b == [] {
      assert a + b == a;
    } else {
      var m := |b| - 1;
      assert (a + b)[..|a + b| - 1] == a + b[..m];
      SamplesJoin(a, b[..m], bigOrSmall);
    }
  }

  /** What is written is the input, sample by sample, with the unusable values silenced. */
  lemma {:induction false} SamplesAt(xs: seq<real>, bigOrSmall: real -> bool, i: nat)
    requires i < |xs|
    ensures Samples(xs, bigOrSmall)[i] == if bigOrSmall(xs[i]) then 0.0 else xs[i]
  {
    if i < |xs| - 1 { SamplesAt(xs[..|xs| - 1], bigOrSmall, i); }
  }

  /** Every delay up to the length the delwrite~ was made for is met exactly, blocks of up to 64 samples. */
  lemma DeclaredDelaysFit(deltime: real, sr: real, n: nat, zerodel: nat, asked: int)
    requires 0 < n <= DEFDELVS && (zerodel == 0 || zerodel == n)
    requires asked <= Trunc(deltime * sr * 0.001)
    ensures asked + n - zerodel <= DelWrite.RingLength(deltime, sr)
  {
  }
}
