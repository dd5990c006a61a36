/** The sizes and rates of a block~ object: what "set" makes of its arguments, and the calling
  period and frequency that follow from them and from the parent canvas. */
module BlockParams {
  import opened Arith

  /** ilog2: the place of the highest bit, or 0 when there is none. */
  method ILog2(n: int) returns (r: nat)
    ensures n <= 0 ==> r == 0
    ensures n > 0 ==> Pow2(r) <= n < 2 * Pow2(r)
  {
    if n <= 0 {
      return 0;
    }
    var k: int, m: nat := -1, n;
    ghost var low: int := 0;  // the bits shifted out
    while m > 0
      invariant k >= -1 && (m > 0 || k >= 0)
      invariant n == m * Pow2(k + 1) + low && 0 <= low < Pow2(k + 1)
      invariant m == 0 ==> n >= Pow2(k)
      decreases m
    {
      ShiftStep(m, Pow2(k + 1));
      low := low + (m % 2) * Pow2(k + 1);
      k := k + 1;
      m := m / 2;
    }
    r := k;
  }

  lemma ShiftStep(m: int, p: int)
    requires m > 0 && p > 0
    ensures m * p == (m / 2) * (2 * p) + (m % 2) * p && m * p >= p && 0 <= (m % 2) * p <= p
  {
    DivMod(m, 2);
    assert m * p == (2 * (m / 2) + m % 2) * p;
    assert (m - 1) * p >= 0;
  }

  lemma ILog2OfPow2(n: int, k: nat)
    requires n > 0 && Pow2(k) <= n < 2 * Pow2(k)
    ensures IsPow2(n) <==> n == Pow2(k)
  {
    if IsPow2(n) { Pow2Between(n, k); }
  }

  class Block {
    var vecsize: int
    var calcsize: int
    var overlap: int
    var upsample: int
    var downsample: int
    var period: int
    var frequency: int
    var phase: int

    /** All sizes and factors are powers of two; a vector size of 0 means the parent's. */
    ghost predicate Valid()
      reads this
    {
      && calcsize >= 0 && (calcsize == 0 <==> vecsize == 0)
      && (vecsize != 0 ==> IsPow2(vecsize) && calcsize <= vecsize < 2 * calcsize)
      && IsPow2(overlap) && IsPow2(upsample) && IsPow2(downsample)
      && (upsample == 1 || downsample == 1)
    }

    constructor (fcalcsize: int, foverlap: int, fupsample: real)
      ensures Valid() && phase == 0 && period == 1 && frequency == 1
    {
      phase, period, frequency := 0, 1, 1;
      new;
      Set(fcalcsize, foverlap, fupsample);
    }

    /** block_set.  A factor that is not a power of two is replaced by 1. */
    method Set(fcalcsize: int, foverlap: int, fupsample: real)
      modifies `vecsize, `calcsize, `overlap, `upsample, `downsample
      ensures Valid()
      ensures calcsize == if fcalcsize < 0 then 0 else fcalcsize
      ensures overlap == if foverlap > 1 && IsPow2(foverlap) then foverlap else 1
      ensures fupsample <= 0.0 ==> upsample == downsample == 1
      ensures fupsample >= 1.0 ==> downsample == 1 && upsample == if IsPow2(fupsample.Floor) then fupsample.Floor else 1
      ensures 0.0 < fupsample < 1.0 ==>
        upsample == 1 && downsample == if IsPow2((1.0 / fupsample).Floor) then (1.0 / fupsample).Floor else 1
    {
      assert IsPow2(1) by { assert Pow2(0) == 1; }
      var c, o := fcalcsize, foverlap;
      if o < 1 {
        o := 1;
      }
      if c < 0 {
        c := 0;
      }
      var up, down := 1, 1;
      if fupsample <= 0.0 {
      } else if fupsample >= 1.0 {
        up := fupsample.Floor;
      } else {
        RecipAtLeastOne(fupsample);
        down := (1.0 / fupsample).Floor;
      }
      var v := 0;
      if c != 0 {
        var k := ILog2(c);
        v := Pow2(k);
        if v != c {
          v := v * 2;
          assert v == Pow2(k + 1);
        }
      }
      if v != 0 {
        var k := ILog2(v);
        ILog2OfPow2(v, k);
        if v != Pow2(k) {
          v := 64;  // does not happen: v is a power of two by now
        }
      }
      o := OrOne(o);
      down := OrOne(down);
      up := OrOne(up);
      calcsize, vecsize, overlap, upsample, downsample := c, v, o, up, down;
    }

    static method OrOne(n: int) returns (r: int)
      requires n >= 1
      ensures r == (if IsPow2(n) then n else 1) && IsPow2(r)
    {
      assert IsPow2(1) by { assert Pow2(0) == 1; }
      var k := ILog2(n);
      ILog2OfPow2(n, k);
      r := n;
      if n != Pow2(k) {
        r := 1;
      }
    }

    /** How many parent ticks to wait, or how often to run in one, from the samples made and used. */
    static method Rates(made: int, used: int) returns (period: int, frequency: int)
      requires IsPow2(made) && IsPow2(used)
      ensures frequency * made == period * used && IsPow2(period) && IsPow2(frequency)
      ensures (period == 1 || frequency == 1) && (made == used ==> period == frequency == 1)
    {
      RatesMatch(made, used);
      period := made / used;
      frequency := used / made;
      if period < 1 {
        period := 1;
      }
      if frequency < 1 {
        frequency := 1;
      }
      if made == used { DivIs(made, used, 1, 0); }
    }

    /** The part of ugen_done_graph that fits the block into its parent canvas: its actual
      vector size, how many parent ticks it waits (period) or how often it runs in one
      (frequency), and where in its period it stands. */
    method Configure(parentVecsize: int, toplevel: bool, uphase: nat)
        returns (vec: int, csize: int, realoverlap: int, down: int, reblock: bool)
      requires Valid() && IsPow2(parentVecsize)
      modifies `period, `frequency, `phase
      ensures Valid() && IsPow2(vec) && IsPow2(realoverlap) && IsPow2(down)
      ensures vec == (if vecsize == 0 then parentVecsize else vecsize) && 0 < csize <= vec
      ensures csize == if calcsize == 0 then vec else calcsize
      ensures realoverlap == (if overlap > vec then vec else overlap)
      ensures down == (if downsample > parentVecsize then parentVecsize else downsample)
      ensures IsPow2(period) && IsPow2(frequency) && (period == 1 || frequency == 1)
      ensures frequency * (vec * down) == period * (parentVecsize * realoverlap * upsample)
      ensures phase == uphase % period
      ensures reblock <==> toplevel || realoverlap != 1 || vec != parentVecsize || down != 1 || upsample != 1
      ensures !reblock ==> period == frequency == 1
    {
      vec := vecsize;
      if vec == 0 {
        vec := parentVecsize;
      }
      csize := calcsize;
      if csize == 0 {
        csize := vec;
      }
      realoverlap := overlap;
      if realoverlap > vec {
        realoverlap := vec;
      }
      down := downsample;
      if down > parentVecsize {
        down := parentVecsize;
      }
      Pow2Times(vec, down);
      Pow2Times(parentVecsize, realoverlap);
      Pow2Times(parentVecsize * realoverlap, upsample);
      period, frequency := Rates(vec * down, parentVecsize * realoverlap * upsample);
      phase := uphase % period;  // u_phase & (period - 1), the period being a power of two
      reblock := toplevel || realoverlap != 1 || vec != parentVecsize || down != 1 || upsample != 1;
      if !reblock {
        assert vec * 1 == parentVecsize * 1 * 1;
      }
    }
  }

  lemma RecipAtLeastOne(f: real)
    requires 0.0 < f < 1.0
    ensures (1.0 / f).Floor >= 1
  {
    var r := 1.0 / f;
    assert r * f == 1.0;
    PositiveFactor(r - 1.0, f);
  }

  lemma PositiveFactor(x: real, f: real)
    requires f > 0.0 && x * f > 0.0
    ensures x > 0.0
  {
  }

  /** Samples produced and consumed agree over one period, because of two powers of two the
    larger is a multiple of the smaller. */
  lemma RatesMatch(made: int, used: int)
    requires IsPow2(made) && IsPow2(used)
    ensures made > 0 && used > 0
    ensures
      var p := if made / used < 1 then 1 else made / used;
      var f := if used / made < 1 then 1 else used / made;
      f * made == p * used && IsPow2(p) && IsPow2(f) && (p == 1 || f == 1)
  {
    assert IsPow2(1) by { assert Pow2(0) == 1; }
    if made >= used {
      Pow2Divides(made, used);
      if made > used { DivIs(used, made, 0, used); } else { DivIs(made, made, 1, 0); }
    } else {
      Pow2Divides(used, made);
      DivIs(made, used, 0, made);
    }
  }
}
