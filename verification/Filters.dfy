// Complex one-pole and one-zero filters and the slew limiter slop~ (src/d_filter.c).
module Filters {

  datatype Complex = Complex(re: real, im: real)

  function Add(a: Complex, b: Complex): Complex { Complex(a.re + b.re, a.im + b.im) }

  function Sub(a: Complex, b: Complex): Complex { Complex(a.re - b.re, a.im - b.im) }

  function Mul(a: Complex, b: Complex): Complex {
    Complex(a.re * b.re - a.im * b.im, a.re * b.im + a.im * b.re)
  }

  function Conj(a: Complex): Complex { Complex(a.re, -a.im) }

  function Pair(re: seq<real>, im: seq<real>): (z: seq<Complex>)
    requires |re| == |im|
    ensures |z| == |re|
  {
    seq(|re|, i requires 0 <= i < |re| => Complex(re[i], im[i]))
  }

  /** The last element, or what came before the first. */
  function LastOr(xs: seq<Complex>, before: Complex): Complex {
    if xs == [] then before else xs[|xs| - 1]
  }

  // ----- cpole~ and czero~ undo each other -----

  /** y[i] = x[i] + c[i] y[i-1]. */
  function PoleRun(xs: seq<Complex>, cs: seq<Complex>, last: Complex): (ys: seq<Complex>)
    requires |xs| == |cs|
    ensures |ys| == |xs|
  {
    if xs == [] then []
    else
      var m := |xs| - 1;
      var ys := PoleRun(xs[..m], cs[..m], last);
      ys + [Add(xs[m], Mul(LastOr(ys, last), cs[m]))]
  }

  /** y[i] = x[i] - c[i] x[i-1]. */
  function ZeroRun(xs: seq<Complex>, cs: seq<Complex>, last: Complex): (ys: seq<Complex>)
    requires |xs| == |cs|
    ensures |ys| == |xs|
  {
    if xs == [] then []
    else
      var m := |xs| - 1;
      ZeroRun(xs[..m], cs[..m], last) + [Sub(xs[m], Mul(LastOr(xs[..m], last), cs[m]))]
  }

  lemma AddSub(a: Complex, b: Complex)
    ensures Add(Sub(a, b), b) == a && Sub(Add(a, b), b) == a
  {
  }

  /** From equal memories, the pole filter undoes the zero filter and the zero filter the pole filter. */
  lemma {:induction false} PoleZeroInverse(xs: seq<Complex>, cs: seq<Complex>, last: Complex)
    requires |xs| == |cs|
    ensures PoleRun(ZeroRun(xs, cs, last), cs, last) == xs
    ensures ZeroRun(PoleRun(xs, cs, last), cs, last) == xs
  {
    if xs != [] {
      var m := |xs| - 1;
      PoleZeroInverse(xs[..m], cs[..m], last);
      hide Add, Sub, Mul;
      var z, p := ZeroRun(xs, cs, last), PoleRun(xs, cs, last);
      assert z[..m] == ZeroRun(xs[..m], cs[..m], last);
      assert p[..m] == PoleRun(xs[..m], cs[..m], last);
      AddSub(xs[m], Mul(LastOr(xs[..m], last), cs[m]));
      AddSub(xs[m], Mul(LastOr(p[..m], last), cs[m]));
      assert xs == xs[..m] + [xs[m]];
    }
  }

  /** In plain numbers: each output is the input and the coefficient times the output before. */
  lemma {:induction false} PoleEquation(xs: seq<Complex>, cs: seq<Complex>, last: Complex, i: nat)
    requires i < |xs| == |cs|
    ensures var ys := PoleRun(xs, cs, last);
            var was := if i == 0 then last else ys[i - 1];
            && ys[i].re == xs[i].re + (cs[i].re * was.re - cs[i].im * was.im)
            && ys[i].im == xs[i].im + (cs[i].re * was.im + cs[i].im * was.re)
  {
    hide Add, Mul;
    var m := |xs| - 1;
    if i < m {
      PoleEquation(xs[..m], cs[..m], last, i);
    } else {
      AddMul(xs[m], LastOr(PoleRun(xs[..m], cs[..m], last), last), cs[m]);
    }
  }

  lemma AddMul(x: Complex, w: Complex, c: Complex)
    ensures Add(x, Mul(w, c)) == Complex(x.re + (c.re * w.re - c.im * w.im), x.im + (c.re * w.im + c.im * w.re))
    ensures Sub(x, Mul(w, c)) == Complex(x.re - (c.re * w.re - c.im * w.im), x.im - (c.re * w.im + c.im * w.re))
  {
  }

  /** And each output of the zero filter is the input less the coefficient times the input before. */
  lemma {:induction false} ZeroEquation(xs: seq<Complex>, cs: seq<Complex>, last: Complex, i: nat)
    requires i < |xs| == |cs|
    ensures var ys := ZeroRun(xs, cs, last);
            var was := if i == 0 then last else xs[i - 1];
            && ys[i].re == xs[i].re - (cs[i].re * was.re - cs[i].im * was.im)
            && ys[i].im == xs[i].im - (cs[i].re * was.im + cs[i].im * was.re)
  {
    hide Sub, Mul;
    var m := |xs| - 1;
    if i < m {
      ZeroEquation(xs[..m], cs[..m], last, i);
    } else {
      AddMul(xs[m], LastOr(xs[..m], last), cs[m]);
    }
  }

  class CPole {
    var lastre: real
    var lastim: real

    /** One block; any of the buffers may be shared, except the two outputs with each other. */
    method Perform(inre1: array<real>, inim1: array<real>, inre2: array<real>, inim2: array<real>,
                   outre: array<real>, outim: array<real>, bigOrSmall: real -> bool)
      requires inre1.Length == inim1.Length == inre2.Length == inim2.Length == outre.Length == outim.Length
      requires outre != outim
      modifies this, outre, outim
      ensures var ys := PoleRun(old(Pair(inre1[..], inim1[..])), old(Pair(inre2[..], inim2[..])),
                                Complex(old(lastre), old(lastim)));
              && Pair(outre[..], outim[..]) == ys
              && var end := LastOr(ys, Complex(old(lastre), old(lastim)));
                 lastre == (if bigOrSmall(end.re) then 0.0 else end.re) &&
                 lastim == (if bigOrSmall(end.im) then 0.0 else end.im)
    {
      hide PoleRun, LastOr, Add, Mul, Pair;
      var n, i, re, im := outre.Length, 0, lastre, lastim;
      ghost var l, xs, cs := Complex(re, im), Pair(inre1[..], inim1[..]), Pair(inre2[..], inim2[..]);
      PairAt(inre1[..], inim1[..]);
      PairAt(inre2[..], inim2[..]);
      PoleNext(xs, cs, l, 0);
      ghost var ys := PoleRun(xs[..0], cs[..0], l);
      while i < n
        invariant 0 <= i <= n && ys == PoleRun(xs[..i], cs[..i], l) && Complex(re, im) == LastOr(ys, l)
        invariant forall k: nat :: k < i ==> Complex(outre[k], outim[k]) == ys[k]
        invariant forall k: nat :: i <= k < n ==> Complex(inre1[k], inim1[k]) == xs[k]
        invariant forall k: nat :: i <= k < n ==> Complex(inre2[k], inim2[k]) == cs[k]
        modifies outre, outim
      {
        var nextre, nextim, coefre, coefim := inre1[i], inim1[i], inre2[i], inim2[i];
        PoleNext(xs, cs, l, i);
        ghost var y := Add(xs[i], Mul(LastOr(ys, l), cs[i]));
        assert y == Add(Complex(nextre, nextim), Mul(Complex(re, im), Complex(coefre, coefim)));
        PoleExpr(nextre, nextim, re, im, coefre, coefim);
        var tempre := nextre + re * coefre - im * coefim;
        outre[i] := tempre;
        im := nextim + re * coefim + im * coefre;
        outim[i] := im;
        re := tempre;
        ys := ys + [y];
        i := i + 1;
      }
      assert xs[..n] == xs && cs[..n] == cs;
      PairAt(outre[..], outim[..]);
      if bigOrSmall(re) { re := 0.0; }
      if bigOrSmall(im) { im := 0.0; }
      lastre, lastim := re, im;
    }
  }

  class CZero {
    var lastre: real
    var lastim: real

    /** One block, with the same sharing of buffers allowed; the memory is the last input. */
    method Perform(inre1: array<real>, inim1: array<real>, inre2: array<real>, inim2: array<real>,
                   outre: array<real>, outim: array<real>)
      requires inre1.Length == inim1.Length == inre2.Length == inim2.Length == outre.Length == outim.Length
      requires outre != outim
      modifies this, outre, outim
      ensures Pair(outre[..], outim[..])
              == ZeroRun(old(Pair(inre1[..], inim1[..])), old(Pair(inre2[..], inim2[..])),
                         Complex(old(lastre), old(lastim)))
      ensures Complex(lastre, lastim)
              == LastOr(old(Pair(inre1[..], inim1[..])), Complex(old(lastre), old(lastim)))
    {
      hide ZeroRun, LastOr, Sub, Mul, Pair;
      var n, i, re, im := outre.Length, 0, lastre, lastim;
      ghost var l, xs, cs := Complex(re, im), Pair(inre1[..], inim1[..]), Pair(inre2[..], inim2[..]);
      PairAt(inre1[..], inim1[..]);
      PairAt(inre2[..], inim2[..]);
      ZeroNext(xs, cs, l, 0);
      ghost var ys := ZeroRun(xs[..0], cs[..0], l);
      while i < n
        invariant 0 <= i <= n && ys == ZeroRun(xs[..i], cs[..i], l) && Complex(re, im) == LastOr(xs[..i], l)
        invariant forall k: nat :: k < i ==> Complex(outre[k], outim[k]) == ys[k]
        invariant forall k: nat :: i <= k < n ==> Complex(inre1[k], inim1[k]) == xs[k]
        invariant forall k: nat :: i <= k < n ==> Complex(inre2[k], inim2[k]) == cs[k]
        modifies outre, outim
      {
        var nextre, nextim, coefre, coefim := inre1[i], inim1[i], inre2[i], inim2[i];
        ZeroNext(xs, cs, l, i);
        ghost var y := Sub(xs[i], Mul(LastOr(xs[..i], l), cs[i]));
        assert y == Sub(Complex(nextre, nextim), Mul(Complex(re, im), Complex(coefre, coefim)));
        ZeroExpr(nextre, nextim, re, im, coefre, coefim);
        outre[i] := nextre - re * coefre + im * coefim;
        outim[i] := nextim - re * coefim - im * coefre;
        ys := ys + [y];
        re := nextre;
        im := nextim;
        i := i + 1;
      }
      assert xs[..n] == xs && cs[..n] == cs;
      PairAt(outre[..], outim[..]);
      lastre, lastim := re, im;
    }
  }

  lemma ZeroNext(xs: seq<Complex>, cs: seq<Complex>, l: Complex, i: nat)
    requires |xs| == |cs| && i <= |xs|
    ensures ZeroRun(xs[..0], cs[..0], l) == [] && LastOr(xs[..0], l) == l
    ensures i < |xs| ==>
              && ZeroRun(xs[..i + 1], cs[..i + 1], l)
                 == ZeroRun(xs[..i], cs[..i], l) + [Sub(xs[i], Mul(LastOr(xs[..i], l), cs[i]))]
              && LastOr(xs[..i + 1], l) == xs[i]
  {
    if i < |xs| { assert xs[..i + 1][..i] == xs[..i] && cs[..i + 1][..i] == cs[..i]; }
  }

  lemma ZeroExpr(nextre: real, nextim: real, re: real, im: real, coefre: real, coefim: real)
    ensures Sub(Complex(nextre, nextim), Mul(Complex(re, im), Complex(coefre, coefim)))
            == Complex(nextre - re * coefre + im * coefim, nextim - re * coefim - im * coefre)
  {
    var p, q, r, s := re * coefre, im * coefim, re * coefim, im * coefre;
    assert Mul(Complex(re, im), Complex(coefre, coefim)) == Complex(p - q, r + s);
    assert Sub(Complex(nextre, nextim), Complex(p - q, r + s)) == Complex(nextre - p + q, nextim - r - s);
  }

  lemma PairAt(re: seq<real>, im: seq<real>)
    requires |re| == |im|
    ensures forall k: nat :: k < |re| ==> Pair(re, im)[k] == Complex(re[k], im[k])
  {
  }

  lemma PoleNext(xs: seq<Complex>, cs: seq<Complex>, l: Complex, i: nat)
    requires |xs| == |cs| && i <= |xs|
    ensures PoleRun(xs[..0], cs[..0], l) == [] && LastOr([], l) == l
    ensures i < |xs| ==>
              var ys := PoleRun(xs[..i], cs[..i], l);
              && PoleRun(xs[..i + 1], cs[..i + 1], l) == ys + [Add(xs[i], Mul(LastOr(ys, l), cs[i]))]
              && LastOr(ys + [Add(xs[i], Mul(LastOr(ys, l), cs[i]))], l) == Add(xs[i], Mul(LastOr(ys, l), cs[i]))
  {
    if i < |xs| { assert xs[..i + 1][..i] == xs[..i] && cs[..i + 1][..i] == cs[..i]; }
  }

  lemma PoleExpr(nextre: real, nextim: real, re: real, im: real, coefre: real, coefim: real)
    ensures Add(Complex(nextre, nextim), Mul(Complex(re, im), Complex(coefre, coefim)))
            == Complex(nextre + re * coefre - im * coefim, nextim + re * coefim + im * coefre)
  {
    var p, q, r, s := re * coefre, im * coefim, re * coefim, im * coefre;
    assert Mul(Complex(re, im), Complex(coefre, coefim)) == Complex(p - q, r + s);
    assert Add(Complex(nextre, nextim), Complex(p - q, r + s)) == Complex(nextre + p - q, nextim + r + s);
  }

  // ----- czero_rev~ -----

  /** What czero_rev~ puts out for a sample `next` after `last`, with coefficient c. */
  function ReversedZero(next: Complex, last: Complex, c: Complex): Complex {
    Complex(last.re - next.re * c.re - next.im * c.im, last.im - next.re * c.im + next.im * c.re)
  }

  /**
   * The stated transfer function is conj(A) - Z^-1, up to sign: last - conj(c) next.  The real part is
   * that; the imaginary part has the product's sign turned round, so the claim holds exactly when
   * conj(c) next is real.
   */
  lemma ReversedZeroIff(next: Complex, last: Complex, c: Complex)
    ensures ReversedZero(next, last, c).re == Sub(last, Mul(Conj(c), next)).re
    ensures ReversedZero(next, last, c) == Sub(last, Mul(Conj(c), next)) <==> next.re * c.im == next.im * c.re
  {
    var a, b := next.re * c.im, next.im * c.re;
    var p, q := next.re * c.re, next.im * c.im;
    assert Mul(Conj(c), next) == Complex(p + q, b - a);
  }

  /** So it is right for every input exactly when the coefficient is zero. */
  lemma ReversedZeroAlways(c: Complex)
    ensures (forall next: Complex, last: Complex :: ReversedZero(next, last, c) == Sub(last, Mul(Conj(c), next)))
            <==> c == Complex(0.0, 0.0)
  {
    hide ReversedZero, Sub, Mul, Conj;
    var zero, one, i := Complex(0.0, 0.0), Complex(1.0, 0.0), Complex(0.0, 1.0);
    ReversedZeroIff(one, zero, c);
    ReversedZeroIff(i, zero, c);
    forall next: Complex, last: Complex | c == zero
      ensures ReversedZero(next, last, c) == Sub(last, Mul(Conj(c), next))
    {
      ReversedZeroIff(next, last, c);
    }
  }

  /** An input on which it fails: a real sample through a purely imaginary coefficient. */
  lemma ReversedZeroFails()
    ensures var next, last, c := Complex(1.0, 0.0), Complex(0.0, 0.0), Complex(0.0, 1.0);
            ReversedZero(next, last, c) != Sub(last, Mul(Conj(c), next))
  {
    ReversedZeroIff(Complex(1.0, 0.0), Complex(0.0, 0.0), Complex(0.0, 1.0));
  }

  // ----- slop~ -----

  function Clip(x: real): (r: real)
    ensures 0.0 <= r <= 1.0 && (0.0 <= x <= 1.0 ==> r == x) && (x < 0.0 ==> r == 0.0) && (x > 1.0 ==> r == 1.0)
  {
    if x < 0.0 then 0.0 else if x > 1.0 then 1.0 else x
  }

  function Floor0(x: real): (r: real)
    ensures r >= 0.0 && (x >= 0.0 ==> r == x) && (x < 0.0 ==> r == 0.0)
  {
    if x < 0.0 then 0.0 else x
  }

  predicate Between(y: real, a: real, b: real) { (a <= y <= b) || (b <= y <= a) }

  lemma Fraction(c: real, d: real, m: real)
    requires 0.0 <= c <= 1.0 && m == c * d
    ensures d >= 0.0 ==> 0.0 <= m <= d
    ensures d <= 0.0 ==> d <= m <= 0.0
    ensures c == 1.0 ==> m == d
  {
    var rest := (1.0 - c) * d;
    assert rest == d - m;
    Sign(c, d, m);
    Sign(1.0 - c, d, rest);
  }

  lemma Sign(c: real, d: real, m: real)
    requires c >= 0.0 && m == c * d
    ensures (d >= 0.0 ==> m >= 0.0) && (d <= 0.0 ==> m <= 0.0)
  {
    if d < 0.0 { assert c * (-d) >= 0.0; }
  }

  lemma BetweenIn(y: real, a: real, b: real, lo: real, hi: real)
    requires Between(y, a, b)
    ensures lo <= a <= hi && lo <= b <= hi ==> lo <= y <= hi
  {
  }

  /** How far slop~ moves for a difference d: at one rate within the limits, at others for what is beyond them. */
  function Slew(d: real, f: real, fpos: real, fneg: real, pos: real, neg: real): real {
    if d > Floor0(pos) then Clip(fpos) * (d - Floor0(pos)) + Clip(f) * Floor0(pos)
    else if d < -Floor0(neg) then Clip(fneg) * (d + Floor0(neg)) - Clip(f) * Floor0(neg)
    else Clip(f) * d
  }

  /**
   * What that means for any two differences: the slope is f from -neg to pos, fpos above and fneg below, negative
   * limits counting as none and rates as 0 to 1; and no difference does not move it.
   */
  lemma SlewSlopes(d: real, e: real, f: real, fpos: real, fneg: real, pos: real, neg: real)
    ensures Slew(0.0, f, fpos, fneg, pos, neg) == 0.0
    ensures var p, m := if pos < 0.0 then 0.0 else pos, if neg < 0.0 then 0.0 else neg;
            var rise := Slew(d, f, fpos, fneg, pos, neg) - Slew(e, f, fpos, fneg, pos, neg);
            && (-m <= d <= p && -m <= e <= p ==>
                  rise == (if f < 0.0 then 0.0 else if f > 1.0 then 1.0 else f) * (d - e))
            && (p <= d && p <= e ==> rise == (if fpos < 0.0 then 0.0 else if fpos > 1.0 then 1.0 else fpos) * (d - e))
            && (d <= -m && e <= -m ==> rise == (if fneg < 0.0 then 0.0 else if fneg > 1.0 then 1.0 else fneg) * (d - e))
  {
    hide Slew;
    Rise(d, e, f, fpos, fneg, pos, neg);
    SlewAt(0.0, f, fpos, fneg, pos, neg);
  }

  lemma Rise(d: real, e: real, f: real, fpos: real, fneg: real, pos: real, neg: real)
    ensures var p, m := Floor0(pos), Floor0(neg);
            var rise := Slew(d, f, fpos, fneg, pos, neg) - Slew(e, f, fpos, fneg, pos, neg);
            && (-m <= d <= p && -m <= e <= p ==> rise == Clip(f) * (d - e))
            && (p <= d && p <= e ==> rise == Clip(fpos) * (d - e))
            && (d <= -m && e <= -m ==> rise == Clip(fneg) * (d - e))
  {
    hide Clip, Floor0, Slew;
    var p, m := Floor0(pos), Floor0(neg);
    SlewAt(d, f, fpos, fneg, pos, neg);
    SlewAt(e, f, fpos, fneg, pos, neg);
    Apart(Clip(f), d, e, 0.0);
    Apart(Clip(fpos), d, e, -p);
    Apart(Clip(fneg), d, e, m);
  }

  /** Where two pieces meet they agree. */
  lemma SlewAt(d: real, f: real, fpos: real, fneg: real, pos: real, neg: real)
    ensures var s, p, m := Slew(d, f, fpos, fneg, pos, neg), Floor0(pos), Floor0(neg);
            && (-m <= d <= p ==> s == Clip(f) * d) && (d == 0.0 ==> s == 0.0)
            && (d >= p ==> s == Clip(fpos) * (d - p) + Clip(f) * p)
            && (d <= -m ==> s == Clip(fneg) * (d + m) - Clip(f) * m)
  {
    hide Clip, Floor0;
    var c, p, m := Clip(f), Floor0(pos), Floor0(neg);
    assert c * (-m) == -(c * m);
    assert Clip(fpos) * 0.0 == 0.0 && Clip(fneg) * 0.0 == 0.0 && c * 0.0 == 0.0;
  }

  lemma SlewIs(d: real, f: real, fpos: real, fneg: real, pos: real, neg: real)
    ensures Slew(d, f, fpos, fneg, pos, neg)
            == if d > Floor0(pos) then Clip(fpos) * (d - Floor0(pos)) + Clip(f) * Floor0(pos)
               else if d < -Floor0(neg) then Clip(fneg) * (d + Floor0(neg)) - Clip(f) * Floor0(neg)
               else Clip(f) * d
  {
  }

  lemma Upward(c: real, cpos: real, d: real, p: real, s: real)
    requires 0.0 <= c <= 1.0 && 0.0 <= cpos <= 1.0 && 0.0 <= p < d && s == cpos * (d - p) + c * p
    ensures 0.0 <= s <= d && (c == cpos == 1.0 ==> s == d)
  {
    var beyond, within := cpos * (d - p), c * p;
    Fraction(cpos, d - p, beyond);
    Fraction(c, p, within);
  }

  lemma Downward(c: real, cneg: real, d: real, m: real, s: real)
    requires 0.0 <= c <= 1.0 && 0.0 <= cneg <= 1.0 && d < -m <= 0.0 && s == cneg * (d + m) - c * m
    ensures d <= s <= 0.0 && (c == cneg == 1.0 ==> s == d)
  {
    var beyond, within := cneg * (d + m), c * m;
    Fraction(cneg, d + m, beyond);
    Fraction(c, m, within);
  }

  /** It moves toward the input, never past it, and at full rates all the way. */
  lemma SlewBetween(d: real, f: real, fpos: real, fneg: real, pos: real, neg: real)
    ensures Between(Slew(d, f, fpos, fneg, pos, neg), 0.0, d)
    ensures f >= 1.0 && fpos >= 1.0 && fneg >= 1.0 ==> Slew(d, f, fpos, fneg, pos, neg) == d
  {
    var s := Slew(d, f, fpos, fneg, pos, neg);
    if d > Floor0(pos) {
      Upward(Clip(f), Clip(fpos), d, Floor0(pos), s);
    } else if d < -Floor0(neg) {
      Downward(Clip(f), Clip(fneg), d, Floor0(neg), s);
    } else {
      Fraction(Clip(f), d, s);
    }
    hide Slew;
  }

  lemma Apart(c: real, x: real, y: real, z: real)
    ensures c * x - c * y == c * (x - y) && c * (x - y) == c * (x + z) - c * (y + z)
  {
  }

  lemma Rest(a: seq<real>, b: seq<real>, i: nat)
    requires i < |a| == |b| && a[i..] == b[i..]
    ensures a[i] == b[i] && a[i + 1..] == b[i + 1..]
  {
    assert a[i] == a[i..][0] && b[i] == b[i..][0];
    assert a[i + 1..] == a[i..][1..] && b[i + 1..] == b[i..][1..];
  }

  class Slop {
    var last: real
    var coef: real

    method Dsp(sr: real)
      requires sr != 0.0
      modifies this`coef
      ensures coef == 6.28318 / sr
    {
      var turn := 2.0 * 3.14159;
      assert turn == 6.28318;
      coef := turn / sr;
    }

    /**
     * One block: each output lies between the output before it and the input, so no run leaves an interval
     * that holds the start and all inputs.
     */
    method Perform(sigin: array<real>, freqin: array<real>, neglimit: array<real>, negfreqin: array<real>,
                   poslimit: array<real>, posfreqin: array<real>, out: array<real>, bigOrSmall: real -> bool,
                   ghost lo: real, ghost hi: real)
      requires sigin.Length == freqin.Length == neglimit.Length == negfreqin.Length == out.Length
      requires sigin.Length == poslimit.Length == posfreqin.Length
      modifies this`last, out
      ensures Run([old(last)] + out[..], old(sigin[..]), old(freqin[..]), old(posfreqin[..]), old(negfreqin[..]),
                  old(poslimit[..]), old(neglimit[..]), coef)
      ensures lo <= old(last) <= hi && (forall i: nat :: i < sigin.Length ==> lo <= old(sigin[i]) <= hi) ==>
                forall i: nat :: i < out.Length ==> lo <= out[i] <= hi
      ensures out.Length > 0 ==> last == if bigOrSmall(out[out.Length - 1]) then 0.0 else out[out.Length - 1]
    {
      hide Between, Slew, Moved, Run;
      var i, l, c := 0, last, coef;
      ghost var ys: seq<real>, xs := [last], sigin[..];
      ghost var fs, ps, ms, pl, nl := freqin[..], posfreqin[..], negfreqin[..], poslimit[..], neglimit[..];
      RunNone(last, xs, fs, ps, ms, pl, nl, c);
      while i < sigin.Length
        invariant 0 <= i <= sigin.Length && |ys| == i + 1 && l == ys[i] && ys[0] == old(last)
        invariant out[..i] == ys[1..] && Run(ys, xs, fs, ps, ms, pl, nl, c)
        invariant sigin[i..] == xs[i..] && freqin[i..] == fs[i..] && posfreqin[i..] == ps[i..]
        invariant negfreqin[i..] == ms[i..] && poslimit[i..] == pl[i..] && neglimit[i..] == nl[i..]
        modifies out
      {
        Rest(sigin[..], xs, i);
        Rest(freqin[..], fs, i);
        Rest(posfreqin[..], ps, i);
        Rest(negfreqin[..], ms, i);
        Rest(poslimit[..], pl, i);
        Rest(neglimit[..], nl, i);
        var f, p, m := freqin[i], posfreqin[i], negfreqin[i];
        var next := Step(l, sigin[i], f * c, p * c, m * c, poslimit[i], neglimit[i]);
        MovedIs(l, sigin[i], f, p, m, poslimit[i], neglimit[i], c);
        RunOn(ys, next, xs, fs, ps, ms, pl, nl, c);
        out[i] := next;
        ys := ys + [next];
        l := next;
        i := i + 1;
      }
      ghost var os := out[..];
      assert os == ys[1..] && ys == [ys[0]] + os;
      OutputsStay(ys[0], os, xs, fs, ps, ms, pl, nl, c, lo, hi);
      if bigOrSmall(l) { l := 0.0; }
      last := l;
    }

    /** The output after y for one sample of each input. */
    static function Moved(y: real, x: real, f: real, p: real, m: real, pos: real, neg: real, c: real): real {
      y + Slew(x - y, f * c, p * c, m * c, pos, neg)
    }

    static lemma MovedIs(y: real, x: real, f: real, p: real, m: real, pos: real, neg: real, c: real)
      ensures Moved(y, x, f, p, m, pos, neg, c) == y + Slew(x - y, f * c, p * c, m * c, pos, neg)
    {
    }

    /** ys[0], and then for each sample an output between the one before and the input. */
    static ghost predicate Run(ys: seq<real>, xs: seq<real>, fs: seq<real>, ps: seq<real>, ms: seq<real>,
                               pl: seq<real>, nl: seq<real>, c: real)
    {
      && 0 < |ys| <= |xs| + 1 && |xs| == |fs| == |ps| == |ms| == |pl| == |nl|
      && forall k: nat :: k + 1 < |ys| ==>
           && ys[k + 1] == Moved(ys[k], xs[k], fs[k], ps[k], ms[k], pl[k], nl[k], c)
           && Between(ys[k + 1], ys[k], xs[k])
    }

    static lemma RunNone(y: real, xs: seq<real>, fs: seq<real>, ps: seq<real>, ms: seq<real>,
                         pl: seq<real>, nl: seq<real>, c: real)
      requires |xs| == |fs| == |ps| == |ms| == |pl| == |nl|
      ensures Run([y], xs, fs, ps, ms, pl, nl, c)
    {
    }

    static lemma RunOn(ys: seq<real>, y: real, xs: seq<real>, fs: seq<real>, ps: seq<real>, ms: seq<real>,
                       pl: seq<real>, nl: seq<real>, c: real)
      requires Run(ys, xs, fs, ps, ms, pl, nl, c) && |ys| <= |xs|
      requires var k := |ys| - 1;
               y == Moved(ys[k], xs[k], fs[k], ps[k], ms[k], pl[k], nl[k], c) && Between(y, ys[k], xs[k])
      ensures Run(ys + [y], xs, fs, ps, ms, pl, nl, c)
    {
      hide Moved, Between;
    }

    /** In plain terms: sample k moves the output by what its own difference, rates and limits ask for. */
    static lemma RunAt(ys: seq<real>, xs: seq<real>, fs: seq<real>, ps: seq<real>, ms: seq<real>,
                       pl: seq<real>, nl: seq<real>, c: real, k: nat, y: real, d: real, f: real, p: real, m: real)
      requires Run(ys, xs, fs, ps, ms, pl, nl, c) && k + 1 < |ys|
      requires y == ys[k] && d == xs[k] - y && f == fs[k] && p == ps[k] && m == ms[k]
      ensures ys[k + 1] == y + Slew(d, f * c, p * c, m * c, pl[k], nl[k])
      ensures y <= ys[k + 1] <= xs[k] || xs[k] <= ys[k + 1] <= y
    {
      hide Moved, Slew;
      MovedIs(y, xs[k], f, p, m, pl[k], nl[k], c);
    }

    static lemma {:induction false} RunStays(ys: seq<real>, xs: seq<real>, fs: seq<real>, ps: seq<real>,
                                             ms: seq<real>, pl: seq<real>, nl: seq<real>, c: real,
                                             lo: real, hi: real)
      requires Run(ys, xs, fs, ps, ms, pl, nl, c)
      ensures lo <= ys[0] <= hi && (forall i: nat :: i < |xs| ==> lo <= xs[i] <= hi) ==>
                forall i: nat :: i < |ys| ==> lo <= ys[i] <= hi
    {
      if |ys| > 1 {
        hide Moved, Between;
        var m := |ys| - 1;
        assert ys[m - 1 + 1] == ys[m];
        RunStays(ys[..m], xs, fs, ps, ms, pl, nl, c, lo, hi);
        BetweenIn(ys[m], ys[m - 1], xs[m - 1], lo, hi);
        assert forall i: nat :: i < m ==> ys[i] == ys[..m][i];
      }
    }

    static lemma Shifted(s: real, last: real, input: real)
      requires Between(s, 0.0, input - last)
      ensures Between(last + s, last, input)
    {
    }

    static lemma OutputsStay(y: real, os: seq<real>, xs: seq<real>, fs: seq<real>, ps: seq<real>,
                             ms: seq<real>, pl: seq<real>, nl: seq<real>, c: real, lo: real, hi: real)
      requires Run([y] + os, xs, fs, ps, ms, pl, nl, c)
      ensures lo <= y <= hi && (forall i: nat :: i < |xs| ==> lo <= xs[i] <= hi) ==>
                forall i: nat :: i < |os| ==> lo <= os[i] <= hi
    {
      hide Run;
      RunStays([y] + os, xs, fs, ps, ms, pl, nl, c, lo, hi);
      assert forall i: nat :: i < |os| ==> os[i] == ([y] + os)[i + 1];
    }

    static method Step(last: real, input: real, f: real, fpos: real, fneg: real, pos: real, neg: real)
      returns (next: real)
      ensures next == last + Slew(input - last, f, fpos, fneg, pos, neg)
      ensures Between(next, last, input)
      ensures f >= 1.0 && fpos >= 1.0 && fneg >= 1.0 ==> next == input
    {
      hide Slew, Between;
      var diff := input - last;
      SlewBetween(diff, f, fpos, fneg, pos, neg);
      Shifted(Slew(diff, f, fpos, fneg, pos, neg), last, input);
      SlewIs(diff, f, fpos, fneg, pos, neg);
      var inc, posinc, neginc := Clip(f), Clip(fpos), Clip(fneg);
      var maxdiff, mindiff := Floor0(pos), Floor0(neg);
      hide Clip, Floor0;
      var diffinc;
      if diff > maxdiff {
        diffinc := posinc * (diff - maxdiff) + inc * maxdiff;
      } else if diff < -mindiff {
        diffinc := neginc * (diff + mindiff) - inc * mindiff;
      } else {
        diffinc := inc * diff;
      }
      next := last + diffinc;
    }
  }
}
