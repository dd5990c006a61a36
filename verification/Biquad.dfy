// The two-pole two-zero filter biquad~ (src/d_filter.c): which coefficients its `list` method accepts, and
// what acceptance means for whole runs of the filter.
module Biquad {

  // ----- runs of the recursion, without clean-up -----

  /** The filter's memory: the last internal value and the one before. */
  datatype State = State(last: real, prev: real)

  function Next(s: State, fb1: real, fb2: real, x: real): State {
    State(x + fb1 * s.last + fb2 * s.prev, s.last)
  }

  /** k samples of silence. */
  function Ring(s: State, fb1: real, fb2: real, k: nat): State {
    if k == 0 then s else Next(Ring(s, fb1, fb2, k - 1), fb1, fb2, 0.0)
  }

  function Power(b: real, k: nat): real {
    if k == 0 then 1.0 else b * Power(b, k - 1)
  }

  /** The quadratic form that the recursion multiplies by -fb2 at every step. */
  function Energy(s: State, fb1: real, fb2: real): real {
    s.last * s.last - fb1 * (s.last * s.prev) - fb2 * (s.prev * s.prev)
  }

  function Discriminant(fb1: real, fb2: real): real {
    fb1 * fb1 + 4.0 * fb2
  }

  /** The test in `list`. */
  predicate Accepts(fb1: real, fb2: real) {
    if Discriminant(fb1, fb2) < 0.0 then fb2 >= -1.0
    else fb1 <= 2.0 && fb1 >= -2.0 && 1.0 - fb1 - fb2 >= 0.0 && 1.0 + fb1 - fb2 >= 0.0
  }

  // ----- real arithmetic -----

  lemma Mul3(a: real, b: real, c: real)
    ensures a * (b * c) == (a * b) * c
  {
  }

  lemma Chain(c: real, p: real, e: real, f: real)
    requires f == p * e
    ensures c * f == (c * p) * e
  {
    Mul3(c, p, e);
  }

  lemma Square(a: real)
    ensures a * a >= 0.0
  {
    if a < 0.0 { assert (-a) * (-a) >= 0.0; }
  }

  lemma SquareSum(a: real, b: real)
    ensures (a + b) * (a + b) == a * a + 2.0 * (a * b) + b * b
  {
  }

  lemma NonNeg(a: real, b: real)
    ensures a >= 0.0 && b >= 0.0 ==> a * b >= 0.0
  {
  }

  lemma Brackets(c: real, x: real)
    ensures (1.0 - c) * x == x - c * x && (1.0 + c) * x == x + c * x
  {
  }

  lemma UnitTimes(b: real, p: real)
    requires 0.0 <= b <= 1.0 && 0.0 <= p <= 1.0
    ensures 0.0 <= b * p <= 1.0
  {
    NonNeg(b, p);
    NonNeg(1.0 - b, p);
    Brackets(b, p);
  }

  lemma MulMono(c: real, a: real, b: real)
    requires c >= 0.0 && a <= b
    ensures c * a <= c * b
  {
    assert c * (b - a) >= 0.0;
  }

  // ----- complex poles -----

  lemma EnergyStep(s: State, fb1: real, fb2: real)
    ensures Energy(Next(s, fb1, fb2, 0.0), fb1, fb2) == -fb2 * Energy(s, fb1, fb2)
  {
    var a, b := s.last, s.prev;
    var v := fb1 * a + fb2 * b;
    var p, q, r := a * a, a * b, b * b;
    assert v * v == (fb1 * a) * (fb1 * a) + 2.0 * ((fb1 * a) * (fb2 * b)) + (fb2 * b) * (fb2 * b) by {
      SquareSum(fb1 * a, fb2 * b);
    }
    Products(fb1, fb2, a, b);
    assert fb1 * (v * a) == (fb1 * fb1) * p + (fb1 * fb2) * q;
    assert v * v == (fb1 * fb1) * p + 2.0 * ((fb1 * fb2) * q) + (fb2 * fb2) * r;
    assert -fb2 * (p - fb1 * q - fb2 * r) == -fb2 * p + (fb1 * fb2) * q + (fb2 * fb2) * r;
  }

  lemma Products(f: real, g: real, a: real, b: real)
    ensures (f * a) * (f * a) == (f * f) * (a * a)
    ensures (f * a) * (g * b) == (f * g) * (a * b)
    ensures (g * b) * (g * b) == (g * g) * (b * b)
    ensures f * ((f * a + g * b) * a) == (f * f) * (a * a) + (f * g) * (a * b)
    ensures -g * (a * a - f * (a * b) - g * (b * b)) == -g * (a * a) + (f * g) * (a * b) + (g * g) * (b * b)
  {
  }

  /** With silence coming in, the energy after k samples is exactly (-fb2)^k times what it was. */
  lemma {:induction false} EnergyDecays(s: State, fb1: real, fb2: real, k: nat)
    ensures Energy(Ring(s, fb1, fb2, k), fb1, fb2) == Power(-fb2, k) * Energy(s, fb1, fb2)
  {
    hide Energy, Next, Power;
    if k == 0 {
      PowerZero(-fb2, Energy(s, fb1, fb2));
    } else {
      EnergyDecays(s, fb1, fb2, k - 1);
      EnergyStep(Ring(s, fb1, fb2, k - 1), fb1, fb2);
      PowerStep(-fb2, k, Energy(s, fb1, fb2), Energy(Ring(s, fb1, fb2, k - 1), fb1, fb2),
                Energy(Ring(s, fb1, fb2, k), fb1, fb2));
    }
  }

  lemma PowerZero(c: real, e: real)
    ensures Power(c, 0) * e == e
  {
  }

  lemma PowerStep(c: real, k: nat, e: real, f: real, g: real)
    requires k > 0 && f == Power(c, k - 1) * e && g == c * f
    ensures g == Power(c, k) * e
  {
    Chain(c, Power(c, k - 1), e, f);
  }

  /** The energy bounds both remembered values, when the discriminant is negative. */
  lemma EnergyBounds(s: State, fb1: real, fb2: real)
    ensures 4.0 * Energy(s, fb1, fb2) + Discriminant(fb1, fb2) * (s.prev * s.prev) >= 0.0
    ensures Discriminant(fb1, fb2) < 0.0 ==> Energy(s, fb1, fb2) >= 0.0
  {
    var a, b := s.last, s.prev;
    var h := 2.0 * a - fb1 * b;
    Square(h);
    SquareSum(2.0 * a, -(fb1 * b));
    Products(fb1, 0.0, b, 0.0);
    assert h * h == 4.0 * (a * a) - 4.0 * (fb1 * (a * b)) + (fb1 * fb1) * (b * b) by { Cross(a, b, fb1); }
    Square(b);
    assert Discriminant(fb1, fb2) * (b * b) == (fb1 * fb1) * (b * b) + 4.0 * (fb2 * (b * b)) by {
      Split(fb1 * fb1, fb2, b * b);
    }
    if Discriminant(fb1, fb2) < 0.0 {
      MulMono(-Discriminant(fb1, fb2), 0.0, b * b);
    }
  }

  lemma Cross(a: real, b: real, f: real)
    ensures (2.0 * a) * (-(f * b)) == -2.0 * (f * (a * b))
    ensures (-(f * b)) * (-(f * b)) == (f * f) * (b * b)
    ensures (2.0 * a) * (2.0 * a) == 4.0 * (a * a)
  {
  }

  lemma Split(x: real, y: real, z: real)
    ensures (x + 4.0 * y) * z == x * z + 4.0 * (y * z)
  {
  }

  lemma {:induction false} PowerShrinks(b: real, k: nat)
    requires 0.0 <= b <= 1.0
    ensures 0.0 <= Power(b, k) <= 1.0
  {
    if k > 0 {
      PowerShrinks(b, k - 1);
      UnitTimes(b, Power(b, k - 1));
    }
  }

  /**
   * Accepted coefficients with complex poles: ringing on, forever, no value ever exceeds the bound set by
   * the energy at the start, and with fb2 > -1 the bound itself shrinks geometrically.
   */
  lemma ComplexPolesBounded(s: State, fb1: real, fb2: real, k: nat)
    requires Accepts(fb1, fb2) && Discriminant(fb1, fb2) < 0.0
    ensures var r := Ring(s, fb1, fb2, k);
            && -Discriminant(fb1, fb2) * (r.prev * r.prev) <= 4.0 * (Power(-fb2, k) * Energy(s, fb1, fb2))
            && Power(-fb2, k) * Energy(s, fb1, fb2) <= Energy(s, fb1, fb2)
  {
    Square(fb1);
    EnergyDecays(s, fb1, fb2, k);
    EnergyBounds(Ring(s, fb1, fb2, k), fb1, fb2);
    EnergyBounds(s, fb1, fb2);
    PowerShrinks(-fb2, k);
    hide Energy, Discriminant, Power, Ring;
    MulMono(Energy(s, fb1, fb2), Power(-fb2, k), 1.0);
    Commute(Energy(s, fb1, fb2), Power(-fb2, k));
    Negated(Discriminant(fb1, fb2), Ring(s, fb1, fb2, k).prev * Ring(s, fb1, fb2, k).prev);
  }

  lemma Commute(a: real, b: real)
    ensures a * b == b * a
  {
  }

  lemma Negated(a: real, b: real)
    ensures -a * b == -(a * b) && a * (-b) == -(a * b)
  {
  }

  // ----- real poles -----

  /** p and q are the two poles: the roots of z^2 - fb1 z - fb2. */
  predicate Poles(p: real, q: real, fb1: real, fb2: real) {
    p + q == fb1 && p * q == -fb2
  }

  lemma DiscriminantOfPoles(p: real, q: real, fb1: real, fb2: real)
    requires Poles(p, q, fb1, fb2)
    ensures Discriminant(fb1, fb2) >= 0.0
  {
    SquareSum(p, q);
    SquareSum(p, -q);
    Square(p - q);
    Negated(p, q);
    Negated(q, q);
    Negated(q, -q);
    assert (p + (-q)) * (p + (-q)) == (p - q) * (p - q);
    SquareIs(p + q, fb1);
  }

  lemma SquareIs(a: real, b: real)
    requires a == b
    ensures a * a == b * b
  {
  }

  lemma TwoBrackets(p: real, q: real, a: real, b: real, c: real, d: real, fb1: real, fb2: real)
    requires Poles(p, q, fb1, fb2) && a == 1.0 - p && b == 1.0 - q && c == 1.0 + p && d == 1.0 + q
    ensures 1.0 - fb1 - fb2 == a * b && 1.0 + fb1 - fb2 == c * d
  {
    Brackets(p, b);
    Brackets(p, d);
  }

  /** Real poles: the coefficients are accepted exactly when both poles lie in [-1, 1]. */
  lemma AcceptsRealIff(p: real, q: real, fb1: real, fb2: real)
    requires Poles(p, q, fb1, fb2)
    ensures Accepts(fb1, fb2) <==> -1.0 <= p <= 1.0 && -1.0 <= q <= 1.0
  {
    DiscriminantOfPoles(p, q, fb1, fb2);
    BracketSigns(p, q, 1.0 - p, 1.0 - q, 1.0 + p, 1.0 + q, fb1, fb2);
    hide Discriminant;
    UnitIff(p, q, 1.0 - fb1 - fb2, 1.0 + fb1 - fb2);
  }

  lemma BracketSigns(p: real, q: real, a: real, b: real, c: real, d: real, fb1: real, fb2: real)
    requires Poles(p, q, fb1, fb2) && a == 1.0 - p && b == 1.0 - q && c == 1.0 + p && d == 1.0 + q
    ensures var c1 := 1.0 - fb1 - fb2;
            (a >= 0.0 && b >= 0.0 ==> c1 >= 0.0) && (a > 0.0 && b < 0.0 ==> c1 < 0.0)
                && (a < 0.0 && b > 0.0 ==> c1 < 0.0)
    ensures var c2 := 1.0 + fb1 - fb2;
            (c >= 0.0 && d >= 0.0 ==> c2 >= 0.0) && (c > 0.0 && d < 0.0 ==> c2 < 0.0)
                && (c < 0.0 && d > 0.0 ==> c2 < 0.0)
  {
    TwoBrackets(p, q, a, b, c, d, fb1, fb2);
    hide Poles;
    SignProduct(a, b);
    SignProduct(c, d);
  }

  lemma UnitIff(p: real, q: real, c1: real, c2: real)
    requires (1.0 - p >= 0.0 && 1.0 - q >= 0.0 ==> c1 >= 0.0) && (1.0 + p >= 0.0 && 1.0 + q >= 0.0 ==> c2 >= 0.0)
    requires (1.0 - p > 0.0 && 1.0 - q < 0.0 ==> c1 < 0.0) && (1.0 - p < 0.0 && 1.0 - q > 0.0 ==> c1 < 0.0)
    requires (1.0 + p > 0.0 && 1.0 + q < 0.0 ==> c2 < 0.0) && (1.0 + p < 0.0 && 1.0 + q > 0.0 ==> c2 < 0.0)
    ensures -2.0 <= p + q <= 2.0 && c1 >= 0.0 && c2 >= 0.0 <==> -1.0 <= p <= 1.0 && -1.0 <= q <= 1.0
  {
  }

  lemma DiscriminantIs(fb1: real, fb2: real, aa: real, bb: real)
    requires fb1 * fb1 == 4.0 * aa && aa + bb == -fb2
    ensures Discriminant(fb1, fb2) == -4.0 * bb
  {
  }

  lemma SignProduct(a: real, b: real)
    ensures a >= 0.0 && b >= 0.0 ==> a * b >= 0.0
    ensures a > 0.0 && b < 0.0 ==> a * b < 0.0
    ensures a < 0.0 && b > 0.0 ==> a * b < 0.0
  {
    if a > 0.0 && b < 0.0 { assert a * (-b) > 0.0; }
    if a < 0.0 && b > 0.0 { assert (-a) * b > 0.0; }
  }

  function Times(a: real, b: real): real { a * b }

  function Sq(x: real): real { Times(x, x) }

  /** Complex poles a +- ib: accepted exactly when they lie in the closed unit disc. */
  lemma AcceptsComplexIff(a: real, b: real, fb1: real, fb2: real)
    requires b != 0.0 && fb1 == 2.0 * a && Sq(a) + Sq(b) == -fb2
    ensures Discriminant(fb1, fb2) < 0.0
    ensures Accepts(fb1, fb2) <==> Sq(a) + Sq(b) <= 1.0
  {
    SquareFacts(a, b, fb1);
    hide Sq, Accepts, Discriminant;
    ComplexIff(fb1, fb2, Sq(a), Sq(b));
  }

  lemma SquareFacts(a: real, b: real, f: real)
    requires f == 2.0 * a && b != 0.0
    ensures Sq(f) == 4.0 * Sq(a) && Sq(b) > 0.0
  {
    hide Times;
    TimesSigns(b, b);
    TimesSigns(-b, -b);
    SqDouble(a);
  }

  lemma TimesSigns(a: real, b: real)
    ensures a > 0.0 && b > 0.0 ==> Times(a, b) > 0.0
    ensures Times(-a, -b) == Times(a, b)
  {
  }

  lemma SqDouble(a: real)
    ensures Sq(2.0 * a) == 4.0 * Sq(a)
  {
  }

  lemma ComplexIff(fb1: real, fb2: real, aa: real, bb: real)
    requires Sq(fb1) == 4.0 * aa && aa + bb == -fb2 && bb > 0.0
    ensures Discriminant(fb1, fb2) < 0.0
    ensures Accepts(fb1, fb2) <==> aa + bb <= 1.0
  {
    DiscriminantIs(fb1, fb2, aa, bb);
  }

  /** The part of the memory that the pole q does not touch. */
  function Free(s: State, q: real): real { s.last - q * s.prev }

  /** The part of the memory free of the pole q has been multiplied by p, k times. */
  predicate Splits(r: State, s: State, p: real, q: real, k: nat) {
    Free(r, q) == Power(p, k) * (Free(s, q))
  }

  /** Linear growth at most. */
  predicate Bounded(r: State, s: State, q: real, k: nat) {
    Abs(r.last) <= Grown(Abs(s.last), k, Abs(Free(s, q)))
  }

  function Grown(c: real, k: nat, a: real): real {
    c + k as real * a
  }

  /** Between the two poles the recursion splits: the part free of q is multiplied by p at every step. */
  lemma {:induction false} RealPoleSplits(s: State, p: real, q: real, fb1: real, fb2: real, k: nat)
    requires Poles(p, q, fb1, fb2)
    ensures Splits(Ring(s, fb1, fb2, k), s, p, q, k)
  {
    hide Next, Poles, Power, Splits;
    if k == 0 {
      SplitsZero(s, p, q);
    } else {
      RealPoleSplits(s, p, q, fb1, fb2, k - 1);
      SplitsNext(Ring(s, fb1, fb2, k - 1), s, p, q, fb1, fb2, k);
    }
  }

  lemma SplitsZero(s: State, p: real, q: real)
    ensures Splits(s, s, p, q, 0)
  {
    hide Free, Power;
    PowerZero(p, Free(s, q));
  }

  lemma SplitsNext(r: State, s: State, p: real, q: real, fb1: real, fb2: real, k: nat)
    requires k > 0 && Poles(p, q, fb1, fb2) && Splits(r, s, p, q, k - 1)
    ensures Splits(Next(r, fb1, fb2, 0.0), s, p, q, k)
  {
    var t := Next(r, fb1, fb2, 0.0);
    hide Next, Poles, Power;
    SplitStep(r, p, q, fb1, fb2);
    PowerStep(p, k, Free(s, q), Free(r, q), Free(t, q));
  }

  lemma SplitStep(r: State, p: real, q: real, fb1: real, fb2: real)
    requires Poles(p, q, fb1, fb2)
    ensures var t := Next(r, fb1, fb2, 0.0); Free(t, q) == p * (Free(r, q))
  {
    Spread(p, q, r.last, r.prev);
    Congruent(fb1, p + q, r.last);
    Congruent(fb2, -(p * q), r.prev);
  }

  lemma Congruent(a: real, b: real, c: real)
    requires a == b
    ensures a * c == b * c
  {
  }

  lemma Spread(p: real, q: real, a: real, b: real)
    ensures (p + q) * a == p * a + q * a
    ensures (-(p * q)) * b == -((p * q) * b)
    ensures p * (a - q * b) == p * a - (p * q) * b
  {
    Mul3(p, q, b);
  }

  function Abs(x: real): real { if x < 0.0 then -x else x }

  lemma AbsMul(c: real, x: real, m: real)
    requires -1.0 <= c <= 1.0 && m == c * x
    ensures -Abs(x) <= m <= Abs(x)
  {
    Brackets(c, x);
    if x >= 0.0 {
      NonNeg(1.0 - c, x);
      NonNeg(1.0 + c, x);
    } else {
      Brackets(c, -x);
      Negated(c, x);
      NonNeg(1.0 - c, -x);
      NonNeg(1.0 + c, -x);
    }
  }

  lemma {:induction false} PowerInUnit(p: real, k: nat)
    requires -1.0 <= p <= 1.0
    ensures -1.0 <= Power(p, k) <= 1.0
  {
    if k > 0 {
      PowerInUnit(p, k - 1);
      AbsMul(p, Power(p, k - 1), Power(p, k));
    }
  }

  /**
   * Accepted coefficients with real poles: what rings on can grow no faster than linearly, the worst case
   * being a double pole at 1 or -1.
   */
  lemma {:induction false} RealPolesBounded(s: State, p: real, q: real, fb1: real, fb2: real, k: nat)
    requires Accepts(fb1, fb2) && Poles(p, q, fb1, fb2)
    ensures Bounded(Ring(s, fb1, fb2, k), s, q, k)
  {
    hide Next, Accepts, Poles, Power, Abs, Splits, Bounded;
    AcceptsRealIff(p, q, fb1, fb2);
    if k == 0 {
      BoundedZero(s, q);
    } else {
      RealPolesBounded(s, p, q, fb1, fb2, k - 1);
      RealPoleSplits(s, p, q, fb1, fb2, k);
      PowerInUnit(p, k);
      NextPrev(Ring(s, fb1, fb2, k - 1), fb1, fb2);
      BoundStep(Ring(s, fb1, fb2, k), Ring(s, fb1, fb2, k - 1), p, s, q, k);
    }
  }

  lemma BoundedZero(s: State, q: real)
    ensures Bounded(s, s, q, 0)
  {
  }

  lemma BoundStep(r: State, before: State, p: real, s: State, q: real, k: nat)
    requires Splits(r, s, p, q, k) && r.prev == before.last
    requires -1.0 <= Power(p, k) <= 1.0 && -1.0 <= q <= 1.0 && k > 0
    requires Bounded(before, s, q, k - 1)
    ensures Bounded(r, s, q, k)
  {
    hide Abs, Power, Grown, Splits, Free;
    SplitsBound(r, p, s, q, k);
    OneMore(Abs(s.last), k, Abs(Free(s, q)));
  }

  lemma SplitsBound(r: State, p: real, s: State, q: real, k: nat)
    requires Splits(r, s, p, q, k) && -1.0 <= Power(p, k) <= 1.0 && -1.0 <= q <= 1.0
    ensures Abs(r.last) <= Abs(Free(s, q)) + Abs(r.prev)
  {
    hide Abs, Power;
    var u, pk, l := Free(s, q), Power(p, k), r.prev;
    var m, z := pk * u, q * l;
    assert r.last == m + z;
    AbsMul(pk, u, m);
    AbsMul(q, l, z);
    AbsSum(r.last, m, z, Abs(u), Abs(l));
  }

  lemma OneMore(c: real, k: nat, a: real)
    requires k > 0
    ensures Grown(c, k, a) == Grown(c, k - 1, a) + a
  {
  }

  lemma AbsSum(t: real, a: real, b: real, c: real, d: real)
    requires t - b == a && -c <= a <= c && -d <= b <= d
    ensures Abs(t) <= c + d
  {
  }

  // ----- the object -----

  /** The internal values of a run over xs, each cleaned up as it is made. */
  function Internal(s: State, fb1: real, fb2: real, bigOrSmall: real -> bool, xs: seq<real>): (v: seq<real>)
    ensures |v| == |xs| + 2
  {
    if xs == [] then [s.prev, s.last]
    else
      var v := Internal(s, fb1, fb2, bigOrSmall, xs[..|xs| - 1]);
      var y := Next(State(v[|v| - 1], v[|v| - 2]), fb1, fb2, xs[|xs| - 1]).last;
      v + [if bigOrSmall(y) then 0.0 else y]
  }

  lemma NextPrev(s: State, fb1: real, fb2: real)
    ensures Next(s, fb1, fb2, 0.0).prev == s.last
  {
  }

  lemma InternalNone(s: State, fb1: real, fb2: real, bigOrSmall: real -> bool)
    ensures Internal(s, fb1, fb2, bigOrSmall, []) == [s.prev, s.last]
  {
  }

  lemma InternalNext(s: State, fb1: real, fb2: real, bigOrSmall: real -> bool, xs: seq<real>, i: nat, y: real)
    requires i < |xs|
    requires var v := Internal(s, fb1, fb2, bigOrSmall, xs[..i]); y == Feedback(xs[i], v[i + 1], v[i], fb1, fb2)
    ensures Internal(s, fb1, fb2, bigOrSmall, xs[..i + 1])
            == Internal(s, fb1, fb2, bigOrSmall, xs[..i]) + [if bigOrSmall(y) then 0.0 else y]
  {
    var zs := xs[..i + 1];
    assert zs[..i] == xs[..i] && zs[i] == xs[i];
    hide Next, Feedback;
    var v := Internal(s, fb1, fb2, bigOrSmall, xs[..i]);
    NextIs(State(v[i + 1], v[i]), fb1, fb2, xs[i]);
  }

  lemma NextIs(s: State, fb1: real, fb2: real, x: real)
    ensures Next(s, fb1, fb2, x).last == Feedback(x, s.last, s.prev, fb1, fb2)
  {
  }

  /** While clean-up finds nothing to do, silence rings exactly as the recursion says. */
  lemma {:induction false} SilenceRings(s: State, fb1: real, fb2: real, bigOrSmall: real -> bool, xs: seq<real>)
    requires forall i: nat :: i < |xs| ==> xs[i] == 0.0
    requires forall k: nat :: k <= |xs| ==> !bigOrSmall(Ring(s, fb1, fb2, k).last)
    ensures var v := Internal(s, fb1, fb2, bigOrSmall, xs);
            State(v[|v| - 1], v[|v| - 2]) == Ring(s, fb1, fb2, |xs|)
  {
    if xs != [] {
      var ys := xs[..|xs| - 1];
      SilenceRings(s, fb1, fb2, bigOrSmall, ys);
      NextPrev(Ring(s, fb1, fb2, |ys|), fb1, fb2);
      hide Next;
      assert !bigOrSmall(Ring(s, fb1, fb2, |xs|).last);
    }
  }

  // ----- whole runs, on inputs and outputs alone -----

  function Feedback(x: real, a: real, b: real, fb1: real, fb2: real): real {
    x + fb1 * a + fb2 * b
  }

  function Blend(a: real, b: real, c: real, ff1: real, ff2: real, ff3: real): real {
    ff1 * a + ff2 * b + ff3 * c
  }

  lemma FeedbackIs(x: real, a: real, b: real, fb1: real, fb2: real)
    ensures Feedback(x, a, b, fb1, fb2) == x + fb1 * a + fb2 * b
  {
  }

  lemma BlendIs(a: real, b: real, c: real, ff1: real, ff2: real, ff3: real)
    ensures Blend(a, b, c, ff1, ff2, ff3) == ff1 * a + ff2 * b + ff3 * c
  {
  }

  /** What the filter keeps between samples: two values to begin with, then one for each input, cleaned up. */
  ghost predicate Kept(w: seq<real>, xs: seq<real>, fb1: real, fb2: real, bigOrSmall: real -> bool) {
    && |w| == |xs| + 2
    && forall i: nat :: i < |xs| ==>
         var o := Feedback(xs[i], w[i + 1], w[i], fb1, fb2);
         w[i + 2] == if bigOrSmall(o) then 0.0 else o
  }

  /** The outputs that belong to them. */
  ghost predicate Heard(ys: seq<real>, w: seq<real>, ff1: real, ff2: real, ff3: real) {
    |w| == |ys| + 2 && forall i: nat :: i < |ys| ==> ys[i] == Blend(w[i + 2], w[i + 1], w[i], ff1, ff2, ff3)
  }

  lemma Nothing(w: seq<real>, fb1: real, fb2: real, ff1: real, ff2: real, ff3: real, bigOrSmall: real -> bool)
    requires |w| == 2
    ensures Kept(w, [], fb1, fb2, bigOrSmall) && Heard([], w, ff1, ff2, ff3)
  {
  }

  lemma KeptNext(w: seq<real>, xs: seq<real>, fb1: real, fb2: real, bigOrSmall: real -> bool, i: nat, o: real)
    requires i < |xs| && Kept(w, xs[..i], fb1, fb2, bigOrSmall) && o == Feedback(xs[i], w[i + 1], w[i], fb1, fb2)
    ensures Kept(w + [if bigOrSmall(o) then 0.0 else o], xs[..i + 1], fb1, fb2, bigOrSmall)
  {
    hide Feedback;
    assert forall k: nat :: k < i ==> xs[..i + 1][k] == xs[..i][k];
  }

  lemma HeardNext(ys: seq<real>, w: seq<real>, ff1: real, ff2: real, ff3: real, a: real, y: real)
    requires Heard(ys, w, ff1, ff2, ff3) && y == Blend(a, w[|ys| + 1], w[|ys|], ff1, ff2, ff3)
    ensures Heard(ys + [y], w + [a], ff1, ff2, ff3)
  {
    hide Blend;
  }

  lemma KeptSize(w: seq<real>, xs: seq<real>, fb1: real, fb2: real, bigOrSmall: real -> bool)
    requires Kept(w, xs, fb1, fb2, bigOrSmall)
    ensures |w| == |xs| + 2
  {
  }

  /** A run that goes on where another stopped. */
  lemma Join(w: seq<real>, v: seq<real>, xs: seq<real>, us: seq<real>, ys: seq<real>, zs: seq<real>,
             fb1: real, fb2: real, ff1: real, ff2: real, ff3: real, bigOrSmall: real -> bool)
    requires Kept(w, xs, fb1, fb2, bigOrSmall) && Kept(v, us, fb1, fb2, bigOrSmall)
    requires Heard(ys, w, ff1, ff2, ff3) && Heard(zs, v, ff1, ff2, ff3) && v[..2] == w[|xs|..]
    ensures Kept(w + v[2..], xs + us, fb1, fb2, bigOrSmall) && Heard(ys + zs, w + v[2..], ff1, ff2, ff3)
  {
    hide Feedback, Blend;
    var r := w + v[2..];
    assert v[0] == v[..2][0] == w[|xs|] && v[1] == v[..2][1] == w[|xs| + 1];
    assert forall k: nat :: k < |v| ==> r[|xs| + k] == v[k];
    forall i: nat | i < |xs + us|
      ensures var o := Feedback((xs + us)[i], r[i + 1], r[i], fb1, fb2); r[i + 2] == if bigOrSmall(o) then 0.0 else o
      ensures (ys + zs)[i] == Blend(r[i + 2], r[i + 1], r[i], ff1, ff2, ff3)
    {
      if i >= |xs| {
        assert (xs + us)[i] == us[i - |xs|] && (ys + zs)[i] == zs[i - |xs|];
      }
    }
  }

  /** Clean-up found nothing to do at sample i. */
  ghost predicate Untouched(w: seq<real>, xs: seq<real>, fb1: real, fb2: real, bigOrSmall: real -> bool, i: nat) {
    i < |xs| && i + 2 <= |w| && !bigOrSmall(xs[i] + fb1 * w[i + 1] + fb2 * w[i])
  }

  /** The difference equation, at every sample for which clean-up finds nothing to do from two samples before on. */
  ghost predicate Filtered(w: seq<real>, xs: seq<real>, ys: seq<real>, fb1: real, fb2: real, ff1: real, ff2: real,
                           ff3: real, bigOrSmall: real -> bool)
  {
    && |xs| == |ys|
    && forall i: nat ::
         2 <= i < |xs| && Untouched(w, xs, fb1, fb2, bigOrSmall, i) && Untouched(w, xs, fb1, fb2, bigOrSmall, i - 1)
         && Untouched(w, xs, fb1, fb2, bigOrSmall, i - 2) ==>
           ys[i] - fb1 * ys[i - 1] - fb2 * ys[i - 2] == ff1 * xs[i] + ff2 * xs[i - 1] + ff3 * xs[i - 2]
  }

  lemma DifferenceEquation(w: seq<real>, xs: seq<real>, ys: seq<real>, fb1: real, fb2: real, ff1: real, ff2: real,
                           ff3: real, bigOrSmall: real -> bool)
    requires Kept(w, xs, fb1, fb2, bigOrSmall) && Heard(ys, w, ff1, ff2, ff3) && |xs| == |ys|
    ensures Filtered(w, xs, ys, fb1, fb2, ff1, ff2, ff3, bigOrSmall)
  {
    forall i: nat | 2 <= i < |xs| && Untouched(w, xs, fb1, fb2, bigOrSmall, i)
                    && Untouched(w, xs, fb1, fb2, bigOrSmall, i - 1) && Untouched(w, xs, fb1, fb2, bigOrSmall, i - 2)
      ensures ys[i] - fb1 * ys[i - 1] - fb2 * ys[i - 2] == ff1 * xs[i] + ff2 * xs[i - 1] + ff3 * xs[i - 2]
    {
      EquationAt(w, xs, ys, fb1, fb2, ff1, ff2, ff3, bigOrSmall, i);
    }
  }

  lemma EquationAt(w: seq<real>, xs: seq<real>, ys: seq<real>, fb1: real, fb2: real, ff1: real, ff2: real,
                   ff3: real, bigOrSmall: real -> bool, i: nat)
    requires Kept(w, xs, fb1, fb2, bigOrSmall) && Heard(ys, w, ff1, ff2, ff3) && 2 <= i < |xs| == |ys|
    requires Untouched(w, xs, fb1, fb2, bigOrSmall, i) && Untouched(w, xs, fb1, fb2, bigOrSmall, i - 1)
    requires Untouched(w, xs, fb1, fb2, bigOrSmall, i - 2)
    ensures ys[i] - fb1 * ys[i - 1] - fb2 * ys[i - 2] == ff1 * xs[i] + ff2 * xs[i - 1] + ff3 * xs[i - 2]
  {
    assert |w| == |xs| + 2 == |ys| + 2;
    hide Kept, Heard, Untouched, Feedback, Blend;
    KeptAt(w, xs, fb1, fb2, bigOrSmall, i, w[i + 2], w[i + 1], w[i]);
    KeptAt(w, xs, fb1, fb2, bigOrSmall, i - 1, w[i + 1], w[i], w[i - 1]);
    KeptAt(w, xs, fb1, fb2, bigOrSmall, i - 2, w[i], w[i - 1], w[i - 2]);
    HeardAt(ys, w, ff1, ff2, ff3, i, w[i + 2], w[i + 1], w[i]);
    HeardAt(ys, w, ff1, ff2, ff3, i - 1, w[i + 1], w[i], w[i - 1]);
    HeardAt(ys, w, ff1, ff2, ff3, i - 2, w[i], w[i - 1], w[i - 2]);
    Direct(w[i + 2], w[i + 1], w[i], w[i - 1], w[i - 2], xs[i], xs[i - 1], xs[i - 2], ys[i], ys[i - 1], ys[i - 2],
           fb1, fb2, ff1, ff2, ff3);
  }

  lemma KeptAt(w: seq<real>, xs: seq<real>, fb1: real, fb2: real, bigOrSmall: real -> bool, i: nat,
               a: real, b: real, c: real)
    requires Kept(w, xs, fb1, fb2, bigOrSmall) && Untouched(w, xs, fb1, fb2, bigOrSmall, i)
    requires a == w[i + 2] && b == w[i + 1] && c == w[i]
    ensures a == Feedback(xs[i], b, c, fb1, fb2)
  {
  }

  lemma HeardAt(ys: seq<real>, w: seq<real>, ff1: real, ff2: real, ff3: real, i: nat, a: real, b: real, c: real)
    requires Heard(ys, w, ff1, ff2, ff3) && i < |ys| && a == w[i + 2] && b == w[i + 1] && c == w[i]
    ensures ys[i] == Blend(a, b, c, ff1, ff2, ff3)
  {
    hide Blend;
  }

  /** What is kept cancels out. */
  lemma Direct(a: real, b: real, c: real, d: real, e: real, x0: real, x1: real, x2: real,
               y0: real, y1: real, y2: real, fb1: real, fb2: real, ff1: real, ff2: real, ff3: real)
    requires a == Feedback(x0, b, c, fb1, fb2) && b == Feedback(x1, c, d, fb1, fb2) && c == Feedback(x2, d, e, fb1, fb2)
    requires y0 == Blend(a, b, c, ff1, ff2, ff3) && y1 == Blend(b, c, d, ff1, ff2, ff3)
    requires y2 == Blend(c, d, e, ff1, ff2, ff3)
    ensures y0 - fb1 * y1 - fb2 * y2 == ff1 * x0 + ff2 * x1 + ff3 * x2
  {
    hide Feedback;
    Through(ff1, a, b, c, x0, fb1, fb2);
    Through(ff2, b, c, d, x1, fb1, fb2);
    Through(ff3, c, d, e, x2, fb1, fb2);
    Scaled(fb1, ff1 * b, ff2 * c, ff3 * d);
    Scaled(fb2, ff1 * c, ff2 * d, ff3 * e);
  }

  lemma Through(f: real, a: real, b: real, c: real, x: real, fb1: real, fb2: real)
    requires a == Feedback(x, b, c, fb1, fb2)
    ensures f * a - fb1 * (f * b) - fb2 * (f * c) == f * x
  {
    assert f * (a - fb1 * b - fb2 * c) == f * x;
  }

  lemma Scaled(p: real, a: real, b: real, c: real)
    ensures p * (a + b + c) == p * a + p * b + p * c
  {
  }

  function Joined(blocks: seq<seq<real>>): (xs: seq<real>) {
    if blocks == [] then [] else Joined(blocks[..|blocks| - 1]) + blocks[|blocks| - 1]
  }

  class Biquad {
    var x1: real
    var x2: real
    var fb1: real
    var fb2: real
    var ff1: real
    var ff2: real
    var ff3: real

    /** New coefficients, all bashed to zero if the filter would be unstable. */
    method List(b1: real, b2: real, f1: real, f2: real, f3: real)
      modifies this`fb1, this`fb2, this`ff1, this`ff2, this`ff3
      ensures Accepts(fb1, fb2)
      ensures Accepts(b1, b2) ==> fb1 == b1 && fb2 == b2 && ff1 == f1 && ff2 == f2 && ff3 == f3
      ensures !Accepts(b1, b2) ==> fb1 == fb2 == ff1 == ff2 == ff3 == 0.0
    {
      var discriminant := b1 * b1 + 4.0 * b2;
      var stable := false;
      if discriminant < 0.0 {
        if b2 >= -1.0 { stable := true; }
      } else {
        if b1 <= 2.0 && b1 >= -2.0 && 1.0 - b1 - b2 >= 0.0 && 1.0 + b1 - b2 >= 0.0 { stable := true; }
      }
      if stable {
        fb1, fb2, ff1, ff2, ff3 := b1, b2, f1, f2, f3;
      } else {
        fb1, fb2, ff1, ff2, ff3 := 0.0, 0.0, 0.0, 0.0, 0.0;
      }
    }

    /** One block, input and output possibly in the same buffer; w is what the filter kept. */
    method Perform(in_: array<real>, out: array<real>, bigOrSmall: real -> bool) returns (ghost w: seq<real>)
      requires in_.Length == out.Length
      modifies this`x1, this`x2, out
      ensures Kept(w, old(in_[..]), fb1, fb2, bigOrSmall) && Heard(out[..], w, ff1, ff2, ff3)
      ensures w[0] == old(x2) && w[1] == old(x1) && x1 == w[out.Length + 1] && x2 == w[out.Length]
      ensures w == Internal(State(old(x1), old(x2)), fb1, fb2, bigOrSmall, old(in_[..]))
    {
      hide Internal, Kept, Heard, Feedback, Blend;
      InternalNone(State(x1, x2), fb1, fb2, bigOrSmall);
      var last, prev, i := x1, x2, 0;
      var b1, b2, f1, f2, f3 := fb1, fb2, ff1, ff2, ff3;
      ghost var s, xs, ys := State(x1, x2), in_[..], [];
      w := [x2, x1];
      assert xs[..0] == [];
      Nothing(w, fb1, fb2, ff1, ff2, ff3, bigOrSmall);
      while i < in_.Length
        invariant i == |ys| <= in_.Length && |w| == i + 2 && out[..i] == ys
        invariant w == Internal(s, fb1, fb2, bigOrSmall, xs[..i])
        invariant w[0] == s.prev && w[1] == s.last && last == w[i + 1] && prev == w[i]
        invariant Kept(w, xs[..i], fb1, fb2, bigOrSmall) && Heard(ys, w, ff1, ff2, ff3)
        invariant forall k: nat :: i <= k < in_.Length ==> in_[k] == xs[k]
        modifies out
      {
        var x := in_[i];
        var output := x + b1 * last + b2 * prev;
        FeedbackIs(x, last, prev, b1, b2);
        KeptNext(w, xs, fb1, fb2, bigOrSmall, i, output);
        InternalNext(s, fb1, fb2, bigOrSmall, xs, i, output);
        if bigOrSmall(output) { output := 0.0; }
        var y := f1 * output + f2 * last + f3 * prev;
        out[i] := y;
        BlendIs(output, last, prev, f1, f2, f3);
        assert last == w[|ys| + 1] && prev == w[|ys|];
        HeardNext(ys, w, ff1, ff2, ff3, output, y);
        ys := ys + [y];
        w := w + [output];
        prev := last;
        last := output;
        i := i + 1;
      }
      assert xs[..i] == xs && out[..i] == out[..];
      x1 := last;
      x2 := prev;
    }

    /** Blocks of any sizes, one after another: the input is filtered as if it were one block. */
    method Run(blocks: seq<seq<real>>, bigOrSmall: real -> bool) returns (ys: seq<real>, ghost w: seq<real>)
      modifies this`x1, this`x2
      ensures Filtered(w, Joined(blocks), ys, fb1, fb2, ff1, ff2, ff3, bigOrSmall)
      ensures Kept(w, Joined(blocks), fb1, fb2, bigOrSmall) && w[0] == old(x2) && w[1] == old(x1)
    {
      hide Kept, Heard, Filtered, Internal;
      ys, w := [], [x2, x1];
      Nothing(w, fb1, fb2, ff1, ff2, ff3, bigOrSmall);
      var j := 0;
      while j < |blocks|
        invariant j <= |blocks| && |w| == |ys| + 2 && |ys| == |Joined(blocks[..j])|
        invariant Kept(w, Joined(blocks[..j]), fb1, fb2, bigOrSmall) && Heard(ys, w, ff1, ff2, ff3)
        invariant w[0] == old(x2) && w[1] == old(x1) && x1 == w[|ys| + 1] && x2 == w[|ys|]
      {
        var block := blocks[j];
        var in_ := new real[|block|](i requires 0 <= i < |block| => block[i]);
        var out := new real[|block|];
        assert in_[..] == block;
        ghost var v := Perform(in_, out, bigOrSmall);
        KeptSize(v, block, fb1, fb2, bigOrSmall);
        assert v[..2] == w[|ys|..];
        Join(w, v, Joined(blocks[..j]), block, ys, out[..], fb1, fb2, ff1, ff2, ff3, bigOrSmall);
        assert blocks[..j + 1][..j] == blocks[..j];
        ys, w := ys + out[..], w + v[2..];
        j := j + 1;
      }
      assert blocks[..j] == blocks;
      DifferenceEquation(w, Joined(blocks), ys, fb1, fb2, ff1, ff2, ff3, bigOrSmall);
    }
  }
}
