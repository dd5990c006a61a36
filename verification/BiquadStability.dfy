/**
 * Which of the coefficients that biquad~ accepts (src/d_filter.c:423-455) keep everything that rings on within
 * a bound: all of them, but for a double pole at 1 or -1.
 */
module BiquadStability {
  import opened Biquad

  /** From s the filter rings within m, forever. */
  ghost predicate Within(s: State, fb1: real, fb2: real, m: real) {
    forall k: nat :: Near(Ring(s, fb1, fb2, k), m)
  }

  predicate Near(r: State, m: real) { -m <= r.last <= m }

  /** From whatever it remembers, the filter rings within some bound. */
  ghost predicate StaysBounded(fb1: real, fb2: real) {
    forall s: State :: HasBound(s, fb1, fb2)
  }

  ghost predicate HasBound(s: State, fb1: real, fb2: real) {
    exists m: real :: Within(s, fb1, fb2, m)
  }

  predicate DoublePole(fb1: real, fb2: real) {
    fb2 == -1.0 && (fb1 == 2.0 || fb1 == -2.0)
  }

  // ----- a form that never grows -----

  function Form(s: State, a: real, b: real): real {
    (1.0 - b) * (s.last * s.last + s.prev * s.prev) - 2.0 * (a * (s.last * s.prev))
  }

  lemma FormDrops(x: real, y: real, a: real, b: real)
    ensures var u := a * x - (1.0 - b) * y;
            Form(State(x, y), a, b) - Form(State(a * x + b * y, x), a, b) == (1.0 + b) * (u * u)
  {
  }

  lemma FormStep(s: State, a: real, b: real)
    requires b >= -1.0
    ensures Form(Next(s, a, b, 0.0), a, b) <= Form(s, a, b)
  {
    FormDrops(s.last, s.prev, a, b);
    var u := a * s.last - (1.0 - b) * s.prev;
    Square(u);
    NonNeg(1.0 + b, u * u);
    hide Form;
    assert Next(s, a, b, 0.0) == State(a * s.last + b * s.prev, s.last);
  }

  lemma {:induction false} FormShrinks(s: State, a: real, b: real, k: nat)
    requires b >= -1.0
    ensures Form(Ring(s, a, b, k), a, b) <= Form(s, a, b)
  {
    hide Form, Next;
    if k > 0 {
      FormShrinks(s, a, b, k - 1);
      FormStep(Ring(s, a, b, k - 1), a, b);
    }
  }

  lemma FormIs(x: real, y: real, a: real, b: real)
    ensures Form(State(x, y), a, b) == (1.0 - b - a) * (x * x) + (1.0 - b - a) * (y * y) + a * ((x - y) * (x - y))
  {
  }

  lemma FormCovers(s: State, a: real, b: real)
    requires a >= 0.0 && a <= 1.0 - b
    ensures (1.0 - b - a) * (s.last * s.last) <= Form(s, a, b)
  {
    var x, y := s.last, s.prev;
    FormIs(x, y, a, b);
    Square(y);
    Square(x - y);
    NonNeg(a, (x - y) * (x - y));
    NonNeg(1.0 - b - a, y * y);
    hide Form;
  }

  /** A bound on a square is a bound on what is squared. */
  lemma RootBound(x: real, g: real, v: real)
    requires g > 0.0 && g * (x * x) <= v
    ensures v / g >= 0.0 && -(v / g + 1.0) <= x <= v / g + 1.0
  {
    Square(x);
    var w := v / g;
    Scaled(g, v);
    assert g * w == v;
    Cancel(g, x * x, w);
    Larger(x);
    Larger(-x);
    Negated(x, x);
    Negated(-x, x);
  }

  lemma Scaled(g: real, v: real)
    requires g > 0.0
    ensures g * (v / g) == v
  {
  }

  lemma Cancel(g: real, p: real, w: real)
    requires g > 0.0 && g * p <= g * w
    ensures p <= w
  {
    assert p > w ==> g * (p - w) > 0.0;
  }

  lemma Larger(x: real)
    ensures x > 1.0 ==> x * x > x
  {
    if x > 1.0 { assert x * (x - 1.0) > 0.0; }
  }

  lemma RootNear(r: State, g: real, v: real)
    requires g > 0.0 && g * (r.last * r.last) <= v
    ensures Near(r, v / g + 1.0)
  {
    RootBound(r.last, g, v);
  }

  // ----- no pole on the unit circle's real points -----

  lemma InsideWithin(s: State, a: real, b: real)
    requires b >= -1.0 && 0.0 <= a < 1.0 - b
    ensures Within(s, a, b, Form(s, a, b) / (1.0 - b - a) + 1.0)
  {
    hide Form, Ring, Near;
    forall k: nat ensures Near(Ring(s, a, b, k), Form(s, a, b) / (1.0 - b - a) + 1.0) {
      FormShrinks(s, a, b, k);
      FormCovers(Ring(s, a, b, k), a, b);
      RootNear(Ring(s, a, b, k), 1.0 - b - a, Form(s, a, b));
    }
  }

  // ----- one pole at 1, the other at -fb2 -----

  function Sum(r: State, b: real): real { r.last + b * r.prev }

  function Difference(r: State): real { r.last - r.prev }

  lemma EdgeStep(s: State, b: real)
    requires -1.0 <= b <= 1.0
    ensures var r := Next(s, 1.0 - b, b, 0.0);
            Sum(r, b) == Sum(s, b) && Abs(Difference(r)) <= Abs(Difference(s))
  {
    var r := Next(s, 1.0 - b, b, 0.0);
    assert Difference(r) == -(b * Difference(s));
    AbsMul(b, Difference(s), b * Difference(s));
    hide Difference, Next;
  }

  lemma {:induction false} EdgeParts(s: State, b: real, k: nat)
    requires -1.0 <= b <= 1.0
    ensures var r := Ring(s, 1.0 - b, b, k); Sum(r, b) == Sum(s, b) && Abs(Difference(r)) <= Abs(Difference(s))
  {
    hide Next, Sum, Difference, Abs;
    if k > 0 {
      EdgeParts(s, b, k - 1);
      EdgeStep(Ring(s, 1.0 - b, b, k - 1), b);
    }
  }

  lemma EdgeNear(r: State, b: real, c: real, d: real)
    requires -1.0 < b <= 1.0 && Sum(r, b) == c && Abs(Difference(r)) <= d
    ensures Near(r, (Abs(c) + d) / (1.0 + b))
  {
    var t, g := b * Difference(r), 1.0 + b;
    AbsMul(b, Difference(r), t);
    var v := g * r.last;
    assert v == c + t;
    assert -(Abs(c) + d) <= v <= Abs(c) + d;
    hide Sum, Difference, Abs;
    Between(r.last, g, v, Abs(c) + d);
  }

  lemma EdgeWithin(s: State, b: real)
    requires -1.0 < b <= 1.0
    ensures Within(s, 1.0 - b, b, (Abs(Sum(s, b)) + Abs(Difference(s))) / (1.0 + b))
  {
    hide Ring, Near, Sum, Difference, Abs;
    var a, m := 1.0 - b, (Abs(Sum(s, b)) + Abs(Difference(s))) / (1.0 + b);
    forall k: nat ensures Near(Ring(s, a, b, k), m) {
      EdgeParts(s, b, k);
      EdgeNear(Ring(s, a, b, k), b, Sum(s, b), Abs(Difference(s)));
    }
  }

  lemma Between(x: real, g: real, y: real, v: real)
    requires g > 0.0 && y == g * x && -v <= y <= v
    ensures -(v / g) <= x <= v / g
  {
    Scaled(g, v);
    Negated(x, g);
    Cancel(g, x, v / g);
    Cancel(g, -x, v / g);
  }

  // ----- the mirror image: every other sample negated -----

  function Mirrored(r: State, k: nat): State {
    if k % 2 == 0 then State(r.last, -r.prev) else State(-r.last, r.prev)
  }

  lemma MirrorStep(r: State, a: real, b: real, k: nat)
    ensures Next(Mirrored(r, k), -a, b, 0.0) == Mirrored(Next(r, a, b, 0.0), k + 1)
  {
    Negated(a, r.last);
    Negated(b, r.prev);
  }

  lemma {:induction false} Mirror(s: State, a: real, b: real, k: nat)
    ensures Ring(State(s.last, -s.prev), -a, b, k) == Mirrored(Ring(s, a, b, k), k)
  {
    if k > 0 {
      hide Next, Mirrored;
      Mirror(s, a, b, k - 1);
      MirrorStep(Ring(s, a, b, k - 1), a, b, k - 1);
    }
  }

  lemma MirrorWithin(s: State, a: real, b: real, m: real)
    requires Within(State(s.last, -s.prev), -a, b, m)
    ensures Within(s, a, b, m)
  {
    hide Ring;
    forall k: nat ensures Near(Ring(s, a, b, k), m) {
      Mirror(s, a, b, k);
      assert Near(Ring(State(s.last, -s.prev), -a, b, k), m);
    }
  }

  // ----- a double pole -----

  /** An impulse into a double pole at 1 grows by its own height with every sample. */
  lemma {:induction false} RampGrows(k: nat)
    ensures Ring(State(1.0, 0.0), 2.0, -1.0, k) == State((k + 1) as real, k as real)
  {
    if k > 0 { RampGrows(k - 1); }
  }

  lemma RampUnbounded(m: real)
    ensures !Within(State(1.0, 0.0), 2.0, -1.0, m)
  {
    var k: nat := if m < 0.0 then 0 else m.Floor + 1;
    RampGrows(k);
    hide Ring;
    assert !Near(Ring(State(1.0, 0.0), 2.0, -1.0, k), m);
  }

  lemma MirrorUnbounded(m: real)
    ensures !Within(State(1.0, 0.0), -2.0, -1.0, m)
  {
    if Within(State(1.0, 0.0), -2.0, -1.0, m) {
      assert State(1.0, 0.0) == State(1.0, -0.0);
      assert -2.0 == -(2.0);
      MirrorWithin(State(1.0, 0.0), 2.0, -1.0, m);
      RampUnbounded(m);
    }
  }

  // ----- the exact condition -----

  lemma SquareOver(a: real, c: real)
    requires c >= 0.0 && a * a < c * c
    ensures -c < a < c
  {
    assert a >= c ==> (a - c) * (a + c) >= 0.0;
    assert a <= -c ==> (-a - c) * (-a + c) >= 0.0;
  }

  lemma SquareLess(b: real)
    ensures (1.0 - b) * (1.0 - b) == (1.0 + b) * (1.0 + b) - 4.0 * b
  {
  }

  /** What acceptance comes to, real poles or complex. */
  lemma AcceptsMeans(a: real, b: real)
    requires Accepts(a, b)
    ensures -1.0 <= b <= 1.0 && -(1.0 - b) <= a <= 1.0 - b
  {
    Square(a);
    if Discriminant(a, b) < 0.0 {
      SquareLess(b);
      Square(1.0 + b);
      SquareOver(a, 1.0 - b);
    } else if b < -1.0 {
      SquareOver(2.0, if a < 0.0 then -a else a);
    }
  }

  lemma UprightWithin(s: State, a: real, b: real) returns (m: real)
    requires -1.0 <= b <= 1.0 && 0.0 <= a <= 1.0 - b && !DoublePole(a, b)
    ensures Within(s, a, b, m)
  {
    hide Within;
    if a < 1.0 - b {
      InsideWithin(s, a, b);
      m := Form(s, a, b) / (1.0 - b - a) + 1.0;
    } else {
      EdgeWithin(s, b);
      m := (Abs(Sum(s, b)) + Abs(Difference(s))) / (1.0 + b);
    }
  }

  lemma AcceptedWithin(s: State, a: real, b: real) returns (m: real)
    requires Accepts(a, b) && !DoublePole(a, b)
    ensures Within(s, a, b, m)
  {
    AcceptsMeans(a, b);
    hide Within, Accepts;
    if a >= 0.0 {
      m := UprightWithin(s, a, b);
    } else {
      m := UprightWithin(State(s.last, -s.prev), -a, b);
      MirrorWithin(s, a, b, m);
    }
  }

  /**
   * Accepted coefficients ring within a bound, from every start, exactly when they are not a double pole at
   * 1 or at -1.
   */
  lemma BoundedIff(fb1: real, fb2: real)
    requires Accepts(fb1, fb2)
    ensures StaysBounded(fb1, fb2) <==> !DoublePole(fb1, fb2)
  {
    hide Within, Accepts;
    if DoublePole(fb1, fb2) {
      var s := State(1.0, 0.0);
      forall m: real ensures !Within(s, fb1, fb2, m) {
        RampUnbounded(m);
        MirrorUnbounded(m);
      }
      assert !HasBound(s, fb1, fb2);
    } else {
      forall s: State ensures HasBound(s, fb1, fb2) {
        var m := AcceptedWithin(s, fb1, fb2);
      }
    }
  }

  /** Both double poles are accepted. */
  lemma DoublePolesAccepted()
    ensures Accepts(2.0, -1.0) && Accepts(-2.0, -1.0)
  {
  }
}
