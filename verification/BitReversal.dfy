/** Ooura's in-place bit reversal of a complex array, in its general form (32 points and up).

  A complex index is split into five fields: the lowest bit c0, then t bits j, then one or two
  middle bits d, then t bits that hold the reversal of k, and the highest bit c1.  Reversing
  the whole index exchanges j with k and c0 with c1 and reverses the middle. */
module BitReversal {
  import opened Arith

  /** The lowest b bits of i in reverse order. */
  function Rev(b: nat, i: nat): (r: nat)
    ensures r < Pow2(b)
  {
    if b == 0 then 0 else (i % 2) * Pow2(b - 1) + Rev(b - 1, i / 2)
  }

  /** Reversing two adjoining fields reverses each and exchanges them. */
  lemma {:induction false} RevSplit(p: nat, q: nat, lo: nat, hi: nat)
    requires lo < Pow2(p)
    ensures Rev(p + q, lo + Pow2(p) * hi) == Rev(p, lo) * Pow2(q) + Rev(q, hi)
    decreases p
  {
    if p == 0 {
      assert lo == 0 && Pow2(0) == 1;
    } else {
      var bit, h := lo % 2, Pow2(p - 1) * hi;
      TwiceTimes(Pow2(p - 1), hi);
      HalfAndBit(lo, h);
      RevSplit(p - 1, q, lo / 2, hi);
      Pow2Add(p - 1, q);
      RevStep(p + q, lo + Pow2(p) * hi, bit, lo / 2 + h);
      SumTimes(bit, Pow2(p - 1), Rev(p - 1, lo / 2), Pow2(q));
    }
  }

  lemma RevStep(b: nat, i: nat, bit: nat, h: nat)
    requires b > 0 && i % 2 == bit && i / 2 == h
    ensures Rev(b, i) == bit * Pow2(b - 1) + Rev(b - 1, h)
  {
  }

  lemma TwiceTimes(a: int, b: int)
    ensures (2 * a) * b == 2 * (a * b)
  {
  }

  lemma SumTimes(bit: int, a: int, r: int, c: int)
    ensures (bit * a + r) * c == bit * (a * c) + r * c
  {
  }

  lemma HalfAndBit(lo: nat, h: nat)
    ensures (lo + 2 * h) % 2 == lo % 2 && (lo + 2 * h) / 2 == lo / 2 + h
  {
  }

  /** The lowest bit and the others, which reversal puts behind it. */
  lemma LowBit(b: nat, i: nat) returns (bit: nat, h: nat)
    requires b > 0 && i < Pow2(b)
    ensures bit < 2 && i == 2 * h + bit && h < Pow2(b - 1)
    ensures Rev(b, i) == (if bit == 0 then 0 else Pow2(b - 1)) + Rev(b - 1, h)
  {
    bit, h := i % 2, i / 2;
    RevStep(b, i, bit, h);
    Pow2Steps(b - 1);
    hide Rev, Pow2;
    TimesBit(Pow2(b - 1), 0);
  }

  /** Reversing twice gives the index back. */
  lemma {:induction false} RevTwice(b: nat, i: nat)
    requires i < Pow2(b)
    ensures Rev(b, Rev(b, i)) == i
    decreases b
  {
    if b > 0 {
      hide Rev, Pow2;
      var bit, h := LowBit(b, i);
      RevTwice(b - 1, h);
      if bit == 0 {
        RevLow(b - 1, Rev(b - 1, h));
      } else {
        RevHigh(b - 1, Rev(b - 1, h));
      }
    }
  }

  /** Bit by bit: bit k of the reversal is bit b - 1 - k of the index. */
  lemma {:induction false} RevBits(b: nat, i: nat, k: nat)
    requires k < b
    ensures Rev(b, i) / Pow2(k) % 2 == i / Pow2(b - 1 - k) % 2
    decreases b
  {
    var r, p := Rev(b - 1, i / 2), Pow2(k);
    Pow2Add(k, b - 1 - k);
    if k == b - 1 {
      DivIs(Rev(b, i), p, i % 2, r);
      assert Pow2(0) == 1 && i / 1 == i;
    } else {
      RevBits(b - 1, i / 2, k);
      var h := Pow2(b - 2 - k);
      assert Pow2(b - 1) == p * (2 * h) && Pow2(b - 1 - k) == 2 * h;
      hide Rev, Pow2;
      HalfFirst(i, h);
      EvenTurns(i % 2, r, p, h);
    }
  }

  lemma HalfFirst(i: nat, h: nat)
    requires h > 0
    ensures i / (2 * h) == i / 2 / h
  {
    DivMod(i, 2);
    DivMod(i / 2, h);
    assert 2 * (h * (i / 2 / h)) == (2 * h) * (i / 2 / h);
    DivIs(i, 2 * h, i / 2 / h, 2 * (i / 2 % h) + i % 2);
  }

  lemma EvenTurns(bit: nat, r: nat, p: nat, h: nat)
    requires p > 0
    ensures (bit * (p * (2 * h)) + r) / p % 2 == r / p % 2
  {
    DivMod(r, p);
    var t := 2 * (bit * h);
    assert bit * (p * (2 * h)) == p * t;
    assert p * (t + r / p) == p * t + p * (r / p);
    DivIs(bit * (p * (2 * h)) + r, p, t + r / p, r % p);
  }

  lemma Commute(a: int, b: int)
    ensures a * b == b * a
  {
  }

  lemma Rev1(bit: nat)
    requires bit < 2
    ensures Rev(1, bit) == bit
  {
    assert Pow2(0) == 1;
    assert Rev(0, bit / 2) == 0;
  }

  lemma Rev2(d: nat)
    requires d < 4
    ensures Rev(2, d) == Swap2(d)
  {
    Rev1(d / 2);
    assert Pow2(1) == 2;
  }

  function Swap2(d: nat): nat {
    if d == 1 then 2 else if d == 2 then 1 else d
  }

  // ---------------------------------------------------------------------------------------
  // The table
  // ---------------------------------------------------------------------------------------

  /** The part of the table for t-bit fields: entry m + k is 8m times the reversal of k. */
  ghost predicate Table(ip: seq<int>, t: nat) {
    var m := Pow2(t);
    && |ip| >= 2 * m
    && forall k: nat {:trigger Rev(t, k)} :: k < m ==> ip[m + k] == Scaled(m, Rev(t, k))
  }

  /** A reversed index as an offset in floats, of fields m apart. */
  function Scaled(m: int, r: int): int {
    8 * m * r
  }

  /** The longest field that makeipt(2^w) makes a table for. */
  function LastTable(w: nat): (r: nat)
    ensures r >= 1
  {
    if w <= 5 then 1 else 1 + LastTable(w - 2)
  }

  /** makeipt: build the tables for ever longer fields, each from the one before. */
  method MakeIpt(nw: int, ip: array<int>, ghost w: nat)
    requires nw == Pow2(w)
    requires ip.Length >= 2 * Pow2(LastTable(w)) && ip.Length >= 4
    modifies ip
    ensures forall t: nat :: 1 <= t <= LastTable(w) ==> Table(ip[..], t)
    ensures ip[0] == old(ip[0]) && ip[1] == old(ip[1])
  {
    ip[2] := 0;
    ip[3] := 16;
    var m := 2;
    var l := nw;
    ghost var t, v := 1, w;
    FirstTable(ip[..]);
    while l > 32
      invariant 1 <= t && m == Pow2(t) && l == Pow2(v) && LastTable(w) == t - 1 + LastTable(v)
      invariant forall s: nat :: 1 <= s <= t ==> Table(ip[..], s)
      invariant ip[0] == old(ip[0]) && ip[1] == old(ip[1])
      decreases v
    {
      PastFive(v);
      Pow2Mono(t + 1, LastTable(w));
      ghost var was := ip[..];
      MakeNext(ip, m, t);
      SameTables(was, ip[..], t, 2 * m);
      m := 2 * m;
      l := l / 4;
      v := v - 2;
      t := t + 1;
    }
    PastFive(v);
  }

  /** The inner loop of makeipt: the table for t + 1 bits from the one for t. */
  method MakeNext(ip: array<int>, m: int, ghost t: nat)
    requires t >= 1 && m == Pow2(t) && ip.Length >= 4 * m && Table(ip[..], t)
    modifies ip
    ensures Table(ip[..], t + 1)
    ensures forall i :: 0 <= i < 2 * m ==> ip[i] == old(ip[i])
  {
    hide Table, Rev, Pow2, Doubled;
    var m2 := 2 * m;
    var q := m2 * 8;
    var j := m;
    ghost var was := ip[..];
    DoubledNone(was, m);
    while j < m2
      invariant m <= j <= m2 && Doubled(was, ip[..], m, j)
    {
      DoubledOne(was, ip[..], m, j);
      DoubleEntry(ip, m, m2, q, j);
      j := j + 1;
    }
    DoubledKeeps(was, ip[..], m);
    NextTable(was, ip[..], t);
  }

  method DoubleEntry(ip: array<int>, m: int, m2: int, q: int, j: int)
    requires 0 <= j && 0 < m && j < m2 && m2 + j < ip.Length && m <= m2
    modifies ip
    ensures ip[..] == old(ip[..][m + j := 4 * ip[j]][m2 + j := 4 * ip[j] + q])
  {
    var p := ip[j] * 4;
    ip[m + j] := p;
    ip[m2 + j] := p + q;
  }

  /** Entries m up to j have been doubled into both halves of the next table; nothing below that has changed. */
  ghost predicate Doubled(was: seq<int>, s: seq<int>, m: int, j: int) {
    && 0 < m <= j <= 2 * m && |s| == |was| >= 4 * m
    && (forall i {:trigger s[i]} :: 0 <= i < 2 * m ==> s[i] == was[i])
    && (forall i :: 2 * m <= i < m + j ==> s[i] == 4 * was[i - m])
    && (forall i :: 3 * m <= i < 2 * m + j ==> s[i] == 4 * was[i - 2 * m] + 16 * m)
  }

  lemma DoubledNone(was: seq<int>, m: int)
    requires 0 < m && 4 * m <= |was|
    ensures Doubled(was, was, m, m)
  {
  }

  lemma DoubledOne(was: seq<int>, s: seq<int>, m: int, j: int)
    requires Doubled(was, s, m, j) && j < 2 * m
    ensures |s| == |was| >= 4 * m && s[j] == was[j]
    ensures Doubled(was, s[m + j := 4 * was[j]][2 * m + j := 4 * was[j] + 16 * m], m, j + 1)
  {
    var r := s[m + j := 4 * was[j]][2 * m + j := 4 * was[j] + 16 * m];
    forall i | 2 * m <= i < m + j + 1 ensures r[i] == 4 * was[i - m] {
      if i < m + j { assert s[i] == 4 * was[i - m]; }
    }
    forall i | 3 * m <= i < 2 * m + j + 1 ensures r[i] == 4 * was[i - 2 * m] + 16 * m {
      if i < 2 * m + j { assert s[i] == 4 * was[i - 2 * m] + 16 * m; }
    }
  }

  lemma DoubledAt(was: seq<int>, s: seq<int>, m: int, k: nat)
    requires Doubled(was, s, m, 2 * m) && k < m
    ensures |s| == |was| >= 4 * m && s[2 * m + k] == 4 * was[m + k] && s[3 * m + k] == 4 * was[m + k] + 16 * m
  {
  }

  lemma DoubledSize(was: seq<int>, s: seq<int>, m: int)
    requires Doubled(was, s, m, 2 * m)
    ensures |s| == |was| >= 4 * m
  {
  }

  lemma DoubledKeeps(was: seq<int>, s: seq<int>, m: int)
    requires Doubled(was, s, m, 2 * m)
    ensures |s| == |was| >= 4 * m && forall i :: 0 <= i < 2 * m ==> s[i] == was[i]
  {
  }

  lemma PastFive(v: nat)
    ensures Pow2(v) > 32 <==> v > 5
  {
    assert Pow2(5) == 32;
    if v > 5 { Pow2Grows(5, v); } else { Pow2Mono(v, 5); }
  }

  lemma FirstTable(ip: seq<int>)
    requires |ip| >= 4 && ip[2] == 0 && ip[3] == 16
    ensures Table(ip, 1)
  {
    assert Pow2(1) == 2;
    Rev1(0);
    Rev1(1);
  }

  lemma {:induction false} Pow2Mono(a: nat, b: nat)
    requires a <= b
    ensures Pow2(a) <= Pow2(b)
  {
    if a < b { Pow2Grows(a, b); }
  }

  /** One bit more: entry k of the new table is twice the old one, entry m + k twice and one. */
  lemma NextTable(was: seq<int>, ip: seq<int>, t: nat)
    requires Table(was, t) && Doubled(was, ip, Pow2(t), 2 * Pow2(t))
    ensures Table(ip, t + 1)
  {
    var m := Pow2(t);
    Pow2Steps(t);
    hide Rev, Pow2, Scaled, Doubled;
    DoubledSize(was, ip, m);
    forall k: nat {:trigger Rev(t + 1, k)} | k < 2 * m
      ensures ip[2 * m + k] == Scaled(2 * m, Rev(t + 1, k))
    {
      hide Table;
      if k < m {
        NextLow(was, ip, t, k);
      } else {
        NextHigh(was, ip, t, k - m);
      }
    }
  }

  lemma NextLow(was: seq<int>, ip: seq<int>, t: nat, k: nat)
    requires Table(was, t) && Doubled(was, ip, Pow2(t), 2 * Pow2(t)) && k < Pow2(t)
    ensures 2 * Pow2(t) + k < |ip| && ip[2 * Pow2(t) + k] == Scaled(2 * Pow2(t), Rev(t + 1, k))
  {
    var m := Pow2(t);
    hide Rev, Pow2, Scaled, Doubled;
    DoubledAt(was, ip, m, k);
    RevLow(t, k);
    ScaledTwice(m, Rev(t, k), 0);
  }

  lemma NextHigh(was: seq<int>, ip: seq<int>, t: nat, k: nat)
    requires Table(was, t) && Doubled(was, ip, Pow2(t), 2 * Pow2(t)) && k < Pow2(t)
    ensures 3 * Pow2(t) + k < |ip| && ip[3 * Pow2(t) + k] == Scaled(2 * Pow2(t), Rev(t + 1, Pow2(t) + k))
  {
    var m := Pow2(t);
    hide Rev, Pow2, Scaled, Doubled;
    DoubledAt(was, ip, m, k);
    RevHigh(t, k);
    ScaledTwice(m, Rev(t, k), 1);
  }

  /** A bit more at the top of an index is a bit more at the bottom of the reversed one. */
  lemma RevLow(t: nat, k: nat)
    requires k < Pow2(t)
    ensures Rev(t + 1, k) == 2 * Rev(t, k)
  {
    hide Rev, Pow2;
    Pow2One();
    RevSplit(t, 1, k, 0);
    Rev1(0);
    TimesBit(Pow2(t), Rev(t, k));
  }

  lemma RevHigh(t: nat, k: nat)
    requires k < Pow2(t)
    ensures Rev(t + 1, Pow2(t) + k) == 2 * Rev(t, k) + 1
  {
    hide Rev, Pow2;
    Pow2One();
    RevSplit(t, 1, k, 1);
    Rev1(1);
    TimesBit(Pow2(t), Rev(t, k));
  }

  lemma Pow2One()
    ensures Pow2(1) == 2
  {
    assert Pow2(0) == 1;
  }

  lemma TimesBit(a: int, r: int)
    ensures a * 0 == 0 && a * 1 == a && 0 * a == 0 && 1 * a == a && r * 2 == 2 * r
  {
  }

  lemma ScaledTwice(m: int, r: int, bit: nat)
    requires bit < 2
    ensures Scaled(2 * m, 2 * r + bit) == 4 * Scaled(m, r) + if bit == 0 then 0 else 16 * m
  {
    Eightfold(m, r);
    Eightfold(2 * m, 2 * r + bit);
    Doubling(m, r, bit);
  }

  lemma Eightfold(m: int, r: int)
    ensures Scaled(m, r) == 8 * (m * r)
  {
  }

  lemma Doubling(m: int, r: int, hi: int)
    ensures (2 * m) * (2 * r + hi) == 4 * (m * r) + 2 * (m * hi)
    ensures (hi == 1 ==> m * hi == m) && (hi == 0 ==> m * hi == 0)
  {
  }

  lemma SameTables(was: seq<int>, ip: seq<int>, t: nat, m2: int)
    requires |ip| == |was| && m2 == 2 * Pow2(t) <= |ip| && forall i :: 0 <= i < m2 ==> ip[i] == was[i]
    requires forall s: nat :: 1 <= s <= t ==> Table(was, s)
    ensures forall s: nat :: 1 <= s <= t ==> Table(ip, s)
  {
    forall s: nat | 1 <= s <= t
      ensures Table(ip, s)
    {
      Pow2Mono(s, t);
      assert Table(was, s);
    }
  }

  // ---------------------------------------------------------------------------------------
  // Numbers of several fields
  // ---------------------------------------------------------------------------------------

  /** lo in front of hi, where lo takes p values. */
  function Mix(lo: nat, p: nat, hi: nat): nat {
    lo + p * hi
  }

  function Prod(p: nat, q: nat): nat {
    p * q
  }

  lemma MixParts(lo: nat, p: nat, hi: nat)
    requires lo < p
    ensures Mix(lo, p, hi) / p == hi && Mix(lo, p, hi) % p == lo
  {
    DivIs(Mix(lo, p, hi), p, hi, lo);
  }

  lemma MixOf(x: nat, p: nat)
    requires p > 0
    ensures Mix(x % p, p, x / p) == x && 0 <= x % p < p
  {
    DivMod(x, p);
  }

  lemma MixInjective(a: nat, p: nat, b: nat, a2: nat, b2: nat)
    requires a < p && a2 < p && Mix(a, p, b) == Mix(a2, p, b2)
    ensures a == a2 && b == b2
  {
    MixParts(a, p, b);
    MixParts(a2, p, b2);
  }

  lemma MixBelow(a: nat, p: nat, b: nat, q: nat)
    requires a < p && b < q
    ensures Mix(a, p, b) < Prod(p, q)
  {
    NotNegative(p, q - 1 - b);
    assert p * (q - 1 - b) == p * q - p - p * b;
  }

  lemma NotNegative(a: int, b: int)
    requires a >= 0 && b >= 0
    ensures a * b >= 0
  {
  }

  lemma QuotientBelow(x: nat, p: nat, q: nat)
    requires p > 0 && x < Prod(p, q)
    ensures x / p < q
  {
    DivMod(x, p);
    Over(p, x / p, q);
  }

  lemma Over(p: int, a: int, q: int)
    requires p > 0 && p * a < p * q
    ensures a < q
  {
    MulAtLeast(p, a - q);
    assert p * (a - q) == p * a - p * q;
  }

  lemma RevMix(p: nat, q: nat, lo: nat, hi: nat)
    requires lo < Pow2(p)
    ensures Rev(p + q, Mix(lo, Pow2(p), hi)) == Mix(Rev(q, hi), Pow2(q), Rev(p, lo))
  {
    RevSplit(p, q, lo, hi);
    Commute(Rev(p, lo), Pow2(q));
  }

  // ---------------------------------------------------------------------------------------
  // Indices by their fields
  // ---------------------------------------------------------------------------------------

  datatype Pos = Pos(c0: nat, j: nat, d: nat, k: nat, c1: nat)

  /** Field lengths: t bits for j and k, and two middle bits or one. */
  datatype Shape = Shape(t: nat, wide: bool) {
    function M(): nat { Pow2(t) }
    function Mid(): nat { if wide then 4 else 2 }
    function MidBits(): nat { if wide then 2 else 1 }
    function Bits(): nat { 1 + (t + (MidBits() + (t + 1))) }
    /** How many indices there are. */
    function Size(): nat { Prod(2, Prod(M(), Prod(Mid(), Prod(M(), 2)))) }
    /** Distance, in floats, between neighbours in the middle field. */
    function Nm(): nat { 4 * M() }
    /** Half the array, in floats: the weight of the highest bit. */
    function Nh(): nat { 4 * (M() * (Mid() * M())) }
  }

  ghost predicate IsPos(sh: Shape, p: Pos) {
    p.c0 < 2 && p.j < sh.M() && p.d < sh.Mid() && p.k < sh.M() && p.c1 < 2
  }

  function RevMid(sh: Shape, d: nat): nat {
    if sh.wide then Swap2(d) else d
  }

  function RevPos(sh: Shape, p: Pos): Pos {
    Pos(p.c1, p.k, RevMid(sh, p.d), p.j, p.c0)
  }

  function Index(sh: Shape, p: Pos): nat {
    Mix(p.c0, 2, Mix(p.j, sh.M(), Mix(p.d, sh.Mid(), Mix(Rev(sh.t, p.k), sh.M(), p.c1))))
  }

  function Addr(sh: Shape, p: Pos): nat {
    2 * Index(sh, p)
  }

  lemma IndexInjective(sh: Shape, p: Pos, q: Pos)
    requires IsPos(sh, p) && IsPos(sh, q) && Index(sh, p) == Index(sh, q)
    ensures p == q
  {
    hide Mix, Rev;
    var m, w := sh.M(), sh.Mid();
    var e, f := Rev(sh.t, p.k), Rev(sh.t, q.k);
    var x3, y3 := Mix(e, m, p.c1), Mix(f, m, q.c1);
    var x2, y2 := Mix(p.d, w, x3), Mix(q.d, w, y3);
    MixInjective(p.c0, 2, Mix(p.j, m, x2), q.c0, Mix(q.j, m, y2));
    MixInjective(p.j, m, x2, q.j, y2);
    MixInjective(p.d, w, x3, q.d, y3);
    MixInjective(e, m, p.c1, f, q.c1);
    RevTwice(sh.t, p.k);
    RevTwice(sh.t, q.k);
  }

  lemma IndexBelow(sh: Shape, p: Pos)
    requires IsPos(sh, p)
    ensures Index(sh, p) < sh.Size()
  {
    hide Mix, Prod, Rev;
    var m, w := sh.M(), sh.Mid();
    var x3 := Mix(Rev(sh.t, p.k), m, p.c1);
    MixBelow(Rev(sh.t, p.k), m, p.c1, 2);
    MixBelow(p.d, w, x3, Prod(m, 2));
    MixBelow(p.j, m, Mix(p.d, w, x3), Prod(w, Prod(m, 2)));
    MixBelow(p.c0, 2, Mix(p.j, m, Mix(p.d, w, x3)), Prod(m, Prod(w, Prod(m, 2))));
  }

  lemma TakeField(x: nat, p: nat, q: nat) returns (lo: nat, hi: nat)
    requires p > 0 && x < Prod(p, q)
    ensures lo < p && hi < q && Mix(lo, p, hi) == x
  {
    MixOf(x, p);
    QuotientBelow(x, p, q);
    lo, hi := x % p, x / p;
  }

  /** Every index has fields. */
  lemma FieldsOf(sh: Shape, i: nat) returns (p: Pos)
    requires i < sh.Size()
    ensures IsPos(sh, p) && Index(sh, p) == i
  {
    hide Mix, Prod, Rev, Pow2;
    var m, w := sh.M(), sh.Mid();
    var c0, x1 := TakeField(i, 2, Prod(m, Prod(w, Prod(m, 2))));
    var j, x2 := TakeField(x1, m, Prod(w, Prod(m, 2)));
    var d, x3 := TakeField(x2, w, Prod(m, 2));
    var e, c1 := TakeField(x3, m, 2);
    RevTwice(sh.t, e);
    p := Pos(c0, j, d, Rev(sh.t, e), c1);
  }

  /** Exchanging the fields reverses the index. */
  lemma RevPosIsRev(sh: Shape, p: Pos)
    requires IsPos(sh, p)
    ensures Rev(sh.Bits(), Index(sh, p)) == Index(sh, RevPos(sh, p))
  {
    var t, m, w, wb := sh.t, sh.M(), sh.Mid(), sh.MidBits();
    var e := Rev(t, p.k);
    assert Pow2(1) == 2 && Pow2(2) == 4;
    Rev1(p.c0);
    Rev1(p.c1);
    RevTwice(t, p.k);
    if sh.wide { Rev2(p.d); } else { Rev1(p.d); }
    RevFields(t, wb, p.c0, p.j, p.d, e, p.c1);
  }

  lemma RevFields(t: nat, wb: nat, c0: nat, j: nat, d: nat, e: nat, c1: nat)
    requires c0 < Pow2(1) && j < Pow2(t) && d < Pow2(wb) && e < Pow2(t)
    ensures Rev(1 + (t + (wb + (t + 1))), Mix(c0, Pow2(1), Mix(j, Pow2(t), Mix(d, Pow2(wb), Mix(e, Pow2(t), c1)))))
         == Mix(Rev(1, c1), Pow2(1),
                Mix(Rev(t, e), Pow2(t), Mix(Rev(wb, d), Pow2(wb), Mix(Rev(t, j), Pow2(t), Rev(1, c0)))))
  {
    hide Mix, Rev, Pow2;
    var x3 := Mix(e, Pow2(t), c1);
    var x2 := Mix(d, Pow2(wb), x3);
    var x1 := Mix(j, Pow2(t), x2);
    RevMix(1, t + (wb + (t + 1)), c0, x1);
    RevMix(t, wb + (t + 1), j, x2);
    RevMix(wb, t + 1, d, x3);
    RevMix(t, 1, e, c1);
    var y3 := Mix(Rev(1, c1), Pow2(1), Rev(t, e));
    var y2 := Mix(y3, Pow2(t + 1), Rev(wb, d));
    var y1 := Mix(y2, Pow2(wb + (t + 1)), Rev(t, j));
    Powers(t, wb);
    Regroup(y2, Pow2(wb + (t + 1)), Rev(t, j), Pow2(t), Rev(1, c0));
    Regroup(y3, Pow2(t + 1), Rev(wb, d), Pow2(wb), Mix(Rev(t, j), Pow2(t), Rev(1, c0)));
    Regroup(Rev(1, c1), Pow2(1), Rev(t, e), Pow2(t), Mix(Rev(wb, d), Pow2(wb), Mix(Rev(t, j), Pow2(t), Rev(1, c0))));
  }

  lemma Powers(t: nat, wb: nat)
    ensures Pow2(t + (wb + (t + 1))) == Prod(Pow2(wb + (t + 1)), Pow2(t))
    ensures Pow2(wb + (t + 1)) == Prod(Pow2(t + 1), Pow2(wb))
    ensures Pow2(t + 1) == Prod(Pow2(1), Pow2(t))
  {
    Pow2Add(wb + (t + 1), t);
    Pow2Add(t + 1, wb);
    Pow2Add(1, t);
    assert t + (wb + (t + 1)) == wb + (t + 1) + t && wb + (t + 1) == t + 1 + wb && t + 1 == 1 + t;
  }

  /** Fields may be read from either end. */
  lemma Regroup(a: nat, p: nat, b: nat, q: nat, c: nat)
    ensures Mix(Mix(a, p, b), Prod(p, q), c) == Mix(a, p, Mix(b, q, c))
  {
    Associate(p, q, c);
    Distribute(p, b, q * c, 0);
  }

  lemma Associate(a: int, b: int, c: int)
    ensures a * (b * c) == (a * b) * c
  {
  }

  lemma Distribute(m: int, a: int, b: int, c: int)
    ensures m * (a + b + c) == m * a + m * b + m * c
  {
  }

  /** In floats the fields simply add up. */
  lemma AddrParts(sh: Shape, p: Pos)
    ensures Addr(sh, p) == Addr(sh, Pos(0, p.j, 0, p.k, 0)) + 2 * p.c0 + sh.Nm() * p.d + sh.Nh() * p.c1
  {
    var e := Rev(sh.t, p.k);
    Flatten(p.c0, p.j, p.d, e, p.c1, sh.M(), sh.Mid());
    Flatten(0, p.j, 0, e, 0, sh.M(), sh.Mid());
    Associate(4, sh.M(), p.d);
  }

  lemma Flatten(c0: nat, j: nat, d: nat, e: nat, c1: nat, m: nat, w: nat)
    ensures 2 * Mix(c0, 2, Mix(j, m, Mix(d, w, Mix(e, m, c1))))
         == 4 * j + 4 * (m * (w * e)) + 2 * c0 + 4 * (m * d) + 4 * (m * (w * m)) * c1
  {
    Distribute(w, e, m * c1, 0);
    Associate(w, m, c1);
    Distribute(m, d, w * e, (w * m) * c1);
    Associate(m, w * m, c1);
    Associate(4, m * (w * m), c1);
  }

  /** Where a pair of fields begins, from the table. */
  lemma AddrBase(sh: Shape, ip: seq<int>, j: nat, k: nat)
    requires Table(ip, sh.t) && k < sh.M()
    ensures Addr(sh, Pos(0, j, 0, k, 0)) == 4 * j + (if sh.wide then 2 else 1) * ip[sh.M() + k]
  {
    var m, e := sh.M(), Rev(sh.t, k);
    assert ip[m + k] == Scaled(m, e) == 8 * m * e;
    Flatten(0, j, 0, e, 0, m, sh.Mid());
    Associate(8, m, e);
    Quadruple(m, e);
  }

  lemma Quadruple(m: int, e: int)
    ensures m * (4 * e) == 4 * (m * e) && m * (2 * e) == 2 * (m * e)
  {
  }

  lemma SizeIs(sh: Shape)
    ensures sh.Nh() == sh.Size() && sh.Size() == Pow2(sh.Bits())
  {
    var m, w := sh.M(), sh.Mid();
    assert m * (w * (m * 2)) == 2 * (m * (w * m)) by {
      Associate(w, m, 2);
      Associate(m, w * m, 2);
    }
    assert Pow2(1) == 2 && Pow2(2) == 4;
    Powers(sh.t, sh.MidBits());
    Commute(w, Pow2(sh.t + 1));
    Commute(m, Pow2(sh.MidBits() + (sh.t + 1)));
  }

  // ---------------------------------------------------------------------------------------
  // The array in the middle of its reversal
  // ---------------------------------------------------------------------------------------

  function Im(conj: bool, x: real): real {
    if conj then -x else x
  }

  /** The elements at the positions done have been exchanged (and conjugated); the others are
    as they were. */
  ghost predicate Exchanged(sh: Shape, conj: bool, was: seq<real>, s: seq<real>, done: set<Pos>) {
    && |s| == |was| >= 2 * sh.Nh()
    && (forall p {:trigger IsPos(sh, p)} :: IsPos(sh, p) ==> ElementAt(sh, conj, was, s, p, p in done))
    && (forall i :: 2 * sh.Nh() <= i < |s| ==> s[i] == was[i])
  }

  ghost predicate ElementAt(sh: Shape, conj: bool, was: seq<real>, s: seq<real>, p: Pos, done: bool)
    requires |s| == |was| >= 2 * sh.Nh()
  {
    var x, y := Addr(sh, p), Addr(sh, RevPos(sh, p));
    x + 1 < 2 * sh.Nh() && y + 1 < 2 * sh.Nh() &&
    if done then s[x] == was[y] && s[x + 1] == Im(conj, was[y + 1])
    else s[x] == was[x] && s[x + 1] == was[x + 1]
  }

  lemma AddrFits(sh: Shape, p: Pos)
    requires IsPos(sh, p)
    ensures Addr(sh, p) + 1 < 2 * sh.Nh() && IsPos(sh, RevPos(sh, p)) && RevPos(sh, RevPos(sh, p)) == p
  {
    IndexBelow(sh, p);
    SizeIs(sh);
  }

  lemma AddrDiffers(sh: Shape, p: Pos, q: Pos)
    requires IsPos(sh, p) && IsPos(sh, q) && p != q
    ensures Addr(sh, p) != Addr(sh, q) && Addr(sh, p) + 1 != Addr(sh, q) && Addr(sh, p) != Addr(sh, q) + 1
  {
    if Index(sh, p) == Index(sh, q) { IndexInjective(sh, p, q); }
  }

  lemma NothingExchanged(sh: Shape, conj: bool, was: seq<real>)
    requires |was| >= 2 * sh.Nh()
    ensures Exchanged(sh, conj, was, was, {})
  {
    forall p | IsPos(sh, p)
      ensures ElementAt(sh, conj, was, was, p, false)
    {
      AddrFits(sh, p);
      AddrFits(sh, RevPos(sh, p));
    }
  }

  lemma ExchangeOne(sh: Shape, conj: bool, was: seq<real>, s: seq<real>, s': seq<real>, done: set<Pos>, p: Pos)
    requires Exchanged(sh, conj, was, s, done) && IsPos(sh, p)
    requires p !in done && RevPos(sh, p) !in done && RevPos(sh, p) != p && |s'| == |s|
    requires var x, y := Addr(sh, p), Addr(sh, RevPos(sh, p));
      && x + 1 < |s| && y + 1 < |s|
      && s' == s[x := s[y]][x + 1 := Im(conj, s[y + 1])][y := s[x]][y + 1 := Im(conj, s[x + 1])]
    ensures Exchanged(sh, conj, was, s', done + {p, RevPos(sh, p)})
  {
    hide Index, Addr, IsPos;
    var q := RevPos(sh, p);
    AddrFits(sh, p);
    AddrFits(sh, q);
    AddrDiffers(sh, p, q);
    assert ElementAt(sh, conj, was, s, p, p in done) && ElementAt(sh, conj, was, s, q, q in done);
    forall r {:trigger IsPos(sh, r)} | IsPos(sh, r)
      ensures ElementAt(sh, conj, was, s', r, r in done + {p, q})
    {
      AddrFits(sh, r);
      assert ElementAt(sh, conj, was, s, r, r in done);
      if r != p && r != q {
        AddrDiffers(sh, r, p);
        AddrDiffers(sh, r, q);
      }
    }
  }

  /** A position that reverses to itself only needs its sign changed, if that. */
  lemma ExchangeFixed(sh: Shape, conj: bool, was: seq<real>, s: seq<real>, s': seq<real>, done: set<Pos>, p: Pos)
    requires Exchanged(sh, conj, was, s, done) && IsPos(sh, p) && p !in done && RevPos(sh, p) == p && |s'| == |s|
    requires Addr(sh, p) + 1 < |s| && s' == s[Addr(sh, p) + 1 := Im(conj, s[Addr(sh, p) + 1])]
    ensures Exchanged(sh, conj, was, s', done + {p})
  {
    hide Index, Addr, IsPos;
    AddrFits(sh, p);
    assert ElementAt(sh, conj, was, s, p, p in done);
    forall r {:trigger IsPos(sh, r)} | IsPos(sh, r)
      ensures ElementAt(sh, conj, was, s', r, r in done + {p})
    {
      AddrFits(sh, r);
      assert ElementAt(sh, conj, was, s, r, r in done);
      if r != p {
        AddrDiffers(sh, r, p);
      }
    }
  }

  // ---------------------------------------------------------------------------------------
  // The exchanges, in the order of the code
  // ---------------------------------------------------------------------------------------

  ghost function Base(sh: Shape, j: nat, k: nat): nat {
    Addr(sh, Pos(0, j, 0, k, 0))
  }

  /** Exchange the elements at j1 and k1, conjugating both if asked. */
  method SwapAt(a: array<real>, j1: int, k1: int, conj: bool,
                ghost sh: Shape, ghost was: seq<real>, ghost done: set<Pos>, ghost p: Pos)
                    returns (ghost more: set<Pos>)
    requires Exchanged(sh, conj, was, a[..], done) && IsPos(sh, p)
    requires p !in done && RevPos(sh, p) !in done && RevPos(sh, p) != p
    requires j1 == Base(sh, p.j, p.k) + 2 * p.c0 + sh.Nm() * p.d + sh.Nh() * p.c1
    requires k1 == Base(sh, p.k, p.j) + 2 * p.c1 + sh.Nm() * RevMid(sh, p.d) + sh.Nh() * p.c0
    modifies a
    ensures more == done + {p, RevPos(sh, p)} && Exchanged(sh, conj, was, a[..], more)
  {
    hide Exchanged, IsPos, Addr, RevMid;
    ghost var s := a[..];
    SwapFits(sh, conj, was, s, done, p);
    var xr, xi := a[j1], Im(conj, a[j1 + 1]);
    var yr, yi := a[k1], Im(conj, a[k1 + 1]);
    a[j1] := yr;
    a[j1 + 1] := yi;
    a[k1] := xr;
    a[k1 + 1] := xi;
    more := done + {p, RevPos(sh, p)};
    ExchangeOne(sh, conj, was, s, a[..], done, p);
  }

  lemma SwapFits(sh: Shape, conj: bool, was: seq<real>, s: seq<real>, done: set<Pos>, p: Pos)
    requires Exchanged(sh, conj, was, s, done) && IsPos(sh, p) && RevPos(sh, p) != p
    ensures var x, y := Addr(sh, p), Addr(sh, RevPos(sh, p));
      && x + 1 < |s| && y + 1 < |s| && x != y && x + 1 != y && x != y + 1
      && x == Base(sh, p.j, p.k) + 2 * p.c0 + sh.Nm() * p.d + sh.Nh() * p.c1
      && y == Base(sh, p.k, p.j) + 2 * p.c1 + sh.Nm() * RevMid(sh, p.d) + sh.Nh() * p.c0
  {
    AddrFits(sh, p);
    AddrFits(sh, RevPos(sh, p));
    AddrDiffers(sh, p, RevPos(sh, p));
    AddrParts(sh, p);
    AddrParts(sh, RevPos(sh, p));
  }

  /** Change the sign of an imaginary part whose element stays in place. */
  method NegateAt(a: array<real>, at: int, conj: bool,
                  ghost sh: Shape, ghost was: seq<real>, ghost done: set<Pos>, ghost p: Pos)
                      returns (ghost more: set<Pos>)
    requires Exchanged(sh, conj, was, a[..], done) && IsPos(sh, p) && p !in done && RevPos(sh, p) == p
    requires at == Base(sh, p.j, p.k) + 2 * p.c0 + sh.Nm() * p.d + sh.Nh() * p.c1 + 1
    modifies a
    ensures more == done + {p} && Exchanged(sh, conj, was, a[..], more)
  {
    hide Exchanged, IsPos, Addr, RevMid;
    ghost var s := a[..];
    AddrParts(sh, p);
    AddrFits(sh, p);
    ExchangedSize(sh, conj, was, s, done);
    if conj {
      a[at] := -a[at];
    }
    more := done + {p};
    ExchangeFixed(sh, conj, was, s, a[..], done, p);
  }

  lemma ExchangedSize(sh: Shape, conj: bool, was: seq<real>, s: seq<real>, done: set<Pos>)
    requires Exchanged(sh, conj, was, s, done)
    ensures |s| == |was| >= 2 * sh.Nh()
  {
  }

  /** The positions with given fields, for every middle. */
  ghost function Half(sh: Shape, c0: nat, j: nat, k: nat, c1: nat): set<Pos> {
    if sh.wide then {Pos(c0, j, 0, k, c1), Pos(c0, j, 1, k, c1), Pos(c0, j, 2, k, c1), Pos(c0, j, 3, k, c1)}
    else {Pos(c0, j, 0, k, c1), Pos(c0, j, 1, k, c1)}
  }

  ghost function Row(sh: Shape, c0: nat, j: nat, k: nat, c1: nat): set<Pos> {
    Half(sh, c0, j, k, c1) + Half(sh, c1, k, j, c0)
  }

  /** What the code has in hand when it is about to exchange a row. */
  ghost predicate RowReady(sh: Shape, conj: bool, was: seq<real>, s: seq<real>, done: set<Pos>, c0: nat, j: nat,
                           k: nat, c1: nat)
  {
    && Exchanged(sh, conj, was, s, done)
    && j != k && j < sh.M() && k < sh.M() && c0 < 2 && c1 < 2 && done !! Row(sh, c0, j, k, c1)
  }

  /** Four exchanges with the middle counting up. */
  method FourUp(a: array<real>, j0: int, k0: int, nm: int, conj: bool,
                ghost sh: Shape, ghost was: seq<real>, ghost done: set<Pos>, ghost c0: nat, ghost j: nat, ghost k: nat,
                    ghost c1: nat)
    returns (j1: int, k1: int, ghost more: set<Pos>)
    requires sh.wide && nm == sh.Nm() && RowReady(sh, conj, was, a[..], done, c0, j, k, c1)
    requires j0 == Base(sh, j, k) + 2 * c0 + sh.Nh() * c1 && k0 == Base(sh, k, j) + 2 * c1 + sh.Nh() * c0
    modifies a
    ensures j1 == j0 + 3 * nm && k1 == k0 + 3 * nm
    ensures more == done + Row(sh, c0, j, k, c1) && Exchanged(sh, conj, was, a[..], more)
  {
    hide Exchanged, Base;
    j1, k1 := j0, k0;
    more := SwapAt(a, j1, k1, conj, sh, was, done, Pos(c0, j, 0, k, c1));
    j1, k1 := j1 + nm, k1 + 2 * nm;
    more := SwapAt(a, j1, k1, conj, sh, was, more, Pos(c0, j, 1, k, c1));
    j1, k1 := j1 + nm, k1 - nm;
    more := SwapAt(a, j1, k1, conj, sh, was, more, Pos(c0, j, 2, k, c1));
    j1, k1 := j1 + nm, k1 + 2 * nm;
    more := SwapAt(a, j1, k1, conj, sh, was, more, Pos(c0, j, 3, k, c1));
  }

  /** Four exchanges with the middle counting down. */
  method FourDown(a: array<real>, j0: int, k0: int, nm: int, conj: bool,
                  ghost sh: Shape, ghost was: seq<real>, ghost done: set<Pos>, ghost c0: nat, ghost j: nat,
                      ghost k: nat, ghost c1: nat)
    returns (j1: int, k1: int, ghost more: set<Pos>)
    requires sh.wide && nm == sh.Nm() && RowReady(sh, conj, was, a[..], done, c0, j, k, c1)
    requires j0 == Base(sh, j, k) + 2 * c0 + sh.Nh() * c1 + 3 * nm
        && k0 == Base(sh, k, j) + 2 * c1 + sh.Nh() * c0 + 3 * nm
    modifies a
    ensures j1 == j0 - 3 * nm && k1 == k0 - 3 * nm
    ensures more == done + Row(sh, c0, j, k, c1) && Exchanged(sh, conj, was, a[..], more)
  {
    hide Exchanged, Base;
    j1, k1 := j0, k0;
    more := SwapAt(a, j1, k1, conj, sh, was, done, Pos(c0, j, 3, k, c1));
    j1, k1 := j1 - nm, k1 - 2 * nm;
    more := SwapAt(a, j1, k1, conj, sh, was, more, Pos(c0, j, 2, k, c1));
    j1, k1 := j1 - nm, k1 + nm;
    more := SwapAt(a, j1, k1, conj, sh, was, more, Pos(c0, j, 1, k, c1));
    j1, k1 := j1 - nm, k1 - 2 * nm;
    more := SwapAt(a, j1, k1, conj, sh, was, more, Pos(c0, j, 0, k, c1));
  }

  method TwoUp(a: array<real>, j0: int, k0: int, nm: int, conj: bool,
               ghost sh: Shape, ghost was: seq<real>, ghost done: set<Pos>, ghost c0: nat, ghost j: nat, ghost k: nat,
                   ghost c1: nat)
    returns (j1: int, k1: int, ghost more: set<Pos>)
    requires !sh.wide && nm == sh.Nm() && RowReady(sh, conj, was, a[..], done, c0, j, k, c1)
    requires j0 == Base(sh, j, k) + 2 * c0 + sh.Nh() * c1 && k0 == Base(sh, k, j) + 2 * c1 + sh.Nh() * c0
    modifies a
    ensures j1 == j0 + nm && k1 == k0 + nm
    ensures more == done + Row(sh, c0, j, k, c1) && Exchanged(sh, conj, was, a[..], more)
  {
    hide Exchanged, Base;
    j1, k1 := j0, k0;
    more := SwapAt(a, j1, k1, conj, sh, was, done, Pos(c0, j, 0, k, c1));
    j1, k1 := j1 + nm, k1 + nm;
    more := SwapAt(a, j1, k1, conj, sh, was, more, Pos(c0, j, 1, k, c1));
  }

  method TwoDown(a: array<real>, j0: int, k0: int, nm: int, conj: bool,
                 ghost sh: Shape, ghost was: seq<real>, ghost done: set<Pos>, ghost c0: nat, ghost j: nat,
                     ghost k: nat, ghost c1: nat)
    returns (j1: int, k1: int, ghost more: set<Pos>)
    requires !sh.wide && nm == sh.Nm() && RowReady(sh, conj, was, a[..], done, c0, j, k, c1)
    requires j0 == Base(sh, j, k) + 2 * c0 + sh.Nh() * c1 + nm && k0 == Base(sh, k, j) + 2 * c1 + sh.Nh() * c0 + nm
    modifies a
    ensures j1 == j0 - nm && k1 == k0 - nm
    ensures more == done + Row(sh, c0, j, k, c1) && Exchanged(sh, conj, was, a[..], more)
  {
    hide Exchanged, Base;
    j1, k1 := j0, k0;
    more := SwapAt(a, j1, k1, conj, sh, was, done, Pos(c0, j, 1, k, c1));
    j1, k1 := j1 - nm, k1 - nm;
    more := SwapAt(a, j1, k1, conj, sh, was, more, Pos(c0, j, 0, k, c1));
  }

  ghost function PairRows(sh: Shape, j: nat, k: nat): set<Pos> {
    Row(sh, 0, j, k, 0) + Row(sh, 0, j, k, 1) + Row(sh, 1, j, k, 1) + Row(sh, 1, j, k, 0)
  }

  lemma HalfHas(sh: Shape, c0: nat, j: nat, k: nat, c1: nat, p: Pos)
    ensures p in Half(sh, c0, j, k, c1) <==> p.c0 == c0 && p.j == j && p.k == k && p.c1 == c1 && p.d < sh.Mid()
  {
    assert p == Pos(p.c0, p.j, p.d, p.k, p.c1);
  }

  lemma RowHas(sh: Shape, c0: nat, j: nat, k: nat, c1: nat, p: Pos)
    ensures p in Row(sh, c0, j, k, c1) <==>
      p.d < sh.Mid() && ((p.c0 == c0 && p.j == j && p.k == k && p.c1 == c1)
          || (p.c0 == c1 && p.j == k && p.k == j && p.c1 == c0))
  {
    hide Half;
    HalfHas(sh, c0, j, k, c1, p);
    HalfHas(sh, c1, k, j, c0, p);
  }

  /** All the positions whose fields are j and k, in either order. */
  lemma PairRowsAre(sh: Shape, j: nat, k: nat, p: Pos)
    ensures p in PairRows(sh, j, k) <==>
      p.c0 < 2 && p.c1 < 2 && p.d < sh.Mid() && ((p.j == j && p.k == k) || (p.j == k && p.k == j))
  {
    hide Row;
    RowHas(sh, 0, j, k, 0, p);
    RowHas(sh, 0, j, k, 1, p);
    RowHas(sh, 1, j, k, 1, p);
    RowHas(sh, 1, j, k, 0, p);
  }

  lemma RowsApart(sh: Shape, c0: nat, c1: nat, d0: nat, d1: nat, j: nat, k: nat)
    requires j != k && (c0 != d0 || c1 != d1)
    ensures Row(sh, c0, j, k, c1) !! Row(sh, d0, j, k, d1)
  {
    hide Row;
    forall p | p in Row(sh, c0, j, k, c1)
      ensures p !in Row(sh, d0, j, k, d1)
    {
      RowHas(sh, c0, j, k, c1, p);
      RowHas(sh, d0, j, k, d1, p);
    }
  }

  lemma AllApart(sh: Shape, j: nat, k: nat)
    requires j != k
    ensures Row(sh, 0, j, k, 0) !! Row(sh, 0, j, k, 1) !! Row(sh, 1, j, k, 1) !! Row(sh, 1, j, k, 0)
  {
    hide Row;
    RowsApart(sh, 0, 0, 0, 1, j, k);
    RowsApart(sh, 0, 0, 1, 1, j, k);
    RowsApart(sh, 0, 0, 1, 0, j, k);
    RowsApart(sh, 0, 1, 1, 1, j, k);
    RowsApart(sh, 0, 1, 1, 0, j, k);
    RowsApart(sh, 1, 1, 1, 0, j, k);
  }

  /** The body of the inner loop: every exchange between the elements with fields j and k. */
  method ExchangePair(a: array<real>, j0: int, k0: int, nm: int, nh: int, wide: bool, conj: bool,
                      ghost sh: Shape, ghost was: seq<real>, ghost done: set<Pos>, ghost j: nat, ghost k: nat)
    returns (ghost more: set<Pos>)
    requires sh.wide == wide && nm == sh.Nm() && nh == sh.Nh() && Exchanged(sh, conj, was, a[..], done)
    requires j < k < sh.M() && done !! PairRows(sh, j, k)
    requires j0 == Base(sh, j, k) && k0 == Base(sh, k, j)
    modifies a
    ensures more == done + PairRows(sh, j, k) && Exchanged(sh, conj, was, a[..], more)
  {
    if wide {
      more := ExchangePair4(a, j0, k0, nm, nh, conj, sh, was, done, j, k);
    } else {
      more := ExchangePair2(a, j0, k0, nm, nh, conj, sh, was, done, j, k);
    }
  }

  method ExchangePair4(a: array<real>, j0: int, k0: int, nm: int, nh: int, conj: bool,
                       ghost sh: Shape, ghost was: seq<real>, ghost done: set<Pos>, ghost j: nat, ghost k: nat)
    returns (ghost more: set<Pos>)
    requires sh.wide && nm == sh.Nm() && nh == sh.Nh() && Exchanged(sh, conj, was, a[..], done)
    requires j < k < sh.M() && done !! PairRows(sh, j, k)
    requires j0 == Base(sh, j, k) && k0 == Base(sh, k, j)
    modifies a
    ensures more == done + PairRows(sh, j, k) && Exchanged(sh, conj, was, a[..], more)
  {
    hide Exchanged, Base, Row;
    AllApart(sh, j, k);
    var j1, k1 := j0, k0;
    j1, k1, more := FourUp(a, j1, k1, nm, conj, sh, was, done, 0, j, k, 0);
    j1, k1 := j1 + nh, k1 + 2;
    j1, k1, more := FourDown(a, j1, k1, nm, conj, sh, was, more, 0, j, k, 1);
    j1, k1 := j1 + 2, k1 + nh;
    j1, k1, more := FourUp(a, j1, k1, nm, conj, sh, was, more, 1, j, k, 1);
    j1, k1 := j1 - nh, k1 - 2;
    j1, k1, more := FourDown(a, j1, k1, nm, conj, sh, was, more, 1, j, k, 0);
    Joined(done, Row(sh, 0, j, k, 0), Row(sh, 0, j, k, 1), Row(sh, 1, j, k, 1), Row(sh, 1, j, k, 0));
  }

  lemma Joined<T>(a: set<T>, b: set<T>, c: set<T>, d: set<T>, e: set<T>)
    ensures a + b + c + d + e == a + (b + c + d + e)
  {
  }

  method ExchangePair2(a: array<real>, j0: int, k0: int, nm: int, nh: int, conj: bool,
                       ghost sh: Shape, ghost was: seq<real>, ghost done: set<Pos>, ghost j: nat, ghost k: nat)
    returns (ghost more: set<Pos>)
    requires !sh.wide && nm == sh.Nm() && nh == sh.Nh() && Exchanged(sh, conj, was, a[..], done)
    requires j < k < sh.M() && done !! PairRows(sh, j, k)
    requires j0 == Base(sh, j, k) && k0 == Base(sh, k, j)
    modifies a
    ensures more == done + PairRows(sh, j, k) && Exchanged(sh, conj, was, a[..], more)
  {
    hide Exchanged, Base, Row;
    AllApart(sh, j, k);
    var j1, k1 := j0, k0;
    j1, k1, more := TwoUp(a, j1, k1, nm, conj, sh, was, done, 0, j, k, 0);
    j1, k1 := j1 + nh, k1 + 2;
    j1, k1, more := TwoDown(a, j1, k1, nm, conj, sh, was, more, 0, j, k, 1);
    j1, k1 := j1 + 2, k1 + nh;
    j1, k1, more := TwoUp(a, j1, k1, nm, conj, sh, was, more, 1, j, k, 1);
    j1, k1 := j1 - nh, k1 - 2;
    j1, k1, more := TwoDown(a, j1, k1, nm, conj, sh, was, more, 1, j, k, 0);
    Joined(done, Row(sh, 0, j, k, 0), Row(sh, 0, j, k, 1), Row(sh, 1, j, k, 1), Row(sh, 1, j, k, 0));
  }

  ghost function Diagonal(sh: Shape, k: nat): set<Pos> {
    Half(sh, 0, k, k, 0) + Half(sh, 0, k, k, 1) + Half(sh, 1, k, k, 0) + Half(sh, 1, k, k, 1)
  }

  lemma DiagonalIs(sh: Shape, k: nat, p: Pos)
    ensures p in Diagonal(sh, k) <==> p.c0 < 2 && p.c1 < 2 && p.d < sh.Mid() && p.j == k && p.k == k
  {
    hide Half;
    HalfHas(sh, 0, k, k, 0, p);
    HalfHas(sh, 0, k, k, 1, p);
    HalfHas(sh, 1, k, k, 0, p);
    HalfHas(sh, 1, k, k, 1, p);
  }

  /** After the inner loop: the elements whose two fields are equal, two middle bits. */
  method ExchangeDiagonal4(a: array<real>, at: int, nm: int, nh: int, conj: bool,
                           ghost sh: Shape, ghost was: seq<real>, ghost done: set<Pos>, ghost k: nat)
    returns (ghost more: set<Pos>)
    requires sh.wide && nm == sh.Nm() && nh == sh.Nh() && Exchanged(sh, conj, was, a[..], done)
    requires k < sh.M() && done !! Diagonal(sh, k) && at == Base(sh, k, k)
    modifies a
    ensures more == done + Diagonal(sh, k) && Exchanged(sh, conj, was, a[..], more)
  {
    hide Exchanged, Base, Diagonal, DiagonalFirst, DiagonalRest;
    DiagonalParts(sh, k);
    var j1, k1;
    j1, k1, more := FirstOfDiagonal4(a, at, nm, nh, conj, sh, was, done, k);
    more := RestOfDiagonal4(a, j1, k1, at, nm, nh, conj, sh, was, more, k);
  }

  ghost function DiagonalFirst(k: nat): set<Pos> {
    {Pos(0, k, 0, k, 0), Pos(1, k, 0, k, 0), Pos(0, k, 0, k, 1), Pos(1, k, 0, k, 1),
     Pos(1, k, 1, k, 0), Pos(0, k, 2, k, 1), Pos(1, k, 2, k, 0), Pos(0, k, 1, k, 1)}
  }

  ghost function DiagonalRest(k: nat): set<Pos> {
    {Pos(0, k, 1, k, 0), Pos(0, k, 2, k, 0), Pos(1, k, 1, k, 1), Pos(1, k, 2, k, 1),
     Pos(0, k, 3, k, 0), Pos(0, k, 3, k, 1), Pos(1, k, 3, k, 0), Pos(1, k, 3, k, 1)}
  }

  lemma DiagonalParts(sh: Shape, k: nat)
    requires sh.wide
    ensures Diagonal(sh, k) == DiagonalFirst(k) + DiagonalRest(k) && DiagonalFirst(k) !! DiagonalRest(k)
  {
    hide Diagonal;
    forall p ensures p in Diagonal(sh, k) <==> p in DiagonalFirst(k) + DiagonalRest(k) {
      DiagonalIs(sh, k, p);
    }
  }

  method FirstOfDiagonal4(a: array<real>, at: int, nm: int, nh: int, conj: bool,
                          ghost sh: Shape, ghost was: seq<real>, ghost done: set<Pos>, ghost k: nat)
    returns (j1: int, k1: int, ghost more: set<Pos>)
    requires sh.wide && nm == sh.Nm() && nh == sh.Nh() && Exchanged(sh, conj, was, a[..], done) && k < sh.M()
    requires at == Base(sh, k, k) && done !! DiagonalFirst(k)
    modifies a
    ensures more == done + DiagonalFirst(k) && Exchanged(sh, conj, was, a[..], more)
    ensures j1 == at + 2 + 2 * nm && k1 == at + nh + nm
  {
    hide Exchanged, Base;
    k1 := at;
    j1 := k1 + 2;
    k1 := k1 + nh;
    more := NegateAt(a, j1 - 1, conj, sh, was, done, Pos(0, k, 0, k, 0));
    more := SwapAt(a, j1, k1, conj, sh, was, more, Pos(1, k, 0, k, 0));
    more := NegateAt(a, k1 + 3, conj, sh, was, more, Pos(1, k, 0, k, 1));
    j1, k1 := j1 + nm, k1 + 2 * nm;
    more := SwapAt(a, j1, k1, conj, sh, was, more, Pos(1, k, 1, k, 0));
    j1, k1 := j1 + nm, k1 - nm;
    more := SwapAt(a, j1, k1, conj, sh, was, more, Pos(1, k, 2, k, 0));
  }

  method RestOfDiagonal4(a: array<real>, j0: int, k0: int, ghost at: int, nm: int, nh: int, conj: bool,
                         ghost sh: Shape, ghost was: seq<real>, ghost done: set<Pos>, ghost k: nat)
    returns (ghost more: set<Pos>)
    requires sh.wide && nm == sh.Nm() && nh == sh.Nh() && Exchanged(sh, conj, was, a[..], done) && k < sh.M()
    requires at == Base(sh, k, k) && j0 == at + 2 + 2 * nm && k0 == at + nh + nm
    requires done !! DiagonalRest(k)
    modifies a
    ensures more == done + DiagonalRest(k) && Exchanged(sh, conj, was, a[..], more)
  {
    hide Exchanged, Base;
    var j1, k1 := j0 - 2, k0 - nh;
    more := SwapAt(a, j1, k1, conj, sh, was, done, Pos(0, k, 2, k, 0));
    j1, k1 := j1 + nh + 2, k1 + nh + 2;
    more := SwapAt(a, j1, k1, conj, sh, was, more, Pos(1, k, 2, k, 1));
    j1, k1 := j1 - (nh - nm), k1 + 2 * nm - 2;
    more := NegateAt(a, j1 - 1, conj, sh, was, more, Pos(0, k, 3, k, 0));
    more := SwapAt(a, j1, k1, conj, sh, was, more, Pos(1, k, 3, k, 0));
    more := NegateAt(a, k1 + 3, conj, sh, was, more, Pos(1, k, 3, k, 1));
  }

  /** The same with one middle bit. */
  method ExchangeDiagonal2(a: array<real>, at: int, nm: int, nh: int, conj: bool,
                           ghost sh: Shape, ghost was: seq<real>, ghost done: set<Pos>, ghost k: nat)
    returns (ghost more: set<Pos>)
    requires !sh.wide && nm == sh.Nm() && nh == sh.Nh() && Exchanged(sh, conj, was, a[..], done)
    requires k < sh.M() && done !! Diagonal(sh, k) && at == Base(sh, k, k)
    modifies a
    ensures more == done + Diagonal(sh, k) && Exchanged(sh, conj, was, a[..], more)
  {
    hide Exchanged, Base;
    var k1 := at;
    var j1 := k1 + 2;
    k1 := k1 + nh;
    more := NegateAt(a, j1 - 1, conj, sh, was, done, Pos(0, k, 0, k, 0));
    more := SwapAt(a, j1, k1, conj, sh, was, more, Pos(1, k, 0, k, 0));
    more := NegateAt(a, k1 + 3, conj, sh, was, more, Pos(1, k, 0, k, 1));
    j1, k1 := j1 + nm, k1 + nm;
    more := NegateAt(a, j1 - 1, conj, sh, was, more, Pos(0, k, 1, k, 0));
    more := SwapAt(a, j1, k1, conj, sh, was, more, Pos(1, k, 1, k, 0));
    more := NegateAt(a, k1 + 3, conj, sh, was, more, Pos(1, k, 1, k, 1));
  }

  // ---------------------------------------------------------------------------------------
  // The loops
  // ---------------------------------------------------------------------------------------

  /** Exchanged so far: every pair of fields below k, and those of k with the fields below j. */
  ghost predicate DoneIs(sh: Shape, done: set<Pos>, k: nat, j: nat) {
    forall p {:trigger IsPos(sh, p)} :: IsPos(sh, p) ==> (p in done <==> Before(p, k, j))
  }

  ghost predicate Before(p: Pos, k: nat, j: nat) {
    (p.j < k && p.k < k) || (p.j == k && p.k < j) || (p.k == k && p.j < j)
  }

  lemma PairDone(sh: Shape, done: set<Pos>, k: nat, j: nat)
    requires DoneIs(sh, done, k, j) && j < k < sh.M()
    ensures done !! PairRows(sh, j, k) && DoneIs(sh, done + PairRows(sh, j, k), k, j + 1)
  {
    hide PairRows;
    forall p
      ensures p in PairRows(sh, j, k) <==> IsPos(sh, p) && ((p.j == j && p.k == k) || (p.j == k && p.k == j))
    {
      PairRowsAre(sh, j, k, p);
    }
  }

  lemma DiagonalDone(sh: Shape, done: set<Pos>, k: nat)
    requires DoneIs(sh, done, k, k) && k < sh.M()
    ensures done !! Diagonal(sh, k) && DoneIs(sh, done + Diagonal(sh, k), k + 1, 0)
  {
    hide Diagonal;
    forall p
      ensures p in Diagonal(sh, k) <==> IsPos(sh, p) && p.j == k && p.k == k
    {
      DiagonalIs(sh, k, p);
    }
  }

  /** Element i of s is element Rev(i) of was, conjugated if asked, for all 2^b elements, and
    anything beyond them is as it was. */
  ghost predicate BitReversed(b: nat, conj: bool, was: seq<real>, s: seq<real>) {
    && |s| == |was| >= 2 * Pow2(b)
    && (forall i: nat {:trigger Rev(b, i)} :: i < Pow2(b) ==>
          s[2 * i] == was[2 * Rev(b, i)] && s[2 * i + 1] == Im(conj, was[2 * Rev(b, i) + 1]))
    && (forall i :: 2 * Pow2(b) <= i < |s| ==> s[i] == was[i])
  }

  lemma AllDone(sh: Shape, conj: bool, was: seq<real>, s: seq<real>, done: set<Pos>)
    requires Exchanged(sh, conj, was, s, done) && DoneIs(sh, done, sh.M(), 0)
    ensures BitReversed(sh.Bits(), conj, was, s)
  {
    hide Rev, Index, IsPos;
    SizeIs(sh);
    forall i: nat {:trigger Rev(sh.Bits(), i)} | i < Pow2(sh.Bits())
      ensures s[2 * i] == was[2 * Rev(sh.Bits(), i)] && s[2 * i + 1] == Im(conj, was[2 * Rev(sh.Bits(), i) + 1])
    {
      var p := FieldsOf(sh, i);
      RevPosIsRev(sh, p);
      FieldsInRange(sh, p);
      assert ElementAt(sh, conj, was, s, p, p in done);
    }
  }

  lemma FieldsInRange(sh: Shape, p: Pos)
    requires IsPos(sh, p)
    ensures p.j < sh.M() && p.k < sh.M()
  {
  }

  /** How the loop at the top of bitrv2 splits b bits. */
  function ShapeOf(b: nat): (sh: Shape)
    requires b >= 3
    ensures sh.Bits() == b
  {
    if b == 3 then Shape(0, false) else if b == 4 then Shape(0, true)
    else var s := ShapeOf(b - 2); Shape(s.t + 1, s.wide)
  }

  lemma Pow2Steps(s: nat)
    ensures Pow2(0) == 1 && Pow2(s + 1) == 2 * Pow2(s)
  {
  }

  lemma HalfOf(b: nat, n: nat)
    requires b >= 1 && n == 2 * Pow2(b)
    ensures 2 * (n / 4) == Pow2(b)
  {
    Quarter(n, Pow2(b - 1));
  }

  lemma Quarter(n: nat, k: nat)
    requires n == 4 * k
    ensures n / 4 == k
  {
  }

  lemma SplitNext(v: nat, l: nat)
    requires v >= 3 && 2 * l == Pow2(v) && l > 8
    ensures v >= 5 && 2 * (l / 4) == Pow2(v - 2)
    ensures ShapeOf(v).wide == ShapeOf(v - 2).wide && ShapeOf(v).t == ShapeOf(v - 2).t + 1
  {
    SmallPowers(v);
    Pow2Steps(v - 3);
    hide Pow2;
    Quarter(l, Pow2(v - 3));
  }

  lemma SplitLast(v: nat, l: nat)
    requires v >= 3 && 2 * l == Pow2(v) && l <= 8
    ensures ShapeOf(v).t == 0 && l == if ShapeOf(v).wide then 8 else 4
  {
    SmallPowers(v);
  }

  method Split(n: int, ghost b: nat) returns (m: int, l: int)
    requires b >= 3 && n == 2 * Pow2(b)
    ensures m == ShapeOf(b).M() && l == if ShapeOf(b).wide then 8 else 4
  {
    hide Pow2, ShapeOf;
    m := 1;
    l := n / 4;
    ghost var v, s := b, 0;
    Pow2Steps(0);
    HalfOf(b, n);
    while l > 8
      invariant v >= 3 && 2 * l == Pow2(v) && ShapeOf(b).wide == ShapeOf(v).wide
      invariant m == Pow2(s) && ShapeOf(b).t == s + ShapeOf(v).t
      decreases v
    {
      SplitNext(v, l);
      Pow2Steps(s);
      m := m * 2;
      l := l / 4;
      v := v - 2;
      s := s + 1;
    }
    SplitLast(v, l);
  }

  lemma SmallPowers(v: nat)
    requires v >= 3
    ensures Pow2(v) <= 16 <==> v <= 4
    ensures v == 3 ==> Pow2(v) == 8
    ensures v == 4 ==> Pow2(v) == 16
    ensures v >= 5 ==> Pow2(v) == 4 * Pow2(v - 2)
  {
    assert Pow2(3) == 8 && Pow2(4) == 16;
    if v > 4 { Pow2Grows(4, v); }
  }

  /** The loops shared by bitrv2 and bitrv2conj, for 2^b complex elements, b >= 5. */
  method Reverse(n: int, ip: array<int>, a: array<real>, conj: bool, ghost b: nat)
    requires b >= 5 && n == 2 * Pow2(b) && a.Length >= n && Table(ip[..], ShapeOf(b).t)
    modifies a
    ensures BitReversed(b, conj, old(a[..]), a[..])
  {
    hide Exchanged, Base, PairRows, Diagonal, DoneIs, BitReversed, Table, Rev;
    var m, l := Split(n, b);
    ghost var sh := ShapeOf(b);
    ghost var was := a[..];
    ghost var done: set<Pos> := {};
    SizeIs(sh);
    var nh, nm := n / 2, 4 * m;
    NothingExchanged(sh, conj, was);
    NothingBefore(sh);
    for k := 0 to m
      invariant Exchanged(sh, conj, was, a[..], done) && DoneIs(sh, done, k, 0)
    {
      done := ReverseRow(a, ip, m, k, nm, nh, l == 8, conj, sh, was, done);
    }
    AllDone(sh, conj, was, a[..], done);
  }

  /** One turn of the outer loop. */
  method ReverseRow(a: array<real>, ip: array<int>, m: int, k: nat, nm: int, nh: int, wide: bool, conj: bool,
                    ghost sh: Shape, ghost was: seq<real>, ghost was_done: set<Pos>) returns (ghost done: set<Pos>)
    requires m == sh.M() && k < m && nm == sh.Nm() && nh == sh.Nh() && wide == sh.wide && Table(ip[..], sh.t)
    requires Exchanged(sh, conj, was, a[..], was_done) && DoneIs(sh, was_done, k, 0)
    modifies a
    ensures Exchanged(sh, conj, was, a[..], done) && DoneIs(sh, done, k + 1, 0)
  {
    hide Exchanged, Base, PairRows, Diagonal, DoneIs, Table, Rev;
    done := was_done;
    ghost var tab := ip[..];
    var w := if wide then 2 else 1;
    for j := 0 to k
      invariant ip[..] == tab
      invariant Exchanged(sh, conj, was, a[..], done) && DoneIs(sh, done, k, j)
    {
      AddrBaseOf(sh, ip[..], j, k);
      AddrBaseOf(sh, ip[..], k, j);
      PairDone(sh, done, k, j);
      done := ExchangePair(a, 4 * j + w * ip[m + k], 4 * k + w * ip[m + j], nm, nh, wide, conj, sh, was, done, j, k);
    }
    AddrBaseOf(sh, ip[..], k, k);
    DiagonalDone(sh, done, k);
    if wide {
      done := ExchangeDiagonal4(a, 4 * k + w * ip[m + k], nm, nh, conj, sh, was, done, k);
    } else {
      done := ExchangeDiagonal2(a, 4 * k + w * ip[m + k], nm, nh, conj, sh, was, done, k);
    }
  }

  lemma NothingBefore(sh: Shape)
    ensures DoneIs(sh, {}, 0, 0)
  {
  }

  lemma AddrBaseOf(sh: Shape, ip: seq<int>, j: nat, k: nat)
    requires Table(ip, sh.t) && k < sh.M()
    ensures 0 <= sh.M() + k < |ip| && Base(sh, j, k) == 4 * j + (if sh.wide then 2 else 1) * ip[sh.M() + k]
  {
    AddrBase(sh, ip, j, k);
  }

  method Bitrv2(n: int, ip: array<int>, a: array<real>, ghost b: nat)
    requires b >= 5 && n == 2 * Pow2(b) && a.Length >= n && Table(ip[..], ShapeOf(b).t)
    modifies a
    ensures BitReversed(b, false, old(a[..]), a[..])
  {
    Reverse(n, ip, a, false, b);
  }

  method Bitrv2Conj(n: int, ip: array<int>, a: array<real>, ghost b: nat)
    requires b >= 5 && n == 2 * Pow2(b) && a.Length >= n && Table(ip[..], ShapeOf(b).t)
    modifies a
    ensures BitReversed(b, true, old(a[..]), a[..])
  {
    Reverse(n, ip, a, true, b);
  }

  /** makeipt, run for a quarter of the array as makewt does, covers what bitrv2 needs. */
  lemma {:induction false} TableCovers(b: nat)
    requires b >= 5
    ensures 1 <= ShapeOf(b).t <= LastTable(b - 1)
    decreases b
  {
    if b >= 7 { TableCovers(b - 2); }
  }

  /** Reversing a reversed array restores it. */
  lemma ReverseTwice(b: nat, conj: bool, s0: seq<real>, s1: seq<real>, s2: seq<real>)
    requires BitReversed(b, conj, s0, s1) && BitReversed(b, conj, s1, s2)
    ensures s2 == s0
  {
    forall i: nat | i < |s0|
      ensures s2[i] == s0[i]
    {
      if i < 2 * Pow2(b) {
        var k := i / 2;
        RevTwice(b, k);
        assert i == 2 * k || i == 2 * k + 1;
        assert Rev(b, Rev(b, k)) == k;
      }
    }
  }

  /** bitrv2conj is bitrv2 followed by conjugation. */
  lemma ConjIsReverseThenNegate(b: nat, s0: seq<real>, plain: seq<real>, conj: seq<real>)
    requires BitReversed(b, false, s0, plain) && BitReversed(b, true, s0, conj)
    ensures forall i: nat {:trigger conj[2 * i]} :: i < Pow2(b) ==>
        conj[2 * i] == plain[2 * i] && conj[2 * i + 1] == -plain[2 * i + 1]
  {
    forall i: nat | i < Pow2(b)
      ensures conj[2 * i] == plain[2 * i] && conj[2 * i + 1] == -plain[2 * i + 1]
    {
      assert Rev(b, i) < Pow2(b);
    }
  }
}
