/** Numbers as bytes, in either order. */
module ByteOrder {
  import opened Arith

  newtype byte = x: int | 0 <= x < 256

  /** 256^n. */
  function Span(n: nat): (r: nat)
    ensures r >= 1
  {
    if n == 0 then 1 else 256 * Span(n - 1)
  }

  lemma Spans()
    ensures Span(1) == 0x100 && Span(2) == 0x1_0000 && Span(3) == 0x100_0000 && Span(4) == 0x1_0000_0000
  {
    assert Span(0) == 1;
  }

  /** The low n bytes of a number, most significant first. */
  function BigEndian(x: int, n: nat): (b: seq<byte>)
    ensures |b| == n
    decreases n
  {
    if n == 0 then [] else BigEndian(x / 256, n - 1) + [(x % 256) as byte]
  }

  /** The number in the bytes, most significant first. */
  function Unsigned(b: seq<byte>): nat {
    if b == [] then 0 else 256 * Unsigned(b[..|b| - 1]) + b[|b| - 1] as int
  }

  lemma {:induction false} UnsignedRange(b: seq<byte>)
    ensures Unsigned(b) < Span(|b|)
  {
    if b != [] { UnsignedRange(b[..|b| - 1]); }
  }

  lemma {:induction false} UnsignedBytes(x: int, n: nat)
    ensures Unsigned(BigEndian(x, n)) == x % Span(n)
    decreases n
  {
    if n > 0 {
      UnsignedBytes(x / 256, n - 1);
      var b := BigEndian(x, n);
      assert b[..n - 1] == BigEndian(x / 256, n - 1);
      ModSplit(x, Span(n - 1));
    }
  }

  lemma ModSplit(x: int, m: nat)
    requires m > 0
    ensures x % (256 * m) == 256 * (x / 256 % m) + x % 256
  {
    var q := x / 256;
    DivMod(x, 256);
    DivMod(q, m);
    assert 256 * (m * (q / m) + q % m) == (256 * m) * (q / m) + 256 * (q % m);
    DivIs(x, 256 * m, q / m, 256 * (q % m) + x % 256);
  }

  lemma {:induction false} BytesUnsigned(b: seq<byte>)
    ensures BigEndian(Unsigned(b), |b|) == b
  {
    if b != [] {
      BytesUnsigned(b[..|b| - 1]);
      var u := Unsigned(b);
      DivIs(u, 256, Unsigned(b[..|b| - 1]), b[|b| - 1] as int);
    }
  }

  /** Whole turns do not show in the bytes. */
  lemma SameBytes(x: int, y: int, n: nat)
    requires x % Span(n) == y % Span(n)
    ensures BigEndian(x, n) == BigEndian(y, n)
  {
    UnsignedBytes(x, n);
    UnsignedBytes(y, n);
    BytesUnsigned(BigEndian(x, n));
    BytesUnsigned(BigEndian(y, n));
  }

  function Reversed(b: seq<byte>): (r: seq<byte>)
    ensures |r| == |b| && forall i: nat :: i < |b| ==> r[i] == b[|b| - 1 - i]
  {
    seq(|b|, i requires 0 <= i < |b| => b[|b| - 1 - i])
  }

  lemma ReversedTwice(b: seq<byte>)
    ensures Reversed(Reversed(b)) == b
  {
  }

  lemma BigEndianAt(x: int, n: nat)
    requires 2 <= n <= 4
    ensures var b := BigEndian(x, n);
            && b[n - 1] as int == x % 256 && b[n - 2] as int == x / 256 % 256
            && (n >= 3 ==> b[n - 3] as int == x / 256 / 256 % 256)
            && (n >= 4 ==> b[n - 4] as int == x / 256 / 256 / 256 % 256)
  {
    assert BigEndian(x / 256 / 256 / 256 / 256, 0) == [];
    if n >= 3 { assert BigEndian(x / 256, n - 1) == BigEndian(x / 256 / 256, n - 2) + [(x / 256 % 256) as byte]; }
    if n >= 4 {
      assert BigEndian(x / 256 / 256, n - 2) == BigEndian(x / 256 / 256 / 256, n - 3) + [(x / 256 / 256 % 256) as byte];
    }
  }

  /** The low byte of x shifted right. */
  function Shifted(x: int, places: nat): byte
    requires places > 0
  {
    (x / places % 256) as byte
  }

  lemma FourBytes(x: int)
    ensures BigEndian(x, 4) == [Shifted(x, 0x100_0000), Shifted(x, 0x1_0000), Shifted(x, 0x100), Shifted(x, 1)]
  {
    BigEndianAt(x, 4);
    assert x / 1 == x && x / 0x1_0000 == x / 256 / 256 && x / 0x100_0000 == x / 256 / 256 / 256;
  }

  lemma UnsignedIs(b: seq<byte>)
    ensures |b| == 2 ==> Unsigned(b) == 0x100 * b[0] as int + b[1] as int
    ensures |b| == 3 ==> Unsigned(b) == 0x1_0000 * b[0] as int + 0x100 * b[1] as int + b[2] as int
    ensures |b| == 4 ==>
              Unsigned(b) == 0x100_0000 * b[0] as int + 0x1_0000 * b[1] as int + 0x100 * b[2] as int + b[3] as int
  {
    if 2 <= |b| <= 4 {
      var c := b[..|b| - 1];
      assert Unsigned(c) == 256 * Unsigned(c[..|c| - 1]) + c[|c| - 1] as int;
      if |b| == 2 {
        assert c[..0] == [];
      } else {
        var d := c[..|c| - 1];
        assert Unsigned(d) == 256 * Unsigned(d[..|d| - 1]) + d[|d| - 1] as int;
        if |b| == 4 { var e := d[..1]; assert Unsigned(e) == 256 * Unsigned(e[..0]) + e[0] as int; }
      }
    }
  }

  // ----- the number in the bytes at a position, byte by byte: least or most significant first -----

  function Le2(b: seq<byte>, p: nat): int
    requires p + 2 <= |b|
  {
    b[p] as int + 0x100 * b[p + 1] as int
  }

  function Le4(b: seq<byte>, p: nat): int
    requires p + 4 <= |b|
  {
    b[p] as int + 0x100 * b[p + 1] as int + 0x1_0000 * b[p + 2] as int + 0x100_0000 * b[p + 3] as int
  }

  function Be2(b: seq<byte>, p: nat): int
    requires p + 2 <= |b|
  {
    b[p + 1] as int + 0x100 * b[p] as int
  }

  function Be4(b: seq<byte>, p: nat): int
    requires p + 4 <= |b|
  {
    b[p + 3] as int + 0x100 * b[p + 2] as int + 0x1_0000 * b[p + 1] as int + 0x100_0000 * b[p] as int
  }

  function Be8(b: seq<byte>, p: nat): int
    requires p + 8 <= |b|
  {
    0x1_0000_0000 * Be4(b, p) + Be4(b, p + 4)
  }
}
