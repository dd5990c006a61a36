// How spectra are laid out in buffers (src/d_fft.c, src/d_fft_fftsg.c): the packed order of the real
// transform, the half-complex order the Mayer interface promises, and the two signals, real and
// imaginary part, that rfft~ puts out and rifft~ takes in.  The transforms themselves are parameters.
module SpectrumLayout {

  // ----- the packed order and the half-complex order -----

  /** Half-complex order: real parts upward from 0 to n/2, imaginary parts downward from n-1. */
  function Unpack(buf: seq<real>): (fz: seq<real>)
    requires |buf| % 2 == 0
    ensures |fz| == |buf|
  {
    var n := |buf|;
    seq(n, i requires 0 <= i < n =>
      if i == 0 then buf[0] else if i == n / 2 then buf[1]
      else if i < n / 2 then buf[2 * i] else buf[2 * (n - i) + 1])
  }

  function Pack(fz: seq<real>): (buf: seq<real>)
    requires |fz| % 2 == 0
    ensures |buf| == |fz|
  {
    var n := |fz|;
    seq(n, i requires 0 <= i < n =>
      if i == 0 then fz[0] else if i == 1 then fz[n / 2]
      else if i % 2 == 0 then fz[i / 2] else fz[n - i / 2])
  }

  lemma UnpackAt(buf: seq<real>, i: nat)
    requires |buf| % 2 == 0 && i < |buf| / 2
    ensures i == 0 ==> Unpack(buf)[0] == buf[0] && Unpack(buf)[|buf| / 2] == buf[1]
    ensures i > 0 ==> Unpack(buf)[i] == buf[2 * i] && Unpack(buf)[|buf| - i] == buf[2 * i + 1]
  {
  }

  lemma PackAt(fz: seq<real>, i: nat)
    requires |fz| % 2 == 0 && i < |fz| / 2
    ensures i == 0 ==> Pack(fz)[0] == fz[0] && Pack(fz)[1] == fz[|fz| / 2]
    ensures i > 0 ==> Pack(fz)[2 * i] == fz[i] && Pack(fz)[2 * i + 1] == fz[|fz| - i]
  {
    assert (2 * i) / 2 == i && (2 * i + 1) / 2 == i;
  }

  lemma PackUnpackAt(s: seq<real>, i: nat)
    requires |s| % 2 == 0 && i < |s|
    ensures Pack(Unpack(s))[i] == s[i]
  {
    hide Pack, Unpack;
    PackAt(Unpack(s), i / 2);
    UnpackAt(s, i / 2);
    assert i == 2 * (i / 2) || i == 2 * (i / 2) + 1;
  }

  lemma UnpackPackAt(s: seq<real>, i: nat)
    requires |s| % 2 == 0 && i < |s|
    ensures Unpack(Pack(s))[i] == s[i]
  {
    hide Pack, Unpack;
    var n := |s|;
    var j := if i < n / 2 then i else if i == n / 2 then 0 else n - i;
    UnpackAt(Pack(s), j);
    PackAt(s, j);
  }

  /** The two orders hold the same numbers: packing undoes unpacking and unpacking undoes packing. */
  lemma PackUnpack(s: seq<real>)
    requires |s| % 2 == 0
    ensures Pack(Unpack(s)) == s && Unpack(Pack(s)) == s
  {
    hide Pack, Unpack;
    forall i: nat | i < |s| ensures Pack(Unpack(s))[i] == s[i] && Unpack(Pack(s))[i] == s[i] {
      PackUnpackAt(s, i);
      UnpackPackAt(s, i);
    }
  }

  function Doubled(s: seq<real>): (r: seq<real>)
    ensures |r| == |s| && forall i: nat :: i < |s| ==> r[i] == 2.0 * s[i]
  {
    seq(|s|, i requires 0 <= i < |s| => 2.0 * s[i])
  }

  ghost predicate KeepsLength(f: seq<real> -> seq<real>) {
    forall s: seq<real> :: |f(s)| == |s|
  }

  /** mayer_realfft: copy out, transform, unpack in place. */
  method MayerRealFft(fz: array<real>, rdft: seq<real> -> seq<real>)
    requires fz.Length % 2 == 0 && fz.Length >= 2 && KeepsLength(rdft)
    modifies fz
    ensures fz[..] == Unpack(rdft(old(fz[..])))
  {
    var n, nover2 := fz.Length, fz.Length / 2;
    var buf := rdft(fz[..]);
    fz[0], fz[nover2] := buf[0], buf[1];
    var i, fp1, fp2, fp3 := 1, 1, n - 1, 2;
    while i < nover2
      invariant 1 <= i <= nover2 && fp1 == i && fp2 == n - i && fp3 == 2 * i
      invariant fz[0] == buf[0] && fz[nover2] == buf[1]
      invariant forall k: nat :: 1 <= k < i ==> fz[k] == buf[2 * k]
      invariant forall k: nat :: n - i < k < n ==> fz[k] == buf[2 * (n - k) + 1]
    {
      fz[fp1] := buf[fp3];
      fz[fp2] := buf[fp3 + 1];
      i, fp1, fp2, fp3 := i + 1, fp1 + 1, fp2 - 1, fp3 + 2;
    }
    assert fz[..] == Unpack(buf);
  }

  /** mayer_realifft: pack, transform, copy back doubled. */
  method MayerRealIfft(fz: array<real>, rdft: seq<real> -> seq<real>)
    requires fz.Length % 2 == 0 && fz.Length >= 2 && KeepsLength(rdft)
    modifies fz
    ensures fz[..] == Doubled(rdft(Pack(old(fz[..]))))
  {
    var n, nover2 := fz.Length, fz.Length / 2;
    ghost var z := fz[..];
    var buf := new real[n];
    buf[0], buf[1] := fz[0], fz[nover2];
    var i, fp1, fp2, fp3 := 1, 1, n - 1, 2;
    while i < nover2
      modifies buf
      invariant 1 <= i <= nover2 && fp1 == i && fp2 == n - i && fp3 == 2 * i
      invariant buf[0] == z[0] && buf[1] == z[nover2]
      invariant forall k: nat :: 2 <= k < fp3 ==> buf[k] == if k % 2 == 0 then z[k / 2] else z[n - k / 2]
    {
      buf[fp3] := fz[fp1];
      buf[fp3 + 1] := fz[fp2];
      i, fp1, fp2, fp3 := i + 1, fp1 + 1, fp2 - 1, fp3 + 2;
    }
    assert buf[..] == Pack(z) by {
      forall k: nat | k < n ensures buf[k] == Pack(z)[k] {}
    }
    var back := rdft(buf[..]);
    i := 0;
    while i < n
      modifies fz
      invariant 0 <= i <= n
      invariant forall k: nat :: k < i ==> fz[k] == 2.0 * back[k]
    {
      fz[i] := 2.0 * back[i];
      i := i + 1;
    }
    assert fz[..] == Doubled(back);
  }

  // ----- elementary loops -----

  /** Copies n samples; source and destination are different signals or the very same place. */
  method Copy(a: array<real>, b: array<real>, n: nat)
    requires n <= a.Length && n <= b.Length
    modifies b
    ensures forall k: nat :: k < n ==> b[k] == old(a[k])
    ensures forall k: nat :: n <= k < b.Length ==> b[k] == old(b[k])
  {
    var i := 0;
    while i < n
      invariant 0 <= i <= n
      invariant forall k: nat :: k < i ==> b[k] == old(a[k])
      invariant forall k: nat :: i <= k < b.Length ==> b[k] == old(b[k])
    {
      b[i] := a[i];
      i := i + 1;
    }
  }

  method Zero(a: array<real>, from: nat, n: nat)
    requires from + n <= a.Length
    modifies a
    ensures forall k: nat :: k < a.Length ==> a[k] == if from <= k < from + n then 0.0 else old(a[k])
  {
    var i := from;
    while i < from + n
      invariant from <= i <= from + n
      invariant forall k: nat :: k < a.Length ==> a[k] == if from <= k < i then 0.0 else old(a[k])
    {
      a[i] := 0.0;
      i := i + 1;
    }
  }

  /** The `swap` of two whole signals. */
  method Swap(a: array<real>, b: array<real>)
    requires a != b && a.Length == b.Length
    modifies a, b
    ensures a[..] == old(b[..]) && b[..] == old(a[..])
  {
    var i := 0;
    while i < a.Length
      invariant 0 <= i <= a.Length
      invariant forall k: nat :: k < i ==> a[k] == old(b[k]) && b[k] == old(a[k])
      invariant forall k: nat :: i <= k < a.Length ==> a[k] == old(a[k]) && b[k] == old(b[k])
    {
      a[i], b[i] := b[i], a[i];
      i := i + 1;
    }
  }

  /** n samples from position `start` up go, negated, to the positions just below `end` and down. */
  method Flip(a: array<real>, start: nat, b: array<real>, end: nat, n: nat)
    requires start + n <= a.Length && n <= end <= b.Length
    requires a == b ==> start + n <= end - n
    modifies b
    ensures forall k: nat :: end - n <= k < end ==> b[k] == -old(a[start + (end - 1 - k)])
    ensures forall k: nat :: k < b.Length && !(end - n <= k < end) ==> b[k] == old(b[k])
  {
    var i, out := start, end;
    while i < start + n
      invariant start <= i <= start + n && out == end - (i - start)
      invariant forall k: nat :: out <= k < end ==> b[k] == -old(a[start + (end - 1 - k)])
      invariant forall k: nat :: k < b.Length && !(out <= k < end) ==> b[k] == old(b[k])
    {
      out := out - 1;
      b[out] := -a[i];
      i := i + 1;
    }
  }

  // ----- rfft~, rifft~, fft~ -----

  /** The real and imaginary signals hold the half-complex spectrum fz: bins 0 to n/2, zeros beyond. */
  ghost predicate Holds(re: seq<real>, im: seq<real>, fz: seq<real>) {
    && |re| == |im| == |fz|
    && (forall k: nat :: k < |fz| ==> re[k] == if k <= |fz| / 2 then fz[k] else 0.0)
    && (forall k: nat :: k < |fz| ==> im[k] == if 1 <= k < |fz| / 2 then -fz[|fz| - k] else 0.0)
  }

  /**
   * The same in plain numbers, from the packed transform a: the real signal holds a[0], a[2], a[4], ... and, at the
   * Nyquist bin, a[1]; the imaginary signal holds a[3], a[5], ... with their signs turned, from bin 1 on.
   */
  ghost predicate Bins(re: seq<real>, im: seq<real>, a: seq<real>) {
    && |re| == |im| == |a| && |a| >= 4
    && re[0] == a[0] && re[|a| / 2] == a[1] && im[0] == im[|a| / 2] == 0.0
    && (forall k: nat :: 1 <= k < |a| / 2 ==> re[k] == a[2 * k] && im[k] == -a[2 * k + 1])
    && (forall k: nat :: |a| / 2 < k < |a| ==> re[k] == 0.0 && im[k] == 0.0)
  }

  lemma HoldsBins(re: seq<real>, im: seq<real>, a: seq<real>)
    requires |a| % 2 == 0 && |a| >= 4 && Holds(re, im, Unpack(a))
    ensures Bins(re, im, a)
  {
    UnpackAt(a, 0);
    hide Unpack;
    forall k: nat | 1 <= k < |a| / 2 ensures re[k] == a[2 * k] && im[k] == -a[2 * k + 1] { UnpackAt(a, k); }
  }

  /** What rifft~ hands to the inverse transform: the real part as it is, the imaginary part flipped on top. */
  function Joined(re: seq<real>, im: seq<real>): (z: seq<real>)
    requires |re| == |im| && |re| % 2 == 0
    ensures |z| == |re|
  {
    var n := |re|;
    seq(n, k requires 0 <= k < n => if k <= n / 2 then re[k] else -im[n - k])
  }

  /** And what the inverse transform is given, packed: the same numbers in the same places. */
  lemma JoinedBins(re: seq<real>, im: seq<real>)
    requires |re| == |im| && |re| % 2 == 0 && |re| >= 4
    ensures var a := Pack(Joined(re, im));
            && a[0] == re[0] && a[1] == re[|re| / 2]
            && forall k: nat :: 1 <= k < |re| / 2 ==> a[2 * k] == re[k] && a[2 * k + 1] == -im[k]
  {
    var z := Joined(re, im);
    PackAt(z, 0);
    hide Pack;
    forall k: nat | 1 <= k < |re| / 2 ensures Pack(z)[2 * k] == re[k] && Pack(z)[2 * k + 1] == -im[k] { PackAt(z, k); }
  }

  /** Everything rfft~ puts in the chain, run once; either output may be the input's own buffer. */
  method RFft(in1: array<real>, out1: array<real>, out2: array<real>, rdft: seq<real> -> seq<real>)
    requires in1.Length == out1.Length == out2.Length && out1 != out2
    requires in1.Length % 2 == 0 && in1.Length >= 4 && KeepsLength(rdft)
    modifies out1, out2
    ensures Holds(out1[..], out2[..], Unpack(rdft(old(in1[..]))))
    ensures Bins(out1[..], out2[..], rdft(old(in1[..])))
  {
    hide Holds, Bins, Unpack, KeepsLength;
    ghost var x := in1[..];
    if in1 != out1 { Copy(in1, out1, in1.Length); }
    assert out1[..] == x;
    MayerRealFft(out1, rdft);
    Separate(out1, out2, in1.Length / 2);
    SameLength(rdft, x);
    HoldsBins(out1[..], out2[..], rdft(x));
  }

  lemma SameLength(f: seq<real> -> seq<real>, s: seq<real>)
    requires KeepsLength(f)
    ensures |f(s)| == |s|
  {
  }

  /** The chain behind the transform: the imaginary parts move to the other buffer. */
  method Separate(out1: array<real>, out2: array<real>, n2: nat)
    requires out1.Length == out2.Length == 2 * n2 && out1 != out2 && n2 >= 2
    modifies out1, out2
    ensures Holds(out1[..], out2[..], old(out1[..]))
  {
    hide Holds;
    ghost var fz := out1[..];
    Flip(out1, n2 + 1, out2, n2, n2 - 1);
    var eights := (n2 - 1) / 8 * 8;
    assert 0 <= eights && eights + (n2 - 1) % 8 == n2 - 1;
    Zero(out1, n2 + 1, eights);
    Zero(out1, n2 + 1 + eights, (n2 - 1) % 8);
    Zero(out2, n2, n2);
    Zero(out2, 0, 1);
    SeparatedHolds(out1[..], out2[..], fz, n2);
  }

  lemma SeparatedHolds(re: seq<real>, im: seq<real>, fz: seq<real>, n2: nat)
    requires |re| == |im| == |fz| == 2 * n2
    requires forall k: nat :: k < 2 * n2 ==> re[k] == if k < n2 + 1 then fz[k] else 0.0
    requires forall k: nat :: 1 <= k < n2 ==> im[k] == -fz[n2 + 1 + (n2 - 1 - k)]
    requires forall k: nat :: n2 <= k < 2 * n2 ==> im[k] == 0.0
    requires n2 > 0 ==> im[0] == 0.0
    ensures Holds(re, im, fz)
  {
    forall k: nat | 1 <= k < n2 ensures im[k] == -fz[2 * n2 - k] {
      assert n2 + 1 + (n2 - 1 - k) == 2 * n2 - k;
    }
  }

  /** The loading half of rifft~, for every way its inputs may share a buffer with its output or each other. */
  method Load(in1: array<real>, in2: array<real>, out1: array<real>)
    requires in1.Length == in2.Length == out1.Length && in1.Length % 2 == 0 && in1.Length >= 4
    modifies out1
    ensures out1[..] == Joined(old(in1[..]), old(in2[..]))
  {
    var n, n2 := in1.Length, in1.Length / 2;
    if in2 == out1 {
      Flip(out1, 1, out1, n, n2 - 1);
      Copy(in1, out1, n2 + 1);
    } else {
      if in1 != out1 { Copy(in1, out1, n2 + 1); }
      Flip(in2, 1, out1, n, n2 - 1);
    }
  }

  method RIFft(in1: array<real>, in2: array<real>, out1: array<real>, rdft: seq<real> -> seq<real>)
    requires in1.Length == in2.Length == out1.Length && in1.Length % 2 == 0 && in1.Length >= 4
    requires KeepsLength(rdft)
    modifies out1
    ensures out1[..] == Doubled(rdft(Pack(Joined(old(in1[..]), old(in2[..])))))
  {
    Load(in1, in2, out1);
    MayerRealIfft(out1, rdft);
  }

  /** The loading half of fft~ and ifft~: the outputs get the inputs, whichever buffers are shared. */
  method LoadComplex(in1: array<real>, in2: array<real>, out1: array<real>, out2: array<real>)
    requires in1.Length == in2.Length == out1.Length == out2.Length && out1 != out2
    modifies out1, out2
    ensures out1[..] == old(in1[..]) && out2[..] == old(in2[..])
  {
    var n := in1.Length;
    if out1 == in2 && out2 == in1 {
      Swap(out1, out2);
    } else if out1 == in2 {
      Copy(in2, out2, n);
      Copy(in1, out1, n);
    } else {
      if out1 != in1 { Copy(in1, out1, n); }
      if out2 != in2 { Copy(in2, out2, n); }
    }
  }

  /** rifft~ gives its inverse transform exactly the array that rfft~'s forward transform produced. */
  lemma JoinedHolds(re: seq<real>, im: seq<real>, fz: seq<real>)
    requires Holds(re, im, fz) && |fz| % 2 == 0
    ensures Joined(re, im) == fz
  {
    var n := |fz|;
    forall k: nat | k < n ensures Joined(re, im)[k] == fz[k] {
      if k > n / 2 { assert n - (n - k) == k && im[n - k] == -fz[n - (n - k)]; }
    }
  }

  ghost predicate Scales(s: seq<real>, r: seq<real>, c: real) {
    |r| == |s| && forall i: nat :: i < |s| ==> r[i] == c * s[i]
  }

  /**
   * rfft~ followed by rifft~, on any buffers: if the backward real transform undoes the forward one up to
   * n/2, the signal comes back n times as large.
   */
  method RoundTrip(in1: array<real>, re: array<real>, im: array<real>, out: array<real>,
                   forward: seq<real> -> seq<real>, backward: seq<real> -> seq<real>)
    requires in1.Length == re.Length == im.Length == out.Length && re != im
    requires in1.Length % 2 == 0 && in1.Length >= 4 && KeepsLength(forward) && KeepsLength(backward)
    requires forall s: seq<real> :: |s| == in1.Length ==> Scales(s, backward(forward(s)), (|s| / 2) as real)
    modifies re, im, out
    ensures Scales(old(in1[..]), out[..], in1.Length as real)
  {
    hide Joined, Holds, Pack, Unpack, Doubled, Scales;
    ghost var x := in1[..];
    RFft(in1, re, im, forward);
    JoinedHolds(re[..], im[..], Unpack(forward(x)));
    PackUnpack(forward(x));
    RIFft(re, im, out, backward);
    ScalesTwice(x, backward(forward(x)));
  }

  lemma ScalesTwice(x: seq<real>, y: seq<real>)
    requires Scales(x, y, (|x| / 2) as real) && |x| % 2 == 0
    ensures Scales(x, Doubled(y), |x| as real)
  {
    var h := (|x| / 2) as real;
    assert 2.0 * h == |x| as real;
    forall i: nat | i < |x| ensures Doubled(y)[i] == |x| as real * x[i] {
      assert y[i] == h * x[i];
    }
  }
}
