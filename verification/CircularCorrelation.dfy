/**
 correlate_circular of sw/ab_cal_scripts/delay_determination.py in its FFT branch, over exact
 arithmetic: the full convolution folded to one period, shifted, and given an axis.
 */
module CircularCorrelation {
  import opened Division
  import opened MinMax
  import opened Squares

  // ----- Sequences of samples -----

  function Dot(a: seq<real>, b: seq<real>): real
    requires |a| == |b|
  {
    if a == [] then 0.0 else a[0] * b[0] + Dot(a[1..], b[1..])
  }

  function Zeros(n: nat): seq<real> {
    seq(n, _ => 0.0)
  }

  function Add(a: seq<real>, b: seq<real>): (r: seq<real>)
    requires |a| == |b|
    ensures |r| == |a|
  {
    seq(|a|, i requires 0 <= i < |a| => a[i] + b[i])
  }

  /** i modulo n, one turn at a time. */
  function Turn(i: int, n: nat): (k: nat)
    requires n > 0
    ensures k < n
    decreases if i < 0 then n - i else i
  {
    if i < 0 then Turn(i + n, n) else if i < n then i else Turn(i - n, n)
  }

  /** x circularly delayed by r. */
  function Rotate(x: seq<real>, r: int): (y: seq<real>)
    requires x != []
    ensures |y| == |x|
  {
    seq(|x|, j requires 0 <= j < |x| => x[Turn(j - r, |x|)])
  }

  /** The sample at i of a signal that is zero outside its length. */
  function At(s: seq<real>, i: int): real {
    if 0 <= i < |s| then s[i] else 0.0
  }

  /** n samples of s delayed by lag, with zeros before and behind. */
  function Window(s: seq<real>, lag: int, n: nat): (w: seq<real>)
    ensures |w| == n
  {
    seq(n, j => At(s, j - lag))
  }

  function Reverse(s: seq<real>): (r: seq<real>)
    ensures |r| == |s|
  {
    seq(|s|, i requires 0 <= i < |s| => s[|s| - 1 - i])
  }

  // ----- The code -----

  /** The n samples of b that entry m of a convolution multiplies. */
  function Facing(b: seq<real>, m: int, n: nat): (w: seq<real>)
    ensures |w| == n
  {
    seq(n, j => At(b, m - j))
  }

  /** scipy.signal.fftconvolve(a, b, "full"), exactly: entry m is the sum of a[j] b[m - j]. */
  function Convolve(a: seq<real>, b: seq<real>): (c: seq<real>)
    requires a != [] && b != []
    ensures |c| == |a| + |b| - 1
  {
    seq(|a| + |b| - 1, m => ConvolveAt(a, b, m))
  }

  function ConvolveAt(a: seq<real>, b: seq<real>, m: int): real {
    Dot(a, Facing(b, m, |a|))
  }

  /** One period: the end of the convolution plus its beginning, each behind zeros. */
  function Fold(c: seq<real>, n1: nat, n2: nat): (f: seq<real>)
    requires n1 > 0 && n2 > 0 && |c| == n1 + n2 - 1
    ensures |f| == Max(n1, n2)
  {
    var nmax := Max(n1, n2);
    Add(Ending(c, nmax, n1), Beginning(c, nmax, n2))
  }

  function Ending(c: seq<real>, nmax: nat, n1: nat): (r: seq<real>)
    requires n1 <= nmax && n1 <= |c|
    ensures |r| == nmax
  {
    Zeros(nmax - n1) + c[|c| - n1..]
  }

  function Beginning(c: seq<real>, nmax: nat, n2: nat): (r: seq<real>)
    requires 0 < n2 <= nmax && n2 <= |c| + 1
    ensures |r| == nmax
  {
    Zeros(nmax - n2 + 1) + c[..n2 - 1]
  }

  /** scipy.fftpack.fftshift */
  function FftShift(x: seq<real>): (y: seq<real>)
    ensures |y| == |x|
  {
    var p := (|x| + 1) / 2;
    x[p..] + x[..p]
  }

  /** scipy.arange(-n/2, n/2), with Python 2's division rounding down. */
  function DelayAxis(n: nat): (axis: seq<int>)
    ensures |axis| == n
  {
    var length: int := n;
    seq(n, i => -length / 2 + i)
  }

  function Correlate(s1: seq<real>, s2: seq<real>): (r: (seq<int>, seq<real>))
    requires s1 != [] && s2 != []
    ensures |r.0| == |r.1| == Max(|s1|, |s2|)
  {
    var c := FftShift(Fold(Convolve(s1, Reverse(s2)), |s1|, |s2|));
    (DelayAxis(|c|), c)
  }

  // ----- The reference -----

  /** Linear cross-correlation at a lag. */
  function Linear(s1: seq<real>, s2: seq<real>, lag: int): real {
    Dot(s1, Window(s2, lag, |s1|))
  }

  /** Circular cross-correlation at a lag, the second signal padded with zeros. */
  function Circular(s1: seq<real>, s2: seq<real>, lag: int): real
    requires s1 != [] && |s2| <= |s1|
  {
    Dot(s1, Rotate(s2 + Zeros(|s1| - |s2|), lag))
  }

  // ----- Sums of products -----

  lemma {:induction false} DotAdd(a: seq<real>, u: seq<real>, v: seq<real>)
    requires |a| == |u| == |v|
    ensures Dot(a, Add(u, v)) == Dot(a, u) + Dot(a, v)
  {
    if a != [] {
      DotAdd(a[1..], u[1..], v[1..]);
      assert Add(u, v)[1..] == Add(u[1..], v[1..]);
    }
  }

  lemma {:induction false} DotZeros(a: seq<real>)
    ensures Dot(a, Zeros(|a|)) == 0.0
  {
    if a != [] {
      DotZeros(a[1..]);
      assert Zeros(|a|)[1..] == Zeros(|a[1..]|);
    }
  }

  lemma {:induction false} DotAppend(a: seq<real>, b: seq<real>, c: seq<real>, d: seq<real>)
    requires |a| == |c| && |b| == |d|
    ensures Dot(a + b, c + d) == Dot(a, c) + Dot(b, d)
  {
    if a == [] {
      assert a + b == b && c + d == d;
    } else {
      DotAppend(a[1..], b, c[1..], d);
      assert (a + b)[1..] == a[1..] + b && (c + d)[1..] == c[1..] + d;
    }
  }

  lemma {:induction false} DotCommutes(a: seq<real>, b: seq<real>)
    requires |a| == |b|
    ensures Dot(a, b) == Dot(b, a)
  {
    if a != [] {
      DotCommutes(a[1..], b[1..]);
    }
  }

  /** Twice a product sum is at most the two energies together, and less for different signals. */
  lemma {:induction false} DotBound(a: seq<real>, b: seq<real>)
    requires |a| == |b|
    ensures Dot(a, b) + Dot(a, b) <= Dot(a, a) + Dot(b, b)
    ensures a != b ==> Dot(a, b) + Dot(a, b) < Dot(a, a) + Dot(b, b)
  {
    if a != [] {
      DotBound(a[1..], b[1..]);
      if a[0] != b[0] {
        SquareBound(a[0], b[0]);
      }
      assert a == [a[0]] + a[1..] && b == [b[0]] + b[1..];
    }
  }

  // ----- Rotations -----

  lemma TurnStep(i: int, n: nat)
    requires n > 0
    ensures Turn(i + n, n) == Turn(i, n)
  {
  }

  /** Turn is the remainder that is never negative. */
  lemma {:induction false} TurnIsMod(i: int, n: nat)
    requires n > 0
    ensures Turn(i, n) == i % n
    decreases if i < 0 then n - i else i
  {
    if i < 0 {
      TurnIsMod(i + n, n);
      ModStep(i, n);
    } else if i >= n {
      TurnIsMod(i - n, n);
      ModStep(i - n, n);
    }
  }

  lemma {:induction false} TurnCompose(a: int, c: int, n: nat)
    requires n > 0
    ensures Turn(Turn(a, n) + c, n) == Turn(a + c, n)
    decreases if a < 0 then n - a else a
  {
    if a < 0 {
      TurnCompose(a + n, c, n);
      TurnStep(a + c, n);
    } else if a >= n {
      TurnCompose(a - n, c, n);
      TurnStep(a - n + c, n);
    }
  }

  lemma RotateAt(x: seq<real>, r: int, j: nat)
    requires j < |x|
    ensures Rotate(x, r)[j] == x[Turn(j - r, |x|)]
  {
  }

  lemma RotateSplit(x: seq<real>, r: nat)
    requires r < |x|
    ensures Rotate(x, r) == x[|x| - r..] + x[..|x| - r]
  {
    forall j | 0 <= j < |x| ensures Rotate(x, r)[j] == (x[|x| - r..] + x[..|x| - r])[j] {
      RotateAt(x, r, j);
    }
  }

  /** Only the delay modulo the length matters. */
  lemma RotateMod(x: seq<real>, r: int)
    requires x != []
    ensures Rotate(x, r) == Rotate(x, Turn(r, |x|))
  {
    forall j | 0 <= j < |x| ensures Rotate(x, r)[j] == Rotate(x, Turn(r, |x|))[j] {
      TurnNegated(j, r, |x|);
    }
  }

  lemma {:induction false} TurnNegated(j: int, r: int, n: nat)
    requires n > 0
    ensures Turn(j - Turn(r, n), n) == Turn(j - r, n)
    decreases if r < 0 then n - r else r
  {
    if r < 0 {
      TurnNegated(j, r + n, n);
      TurnStep(j - r - n, n);
    } else if r >= n {
      TurnNegated(j, r - n, n);
      TurnStep(j - r, n);
    }
  }

  lemma RotateCompose(x: seq<real>, r: int, t: int)
    requires x != []
    ensures Rotate(Rotate(x, r), t) == Rotate(x, r + t)
  {
    forall j | 0 <= j < |x| ensures Rotate(Rotate(x, r), t)[j] == Rotate(x, r + t)[j] {
      TurnCompose(j - t, -r, |x|);
      RotateAt(Rotate(x, r), t, j);
      RotateAt(x, r, Turn(j - t, |x|));
      RotateAt(x, r + t, j);
    }
  }

  /** Rotating both signals keeps their product sum. */
  lemma DotRotate(a: seq<real>, b: seq<real>, r: int)
    requires |a| == |b| > 0
    ensures Dot(Rotate(a, r), Rotate(b, r)) == Dot(a, b)
  {
    var n := |a|;
    var t := Turn(r, n);
    RotateMod(a, r);
    RotateMod(b, r);
    RotateSplit(a, t);
    RotateSplit(b, t);
    DotExchange(a, b, n - t);
  }

  lemma DotExchange(a: seq<real>, b: seq<real>, k: nat)
    requires |a| == |b| && k <= |a|
    ensures Dot(a[k..] + a[..k], b[k..] + b[..k]) == Dot(a, b)
  {
    DotAppend(a[k..], a[..k], b[k..], b[..k]);
    DotAppend(a[..k], a[k..], b[..k], b[k..]);
    assert a == a[..k] + a[k..] && b == b[..k] + b[k..];
  }

  // ----- Folding the convolution -----

  lemma FacingReversed(s: seq<real>, lag: int, n: nat)
    ensures Facing(Reverse(s), |s| - 1 + lag, n) == Window(s, lag, n)
  {
    forall j | 0 <= j < n ensures Facing(Reverse(s), |s| - 1 + lag, n)[j] == Window(s, lag, n)[j] {
      var i := |s| - 1 + lag - j;
      assert 0 <= i < |s| ==> Reverse(s)[i] == s[j - lag];
      assert At(Reverse(s), i) == At(s, j - lag);
    }
  }

  /** An entry of the convolution with the reversed signal is the linear correlation at a lag. */
  lemma ConvolveLag(s1: seq<real>, s2: seq<real>, m: nat)
    requires s1 != [] && s2 != [] && m < |s1| + |s2| - 1
    ensures Convolve(s1, Reverse(s2))[m] == Linear(s1, s2, m - |s2| + 1)
  {
    ConvolveEntry(s1, Reverse(s2), m);
    FacingReversed(s2, m - |s2| + 1, |s1|);
  }

  lemma ConvolveEntry(a: seq<real>, b: seq<real>, m: nat)
    requires a != [] && b != [] && m < |a| + |b| - 1
    ensures Convolve(a, b)[m] == Dot(a, Facing(b, m, |a|))
  {
  }

  lemma LinearOutside(s1: seq<real>, s2: seq<real>, lag: int)
    requires lag >= |s1| || lag <= -|s2|
    ensures Linear(s1, s2, lag) == 0.0
  {
    forall j | 0 <= j < |s1| ensures Window(s2, lag, |s1|)[j] == Zeros(|s1|)[j] {
      assert At(s2, j - lag) == 0.0;
    }
    assert Window(s2, lag, |s1|) == Zeros(|s1|);
    DotZeros(s1);
  }

  lemma EndingAt(c: seq<real>, nmax: nat, n1: nat, i: nat)
    requires n1 <= nmax && n1 <= |c| && i < nmax
    ensures Ending(c, nmax, n1)[i] == if i < nmax - n1 then 0.0 else c[|c| - nmax + i]
  {
  }

  lemma BeginningAt(c: seq<real>, nmax: nat, n2: nat, i: nat)
    requires 0 < n2 <= nmax && n2 <= |c| + 1 && i < nmax
    ensures Beginning(c, nmax, n2)[i] == if i <= nmax - n2 then 0.0 else c[n2 - 1 + i - nmax]
  {
  }

  /** The linear correlation at a lag below zero, and zero where the signals do not meet. */
  lemma BeginningLag(s1: seq<real>, s2: seq<real>, i: nat, nmax: nat)
    requires s1 != [] && s2 != [] && |s2| <= nmax && i < nmax
    ensures Beginning(Convolve(s1, Reverse(s2)), nmax, |s2|)[i] == Linear(s1, s2, i - nmax)
  {
    BeginningAt(Convolve(s1, Reverse(s2)), nmax, |s2|, i);
    if i > nmax - |s2| {
      ConvolveLag(s1, s2, |s2| - 1 + i - nmax);
    } else {
      LinearOutside(s1, s2, i - nmax);
    }
  }

  lemma EndingLag(s1: seq<real>, s2: seq<real>, i: nat, nmax: nat)
    requires s1 != [] && s2 != [] && |s1| <= nmax && i < nmax
    ensures Ending(Convolve(s1, Reverse(s2)), nmax, |s1|)[i] ==
      if i < nmax - |s1| then 0.0 else Linear(s1, s2, i - nmax + |s1|)
  {
    EndingAt(Convolve(s1, Reverse(s2)), nmax, |s1|, i);
    if i >= nmax - |s1| {
      ConvolveLag(s1, s2, |s2| - 1 + i - nmax + |s1|);
    }
  }

  lemma AddAt(a: seq<real>, b: seq<real>, i: nat)
    requires |a| == |b| && i < |a|
    ensures Add(a, b)[i] == a[i] + b[i]
  {
  }

  /** For signals of any lengths, entry i of the period is the sum of two linear correlations. */
  lemma FoldAt(s1: seq<real>, s2: seq<real>, i: nat, nmax: nat)
    requires s1 != [] && s2 != [] && nmax == Max(|s1|, |s2|) && i < nmax
    ensures Fold(Convolve(s1, Reverse(s2)), |s1|, |s2|)[i] ==
      (if i < nmax - |s1| then 0.0 else Linear(s1, s2, i - nmax + |s1|)) + Linear(s1, s2, i - nmax)
  {
    var c := Convolve(s1, Reverse(s2));
    EndingLag(s1, s2, i, nmax);
    BeginningLag(s1, s2, i, nmax);
    AddAt(Ending(c, nmax, |s1|), Beginning(c, nmax, |s2|), i);
  }

  lemma PaddedAt(s: seq<real>, n: nat, k: nat)
    requires |s| <= n && k < n
    ensures (s + Zeros(n - |s|))[k] == At(s, k)
  {
  }

  lemma WindowAt(s: seq<real>, lag: int, n: nat, j: nat)
    requires j < n
    ensures Window(s, lag, n)[j] == At(s, j - lag)
  {
  }

  /** Two windows one period apart make a rotation. */
  lemma WindowsWrap(s: seq<real>, i: nat, n: nat)
    requires s != [] && |s| <= n && i < n
    ensures Add(Window(s, i, n), Window(s, i - n, n)) == Rotate(s + Zeros(n - |s|), i)
  {
    var p := s + Zeros(n - |s|);
    forall j | 0 <= j < n ensures Add(Window(s, i, n), Window(s, i - n, n))[j] == Rotate(p, i)[j] {
      var k := if j < i then j - i + n else j - i;
      RotateAt(p, i, j);
      assert Turn(j - i, n) == k;
      PaddedAt(s, n, k);
      AddAt(Window(s, i, n), Window(s, i - n, n), j);
      WindowAt(s, i, n, j);
      WindowAt(s, i - n, n, j);
    }
  }

  /** When the first signal is the longer one, the period is the circular correlation at lag i. */
  lemma FoldIsCircular(s1: seq<real>, s2: seq<real>, i: nat)
    requires s1 != [] && s2 != [] && |s2| <= |s1| && i < |s1|
    ensures Fold(Convolve(s1, Reverse(s2)), |s1|, |s2|)[i] == Circular(s1, s2, i)
  {
    FoldAt(s1, s2, i, |s1|);
    DotAdd(s1, Window(s2, i, |s1|), Window(s2, i - |s1|, |s1|));
    WindowsWrap(s2, i, |s1|);
  }

  lemma CircularMod(s1: seq<real>, s2: seq<real>, lag: int)
    requires s1 != [] && |s2| <= |s1|
    ensures Circular(s1, s2, lag) == Circular(s1, s2, Turn(lag, |s1|))
  {
    RotateMod(s2 + Zeros(|s1| - |s2|), lag);
  }

  // ----- The axis -----

  /** Where fftshift takes entry i from. */
  function Shifted(n: nat, i: nat): (at: nat)
    requires i < n
    ensures at < n && at == Turn(i - n / 2, n)
  {
    if i < n / 2 then i - n / 2 + n else i - n / 2
  }

  lemma FftShiftAt(x: seq<real>, i: nat)
    requires i < |x|
    ensures FftShift(x)[i] == x[Shifted(|x|, i)]
  {
  }

  lemma EntryAt(s1: seq<real>, s2: seq<real>, i: nat)
    requires s1 != [] && s2 != [] && i < Max(|s1|, |s2|)
    ensures var n := Max(|s1|, |s2|); var (axis, c) := Correlate(s1, s2);
      axis[i] == i - (n + 1) / 2 && c[i] == Fold(Convolve(s1, Reverse(s2)), |s1|, |s2|)[Shifted(n, i)]
  {
    FftShiftAt(Fold(Convolve(s1, Reverse(s2)), |s1|, |s2|), i);
  }

  /** Entry i is the circular correlation at lag axis[i], plus one when the length is odd. */
  lemma Aligned(s1: seq<real>, s2: seq<real>, i: nat)
    requires s1 != [] && s2 != [] && |s2| <= |s1| && i < |s1|
    ensures var (axis, c) := Correlate(s1, s2);
      axis[i] == i - (|s1| + 1) / 2 && c[i] == Circular(s1, s2, axis[i] + |s1| % 2)
  {
    var n := |s1|;
    EntryAt(s1, s2, i);
    FoldIsCircular(s1, s2, Shifted(n, i));
    CircularMod(s1, s2, i - n / 2);
    assert i - (n + 1) / 2 + n % 2 == i - n / 2;
  }

  /** The even lengths its callers pass: exactly the lag on the axis, which runs from -n/2 to n/2 - 1. */
  lemma AlignedEven(s1: seq<real>, s2: seq<real>)
    requires s1 != [] && s2 != [] && |s2| <= |s1| && |s1| % 2 == 0
    ensures var (axis, c) := Correlate(s1, s2); |axis| == |c| == |s1| && Right(s1, s2, axis, c)
  {
    var (axis, c) := Correlate(s1, s2);
    forall i | 0 <= i < |s1| ensures axis[i] == i - |s1| / 2 && c[i] == Circular(s1, s2, axis[i]) {
      Aligned(s1, s2, i);
    }
  }

  ghost predicate Right(s1: seq<real>, s2: seq<real>, axis: seq<int>, c: seq<real>)
    requires s1 != [] && |s2| <= |s1| == |axis| == |c|
  {
    forall i :: 0 <= i < |s1| ==> axis[i] == i - |s1| / 2 && c[i] == Circular(s1, s2, axis[i])
  }

  // ----- Exactly which lengths are aligned -----

  /** Entry i is the circular correlation at lag axis[i], the shorter signal padded with zeros. */
  ghost predicate EntryRight(s1: seq<real>, s2: seq<real>, i: nat)
    requires s1 != [] && s2 != [] && i < Max(|s1|, |s2|)
  {
    Correlate(s1, s2).1[i] == Circular(s1 + Zeros(Max(|s1|, |s2|) - |s1|), s2, Correlate(s1, s2).0[i])
  }

  /** For every pair of lengths: the axis is right for all signals if and only if the first signal is at
      least as long as the second and its length is even, or one. */
  lemma AlignedIff(n1: nat, n2: nat)
    requires n1 > 0 && n2 > 0
    ensures (forall s1: seq<real>, s2: seq<real>, i: nat | |s1| == n1 && |s2| == n2 && i < Max(n1, n2) ::
        EntryRight(s1, s2, i))
      <==> n2 <= n1 && (n1 % 2 == 0 || n1 == 1)
  {
    if n1 < n2 {
      ShorterFirst(n1, n2);
    } else if n1 % 2 == 1 && n1 != 1 {
      OddLength(n1, n2);
    } else {
      forall s1: seq<real>, s2: seq<real>, i: nat | |s1| == n1 && |s2| == n2 && i < Max(n1, n2)
        ensures EntryRight(s1, s2, i) {
        AlignedEnough(s1, s2, i);
      }
    }
  }

  lemma LagOfOne(s1: seq<real>, s2: seq<real>, lag: int)
    requires |s1| == 1 && |s2| <= 1
    ensures Circular(s1, s2, lag) == Circular(s1, s2, 0)
  {
    CircularMod(s1, s2, lag);
  }

  lemma EntryOf(s1: seq<real>, s2: seq<real>, i: nat, lag: int, v: real)
    requires s1 != [] && s2 != [] && |s2| <= |s1| && i < |s1|
    requires Correlate(s1, s2).0[i] == lag && Correlate(s1, s2).1[i] == v && Circular(s1, s2, lag) == v
    ensures EntryRight(s1, s2, i)
  {
    assert s1 + Zeros(0) == s1;
  }

  /** The lag that the code gives to entry i is as good as the right one. */
  lemma LagGood(s1: seq<real>, s2: seq<real>, lag: int)
    requires s1 != [] && |s2| <= |s1| && (|s1| % 2 == 0 || |s1| == 1)
    ensures Circular(s1, s2, lag + |s1| % 2) == Circular(s1, s2, lag)
  {
    if |s1| == 1 {
      LagOfOne(s1, s2, lag);
      LagOfOne(s1, s2, lag + 1);
    }
  }

  lemma AlignedEnough(s1: seq<real>, s2: seq<real>, i: nat)
    requires s1 != [] && s2 != [] && |s2| <= |s1| && i < |s1| && (|s1| % 2 == 0 || |s1| == 1)
    ensures EntryRight(s1, s2, i)
  {
    var lag := i - (|s1| + 1) / 2;
    Aligned(s1, s2, i);
    LagGood(s1, s2, lag);
    EntryOf(s1, s2, i, lag, Circular(s1, s2, lag));
  }

  /** One at k and zero elsewhere. */
  function Pulse(n: nat, k: nat): (p: seq<real>)
    ensures |p| == n
  {
    seq(n, i => if i == k then 1.0 else 0.0)
  }

  /** A leading pulse picks out one sample. */
  lemma DotPulse(s: seq<real>)
    requires s != []
    ensures Dot(Pulse(|s|, 0), s) == s[0]
  {
    assert Pulse(|s|, 0)[1..] == Zeros(|s| - 1);
    DotZeros(s[1..]);
    DotCommutes(s[1..], Zeros(|s| - 1));
  }

  lemma CircularPulse(s: seq<real>, lag: int)
    requires s != []
    ensures Circular(Pulse(|s|, 0), s, lag) == s[Turn(-lag, |s|)]
  {
    assert s + Zeros(0) == s;
    DotPulse(Rotate(s, lag));
    RotateAt(s, lag, 0);
  }

  lemma LinearPulse(n: nat, s: seq<real>, lag: int)
    requires n > 0
    ensures Linear(Pulse(n, 0), s, lag) == At(s, -lag)
  {
    DotPulse(Window(s, lag, n));
  }

  lemma PulsePadded(n: nat, m: nat)
    requires 0 < n <= m
    ensures Pulse(n, 0) + Zeros(m - n) == Pulse(m, 0)
  {
  }

  lemma OddLength(n1: nat, n2: nat)
    requires 0 < n2 <= n1 && n1 % 2 == 1 && n1 != 1
    ensures exists s1: seq<real>, s2: seq<real>, i: nat | |s1| == n1 && |s2| == n2 && i < Max(n1, n2) ::
      !EntryRight(s1, s2, i)
  {
    var s1, s2, i := Pulse(n1, 0), Pulse(n2, 0), (n1 + 1) / 2;
    PulsePadded(n2, n1);
    assert s1 + Zeros(0) == s1;
    assert Pulse(n1, 0) + Zeros(0) == Pulse(n1, 0);
    Aligned(s1, s2, i);
    CircularPulse(Pulse(n1, 0), 0);
    CircularPulse(Pulse(n1, 0), 1);
    assert Turn(-1, n1) == n1 - 1 && Turn(0, n1) == 0;
    assert !EntryRight(s1, s2, i);
  }

  /** The entry that the code takes from position k of the period, and the lag it is given. */
  lemma EntryFrom(n: nat, k: nat) returns (i: nat)
    requires k < n && n >= 2
    ensures i < n && Shifted(n, i) == k
    ensures Turn((n + 1) / 2 - i, n) == if k <= n % 2 then n % 2 - k else n - k + n % 2
  {
    i := if k < n - n / 2 then k + n / 2 else k - (n - n / 2);
    assert (n + 1) / 2 == n / 2 + n % 2;
    assert (n + 1) / 2 - i == n % 2 - k || (n + 1) / 2 - i == n % 2 - k + n;
    TurnStep(n % 2 - k, n);
  }

  /** A position of the period where the second signal's pulse lands, but its label points past it. */
  ghost predicate Misplaced(n1: nat, n2: nat, at: nat, k: nat) {
    && 0 < n1 < n2
    && if n2 - n1 == n2 % 2 then at == n2 - 1 && k == 1 else at == 0 && k == n2 - n1
  }

  /** What the code returns there. */
  lemma PulseValue(n1: nat, n2: nat, at: nat, i: nat, k: nat)
    requires Misplaced(n1, n2, at, k) && i < n2 && k == Shifted(n2, i)
    ensures Correlate(Pulse(n1, 0), Pulse(n2, at)).1[i] == 1.0
  {
    var s1, s2 := Pulse(n1, 0), Pulse(n2, at);
    EntryAt(s1, s2, i);
    FoldAt(s1, s2, k, n2);
    LinearPulse(n1, s2, k - n2 + n1);
    LinearPulse(n1, s2, k - n2);
    assert (if k < n2 - n1 then 0.0 else At(s2, n2 - n1 - k)) + At(s2, n2 - k) == 1.0;
  }

  /** What its label stands for. */
  lemma PulseLabel(n1: nat, n2: nat, at: nat, i: nat, k: nat)
    requires Misplaced(n1, n2, at, k) && i < n2
    requires Turn((n2 + 1) / 2 - i, n2) == if k <= n2 % 2 then n2 % 2 - k else n2 - k + n2 % 2
    ensures var s1, s2 := Pulse(n1, 0), Pulse(n2, at);
      Circular(s1 + Zeros(Max(|s1|, |s2|) - |s1|), s2, i - (n2 + 1) / 2) == 0.0
  {
    PulsePadded(n1, n2);
    CircularPulse(Pulse(n2, at), i - (n2 + 1) / 2);
  }

  lemma AxisAt(s1: seq<real>, s2: seq<real>, i: nat)
    requires s1 != [] && s2 != [] && i < Max(|s1|, |s2|)
    ensures Correlate(s1, s2).0[i] == i - (Max(|s1|, |s2|) + 1) / 2
  {
  }

  lemma EntryWrong(s1: seq<real>, s2: seq<real>, i: nat, lag: int, v: real, w: real)
    requires s1 != [] && s2 != [] && i < Max(|s1|, |s2|) && v != w
    requires Correlate(s1, s2).0[i] == lag && Correlate(s1, s2).1[i] == v
    requires Circular(s1 + Zeros(Max(|s1|, |s2|) - |s1|), s2, lag) == w
    ensures !EntryRight(s1, s2, i)
  {
  }

  lemma PulsesWrong(n1: nat, n2: nat) returns (at: nat, i: nat)
    requires 0 < n1 < n2
    ensures i < n2 && !EntryRight(Pulse(n1, 0), Pulse(n2, at), i)
  {
    var k;
    if n2 - n1 == n2 % 2 {
      at, k := n2 - 1, 1;
    } else {
      at, k := 0, n2 - n1;
    }
    i := EntryFrom(n2, k);
    PulseValue(n1, n2, at, i, k);
    PulseLabel(n1, n2, at, i, k);
    AxisAt(Pulse(n1, 0), Pulse(n2, at), i);
    EntryWrong(Pulse(n1, 0), Pulse(n2, at), i, i - (n2 + 1) / 2, 1.0, 0.0);
  }

  lemma ShorterFirst(n1: nat, n2: nat)
    requires 0 < n1 < n2
    ensures exists s1: seq<real>, s2: seq<real>, i: nat | |s1| == n1 && |s2| == n2 && i < Max(n1, n2) ::
      !EntryRight(s1, s2, i)
  {
    var at, i := PulsesWrong(n1, n2);
  }

  // ----- Peak and cross check -----

  lemma RotateFull(x: seq<real>)
    requires x != []
    ensures x + Zeros(0) == x && Rotate(x, 0) == x
  {
    forall j | 0 <= j < |x| ensures Rotate(x, 0)[j] == x[j] {
      RotateAt(x, 0, j);
    }
  }

  /** A signal against itself delayed by d: no lag beats d, and one equals it only when the signal
      repeats at that distance. */
  lemma PeakAtDelay(x: seq<real>, d: int, lag: int)
    requires x != []
    ensures Circular(Rotate(x, d), x, lag) <= Circular(Rotate(x, d), x, d)
    ensures Circular(Rotate(x, d), x, lag) == Circular(Rotate(x, d), x, d) <==> Rotate(x, lag) == Rotate(x, d)
  {
    var a, b := Rotate(x, d), Rotate(x, lag);
    RotateFull(x);
    DotRotate(x, x, d);
    DotRotate(x, x, lag);
    DotBound(a, b);
  }

  /** Repeating at a distance, for the signal itself. */
  lemma SameRotation(x: seq<real>, d: int, lag: int)
    requires x != []
    ensures Rotate(x, lag) == Rotate(x, d) <==> Rotate(x, lag - d) == x
  {
    RotateCompose(x, lag, -d);
    RotateCompose(x, d, -d);
    RotateCompose(x, lag - d, d);
    RotateFull(x);
  }

  /** Swapping the signals negates the lag. */
  lemma SwapNegates(a: seq<real>, b: seq<real>, lag: int)
    requires |a| == |b| > 0
    ensures Circular(b, a, lag) == Circular(a, b, -lag)
  {
    RotateFull(a);
    RotateFull(b);
    DotRotate(b, Rotate(a, lag), -lag);
    RotateCompose(a, lag, -lag);
    DotCommutes(Rotate(b, -lag), a);
  }

  /** The entry at the delay is on its place of the axis and no other is higher; one is as high exactly
      when the signal repeats at that distance. */
  ghost predicate PeakAt(x: seq<real>, d: int, axis: seq<int>, c: seq<real>, i: nat)
    requires x != [] && -(|x| / 2) <= d < |x| - |x| / 2 && i < |x| == |axis| == |c|
  {
    var p := d + |x| / 2;
    axis[p] == d && c[i] <= c[p] && (c[i] == c[p] <==> Rotate(x, axis[i] - d) == x)
  }

  lemma PeakIn(x: seq<real>, d: int, axis: seq<int>, c: seq<real>, i: nat)
    requires x != [] && |x| % 2 == 0 && -(|x| / 2) <= d < |x| / 2 && i < |x| == |axis| == |c|
    requires Right(Rotate(x, d), x, axis, c)
    ensures PeakAt(x, d, axis, c, i)
  {
    PeakAtDelay(x, d, axis[i]);
    SameRotation(x, d, axis[i]);
  }

  /** In the returned arrays, for even lengths, wherever the delay falls on the axis. */
  lemma PeakFound(x: seq<real>, d: int, i: nat)
    requires x != [] && |x| % 2 == 0 && -(|x| / 2) <= d < |x| / 2 && i < |x|
    ensures PeakAt(x, d, Correlate(Rotate(x, d), x).0, Correlate(Rotate(x, d), x).1, i)
  {
    AlignedEven(Rotate(x, d), x);
    PeakIn(x, d, Correlate(Rotate(x, d), x).0, Correlate(Rotate(x, d), x).1, i);
  }

  lemma OppositeEntries(a: seq<real>, b: seq<real>, axis: seq<int>, c: seq<real>, axis': seq<int>, c': seq<real>,
                        i: nat)
    requires |a| == |b| == |axis| == |c| == |axis'| == |c'| && |a| % 2 == 0 && i < |a|
    requires Right(a, b, axis, c) && Right(b, a, axis', c')
    ensures if i == 0 then c'[0] == c[0] else axis'[|a| - i] == -axis[i] && c'[|a| - i] == c[i]
  {
    SwapNegates(a, b, -axis[i]);
    if i == 0 {
      CircularMod(b, a, axis[0]);
      CircularMod(b, a, -axis[0]);
      TurnStep(axis[0], |a|);
    }
  }

  /** The inverse correlation is the same but negative: entry i of one is entry n - i of the other, at
      the opposite lag; entry 0, at -n/2, is its own opposite. */
  lemma CrossCheck(a: seq<real>, b: seq<real>, i: nat)
    requires |a| == |b| > 0 && |a| % 2 == 0 && i < |a|
    ensures var (axis, c) := Correlate(a, b); var (axis', c') := Correlate(b, a);
      if i == 0 then c'[0] == c[0] else axis'[|a| - i] == -axis[i] && c'[|a| - i] == c[i]
  {
    AlignedEven(a, b);
    AlignedEven(b, a);
    OppositeEntries(a, b, Correlate(a, b).0, Correlate(a, b).1, Correlate(b, a).0, Correlate(b, a).1, i);
  }
}
