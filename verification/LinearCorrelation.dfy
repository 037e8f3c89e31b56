/**
 correlate_linear of sw/ab_cal_scripts/delay_determination.py over exact arithmetic, with Python's
 slices and numpy's broadcasting, so that windows of negative length do what they do there.
 */
module LinearCorrelation {
  import opened MinMax
  import opened Squares
  import opened Wrappers

  import CircularCorrelation

  datatype Kind = DC | ASDF | AMDF

  /** The axis and the entries. */
  type Correlation = (seq<int>, seq<real>)

  datatype Error = Truncated | NegativeDimensions | ShapeMismatch

  // ----- Python and numpy -----

  /** A slice bound: negative ones count from the end, and both ends are clipped. */
  function Bound(x: int, n: nat): (b: nat)
    ensures b <= n
  {
    if x >= n then n else if x >= 0 then x else if x + n >= 0 then x + n else 0
  }

  function Slice<T>(s: seq<T>, lo: int, hi: int): seq<T> {
    var l, h := Bound(lo, |s|), Bound(hi, |s|);
    if l <= h then s[l..h] else []
  }

  function Arange(lo: int, hi: int): (r: seq<int>)
    ensures |r| == if lo <= hi then hi - lo else 0
  {
    seq(if lo <= hi then hi - lo else 0, i => lo + i)
  }

  /** ndarray.take, for indices that are in range. */
  function Take(s: seq<real>, indices: seq<int>): (r: seq<real>)
    requires forall i :: 0 <= i < |indices| ==> 0 <= indices[i] < |s|
    ensures |r| == |indices|
  {
    seq(|indices|, i requires 0 <= i < |indices| => s[indices[i]])
  }

  function Term(kind: Kind, x: real, y: real): real {
    match kind
    case DC => x * y
    case ASDF => (x - y) * (x - y)
    case AMDF => x - y
  }

  /** The sum of the terms of two windows of one length. */
  function PairSum(kind: Kind, a: seq<real>, b: seq<real>): real
    requires |a| == |b|
  {
    if a == [] then 0.0 else Term(kind, a[0], b[0]) + PairSum(kind, a[1..], b[1..])
  }

  /** The same for arrays of any lengths: a single sample is repeated, other lengths must agree. */
  function Broadcast(kind: Kind, a: seq<real>, b: seq<real>): Result<real, Error> {
    if |a| == |b| then Ok(PairSum(kind, a, b))
    else if |a| == 1 then Ok(PairSum(kind, seq(|b|, _ => a[0]), b))
    else if |b| == 1 then Ok(PairSum(kind, a, seq(|a|, _ => b[0])))
    else Err(ShapeMismatch)
  }

  function Abs(x: int): nat {
    if x < 0 then -x else x
  }

  // ----- The windows -----

  /** signal2 from a boundary on, its beginning behind its end. */
  function Turned(s: seq<real>, boundary: nat): (r: seq<real>)
    ensures |r| == |s|
  {
    Take(s, TurnedIndices(|s|, boundary))
  }

  function TurnedIndices(n: nat, boundary: nat): (r: seq<int>)
    ensures |r| == n && forall i :: 0 <= i < n ==> 0 <= r[i] < n
  {
    Slice(Arange(boundary, n) + Arange(0, boundary), 0, n)
  }

  /** Where the window starts in signal1, and where signal2 is turned to for shift k. */
  function Start(center: int, shift: nat): nat {
    if shift + center < 0 then 0 else shift + center
  }

  function Boundary(center: int, shift: nat, k: int): nat
    requires 0 - shift <= k <= shift
  {
    if shift + center < 0 then k + shift + Abs(shift + center) else k + shift
  }

  /** One pass of the loop. */
  function Entry(kind: Kind, s1: seq<real>, s2: seq<real>, center: int, shift: nat, window: int, k: int)
    : Result<real, Error>
    requires 0 - shift <= k <= shift
  {
    var lower := Start(center, shift);
    Broadcast(kind, Slice(s1, lower, lower + window), Slice(Turned(s2, Boundary(center, shift, k)), 0, window))
  }

  /** The longest window for which nothing wraps. */
  function Window(s1: seq<real>, s2: seq<real>, center: int, shift: nat): int {
    Min(|s1|, |s2|) - Abs(center) - 2 * shift
  }

  /** What every entry is meant to be: window terms, of samples whose indices differ by the delay. */
  ghost predicate Aligned(kind: Kind, s1: seq<real>, s2: seq<real>, start: nat, window: nat, delay: int, v: real) {
    && start + window <= |s1| && 0 <= start - delay && start - delay + window <= |s2|
    && v == PairSum(kind, s1[start..start + window], s2[start - delay..start - delay + window])
  }

  // ----- Which samples a pass pairs -----

  /** The indices into signal1, for windows of any sign. */
  function Cut1(n1: nat, center: int, shift: nat, window: int): seq<int> {
    Slice(Arange(0, n1), Start(center, shift), Start(center, shift) + window)
  }

  /** The indices into signal2. */
  function Cut2(n2: nat, center: int, shift: nat, window: int, k: int): seq<int>
    requires 0 - shift <= k <= shift
  {
    Slice(TurnedIndices(n2, Boundary(center, shift, k)), 0, window)
  }

  /** The number of them. */
  function Count1(n1: nat, center: int, shift: nat, window: int): nat {
    var l, h := Bound(Start(center, shift), n1), Bound(Start(center, shift) + window, n1);
    if l <= h then h - l else 0
  }

  function Count2(n2: nat, window: int): nat {
    Bound(window, n2)
  }

  /** Pass k pairs m samples with m samples, all at the distance that its delay names. */
  ghost predicate PassAligned(n1: nat, n2: nat, center: int, shift: nat, window: int, k: int, m: nat)
    requires 0 - shift <= k <= shift
  {
    var a, b := Cut1(n1, center, shift, window), Cut2(n2, center, shift, window, k);
    |a| == m && |b| == m && forall t :: 0 <= t < m ==> a[t] - b[t] == center - k
  }

  lemma SliceOfTake(s: seq<real>, indices: seq<int>, lo: int, hi: int)
    requires forall i :: 0 <= i < |indices| ==> 0 <= indices[i] < |s|
    ensures forall i :: 0 <= i < |Slice(indices, lo, hi)| ==> 0 <= Slice(indices, lo, hi)[i] < |s|
    ensures Slice(Take(s, indices), lo, hi) == Take(s, Slice(indices, lo, hi))
  {
  }

  /** For all signals, a pass sums over the samples at those indices. */
  lemma EntryIsPairs(kind: Kind, s1: seq<real>, s2: seq<real>, center: int, shift: nat, window: int, k: int)
    requires 0 - shift <= k <= shift
    ensures var a, b := Cut1(|s1|, center, shift, window), Cut2(|s2|, center, shift, window, k);
      && (forall i :: 0 <= i < |a| ==> 0 <= a[i] < |s1|) && (forall i :: 0 <= i < |b| ==> 0 <= b[i] < |s2|)
      && Entry(kind, s1, s2, center, shift, window, k) == Broadcast(kind, Take(s1, a), Take(s2, b))
  {
    FirstCut(s1, center, shift, window);
    SecondCut(s2, center, shift, window, k);
  }

  lemma FirstCut(s: seq<real>, center: int, shift: nat, window: int)
    ensures var a := Cut1(|s|, center, shift, window);
      && (forall i :: 0 <= i < |a| ==> 0 <= a[i] < |s|)
      && Slice(s, Start(center, shift), Start(center, shift) + window) == Take(s, a)
  {
    assert Take(s, Arange(0, |s|)) == s;
    SliceOfTake(s, Arange(0, |s|), Start(center, shift), Start(center, shift) + window);
  }

  lemma SecondCut(s: seq<real>, center: int, shift: nat, window: int, k: int)
    requires 0 - shift <= k <= shift
    ensures var b := Cut2(|s|, center, shift, window, k);
      && (forall i :: 0 <= i < |b| ==> 0 <= b[i] < |s|)
      && Slice(Turned(s, Boundary(center, shift, k)), 0, window) == Take(s, b)
  {
    SliceOfTake(s, TurnedIndices(|s|, Boundary(center, shift, k)), 0, window);
  }

  lemma TurnedAt(n: nat, boundary: nat, i: nat)
    requires i < n
    ensures TurnedIndices(n, boundary)[i] ==
      if boundary >= n then i else if boundary + i < n then boundary + i else boundary + i - n
  {
    var all := Arange(boundary, n) + Arange(0, boundary);
    assert TurnedIndices(n, boundary) == all[..n] && all[..n][i] == all[i];
    assert all[i] == if i < |Arange(boundary, n)| then boundary + i else i - |Arange(boundary, n)|;
  }

  lemma Cut1At(n1: nat, center: int, shift: nat, window: int, t: nat)
    ensures |Cut1(n1, center, shift, window)| == Count1(n1, center, shift, window)
    ensures t < Count1(n1, center, shift, window) ==> Cut1(n1, center, shift, window)[t] == Start(center, shift) + t
  {
  }

  lemma Cut2At(n2: nat, center: int, shift: nat, window: int, k: int, t: nat)
    requires 0 - shift <= k <= shift
    ensures |Cut2(n2, center, shift, window, k)| == Count2(n2, window)
    ensures t < Count2(n2, window) ==>
      Cut2(n2, center, shift, window, k)[t] == TurnedIndices(n2, Boundary(center, shift, k))[t]
  {
  }

  lemma PassAlignedIff(n1: nat, n2: nat, center: int, shift: nat, window: int, k: int, m: nat)
    requires 0 - shift <= k <= shift
    ensures PassAligned(n1, n2, center, shift, window, k, m) <==>
      && Count1(n1, center, shift, window) == m && Count2(n2, window) == m
      && (m == 0 || Boundary(center, shift, k) + m <= n2)
  {
    var b := Boundary(center, shift, k);
    Cut1At(n1, center, shift, window, 0);
    Cut2At(n2, center, shift, window, k, 0);
    if Count1(n1, center, shift, window) == Count2(n2, window) == m > 0 {
      var c1, c2 := Cut1(n1, center, shift, window), Cut2(n2, center, shift, window, k);
      forall t: nat | t < m ensures c1[t] - c2[t] == center - k <==> b < n2 && b + t < n2 {
        Cut1At(n1, center, shift, window, t);
        Cut2At(n2, center, shift, window, k, t);
        TurnedAt(n2, b, t);
      }
      var last := m - 1;
      assert c1[last] - c2[last] == center - k <==> b + last < n2;
    }
  }

  /** For all lengths, centers, shifts and windows: every pass pairs m samples at the distance its delay
      names, none of them across an end, if and only if both cuts have m samples and the cut of
      signal2 that starts last still ends inside it. Windows need not be positive for that. */
  lemma AlignedIff(n1: nat, n2: nat, center: int, shift: nat, window: int, m: nat)
    ensures (forall k: int | 0 - shift <= k <= shift :: PassAligned(n1, n2, center, shift, window, k, m)) <==>
      && Count1(n1, center, shift, window) == m && Count2(n2, window) == m
      && (m == 0 || Boundary(center, shift, shift) + m <= n2)
  {
    PassAlignedIff(n1, n2, center, shift, window, shift, m);
    forall k: int | 0 - shift <= k <= shift ensures PassAligned(n1, n2, center, shift, window, k, m) <==>
        && Count1(n1, center, shift, window) == m && Count2(n2, window) == m
        && (m == 0 || Boundary(center, shift, k) + m <= n2) {
      PassAlignedIff(n1, n2, center, shift, window, k, m);
    }
  }

  ghost predicate Stretch(indices: seq<int>, from: int, m: nat) {
    |indices| == m && forall t :: 0 <= t < m ==> indices[t] == from + t
  }

  lemma TakeStretch(s: seq<real>, indices: seq<int>, from: int, m: nat)
    requires m > 0 && Stretch(indices, from, m) && forall i :: 0 <= i < |indices| ==> 0 <= indices[i] < |s|
    ensures 0 <= from && from + m <= |s| && Take(s, indices) == s[from..from + m]
  {
    assert indices[0] == from && indices[m - 1] == from + m - 1;
  }

  lemma PassStretches(n1: nat, n2: nat, center: int, shift: nat, window: int, k: int, m: nat)
    requires 0 - shift <= k <= shift && PassAligned(n1, n2, center, shift, window, k, m)
    ensures Stretch(Cut1(n1, center, shift, window), Start(center, shift), m)
    ensures Stretch(Cut2(n2, center, shift, window, k), Start(center, shift) - (center - k), m)
  {
    Cut1At(n1, center, shift, window, 0);
    forall t | 0 <= t < m ensures Cut1(n1, center, shift, window)[t] == Start(center, shift) + t {
      Cut1At(n1, center, shift, window, t);
    }
  }

  /** What an aligned pass sums, for all signals: the terms of two stretches at its delay. */
  lemma AlignedSums(kind: Kind, s1: seq<real>, s2: seq<real>, center: int, shift: nat, window: int, k: int, m: nat)
    requires 0 - shift <= k <= shift && PassAligned(|s1|, |s2|, center, shift, window, k, m)
    ensures var r := Entry(kind, s1, s2, center, shift, window, k);
      r.Ok? && if m == 0 then r.value == 0.0 else Aligned(kind, s1, s2, Start(center, shift), m, center - k, r.value)
  {
    var a, b := Cut1(|s1|, center, shift, window), Cut2(|s2|, center, shift, window, k);
    EntryIsPairs(kind, s1, s2, center, shift, window, k);
    BroadcastEqual(kind, Take(s1, a), Take(s2, b));
    if m > 0 {
      PassStretches(|s1|, |s2|, center, shift, window, k, m);
      StretchesAligned(kind, s1, s2, a, b, Start(center, shift), center - k, m);
    }
  }

  lemma StretchesAligned(kind: Kind, s1: seq<real>, s2: seq<real>, a: seq<int>, b: seq<int>, start: nat, delay: int,
                         m: nat)
    requires m > 0 && Stretch(a, start, m) && Stretch(b, start - delay, m)
    requires (forall i :: 0 <= i < |a| ==> 0 <= a[i] < |s1|) && forall i :: 0 <= i < |b| ==> 0 <= b[i] < |s2|
    ensures Aligned(kind, s1, s2, start, m, delay, PairSum(kind, Take(s1, a), Take(s2, b)))
  {
    TakeStretch(s1, a, start, m);
    TakeStretch(s2, b, start - delay, m);
  }

  lemma BroadcastEqual(kind: Kind, a: seq<real>, b: seq<real>)
    requires |a| == |b|
    ensures Broadcast(kind, a, b) == Ok(PairSum(kind, a, b)) && (a == [] ==> PairSum(kind, a, b) == 0.0)
  {
  }

  /** Windows that are not negative, and fit, meet the condition. */
  lemma NonNegativeFits(n1: nat, n2: nat, center: int, shift: nat, window: nat)
    requires window <= Min(n1, n2) - Abs(center) - 2 * shift
    ensures Count1(n1, center, shift, window) == window == Count2(n2, window)
    ensures Boundary(center, shift, shift) + window <= n2 && Start(center, shift) <= n1
  {
  }

  /** No index wraps or leaves either signal, in either branch, as long as the window is not negative. */
  lemma EntryAligned(kind: Kind, s1: seq<real>, s2: seq<real>, center: int, shift: nat, window: nat, k: int)
    requires 0 - shift <= k <= shift && window <= Window(s1, s2, center, shift)
    ensures var r := Entry(kind, s1, s2, center, shift, window, k);
      r.Ok? && Aligned(kind, s1, s2, Start(center, shift), window, center - k, r.value)
  {
    NonNegativeFits(|s1|, |s2|, center, shift, window);
    AlignedIff(|s1|, |s2|, center, shift, window, window);
    AlignedSums(kind, s1, s2, center, shift, window, k, window);
  }

  // ----- The code -----

  /** The returned axis and entries, entry i being the pass for shift - i. */
  ghost predicate Computed(kind: Kind, s1: seq<real>, s2: seq<real>, center: int, shift: nat, window: int,
                           axis: seq<int>, c: seq<real>) {
    && |axis| == |c| == 2 * shift + 1
    && (forall i :: 0 <= i < |axis| ==> axis[i] == center - shift + i)
    && (forall i :: 0 <= i < |c| ==> Entry(kind, s1, s2, center, shift, window, shift - i) == Ok(c[i]))
  }

  /** Some pass fails: its two windows have different lengths. */
  ghost predicate SomeMismatch(kind: Kind, s1: seq<real>, s2: seq<real>, center: int, shift: nat, window: int) {
    exists k: int :: 0 - shift <= k <= shift && Entry(kind, s1, s2, center, shift, window, k) == Err(ShapeMismatch)
  }

  /** What a call returns for a window of this length, when maximal is the longest that fits. */
  ghost predicate Outcome(kind: Kind, s1: seq<real>, s2: seq<real>, center: int, shift: int, maximal: int, window: int,
                          r: Result<Correlation, Error>) {
    match r
    case Err(Truncated) => maximal < window
    case Err(NegativeDimensions) => maximal >= window && shift < 0
    case Err(ShapeMismatch) => maximal >= window && shift >= 0 && SomeMismatch(kind, s1, s2, center, shift, window)
    case Ok((axis, c)) => maximal >= window && shift >= 0 && Computed(kind, s1, s2, center, shift, window, axis, c)
  }

  /** zero_padd: zeros before and behind, one fewer before, with the axis extended. */
  function Padded(axis: seq<int>, c: seq<real>, length: int): (seq<int>, seq<real>)
    requires axis != []
  {
    var zeros := length / 2 - |c| / 2;
    var before := if zeros > 1 then zeros - 1 else 0;
    var after := if zeros > 0 then zeros else 0;
    var first, last := axis[0], axis[|axis| - 1];
    ((if zeros > 1 then Arange(first - zeros + 1, first) else []) + axis
     + (if zeros > 0 then Arange(last + 1, last + zeros + 1) else []),
     seq(before, _ => 0.0) + c + seq(after, _ => 0.0))
  }

  /** The result as it is returned, padded when that is asked for and there is one. */
  function Finished(r: Result<Correlation, Error>, zeroPadd: bool, window: int): Result<Correlation, Error> {
    match r
    case Ok((axis, c)) => if zeroPadd && axis != [] then Ok(Padded(axis, c, window)) else r
    case Err(_) => r
  }

  /** The result for a window that is not negative, entry by entry: with delay d, the terms of window samples
      of the two signals that are d apart; with padding, zero wherever |d - center| is more than the shift. */
  ghost predicate Promised(kind: Kind, s1: seq<real>, s2: seq<real>, center: int, shift: nat, window: nat,
                           zeroPadd: bool, axis: seq<int>, c: seq<real>) {
    var start := if shift + center < 0 then 0 else shift + center;
    var longer := zeroPadd && window / 2 > shift;
    && |axis| == |c| == (if longer then window / 2 * 2 else 2 * shift + 1)
    && (forall i :: 0 <= i < |axis| ==> axis[i] == (if longer then center - window / 2 + 1 else center - shift) + i)
    && forall i :: 0 <= i < |axis| ==>
      if center - shift <= axis[i] <= center + shift then Aligned(kind, s1, s2, start, window, axis[i], c[i])
      else c[i] == 0.0
  }

  lemma BarePromised(kind: Kind, s1: seq<real>, s2: seq<real>, center: int, shift: nat, window: nat,
                     axis: seq<int>, c: seq<real>)
    requires window <= Window(s1, s2, center, shift) && Computed(kind, s1, s2, center, shift, window, axis, c)
    ensures Promised(kind, s1, s2, center, shift, window, false, axis, c)
  {
    forall i: nat | i < |c| ensures Aligned(kind, s1, s2, Start(center, shift), window, axis[i], c[i]) {
      AllAligned(kind, s1, s2, center, shift, window, axis, c, i);
    }
  }

  /** Entry i of the padded result is an entry of the bare one with the same delay, or zero. */
  lemma PaddedEntry(axis: seq<int>, c: seq<real>, center: int, shift: nat, window: nat, i: nat)
    requires |axis| == |c| == 2 * shift + 1 && forall j :: 0 <= j < |axis| ==> axis[j] == center - shift + j
    requires i < |Padded(axis, c, window).0|
    ensures var (axis', c') := Padded(axis, c, window);
      && |axis'| == |c'| && axis'[i] == (if window / 2 > shift then center - window / 2 + 1 else center - shift) + i
      && if center - shift <= axis'[i] <= center + shift then
           var j := axis'[i] - (center - shift); axis[j] == axis'[i] && c'[i] == c[j]
         else c'[i] == 0.0
  {
    PaddedKeeps(axis, c, center, shift, window, i);
  }

  lemma PaddedPromised(kind: Kind, s1: seq<real>, s2: seq<real>, center: int, shift: nat, window: nat,
                       axis: seq<int>, c: seq<real>)
    requires Promised(kind, s1, s2, center, shift, window, false, axis, c)
    ensures axis != []
    ensures var (axis', c') := Padded(axis, c, window);
      Promised(kind, s1, s2, center, shift, window, true, axis', c')
  {
    var (axis', c') := Padded(axis, c, window);
    var start := if shift + center < 0 then 0 else shift + center;
    PaddedKeeps(axis, c, center, shift, window, 0);
    forall i: nat | i < |axis'|
      ensures axis'[i] == (if window / 2 > shift then center - window / 2 + 1 else center - shift) + i
        && if center - shift <= axis'[i] <= center + shift
           then Aligned(kind, s1, s2, start, window, axis'[i], c'[i]) else c'[i] == 0.0 {
      PaddedEntry(axis, c, center, shift, window, i);
    }
  }

  /** What a call promises, in terms of its arguments alone. */
  ghost predicate Specified(kind: Kind, s1: seq<real>, s2: seq<real>, center: int, shift: int, length: Maybe<int>,
                            zeroPadd: bool, r: Result<Correlation, Error>) {
    var size := if center < 0 then -center else center;
    var shorter := if |s1| < |s2| then |s1| else |s2|;
    var window := if length.Just? then length.value else shorter - size - 2 * shift;
    && (r == Err(Truncated) <==> window > shorter - size - 2 * shift)
    && (r == Err(NegativeDimensions) <==> window <= shorter - size - 2 * shift && shift < 0)
    && (0 <= window <= shorter - size - 2 * shift && shift >= 0 ==>
          r.Ok? && Promised(kind, s1, s2, center, shift, window, zeroPadd, r.value.0, r.value.1))
  }

  lemma OutcomeSpecified(kind: Kind, s1: seq<real>, s2: seq<real>, center: int, shift: int, length: Maybe<int>,
                         zeroPadd: bool, maximal: int, window: int, bare: Result<Correlation, Error>)
    requires maximal == Min(|s1|, |s2|) - Abs(center) - 2 * shift
    requires window == if length.Nothing? then maximal else length.value
    requires Outcome(kind, s1, s2, center, shift, maximal, window, bare)
    ensures Specified(kind, s1, s2, center, shift, length, zeroPadd, Finished(bare, zeroPadd, window))
  {
    if 0 <= window <= maximal && shift >= 0 {
      FinishedPromised(kind, s1, s2, center, shift, window, zeroPadd, bare);
    }
  }

  lemma FinishedPromised(kind: Kind, s1: seq<real>, s2: seq<real>, center: int, shift: nat, window: nat,
                         zeroPadd: bool, bare: Result<Correlation, Error>)
    requires window <= Window(s1, s2, center, shift)
    requires Outcome(kind, s1, s2, center, shift, Window(s1, s2, center, shift), window, bare)
    ensures var r := Finished(bare, zeroPadd, window);
      r.Ok? && Promised(kind, s1, s2, center, shift, window, zeroPadd, r.value.0, r.value.1)
  {
    AllAligned(kind, s1, s2, center, shift, window, [], [], 0);
    var (axis, c) := bare.value;
    BarePromised(kind, s1, s2, center, shift, window, axis, c);
    PaddedPromised(kind, s1, s2, center, shift, window, axis, c);
  }

  /** The call: some outcome for the window asked for, or for the longest one, finished. */
  method CorrelateLinear(signal1: seq<real>, signal2: seq<real>, center: int, shift: int, length: Maybe<int>,
                         kind: Kind, zeroPadd: bool)
      returns (r: Result<Correlation, Error>)
    ensures var maximal := Min(|signal1|, |signal2|) - Abs(center) - 2 * shift;
      var window := if length.Nothing? then maximal else length.value;
      exists bare | Outcome(kind, signal1, signal2, center, shift, maximal, window, bare) ::
        r == Finished(bare, zeroPadd, window)
    ensures Specified(kind, signal1, signal2, center, shift, length, zeroPadd, r)
  {
    var windowLength := Min(|signal1|, |signal2|) - Abs(center) - 2 * shift;
    var wanted := if length.Nothing? then windowLength else length.value;
    var bare := Checked(kind, signal1, signal2, center, shift, windowLength, wanted);
    r := Finished(bare, zeroPadd, wanted);
    OutcomeSpecified(kind, signal1, signal2, center, shift, length, zeroPadd, windowLength, wanted, bare);
  }

  /** The checks before the loop. */
  method Checked(kind: Kind, signal1: seq<real>, signal2: seq<real>, center: int, shift: int, maximal: int, wanted: int)
      returns (r: Result<Correlation, Error>)
    ensures Outcome(kind, signal1, signal2, center, shift, maximal, wanted, r)
  {
    if maximal < wanted {
      return Err(Truncated);
    }
    if 2 * shift + 1 < 0 {
      return Err(NegativeDimensions);
    }
    r := AllShifts(kind, signal1, signal2, center, shift, maximal, wanted);
  }

  /** The result array, filled, with its axis. */
  method AllShifts(kind: Kind, signal1: seq<real>, signal2: seq<real>, center: int, shift: nat, maximal: int,
                   windowLength: int)
      returns (r: Result<Correlation, Error>)
    requires maximal >= windowLength
    ensures Outcome(kind, signal1, signal2, center, shift, maximal, windowLength, r)
  {
    var correlation := new real[2 * shift + 1](_ => 0.0);
    var ok := Fill(correlation, kind, signal1, signal2, center, shift, windowLength);
    if !ok {
      return Err(ShapeMismatch);
    }
    AllFilled(kind, signal1, signal2, center, shift, windowLength, correlation[..]);
    return Ok((Arange(center - shift, shift + 1 + center), correlation[..]));
  }

  /** The loop over the shifts; a pass that cannot be computed ends it. */
  method Fill(correlation: array<real>, kind: Kind, signal1: seq<real>, signal2: seq<real>, center: int, shift: nat,
              windowLength: int)
      returns (ok: bool)
    requires correlation.Length == 2 * shift + 1
    modifies correlation
    ensures if ok then Filled(kind, signal1, signal2, center, shift, windowLength, shift + 1, correlation[..])
            else SomeMismatch(kind, signal1, signal2, center, shift, windowLength)
  {
    for k := 0 - shift to shift + 1
      invariant Filled(kind, signal1, signal2, center, shift, windowLength, k, correlation[..])
    {
      var indexInverted := shift - k;
      var entry := Pass(kind, signal1, signal2, center, shift, windowLength, k);
      if entry.Err? {
        EntryErr(kind, signal1, signal2, center, shift, windowLength, k);
        return false;
      }
      ghost var before := correlation[..];
      correlation[indexInverted] := entry.value;
      assert correlation[..] == before[indexInverted := entry.value];
      FillOne(kind, signal1, signal2, center, shift, windowLength, k, before, entry.value);
    }
    return true;
  }

  /** The entries of the passes before k. */
  ghost predicate Filled(kind: Kind, s1: seq<real>, s2: seq<real>, center: int, shift: nat, window: int, k: int,
                         c: seq<real>)
    requires 0 - shift <= k <= shift + 1
  {
    && |c| == 2 * shift + 1
    && (forall i :: shift - k < i < |c| ==> Entry(kind, s1, s2, center, shift, window, shift - i) == Ok(c[i]))
  }

  lemma AllFilled(kind: Kind, s1: seq<real>, s2: seq<real>, center: int, shift: nat, window: int, c: seq<real>)
    requires Filled(kind, s1, s2, center, shift, window, shift + 1, c)
    ensures Computed(kind, s1, s2, center, shift, window, Arange(center - shift, shift + 1 + center), c)
  {
  }

  lemma FillOne(kind: Kind, s1: seq<real>, s2: seq<real>, center: int, shift: nat, window: int, k: int, c: seq<real>,
                v: real)
    requires 0 - shift <= k <= shift && Filled(kind, s1, s2, center, shift, window, k, c)
    requires Entry(kind, s1, s2, center, shift, window, k) == Ok(v)
    ensures Filled(kind, s1, s2, center, shift, window, k + 1, c[shift - k := v])
  {
  }

  lemma EntryErr(kind: Kind, s1: seq<real>, s2: seq<real>, center: int, shift: nat, window: int, k: int)
    requires 0 - shift <= k <= shift && Entry(kind, s1, s2, center, shift, window, k).Err?
    ensures SomeMismatch(kind, s1, s2, center, shift, window)
  {
  }

  /** The body of the loop. */
  method Pass(kind: Kind, signal1: seq<real>, signal2: seq<real>, center: int, shift: nat, windowLength: int, k: int)
      returns (entry: Result<real, Error>)
    requires 0 - shift <= k <= shift
    ensures entry == Entry(kind, signal1, signal2, center, shift, windowLength, k)
  {
    var index := k + shift;
    var lower, upper, boundary;
    if shift + center < 0 {
      lower, upper := 0, windowLength;
      boundary := index + Abs(shift + center);
    } else {
      lower, upper := shift + center, shift + center + windowLength;
      boundary := index;
    }
    entry := Broadcast(kind, Slice(signal1, lower, upper), Slice(Turned(signal2, boundary), 0, windowLength));
  }

  /** Whenever the window is not negative, the call succeeds and entry i sums exactly window terms, of
      samples whose indices differ by axis[i]. */
  lemma AllAligned(kind: Kind, s1: seq<real>, s2: seq<real>, center: int, shift: nat, window: nat,
                   axis: seq<int>, c: seq<real>, i: nat)
    requires window <= Window(s1, s2, center, shift)
    ensures !SomeMismatch(kind, s1, s2, center, shift, window)
    ensures Computed(kind, s1, s2, center, shift, window, axis, c) && i < |c| ==>
      Aligned(kind, s1, s2, Start(center, shift), window, axis[i], c[i])
  {
    forall k: int | 0 - shift <= k <= shift ensures Entry(kind, s1, s2, center, shift, window, k).Ok? {
      EntryAligned(kind, s1, s2, center, shift, window, k);
    }
    if i <= 2 * shift {
      EntryAligned(kind, s1, s2, center, shift, window, shift - i);
    }
  }

  /** Negative windows are accepted, and all three things happen: no sample is paired, or five are and
      correctly, or an index wraps, so that no common number of samples is paired at the right distance. */
  lemma NegativeWindows(k: int, m: nat)
    ensures -1 <= k <= 1 ==> PassAligned(1, 1, 0, 1, -1, k, 0)
    ensures PassAligned(10, 10, -1, 0, -5, 0, 5)
    ensures !(forall k: int | -1 <= k <= 1 :: PassAligned(3, 3, -2, 1, -1, k, m))
  {
    AlignedIff(1, 1, 0, 1, -1, 0);
    AlignedIff(10, 10, -1, 0, -5, 5);
    AlignedIff(3, 3, -2, 1, -1, m);
  }

  /** The values in the last case: the delay is -2, but the second product is of samples one apart. */
  lemma NegativeWindowWraps(a: real, b: real, c: real, d: real, e: real, f: real)
    ensures Window([a, b, c], [d, e, f], -2, 1) == -1
    ensures Entry(DC, [a, b, c], [d, e, f], -2, 1, -1, 0) == Ok(a * f + b * d)
  {
    var s1, s2 := [a, b, c], [d, e, f];
    var turned := Turned(s2, 2);
    assert Slice(Arange(2, 3) + Arange(0, 2), 0, 3) == [2, 0, 1];
    assert turned == [f, d, e];
    assert Slice(turned, 0, -1) == [f, d] && Slice(s1, 0, -1) == [a, b];
    assert PairSum(DC, [b], [d]) == b * d;
    assert [a, b][1..] == [b] && [f, d][1..] == [d];
    assert PairSum(DC, [a, b], [f, d]) == a * f + PairSum(DC, [b], [d]);
  }

  // ----- The three kinds -----

  /** The square differences are never negative, and zero exactly for equal windows. */
  lemma {:induction false} AsdfZero(a: seq<real>, b: seq<real>)
    requires |a| == |b|
    ensures if a == b then PairSum(ASDF, a, b) == 0.0 else PairSum(ASDF, a, b) > 0.0
  {
    if a != [] {
      AsdfZero(a[1..], b[1..]);
      SquareSign(a[0] - b[0], Term(ASDF, a[0], b[0]));
      assert a == [a[0]] + a[1..] && b == [b[0]] + b[1..];
    }
  }

  /** So with a signal delayed by d, the square differences are lowest where the axis says d. */
  lemma AsdfLowestAtDelay(s1: seq<real>, s2: seq<real>, start: nat, window: nat, d: int, v: real, other: int, w: real)
    requires Aligned(ASDF, s1, s2, start, window, d, v) && Aligned(ASDF, s1, s2, start, window, other, w)
    requires forall t :: start <= t < start + window ==> s1[t] == s2[t - d]
    ensures v == 0.0 && v <= w
    ensures w == 0.0 <==> s1[start..start + window] == s2[start - other..start - other + window]
  {
    var a := s1[start..start + window];
    assert a == s2[start - d..start - d + window];
    AsdfZero(a, s2[start - d..start - d + window]);
    AsdfZero(a, s2[start - other..start - other + window]);
  }

  /** DC is the inner product, and the square differences are what it leaves of the two energies. */
  lemma {:induction false} SumsOfKinds(a: seq<real>, b: seq<real>)
    requires |a| == |b|
    ensures PairSum(DC, a, b) == CircularCorrelation.Dot(a, b)
    ensures PairSum(ASDF, a, b) == PairSum(DC, a, a) + PairSum(DC, b, b) - 2.0 * PairSum(DC, a, b)
  {
    if a != [] {
      SumsOfKinds(a[1..], b[1..]);
      SquareOfDifference(a[0], b[0]);
    }
  }

  lemma SquareOfDifference(x: real, y: real)
    ensures (x - y) * (x - y) == x * x + y * y - 2.0 * (x * y)
  {
  }

  function Total(a: seq<real>): real {
    if a == [] then 0.0 else a[0] + Total(a[1..])
  }

  /** The code takes no magnitudes for AMDF, so its entries only compare the sums of the windows. */
  lemma {:induction false} AmdfIsDifferenceOfTotals(a: seq<real>, b: seq<real>)
    requires |a| == |b|
    ensures PairSum(AMDF, a, b) == Total(a) - Total(b)
  {
    if a != [] {
      AmdfIsDifferenceOfTotals(a[1..], b[1..]);
    }
  }

  /** Cuts of different lengths: an error, unless one is a single sample, which then counts for all. */
  lemma {:induction false} BroadcastMeans(x: real, a: seq<real>, b: seq<real>, kind: Kind)
    ensures Broadcast(kind, a, b).Err? <==> |a| != |b| && |a| != 1 && |b| != 1
    ensures Broadcast(DC, [x], b) == Ok(x * Total(b)) == Broadcast(DC, b, [x])
  {
    RepeatedTerms(x, b);
    if |b| == 1 {
      assert b == [b[0]] && b[1..] == [] && [x][1..] == [];
      assert seq(1, _ => x) == [x];
    }
  }

  lemma {:induction false} RepeatedTerms(x: real, b: seq<real>)
    ensures PairSum(DC, seq(|b|, _ => x), b) == x * Total(b) == PairSum(DC, b, seq(|b|, _ => x))
    decreases |b|
  {
    if b != [] {
      RepeatedTerms(x, b[1..]);
      assert seq(|b|, _ => x)[1..] == seq(|b| - 1, _ => x);
    }
  }

  // ----- Zero padding -----

  /** The padded axis has no gap, every entry keeps its delay, and the rest is zero. When there is
      anything to add, an even length gives exactly that many entries; the axis then runs from one
      above center - length / 2, one later than that of the circular correlation. */
  lemma PaddedKeeps(axis: seq<int>, c: seq<real>, center: int, shift: nat, length: nat, i: nat)
    requires |axis| == |c| == 2 * shift + 1 && forall j :: 0 <= j < |axis| ==> axis[j] == center - shift + j
    ensures var (axis', c') := Padded(axis, c, length);
      && |axis'| == |c'| == (if length / 2 > shift then length / 2 * 2 else 2 * shift + 1)
      && (i < |axis'| ==> axis'[i] == (if length / 2 > shift then center - length / 2 + 1 else center - shift) + i)
      && (i < |axis'| ==> c'[i] == var j := axis'[i] - (center - shift); if 0 <= j < |c| then c[j] else 0.0)
  {
  }
}
