/**
 Local extrema and the nearest maximum of sw/ab_cal_scripts/delay_determination.py, and how they
 find the delay in a circular correlation.
 */
module Peaks {
  import opened Wrappers

  import CircularCorrelation

  datatype Error = BadOrder | NoMaximum

  /** How an index outside the array is taken. */
  datatype Mode = Clip | Wrap

  function Outside(mode: Mode, i: int, n: nat): (k: nat)
    requires n > 0
    ensures k < n
  {
    match mode
    case Clip => if i < 0 then 0 else if i >= n then n - 1 else i
    case Wrap => CircularCorrelation.Turn(i, n)
  }

  /** data.take(locs + shift) */
  function Taken(data: seq<real>, shift: int, mode: Mode): (r: seq<real>)
    ensures |r| == |data|
  {
    seq(|data|, i requires 0 <= i < |data| => data[Outside(mode, i + shift, |data|)])
  }

  function Compare(cmp: (real, real) -> bool, a: seq<real>, b: seq<real>): (r: seq<bool>)
    requires |a| == |b|
    ensures |r| == |a|
  {
    seq(|a|, i requires 0 <= i < |a| => cmp(a[i], b[i]))
  }

  function And(a: seq<bool>, b: seq<bool>): (r: seq<bool>)
    requires |a| == |b|
    ensures |r| == |a|
  {
    seq(|a|, i requires 0 <= i < |a| => a[i] && b[i])
  }

  /** Sample i beats both samples at a distance. */
  predicate Beats(cmp: (real, real) -> bool, data: seq<real>, mode: Mode, i: nat, s: int)
    requires i < |data|
  {
    cmp(data[i], data[Outside(mode, i + s, |data|)]) && cmp(data[i], data[Outside(mode, i - s, |data|)])
  }

  ghost predicate Extremum(cmp: (real, real) -> bool, data: seq<real>, mode: Mode, i: nat, order: int)
    requires i < |data|
  {
    forall s :: 1 <= s <= order ==> Beats(cmp, data, mode, i, s)
  }

  lemma ExtremumStep(cmp: (real, real) -> bool, data: seq<real>, mode: Mode, i: nat, order: int)
    requires i < |data| && order >= 1
    ensures Extremum(cmp, data, mode, i, order) <==>
      Extremum(cmp, data, mode, i, order - 1) && Beats(cmp, data, mode, i, order)
  {
  }

  ghost predicate AllMarked(cmp: (real, real) -> bool, data: seq<real>, mode: Mode, order: int, marks: seq<bool>) {
    |marks| == |data| && forall i :: 0 <= i < |data| ==> (marks[i] <==> Extremum(cmp, data, mode, i, order))
  }

  /** Elementwise comparison with both neighbours at the next distance. */
  function Narrowed(cmp: (real, real) -> bool, data: seq<real>, mode: Mode, shift: int,
                    marks: seq<bool>): (r: seq<bool>)
    requires |marks| == |data|
    ensures |r| == |data|
  {
    var main := Taken(data, 0, mode);
    And(And(marks, Compare(cmp, main, Taken(data, shift, mode))), Compare(cmp, main, Taken(data, -shift, mode)))
  }

  lemma NarrowedAt(cmp: (real, real) -> bool, data: seq<real>, mode: Mode, shift: int, marks: seq<bool>, i: nat)
    requires |marks| == |data| && i < |data|
    ensures Narrowed(cmp, data, mode, shift, marks)[i] <==> marks[i] && Beats(cmp, data, mode, i, shift)
  {
  }

  lemma Narrows(cmp: (real, real) -> bool, data: seq<real>, mode: Mode, shift: int, marks: seq<bool>)
    requires shift >= 1 && AllMarked(cmp, data, mode, shift - 1, marks)
    ensures AllMarked(cmp, data, mode, shift, Narrowed(cmp, data, mode, shift, marks))
  {
    forall i | 0 <= i < |data|
      ensures Narrowed(cmp, data, mode, shift, marks)[i] <==> Extremum(cmp, data, mode, i, shift) {
      NarrowedAt(cmp, data, mode, shift, marks, i);
      ExtremumStep(cmp, data, mode, i, shift);
    }
  }

  /** No extremum at a distance, none at a greater one. */
  lemma NoneLeft(cmp: (real, real) -> bool, data: seq<real>, mode: Mode, shift: int, order: int, marks: seq<bool>)
    requires shift <= order && AllMarked(cmp, data, mode, shift, marks) && true !in marks
    ensures AllMarked(cmp, data, mode, order, marks)
  {
  }

  method BoolRelExtrema(data: seq<real>, cmp: (real, real) -> bool, order: int, mode: Mode)
      returns (r: Result<seq<bool>, Error>)
    ensures r.Err? <==> order < 1
    ensures r.Ok? ==> AllMarked(cmp, data, mode, order, r.value)
  {
    if order < 1 {
      return Err(BadOrder);
    }
    var results := seq(|data|, _ => true);
    var main := Taken(data, 0, mode);
    for shift := 1 to order + 1
      invariant AllMarked(cmp, data, mode, shift - 1, results)
    {
      Narrows(cmp, data, mode, shift, results);
      var plus, minus := Taken(data, shift, mode), Taken(data, -shift, mode);
      results := And(results, Compare(cmp, main, plus));
      results := And(results, Compare(cmp, main, minus));
      if true !in results {
        NoneLeft(cmp, data, mode, shift, order, results);
        return Ok(results);
      }
    }
    return Ok(results);
  }

  /** Clipped at the ends, a strict extremum is an inner sample that beats every sample within reach. */
  lemma ClipMeans(cmp: (real, real) -> bool, data: seq<real>, i: nat, order: int)
    requires i < |data| && order >= 1 && forall x: real :: !cmp(x, x)
    ensures Extremum(cmp, data, Clip, i, order) <==>
      0 < i < |data| - 1 && forall j :: 0 <= j < |data| && j != i && i - order <= j <= i + order ==>
        cmp(data[i], data[j])
  {
    var x: real := data[i];
    assert !cmp(x, x);
    if Extremum(cmp, data, Clip, i, order) {
      assert Beats(cmp, data, Clip, i, 1);
      forall j | 0 <= j < |data| && j != i && i - order <= j <= i + order ensures cmp(data[i], data[j]) {
        assert Beats(cmp, data, Clip, i, if j > i then j - i else i - j);
      }
    } else {
      var s :| 1 <= s <= order && !Beats(cmp, data, Clip, i, s);
      var above, below := Outside(Clip, i + s, |data|), Outside(Clip, i - s, |data|);
      assert !cmp(data[i], data[above]) || !cmp(data[i], data[below]);
      assert i - order <= below <= above <= i + order;
    }
  }

  /** Wrapped around, the samples at a distance are those along the circle. */
  lemma WrapMeans(cmp: (real, real) -> bool, data: seq<real>, i: nat, s: int)
    requires i < |data|
    ensures Beats(cmp, data, Wrap, i, s) <==>
      cmp(data[i], data[(i + s) % |data|]) && cmp(data[i], data[(i - s) % |data|])
  {
    CircularCorrelation.TurnIsMod(i + s, |data|);
    CircularCorrelation.TurnIsMod(i - s, |data|);
  }

  // ----- Indices of maxima -----

  /** scipy.where of a mask: the indices of the marks from k on. */
  function Where(marks: seq<bool>, k: nat): (r: seq<nat>)
    requires k <= |marks|
    ensures forall i: nat :: i in r <==> k <= i < |marks| && marks[i]
    ensures forall a, b :: 0 <= a < b < |r| ==> r[a] < r[b]
    decreases |marks| - k
  {
    if k == |marks| then []
    else
      var rest := Where(marks, k + 1);
      assert forall j :: 0 <= j < |rest| ==> rest[j] in rest;
      if marks[k] then [k] + rest else rest
  }

  method ArgRelMax(data: seq<real>, order: int, mode: Mode) returns (r: Result<seq<nat>, Error>)
    ensures r.Err? <==> order < 1
    ensures r.Ok? ==> forall i: nat :: i in r.value <==> i < |data| && Extremum(Greater, data, mode, i, order)
    ensures r.Ok? ==> forall a, b :: 0 <= a < b < |r.value| ==> r.value[a] < r.value[b]
  {
    var results := BoolRelExtrema(data, Greater, order, mode);
    if results.Err? {
      return Err(results.error);
    }
    var marks := results.value;
    var indices := if true !in marks then [] else Where(marks, 0);
    forall i: nat ensures i in indices <==> i < |data| && Extremum(Greater, data, mode, i, order) {
      assert i < |data| ==> (marks[i] <==> Extremum(Greater, data, mode, i, order));
    }
    return Ok(indices);
  }

  predicate Greater(x: real, y: real) {
    x > y
  }

  function Distance(a: int, b: int): nat {
    if a >= b then a - b else b - a
  }

  /** The first position of a smallest distance. */
  function FirstNearest(maxima: seq<nat>, index: int): (k: nat)
    requires maxima != []
    ensures k < |maxima|
    ensures forall j :: 0 <= j < |maxima| ==> Distance(maxima[k], index) <= Distance(maxima[j], index)
    ensures forall j :: 0 <= j < k ==> Distance(maxima[k], index) < Distance(maxima[j], index)
  {
    if |maxima| == 1 then 0
    else
      var k := FirstNearest(maxima[..|maxima| - 1], index);
      if Distance(maxima[|maxima| - 1], index) < Distance(maxima[k], index) then |maxima| - 1 else k
  }

  /** An inner sample above both its neighbours. */
  predicate LocalMaximum(signal: seq<real>, i: int) {
    0 < i < |signal| - 1 && signal[i - 1] < signal[i] && signal[i + 1] < signal[i]
  }

  predicate Closer(m: int, i: int, index: int) {
    Distance(m, index) < Distance(i, index) || (Distance(m, index) == Distance(i, index) && m < i)
  }

  /** The local maximum nearest to the index, the lower one of two; an error when there is none. */
  ghost predicate Nearest(signal: seq<real>, index: int, r: Result<nat, Error>) {
    match r
    case Err(error) => error == NoMaximum && forall i :: !LocalMaximum(signal, i)
    case Ok(m) => LocalMaximum(signal, m) && forall i :: LocalMaximum(signal, i) && i != m ==> Closer(m, i, index)
  }

  method NearestMaximumIndex(signal: seq<real>, index: int) returns (r: Result<nat, Error>)
    ensures Nearest(signal, index, r)
  {
    var found := ArgRelMax(signal, 1, Clip);
    var maxima := found.value;
    forall i: nat | i < |signal| ensures i in maxima <==> LocalMaximum(signal, i) {
      ClipMeans(Greater, signal, i, 1);
    }
    if maxima == [] {
      return Err(NoMaximum);
    }
    return Ok(maxima[FirstNearest(maxima, index)]);
  }

  lemma NearestUnique(signal: seq<real>, index: int, r: Result<nat, Error>, r': Result<nat, Error>)
    requires Nearest(signal, index, r) && Nearest(signal, index, r')
    ensures r == r'
  {
  }

  lemma NearestIsHere(signal: seq<real>, index: nat, r: Result<nat, Error>)
    requires Nearest(signal, index, r)
    ensures r == Ok(index) <==> LocalMaximum(signal, index)
  {
  }

  /** The entry at the delay is a local maximum exactly when it is inside and the signal is not constant. */
  lemma PeakIsLocal(x: seq<real>, d: int, axis: seq<int>, c: seq<real>)
    requires x != [] && |x| % 2 == 0 && -(|x| / 2) <= d < |x| / 2 && |x| == |axis| == |c|
    requires forall i :: 0 <= i < |x| ==> axis[i] == i - |x| / 2 && CircularCorrelation.PeakAt(x, d, axis, c, i)
    ensures LocalMaximum(c, d + |x| / 2) <==> -(|x| / 2) < d < |x| / 2 - 1 && CircularCorrelation.Rotate(x, 1) != x
  {
    var p := d + |x| / 2;
    if 0 < p < |x| - 1 {
      assert CircularCorrelation.PeakAt(x, d, axis, c, p - 1) && CircularCorrelation.PeakAt(x, d, axis, c, p + 1);
      CircularCorrelation.SameRotation(x, 1, 0);
      CircularCorrelation.RotateFull(x);
    }
  }

  /** With a right estimate, the delay of a signal is found in its circular correlation if and only if
      it is not at an end of the axis and the signal does not repeat after one sample. */
  lemma DelayFound(x: seq<real>, d: int, r: Result<nat, Error>)
    requires x != [] && |x| % 2 == 0 && -(|x| / 2) <= d < |x| / 2
    requires Nearest(CircularCorrelation.Correlate(CircularCorrelation.Rotate(x, d), x).1, d + |x| / 2, r)
    ensures r == Ok(d + |x| / 2) <==> -(|x| / 2) < d < |x| / 2 - 1 && CircularCorrelation.Rotate(x, 1) != x
  {
    var axis, c := AllPeaks(x, d);
    NearestIsHere(c, d + |x| / 2, r);
    PeakIsLocal(x, d, axis, c);
  }

  lemma AllPeaks(x: seq<real>, d: int) returns (axis: seq<int>, c: seq<real>)
    requires x != [] && |x| % 2 == 0 && -(|x| / 2) <= d < |x| / 2
    ensures axis == CircularCorrelation.Correlate(CircularCorrelation.Rotate(x, d), x).0
    ensures c == CircularCorrelation.Correlate(CircularCorrelation.Rotate(x, d), x).1
    ensures |x| == |axis| == |c|
    ensures forall i :: 0 <= i < |x| ==> axis[i] == i - |x| / 2 && CircularCorrelation.PeakAt(x, d, axis, c, i)
  {
    axis := CircularCorrelation.Correlate(CircularCorrelation.Rotate(x, d), x).0;
    c := CircularCorrelation.Correlate(CircularCorrelation.Rotate(x, d), x).1;
    CircularCorrelation.AlignedEven(CircularCorrelation.Rotate(x, d), x);
    forall i | 0 <= i < |x| ensures axis[i] == i - |x| / 2 && CircularCorrelation.PeakAt(x, d, axis, c, i) {
      CircularCorrelation.PeakFound(x, d, i);
    }
  }
}
