/**
 scipy_array_from_pattern of sw/ab_cal_scripts/lib/pat_gen.py: a bit pattern as samples, centred in
 padding. The number of samples per bit and the sample period are parameters, in exact arithmetic.
 */
module PatternGenerator {
  import opened Division
  import opened Wrappers

  /** The sample values. */
  datatype Levels = Levels(one: real, zero: real, pad: real)

  function Level(bit: char, v: Levels): real {
    if bit == '0' then v.zero else v.one
  }

  /** Sample j of the output: padding, or the bit whose time it is. */
  function SampleAt(pattern: string, half: nat, spb: nat, v: Levels, j: int): real
    requires 2 * half <= |pattern| * spb
  {
    if 0 <= j < 2 * half then QuotientBelow(j, |pattern|, spb); Level(pattern[j / spb], v) else v.pad
  }

  /** y is the pattern's first 2 * half samples between two equal stretches of padding. */
  ghost predicate Layout(pattern: string, half: nat, spb: nat, v: Levels, padding: nat, y: seq<real>)
    requires 2 * half <= |pattern| * spb
  {
    forall j :: 0 <= j < |y| ==> y[j] == SampleAt(pattern, half, spb, v, j - padding)
  }

  method ArrayFromPattern(pattern: string, outputLength: int, spb: nat, period: real, v: Levels)
      returns (r: Maybe<(seq<real>, seq<real>)>)
    ensures r.Nothing? <==> |pattern| * spb > outputLength
    ensures r.Just? ==> var (x, y) := r.value; var half := |pattern| * spb / 2;
      && |x| == |y| == outputLength / 2 * 2
      && Layout(pattern, half, spb, v, outputLength / 2 - half, y)
      && (forall j :: 0 <= j < |x| ==> x[j] == (j - outputLength / 2) as real * period)
      && forall j :: 0 <= j < |y| && (j < outputLength / 2 - half || j >= outputLength / 2 + half) ==> y[j] == v.pad
  {
    var numOfSamples := |pattern| * spb;
    if numOfSamples > outputLength {
      return Nothing;
    }
    var halfOutput := outputLength / 2;
    var y := Samples(pattern, numOfSamples, halfOutput, spb, v);
    var x := seq(2 * halfOutput, j => (j - halfOutput) as real * period);
    return Just((x, y));
  }

  lemma LayoutOn(pattern: string, half: nat, spb: nat, v: Levels, padding: nat, y: seq<real>)
    requires 2 * half <= |pattern| * spb && Layout(pattern, half, spb, v, padding, y)
    ensures Layout(pattern, half, spb, v, padding, y + [SampleAt(pattern, half, spb, v, |y| - padding)])
  {
  }

  /** The three loops: padding, pattern, padding. */
  method Samples(pattern: string, numOfSamples: nat, halfOutput: nat, spb: nat, v: Levels) returns (y: seq<real>)
    requires numOfSamples == |pattern| * spb && numOfSamples / 2 <= halfOutput
    ensures |y| == 2 * halfOutput && Layout(pattern, numOfSamples / 2, spb, v, halfOutput - numOfSamples / 2, y)
  {
    var halfSamples := numOfSamples / 2;
    ghost var padding := halfOutput - halfSamples;
    y := [];
    for sample := 0 - halfOutput to 0 - halfSamples
      invariant |y| == sample + halfOutput && Layout(pattern, halfSamples, spb, v, padding, y)
    {
      LayoutOn(pattern, halfSamples, spb, v, padding, y);
      y := y + [v.pad];
    }
    for sample := 0 - halfSamples to halfSamples
      invariant |y| == sample + halfOutput && Layout(pattern, halfSamples, spb, v, padding, y)
    {
      LayoutOn(pattern, halfSamples, spb, v, padding, y);
      QuotientBelow(sample + halfSamples, |pattern|, spb);
      var currentBit := (sample + numOfSamples / 2) / spb;
      y := y + [if pattern[currentBit] == '0' then v.zero else v.one];
    }
    for sample := halfSamples to halfOutput
      invariant |y| == sample + halfOutput && Layout(pattern, halfSamples, spb, v, padding, y)
    {
      LayoutOn(pattern, halfSamples, spb, v, padding, y);
      y := y + [v.pad];
    }
  }

  // ----- What the layout means -----

  /** Bit b is on the spb samples from padding + b * spb on, except that the last sample of the last
      bit is missing when the number of samples is odd. */
  lemma BitTime(pattern: string, spb: nat, v: Levels, padding: nat, y: seq<real>, b: nat, o: nat)
    requires b < |pattern| && o < spb
    requires |y| >= padding + |pattern| * spb / 2 * 2 && Layout(pattern, |pattern| * spb / 2, spb, v, padding, y)
    ensures 0 <= b * spb && b * spb + o < |pattern| * spb
    ensures b * spb + o < |pattern| * spb / 2 * 2 ==>
      y[padding + b * spb + o] == if pattern[b] == '0' then v.zero else v.one
    ensures b * spb + o < |pattern| * spb / 2 * 2 <==>
      !((|pattern| * spb) % 2 == 1 && b == |pattern| - 1 && o == spb - 1)
  {
    Position(b, o, spb, |pattern|);
    QuotientOf(b, o, spb);
    var num := |pattern| * spb;
    var at := b * spb + o;
    InLayout(pattern, spb, v, padding, y, b, at);
  }

  /** Around the pattern there is padding. */
  lemma PaddingTime(pattern: string, spb: nat, v: Levels, padding: nat, y: seq<real>, j: nat)
    requires Layout(pattern, |pattern| * spb / 2, spb, v, padding, y) && j < |y|
    requires j < padding || j >= padding + |pattern| * spb / 2 * 2
    ensures y[j] == v.pad
  {
  }

  lemma Position(b: nat, o: nat, spb: nat, bits: nat)
    requires b < bits && o < spb
    ensures 0 <= b * spb && b * spb + o < bits * spb
    ensures b * spb + o == bits * spb - 1 <==> b == bits - 1 && o == spb - 1
  {
    var left := bits - 1 - b;
    assert bits * spb == left * spb + b * spb + spb;
    MultipleBound(left, spb);
    assert left == 0 ==> left * spb == 0;
    MultipleBound(b, spb);
  }

  lemma InLayout(pattern: string, spb: nat, v: Levels, padding: nat, y: seq<real>, b: nat, at: nat)
    requires spb > 0 && at / spb == b < |pattern| && at < |pattern| * spb
    requires |y| >= padding + |pattern| * spb / 2 * 2 && Layout(pattern, |pattern| * spb / 2, spb, v, padding, y)
    ensures at < |pattern| * spb / 2 * 2 ==> y[padding + at] == Level(pattern[b], v)
  {
  }

  /** The pattern read back at the first sample of each bit; a sample beyond the pattern's reads as '0'. */
  function ReadBack(y: seq<real>, start: nat, spb: nat, bits: nat, v: Levels): string {
    seq(bits, b => ReadBit(y, start, b * spb, v))
  }

  function ReadBit(y: seq<real>, start: nat, at: int, v: Levels): char {
    if 0 <= at && start + at < |y| && y[start + at] == v.one then '1' else '0'
  }

  /** Every pattern of zeros and ones can be read back from its samples, unless there is one sample per
      bit and an odd number of them. */
  lemma ReadsBack(pattern: string, spb: nat, v: Levels, padding: nat, y: seq<real>)
    requires (forall b :: 0 <= b < |pattern| ==> pattern[b] == '0' || pattern[b] == '1') && v.one != v.zero
    requires spb > 0 && !(spb == 1 && |pattern| % 2 == 1)
    requires |y| >= padding + |pattern| * spb / 2 * 2 && Layout(pattern, |pattern| * spb / 2, spb, v, padding, y)
    ensures ReadBack(y, padding, spb, |pattern|, v) == pattern
  {
    forall b | 0 <= b < |pattern| ensures ReadBit(y, padding, b * spb, v) == pattern[b] {
      BitTime(pattern, spb, v, padding, y, b, 0);
      assert padding + b * spb + 0 == padding + b * spb;
      if spb == 1 {
        assert |pattern| * spb == |pattern|;
      }
    }
  }

  /** In that case the last bit leaves no trace. */
  lemma LastBitLost(bits: string, a: char, b: char, v: Levels, padding: nat, y: seq<real>)
    requires |bits| % 2 == 0
    ensures var half := |bits| / 2;
      Layout(bits + [a], half, 1, v, padding, y) <==> Layout(bits + [b], half, 1, v, padding, y)
    ensures (|bits| + 1) * 1 / 2 == |bits| / 2
  {
  }
}
