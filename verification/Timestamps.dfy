/**
 Picosecond timestamps of sw/embedded/precompiled/wrpc-clb-cal-sw/wrpc-socket.c: adding and
 subtracting with carries in loops, and the bitslide correction made of the two.
 */
module Timestamps {
  import opened Division

  const NSEC_PER_SEC: int := 1_000_000_000

  /** The fields of TimeInternal that ts_add and ts_sub use; phase is in picoseconds. */
  datatype TimeInternal = TimeInternal(seconds: int, nanoseconds: int, phase: int)

  /** Whole nanoseconds. */
  function Whole(t: TimeInternal): int {
    t.seconds * NSEC_PER_SEC + t.nanoseconds
  }

  /** The time in picoseconds. */
  function Value(t: TimeInternal): int {
    Whole(t) * 1000 + t.phase
  }

  predicate Normal(t: TimeInternal) {
    0 <= t.phase < 1000 && 0 <= t.nanoseconds < NSEC_PER_SEC
  }

  /** A time has one normal form. */
  lemma NormalUnique(a: TimeInternal, b: TimeInternal)
    requires Normal(a) && Normal(b) && Value(a) == Value(b)
    ensures a == b
  {
    assert Whole(a) == Whole(b);
  }

  function NormalForm(v: int): (t: TimeInternal)
    ensures Normal(t) && Value(t) == v
  {
    var w := v / 1000;
    assert w * 1000 + v % 1000 == v && w / NSEC_PER_SEC * NSEC_PER_SEC + w % NSEC_PER_SEC == w;
    TimeInternal(w / NSEC_PER_SEC, w % NSEC_PER_SEC, v % 1000)
  }

  function Minus(a: TimeInternal, b: TimeInternal): TimeInternal {
    TimeInternal(a.seconds - b.seconds, a.nanoseconds - b.nanoseconds, a.phase - b.phase)
  }

  function Plus(a: TimeInternal, b: TimeInternal): TimeInternal {
    TimeInternal(a.seconds + b.seconds, a.nanoseconds + b.nanoseconds, a.phase + b.phase)
  }

  /** t with its excess carried: nothing is borrowed for a negative component. */
  ghost predicate Carried(t: TimeInternal, r: TimeInternal) {
    var ns := t.nanoseconds + Whole(r) - Whole(t);
    && Value(r) == Value(t)
    && r.phase < 1000 && (if t.phase < 0 then r.phase == t.phase else 0 <= r.phase)
    && r.nanoseconds < NSEC_PER_SEC && (if ns < 0 then r.nanoseconds == ns else 0 <= r.nanoseconds)
  }

  /** t with its deficit borrowed: no excess is carried. */
  ghost predicate Borrowed(t: TimeInternal, r: TimeInternal) {
    var ns := t.nanoseconds + Whole(r) - Whole(t);
    && Value(r) == Value(t)
    && 0 <= r.phase && (if t.phase >= 1000 then r.phase == t.phase else r.phase < 1000)
    && 0 <= r.nanoseconds && (if ns >= NSEC_PER_SEC then r.nanoseconds == ns else r.nanoseconds < NSEC_PER_SEC)
  }

  method TsAdd(a: TimeInternal, b: TimeInternal) returns (r: TimeInternal)
    ensures Carried(Plus(a, b), r)
  {
    var phase := a.phase + b.phase;
    var nanoseconds := a.nanoseconds + b.nanoseconds;
    var seconds := a.seconds + b.seconds;
    ghost var n, s := nanoseconds, seconds;
    while phase >= 1000
      invariant nanoseconds * 1000 + phase == n * 1000 + a.phase + b.phase
      invariant if a.phase + b.phase < 0 then phase == a.phase + b.phase else 0 <= phase
      decreases phase
    {
      phase := phase - 1000;
      nanoseconds := nanoseconds + 1;
    }
    ghost var m := nanoseconds;
    while nanoseconds >= NSEC_PER_SEC
      invariant seconds * NSEC_PER_SEC + nanoseconds == s * NSEC_PER_SEC + m
      invariant if m < 0 then nanoseconds == m else 0 <= nanoseconds
      decreases nanoseconds
    {
      nanoseconds := nanoseconds - NSEC_PER_SEC;
      seconds := seconds + 1;
    }
    r := TimeInternal(seconds, nanoseconds, phase);
  }

  method TsSub(a: TimeInternal, b: TimeInternal) returns (r: TimeInternal)
    ensures Borrowed(Minus(a, b), r)
  {
    var phase := a.phase - b.phase;
    var nanoseconds := a.nanoseconds - b.nanoseconds;
    var seconds := a.seconds - b.seconds;
    ghost var n, s := nanoseconds, seconds;
    while phase < 0
      invariant nanoseconds * 1000 + phase == n * 1000 + a.phase - b.phase
      invariant if a.phase - b.phase >= 1000 then phase == a.phase - b.phase else phase < 1000
      decreases -phase
    {
      phase := phase + 1000;
      nanoseconds := nanoseconds - 1;
    }
    ghost var m := nanoseconds;
    while nanoseconds < 0
      invariant seconds * NSEC_PER_SEC + nanoseconds == s * NSEC_PER_SEC + m
      invariant if m >= NSEC_PER_SEC then nanoseconds == m else nanoseconds < NSEC_PER_SEC
      decreases -nanoseconds
    {
      nanoseconds := nanoseconds + NSEC_PER_SEC;
      seconds := seconds - 1;
    }
    r := TimeInternal(seconds, nanoseconds, phase);
  }

  /** The two relations each have one result, so they say exactly what the loops return. */
  lemma CarriedUnique(t: TimeInternal, r: TimeInternal, r': TimeInternal)
    requires Carried(t, r) && Carried(t, r')
    ensures r == r'
  {
    assert Whole(r) == Whole(r') && r.phase == r'.phase;
  }

  lemma BorrowedUnique(t: TimeInternal, r: TimeInternal, r': TimeInternal)
    requires Borrowed(t, r) && Borrowed(t, r')
    ensures r == r'
  {
    assert Whole(r) == Whole(r') && r.phase == r'.phase;
  }

  lemma Quotient(p: int, k: int, q: int)
    requires p == k * 1000 + q && 0 <= q < 1000
    ensures p / 1000 == k
  {
  }

  /** The sum is normal exactly when no component falls below zero; ts_add never borrows. */
  lemma AddNormal(a: TimeInternal, b: TimeInternal, r: TimeInternal)
    requires Carried(Plus(a, b), r)
    ensures Normal(r) <==> a.phase + b.phase >= 0 && a.nanoseconds + b.nanoseconds + (a.phase + b.phase) / 1000 >= 0
  {
    var t := Plus(a, b);
    if t.phase >= 0 {
      Quotient(t.phase, Whole(r) - Whole(t), r.phase);
    }
  }

  /** The difference is normal exactly when no component is too large; ts_sub never carries. */
  lemma SubNormal(a: TimeInternal, b: TimeInternal, r: TimeInternal)
    requires Borrowed(Minus(a, b), r)
    ensures Normal(r) <==>
      a.phase - b.phase < 1000 && a.nanoseconds - b.nanoseconds + (a.phase - b.phase) / 1000 < NSEC_PER_SEC
  {
    var t := Minus(a, b);
    if t.phase < 1000 {
      Quotient(t.phase, Whole(r) - Whole(t), r.phase);
    }
  }

  /** Subtracting and then adding zero normalises whatever comes in. */
  lemma SubThenCarry(a: TimeInternal, b: TimeInternal, d: TimeInternal, r: TimeInternal)
    requires Borrowed(Minus(a, b), d) && Carried(Plus(d, TimeInternal(0, 0, 0)), r)
    ensures r == NormalForm(Value(a) - Value(b))
  {
    assert Value(d) == Value(a) - Value(b) && Value(r) == Value(d);
    assert Normal(r);
    NormalUnique(r, NormalForm(Value(a) - Value(b)));
  }

  /** Adding back what was subtracted gives the normal form of the start, when its components are not negative. */
  lemma AddBack(a: TimeInternal, b: TimeInternal, d: TimeInternal, r: TimeInternal)
    requires b.phase >= 0 && b.nanoseconds >= 0
    requires Borrowed(Minus(a, b), d) && Carried(Plus(d, b), r)
    ensures r == NormalForm(Value(a))
  {
    assert Value(d) == Value(a) - Value(b) && Value(r) == Value(d) + Value(b);
    assert Normal(r);
    NormalUnique(r, NormalForm(Value(a)));
  }

  /** The phase and the nanoseconds that ts_sub leaves of a difference. */
  function PhaseLeft(t: TimeInternal): int {
    if t.phase < 0 then t.phase % 1000 else t.phase
  }

  function NanosecondsLeft(t: TimeInternal): int {
    var ns := t.nanoseconds + if t.phase < 0 then t.phase / 1000 else 0;
    if ns < 0 then ns % NSEC_PER_SEC else ns
  }

  lemma BorrowedLeft(t: TimeInternal, d: TimeInternal)
    requires Borrowed(t, d)
    ensures d.phase == PhaseLeft(t) && d.nanoseconds == NanosecondsLeft(t)
  {
    var k := Whole(d) - Whole(t);
    if t.phase < 0 {
      DivUnique(t.phase, k, d.phase, 1000);
    }
    var ns := t.nanoseconds + k;
    if ns < 0 {
      DivUnique(ns, d.seconds - t.seconds, d.nanoseconds, NSEC_PER_SEC);
    }
  }

  /** For all components: adding back gives the normal form of the start exactly when what subtracting
      leaves, and b on top of it, is not below zero. */
  lemma AddBackAny(a: TimeInternal, b: TimeInternal, d: TimeInternal, r: TimeInternal)
    requires Borrowed(Minus(a, b), d) && Carried(Plus(d, b), r)
    ensures Value(r) == Value(a)
    ensures r == NormalForm(Value(a)) <==>
      var phase := PhaseLeft(Minus(a, b)) + b.phase;
      phase >= 0 && NanosecondsLeft(Minus(a, b)) + b.nanoseconds + phase / 1000 >= 0
  {
    assert Value(d) == Value(a) - Value(b) && Value(r) == Value(d) + Value(b);
    BorrowedLeft(Minus(a, b), d);
    AddNormal(d, b, r);
    if Normal(r) {
      NormalUnique(r, NormalForm(Value(a)));
    }
  }

  /** A negative b for which it fails: -2 ns minus -2 ns is zero, and adding -2 ns back leaves -2 ns. */
  lemma AddBackFails()
    ensures var b := TimeInternal(0, -2, 0); var d := TimeInternal(0, 0, 0);
      Borrowed(Minus(b, b), d) && Carried(Plus(d, b), b) && b != NormalForm(Value(b))
  {
    assert !Normal(TimeInternal(0, -2, 0));
  }

  /** The receive path: t4 is the raw time minus the bitslide in picoseconds, in normal form. */
  method CorrectBitslide(t: TimeInternal, bitslide: int) returns (t4: TimeInternal)
    ensures Normal(t4) && Value(t4) == Value(t) - bitslide
    ensures t4 == NormalForm(Value(t) - bitslide)
    ensures t4.seconds * 1_000_000_000_000 + t4.nanoseconds * 1000 + t4.phase ==
      t.seconds * 1_000_000_000_000 + t.nanoseconds * 1000 + t.phase - bitslide
    ensures 0 <= t4.phase < 1000 && 0 <= t4.nanoseconds < 1_000_000_000
  {
    var bts := TimeInternal(0, 0, bitslide);
    var d := TsSub(t, bts);
    t4 := TsAdd(d, bts.(phase := 0));
    SubThenCarry(t, bts, d, t4);
  }
}
