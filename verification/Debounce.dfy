/**
 The input stretchers Debounce (hdl/clb_abs_calibration/top/fpga.vhd) and MetaStabilizer
 (hdl/general_modules/metastabilizer.vhd): two synchronising registers and a counter that stops at
 its top bit. Both run the same process; MetaStabilizer samples `not RESET` and drives O with not tc.
 Also the divider RepeatFire. One call of Edge per rising clock edge.
 */
module Debounce {
  import opened Division
  import opened MinMax

  datatype State = State(meta1: bool, meta2: bool, cnt: nat, tc: bool, tcDel: bool)

  const RESET := State(false, false, 0, false, false)

  /** Bit k of the counter, where bit = 2^k. */
  predicate BitSet(cnt: nat, bit: nat)
    requires bit > 0
  {
    cnt / bit % 2 == 1
  }

  /** The state after an edge. `bit` is the weight of the tested bit: that of the top bit, or 1 in
      simulation; the counter counts modulo `modulus`. */
  function Step(s: State, i: bool, bit: nat, modulus: nat): State
    requires bit > 0 && modulus > 0
  {
    if s.meta1 then
      if BitSet(s.cnt, bit) then State(i, true, s.cnt, true, s.tc)
      else State(i, true, (s.cnt + 1) % modulus, false, s.tc)
    else State(i, false, 0, false, s.tc)
  }

  class Stretcher {
    const bit: nat
    const modulus: nat
    var meta1: bool
    var meta2: bool
    var cnt: nat
    var tc: bool
    var tcDel: bool

    ghost function Snapshot(): State
      reads this
    {
      State(meta1, meta2, cnt, tc, tcDel)
    }

    /** Asynchronous reset. */
    constructor (simulation: bool, topBit: nat)
      requires topBit > 0
      ensures bit == (if simulation then 1 else topBit) && modulus == 2 * topBit
      ensures Snapshot() == RESET
    {
      bit := if simulation then 1 else topBit;
      modulus := 2 * topBit;
      meta1, meta2, cnt, tc, tcDel := false, false, 0, false, false;
    }

    method Edge(i: bool)
      requires bit > 0 && modulus > 0
      modifies this
      ensures Snapshot() == Step(old(Snapshot()), i, bit, modulus)
    {
      tcDel := tc;
      meta2 := meta1;
      meta1 := i;
      if meta2 {
        var terminalCount := BitSet(cnt, bit);
        if terminalCount {
          tc := true;
        } else {
          cnt := (cnt + 1) % modulus;
          tc := false;
        }
      } else {
        cnt := 0;
        tc := false;
      }
    }

    /** Debounce: one clock tick per rising tc. */
    function Pulse(): bool
      reads this
    {
      !tcDel && tc
    }
  }

  // ----- Histories -----

  /** The state after a history of samples, the last one last. */
  function After(h: seq<bool>, bit: nat, modulus: nat): State
    requires bit > 0 && modulus > 0
  {
    if h == [] then RESET else Step(After(h[..|h| - 1], bit, modulus), h[|h| - 1], bit, modulus)
  }

  /** The number of active samples at the end of a history. */
  function Active(h: seq<bool>): (n: nat)
    ensures n <= |h| && (forall k :: |h| - n <= k < |h| ==> h[k]) && (n < |h| ==> !h[|h| - 1 - n])
  {
    if h == [] || !h[|h| - 1] then 0 else 1 + Active(h[..|h| - 1])
  }

  lemma BitAtTop(cnt: nat, bit: nat)
    requires 0 < bit && cnt <= bit
    ensures BitSet(cnt, bit) <==> cnt == bit
  {
    if cnt < bit {
      assert cnt / bit == 0;
    } else {
      assert cnt / bit == 1;
    }
  }

  lemma SmallMod(a: nat, m: nat)
    requires a < m
    ensures a % m == a
  {
  }

  /** While the counter has not passed the tested bit, an edge counts up to it and stays. */
  lemma StepCounts(s: State, i: bool, bit: nat, modulus: nat)
    requires 0 < bit < modulus && s.cnt <= bit
    ensures Step(s, i, bit, modulus) ==
      State(i, s.meta1, if s.meta1 then Min(bit, s.cnt + 1) else 0, s.meta1 && s.cnt == bit, s.tc)
  {
    BitAtTop(s.cnt, bit);
    if s.cnt < bit {
      SmallMod(s.cnt + 1, modulus);
    }
  }

  /** What the registers hold after a history that is not empty. */
  ghost predicate Holds(s: State, h: seq<bool>, bit: nat)
    requires h != []
  {
    var run := Active(h[..|h| - 1]);
    && s.meta1 == h[|h| - 1] && (s.meta2 <==> |h| >= 2 && h[|h| - 2])
    && s.cnt == Min(bit, run) && (s.tc <==> run > bit)
  }

  /** The counter holds the length of the run of active samples that ended one edge earlier, and
      stops at the tested bit: it neither wraps nor overshoots. */
  lemma {:induction false} Registers(h: seq<bool>, bit: nat, modulus: nat)
    requires 0 < bit < modulus
    ensures h != [] ==> Holds(After(h, bit, modulus), h, bit)
    ensures After(h, bit, modulus).cnt <= bit
    decreases |h|
  {
    if h != [] {
      var p := h[..|h| - 1];
      Registers(p, bit, modulus);
      StepCounts(After(p, bit, modulus), h[|h| - 1], bit, modulus);
    }
  }

  /** tc is high after an edge if and only if the bit + 1 samples that end one edge earlier were all
      active. */
  lemma TcIff(h: seq<bool>, bit: nat, modulus: nat)
    requires 0 < bit < modulus
    ensures After(h, bit, modulus).tc <==>
      |h| >= bit + 2 && forall k :: |h| - bit - 2 <= k < |h| - 1 ==> h[k]
  {
    Registers(h, bit, modulus);
    if h != [] {
      var p := h[..|h| - 1];
      var n := Active(p);
      assert forall k :: 0 <= k < |p| ==> p[k] == h[k];
      if n <= bit && n < |p| {
        assert !p[|p| - 1 - n];
      }
    }
  }

  /** The pulse is high exactly where tc has just risen, so for one edge only. */
  lemma PulseIsRise(h: seq<bool>, i: bool, bit: nat, modulus: nat)
    requires 0 < bit < modulus
    ensures var s, t := After(h, bit, modulus), After(h + [i], bit, modulus);
      && t.tcDel == s.tc && (!t.tcDel && t.tc <==> !s.tc && t.tc)
      && (!s.tcDel && s.tc ==> !(!t.tcDel && t.tc))
  {
  }

  // ----- RepeatFire -----

  /** The counter after an edge, and Fire. */
  function Divide(cnt: nat, enable: bool, divRatio: nat): (nat, bool) {
    if cnt >= divRatio then (0, enable) else (cnt + 1, false)
  }

  class RepeatFire {
    var cnt: nat
    var fire: bool

    constructor ()
      ensures cnt == 0 && !fire
    {
      cnt, fire := 0, false;
    }

    method Edge(enable: bool, divRatio: nat)
      modifies this
      ensures (cnt, fire) == Divide(old(cnt), enable, divRatio)
    {
      if cnt >= divRatio {
        cnt := 0;
        fire := enable;
      } else {
        cnt := cnt + 1;
        fire := false;
      }
    }
  }

  function DividerAfter(enables: seq<bool>, divRatio: nat): (nat, bool) {
    if enables == [] then (0, false)
    else Divide(DividerAfter(enables[..|enables| - 1], divRatio).0, enables[|enables| - 1], divRatio)
  }

  /** Fire repeats Enable every divRatio + 1 edges, and is low between. */
  lemma {:induction false} FirePeriod(enables: seq<bool>, divRatio: nat)
    ensures var (cnt, fire) := DividerAfter(enables, divRatio);
      && cnt == |enables| % (divRatio + 1)
      && (fire <==> enables != [] && |enables| % (divRatio + 1) == 0 && enables[|enables| - 1])
    decreases |enables|
  {
    if enables != [] {
      FirePeriod(enables[..|enables| - 1], divRatio);
      ModNext(|enables| - 1, divRatio + 1);
    }
  }
}
