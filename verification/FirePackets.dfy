/**
 FirePackets of hdl/clb_abs_calibration/top/fpga.vhd: a debounced push button, or a steady pace while a
 debounced switch is on, fires bursts of 16 packets of 9 words.
 */
module FirePackets {
  import Debounce
  import FirePacketGen

  const NUMWORDS: nat := 9
  const NUMPACKETS: nat := 16
  const DIV_RATIO: nat := 0x976

  /** The samples of one edge: Fire, udp_tstgen_cont and UDP_Tx_Full. */
  datatype Input = Input(fire: bool, cont: bool, full: bool)

  datatype State = State(button: Debounce.State, switch: Debounce.State, divider: (nat, bool), gen: FirePacketGen.State)

  const RESET := State(Debounce.RESET, Debounce.RESET, (0, false), FirePacketGen.RESET)

  /** Pulse: the button has just been debounced, or the divider fires. */
  predicate Pulse(s: State) {
    s.divider.1 || (!s.button.tcDel && s.button.tc)
  }

  /** All registers change at once: what each samples is from before the edge. */
  function Step(s: State, i: Input, bit: nat, modulus: nat): State
    requires bit > 0 && modulus > 0
  {
    State(Debounce.Step(s.button, i.fire, bit, modulus), Debounce.Step(s.switch, i.cont, bit, modulus),
          Debounce.Divide(s.divider.0, s.switch.tc, DIV_RATIO),
          FirePacketGen.Step(s.gen, FirePacketGen.Input(Pulse(s), i.full), NUMWORDS, NUMPACKETS))
  }

  class Entity {
    const u0: Debounce.Stretcher
    const u5: Debounce.Stretcher
    const u1: Debounce.RepeatFire
    const u6: FirePacketGen.Generator

    ghost predicate Valid()
      reads this
    {
      u0 != u5 && u0.bit == u5.bit > 0 && u0.modulus == u5.modulus > 0
    }

    ghost function Snapshot(): State
      reads u0, u5, u1, u6
    {
      State(u0.Snapshot(), u5.Snapshot(), (u1.cnt, u1.fire), u6.Snapshot())
    }

    constructor (simulation: bool, topBit: nat)
      requires topBit > 0
      ensures Valid() && fresh(u0) && fresh(u5) && fresh(u1) && fresh(u6)
      ensures u0.bit == (if simulation then 1 else topBit) && u0.modulus == 2 * topBit
      ensures Snapshot() == RESET
    {
      u0 := new Debounce.Stretcher(simulation, topBit);
      u5 := new Debounce.Stretcher(simulation, topBit);
      u1 := new Debounce.RepeatFire();
      u6 := new FirePacketGen.Generator();
    }

    method Edge(fire: bool, cont: bool, full: bool)
      requires Valid()
      modifies u0, u5, u1, u6
      ensures Snapshot() == Step(old(Snapshot()), Input(fire, cont, full), u0.bit, u0.modulus)
    {
      var pulse := u1.fire || u0.Pulse();
      var enable := u5.tc;
      u0.Edge(fire);
      u1.Edge(enable, DIV_RATIO);
      u5.Edge(cont);
      u6.Edge(pulse, full, NUMWORDS, NUMPACKETS);
    }
  }

  // ----- Histories, the last edge last -----

  function After(h: seq<Input>, bit: nat, modulus: nat): State
    requires bit > 0 && modulus > 0
  {
    if h == [] then RESET else Step(After(h[..|h| - 1], bit, modulus), h[|h| - 1], bit, modulus)
  }

  function Fires(h: seq<Input>): (r: seq<bool>)
    ensures |r| == |h|
  {
    seq(|h|, k requires 0 <= k < |h| => h[k].fire)
  }

  function Conts(h: seq<Input>): (r: seq<bool>)
    ensures |r| == |h|
  {
    seq(|h|, k requires 0 <= k < |h| => h[k].cont)
  }

  /** The switch as the divider sees it at each edge. */
  function Enables(h: seq<Input>, bit: nat, modulus: nat): (r: seq<bool>)
    requires bit > 0 && modulus > 0
    ensures |r| == |h|
  {
    if h == [] then []
    else Enables(h[..|h| - 1], bit, modulus) + [Debounce.After(Conts(h[..|h| - 1]), bit, modulus).tc]
  }

  /** What the generator sees at each edge. */
  function Commands(h: seq<Input>, bit: nat, modulus: nat): (r: seq<FirePacketGen.Input>)
    requires bit > 0 && modulus > 0
  {
    if h == [] then []
    else
      var before := h[..|h| - 1];
      Commands(before, bit, modulus) + [FirePacketGen.Input(Pulse(After(before, bit, modulus)), h[|h| - 1].full)]
  }

  lemma HistoryTail(h: seq<Input>)
    requires h != []
    ensures Fires(h)[..|h| - 1] == Fires(h[..|h| - 1]) && Conts(h)[..|h| - 1] == Conts(h[..|h| - 1])
  {
  }

  lemma {:induction false} RunAppend(s: FirePacketGen.State, inputs: seq<FirePacketGen.Input>, i: FirePacketGen.Input)
    ensures FirePacketGen.Run(s, inputs + [i], NUMWORDS, NUMPACKETS) ==
      FirePacketGen.Step(FirePacketGen.Run(s, inputs, NUMWORDS, NUMPACKETS), i, NUMWORDS, NUMPACKETS)
    decreases |inputs|
  {
    if inputs == [] {
      assert [] + [i] == [i];
    } else {
      assert (inputs + [i])[1..] == inputs[1..] + [i];
      RunAppend(FirePacketGen.Step(s, inputs[0], NUMWORDS, NUMPACKETS), inputs[1..], i);
    }
  }

  /** Each part runs on its own history. */
  lemma {:induction false} Parts(h: seq<Input>, bit: nat, modulus: nat)
    requires bit > 0 && modulus > 0
    ensures var s := After(h, bit, modulus);
      && s.button == Debounce.After(Fires(h), bit, modulus) && s.switch == Debounce.After(Conts(h), bit, modulus)
      && s.divider == Debounce.DividerAfter(Enables(h, bit, modulus), DIV_RATIO)
      && s.gen == FirePacketGen.Run(FirePacketGen.RESET, Commands(h, bit, modulus), NUMWORDS, NUMPACKETS)
    decreases |h|
  {
    if h != [] {
      var before := h[..|h| - 1];
      Parts(before, bit, modulus);
      HistoryTail(h);
      var i := FirePacketGen.Input(Pulse(After(before, bit, modulus)), h[|h| - 1].full);
      RunAppend(FirePacketGen.RESET, Commands(before, bit, modulus), i);
      var e := Enables(h, bit, modulus);
      assert e[..|e| - 1] == Enables(before, bit, modulus);
    }
  }

  /** The last bit + 1 samples before the last one were all active. */
  predicate Steady(h: seq<bool>, bit: nat) {
    |h| >= bit + 2 && forall k :: |h| - bit - 2 <= k < |h| - 1 ==> h[k]
  }

  lemma ButtonIff(h: seq<Input>, bit: nat, modulus: nat)
    requires 0 < bit < modulus && h != []
    ensures var s := After(h, bit, modulus).button;
      !s.tcDel && s.tc <==> Steady(Fires(h), bit) && !Steady(Fires(h)[..|h| - 1], bit)
  {
    Parts(h, bit, modulus);
    HistoryTail(h);
    Debounce.TcIff(Fires(h), bit, modulus);
    Debounce.TcIff(Fires(h)[..|h| - 1], bit, modulus);
  }

  lemma DividerIff(h: seq<Input>, bit: nat, modulus: nat)
    requires 0 < bit < modulus && h != []
    ensures After(h, bit, modulus).divider.1 <==> |h| % (DIV_RATIO + 1) == 0 && Steady(Conts(h)[..|h| - 1], bit)
  {
    Parts(h, bit, modulus);
    HistoryTail(h);
    Debounce.TcIff(Conts(h)[..|h| - 1], bit, modulus);
    Debounce.FirePeriod(Enables(h, bit, modulus), DIV_RATIO);
  }

  /** A burst is asked for, in terms of the raw inputs: either the button has been steady for one edge
      exactly, or the number of edges is a multiple of 2423 and the switch was steady at the last one. */
  lemma PulseIff(h: seq<Input>, bit: nat, modulus: nat)
    requires 0 < bit < modulus && h != []
    ensures Pulse(After(h, bit, modulus)) <==>
      (Steady(Fires(h), bit) && !Steady(Fires(h)[..|h| - 1], bit))
      || (|h| % 2423 == 0 && Steady(Conts(h)[..|h| - 1], bit))
  {
    ButtonIff(h, bit, modulus);
    DividerIff(h, bit, modulus);
  }

  /** Whatever the inputs do, bouncing or firing into a burst, the network is only ever given sixteen
      whole frames of nine words for every pulse that finds the generator idle, less what the current
      burst has still to send; the frame it is in is written as far as the counter shows. The words are
      those of frames of nine. */
  lemma OnlyWholeFrames(h: seq<Input>, bit: nat, modulus: nat)
    requires bit > 0 && modulus > 0
    ensures var t, commands := After(h, bit, modulus).gen, Commands(h, bit, modulus);
      var fires := FirePacketGen.Accepted(FirePacketGen.RESET, commands, 9, 16);
      && (t.mode == FirePacketGen.Packet ==> FirePacketGen.InBurst(t, 9, 16) && fires >= 1)
      && FirePacketGen.Written(FirePacketGen.RESET, commands, 9, 16) ==
           FirePacketGen.Copies(FirePacketGen.FramesDone(fires, t, 16), FirePacketGen.Frame(9)) +
             FirePacketGen.Partial(t, 9)
    ensures var words := FirePacketGen.Written(FirePacketGen.RESET, Commands(h, bit, modulus), 9, 16);
      forall k: nat :: k < |words| ==> FirePacketGen.WordOfFrame(words[k], k, 9)
  {
    var words := FirePacketGen.Written(FirePacketGen.RESET, Commands(h, bit, modulus), NUMWORDS, NUMPACKETS);
    forall k: nat | k < |words| ensures FirePacketGen.WordOfFrame(words[k], k, NUMWORDS) {
      FirePacketGen.EveryWord(Commands(h, bit, modulus), NUMWORDS, NUMPACKETS, k);
    }
    Parts(h, bit, modulus);
    FirePacketGen.WholeFrames(Commands(h, bit, modulus), NUMWORDS, NUMPACKETS);
  }
}
