/**
 The packet generator FirePacketGen of hdl/clb_abs_calibration/top/fpga.vhd: one call of Edge per
 rising clock edge.
 */
module FirePacketGen {
  import opened Division

  datatype Mode = Idle | Packet

  /** The registers, and the outputs they drive. */
  datatype State = State(mode: Mode, cnt: nat, frame: nat, eod: bool, d: nat, wrReq: bool)

  datatype Input = Input(txFire: bool, full: bool)

  /** A word on the bus: D and EOD. */
  datatype BusWord = BusWord(d: nat, eod: bool)

  const IDLE_WORD: nat := 0xAA11
  const START_WORD: nat := 0x050D
  const END_WORD: nat := 0x0E0D

  const RESET := State(Idle, 0, 0, false, IDLE_WORD, false)

  /** The word shown while the counter stands at cnt. */
  function Shown(cnt: nat, numwords: nat): BusWord {
    if cnt == numwords then BusWord(END_WORD, true)
    else if cnt == 1 then BusWord(START_WORD, false)
    else BusWord(cnt % 0x10000, false)
  }

  function Present(cnt: nat, frame: nat, full: bool, numwords: nat): State {
    var n := if full then cnt else cnt + 1;
    var w := Shown(n, numwords);
    State(Packet, n, frame, w.eod, w.d, !full)
  }

  function Rest(s: State): State {
    State(Idle, s.cnt, s.frame, false, IDLE_WORD, false)
  }

  /** The state after an edge. */
  function Step(s: State, i: Input, numwords: nat, numpackets: nat): State {
    match s.mode
    case Idle => if i.txFire then Present(0, 1, i.full, numwords) else Rest(s)
    case Packet =>
      if !i.full && s.cnt == numwords && s.frame == numpackets then Rest(s)
      else if !i.full && s.cnt == numwords then Present(0, s.frame + 1, i.full, numwords)
      else Present(s.cnt, s.frame, i.full, numwords)
  }

  /** The entity, as its process assigns. */
  class Generator {
    var mode: Mode
    var cnt: nat
    var frame: nat
    var eod: bool
    var d: nat
    var wrReq: bool

    function Snapshot(): State
      reads this
    {
      State(mode, cnt, frame, eod, d, wrReq)
    }

    /** Rst = '1' */
    constructor ()
      ensures Snapshot() == RESET
    {
      mode := Idle;
      eod := false;
      d := IDLE_WORD;
      wrReq := false;
      cnt := 0;
      frame := 0;
    }

    method Edge(txFire: bool, full: bool, numwords: nat, numpackets: nat)
      modifies this
      ensures Snapshot() == Step(old(Snapshot()), Input(txFire, full), numwords, numpackets)
    {
      match mode
      case Idle =>
        if txFire {
          mode := Packet;
          cnt := 0;
          frame := 1;
          Drive(full, numwords);
        } else {
          Quiet();
        }
      case Packet =>
        if !full && cnt == numwords && frame == numpackets {
          Quiet();
        } else if !full && cnt == numwords {
          cnt := 0;
          frame := frame + 1;
          Drive(full, numwords);
        } else {
          Drive(full, numwords);
        }
    }

    /** The actions that all transitions into the state Packet share. */
    method Drive(full: bool, numwords: nat)
      requires mode == Packet
      modifies this
      ensures Snapshot() == Present(old(cnt), old(frame), full, numwords)
    {
      if !full {
        cnt := cnt + 1;
      }
      if cnt == numwords {
        eod := true;
        d := END_WORD;
      } else if cnt == 1 {
        eod := false;
        d := START_WORD;
      } else {
        eod := false;
        d := cnt % 0x10000;
      }
      wrReq := !full;
    }

    method Quiet()
      modifies this
      ensures Snapshot() == Rest(old(Snapshot()))
    {
      mode := Idle;
      eod := false;
      d := IDLE_WORD;
      wrReq := false;
    }
  }

  // ----- Traces -----

  function Run(s: State, inputs: seq<Input>, numwords: nat, numpackets: nat): State
    decreases |inputs|
  {
    if inputs == [] then s else Run(Step(s, inputs[0], numwords, numpackets), inputs[1..], numwords, numpackets)
  }

  /** The words presented with WrReq = '1', one edge after the other. */
  function Written(s: State, inputs: seq<Input>, numwords: nat, numpackets: nat): seq<BusWord>
    decreases |inputs|
  {
    if inputs == [] then []
    else
      var t := Step(s, inputs[0], numwords, numpackets);
      (if t.wrReq then [BusWord(t.d, t.eod)] else []) + Written(t, inputs[1..], numwords, numpackets)
  }

  function NonFull(inputs: seq<Input>): nat {
    if inputs == [] then 0 else (if inputs[0].full then 0 else 1) + NonFull(inputs[1..])
  }

  /** One frame: numwords words, counted from 1. */
  function Frame(numwords: nat): (f: seq<BusWord>)
    ensures |f| == numwords && forall k :: 0 <= k < numwords ==> f[k] == Shown(k + 1, numwords)
  {
    seq(numwords, k requires 0 <= k < numwords => Shown(k + 1, numwords))
  }

  function Copies(n: nat, f: seq<BusWord>): (w: seq<BusWord>)
    ensures |w| == n * |f|
  {
    if n == 0 then [] else Copies(n - 1, f) + f
  }

  /** What has been written of the burst when the registers stand at (frame, cnt). */
  function SoFar(s: State, numwords: nat): seq<BusWord>
    requires 1 <= s.frame && s.cnt <= numwords
  {
    Copies(s.frame - 1, Frame(numwords)) + Frame(numwords)[..s.cnt]
  }

  ghost predicate InBurst(s: State, numwords: nat, numpackets: nat) {
    s.mode == Packet && 1 <= s.frame <= numpackets && s.cnt <= numwords
  }

  /** The registers keep inside their declared ranges. */
  lemma RangesKept(s: State, i: Input, numwords: nat, numpackets: nat)
    requires 1 <= numwords <= 16383 && 1 <= numpackets <= 1023
    requires s.mode == Packet ==> InBurst(s, numwords, numpackets)
    ensures var t := Step(s, i, numwords, numpackets);
      && (t.mode == Packet ==> InBurst(t, numwords, numpackets))
      && (t.wrReq && t.mode == Packet ==> t.cnt >= 1)
      && (s.cnt <= 16383 && s.frame <= 1023 ==> t.cnt <= 16383 && t.frame <= 1023)
  {
  }

  /** An edge of a burst that is not its last: it adds the next word, unless Full. */
  lemma BurstStep(s: State, i: Input, numwords: nat, numpackets: nat)
    requires 1 <= numwords && 1 <= numpackets && InBurst(s, numwords, numpackets)
    ensures var t := Step(s, i, numwords, numpackets);
      && (t.mode == Idle ==> !t.wrReq && !i.full && SoFar(s, numwords) == Copies(numpackets, Frame(numwords)))
      && (t.mode == Packet ==> InBurst(t, numwords, numpackets) && t.wrReq == !i.full)
      && (t.mode == Packet ==>
            SoFar(t, numwords) == SoFar(s, numwords) + (if i.full then [] else [BusWord(t.d, t.eod)]))
  {
  }

  /** While a burst is running, what it has written grows by one word per edge without Full, up to
      numpackets frames; the edge after the last word returns to Idle and writes nothing. */
  lemma {:induction false} BurstRun(s: State, inputs: seq<Input>, numwords: nat, numpackets: nat)
    requires 1 <= numwords && 1 <= numpackets && InBurst(s, numwords, numpackets)
    requires |SoFar(s, numwords)| + NonFull(inputs) <= numwords * numpackets
    ensures var t := Run(s, inputs, numwords, numpackets);
      && InBurst(t, numwords, numpackets)
      && SoFar(t, numwords) == SoFar(s, numwords) + Written(s, inputs, numwords, numpackets)
      && |Written(s, inputs, numwords, numpackets)| == NonFull(inputs)
    decreases |inputs|
  {
    if inputs != [] {
      BurstStep(s, inputs[0], numwords, numpackets);
      var t := Step(s, inputs[0], numwords, numpackets);
      CopiesLength(numpackets, Frame(numwords));
      BurstRun(t, inputs[1..], numwords, numpackets);
      var w := if inputs[0].full then [] else [BusWord(t.d, t.eod)];
      assert SoFar(s, numwords) + (w + Written(t, inputs[1..], numwords, numpackets))
          == (SoFar(s, numwords) + w) + Written(t, inputs[1..], numwords, numpackets);
    }
  }

  lemma CopiesLength(n: nat, f: seq<BusWord>)
    ensures |Copies(n, f)| == |f| * n
  {
  }

  lemma {:induction false} CopiesPrefix(m: nat, n: nat, f: seq<BusWord>, k: nat)
    requires m < n && k <= |f|
    ensures Copies(m, f) + f[..k] <= Copies(n, f)
    decreases n
  {
    if m < n - 1 {
      CopiesPrefix(m, n - 1, f, k);
    }
  }

  /** A burst from the firing edge on: after any history of Full with at most numwords * numpackets
      edges that are not Full, the generator is still busy and has written exactly that many words,
      the first of numpackets copies of the frame. */
  lemma FiredBurst(s: State, inputs: seq<Input>, numwords: nat, numpackets: nat)
    requires 1 <= numwords && 1 <= numpackets && s.mode == Idle
    requires inputs != [] && inputs[0].txFire && NonFull(inputs) <= numwords * numpackets
    ensures Run(s, inputs, numwords, numpackets).mode == Packet
    ensures |Written(s, inputs, numwords, numpackets)| == NonFull(inputs)
    ensures Written(s, inputs, numwords, numpackets) <= Copies(numpackets, Frame(numwords))
  {
    FiredRun(s, inputs, numwords, numpackets);
    var t := Run(s, inputs, numwords, numpackets);
    CopiesPrefix(t.frame - 1, numpackets, Frame(numwords), t.cnt);
  }

  lemma FiringStep(s: State, i: Input, numwords: nat, numpackets: nat)
    requires 1 <= numwords && 1 <= numpackets && s.mode == Idle && i.txFire
    ensures var t := Step(s, i, numwords, numpackets);
      && InBurst(t, numwords, numpackets) && t.wrReq == !i.full
      && SoFar(t, numwords) == if i.full then [] else [BusWord(t.d, t.eod)]
  {
    assert Frame(numwords)[..1] == [Frame(numwords)[0]];
  }

  lemma FiredRun(s: State, inputs: seq<Input>, numwords: nat, numpackets: nat)
    requires 1 <= numwords && 1 <= numpackets && s.mode == Idle
    requires inputs != [] && inputs[0].txFire && NonFull(inputs) <= numwords * numpackets
    ensures var t := Run(s, inputs, numwords, numpackets);
      && InBurst(t, numwords, numpackets)
      && SoFar(t, numwords) == Written(s, inputs, numwords, numpackets)
      && |SoFar(t, numwords)| == NonFull(inputs)
  {
    var t := Step(s, inputs[0], numwords, numpackets);
    FiringStep(s, inputs[0], numwords, numpackets);
    BurstRun(t, inputs[1..], numwords, numpackets);
  }

  /** The next edge without Full returns to Idle: it is number numwords * numpackets + 1 of its kind,
      and all copies of the frame have been written. */
  lemma BurstReturns(s: State, inputs: seq<Input>, last: Input, numwords: nat, numpackets: nat)
    requires 1 <= numwords && 1 <= numpackets && s.mode == Idle
    requires inputs != [] && inputs[0].txFire && NonFull(inputs) == numwords * numpackets && !last.full
    ensures var t := Run(s, inputs, numwords, numpackets);
      Step(t, last, numwords, numpackets).mode == Idle && !Step(t, last, numwords, numpackets).wrReq
    ensures Written(s, inputs, numwords, numpackets) == Copies(numpackets, Frame(numwords))
  {
    FiredRun(s, inputs, numwords, numpackets);
    var t := Run(s, inputs, numwords, numpackets);
    CopiesPrefix(t.frame - 1, numpackets, Frame(numwords), t.cnt);
    CopiesLength(numpackets, Frame(numwords));
    AtTheEnd(t, numwords, numpackets);
  }

  lemma AtTheEnd(t: State, numwords: nat, numpackets: nat)
    requires 1 <= numwords && InBurst(t, numwords, numpackets)
    requires |SoFar(t, numwords)| == numwords * numpackets
    ensures t.frame == numpackets && t.cnt == numwords
  {
  }

  /** Part shown of the current frame. */
  function Partial(s: State, numwords: nat): seq<BusWord>
    requires s.mode == Packet ==> s.cnt <= numwords
  {
    Frame(numwords)[..if s.mode == Packet then s.cnt else 0]
  }

  /** The edges at which a fire is accepted: those that leave Idle. */
  function Accepted(s: State, inputs: seq<Input>, numwords: nat, numpackets: nat): nat
    decreases |inputs|
  {
    if inputs == [] then 0
    else
      var t := Step(s, inputs[0], numwords, numpackets);
      (if Accepts(s, inputs[0]) then 1 else 0) + Accepted(t, inputs[1..], numwords, numpackets)
  }

  predicate Accepts(s: State, i: Input) {
    s.mode == Idle && i.txFire
  }

  /** The whole frames written when so many fires have been accepted: numpackets for each, less those of
      the current burst that are not finished. */
  function FramesDone(fires: nat, s: State, numpackets: nat): nat
    requires s.mode == Packet ==> fires >= 1 && s.frame >= 1
  {
    if s.mode == Packet then (fires - 1) * numpackets + (s.frame - 1) else fires * numpackets
  }

  /** A state that so many accepted fires can lead to, and what has been written by then. */
  ghost predicate After(fires: nat, s: State, numwords: nat, numpackets: nat) {
    s.mode == Packet ==> InBurst(s, numwords, numpackets) && fires >= 1
  }

  function AllWritten(fires: nat, s: State, numwords: nat, numpackets: nat): seq<BusWord>
    requires After(fires, s, numwords, numpackets)
  {
    Copies(FramesDone(fires, s, numpackets), Frame(numwords)) + Partial(s, numwords)
  }

  lemma StepFrames(s: State, fires: nat, i: Input, numwords: nat, numpackets: nat)
    requires 1 <= numwords && 1 <= numpackets && After(fires, s, numwords, numpackets)
    ensures var t := Step(s, i, numwords, numpackets); var now := if Accepts(s, i) then fires + 1 else fires;
      && After(now, t, numwords, numpackets)
      && AllWritten(now, t, numwords, numpackets) ==
         AllWritten(fires, s, numwords, numpackets) + (if t.wrReq then [BusWord(t.d, t.eod)] else [])
  {
    var f := Frame(numwords);
    var t := Step(s, i, numwords, numpackets);
    var now := if Accepts(s, i) then fires + 1 else fires;
    var before := FramesDone(fires, s, numpackets);
    assert f[..numwords] == f;
    assert forall k :: 0 <= k < numwords ==> f[..k + 1] == f[..k] + [f[k]];
    assert fires >= 1 ==> (fires - 1) * numpackets + numpackets == fires * numpackets;
    assert FramesDone(now, t, numpackets) ==
      if s.mode == Packet && !i.full && s.cnt == numwords then before + 1 else before;
  }

  lemma Chained(a: seq<BusWord>, w: seq<BusWord>, b: seq<BusWord>, rest: seq<BusWord>, c: seq<BusWord>)
    requires b == a + w && c == b + rest
    ensures c == a + (w + rest)
  {
  }

  lemma {:induction false} FramesOf(s: State, fires: nat, inputs: seq<Input>, numwords: nat, numpackets: nat)
    requires 1 <= numwords && 1 <= numpackets && After(fires, s, numwords, numpackets)
    ensures var t := Run(s, inputs, numwords, numpackets); var now := fires + Accepted(s, inputs, numwords, numpackets);
      && After(now, t, numwords, numpackets)
      && AllWritten(now, t, numwords, numpackets) ==
         AllWritten(fires, s, numwords, numpackets) + Written(s, inputs, numwords, numpackets)
    decreases |inputs|
  {
    var start := AllWritten(fires, s, numwords, numpackets);
    if inputs == [] {
      assert start + [] == start;
    } else {
      var t := Step(s, inputs[0], numwords, numpackets);
      var now := if Accepts(s, inputs[0]) then fires + 1 else fires;
      StepFrames(s, fires, inputs[0], numwords, numpackets);
      FramesOf(t, now, inputs[1..], numwords, numpackets);
      var last, later := Run(t, inputs[1..], numwords, numpackets), Accepted(t, inputs[1..], numwords, numpackets);
      assert now + later == fires + Accepted(s, inputs, numwords, numpackets);
      Chained(start, if t.wrReq then [BusWord(t.d, t.eod)] else [], AllWritten(now, t, numwords, numpackets),
        Written(t, inputs[1..], numwords, numpackets), AllWritten(now + later, last, numwords, numpackets));
    }
  }

  /** After any history whatever, what has been written is numpackets whole frames for every fire
      accepted before the current burst, the frames of the current burst that are finished, and the
      part of its current frame that the counter shows. Idle, it is numpackets frames per fire. */
  lemma WholeFrames(inputs: seq<Input>, numwords: nat, numpackets: nat)
    requires 1 <= numwords && 1 <= numpackets
    ensures var t := Run(RESET, inputs, numwords, numpackets);
      var fires := Accepted(RESET, inputs, numwords, numpackets);
      && (t.mode == Packet ==> InBurst(t, numwords, numpackets) && fires >= 1)
      && Written(RESET, inputs, numwords, numpackets) ==
        Copies(FramesDone(fires, t, numpackets), Frame(numwords)) + Partial(t, numwords)
  {
    FramesOf(RESET, 0, inputs, numwords, numpackets);
    assert Copies(0, Frame(numwords)) + Partial(RESET, numwords) == [];
    var w := Written(RESET, inputs, numwords, numpackets);
    assert [] + w == w;
  }

  // ----- The words themselves -----

  lemma {:induction false} CopiesAt(n: nat, f: seq<BusWord>, k: nat)
    requires f != [] && k < n * |f|
    ensures Copies(n, f)[k] == f[k % |f|]
    decreases n
  {
    var m := (n - 1) * |f|;
    assert n * |f| == m + |f|;
    if k < m {
      CopiesAt(n - 1, f, k);
    } else {
      DivUnique(k, n - 1, k - m, |f|);
    }
  }

  /** Word k of any number of frames and a part of one: the last word of a frame is 0x0E0D with EOD; without
      EOD, the first is 0x050D, and the others carry their number, counted from 1. */
  ghost predicate WordOfFrame(w: BusWord, k: nat, numwords: nat)
    requires numwords > 0
  {
    && (w.eod <==> (k + 1) % numwords == 0)
    && w.d == if w.eod then 0x0E0D else if k % numwords == 0 then 0x050D else (k % numwords + 1) % 0x1_0000
  }

  lemma ShownWord(k: nat, o: nat, numwords: nat)
    requires o < numwords && o == k % numwords
    ensures WordOfFrame(Shown(o + 1, numwords), k, numwords)
  {
    ModNext(k, numwords);
  }

  lemma FrameWord(n: nat, numwords: nat, c: nat, k: nat)
    requires numwords > 0 && c <= numwords && k < n * numwords + c
    ensures var all := Copies(n, Frame(numwords)) + Frame(numwords)[..c];
      k < |all| && WordOfFrame(all[k], k, numwords)
  {
    var f := Frame(numwords);
    var o := if k < n * numwords then k % numwords else k - n * numwords;
    if k < n * numwords {
      CopiesAt(n, f, k);
    } else {
      DivUnique(k, n, o, numwords);
    }
    assert (Copies(n, f) + f[..c])[k] == f[o];
    ShownWord(k, o, numwords);
  }

  /** Whatever the history, word k of all that has been written is word k of whole frames. */
  lemma EveryWord(inputs: seq<Input>, numwords: nat, numpackets: nat, k: nat)
    requires 1 <= numwords && 1 <= numpackets && k < |Written(RESET, inputs, numwords, numpackets)|
    ensures WordOfFrame(Written(RESET, inputs, numwords, numpackets)[k], k, numwords)
  {
    var t := Run(RESET, inputs, numwords, numpackets);
    var fires := Accepted(RESET, inputs, numwords, numpackets);
    WholeFrames(inputs, numwords, numpackets);
    FrameWord(FramesDone(fires, t, numpackets), numwords, if t.mode == Packet then t.cnt else 0, k);
  }

  /** The same for one burst, from any idle state. */
  lemma BurstWord(s: State, inputs: seq<Input>, numwords: nat, numpackets: nat, k: nat)
    requires 1 <= numwords && 1 <= numpackets && s.mode == Idle
    requires inputs != [] && inputs[0].txFire && NonFull(inputs) <= numwords * numpackets
    requires k < |Written(s, inputs, numwords, numpackets)|
    ensures WordOfFrame(Written(s, inputs, numwords, numpackets)[k], k, numwords)
  {
    FiredRun(s, inputs, numwords, numpackets);
    var t := Run(s, inputs, numwords, numpackets);
    FrameWord(t.frame - 1, numwords, t.cnt, k);
  }

  /** Between bursts the bus shows 0xAA11, without EOD, and nothing is written. */
  lemma {:induction false} IdleShows(s: State, inputs: seq<Input>, numwords: nat, numpackets: nat)
    requires s.mode == Idle ==> s.d == 0xAA11 && !s.eod && !s.wrReq
    ensures var t := Run(s, inputs, numwords, numpackets); t.mode == Idle ==> t.d == 0xAA11 && !t.eod && !t.wrReq
    ensures RESET.mode == Idle && RESET.d == 0xAA11 && !RESET.eod && !RESET.wrReq
    decreases |inputs|
  {
    if inputs != [] {
      IdleShows(Step(s, inputs[0], numwords, numpackets), inputs[1..], numwords, numpackets);
    }
  }
}
