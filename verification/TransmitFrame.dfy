/**
 The frame transmitter of hdl/general_modules/stimuli/TransmitFrame16bit.vhd: one call of Edge per
 rising clock edge. The checksum generator gc_crc_gen is not part of this model: its value appears
 in the trace as the two halves CrcHigh and CrcLow.
 */
module TransmitFrame {

  datatype Mode = Idle | StartOfPacket0 | StartOfFrame | SendFrame | Crc0 | Crc1 | EndOfPacket | IfgIdle

  /** What stands on TxData_int and TxCharIsK_int. */
  datatype Code = Comma | Start | Preamble | StartDelimiter | EndDelimiter | Data(word: nat)

  /** The registers. `frames` is FrameData; crcRst and crcEnable drive the checksum generator. */
  datatype State = State(mode: Mode, idx: nat, frameIdx: nat, code: Code, crcRst: bool, crcEnable: bool,
                         frames: seq<seq<nat>>)

  datatype Input = Input(fire: bool, crcErr: bool)

  /** What leaves the entity after an edge, and whether the checksum generator takes the word. */
  datatype Symbol = Code(code: Code) | CrcHigh | CrcLow
  datatype Output = Output(symbol: Symbol, crcRst: bool, crcEnable: bool)

  const IFG: nat := 6

  /** FrameLen holds positive numbers: 1 before the frames are set. */
  function FrameLen(frames: seq<seq<nat>>, f: nat): nat {
    if f < |frames| then |frames[f]| else 1
  }

  /** A word that was never set reads as 0 here. */
  function FrameWord(frames: seq<seq<nat>>, f: nat, i: nat): nat {
    if f < |frames| && i < |frames[f]| then frames[f][i] else 0
  }

  /** The state after an edge. `table` is what f_init_frames returns. */
  function Step(s: State, i: Input, table: seq<seq<nat>>): State {
    match s.mode
    case Idle =>
      if i.fire then State(StartOfPacket0, 0, s.frameIdx, Start, true, false, s.frames)
      else State(Idle, 0, 0, Comma, true, false, table)
    case StartOfPacket0 =>
      if s.idx == 2 then State(StartOfFrame, s.idx, s.frameIdx, StartDelimiter, !i.crcErr, i.crcErr, s.frames)
      else State(StartOfPacket0, s.idx + 1, s.frameIdx, Preamble, true, false, s.frames)
    case StartOfFrame =>
      State(SendFrame, 1, s.frameIdx, Data(FrameWord(s.frames, s.frameIdx, 0)), false, true, s.frames)
    case SendFrame =>
      if s.idx == FrameLen(s.frames, s.frameIdx) then State(Crc0, 1, s.frameIdx, s.code, false, false, s.frames)
      else State(SendFrame, s.idx + 1, s.frameIdx, Data(FrameWord(s.frames, s.frameIdx, s.idx)), false, true, s.frames)
    case Crc0 => State(Crc1, s.idx, s.frameIdx, s.code, false, false, s.frames)
    case Crc1 => State(EndOfPacket, s.idx, s.frameIdx + 1, EndDelimiter, true, false, s.frames)
    case EndOfPacket => State(IfgIdle, 1, s.frameIdx, Comma, true, false, s.frames)
    case IfgIdle =>
      if s.idx == IFG && s.frameIdx != |table| then State(StartOfPacket0, 0, s.frameIdx, Start, true, false, s.frames)
      else if s.idx == IFG then State(Idle, 0, 0, Comma, true, false, table)
      else State(IfgIdle, s.idx + 1, s.frameIdx, Comma, true, false, s.frames)
  }

  /** The multiplexer behind the registers. */
  function Out(s: State): Output {
    var symbol := if s.mode == Crc0 then CrcHigh else if s.mode == Crc1 then CrcLow else Symbol.Code(s.code);
    Output(symbol, s.crcRst, s.crcEnable)
  }

  /** The entity, as its process assigns. */
  class Transmitter {
    const table: seq<seq<nat>>
    var mode: Mode
    var idx: nat
    var frameIdx: nat
    var code: Code
    var crcRst: bool
    var crcEnable: bool
    var frames: seq<seq<nat>>

    function Snapshot(): State
      reads this
    {
      State(mode, idx, frameIdx, code, crcRst, crcEnable, frames)
    }

    /** Power-up and Rst = '1': FrameData is not set yet. */
    constructor (table: seq<seq<nat>>)
      ensures this.table == table && Snapshot() == State(Idle, 0, 0, Comma, true, false, [])
    {
      this.table := table;
      mode, code, idx, frameIdx, crcRst, crcEnable, frames := Idle, Comma, 0, 0, true, false, [];
    }

    method Edge(fire: bool, crcErr: bool)
      modifies this
      ensures Snapshot() == Step(old(Snapshot()), Input(fire, crcErr), table)
    {
      match mode
      case Idle =>
        crcRst, crcEnable := true, false;
        if fire {
          mode, code, idx := StartOfPacket0, Start, 0;
        } else {
          code, frames, idx, frameIdx := Comma, table, 0, 0;
        }
      case StartOfPacket0 =>
        crcRst, crcEnable := true, false;
        if idx == 2 {
          mode, code := StartOfFrame, StartDelimiter;
          if crcErr {
            crcRst, crcEnable := false, true;
          }
        } else {
          code, idx := Preamble, idx + 1;
        }
      case StartOfFrame =>
        mode, idx := SendFrame, 0;
        code, crcRst, crcEnable := Data(FrameWord(frames, frameIdx, idx)), false, true;
        idx := idx + 1;
      case SendFrame =>
        crcRst := false;
        if idx == FrameLen(frames, frameIdx) {
          mode, idx, crcEnable := Crc0, 0, false;
        } else {
          code, crcEnable := Data(FrameWord(frames, frameIdx, idx)), true;
        }
        idx := idx + 1;
      case Crc0 =>
        mode, crcRst, crcEnable := Crc1, false, false;
      case Crc1 =>
        mode, code, frameIdx, crcRst, crcEnable := EndOfPacket, EndDelimiter, frameIdx + 1, true, false;
      case EndOfPacket =>
        mode, idx, code, crcRst, crcEnable := IfgIdle, 0, Comma, true, false;
        idx := idx + 1;
      case IfgIdle =>
        crcRst, crcEnable := true, false;
        if idx == IFG && frameIdx != |table| {
          mode, code, idx := StartOfPacket0, Start, 0;
        } else if idx == IFG && frameIdx == |table| {
          mode, code, frames, idx, frameIdx := Idle, Comma, table, 0, 0;
        } else {
          code, idx := Comma, idx + 1;
        }
    }
  }

  // ----- Traces -----

  function Run(s: State, inputs: seq<Input>, table: seq<seq<nat>>): State
    decreases |inputs|
  {
    if inputs == [] then s else Run(Step(s, inputs[0], table), inputs[1..], table)
  }

  function Trace(s: State, inputs: seq<Input>, table: seq<seq<nat>>): (outs: seq<Output>)
    ensures |outs| == |inputs|
    decreases |inputs|
  {
    if inputs == [] then []
    else
      var t := Step(s, inputs[0], table);
      [Out(t)] + Trace(t, inputs[1..], table)
  }

  /** From s, the inputs lead to t and show `outs`. */
  ghost predicate Shows(s: State, inputs: seq<Input>, table: seq<seq<nat>>, outs: seq<Output>, t: State) {
    Run(s, inputs, table) == t && Trace(s, inputs, table) == outs
  }

  lemma {:induction false} ShowsThen(s: State, a: seq<Input>, b: seq<Input>, table: seq<seq<nat>>,
                                     x: seq<Output>, t: State, y: seq<Output>, u: State)
    requires Shows(s, a, table, x, t) && Shows(t, b, table, y, u)
    ensures Shows(s, a + b, table, x + y, u)
    decreases |a|
  {
    if a == [] {
      assert a + b == b && x + y == y;
    } else {
      assert (a + b)[1..] == a[1..] + b && (a + b)[0] == a[0];
      ShowsThen(Step(s, a[0], table), a[1..], b, table, x[1..], t, y, u);
      assert x + y == [x[0]] + (x[1..] + y);
    }
  }

  lemma ShowsCons(s: State, inputs: seq<Input>, table: seq<seq<nat>>, outs: seq<Output>, t: State)
    requires inputs != [] && Shows(Step(s, inputs[0], table), inputs[1..], table, outs, t)
    ensures Shows(s, inputs, table, [Out(Step(s, inputs[0], table))] + outs, t)
  {
  }

  lemma ShowsOne(s: State, i: Input, table: seq<seq<nat>>)
    ensures Shows(s, [i], table, [Out(Step(s, i, table))], Step(s, i, table))
  {
  }

  lemma ShowsThree(s: State, inputs: seq<Input>, table: seq<seq<nat>>, t: State, u: State, v: State)
    requires |inputs| == 3
    requires Step(s, inputs[0], table) == t && Step(t, inputs[1], table) == u && Step(u, inputs[2], table) == v
    ensures Shows(s, inputs, table, [Out(t), Out(u), Out(v)], v)
  {
    assert inputs[1..][1..] == [inputs[2]];
    ShowsOne(u, inputs[2], table);
    ShowsCons(t, inputs[1..], table, [Out(v)], v);
    ShowsCons(s, inputs, table, [Out(u), Out(v)], v);
  }

  // ----- What one frame looks like -----

  function Gap(code: Code): Output {
    Output(Symbol.Code(code), true, false)
  }

  function Word(w: nat): Output {
    Output(Symbol.Code(Data(w)), false, true)
  }

  function Words(ws: seq<nat>): (outs: seq<Output>)
    ensures |outs| == |ws| && forall i :: 0 <= i < |ws| ==> outs[i] == Word(ws[i])
  {
    seq(|ws|, i requires 0 <= i < |ws| => Word(ws[i]))
  }

  /** Three of the four preamble words; the first, Start, is shown by the edge that begins the frame. When
      a checksum error is asked for, the checksum generator takes the start delimiter too. */
  function PreambleRest(crcErr: bool): seq<Output> {
    [Gap(Preamble), Gap(Preamble), Output(Symbol.Code(StartDelimiter), !crcErr, crcErr)]
  }

  const TRAILER := [Output(CrcHigh, false, false), Output(CrcLow, false, false), Gap(EndDelimiter)]

  const GAP := [Gap(Comma), Gap(Comma), Gap(Comma), Gap(Comma), Gap(Comma), Gap(Comma)]

  /** A frame after its first preamble word, up to the last of the six idle words. */
  function Body(ws: seq<nat>, crcErr: bool): seq<Output> {
    PreambleRest(crcErr) + Words(ws) + TRAILER + GAP
  }

  /** The words of frame f: before the frames are set, a single zero. */
  function Content(frames: seq<seq<nat>>, f: nat): seq<nat> {
    if f < |frames| then frames[f] else [0]
  }

  /** No frame is empty. */
  predicate Sendable(frames: seq<seq<nat>>) {
    forall f :: 0 <= f < |frames| ==> frames[f] != []
  }

  /** The edges from the first after Start up to the end: frame f and the frames after it, of n. */
  function Edges(frames: seq<seq<nat>>, f: nat, n: nat): nat
    requires f < n
    decreases n - f
  {
    |Content(frames, f)| + 13 + if f + 1 < n then Edges(frames, f + 1, n) else 0
  }

  /** What these edges show. Rx_CRC_Err counts at the third of each frame. */
  function Program(frames: seq<seq<nat>>, f: nat, n: nat, inputs: seq<Input>): (outs: seq<Output>)
    requires f < n && |inputs| == Edges(frames, f, n)
    decreases n - f
  {
    Body(Content(frames, f), inputs[2].crcErr) +
      if f + 1 < n then [Gap(Start)] + Program(frames, f + 1, n, inputs[|Content(frames, f)| + 13..])
      else [Gap(Comma)]
  }

  function At(mode: Mode, idx: nat, f: nat, out: Code, frames: seq<seq<nat>>): State {
    State(mode, idx, f, out, true, false, frames)
  }

  /** After the start delimiter. */
  function Delimited(f: nat, crcErr: bool, frames: seq<seq<nat>>): State {
    State(StartOfFrame, 2, f, StartDelimiter, !crcErr, crcErr, frames)
  }

  lemma PreamblePhase(inputs: seq<Input>, f: nat, frames: seq<seq<nat>>, table: seq<seq<nat>>)
    requires |inputs| == 3
    ensures Shows(At(StartOfPacket0, 0, f, Start, frames), inputs, table, PreambleRest(inputs[2].crcErr),
      Delimited(f, inputs[2].crcErr, frames))
  {
    ShowsThree(At(StartOfPacket0, 0, f, Start, frames), inputs, table,
      At(StartOfPacket0, 1, f, Preamble, frames), At(StartOfPacket0, 2, f, Preamble, frames),
      Delimited(f, inputs[2].crcErr, frames));
  }

  function Sending(f: nat, n: nat, frames: seq<seq<nat>>): State
    requires 0 < n <= |Content(frames, f)|
  {
    State(SendFrame, n, f, Data(Content(frames, f)[n - 1]), false, true, frames)
  }

  lemma {:induction false} SendPhase(inputs: seq<Input>, f: nat, n: nat, frames: seq<seq<nat>>, table: seq<seq<nat>>)
    requires 0 < n <= |Content(frames, f)| && |inputs| == |Content(frames, f)| - n
    ensures var ws := Content(frames, f);
      Shows(Sending(f, n, frames), inputs, table, Words(ws[n..]), Sending(f, |ws|, frames))
    decreases |inputs|
  {
    if inputs != [] {
      var ws := Content(frames, f);
      assert Step(Sending(f, n, frames), inputs[0], table) == Sending(f, n + 1, frames);
      SendPhase(inputs[1..], f, n + 1, frames, table);
      assert Words(ws[n..]) == [Word(ws[n])] + Words(ws[n + 1..]);
    }
  }

  lemma FramePhase(inputs: seq<Input>, f: nat, crcErr: bool, frames: seq<seq<nat>>, table: seq<seq<nat>>)
    requires Sendable(frames) && |inputs| == |Content(frames, f)|
    ensures var ws := Content(frames, f);
      ws != [] && Shows(Delimited(f, crcErr, frames), inputs, table, Words(ws), Sending(f, |ws|, frames))
  {
    var ws := Content(frames, f);
    assert Step(Delimited(f, crcErr, frames), inputs[0], table) == Sending(f, 1, frames);
    SendPhase(inputs[1..], f, 1, frames, table);
    assert Words(ws) == [Word(ws[0])] + Words(ws[1..]);
  }

  lemma TrailerPhase(inputs: seq<Input>, f: nat, frames: seq<seq<nat>>, table: seq<seq<nat>>)
    requires Sendable(frames) && |inputs| == 3
    ensures var ws := Content(frames, f);
      Shows(Sending(f, |ws|, frames), inputs, table, TRAILER, At(EndOfPacket, 1, f + 1, EndDelimiter, frames))
  {
    var ws := Content(frames, f);
    var last := Data(ws[|ws| - 1]);
    ShowsThree(Sending(f, |ws|, frames), inputs, table, State(Crc0, 1, f, last, false, false, frames),
      State(Crc1, 1, f, last, false, false, frames), At(EndOfPacket, 1, f + 1, EndDelimiter, frames));
  }

  lemma GapStep(i: Input, f: nat, n: nat, frames: seq<seq<nat>>, table: seq<seq<nat>>)
    requires 1 <= n < 6
    ensures Step(At(IfgIdle, n, f, Comma, frames), i, table) == At(IfgIdle, n + 1, f, Comma, frames)
    ensures Out(At(IfgIdle, n + 1, f, Comma, frames)) == Gap(Comma) && GAP[n..] == [Gap(Comma)] + GAP[n + 1..]
  {
  }

  lemma {:induction false} GapPhase(inputs: seq<Input>, f: nat, n: nat, frames: seq<seq<nat>>, table: seq<seq<nat>>)
    requires 1 <= n <= 6 && |inputs| == 6 - n
    ensures Shows(At(IfgIdle, n, f, Comma, frames), inputs, table, GAP[n..], At(IfgIdle, 6, f, Comma, frames))
    decreases |inputs|
  {
    if inputs != [] {
      GapStep(inputs[0], f, n, frames, table);
      GapPhase(inputs[1..], f, n + 1, frames, table);
      ShowsCons(At(IfgIdle, n, f, Comma, frames), inputs, table, GAP[n + 1..], At(IfgIdle, 6, f, Comma, frames));
    }
  }

  lemma FirstGap(inputs: seq<Input>, f: nat, frames: seq<seq<nat>>, table: seq<seq<nat>>)
    requires |inputs| == 6
    ensures Shows(At(EndOfPacket, 1, f, EndDelimiter, frames), inputs, table, GAP, At(IfgIdle, 6, f, Comma, frames))
  {
    GapPhase(inputs[1..], f, 1, frames, table);
    assert GAP == [Gap(Comma)] + GAP[1..];
  }

  lemma BodyPhase(inputs: seq<Input>, f: nat, frames: seq<seq<nat>>, table: seq<seq<nat>>)
    requires Sendable(frames) && |inputs| == |Content(frames, f)| + 12
    ensures Shows(At(StartOfPacket0, 0, f, Start, frames), inputs, table,
      Body(Content(frames, f), inputs[2].crcErr), At(IfgIdle, 6, f + 1, Comma, frames))
  {
    var ws := Content(frames, f);
    var n, e := |ws|, inputs[2].crcErr;
    var a, b, c, d := inputs[..3], inputs[3..n + 3], inputs[n + 3..n + 6], inputs[n + 6..];
    PreamblePhase(a, f, frames, table);
    FramePhase(b, f, e, frames, table);
    TrailerPhase(c, f, frames, table);
    FirstGap(d, f + 1, frames, table);
    var s, t, u, v, w := At(StartOfPacket0, 0, f, Start, frames), Delimited(f, e, frames),
      Sending(f, n, frames), At(EndOfPacket, 1, f + 1, EndDelimiter, frames), At(IfgIdle, 6, f + 1, Comma, frames);
    ShowsThen(s, a, b, table, PreambleRest(e), t, Words(ws), u);
    ShowsThen(s, a + b, c, table, PreambleRest(e) + Words(ws), u, TRAILER, v);
    ShowsThen(s, a + b + c, d, table, PreambleRest(e) + Words(ws) + TRAILER, v, GAP, w);
    assert inputs == a + b + c + d;
  }

  lemma {:induction false} ProgramPhase(inputs: seq<Input>, f: nat, frames: seq<seq<nat>>, table: seq<seq<nat>>)
    requires Sendable(frames) && f < |table| && |inputs| == Edges(frames, f, |table|)
    ensures Shows(At(StartOfPacket0, 0, f, Start, frames), inputs, table, Program(frames, f, |table|, inputs),
      At(Idle, 0, 0, Comma, table))
    decreases |table| - f
  {
    var n := |Content(frames, f)| + 12;
    var a, b := inputs[..n], inputs[n..];
    var s, t := At(StartOfPacket0, 0, f, Start, frames), At(IfgIdle, 6, f + 1, Comma, frames);
    var idle := At(Idle, 0, 0, Comma, table);
    var shown := Body(Content(frames, f), inputs[2].crcErr);
    BodyPhase(a, f, frames, table);
    assert inputs == a + b && a[2] == inputs[2];
    if f + 1 < |table| {
      assert b[1..] == inputs[n + 1..];
      ProgramPhase(b[1..], f + 1, frames, table);
      var more := Program(frames, f + 1, |table|, b[1..]);
      ShowsCons(t, b, table, more, idle);
      ShowsThen(s, a, b, table, shown, t, [Gap(Start)] + more, idle);
    } else {
      assert b == [b[0]];
      ShowsOne(t, b[0], table);
      ShowsThen(s, a, b, table, shown, t, [Gap(Comma)], idle);
    }
  }

  /** Every Rx_Fire in the idle state sends as many frames as there are, whatever Rx_Fire does meanwhile:
      per frame four preamble words, the words of the frame, the two halves of the checksum, the end
      delimiter and six idle words. The checksum generator is enabled for the words of the frames, and for
      the start delimiter when Rx_CRC_Err is high there, and for nothing else. Then the entity is idle and
      the frames are set. Fired before they were set, the entity sends single zeros. */
  lemma FireSendsAll(inputs: seq<Input>, frames: seq<seq<nat>>, table: seq<seq<nat>>)
    requires table != [] && Sendable(frames) && |inputs| == 1 + Edges(frames, 0, |table|) && inputs[0].fire
    ensures Shows(At(Idle, 0, 0, Comma, frames), inputs, table,
      [Gap(Start)] + Program(frames, 0, |table|, inputs[1..]), At(Idle, 0, 0, Comma, table))
  {
    ProgramPhase(inputs[1..], 0, frames, table);
    ShowsCons(At(Idle, 0, 0, Comma, frames), inputs, table, Program(frames, 0, |table|, inputs[1..]),
      At(Idle, 0, 0, Comma, table));
  }

  /** One idle edge loads the frames, also into the state of power-up. */
  lemma IdleLoads(s: State, i: Input, table: seq<seq<nat>>)
    requires s.mode == Idle && !i.fire
    ensures Step(s, i, table) == At(Idle, 0, 0, Comma, table)
  {
  }
}
