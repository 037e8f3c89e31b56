/**
 The PTP message codec of sw/embedded/precompiled/wrpc-clb-cal-sw/msg.c: one transmit buffer, which
 five packers rewrite in place, and the unpackers. Lengths and flags are those of clauses 13.3 and
 13.5 to 13.8 of IEEE 1588-2008; the ppsi headers that name them are not part of this model.
 */
module PtpMessages {
  import opened Bytes

  const HEADER_LENGTH: nat := 34
  const SYNC_LENGTH: nat := 44
  const FOLLOW_UP_LENGTH: nat := 44
  const DELAY_REQ_LENGTH: nat := 44
  const DELAY_RESP_LENGTH: nat := 54
  const ANNOUNCE_LENGTH: nat := 64
  const TWO_STEP_FLAG: Byte := 2

  type ClockIdentity = c: seq<Byte> | |c| == 8 witness [0, 0, 0, 0, 0, 0, 0, 0]
  type Mac = m: seq<Byte> | |m| == 6 witness [0, 0, 0, 0, 0, 0]
  type Buffer = b: seq<Byte> | |b| >= ANNOUNCE_LENGTH witness seq(64, i => 0)

  datatype PortIdentity = PortIdentity(clock: ClockIdentity, port: UInt16)
  datatype Timestamp = Timestamp(msb: UInt16, lsb: UInt32, ns: UInt32)

  /** MsgHeader; signed fields are kept as bit patterns. */
  datatype Header = Header(transport: Byte, messageType: Byte, version: Byte, length: UInt16, domain: Byte,
                           flags: seq<Byte>, corrMsb: UInt32, corrLsb: UInt32, source: PortIdentity, sequenceId: UInt16,
                           control: Byte, logInterval: Byte)

  datatype Announcement = Announcement(utcOffset: UInt16, priority1: Byte, clockClass: Byte, accuracy: Byte,
                                       variance: UInt16, priority2: Byte, grandmaster: ClockIdentity,
                                       stepsRemoved: UInt16, timeSource: Byte)

  /** What the packers read of the data sets. */
  datatype Config = Config(version: Byte, domain: Byte, identity: PortIdentity, logSync: Byte, logAnnounce: Byte,
                           logDelayReq: Byte, announcement: Announcement)

  /** What initialisation takes from the options and from the defaults that the ppsi headers name. */
  datatype Defaults = Defaults(version: Byte, logSync: Byte, logAnnounce: Byte, logDelayReq: Byte,
                               announceTimeout: Byte)

  /** The transmit buffer and the sequence counters. */
  datatype Tx = Tx(buf: Buffer, syncSeq: UInt16, announceSeq: UInt16, delaySeq: UInt16)

  // ----- Clock identity -----

  /** The MAC address with 0xff 0xfe in the middle. */
  function ClockIdentityOf(mac: Mac): ClockIdentity {
    [mac[0], mac[1], mac[2], 0xFF, 0xFE, mac[3], mac[4], mac[5]]
  }

  lemma ClockIdentityInjective(a: Mac, b: Mac)
    ensures ClockIdentityOf(a) == ClockIdentityOf(b) <==> a == b
    ensures ClockIdentityOf(a) == a[..3] + [0xFF, 0xFE] + a[3..]
  {
  }

  // ----- Packing -----

  function Next(s: UInt16): UInt16 {
    (s + 1) % 0x1_0000
  }

  /** The type nibble; the other nibble stays. */
  function WithType(buf: Buffer, t: Byte): (r: Buffer)
    requires t < 16
  {
    Put(buf, 0, [buf[0] / 16 * 16 + t])
  }

  function PackTimestamp(buf: Buffer, t: Timestamp): (r: Buffer) {
    Put(Put(Put(buf, 34, Be16(t.msb)), 36, Be32(t.lsb)), 40, Be32(t.ns))
  }

  /** The end of the header. */
  function PackTail(buf: Buffer, seqId: UInt16, control: Byte, interval: Byte): (r: Buffer) {
    Put(Put(Put(buf, 30, Be16(seqId)), 32, [control]), 33, [interval])
  }

  /** The header fields every packer rewrites: type, length, sequence id, control and interval. */
  function PackFields(buf: Buffer, t: Byte, length: UInt16, seqId: UInt16, control: Byte, interval: Byte): (r: Buffer)
    requires t < 16
  {
    PackTail(Put(WithType(buf, t), 2, Be16(length)), seqId, control, interval)
  }

  function PackCorrection(buf: Buffer, msb: UInt32, lsb: UInt32): (r: Buffer) {
    Put(Put(buf, 8, Be32(msb)), 12, Be32(lsb))
  }

  /** msg_pack_header */
  function PackHeader(buf: Buffer, cfg: Config): (r: Buffer) {
    var b1: Buffer := Put(Put(Put(buf, 0, [0]), 1, [cfg.version]), 4, [cfg.domain]);
    var b2: Buffer := PackCorrection(Put(b1, 6, [TWO_STEP_FLAG]), 0, 0);
    Put(Put(Put(b2, 20, cfg.identity.clock), 28, Be16(cfg.identity.port)), 33, [0x7F])
  }

  function PackSync(tx: Tx, cfg: Config, t: Timestamp): Tx {
    var n := Next(tx.syncSeq);
    var b := PackFields(tx.buf, 0x0, SYNC_LENGTH, n, 0x00, cfg.logSync);
    tx.(buf := PackTimestamp(PackCorrection(b, 0, 0), t), syncSeq := n)
  }

  function PackAnnounce(tx: Tx, cfg: Config): Tx {
    var n := Next(tx.announceSeq);
    var b := PackFields(tx.buf, 0xB, ANNOUNCE_LENGTH, n, 0x05, cfg.logAnnounce);
    tx.(buf := PackAnnouncement(PackTimestamp(b, Timestamp(0, 0, 0)), cfg.announcement), announceSeq := n)
  }

  function PackAnnouncement(buf: Buffer, a: Announcement): Buffer {
    var b1: Buffer := Put(Put(Put(buf, 44, Be16(a.utcOffset)), 47, [a.priority1]), 48, [a.clockClass]);
    var b2: Buffer := Put(Put(Put(b1, 49, [a.accuracy]), 50, Be16(a.variance)), 52, [a.priority2]);
    Put(Put(Put(b2, 53, a.grandmaster), 61, Be16(a.stepsRemoved)), 63, [a.timeSource])
  }

  function PackFollowUp(tx: Tx, cfg: Config, t: Timestamp): Tx {
    var b := PackFields(tx.buf, 0x8, FOLLOW_UP_LENGTH, tx.syncSeq, 0x02, cfg.logSync);
    tx.(buf := PackTimestamp(b, t))
  }

  function PackDelayReq(tx: Tx, cfg: Config, t: Timestamp): Tx {
    var n := Next(tx.delaySeq);
    var b := PackFields(tx.buf, 0x1, DELAY_REQ_LENGTH, n, 0x01, 0x7F);
    tx.(buf := PackTimestamp(PackCorrection(b, 0, 0), t), delaySeq := n)
  }

  /** Domain and correction field of the request. */
  function PackCopied(b: Buffer, hdr: Header): (r: Buffer) {
    PackCorrection(Put(b, 4, [hdr.domain]), hdr.corrMsb, hdr.corrLsb)
  }

  /** Time of receipt and requesting port. */
  function PackReceipt(b: Buffer, t: Timestamp, p: PortIdentity): (r: Buffer) {
    Put(Put(PackTimestamp(b, t), 44, p.clock), 52, Be16(p.port))
  }

  function PackDelayResp(tx: Tx, cfg: Config, hdr: Header, t: Timestamp): Tx {
    var b := PackFields(tx.buf, 0x9, DELAY_RESP_LENGTH, hdr.sequenceId, 0x03, cfg.logDelayReq);
    tx.(buf := PackReceipt(PackCopied(b, hdr), t, hdr.source))
  }

  // ----- Unpacking -----

  function UnpackHeader(buf: Buffer): Header {
    Header(buf[0] / 16, buf[0] % 16, buf[1] % 16, FromBe16(Get(buf, 2, 2)), buf[4], Get(buf, 6, 2),
      FromBe32(Get(buf, 8, 4)), FromBe32(Get(buf, 12, 4)),
      PortIdentity(Get(buf, 20, 8), FromBe16(Get(buf, 28, 2))), FromBe16(Get(buf, 30, 2)), buf[32], buf[33])
  }

  function UnpackTimestamp(buf: Buffer): Timestamp {
    Timestamp(FromBe16(Get(buf, 34, 2)), FromBe32(Get(buf, 36, 4)), FromBe32(Get(buf, 40, 4)))
  }

  function UnpackRequester(buf: Buffer): PortIdentity {
    PortIdentity(Get(buf, 44, 8), FromBe16(Get(buf, 52, 2)))
  }

  function UnpackAnnouncement(buf: Buffer): Announcement {
    Announcement(FromBe16(Get(buf, 44, 2)), buf[47], buf[48], buf[49], FromBe16(Get(buf, 50, 2)), buf[52],
      Get(buf, 53, 8), FromBe16(Get(buf, 61, 2)), buf[63])
  }

  // ----- Sequences of packer calls on one buffer -----

  datatype Call =
    | Sync(t: Timestamp)
    | Announce
    | FollowUp(t: Timestamp)
    | DelayReq(t: Timestamp)
    | DelayResp(hdr: Header, t: Timestamp)

  function Issue(tx: Tx, cfg: Config, c: Call): Tx {
    match c
    case Sync(t) => PackSync(tx, cfg, t)
    case Announce => PackAnnounce(tx, cfg)
    case FollowUp(t) => PackFollowUp(tx, cfg, t)
    case DelayReq(t) => PackDelayReq(tx, cfg, t)
    case DelayResp(hdr, t) => PackDelayResp(tx, cfg, hdr, t)
  }

  /** A packer call, and the data sets as they are then; only msg_pack_header reads identity, version and
      domain of them. */
  datatype Issued = Issued(call: Call, cfg: Config)

  /** The transmitter after msg_pack_header and then the calls, the last one last. */
  function IssueAll(start: Tx, cfg: Config, calls: seq<Issued>): Tx {
    if calls == [] then start.(buf := PackHeader(start.buf, cfg))
    else
      var last := calls[|calls| - 1];
      Issue(IssueAll(start, cfg, calls[..|calls| - 1]), last.cfg, last.call)
  }

  function TypeOf(c: Call): Byte {
    match c
    case Sync(_) => 0x0
    case Announce => 0xB
    case FollowUp(_) => 0x8
    case DelayReq(_) => 0x1
    case DelayResp(_, _) => 0x9
  }

  function LengthOf(c: Call): UInt16 {
    match c case Announce => ANNOUNCE_LENGTH case DelayResp(_, _) => DELAY_RESP_LENGTH case _ => SYNC_LENGTH
  }

  function ControlOf(c: Call): Byte {
    match c
    case Sync(_) => 0x00
    case Announce => 0x05
    case FollowUp(_) => 0x02
    case DelayReq(_) => 0x01
    case DelayResp(_, _) => 0x03
  }

  function IntervalOf(c: Call, cfg: Config): Byte {
    match c
    case Announce => cfg.logAnnounce
    case DelayReq(_) => 0x7F
    case DelayResp(_, _) => cfg.logDelayReq
    case _ => cfg.logSync
  }

  /** The domain byte: the last Delay_Resp leaves the requester's domain behind. */
  function DomainAfter(cfg: Config, calls: seq<Issued>): Byte {
    if calls == [] then cfg.domain
    else match calls[|calls| - 1].call
      case DelayResp(hdr, _) => hdr.domain
      case _ => DomainAfter(cfg, calls[..|calls| - 1])
  }

  /** The correction field: Announce and Follow_Up leave that of an earlier message in place. */
  function CorrectionAfter(calls: seq<Issued>): (UInt32, UInt32) {
    if calls == [] then (0, 0)
    else match calls[|calls| - 1].call
      case Sync(_) => (0, 0)
      case DelayReq(_) => (0, 0)
      case DelayResp(hdr, _) => (hdr.corrMsb, hdr.corrLsb)
      case _ => CorrectionAfter(calls[..|calls| - 1])
  }

  function Syncs(calls: seq<Issued>): nat {
    if calls == [] then 0 else Syncs(calls[..|calls| - 1]) + if calls[|calls| - 1].call.Sync? then 1 else 0
  }

  function Announces(calls: seq<Issued>): nat {
    if calls == [] then 0 else Announces(calls[..|calls| - 1]) + if calls[|calls| - 1].call.Announce? then 1 else 0
  }

  function DelayReqs(calls: seq<Issued>): nat {
    if calls == [] then 0 else DelayReqs(calls[..|calls| - 1]) + if calls[|calls| - 1].call.DelayReq? then 1 else 0
  }

  function Plus(s: UInt16, n: nat): UInt16 {
    (s + n) % 0x1_0000
  }

  function SequenceIdOf(start: Tx, calls: seq<Issued>): UInt16
    requires calls != []
  {
    match calls[|calls| - 1].call
    case Announce => Plus(start.announceSeq, Announces(calls))
    case DelayReq(_) => Plus(start.delaySeq, DelayReqs(calls))
    case DelayResp(hdr, _) => hdr.sequenceId
    case _ => Plus(start.syncSeq, Syncs(calls))
  }

  /** The header every receiver reads after the calls. */
  function HeaderAfter(start: Tx, cfg: Config, calls: seq<Issued>): Header
    requires calls != []
  {
    var last := calls[|calls| - 1];
    Header(0, TypeOf(last.call), cfg.version % 16, LengthOf(last.call), DomainAfter(cfg, calls),
      [TWO_STEP_FLAG, start.buf[7]],
      CorrectionAfter(calls).0, CorrectionAfter(calls).1, cfg.identity, SequenceIdOf(start, calls),
      ControlOf(last.call), IntervalOf(last.call, last.cfg))
  }

  // ----- What each write does to the header a receiver reads -----

  lemma PutLength(b: Buffer, v: UInt16)
    ensures UnpackHeader(Put(b, 2, Be16(v))) == UnpackHeader(b).(length := v)
  {
    var r: Buffer := Put(b, 2, Be16(v));
    GetPut(b, 2, Be16(v));
    Be16RoundTrip(v, []);
    OthersAt(b, 2, Be16(v));
  }

  lemma PutSequenceId(b: Buffer, v: UInt16)
    ensures UnpackHeader(Put(b, 30, Be16(v))) == UnpackHeader(b).(sequenceId := v)
  {
    GetPut(b, 30, Be16(v));
    Be16RoundTrip(v, []);
    OthersAt(b, 30, Be16(v));
  }

  lemma PutIdentity(b: Buffer, p: PortIdentity)
    ensures UnpackHeader(Put(Put(b, 20, p.clock), 28, Be16(p.port))) == UnpackHeader(b).(source := p)
  {
    var b1: Buffer := Put(b, 20, p.clock);
    GetPut(b, 20, p.clock);
    OthersAt(b, 20, p.clock);
    GetPut(b1, 28, Be16(p.port));
    Be16RoundTrip(p.port, []);
    OthersAt(b1, 28, Be16(p.port));
    GetOther(b1, 28, Be16(p.port), 20, 8);
  }

  lemma PutByte(b: Buffer, at: nat, v: Byte)
    requires at in {0, 1, 4, 32, 33}
    ensures UnpackHeader(Put(b, at, [v])) == match at
      case 0 => UnpackHeader(b).(transport := v / 16, messageType := v % 16)
      case 1 => UnpackHeader(b).(version := v % 16)
      case 4 => UnpackHeader(b).(domain := v)
      case 32 => UnpackHeader(b).(control := v)
      case _ => UnpackHeader(b).(logInterval := v)
  {
    OthersAt(b, at, [v]);
  }

  lemma PutFlag(b: Buffer, v: Byte)
    ensures UnpackHeader(Put(b, 6, [v])) == UnpackHeader(b).(flags := [v, b[7]])
  {
    OthersAt(b, 6, [v]);
    assert Get(Put(b, 6, [v]), 6, 2) == [v, b[7]];
  }

  /** The multi-byte fields of the header that a write does not touch. */
  lemma OthersAt(b: Buffer, off: nat, data: seq<Byte>)
    requires off + |data| <= |b|
    ensures var r := Put(b, off, data);
      && (4 <= off || off + |data| <= 2 ==> Get(r, 2, 2) == Get(b, 2, 2))
      && (8 <= off || off + |data| <= 6 ==> Get(r, 6, 2) == Get(b, 6, 2))
      && (12 <= off || off + |data| <= 8 ==> Get(r, 8, 4) == Get(b, 8, 4))
      && (16 <= off || off + |data| <= 12 ==> Get(r, 12, 4) == Get(b, 12, 4))
      && (28 <= off || off + |data| <= 20 ==> Get(r, 20, 8) == Get(b, 20, 8))
      && (30 <= off || off + |data| <= 28 ==> Get(r, 28, 2) == Get(b, 28, 2))
      && (32 <= off || off + |data| <= 30 ==> Get(r, 30, 2) == Get(b, 30, 2))
  {
  }

  /** Writes behind the header leave it alone. */
  lemma PutBody(b: Buffer, off: nat, data: seq<Byte>)
    requires HEADER_LENGTH <= off && off + |data| <= |b|
    ensures UnpackHeader(Put(b, off, data)) == UnpackHeader(b)
  {
    OthersAt(b, off, data);
  }

  lemma TypeByte(x: Byte, t: Byte)
    requires t < 16
    ensures (x / 16 * 16 + t) / 16 == x / 16 && (x / 16 * 16 + t) % 16 == t
  {
  }

  lemma FieldsWrite(b: Buffer, t: Byte, length: UInt16, seqId: UInt16, control: Byte, interval: Byte)
    requires t < 16
    ensures UnpackHeader(PackFields(b, t, length, seqId, control, interval)) ==
      UnpackHeader(b).(messageType := t, length := length, sequenceId := seqId, control := control,
        logInterval := interval)
  {
    TypeByte(b[0], t);
    PutByte(b, 0, b[0] / 16 * 16 + t);
    var b1 := WithType(b, t);
    PutLength(b1, length);
    var b2: Buffer := Put(b1, 2, Be16(length));
    PutSequenceId(b2, seqId);
    var b3: Buffer := Put(b2, 30, Be16(seqId));
    PutByte(b3, 32, control);
    PutByte(Put(b3, 32, [control]), 33, interval);
  }

  lemma PutCorrMsb(b: Buffer, v: UInt32)
    ensures UnpackHeader(Put(b, 8, Be32(v))) == UnpackHeader(b).(corrMsb := v)
  {
    GetPut(b, 8, Be32(v));
    Be32RoundTrip(v);
    OthersAt(b, 8, Be32(v));
  }

  lemma PutCorrLsb(b: Buffer, v: UInt32)
    ensures UnpackHeader(Put(b, 12, Be32(v))) == UnpackHeader(b).(corrLsb := v)
  {
    GetPut(b, 12, Be32(v));
    Be32RoundTrip(v);
    OthersAt(b, 12, Be32(v));
  }

  lemma CorrectionWrite(b: Buffer, msb: UInt32, lsb: UInt32)
    ensures UnpackHeader(PackCorrection(b, msb, lsb)) == UnpackHeader(b).(corrMsb := msb, corrLsb := lsb)
  {
    PutCorrMsb(b, msb);
    PutCorrLsb(Put(b, 8, Be32(msb)), lsb);
  }

  lemma TimestampWrite(b: Buffer, t: Timestamp)
    ensures UnpackHeader(PackTimestamp(b, t)) == UnpackHeader(b)
  {
    var b1: Buffer := Put(b, 34, Be16(t.msb));
    var b2: Buffer := Put(b1, 36, Be32(t.lsb));
    PutBody(b, 34, Be16(t.msb));
    PutBody(b1, 36, Be32(t.lsb));
    PutBody(b2, 40, Be32(t.ns));
  }

  lemma AnnouncementWrite(b: Buffer, a: Announcement)
    ensures UnpackHeader(PackAnnouncement(b, a)) == UnpackHeader(b)
  {
    var b1: Buffer := Put(b, 44, Be16(a.utcOffset));
    var b2: Buffer := Put(b1, 47, [a.priority1]);
    var b3: Buffer := Put(b2, 48, [a.clockClass]);
    var b4: Buffer := Put(b3, 49, [a.accuracy]);
    var b5: Buffer := Put(b4, 50, Be16(a.variance));
    var b6: Buffer := Put(b5, 52, [a.priority2]);
    var b7: Buffer := Put(b6, 53, a.grandmaster);
    var b8: Buffer := Put(b7, 61, Be16(a.stepsRemoved));
    PutBody(b, 44, Be16(a.utcOffset));
    PutBody(b1, 47, [a.priority1]);
    PutBody(b2, 48, [a.clockClass]);
    PutBody(b3, 49, [a.accuracy]);
    PutBody(b4, 50, Be16(a.variance));
    PutBody(b5, 52, [a.priority2]);
    PutBody(b6, 53, a.grandmaster);
    PutBody(b7, 61, Be16(a.stepsRemoved));
    PutBody(b8, 63, [a.timeSource]);
  }

  /** msg_pack_header sets everything but the length, the sequence id and the control field. */
  lemma HeaderWrite(b: Buffer, cfg: Config)
    ensures UnpackHeader(PackHeader(b, cfg)) ==
      UnpackHeader(b).(transport := 0, messageType := 0, version := cfg.version % 16, domain := cfg.domain,
        flags := [TWO_STEP_FLAG, b[7]], corrMsb := 0, corrLsb := 0, source := cfg.identity, logInterval := 0x7F)
  {
    var b1: Buffer := Put(b, 0, [0]);
    var b2: Buffer := Put(b1, 1, [cfg.version]);
    var b3: Buffer := Put(b2, 4, [cfg.domain]);
    var b4: Buffer := Put(b3, 6, [TWO_STEP_FLAG]);
    var b5 := PackCorrection(b4, 0, 0);
    PutByte(b, 0, 0);
    PutByte(b1, 1, cfg.version);
    PutByte(b2, 4, cfg.domain);
    PutFlag(b3, TWO_STEP_FLAG);
    CorrectionWrite(b4, 0, 0);
    PutIdentity(b5, cfg.identity);
    PutByte(Put(Put(b5, 20, cfg.identity.clock), 28, Be16(cfg.identity.port)), 33, 0x7F);
  }

  // ----- What a packer does to the header -----

  /** The sequence id a call writes. */
  function SeqField(tx: Tx, c: Call): UInt16 {
    match c
    case Sync(_) => Next(tx.syncSeq)
    case Announce => Next(tx.announceSeq)
    case FollowUp(_) => tx.syncSeq
    case DelayReq(_) => Next(tx.delaySeq)
    case DelayResp(hdr, _) => hdr.sequenceId
  }

  /** A packer rewrites type, length, sequence id, control and interval; Sync and Delay_Req clear the
      correction field, Delay_Resp copies it, and the domain, from the request; nothing else changes. */
  function AfterCall(h: Header, seqId: UInt16, cfg: Config, c: Call): Header {
    var h' := h.(messageType := TypeOf(c), length := LengthOf(c), sequenceId := seqId, control := ControlOf(c),
                 logInterval := IntervalOf(c, cfg));
    match c
    case Sync(_) => h'.(corrMsb := 0, corrLsb := 0)
    case DelayReq(_) => h'.(corrMsb := 0, corrLsb := 0)
    case DelayResp(hdr, _) => h'.(domain := hdr.domain, corrMsb := hdr.corrMsb, corrLsb := hdr.corrLsb)
    case _ => h'
  }

  lemma SyncWrites(tx: Tx, cfg: Config, t: Timestamp)
    ensures UnpackHeader(PackSync(tx, cfg, t).buf) == AfterCall(UnpackHeader(tx.buf), Next(tx.syncSeq), cfg, Sync(t))
  {
    var n := Next(tx.syncSeq);
    var b := PackFields(tx.buf, 0x0, SYNC_LENGTH, n, 0x00, cfg.logSync);
    FieldsWrite(tx.buf, 0x0, SYNC_LENGTH, n, 0x00, cfg.logSync);
    CorrectionWrite(b, 0, 0);
    TimestampWrite(PackCorrection(b, 0, 0), t);
  }

  lemma DelayReqWrites(tx: Tx, cfg: Config, t: Timestamp)
    ensures UnpackHeader(PackDelayReq(tx, cfg, t).buf) ==
      AfterCall(UnpackHeader(tx.buf), Next(tx.delaySeq), cfg, DelayReq(t))
  {
    var n := Next(tx.delaySeq);
    var b := PackFields(tx.buf, 0x1, DELAY_REQ_LENGTH, n, 0x01, 0x7F);
    FieldsWrite(tx.buf, 0x1, DELAY_REQ_LENGTH, n, 0x01, 0x7F);
    CorrectionWrite(b, 0, 0);
    TimestampWrite(PackCorrection(b, 0, 0), t);
  }

  lemma FollowUpWrites(tx: Tx, cfg: Config, t: Timestamp)
    ensures UnpackHeader(PackFollowUp(tx, cfg, t).buf) == AfterCall(UnpackHeader(tx.buf), tx.syncSeq, cfg, FollowUp(t))
  {
    FieldsWrite(tx.buf, 0x8, FOLLOW_UP_LENGTH, tx.syncSeq, 0x02, cfg.logSync);
    TimestampWrite(PackFields(tx.buf, 0x8, FOLLOW_UP_LENGTH, tx.syncSeq, 0x02, cfg.logSync), t);
  }

  lemma AnnounceWrites(tx: Tx, cfg: Config)
    ensures UnpackHeader(PackAnnounce(tx, cfg).buf) ==
      AfterCall(UnpackHeader(tx.buf), Next(tx.announceSeq), cfg, Announce)
  {
    var n := Next(tx.announceSeq);
    var b := PackFields(tx.buf, 0xB, ANNOUNCE_LENGTH, n, 0x05, cfg.logAnnounce);
    FieldsWrite(tx.buf, 0xB, ANNOUNCE_LENGTH, n, 0x05, cfg.logAnnounce);
    TimestampWrite(b, Timestamp(0, 0, 0));
    AnnouncementWrite(PackTimestamp(b, Timestamp(0, 0, 0)), cfg.announcement);
  }

  lemma CopiedWrite(b: Buffer, hdr: Header)
    ensures UnpackHeader(PackCopied(b, hdr)) ==
      UnpackHeader(b).(domain := hdr.domain, corrMsb := hdr.corrMsb, corrLsb := hdr.corrLsb)
  {
    PutByte(b, 4, hdr.domain);
    CorrectionWrite(Put(b, 4, [hdr.domain]), hdr.corrMsb, hdr.corrLsb);
  }

  lemma ReceiptWrite(b: Buffer, t: Timestamp, p: PortIdentity)
    ensures UnpackHeader(PackReceipt(b, t, p)) == UnpackHeader(b)
  {
    var b1 := PackTimestamp(b, t);
    TimestampWrite(b, t);
    PutBody(b1, 44, p.clock);
    PutBody(Put(b1, 44, p.clock), 52, Be16(p.port));
  }

  lemma DelayRespWrites(tx: Tx, cfg: Config, hdr: Header, t: Timestamp)
    ensures UnpackHeader(PackDelayResp(tx, cfg, hdr, t).buf) ==
      AfterCall(UnpackHeader(tx.buf), hdr.sequenceId, cfg, DelayResp(hdr, t))
  {
    var b := PackFields(tx.buf, 0x9, DELAY_RESP_LENGTH, hdr.sequenceId, 0x03, cfg.logDelayReq);
    FieldsWrite(tx.buf, 0x9, DELAY_RESP_LENGTH, hdr.sequenceId, 0x03, cfg.logDelayReq);
    CopiedWrite(b, hdr);
    ReceiptWrite(PackCopied(b, hdr), t, hdr.source);
  }

  lemma CallWrites(tx: Tx, cfg: Config, c: Call)
    ensures UnpackHeader(Issue(tx, cfg, c).buf) == AfterCall(UnpackHeader(tx.buf), SeqField(tx, c), cfg, c)
  {
    match c
    case Sync(t) => SyncWrites(tx, cfg, t);
    case Announce => AnnounceWrites(tx, cfg);
    case FollowUp(t) => FollowUpWrites(tx, cfg, t);
    case DelayReq(t) => DelayReqWrites(tx, cfg, t);
    case DelayResp(hdr, t) => DelayRespWrites(tx, cfg, hdr, t);
  }

  lemma PlusNext(s: UInt16, n: nat)
    ensures Next(Plus(s, n)) == Plus(s, n + 1)
  {
  }

  /** A call's effect on the counters. */
  ghost predicate CountsOn(tx: Tx, tx': Tx, c: Call) {
    && tx'.syncSeq == (if c.Sync? then Next(tx.syncSeq) else tx.syncSeq)
    && tx'.announceSeq == (if c.Announce? then Next(tx.announceSeq) else tx.announceSeq)
    && tx'.delaySeq == (if c.DelayReq? then Next(tx.delaySeq) else tx.delaySeq)
  }

  lemma CallCounts(tx: Tx, cfg: Config, c: Call)
    ensures CountsOn(tx, Issue(tx, cfg, c), c)
  {
  }

  ghost predicate Counted(start: Tx, tx: Tx, calls: seq<Issued>) {
    && tx.syncSeq == Plus(start.syncSeq, Syncs(calls))
    && tx.announceSeq == Plus(start.announceSeq, Announces(calls))
    && tx.delaySeq == Plus(start.delaySeq, DelayReqs(calls))
  }

  lemma CountedOn(start: Tx, tx: Tx, tx': Tx, calls: seq<Issued>)
    requires calls != []
    requires Counted(start, tx, calls[..|calls| - 1]) && CountsOn(tx, tx', calls[|calls| - 1].call)
    ensures Counted(start, tx', calls)
  {
    var before := calls[..|calls| - 1];
    PlusNext(start.syncSeq, Syncs(before));
    PlusNext(start.announceSeq, Announces(before));
    PlusNext(start.delaySeq, DelayReqs(before));
  }

  /** The counters after the calls: the n-th Sync gets the n-th id after the start, whatever is packed between. */
  lemma {:induction false} Counters(start: Tx, cfg: Config, calls: seq<Issued>)
    ensures Counted(start, IssueAll(start, cfg, calls), calls)
    decreases |calls|
  {
    if calls != [] {
      var tx := IssueAll(start, cfg, calls[..|calls| - 1]);
      Counters(start, cfg, calls[..|calls| - 1]);
      var last := calls[|calls| - 1];
      CallCounts(tx, last.cfg, last.call);
      CountedOn(start, tx, Issue(tx, last.cfg, last.call), calls);
    }
  }

  /** What the calls leave in the header fields that not every packer writes. */
  ghost predicate Lasting(h: Header, start: Tx, cfg: Config, calls: seq<Issued>) {
    && h.transport == 0 && h.version == cfg.version % 16 && h.flags == [TWO_STEP_FLAG, start.buf[7]]
    && h.source == cfg.identity && h.domain == DomainAfter(cfg, calls)
    && h.corrMsb == CorrectionAfter(calls).0 && h.corrLsb == CorrectionAfter(calls).1
  }

  lemma LastingOn(h: Header, seqId: UInt16, start: Tx, cfg: Config, calls: seq<Issued>)
    requires calls != [] && Lasting(h, start, cfg, calls[..|calls| - 1])
    ensures Lasting(AfterCall(h, seqId, calls[|calls| - 1].cfg, calls[|calls| - 1].call), start, cfg, calls)
  {
  }

  lemma {:induction false} LastingAfter(start: Tx, cfg: Config, calls: seq<Issued>)
    ensures Lasting(UnpackHeader(IssueAll(start, cfg, calls).buf), start, cfg, calls)
    decreases |calls|
  {
    if calls == [] {
      HeaderWrite(start.buf, cfg);
    } else {
      var tx, c := IssueAll(start, cfg, calls[..|calls| - 1]), calls[|calls| - 1];
      LastingAfter(start, cfg, calls[..|calls| - 1]);
      CallWrites(tx, c.cfg, c.call);
      LastingOn(UnpackHeader(tx.buf), SeqField(tx, c.call), start, cfg, calls);
    }
  }

  lemma SeqFieldCounted(start: Tx, tx: Tx, calls: seq<Issued>)
    requires calls != [] && Counted(start, tx, calls[..|calls| - 1])
    ensures SeqField(tx, calls[|calls| - 1].call) == SequenceIdOf(start, calls)
  {
    var before := calls[..|calls| - 1];
    PlusNext(start.syncSeq, Syncs(before));
    PlusNext(start.announceSeq, Announces(before));
    PlusNext(start.delaySeq, DelayReqs(before));
  }

  lemma LastWritten(h: Header, seqId: UInt16, start: Tx, cfg: Config, calls: seq<Issued>)
    requires calls != [] && seqId == SequenceIdOf(start, calls)
    requires Lasting(AfterCall(h, seqId, calls[|calls| - 1].cfg, calls[|calls| - 1].call), start, cfg, calls)
    ensures AfterCall(h, seqId, calls[|calls| - 1].cfg, calls[|calls| - 1].call) == HeaderAfter(start, cfg, calls)
  {
  }

  /** After msg_pack_header and any calls, the buffer unpacks to exactly this header: the identity, the
      version and the flags are the port's own, the other fields those of the last call, except that
      the domain is that of the last Delay_Resp and the correction field may be an earlier one. */
  lemma HeaderUnpacks(start: Tx, cfg: Config, calls: seq<Issued>)
    requires calls != []
    ensures UnpackHeader(IssueAll(start, cfg, calls).buf) == HeaderAfter(start, cfg, calls)
  {
    var tx, c := IssueAll(start, cfg, calls[..|calls| - 1]), calls[|calls| - 1];
    LastingAfter(start, cfg, calls);
    CallWrites(tx, c.cfg, c.call);
    Counters(start, cfg, calls[..|calls| - 1]);
    SeqFieldCounted(start, tx, calls);
    LastWritten(UnpackHeader(tx.buf), SeqField(tx, c.call), start, cfg, calls);
  }

  // ----- Bytes no packer writes -----

  /** Version, flags and source port identity, and the reserved bytes between them. */
  predicate Untouched(at: nat) {
    at == 1 || at == 5 || at == 6 || at == 7 || 16 <= at < 30
  }

  lemma PutElsewhere(b: Buffer, off: nat, data: seq<Byte>, at: nat)
    requires off + |data| <= |b| && at < |b| && !(off <= at < off + |data|)
    ensures Put(b, off, data)[at] == b[at]
  {
  }

  lemma FieldsLeave(b: Buffer, t: Byte, length: UInt16, seqId: UInt16, control: Byte, interval: Byte, at: nat)
    requires t < 16 && Untouched(at)
    ensures PackFields(b, t, length, seqId, control, interval)[at] == b[at]
  {
  }

  lemma CorrectionLeaves(b: Buffer, msb: UInt32, lsb: UInt32, at: nat)
    requires Untouched(at)
    ensures PackCorrection(b, msb, lsb)[at] == b[at]
  {
  }

  lemma TimestampLeaves(b: Buffer, t: Timestamp, at: nat)
    requires at < 34
    ensures PackTimestamp(b, t)[at] == b[at]
  {
  }

  lemma AnnouncementLeaves(b: Buffer, a: Announcement, at: nat)
    requires at < 34
    ensures PackAnnouncement(b, a)[at] == b[at]
  {
  }

  lemma ReceiptLeaves(b: Buffer, t: Timestamp, p: PortIdentity, at: nat)
    requires at < 34
    ensures PackReceipt(b, t, p)[at] == b[at]
  {
  }

  lemma CallLeaves(tx: Tx, cfg: Config, c: Call, at: nat)
    requires Untouched(at)
    ensures Issue(tx, cfg, c).buf[at] == tx.buf[at]
  {
    var b := PackFields(tx.buf, TypeOf(c), LengthOf(c), SeqField(tx, c), ControlOf(c), IntervalOf(c, cfg));
    FieldsLeave(tx.buf, TypeOf(c), LengthOf(c), SeqField(tx, c), ControlOf(c), IntervalOf(c, cfg), at);
    match c
    case Sync(t) => CorrectionLeaves(b, 0, 0, at); TimestampLeaves(PackCorrection(b, 0, 0), t, at);
    case Announce =>
      TimestampLeaves(b, Timestamp(0, 0, 0), at);
      AnnouncementLeaves(PackTimestamp(b, Timestamp(0, 0, 0)), cfg.announcement, at);
    case FollowUp(t) => TimestampLeaves(b, t, at);
    case DelayReq(t) => CorrectionLeaves(b, 0, 0, at); TimestampLeaves(PackCorrection(b, 0, 0), t, at);
    case DelayResp(hdr, t) =>
      PutElsewhere(b, 4, [hdr.domain], at);
      CorrectionLeaves(Put(b, 4, [hdr.domain]), hdr.corrMsb, hdr.corrLsb, at);
      ReceiptLeaves(PackCopied(b, hdr), t, hdr.source, at);
  }

  /** These bytes are for ever what msg_pack_header left. */
  lemma {:induction false} IdentityStays(start: Tx, cfg: Config, calls: seq<Issued>, at: nat)
    requires Untouched(at)
    ensures IssueAll(start, cfg, calls).buf[at] == PackHeader(start.buf, cfg)[at]
    decreases |calls|
  {
    if calls != [] {
      IdentityStays(start, cfg, calls[..|calls| - 1], at);
      CallLeaves(IssueAll(start, cfg, calls[..|calls| - 1]), calls[|calls| - 1].cfg, calls[|calls| - 1].call, at);
    }
  }

  // ----- Message bodies -----

  lemma PackTimestampUnpacks(b: Buffer, t: Timestamp)
    ensures UnpackTimestamp(PackTimestamp(b, t)) == t
  {
  }

  lemma PutBehindTimestamp(b: Buffer, off: nat, data: seq<Byte>)
    requires 44 <= off && off + |data| <= |b|
    ensures UnpackTimestamp(Put(b, off, data)) == UnpackTimestamp(b)
  {
    GetOther(b, off, data, 34, 2);
    GetOther(b, off, data, 36, 4);
    GetOther(b, off, data, 40, 4);
  }

  lemma AnnouncementTimestamp(b: Buffer, a: Announcement)
    ensures UnpackTimestamp(PackAnnouncement(b, a)) == UnpackTimestamp(b)
  {
    var b1: Buffer := Put(b, 44, Be16(a.utcOffset));
    var b2: Buffer := Put(b1, 47, [a.priority1]);
    var b3: Buffer := Put(b2, 48, [a.clockClass]);
    var b4: Buffer := Put(b3, 49, [a.accuracy]);
    var b5: Buffer := Put(b4, 50, Be16(a.variance));
    var b6: Buffer := Put(b5, 52, [a.priority2]);
    var b7: Buffer := Put(b6, 53, a.grandmaster);
    var b8: Buffer := Put(b7, 61, Be16(a.stepsRemoved));
    PutBehindTimestamp(b, 44, Be16(a.utcOffset));
    PutBehindTimestamp(b1, 47, [a.priority1]);
    PutBehindTimestamp(b2, 48, [a.clockClass]);
    PutBehindTimestamp(b3, 49, [a.accuracy]);
    PutBehindTimestamp(b4, 50, Be16(a.variance));
    PutBehindTimestamp(b5, 52, [a.priority2]);
    PutBehindTimestamp(b6, 53, a.grandmaster);
    PutBehindTimestamp(b7, 61, Be16(a.stepsRemoved));
    PutBehindTimestamp(b8, 63, [a.timeSource]);
  }

  lemma ReceiptTimestamp(b: Buffer, t: Timestamp, p: PortIdentity)
    ensures UnpackTimestamp(PackReceipt(b, t, p)) == t
  {
  }

  /** Every message's timestamp comes back; an Announce carries zero. */
  lemma BodyUnpacks(tx: Tx, cfg: Config, c: Call)
    ensures UnpackTimestamp(Issue(tx, cfg, c).buf) == if c.Announce? then Timestamp(0, 0, 0) else c.t
  {
    match c
    case Sync(t) =>
      PackTimestampUnpacks(PackCorrection(PackFields(tx.buf, 0x0, SYNC_LENGTH, Next(tx.syncSeq), 0x00, cfg.logSync),
        0, 0), t);
    case Announce =>
      var b := PackFields(tx.buf, 0xB, ANNOUNCE_LENGTH, Next(tx.announceSeq), 0x05, cfg.logAnnounce);
      PackTimestampUnpacks(b, Timestamp(0, 0, 0));
      AnnouncementTimestamp(PackTimestamp(b, Timestamp(0, 0, 0)), cfg.announcement);
    case FollowUp(t) =>
      PackTimestampUnpacks(PackFields(tx.buf, 0x8, FOLLOW_UP_LENGTH, tx.syncSeq, 0x02, cfg.logSync), t);
    case DelayReq(t) =>
      PackTimestampUnpacks(PackCorrection(PackFields(tx.buf, 0x1, DELAY_REQ_LENGTH, Next(tx.delaySeq), 0x01, 0x7F),
        0, 0), t);
    case DelayResp(hdr, t) =>
      var b := PackFields(tx.buf, 0x9, DELAY_RESP_LENGTH, hdr.sequenceId, 0x03, cfg.logDelayReq);
      ReceiptTimestamp(PackCopied(b, hdr), t, hdr.source);
  }

  lemma UtcOffsetKept(b: Buffer, a: Announcement)
    ensures Get(PackAnnouncement(b, a), 44, 2) == Be16(a.utcOffset)
  {
    var b1: Buffer := Put(b, 44, Be16(a.utcOffset));
    var b2: Buffer := Put(b1, 47, [a.priority1]);
    var b3: Buffer := Put(b2, 48, [a.clockClass]);
    var b4: Buffer := Put(b3, 49, [a.accuracy]);
    var b5: Buffer := Put(b4, 50, Be16(a.variance));
    var b6: Buffer := Put(b5, 52, [a.priority2]);
    var b7: Buffer := Put(b6, 53, a.grandmaster);
    var b8: Buffer := Put(b7, 61, Be16(a.stepsRemoved));
    GetPut(b, 44, Be16(a.utcOffset));
    GetOther(b1, 47, [a.priority1], 44, 2);
    GetOther(b2, 48, [a.clockClass], 44, 2);
    GetOther(b3, 49, [a.accuracy], 44, 2);
    GetOther(b4, 50, Be16(a.variance), 44, 2);
    GetOther(b5, 52, [a.priority2], 44, 2);
    GetOther(b6, 53, a.grandmaster, 44, 2);
    GetOther(b7, 61, Be16(a.stepsRemoved), 44, 2);
    GetOther(b8, 63, [a.timeSource], 44, 2);
  }

  lemma AnnouncementUnpacks(tx: Tx, cfg: Config)
    ensures UnpackAnnouncement(PackAnnounce(tx, cfg).buf) == cfg.announcement
  {
    var a := cfg.announcement;
    var b0 := PackFields(tx.buf, 0xB, ANNOUNCE_LENGTH, Next(tx.announceSeq), 0x05, cfg.logAnnounce);
    AnnouncementReads(PackTimestamp(b0, Timestamp(0, 0, 0)), a);
  }

  lemma AnnouncementReads(b0: Buffer, a: Announcement)
    ensures UnpackAnnouncement(PackAnnouncement(b0, a)) == a
  {
    var b := PackAnnouncement(b0, a);
    UtcOffsetKept(b0, a);
    assert Get(b, 50, 2) == Be16(a.variance);
    assert Get(b, 53, 8) == a.grandmaster;
    assert Get(b, 61, 2) == Be16(a.stepsRemoved);
    Be16RoundTrip(a.utcOffset, []);
    Be16RoundTrip(a.variance, []);
    Be16RoundTrip(a.stepsRemoved, []);
  }

  lemma RequesterUnpacks(tx: Tx, cfg: Config, hdr: Header, t: Timestamp)
    ensures UnpackRequester(PackDelayResp(tx, cfg, hdr, t).buf) == hdr.source
  {
  }

  // ----- Delay exchange -----

  /** msg_unpack_header returns 0: the message is not from this clock. */
  predicate Accepts(buf: Buffer, own: ClockIdentity) {
    UnpackHeader(buf).source.clock != own
  }

  /** A port never accepts what it sent, whatever it has packed before. */
  lemma OwnRejected(start: Tx, cfg: Config, calls: seq<Issued>)
    requires calls != []
    ensures !Accepts(IssueAll(start, cfg, calls).buf, cfg.identity.clock)
  {
    HeaderUnpacks(start, cfg, calls);
  }

  lemma LastIssued(a: Tx, cfg: Config, calls: seq<Issued>, c: Issued)
    ensures IssueAll(a, cfg, calls + [c]) == Issue(IssueAll(a, cfg, calls), c.cfg, c.call)
  {
    assert (calls + [c])[..|calls|] == calls;
  }

  lemma RequestHeader(a: Tx, cfg: Config, calls: seq<Issued>, now: Config, sent: Timestamp)
    ensures var h := HeaderAfter(a, cfg, calls + [Issued(DelayReq(sent), now)]);
      h.messageType == 0x1 && h.source == cfg.identity && h.sequenceId == Plus(a.delaySeq, DelayReqs(calls) + 1)
  {
    var all := calls + [Issued(DelayReq(sent), now)];
    assert all[..|calls|] == calls;
    assert DelayReqs(all) == DelayReqs(calls) + 1;
  }

  lemma RequestPacked(a: Tx, cfg: Config, calls: seq<Issued>, now: Config, sent: Timestamp)
    ensures var b := IssueAll(a, cfg, calls + [Issued(DelayReq(sent), now)]).buf;
      && UnpackHeader(b).messageType == 0x1 && UnpackHeader(b).source == cfg.identity
      && UnpackHeader(b).sequenceId == Plus(a.delaySeq, DelayReqs(calls) + 1)
      && UnpackTimestamp(b) == sent
  {
    HeaderUnpacks(a, cfg, calls + [Issued(DelayReq(sent), now)]);
    RequestHeader(a, cfg, calls, now, sent);
    LastIssued(a, cfg, calls, Issued(DelayReq(sent), now));
    BodyUnpacks(IssueAll(a, cfg, calls), now, DelayReq(sent));
  }

  lemma ResponsePacked(a: Tx, cfg: Config, calls: seq<Issued>, now: Config, hdr: Header, received: Timestamp)
    ensures var b := IssueAll(a, cfg, calls + [Issued(DelayResp(hdr, received), now)]).buf; var h := UnpackHeader(b);
      && h.messageType == 0x9 && h.source == cfg.identity && h.sequenceId == hdr.sequenceId
      && h.corrMsb == hdr.corrMsb && h.corrLsb == hdr.corrLsb && h.domain == hdr.domain
      && UnpackRequester(b) == hdr.source && UnpackTimestamp(b) == received
  {
    var last := Issued(DelayResp(hdr, received), now);
    HeaderUnpacks(a, cfg, calls + [last]);
    assert (calls + [last])[..|calls|] == calls;
    LastIssued(a, cfg, calls, last);
    RequesterUnpacks(IssueAll(a, cfg, calls), now, hdr, received);
    BodyUnpacks(IssueAll(a, cfg, calls), now, DelayResp(hdr, received));
  }

  /** A Delay_Req of a port with one MAC address is accepted by a port with another, and the Delay_Resp
      it packs for it is accepted back: it names the requester, repeats the sequence id and the
      correction field of the request, and carries the time of receipt. Both ports may have packed
      anything before. */
  lemma DelayExchange(a: Tx, cfgA: Config, macA: Mac, callsA: seq<Issued>, nowA: Config, sent: Timestamp,
                      b: Tx, cfgB: Config, macB: Mac, callsB: seq<Issued>, nowB: Config, received: Timestamp)
    requires macA != macB
    requires cfgA.identity.clock == ClockIdentityOf(macA) && cfgB.identity.clock == ClockIdentityOf(macB)
    ensures var request := IssueAll(a, cfgA, callsA + [Issued(DelayReq(sent), nowA)]).buf;
      var hdr := UnpackHeader(request);
      var response := IssueAll(b, cfgB, callsB + [Issued(DelayResp(hdr, received), nowB)]).buf;
      var answer := UnpackHeader(response);
      && Accepts(request, cfgB.identity.clock) && hdr.messageType == 0x1
      && Accepts(response, cfgA.identity.clock) && answer.messageType == 0x9
      && UnpackRequester(response) == cfgA.identity
      && answer.sequenceId == hdr.sequenceId == Plus(a.delaySeq, DelayReqs(callsA) + 1)
      && answer.corrMsb == hdr.corrMsb && answer.corrLsb == hdr.corrLsb && answer.domain == hdr.domain
      && UnpackTimestamp(request) == sent && UnpackTimestamp(response) == received
  {
    var request := IssueAll(a, cfgA, callsA + [Issued(DelayReq(sent), nowA)]).buf;
    RequestPacked(a, cfgA, callsA, nowA, sent);
    ResponsePacked(b, cfgB, callsB, nowB, UnpackHeader(request), received);
    ClockIdentityInjective(macA, macB);
  }

  /** An Announce or a Follow_Up goes out with a correction field other than zero if and only if, of the
      messages that write the field, the last one packed was a Delay_Resp with such a field. */
  lemma StaleCorrection(start: Tx, cfg: Config, calls: seq<Issued>, c: Issued)
    requires c.call.Announce? || c.call.FollowUp?
    ensures var h := UnpackHeader(IssueAll(start, cfg, calls + [c]).buf);
      h.corrMsb == CorrectionAfter(calls).0 && h.corrLsb == CorrectionAfter(calls).1
    ensures var h := UnpackHeader(IssueAll(start, cfg, calls + [c]).buf);
      (h.corrMsb != 0 || h.corrLsb != 0) <==>
        exists i :: 0 <= i < |calls| && calls[i].call.DelayResp? &&
          (calls[i].call.hdr.corrMsb != 0 || calls[i].call.hdr.corrLsb != 0)
          && forall j :: i < j < |calls| ==> calls[j].call.Announce? || calls[j].call.FollowUp?
  {
    assert (calls + [c])[..|calls|] == calls;
    HeaderUnpacks(start, cfg, calls + [c]);
    CorrectionFrom(calls);
  }

  lemma {:induction false} CorrectionFrom(calls: seq<Issued>)
    ensures CorrectionAfter(calls) != (0, 0) <==>
      exists i :: 0 <= i < |calls| && calls[i].call.DelayResp? &&
        (calls[i].call.hdr.corrMsb != 0 || calls[i].call.hdr.corrLsb != 0)
        && forall j :: i < j < |calls| ==> calls[j].call.Announce? || calls[j].call.FollowUp?
    decreases |calls|
  {
    if calls != [] {
      var before, last := calls[..|calls| - 1], calls[|calls| - 1];
      CorrectionFrom(before);
      assert forall i :: 0 <= i < |before| ==> before[i] == calls[i];
    }
  }

  // ----- The port, in place -----

  const CLEARED: seq<Byte> := [0, 0, 0, 0, 0, 0, 0, 0]

  lemma ClearCorrection(b: Buffer)
    ensures Put(b, 8, CLEARED) == PackCorrection(b, 0, 0)
  {
  }

  lemma OverClearedCorrection(b: Buffer, msb: UInt32, lsb: UInt32)
    ensures PackCorrection(Put(b, 8, CLEARED), msb, lsb) == PackCorrection(b, msb, lsb)
  {
    var x, y := PackCorrection(Put(b, 8, CLEARED), msb, lsb), PackCorrection(b, msb, lsb);
    assert forall i :: 0 <= i < |b| ==> x[i] == y[i];
  }

  lemma ClearTimestamp(b: Buffer)
    ensures Put(b, 34, CLEARED + [0, 0]) == PackTimestamp(b, Timestamp(0, 0, 0))
  {
    var x, y := Put(b, 34, CLEARED + [0, 0]), PackTimestamp(b, Timestamp(0, 0, 0));
    assert forall i :: 0 <= i < |b| ==> x[i] == y[i];
  }

  /** Writes to disjoint places commute. */
  lemma PutsCommute(b: Buffer, off: nat, data: seq<Byte>, at: nat, more: seq<Byte>)
    requires off + |data| <= |b| && at + |more| <= |b| && (off + |data| <= at || at + |more| <= off)
    ensures Put(Put(b, off, data), at, more) == Put(Put(b, at, more), off, data)
  {
  }

  /** pp_instance: what the codec reads and writes of it. */
  class Port {
    const tx: array<Byte>
    var syncSeq: UInt16
    var announceSeq: UInt16
    var delaySeq: UInt16
    var cfg: Config
    var announceTimeout: Byte
    var received: Header
    var parent: PortIdentity
    var fromCurrentParent: bool

    ghost predicate Valid()
      reads this
    {
      tx.Length >= ANNOUNCE_LENGTH
    }

    ghost function State(): Tx
      requires Valid()
      reads this, tx
    {
      Tx(tx[..], syncSeq, announceSeq, delaySeq)
    }

    constructor (cfg: Config, parent: PortIdentity, received: Header)
      ensures Valid() && fresh(tx)
      ensures this.cfg == cfg && this.parent == parent && this.received == received
      ensures State() == Tx(seq(ANNOUNCE_LENGTH, i => 0), 0, 0, 0) && announceTimeout == 0 && !fromCurrentParent
    {
      tx := new Byte[ANNOUNCE_LENGTH](_ => 0);
      syncSeq, announceSeq, delaySeq := 0, 0, 0;
      this.cfg, this.parent, this.received, fromCurrentParent := cfg, parent, received, false;
      announceTimeout := 0;
    }

    /** pp_initializing: the identity is made from the MAC address and this port's index, the other fields
        of the port data set are the defaults, and then the header is packed. */
    method Initialize(mac: Mac, index: nat, defaults: Defaults)
      requires Valid()
      modifies this, tx
      ensures Valid() && announceTimeout == defaults.announceTimeout
      ensures cfg == Config(defaults.version, old(cfg).domain,
                            PortIdentity(ClockIdentityOf(mac), (1 + index) % 0x1_0000), defaults.logSync,
                            defaults.logAnnounce, defaults.logDelayReq, old(cfg).announcement)
      ensures State() == old(State()).(buf := PackHeader(old(tx[..]), cfg))
      ensures unchanged(`parent) && unchanged(`received) && unchanged(`fromCurrentParent)
    {
      var id := new Byte[8](_ => 0);
      id[0], id[1], id[2] := mac[0], mac[1], mac[2];
      id[3], id[4] := 0xFF, 0xFE;
      id[5], id[6], id[7] := mac[3], mac[4], mac[5];
      assert id[..] == ClockIdentityOf(mac);
      cfg := cfg.(identity := PortIdentity(id[..], (1 + index) % 0x1_0000));
      cfg := cfg.(logDelayReq := defaults.logDelayReq, logAnnounce := defaults.logAnnounce);
      announceTimeout := defaults.announceTimeout;
      cfg := cfg.(logSync := defaults.logSync, version := defaults.version);
      MsgPackHeader();
    }

    method MsgPackHeader()
      requires Valid()
      modifies tx
      ensures State() == old(State()).(buf := PackHeader(old(tx[..]), cfg))
    {
      Write(tx, 0, [0]);
      Write(tx, 1, [cfg.version]);
      Write(tx, 4, [cfg.domain]);
      Write(tx, 6, [TWO_STEP_FLAG]);
      ClearCorrection(tx[..]);
      Write(tx, 8, CLEARED);
      Write(tx, 20, cfg.identity.clock);
      Write(tx, 28, Be16(cfg.identity.port));
      Write(tx, 33, [0x7F]);
    }

    /** The lines on type, length, sequence id, control and interval, which every packer repeats. */
    method WriteFields(t: Byte, length: UInt16, seqId: UInt16, control: Byte, interval: Byte)
      requires Valid() && t < 16
      modifies tx
      ensures tx[..] == PackFields(old(tx[..]), t, length, seqId, control, interval)
    {
      Write(tx, 0, [tx[0] / 16 * 16 + t]);
      Write(tx, 2, Be16(length));
      WriteTail(seqId, control, interval);
    }

    method WriteTail(seqId: UInt16, control: Byte, interval: Byte)
      requires Valid()
      modifies tx
      ensures tx[..] == PackTail(old(tx[..]), seqId, control, interval)
    {
      Write(tx, 30, Be16(seqId));
      Write(tx, 32, [control]);
      Write(tx, 33, [interval]);
    }

    method WriteTimestamp(t: Timestamp)
      requires Valid()
      modifies tx
      ensures tx[..] == PackTimestamp(old(tx[..]), t)
    {
      Write(tx, 34, Be16(t.msb));
      Write(tx, 36, Be32(t.lsb));
      Write(tx, 40, Be32(t.ns));
    }

    /** The domain, and the cleared and then copied correction field. */
    method WriteCopied(hdr: Header)
      requires Valid()
      modifies tx
      ensures tx[..] == PackCopied(old(tx[..]), hdr)
    {
      Write(tx, 4, [hdr.domain]);
      OverClearedCorrection(tx[..], hdr.corrMsb, hdr.corrLsb);
      Write(tx, 8, CLEARED);
      Write(tx, 8, Be32(hdr.corrMsb));
      Write(tx, 12, Be32(hdr.corrLsb));
    }

    /** The header part of a Delay_Resp, in its own order. */
    method WriteRespFields(hdr: Header)
      requires Valid()
      modifies tx
      ensures tx[..] ==
        PackCopied(PackFields(old(tx[..]), 0x9, DELAY_RESP_LENGTH, hdr.sequenceId, 0x03, cfg.logDelayReq), hdr)
    {
      Write(tx, 0, [tx[0] / 16 * 16 + 0x9]);
      Write(tx, 2, Be16(DELAY_RESP_LENGTH));
      TailCommutes(tx[..], hdr, hdr.sequenceId, 0x03, cfg.logDelayReq);
      WriteCopied(hdr);
      WriteTail(hdr.sequenceId, 0x03, cfg.logDelayReq);
    }

    method MsgPackSync(t: Timestamp)
      requires Valid()
      modifies this`syncSeq, tx
      ensures State() == PackSync(old(State()), cfg, t)
    {
      syncSeq := Next(syncSeq);
      WriteFields(0x0, SYNC_LENGTH, syncSeq, 0x00, cfg.logSync);
      ClearCorrection(tx[..]);
      Write(tx, 8, CLEARED);
      WriteTimestamp(t);
    }

    method MsgPackAnnounce() returns (len: nat)
      requires Valid()
      modifies this`announceSeq, tx
      ensures State() == PackAnnounce(old(State()), cfg) && len == ANNOUNCE_LENGTH
    {
      announceSeq := Next(announceSeq);
      WriteFields(0xB, ANNOUNCE_LENGTH, announceSeq, 0x05, cfg.logAnnounce);
      ClearTimestamp(tx[..]);
      Write(tx, 34, CLEARED + [0, 0]);
      WriteAnnouncement();
      return ANNOUNCE_LENGTH;
    }

    method WriteAnnouncement()
      requires Valid()
      modifies tx
      ensures tx[..] == PackAnnouncement(old(tx[..]), cfg.announcement)
    {
      var a := cfg.announcement;
      Write(tx, 44, Be16(a.utcOffset));
      Write(tx, 47, [a.priority1]);
      Write(tx, 48, [a.clockClass]);
      Write(tx, 49, [a.accuracy]);
      Write(tx, 50, Be16(a.variance));
      Write(tx, 52, [a.priority2]);
      Write(tx, 53, a.grandmaster);
      Write(tx, 61, Be16(a.stepsRemoved));
      Write(tx, 63, [a.timeSource]);
    }

    method MsgPackFollowUp(t: Timestamp)
      requires Valid()
      modifies tx
      ensures State() == PackFollowUp(old(State()), cfg, t)
    {
      WriteFields(0x8, FOLLOW_UP_LENGTH, syncSeq, 0x02, cfg.logSync);
      WriteTimestamp(t);
    }

    method MsgPackDelayReq(t: Timestamp)
      requires Valid()
      modifies this`delaySeq, tx
      ensures State() == PackDelayReq(old(State()), cfg, t)
    {
      delaySeq := Next(delaySeq);
      WriteFields(0x1, DELAY_REQ_LENGTH, delaySeq, 0x01, 0x7F);
      ClearCorrection(tx[..]);
      Write(tx, 8, CLEARED);
      WriteTimestamp(t);
    }

    /** The answer to the header last received. */
    method MsgPackDelayResp(t: Timestamp)
      requires Valid()
      modifies tx
      ensures State() == PackDelayResp(old(State()), cfg, received, t)
    {
      var hdr := received;
      WriteRespFields(hdr);
      WriteTimestamp(t);
      Write(tx, 44, hdr.source.clock);
      Write(tx, 52, Be16(hdr.source.port));
    }

    /** msg_unpack_header: the header is stored even when it is rejected; the flag says whether an
        accepted one comes from the current parent, or there is none. */
    method MsgUnpackHeader(buf: Buffer) returns (ok: bool)
      modifies this`received, this`fromCurrentParent
      ensures received == UnpackHeader(buf)
      ensures ok == Accepts(buf, cfg.identity.clock)
      ensures ok <==> buf[20..28] != cfg.identity.clock
      ensures fromCurrentParent == if ok then parent.port == 0 || received.source == parent else old(fromCurrentParent)
    {
      received := UnpackHeader(buf);
      if received.source.clock == cfg.identity.clock {
        return false;
      }
      fromCurrentParent := parent.port == 0
                           || (parent.clock == received.source.clock && parent.port == received.source.port);
      return true;
    }
  }

  lemma CopiedCommutes(b: Buffer, hdr: Header, at: nat, data: seq<Byte>)
    requires 16 <= at && at + |data| <= |b|
    ensures Put(PackCopied(b, hdr), at, data) == PackCopied(Put(b, at, data), hdr)
  {
    var b1: Buffer := Put(b, 4, [hdr.domain]);
    var b2: Buffer := Put(b1, 8, Be32(hdr.corrMsb));
    PutsCommute(b, 4, [hdr.domain], at, data);
    PutsCommute(b1, 8, Be32(hdr.corrMsb), at, data);
    PutsCommute(b2, 12, Be32(hdr.corrLsb), at, data);
  }

  lemma TailCommutes(b: Buffer, hdr: Header, seqId: UInt16, control: Byte, interval: Byte)
    ensures PackTail(PackCopied(b, hdr), seqId, control, interval) ==
      PackCopied(PackTail(b, seqId, control, interval), hdr)
  {
    var b1: Buffer := Put(b, 30, Be16(seqId));
    CopiedCommutes(b, hdr, 30, Be16(seqId));
    CopiedCommutes(b1, hdr, 32, [control]);
    CopiedCommutes(Put(b1, 32, [control]), hdr, 33, [interval]);
  }
}
