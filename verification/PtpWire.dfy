/**
 What the packers of sw/embedded/precompiled/wrpc-clb-cal-sw/msg.c put on the wire, byte by byte, and which
 bytes the unpackers read: network byte order, at the offsets and with the lengths of clauses 13.3 and 13.5
 to 13.8 of IEEE 1588-2008.
 */
module PtpWire {
  import opened Bytes
  import opened PtpMessages

  // ----- Fields -----

  /** The number that bytes stand for, the highest first. */
  function Sum2(a: int, b: int): int {
    a * 0x100 + b
  }

  function Sum4(a: int, b: int, c: int, d: int): int {
    a * 0x100_0000 + b * 0x1_0000 + c * 0x100 + d
  }

  /** Two bytes, the high one first. */
  predicate Number16(b: seq<Byte>, off: nat, v: UInt16)
    requires off + 2 <= |b|
  {
    b[off] == v / 256 && b[off + 1] == v % 256
  }

  /** Four bytes, the highest first. */
  predicate Number32(b: seq<Byte>, off: nat, v: UInt32)
    requires off + 4 <= |b|
  {
    Sum4(b[off], b[off + 1], b[off + 2], b[off + 3]) == v
  }

  lemma Put16(b: seq<Byte>, off: nat, v: UInt16)
    requires off + 2 <= |b|
    ensures var r := Put(b, off, Be16(v));
      Number16(r, off, v) && forall i :: 0 <= i < |b| && !(off <= i < off + 2) ==> r[i] == b[i]
  {
  }

  lemma Put32(b: seq<Byte>, off: nat, v: UInt32)
    requires off + 4 <= |b|
    ensures var r := Put(b, off, Be32(v));
      Number32(r, off, v) && forall i :: 0 <= i < |b| && !(off <= i < off + 4) ==> r[i] == b[i]
  {
  }

  lemma PutData(b: seq<Byte>, off: nat, data: seq<Byte>)
    requires off + |data| <= |b|
    ensures var r := Put(b, off, data);
      && r[off..off + |data|] == data
      && forall i :: 0 <= i < |b| && !(off <= i < off + |data|) ==> r[i] == b[i]
  {
  }

  lemma PutOne(b: seq<Byte>, off: nat, v: Byte)
    requires off < |b|
    ensures var r := Put(b, off, [v]); r[off] == v && forall i :: 0 <= i < |b| && i != off ==> r[i] == b[i]
  {
  }

  // ----- Parts of messages -----

  /** Type nibble, length, sequence id, control and interval, and no other byte. */
  ghost predicate FieldBytes(b: Buffer, r: Buffer, t: Byte, length: UInt16, seqId: UInt16, control: Byte,
                             interval: Byte) {
    && |r| == |b| && r[0] == b[0] / 16 * 16 + t && Number16(r, 2, length) && Number16(r, 30, seqId)
    && r[32] == control && r[33] == interval
    && forall i :: 0 <= i < |b| && i !in {0, 2, 3, 30, 31, 32, 33} ==> r[i] == b[i]
  }

  lemma FieldsBytes(b: Buffer, t: Byte, length: UInt16, seqId: UInt16, control: Byte, interval: Byte)
    requires t < 16
    ensures FieldBytes(b, PackFields(b, t, length, seqId, control, interval), t, length, seqId, control, interval)
  {
    var b1 := WithType(b, t);
    PutOne(b, 0, b[0] / 16 * 16 + t);
    var b2: Buffer := Put(b1, 2, Be16(length));
    Put16(b1, 2, length);
    var b3: Buffer := Put(b2, 30, Be16(seqId));
    Put16(b2, 30, seqId);
    var b4: Buffer := Put(b3, 32, [control]);
    PutOne(b3, 32, control);
    PutOne(b4, 33, interval);
  }

  ghost predicate CorrectionBytes(b: Buffer, r: Buffer, msb: UInt32, lsb: UInt32) {
    && |r| == |b| && Number32(r, 8, msb) && Number32(r, 12, lsb)
    && forall i :: 0 <= i < |b| && !(8 <= i < 16) ==> r[i] == b[i]
  }

  lemma CorrectionOnWire(b: Buffer, msb: UInt32, lsb: UInt32)
    ensures CorrectionBytes(b, PackCorrection(b, msb, lsb), msb, lsb)
  {
    Put32(b, 8, msb);
    Put32(Put(b, 8, Be32(msb)), 12, lsb);
  }

  lemma ClearedOnWire(b: Buffer)
    ensures var r := PackCorrection(b, 0, 0);
      && |r| == |b| && r[8..16] == [0, 0, 0, 0, 0, 0, 0, 0]
      && forall i :: 0 <= i < |b| && !(8 <= i < 16) ==> r[i] == b[i]
  {
    ClearCorrection(b);
    PutData(b, 8, CLEARED);
  }

  ghost predicate TimestampBytes(b: Buffer, r: Buffer, t: Timestamp) {
    && |r| == |b| && Number16(r, 34, t.msb) && Number32(r, 36, t.lsb) && Number32(r, 40, t.ns)
    && forall i :: 0 <= i < |b| && !(34 <= i < 44) ==> r[i] == b[i]
  }

  lemma TimestampOnWire(b: Buffer, t: Timestamp)
    ensures TimestampBytes(b, PackTimestamp(b, t), t)
  {
    var b1: Buffer := Put(b, 34, Be16(t.msb));
    Put16(b, 34, t.msb);
    var b2: Buffer := Put(b1, 36, Be32(t.lsb));
    Put32(b1, 36, t.lsb);
    Put32(b2, 40, t.ns);
  }

  lemma NoTimeOnWire(b: Buffer)
    ensures var r := PackTimestamp(b, Timestamp(0, 0, 0));
      && |r| == |b| && r[34..44] == [0, 0, 0, 0, 0, 0, 0, 0, 0, 0]
      && forall i :: 0 <= i < |b| && !(34 <= i < 44) ==> r[i] == b[i]
  {
    ClearTimestamp(b);
    PutData(b, 34, CLEARED + [0, 0]);
  }

  // ----- Messages -----

  /** msg_pack_header. */
  lemma HeaderBytes(b: Buffer, cfg: Config)
    ensures var r := PackHeader(b, cfg);
      && |r| == |b| && r[0] == 0 && r[1] == cfg.version && r[4] == cfg.domain && r[6] == 2 && r[33] == 0x7F
      && r[8..16] == [0, 0, 0, 0, 0, 0, 0, 0]
      && r[20..28] == cfg.identity.clock
      && r[28] == cfg.identity.port / 256 && r[29] == cfg.identity.port % 256
      && forall i :: 0 <= i < |b| && i !in {0, 1, 4, 6, 33} && !(8 <= i < 16) && !(20 <= i < 30) ==> r[i] == b[i]
  {
    var b1: Buffer := Put(b, 0, [0]);
    PutOne(b, 0, 0);
    var b2: Buffer := Put(b1, 1, [cfg.version]);
    PutOne(b1, 1, cfg.version);
    var b3: Buffer := Put(b2, 4, [cfg.domain]);
    PutOne(b2, 4, cfg.domain);
    var b4: Buffer := Put(b3, 6, [TWO_STEP_FLAG]);
    PutOne(b3, 6, TWO_STEP_FLAG);
    HeaderTail(b4, cfg);
  }

  lemma HeaderTail(b: Buffer, cfg: Config)
    ensures var c := PackCorrection(b, 0, 0);
      var r: Buffer := Put(Put(Put(c, 20, cfg.identity.clock), 28, Be16(cfg.identity.port)), 33, [0x7F]);
      && r[8..16] == [0, 0, 0, 0, 0, 0, 0, 0]
      && r[20..28] == cfg.identity.clock
      && Number16(r, 28, cfg.identity.port) && r[33] == 0x7F
      && forall i :: 0 <= i < |b| && i != 33 && !(8 <= i < 16) && !(20 <= i < 30) ==> r[i] == b[i]
  {
    var c := PackCorrection(b, 0, 0);
    ClearedOnWire(b);
    var d: Buffer := Put(c, 20, cfg.identity.clock);
    PutData(c, 20, cfg.identity.clock);
    var e: Buffer := Put(d, 28, Be16(cfg.identity.port));
    Put16(d, 28, cfg.identity.port);
    PutOne(e, 33, 0x7F);
    assert e[20..28] == d[20..28];
    assert Put(e, 33, [0x7F])[20..28] == e[20..28] && Put(e, 33, [0x7F])[8..16] == c[8..16];
  }

  /** The time of a message, big-endian from byte 34 on. */
  ghost predicate TimeAt34(r: Buffer, t: Timestamp) {
    && r[34] == t.msb / 256 && r[35] == t.msb % 256
    && Sum4(r[36], r[37], r[38], r[39]) == t.lsb
    && Sum4(r[40], r[41], r[42], r[43]) == t.ns
  }

  lemma SyncBytes(tx: Tx, cfg: Config, t: Timestamp)
    ensures var tx' := PackSync(tx, cfg, t); var b, r, n := tx.buf, tx'.buf, tx'.syncSeq;
      && |r| == |b| && n == (tx.syncSeq + 1) % 0x1_0000
      && r[0] == b[0] / 16 * 16 && r[2] == 0 && r[3] == 44
      && r[8..16] == [0, 0, 0, 0, 0, 0, 0, 0]
      && r[30] == n / 256 && r[31] == n % 256 && r[32] == 0 && r[33] == cfg.logSync && TimeAt34(r, t)
      && forall i :: 0 <= i < |b| && i !in {0, 2, 3} && !(8 <= i < 16) && !(30 <= i < 44) ==> r[i] == b[i]
  {
    var n := Next(tx.syncSeq);
    var b1 := PackFields(tx.buf, 0x0, SYNC_LENGTH, n, 0x00, cfg.logSync);
    FieldsBytes(tx.buf, 0x0, SYNC_LENGTH, n, 0x00, cfg.logSync);
    var b2 := PackCorrection(b1, 0, 0);
    ClearedOnWire(b1);
    TimestampOnWire(b2, t);
    assert PackTimestamp(b2, t)[8..16] == b2[8..16];
  }

  lemma DelayReqBytes(tx: Tx, cfg: Config, t: Timestamp)
    ensures var tx' := PackDelayReq(tx, cfg, t); var b, r, n := tx.buf, tx'.buf, tx'.delaySeq;
      && |r| == |b| && n == (tx.delaySeq + 1) % 0x1_0000
      && r[0] == b[0] / 16 * 16 + 1 && r[2] == 0 && r[3] == 44
      && r[8..16] == [0, 0, 0, 0, 0, 0, 0, 0]
      && r[30] == n / 256 && r[31] == n % 256 && r[32] == 1 && r[33] == 0x7F && TimeAt34(r, t)
      && forall i :: 0 <= i < |b| && i !in {0, 2, 3} && !(8 <= i < 16) && !(30 <= i < 44) ==> r[i] == b[i]
  {
    var n := Next(tx.delaySeq);
    var b1 := PackFields(tx.buf, 0x1, DELAY_REQ_LENGTH, n, 0x01, 0x7F);
    FieldsBytes(tx.buf, 0x1, DELAY_REQ_LENGTH, n, 0x01, 0x7F);
    var b2 := PackCorrection(b1, 0, 0);
    ClearedOnWire(b1);
    TimestampOnWire(b2, t);
    assert PackTimestamp(b2, t)[8..16] == b2[8..16];
  }

  lemma FollowUpBytes(tx: Tx, cfg: Config, t: Timestamp)
    ensures var tx' := PackFollowUp(tx, cfg, t); var b, r := tx.buf, tx'.buf;
      && |r| == |b| && tx'.syncSeq == tx.syncSeq
      && r[0] == b[0] / 16 * 16 + 8 && r[2] == 0 && r[3] == 44
      && r[30] == tx.syncSeq / 256 && r[31] == tx.syncSeq % 256 && r[32] == 2 && r[33] == cfg.logSync
      && TimeAt34(r, t)
      && forall i :: 0 <= i < |b| && i !in {0, 2, 3} && !(30 <= i < 44) ==> r[i] == b[i]
  {
    FieldsBytes(tx.buf, 0x8, FOLLOW_UP_LENGTH, tx.syncSeq, 0x02, cfg.logSync);
    TimestampOnWire(PackFields(tx.buf, 0x8, FOLLOW_UP_LENGTH, tx.syncSeq, 0x02, cfg.logSync), t);
  }

  /** The data sets in an Announce. */
  ghost predicate AnnouncementBytes(r: Buffer, a: Announcement) {
    && r[44] == a.utcOffset / 256 && r[45] == a.utcOffset % 256
    && r[47] == a.priority1 && r[48] == a.clockClass && r[49] == a.accuracy
    && r[50] == a.variance / 256 && r[51] == a.variance % 256 && r[52] == a.priority2
    && r[53..61] == a.grandmaster
    && r[61] == a.stepsRemoved / 256 && r[62] == a.stepsRemoved % 256 && r[63] == a.timeSource
  }

  lemma AnnouncementOnWire(b: Buffer, a: Announcement)
    ensures var r := PackAnnouncement(b, a);
      && |r| == |b| && AnnouncementBytes(r, a)
      && forall i :: 0 <= i < |b| && (i < 44 || i == 46 || i >= 64) ==> r[i] == b[i]
  {
    var b1: Buffer := Put(b, 44, Be16(a.utcOffset));
    Put16(b, 44, a.utcOffset);
    var b2: Buffer := Put(b1, 47, [a.priority1]);
    PutOne(b1, 47, a.priority1);
    var b3: Buffer := Put(b2, 48, [a.clockClass]);
    PutOne(b2, 48, a.clockClass);
    var b4: Buffer := Put(b3, 49, [a.accuracy]);
    PutOne(b3, 49, a.accuracy);
    var b5: Buffer := Put(b4, 50, Be16(a.variance));
    Put16(b4, 50, a.variance);
    var b6: Buffer := Put(b5, 52, [a.priority2]);
    PutOne(b5, 52, a.priority2);
    AnnouncementTail(b6, a);
  }

  lemma AnnouncementTail(b: Buffer, a: Announcement)
    ensures var r: Buffer := Put(Put(Put(b, 53, a.grandmaster), 61, Be16(a.stepsRemoved)), 63, [a.timeSource]);
      && r[53..61] == a.grandmaster
      && Number16(r, 61, a.stepsRemoved) && r[63] == a.timeSource
      && forall i :: 0 <= i < |b| && (i < 53 || i >= 64) ==> r[i] == b[i]
  {
    var c: Buffer := Put(b, 53, a.grandmaster);
    PutData(b, 53, a.grandmaster);
    var d: Buffer := Put(c, 61, Be16(a.stepsRemoved));
    Put16(c, 61, a.stepsRemoved);
    PutOne(d, 63, a.timeSource);
    assert d[53..61] == c[53..61];
    assert Put(d, 63, [a.timeSource])[53..61] == d[53..61];
  }

  lemma AnnounceBody(b: Buffer, a: Announcement)
    ensures var r := PackAnnouncement(PackTimestamp(b, Timestamp(0, 0, 0)), a);
      && |r| == |b| && r[34..44] == [0, 0, 0, 0, 0, 0, 0, 0, 0, 0] && AnnouncementBytes(r, a)
      && forall i :: 0 <= i < |b| && !(34 <= i < 46) && !(47 <= i < 64) ==> r[i] == b[i]
  {
    var c := PackTimestamp(b, Timestamp(0, 0, 0));
    NoTimeOnWire(b);
    AnnouncementOnWire(c, a);
    assert PackAnnouncement(c, a)[34..44] == c[34..44];
  }

  lemma AnnounceBytes(tx: Tx, cfg: Config)
    ensures var tx' := PackAnnounce(tx, cfg); var b, r, n := tx.buf, tx'.buf, tx'.announceSeq;
      && |r| == |b| && n == (tx.announceSeq + 1) % 0x1_0000
      && r[0] == b[0] / 16 * 16 + 11 && r[2] == 0 && r[3] == 64
      && r[30] == n / 256 && r[31] == n % 256 && r[32] == 5 && r[33] == cfg.logAnnounce
      && r[34..44] == [0, 0, 0, 0, 0, 0, 0, 0, 0, 0]
      && AnnouncementBytes(r, cfg.announcement)
      && forall i :: 0 <= i < |b| && i !in {0, 2, 3} && !(30 <= i < 46) && !(47 <= i < 64) ==> r[i] == b[i]
  {
    var n := Next(tx.announceSeq);
    var b1 := PackFields(tx.buf, 0xB, ANNOUNCE_LENGTH, n, 0x05, cfg.logAnnounce);
    FieldsBytes(tx.buf, 0xB, ANNOUNCE_LENGTH, n, 0x05, cfg.logAnnounce);
    AnnounceBody(b1, cfg.announcement);
  }

  lemma ReceiptOnWire(b: Buffer, t: Timestamp, p: PortIdentity)
    ensures var r := PackReceipt(b, t, p);
      && |r| == |b| && Number16(r, 34, t.msb) && Number32(r, 36, t.lsb) && Number32(r, 40, t.ns)
      && r[44..52] == p.clock && Number16(r, 52, p.port)
      && forall i :: 0 <= i < |b| && !(34 <= i < 54) ==> r[i] == b[i]
  {
    var b1 := PackTimestamp(b, t);
    TimestampOnWire(b, t);
    var b2: Buffer := Put(b1, 44, p.clock);
    PutData(b1, 44, p.clock);
    Put16(b2, 52, p.port);
    assert Put(b2, 52, Be16(p.port))[44..52] == b2[44..52];
  }

  lemma CopiedOnWire(b: Buffer, hdr: Header)
    ensures var r := PackCopied(b, hdr);
      && |r| == |b| && r[4] == hdr.domain && Number32(r, 8, hdr.corrMsb) && Number32(r, 12, hdr.corrLsb)
      && forall i :: 0 <= i < |b| && i != 4 && !(8 <= i < 16) ==> r[i] == b[i]
  {
    PutOne(b, 4, hdr.domain);
    CorrectionOnWire(Put(b, 4, [hdr.domain]), hdr.corrMsb, hdr.corrLsb);
  }

  lemma DelayRespBytes(tx: Tx, cfg: Config, hdr: Header, t: Timestamp)
    ensures var tx' := PackDelayResp(tx, cfg, hdr, t); var b, r := tx.buf, tx'.buf;
      && |r| == |b|
      && r[0] == b[0] / 16 * 16 + 9 && r[2] == 0 && r[3] == 54 && r[4] == hdr.domain
      && Sum4(r[8], r[9], r[10], r[11]) == hdr.corrMsb
      && Sum4(r[12], r[13], r[14], r[15]) == hdr.corrLsb
      && r[30] == hdr.sequenceId / 256 && r[31] == hdr.sequenceId % 256 && r[32] == 3 && r[33] == cfg.logDelayReq
      && TimeAt34(r, t) && r[44..52] == hdr.source.clock
      && r[52] == hdr.source.port / 256 && r[53] == hdr.source.port % 256
      && forall i :: 0 <= i < |b| && i !in {0, 2, 3, 4} && !(8 <= i < 16) && !(30 <= i < 54) ==> r[i] == b[i]
  {
    var b1 := PackFields(tx.buf, 0x9, DELAY_RESP_LENGTH, hdr.sequenceId, 0x03, cfg.logDelayReq);
    FieldsBytes(tx.buf, 0x9, DELAY_RESP_LENGTH, hdr.sequenceId, 0x03, cfg.logDelayReq);
    CopiedOnWire(b1, hdr);
    ReceiptOnWire(PackCopied(b1, hdr), t, hdr.source);
  }

  // ----- Unpacking -----

  /** Which bytes a receiver reads as what. */
  lemma HeaderRead(b: Buffer)
    ensures var h := UnpackHeader(b);
      && h.transport * 16 + h.messageType == b[0] && h.messageType < 16 && h.version == b[1] % 16
      && h.length == Sum2(b[2], b[3]) && h.domain == b[4] && h.flags == [b[6], b[7]]
      && h.corrMsb == Sum4(b[8], b[9], b[10], b[11])
      && h.corrLsb == Sum4(b[12], b[13], b[14], b[15])
      && h.source.clock == b[20..28] && h.source.port == Sum2(b[28], b[29])
      && h.sequenceId == Sum2(b[30], b[31]) && h.control == b[32] && h.logInterval == b[33]
  {
  }

  lemma TimestampRead(b: Buffer)
    ensures TimeAt34(b, UnpackTimestamp(b))
  {
  }

  lemma RequesterRead(b: Buffer)
    ensures UnpackRequester(b).clock == b[44..52] && UnpackRequester(b).port == Sum2(b[52], b[53])
  {
  }

  /** A message is rejected for its clock identity alone. */
  lemma AcceptedRead(b: Buffer, own: ClockIdentity)
    ensures Accepts(b, own) <==> b[20..28] != own
  {
  }

  lemma AnnouncementRead(b: Buffer)
    ensures AnnouncementBytes(b, UnpackAnnouncement(b))
  {
  }
}
