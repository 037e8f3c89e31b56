/**
 Byte buffers and big-endian fields.
 */
module Bytes {

  type Byte = b: int | 0 <= b < 0x100
  type UInt16 = v: int | 0 <= v < 0x1_0000
  type UInt32 = v: int | 0 <= v < 0x1_0000_0000

  /** htons into a buffer. */
  function Be16(v: UInt16): (r: seq<Byte>)
    ensures |r| == 2
  {
    [v / 0x100, v % 0x100]
  }

  /** htonl into a buffer. */
  function Be32(v: UInt32): (r: seq<Byte>)
    ensures |r| == 4
  {
    Be16(v / 0x1_0000) + Be16(v % 0x1_0000)
  }

  function FromBe16(s: seq<Byte>): UInt16
    requires |s| == 2
  {
    var hi: int, lo: int := s[0], s[1];
    hi * 0x100 + lo
  }

  function FromBe32(s: seq<Byte>): UInt32
    requires |s| == 4
  {
    var hi: int, lo: int := FromBe16(s[..2]), FromBe16(s[2..]);
    hi * 0x1_0000 + lo
  }

  lemma Be16RoundTrip(v: UInt16, s: seq<Byte>)
    ensures FromBe16(Be16(v)) == v
    ensures |s| == 2 ==> Be16(FromBe16(s)) == s
  {
  }

  lemma Be32RoundTrip(v: UInt32)
    ensures FromBe32(Be32(v)) == v
  {
  }

  /** The buffer with data written at an offset. */
  function Put(buf: seq<Byte>, off: nat, data: seq<Byte>): (r: seq<Byte>)
    requires off + |data| <= |buf|
    ensures |r| == |buf|
  {
    buf[..off] + data + buf[off + |data|..]
  }

  /** n bytes at an offset. */
  function Get(buf: seq<Byte>, off: nat, n: nat): (r: seq<Byte>)
    requires off + n <= |buf|
    ensures |r| == n
  {
    buf[off..off + n]
  }

  lemma GetPut(buf: seq<Byte>, off: nat, data: seq<Byte>)
    requires off + |data| <= |buf|
    ensures Get(Put(buf, off, data), off, |data|) == data
  {
  }

  lemma GetOther(buf: seq<Byte>, off: nat, data: seq<Byte>, at: nat, n: nat)
    requires off + |data| <= |buf| && at + n <= |buf| && (at + n <= off || off + |data| <= at)
    ensures Get(Put(buf, off, data), at, n) == Get(buf, at, n)
  {
  }

  // ----- In place -----

  method Write(buf: array<Byte>, off: nat, data: seq<Byte>)
    requires off + |data| <= buf.Length
    modifies buf
    ensures buf[..] == Put(old(buf[..]), off, data)
  {
    for i := 0 to |data|
      invariant forall k :: 0 <= k < buf.Length ==>
        buf[k] == if off <= k < off + i then data[k - off] else old(buf[k])
    {
      buf[off + i] := data[i];
    }
  }
}
