/**
 The bit-serial Ethernet CRC-32 of hdl/general_packages/EMAC16bit_package.vhd.
 Vectors hold '0' and '1' only; V(k) of a `downto` vector of n bits is v[n - 1 - k].
 */
module Crc32 {
  import opened Gf2
  import CrcValues
  import Lfsr
  import opened Vhdl

  const WORD_WIDTH: nat := 16

  /** x"04C11DB7" */
  function Poly(): (p: Vector32)
    ensures Lfsr.IsPoly(p)
  {
    LowestBit(0x04C11DB7);
    Hex(0x04C11DB7)
  }

  /** The order in which CRC32 consumes the bits of a word: bit 0 first. */
  function LsbFirst(w: Vector16): (r: Vector16)
    ensures forall k :: 0 <= k < 16 ==> r[k] == w[15 - k]
  {
    seq(16, k requires 0 <= k < 16 => w[15 - k])
  }

  /** The bits of a message of words, in the order they are consumed. */
  function Stream(words: seq<Vector16>): (r: Bits)
    ensures |r| == 16 * |words|
  {
    if words == [] then [] else LsbFirst(words[0]) + Stream(words[1..])
  }

  /** The shift that the loop of CRC32 writes out is a step of the serial divider. */
  lemma LoopBodyShifts(poly: Vector32, reg: Vector32, d: bool)
    requires poly[31]
    ensures var applyPoly := reg[0] != d;
      var shifted := reg[1..] + [applyPoly];
      Lfsr.Shift(poly, reg, d) ==
        if applyPoly then Xor(shifted[..31], poly[..31]) + [shifted[31]] else shifted
  {
  }

  /** The loop of CRC32, for any generator with a constant term. */
  method ShiftInWord(poly: Vector32, crcIn: Vector32, din: Vector16) returns (reg: Vector32)
    requires Lfsr.IsPoly(poly)
    ensures reg == Lfsr.Fold(poly, crcIn, LsbFirst(din))
  {
    ghost var stream := LsbFirst(din);
    reg := crcIn;
    var k := 0;
    while k < WORD_WIDTH
      invariant 0 <= k <= 16
      invariant Lfsr.Fold(poly, reg, stream[k..]) == Lfsr.Fold(poly, crcIn, stream)
    {
      var applyPoly := reg[0] != din[15 - k];
      LoopBodyShifts(poly, reg, stream[k]);
      assert stream[k..][0] == stream[k] && stream[k..][1..] == stream[k + 1..];
      reg := reg[1..] + [applyPoly];
      if applyPoly {
        reg := Xor(reg[..31], poly[..31]) + [reg[31]];
      }
      k := k + 1;
    }
  }

  method CRC32(crcIn: Vector32, din: Vector16) returns (reg: Vector32)
    ensures reg == Lfsr.Fold(Poly(), crcIn, LsbFirst(din))
  {
    reg := ShiftInWord(Poly(), crcIn, din);
  }

  /** The result goes on the wire as the complement of din, top bit first. */
  method NegateReverse(din: Vector16) returns (reg: Vector16)
    ensures LsbFirst(reg) == Not(din)
  {
    reg := Zeros(16);
    var k := 0;
    while k < WORD_WIDTH
      invariant 0 <= k <= 16
      invariant forall j :: 0 <= j < k ==> reg[15 - j] == !din[j]
    {
      reg := reg[15 - k := !din[k]];
      k := k + 1;
    }
  }

  // ----- Messages of words -----

  lemma StreamStep(poly: Vector32, reg: Vector32, words: seq<Vector16>, n: nat)
    requires n < |words|
    ensures Lfsr.Fold(poly, Lfsr.Fold(poly, reg, LsbFirst(words[n])), Stream(words[n + 1..]))
      == Lfsr.Fold(poly, reg, Stream(words[n..]))
  {
    assert words[n..][0] == words[n] && words[n..][1..] == words[n + 1..];
    Lfsr.FoldAppend(poly, reg, LsbFirst(words[n]), Stream(words[n + 1..]));
  }

  /** The register after a message: one call of CRC32 per word. */
  method CrcOfMessage(init: Vector32, words: seq<Vector16>) returns (reg: Vector32)
    ensures reg == Lfsr.Fold(Poly(), init, Stream(words))
  {
    ghost var poly := Poly();
    reg := init;
    for n := 0 to |words|
      invariant Lfsr.Fold(poly, reg, Stream(words[n..])) == Lfsr.Fold(poly, init, Stream(words))
    {
      StreamStep(poly, reg, words, n);
      reg := CRC32(reg, words[n]);
    }
    assert words[|words|..] == [];
  }

  /** Folding CRC32 over a message is polynomial division by x"104C11DB7": there is exactly one
      way to divide init * x^n + message * x^32, and its remainder is the register. */
  lemma CrcIsRemainder(poly: Vector32, init: Vector32, words: seq<Vector16>, reg: Vector32)
    ensures (exists q | |q| == |Stream(words)| ::
              Recompose(q, [true] + poly, reg) == Lfsr.Dividend(init, Stream(words)))
      <==> reg == Lfsr.Fold(poly, init, Stream(words))
  {
    var m := Stream(words);
    Lfsr.FoldDivides(poly, init, m);
    if q :| |q| == |m| && Recompose(q, [true] + poly, reg) == Lfsr.Dividend(init, m) {
      Lfsr.FoldIsRemainder(poly, init, m, q, reg);
    }
  }

  /** Different messages of the same length whose consumed bits differ inside 32 consecutive
      positions only are told apart by the register. */
  lemma BurstDetected(poly: Vector32, init: Vector32, sent: seq<Vector16>, received: seq<Vector16>, lo: nat, hi: nat)
    requires Lfsr.IsPoly(poly) && |sent| == |received| && sent != received
    requires lo <= hi <= |Stream(sent)| && hi - lo <= 32
    requires Stream(sent)[..lo] == Stream(received)[..lo] && Stream(sent)[hi..] == Stream(received)[hi..]
    ensures Lfsr.Fold(poly, init, Stream(sent)) != Lfsr.Fold(poly, init, Stream(received))
  {
    var s, r := Stream(sent), Stream(received);
    assert s == s[..lo] + s[lo..hi] + s[hi..] && r == r[..lo] + r[lo..hi] + r[hi..];
    if s[lo..hi] == r[lo..hi] {
      StreamInjective(sent, received);
    } else {
      Lfsr.BurstDetected(poly, init, s[..lo], s[lo..hi], r[lo..hi], s[hi..]);
    }
  }

  lemma {:induction false} StreamInjective(a: seq<Vector16>, b: seq<Vector16>)
    requires |a| == |b| && Stream(a) == Stream(b)
    ensures a == b
  {
    if a != [] {
      var la, lb := LsbFirst(a[0]), LsbFirst(b[0]);
      assert la == Stream(a)[..16] && lb == Stream(b)[..16];
      assert Stream(a[1..]) == Stream(a)[16..] && Stream(b[1..]) == Stream(b)[16..];
      assert forall k :: 0 <= k < 16 ==> a[0][k] == la[15 - k] && b[0][k] == lb[15 - k];
      StreamInjective(a[1..], b[1..]);
      assert a[0] == b[0];
      assert a == [a[0]] + a[1..] && b == [b[0]] + b[1..];
    }
  }

  // ----- The frame check sequence -----

  lemma {:induction false} StreamAppend(a: seq<Vector16>, high: Vector16, low: Vector16)
    ensures Stream(a + [high, low]) == Stream(a) + (LsbFirst(high) + LsbFirst(low))
  {
    if a == [] {
      assert a + [high, low] == [high, low] && [high, low][1..] == [low] && [low][1..] == [];
    } else {
      assert (a + [high, low])[1..] == a[1..] + [high, low];
      StreamAppend(a[1..], high, low);
    }
  }

  /** Any two words that feed the complement of the register after a message leave one constant in it. */
  lemma ResidueAfter(init: Vector32, words: seq<Vector16>, high: Vector16, low: Vector16)
    requires LsbFirst(high) + LsbFirst(low) == Not(Lfsr.Fold(Poly(), init, Stream(words)))
    ensures Lfsr.Fold(Poly(), init, Stream(words + [high, low])) == Hex(0xC704DD7B)
  {
    StreamAppend(words, high, low);
    Lfsr.Residue(Poly(), init, Stream(words));
    CrcValues.ResidueValue();
  }

  /** Appending the frame check sequence, the complement of the register with its high half first, to any
      message from any initial value leaves one constant in the register. */
  method AppendFcs(init: Vector32, words: seq<Vector16>) returns (framed: seq<Vector16>)
    ensures |framed| == |words| + 2 && framed[..|words|] == words
    ensures LsbFirst(framed[|words|]) + LsbFirst(framed[|words| + 1]) == Not(Lfsr.Fold(Poly(), init, Stream(words)))
    ensures Lfsr.Fold(Poly(), init, Stream(framed)) == Hex(0xC704DD7B)
  {
    var crc := CrcOfMessage(init, words);
    var high := NegateReverse(crc[..16]);
    var low := NegateReverse(crc[16..]);
    framed := words + [high, low];
    assert LsbFirst(high) + LsbFirst(low) == Not(crc);
    ResidueAfter(init, words, high, low);
  }
}
