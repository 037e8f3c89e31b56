/**
 The check table of hdl/general_packages/EMAC16bit_package.vhd fed to CRC32 as two words.
 */
module CrcCheck {
  import opened Crc32
  import opened CrcValues
  import opened Gf2
  import opened Vhdl

  import Lfsr

  lemma NextBit(v: bv32, b: bool, w: bv32, n: nat)
    requires (v & 1 == 1) == b && v >> 1 == w
    ensures LowBits(v, n + 1) == [b] + LowBits(w, n)
  {
  }

  lemma NoBits(v: bv32)
    ensures LowBits(v, 0) == []
  {
  }

  lemma Byte21()
    ensures LowBits(0x21, 8) == [true, false, false, false, false, true, false, false]
  {
    NextBit(0x21, true, 0x10, 7);
    NextBit(0x10, false, 0x8, 6);
    NextBit(0x8, false, 0x4, 5);
    NextBit(0x4, false, 0x2, 4);
    NextBit(0x2, false, 0x1, 3);
    NextBit(0x1, true, 0x0, 2);
    NextBit(0x0, false, 0x0, 1);
    NextBit(0x0, false, 0x0, 0);
    NoBits(0);
  }

  lemma Byte43()
    ensures LowBits(0x43, 8) == [true, true, false, false, false, false, true, false]
  {
    NextBit(0x43, true, 0x21, 7);
    NextBit(0x21, true, 0x10, 6);
    NextBit(0x10, false, 0x8, 5);
    NextBit(0x8, false, 0x4, 4);
    NextBit(0x4, false, 0x2, 3);
    NextBit(0x2, false, 0x1, 2);
    NextBit(0x1, true, 0x0, 1);
    NextBit(0x0, false, 0x0, 0);
    NoBits(0);
  }

  lemma Byte65()
    ensures LowBits(0x65, 8) == [true, false, true, false, false, true, true, false]
  {
    NextBit(0x65, true, 0x32, 7);
    NextBit(0x32, false, 0x19, 6);
    NextBit(0x19, true, 0xC, 5);
    NextBit(0xC, false, 0x6, 4);
    NextBit(0x6, false, 0x3, 3);
    NextBit(0x3, true, 0x1, 2);
    NextBit(0x1, true, 0x0, 1);
    NextBit(0x0, false, 0x0, 0);
    NoBits(0);
  }

  lemma Byte87()
    ensures LowBits(0x87, 8) == [true, true, true, false, false, false, false, true]
  {
    NextBit(0x87, true, 0x43, 7);
    NextBit(0x43, true, 0x21, 6);
    NextBit(0x21, true, 0x10, 5);
    NextBit(0x10, false, 0x8, 4);
    NextBit(0x8, false, 0x4, 3);
    NextBit(0x4, false, 0x2, 2);
    NextBit(0x2, false, 0x1, 1);
    NextBit(0x1, true, 0x0, 0);
    NoBits(0);
  }

  /** 0x4321, written with the top bit first: the low byte comes first. */
  lemma Word4321(w: Vector16)
    requires w ==
      [false, true, false, false, false, false, true, true,
       false, false, true, false, false, false, false, true]
    ensures LsbFirst(w) == LowBits(0x21, 8) + LowBits(0x43, 8)
  {
    Byte21();
    Byte43();
  }

  /** 0x8765, written with the top bit first: the low byte comes first. */
  lemma Word8765(w: Vector16)
    requires w ==
      [true, false, false, false, false, true, true, true,
       false, true, true, false, false, true, false, true]
    ensures LsbFirst(w) == LowBits(0x65, 8) + LowBits(0x87, 8)
  {
    Byte65();
    Byte87();
  }

  lemma WordFold(w: Vector16, a: Bits, b: Bits, poly: Vector32, x: Vector32, y: Vector32, z: Vector32)
    requires LsbFirst(w) == a + b && Lfsr.Fold(poly, x, a) == y && Lfsr.Fold(poly, y, b) == z
    ensures Lfsr.Fold(poly, x, LsbFirst(w)) == z
  {
    Lfsr.FoldAppend(poly, x, a, b);
  }

  lemma CheckFolds(w: Vector16, v: Vector16)
    requires LsbFirst(w) == LowBits(0x21, 8) + LowBits(0x43, 8) && LsbFirst(v) == LowBits(0x65, 8) + LowBits(0x87, 8)
    ensures Lfsr.Fold(Hex(0x04C11DB7), Hex(0xFFFF_FFFF), LsbFirst(w)) == Hex(0x931736BB)
    ensures Lfsr.Fold(Hex(0x04C11DB7), Hex(0x931736BB), LsbFirst(v)) == Hex(0x024AFDFB)
  {
    CheckTable();
    WordFold(w, LowBits(0x21, 8), LowBits(0x43, 8), Hex(0x04C11DB7), Hex(0xFFFF_FFFF), Hex(0x34002986),
      Hex(0x931736BB));
    WordFold(v, LowBits(0x65, 8), LowBits(0x87, 8), Hex(0x04C11DB7), Hex(0x931736BB), Hex(0xD4C1BDFB),
      Hex(0x024AFDFB));
  }

  /** The register after the four bytes of the table, as the words 0x4321 and 0x8765. */
  lemma CheckWords(w: Vector16, v: Vector16)
    requires w ==
      [false, true, false, false, false, false, true, true,
       false, false, true, false, false, false, false, true]
    requires v ==
      [true, false, false, false, false, true, true, true,
       false, true, true, false, false, true, false, true]
    ensures Lfsr.Fold(Hex(0x04C11DB7), Hex(0xFFFF_FFFF), LsbFirst(w)) == Hex(0x931736BB)
    ensures Lfsr.Fold(Hex(0x04C11DB7), Hex(0x931736BB), LsbFirst(v)) == Hex(0x024AFDFB)
  {
    Word4321(w);
    Word8765(v);
    CheckFolds(w, v);
  }
}
