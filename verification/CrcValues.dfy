/**
 The documented values of the CRC, by machine arithmetic on the register.
 */
module CrcValues {
  import opened Gf2
  import Lfsr
  import opened Vhdl

  function ShiftBv(poly: bv32, v: bv32, d: bool): bv32 {
    if (v >= 0x8000_0000) != d then (v << 1) ^ poly else v << 1
  }

  /** Feeds the n low bits of m, lowest first. */
  function FoldBv(poly: bv32, v: bv32, m: bv32, n: nat): bv32
    decreases n
  {
    if n == 0 then v else FoldBv(poly, ShiftBv(poly, v, m & 1 == 1), m >> 1, n - 1)
  }

  /** The n low bits of m, lowest first. */
  function LowBits(m: bv32, n: nat): (r: Bits)
    ensures |r| == n
    decreases n, m
  {
    if n == 0 then [] else [m & 1 == 1] + LowBits(m >> 1, n - 1)
  }

  lemma HexShl(v: bv32)
    ensures Hex(v)[0] == (v >= 0x8000_0000) && Hex(v << 1) == Hex(v)[1..] + [false]
  {
    AllLeft();
    BitsShl(v, 0, 32);
    assert BitAt(v, 0) == (v >= 0x8000_0000);
  }

  lemma ShiftBvCases(poly: bv32, v: bv32, d: bool)
    requires Hex(v)[0] == (v >= 0x8000_0000) && Hex(v << 1) == Hex(v)[1..] + [false]
    requires Hex((v << 1) ^ poly) == Xor(Hex(v << 1), Hex(poly))
    ensures Hex(ShiftBv(poly, v, d)) == Lfsr.Shift(Hex(poly), Hex(v), d)
  {
  }

  lemma ShiftBvIsShift(poly: bv32, v: bv32, d: bool)
    ensures Hex(ShiftBv(poly, v, d)) == Lfsr.Shift(Hex(poly), Hex(v), d)
  {
    ShiftBvCases(poly, v, d) by {
      HexShl(v);
      HexXor(v << 1, poly);
    }
  }

  /** The machine form computes what the bit-serial form computes. */
  lemma {:induction false} FoldBvIsFold(poly: bv32, v: bv32, m: bv32, n: nat)
    ensures Hex(FoldBv(poly, v, m, n)) == Lfsr.Fold(Hex(poly), Hex(v), LowBits(m, n))
    decreases n
  {
    if n > 0 {
      var d := m & 1 == 1;
      ShiftBvIsShift(poly, v, d);
      FoldBvIsFold(poly, ShiftBv(poly, v, d), m >> 1, n - 1);
      FoldCons(Hex(poly), Hex(v), d, LowBits(m >> 1, n - 1));
    }
  }

  lemma FoldCons(poly: Bits, reg: Bits, d: bool, rest: Bits)
    requires |reg| == |poly| > 0
    ensures Lfsr.Fold(poly, reg, [d] + rest) == Lfsr.Fold(poly, Lfsr.Shift(poly, reg, d), rest)
  {
  }

  /** The check table: the register after the bytes 0x21, 0x43, 0x65 and 0x87. */
  lemma CheckTable()
    ensures Lfsr.Fold(Hex(0x04C11DB7), Hex(0xFFFF_FFFF), LowBits(0x21, 8)) == Hex(0x34002986)
    ensures Lfsr.Fold(Hex(0x04C11DB7), Hex(0x34002986), LowBits(0x43, 8)) == Hex(0x931736BB)
    ensures Lfsr.Fold(Hex(0x04C11DB7), Hex(0x931736BB), LowBits(0x65, 8)) == Hex(0xD4C1BDFB)
    ensures Lfsr.Fold(Hex(0x04C11DB7), Hex(0xD4C1BDFB), LowBits(0x87, 8)) == Hex(0x024AFDFB)
  {
    FoldBvIsFold(0x04C11DB7, 0xFFFF_FFFF, 0x21, 8);
    FoldBvIsFold(0x04C11DB7, 0x34002986, 0x43, 8);
    FoldBvIsFold(0x04C11DB7, 0x931736BB, 0x65, 8);
    FoldBvIsFold(0x04C11DB7, 0xD4C1BDFB, 0x87, 8);
    assert FoldBv(0x04C11DB7, 0xFFFF_FFFF, 0x21, 8) == 0x34002986;
    assert FoldBv(0x04C11DB7, 0x34002986, 0x43, 8) == 0x931736BB;
    assert FoldBv(0x04C11DB7, 0x931736BB, 0x65, 8) == 0xD4C1BDFB;
    assert FoldBv(0x04C11DB7, 0xD4C1BDFB, 0x87, 8) == 0x024AFDFB;
  }

  lemma {:induction false} ZeroBits(n: nat)
    ensures LowBits(0, n) == Zeros(n)
    decreases n
  {
    if n > 0 {
      ZeroBits(n - 1);
      assert (0 as bv32) >> 1 == 0 && (0 as bv32) & 1 == 0;
      assert Zeros(n) == [false] + Zeros(n - 1);
    }
  }

  lemma MoreZeros(poly: bv32, start: Vector32, n: nat, k: nat, v: bv32, v': bv32)
    requires Lfsr.Fold(Hex(poly), start, Zeros(n)) == Hex(v) && FoldBv(poly, v, 0, k) == v'
    ensures Lfsr.Fold(Hex(poly), start, Zeros(n + k)) == Hex(v')
  {
    ZeroBits(k);
    FoldBvIsFold(poly, v, 0, k);
    Lfsr.FoldAppend(Hex(poly), start, Zeros(n), Zeros(k));
    assert Zeros(n) + Zeros(k) == Zeros(n + k);
  }

  lemma TwoRuns(poly: bv32, start: Vector32, n: nat, k: nat, v: bv32, v1: bv32, v2: bv32)
    requires Lfsr.Fold(Hex(poly), start, Zeros(n)) == Hex(v)
    requires FoldBv(poly, v, 0, k) == v1 && FoldBv(poly, v1, 0, k) == v2
    ensures Lfsr.Fold(Hex(poly), start, Zeros(n + 2 * k)) == Hex(v2)
  {
    MoreZeros(poly, start, n, k, v, v1);
    MoreZeros(poly, start, n + k, k, v1, v2);
  }

  lemma FourRuns(poly: bv32, k: nat, v: bv32, v1: bv32, v2: bv32, v3: bv32, v4: bv32)
    requires FoldBv(poly, v, 0, k) == v1 && FoldBv(poly, v1, 0, k) == v2
    requires FoldBv(poly, v2, 0, k) == v3 && FoldBv(poly, v3, 0, k) == v4
    ensures Lfsr.Fold(Hex(poly), Hex(v), Zeros(4 * k)) == Hex(v4)
  {
    assert Lfsr.Fold(Hex(poly), Hex(v), Zeros(0)) == Hex(v);
    TwoRuns(poly, Hex(v), 0, k, v, v1, v2);
    TwoRuns(poly, Hex(v), 2 * k, k, v2, v3, v4);
  }

  lemma HexComplement(b: bv32)
    ensures Hex(0xFFFF_FFFF ^ b) == Not(Hex(b))
  {
    AllOnes();
    HexXor(0xFFFF_FFFF, b);
    XorNot(Hex(b));
  }

  lemma FeedZeros1()
    ensures FoldBv(0x04C11DB7, 0xFFFF_FFFF, 0, 8) == 0x4E08BFB4
    ensures FoldBv(0x04C11DB7, 0x4E08BFB4, 0, 8) == 0x00B7647D
  {
  }

  lemma FeedZeros2()
    ensures FoldBv(0x04C11DB7, 0x00B7647D, 0, 8) == 0xB7647D00
    ensures FoldBv(0x04C11DB7, 0xB7647D00, 0, 8) == 0xC704DD7B
  {
  }

  /** The residue of Lfsr.Residue for the Ethernet generator, and its complement, which is the
      value the transmitter configures its generator with. */
  lemma ResidueValue()
    ensures Lfsr.Fold(Hex(0x04C11DB7), Ones(32), Zeros(32)) == Hex(0xC704DD7B)
    ensures Hex(0xC704DD7B) == Not(Hex(0x38FB2284))
  {
    FeedZeros1();
    FeedZeros2();
    FourRuns(0x04C11DB7, 8, 0xFFFF_FFFF, 0x4E08BFB4, 0x00B7647D, 0xB7647D00, 0xC704DD7B);
    AllOnes();
    HexComplement(0x38FB2284);
  }
}
