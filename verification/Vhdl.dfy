/**
 Vectors of fixed width, and the hexadecimal literals that stand for them.
 */
module Vhdl {
  import opened Gf2

  type Vector32 = r: Bits | |r| == 32 witness Zeros(32)
  type Vector16 = w: Bits | |w| == 16 witness Zeros(16)

  /** Bit 31 - i of v. */
  function BitAt(v: bv32, i: bv32): bool {
    i < 32 && v & (0x8000_0000 >> i) != 0
  }

  function BitsFrom(v: bv32, i: bv32, n: nat): (r: Bits)
    ensures |r| == n
    decreases n, v
  {
    if n == 0 then [] else [BitAt(v, i)] + BitsFrom(v, i + 1, n - 1)
  }

  /** The vector a hexadecimal literal stands for. */
  function Hex(v: bv32): (r: Vector32) {
    BitsFrom(v, 0, 32)
  }

  /** n bits remain from index i on. */
  ghost predicate Left(i: bv32, n: nat)
    decreases n
  {
    if n == 0 then i == 32 else i < 32 && Left(i + 1, n - 1)
  }

  lemma AllLeft()
    ensures Left(0, 32)
  {
    assert Left(24, 8);
    assert Left(16, 16);
    assert Left(8, 24);
  }

  lemma {:induction false} LastBit(v: bv32, i: bv32, n: nat)
    requires n > 0 && Left(i, n)
    ensures BitsFrom(v, i, n)[n - 1] == BitAt(v, 31)
    decreases n
  {
    if n > 1 {
      LastBit(v, i + 1, n - 1);
    }
  }

  lemma LowestBit(v: bv32)
    ensures Hex(v)[31] == BitAt(v, 31)
  {
    AllLeft();
    LastBit(v, 0, 32);
  }

  lemma BitXor(a: bv32, b: bv32, i: bv32)
    ensures BitAt(a ^ b, i) == (BitAt(a, i) != BitAt(b, i))
  {
  }

  lemma BitShl(a: bv32, i: bv32)
    ensures BitAt(a << 1, i) == (i < 31 && BitAt(a, i + 1))
  {
  }

  lemma {:induction false} BitsXor(a: bv32, b: bv32, i: bv32, n: nat)
    ensures BitsFrom(a ^ b, i, n) == Xor(BitsFrom(a, i, n), BitsFrom(b, i, n))
    decreases n
  {
    if n > 0 {
      BitXor(a, b, i);
      BitsXor(a, b, i + 1, n - 1);
      XorCons(BitAt(a, i), BitsFrom(a, i + 1, n - 1), BitAt(b, i), BitsFrom(b, i + 1, n - 1));
    }
  }

  lemma HexXor(a: bv32, b: bv32)
    ensures Hex(a ^ b) == Xor(Hex(a), Hex(b))
  {
    BitsXor(a, b, 0, 32);
  }

  lemma {:induction false} BitsShl(a: bv32, i: bv32, n: nat)
    requires n > 0 && Left(i, n)
    ensures BitsFrom(a << 1, i, n) == BitsFrom(a, i + 1, n - 1) + [false]
    decreases n
  {
    BitShl(a, i);
    if n > 1 {
      BitsShl(a, i + 1, n - 1);
    }
  }

  lemma {:induction false} OnesFrom(i: bv32, n: nat)
    requires Left(i, n)
    ensures BitsFrom(0xFFFF_FFFF, i, n) == Ones(n)
    decreases n
  {
    if n > 0 {
      OnesFrom(i + 1, n - 1);
      assert BitAt(0xFFFF_FFFF, i);
    }
  }

  lemma AllOnes()
    ensures Hex(0xFFFF_FFFF) == Ones(32)
  {
    AllLeft();
    OnesFrom(0, 32);
  }
}
