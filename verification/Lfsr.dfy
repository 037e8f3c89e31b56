/**
 A serial divider: a shift register with feedback taps, fed one data bit per step. The theory
 holds for every tap vector whose lowest bit is set.
 */
module Lfsr {
  import opened Gf2

  ghost predicate IsPoly(poly: Bits) {
    |poly| > 0 && poly[|poly| - 1]
  }

  /** Shift in one data bit: subtract the generator when the bit leaving the top differs from it. */
  function Shift(poly: Bits, reg: Bits, d: bool): (r: Bits)
    requires |reg| == |poly| > 0
    ensures |r| == |poly|
  {
    if reg[0] != d then Xor(reg[1..] + [false], poly) else reg[1..] + [false]
  }

  /** The register after a message, in the order its bits are consumed. */
  function Fold(poly: Bits, reg: Bits, message: Bits): (r: Bits)
    requires |reg| == |poly| > 0
    ensures |r| == |poly|
    decreases message
  {
    if message == [] then reg else Fold(poly, Shift(poly, reg, message[0]), message[1..])
  }

  lemma {:induction false} FoldAppend(poly: Bits, reg: Bits, a: Bits, b: Bits)
    requires |reg| == |poly| > 0
    ensures Fold(poly, reg, a + b) == Fold(poly, Fold(poly, reg, a), b)
    decreases a
  {
    if a == [] {
      assert a + b == b;
    } else {
      assert (a + b)[1..] == a[1..] + b;
      FoldAppend(poly, Shift(poly, reg, a[0]), a[1..], b);
    }
  }

  // ----- The register is a polynomial remainder -----

  /** The feedback bits are the coefficients of the quotient. */
  function Quotient(poly: Bits, reg: Bits, message: Bits): (q: Bits)
    requires |reg| == |poly| > 0
    ensures |q| == |message|
    decreases message
  {
    if message == [] then []
    else [reg[0] != message[0]] + Quotient(poly, Shift(poly, reg, message[0]), message[1..])
  }

  /** reg * x^n + message * x^w, for a message of n bits and a register of w bits. */
  function Dividend(reg: Bits, message: Bits): (r: Bits)
    ensures |r| == |message| + |reg|
  {
    Xor(reg + Zeros(|message|), message + Zeros(|reg|))
  }

  lemma DividendAt(reg: Bits, message: Bits, i: nat)
    requires i < |message| + |reg|
    ensures Dividend(reg, message)[i] == ((i < |reg| && reg[i]) != (i < |message| && message[i]))
  {
  }

  lemma ShiftAt(poly: Bits, reg: Bits, d: bool, i: nat)
    requires |reg| == |poly| > i
    ensures Shift(poly, reg, d)[i] == ((i + 1 < |reg| && reg[i + 1]) != (reg[0] != d && poly[i]))
  {
  }

  /** One step of long division: the top coefficient goes to the quotient. */
  lemma DivisionStep(poly: Bits, reg: Bits, d: bool, rest: Bits)
    requires |reg| == |poly| > 0
    ensures Dividend(reg, [d] + rest)
      == Xor(Term(reg[0] != d, [true] + poly, |rest|), [false] + Dividend(Shift(poly, reg, d), rest))
  {
    var next, term := Shift(poly, reg, d), Term(reg[0] != d, [true] + poly, |rest|);
    var lhs, rhs := Dividend(reg, [d] + rest), Xor(term, [false] + Dividend(next, rest));
    forall i | 0 <= i < |lhs| ensures lhs[i] == rhs[i] {
      DividendAt(reg, [d] + rest, i);
      if i > 0 {
        assert rhs[i] == (term[i] != Dividend(next, rest)[i - 1]);
        DividendAt(next, rest, i - 1);
        if i <= |poly| {
          ShiftAt(poly, reg, d, i - 1);
        }
      }
    }
  }

  /** Dividing off the feedback bits leaves the register. */
  lemma {:induction false} FoldDivides(poly: Bits, reg: Bits, message: Bits)
    requires |reg| == |poly| > 0
    ensures Recompose(Quotient(poly, reg, message), [true] + poly, Fold(poly, reg, message)) == Dividend(reg, message)
    decreases message
  {
    var q, g, r := Quotient(poly, reg, message), [true] + poly, Fold(poly, reg, message);
    if message == [] {
      RecomposeNil(g, r);
      assert reg + Zeros(0) == reg && [] + Zeros(|reg|) == Zeros(|reg|);
      XorSelf(reg);
    } else {
      assert message == [message[0]] + message[1..];
      DivisionStep(poly, reg, message[0], message[1..]);
      FoldDivides(poly, Shift(poly, reg, message[0]), message[1..]);
      RecomposeStep(q, g, r);
      assert q[1..] == Quotient(poly, Shift(poly, reg, message[0]), message[1..]);
    }
  }

  /** The register is THE remainder: no other quotient and remainder give the same dividend. */
  lemma FoldIsRemainder(poly: Bits, reg: Bits, message: Bits, q: Bits, r: Bits)
    requires |r| == |reg| == |poly| > 0 && |q| == |message|
    ensures Recompose(q, [true] + poly, r) == Dividend(reg, message)
      <==> q == Quotient(poly, reg, message) && r == Fold(poly, reg, message)
  {
    FoldDivides(poly, reg, message);
    if Recompose(q, [true] + poly, r) == Dividend(reg, message) {
      DivisionUnique([true] + poly, q, r, Quotient(poly, reg, message), Fold(poly, reg, message));
    }
  }

  // ----- Linearity and injectivity -----

  lemma ShiftLinear(poly: Bits, a: Bits, b: Bits, x: bool, y: bool)
    requires |a| == |b| == |poly| > 0
    ensures Shift(poly, Xor(a, b), x != y) == Xor(Shift(poly, a, x), Shift(poly, b, y))
  {
  }

  lemma {:induction false} FoldLinear(poly: Bits, a: Bits, b: Bits, m: Bits, n: Bits)
    requires |a| == |b| == |poly| > 0 && |m| == |n|
    ensures Fold(poly, Xor(a, b), Xor(m, n)) == Xor(Fold(poly, a, m), Fold(poly, b, n))
    decreases m
  {
    if m != [] {
      ShiftLinear(poly, a, b, m[0], n[0]);
      assert Xor(m, n)[1..] == Xor(m[1..], n[1..]);
      FoldLinear(poly, Shift(poly, a, m[0]), Shift(poly, b, n[0]), m[1..], n[1..]);
    }
  }

  /** A step can be undone: with the same data bit, different registers stay different. */
  lemma ShiftInjective(poly: Bits, a: Bits, b: Bits, d: bool)
    requires IsPoly(poly) && |a| == |b| == |poly|
    requires Shift(poly, a, d) == Shift(poly, b, d)
    ensures a == b
  {
    var w := |poly|;
    var sa, sb := Shift(poly, a, d), Shift(poly, b, d);
    assert sa[w - 1] == (a[0] != d) && sb[w - 1] == (b[0] != d);
    forall i | 0 < i < w ensures a[i] == b[i] {
      assert sa[i - 1] == sb[i - 1];
    }
  }

  lemma {:induction false} FoldInjective(poly: Bits, a: Bits, b: Bits, m: Bits)
    requires IsPoly(poly) && |a| == |b| == |poly|
    requires Fold(poly, a, m) == Fold(poly, b, m)
    ensures a == b
    decreases m
  {
    if m != [] {
      FoldInjective(poly, Shift(poly, a, m[0]), Shift(poly, b, m[0]), m[1..]);
      ShiftInjective(poly, a, b, m[0]);
    }
  }

  // ----- A message as long as the register, and bursts -----

  /** A message padded to the width of the register, at its top end. */
  function Pad(message: Bits, w: nat): (r: Bits)
    requires |message| <= w
    ensures |r| == w
  {
    message + Zeros(w - |message|)
  }

  lemma AbsorbStep(poly: Bits, reg: Bits, d: bool, rest: Bits)
    requires |reg| == |poly| > 0 && |rest| < |poly|
    ensures Xor(Shift(poly, reg, d), Pad(rest, |reg|)) == Shift(poly, Xor(reg, Pad([d] + rest, |reg|)), false)
  {
  }

  /** Feeding at most w bits is the same as adding them to the top of the register and feeding zeros. */
  lemma {:induction false} FoldAbsorbs(poly: Bits, reg: Bits, message: Bits)
    requires |reg| == |poly| > 0 && |message| <= |poly|
    ensures Fold(poly, reg, message) == Fold(poly, Xor(reg, Pad(message, |reg|)), Zeros(|message|))
    decreases message
  {
    if message == [] {
      XorSelf(reg);
      assert Pad(message, |reg|) == Zeros(|reg|);
    } else {
      assert message == [message[0]] + message[1..];
      FoldAbsorbs(poly, Shift(poly, reg, message[0]), message[1..]);
      AbsorbStep(poly, reg, message[0], message[1..]);
      assert Zeros(|message|)[1..] == Zeros(|message| - 1);
    }
  }

  lemma {:induction false} FoldZero(poly: Bits, n: nat)
    requires |poly| > 0
    ensures Fold(poly, Zeros(|poly|), Zeros(n)) == Zeros(|poly|)
    decreases n
  {
    if n > 0 {
      assert Zeros(n)[1..] == Zeros(n - 1);
      assert Shift(poly, Zeros(|poly|), false) == Zeros(|poly|);
      FoldZero(poly, n - 1);
    }
  }

  lemma XorZeroIff(a: Bits, b: Bits)
    requires |a| == |b|
    ensures Xor(a, b) == Zeros(|a|) <==> a == b
  {
  }

  /** A nonzero burst no longer than the register leaves a nonzero register. */
  lemma BurstFromZero(poly: Bits, burst: Bits)
    requires IsPoly(poly) && |burst| <= |poly|
    requires Fold(poly, Zeros(|poly|), burst) == Zeros(|poly|)
    ensures burst == Zeros(|burst|)
  {
    var n, padded := |burst|, Pad(burst, |poly|);
    FoldAbsorbs(poly, Zeros(|poly|), burst);
    XorSelf(padded);
    FoldZero(poly, n);
    FoldInjective(poly, padded, Zeros(|poly|), Zeros(n));
    assert burst == padded[..n] == Zeros(|poly|)[..n];
  }

  /** Two bursts into the same register that leave the same register are the same. */
  lemma BurstInjective(poly: Bits, reg: Bits, a: Bits, b: Bits)
    requires IsPoly(poly) && |reg| == |poly| && |a| == |b| <= |poly|
    requires Fold(poly, reg, a) == Fold(poly, reg, b)
    ensures a == b
  {
    FoldLinear(poly, reg, reg, a, b);
    XorSelf(reg);
    XorSelf(Fold(poly, reg, a));
    BurstFromZero(poly, Xor(a, b));
    XorZeroIff(a, b);
  }

  lemma FoldAppend3(poly: Bits, reg: Bits, a: Bits, b: Bits, c: Bits)
    requires |reg| == |poly| > 0
    ensures Fold(poly, reg, a + b + c) == Fold(poly, Fold(poly, Fold(poly, reg, a), b), c)
  {
    FoldAppend(poly, reg, a + b, c);
    FoldAppend(poly, reg, a, b);
  }

  /** Two messages that differ, and only inside a window of at most w bits, leave different registers. */
  lemma BurstDetected(poly: Bits, reg: Bits, before: Bits, a: Bits, b: Bits, after: Bits)
    requires IsPoly(poly) && |reg| == |poly| && |a| == |b| <= |poly| && a != b
    ensures Fold(poly, reg, before + a + after) != Fold(poly, reg, before + b + after)
  {
    var mid := Fold(poly, reg, before);
    FoldAppend3(poly, reg, before, a, after);
    FoldAppend3(poly, reg, before, b, after);
    if Fold(poly, Fold(poly, mid, a), after) == Fold(poly, Fold(poly, mid, b), after) {
      FoldInjective(poly, Fold(poly, mid, a), Fold(poly, mid, b), after);
      BurstInjective(poly, mid, a, b);
    }
  }

  /** Appending the complement of the register to a message leaves the same register whatever the
      message and the initial value: every step of the last w takes the feedback branch. */
  lemma Residue(poly: Bits, init: Bits, message: Bits)
    requires |init| == |poly| > 0
    ensures Fold(poly, init, message + Not(Fold(poly, init, message))) == Fold(poly, Ones(|poly|), Zeros(|poly|))
  {
    var reg := Fold(poly, init, message);
    FoldAppend(poly, init, message, Not(reg));
    FoldAbsorbs(poly, reg, Not(reg));
    assert Pad(Not(reg), |reg|) == Not(reg);
    XorNot(reg);
  }
}
