/**
 Bit vectors and polynomials over GF(2).

 A `std_logic_vector(n-1 downto 0)` is a sequence of n bits, most significant bit first.
 The same sequence read as a polynomial has its highest coefficient first.
 */
module Gf2 {

  type Bits = seq<bool>

  function Zeros(n: nat): (r: Bits)
    ensures |r| == n && forall i :: 0 <= i < n ==> !r[i]
  {
    seq(n, i => false)
  }

  function Ones(n: nat): (r: Bits)
    ensures |r| == n && forall i :: 0 <= i < n ==> r[i]
  {
    seq(n, i => true)
  }

  function Xor(a: Bits, b: Bits): (r: Bits)
    requires |a| == |b|
    ensures |r| == |a| && forall i :: 0 <= i < |a| ==> r[i] == (a[i] != b[i])
  {
    seq(|a|, i requires 0 <= i < |a| => a[i] != b[i])
  }

  function Not(a: Bits): (r: Bits)
    ensures |r| == |a| && forall i :: 0 <= i < |a| ==> r[i] == !a[i]
  {
    seq(|a|, i requires 0 <= i < |a| => !a[i])
  }

  lemma XorSelf(a: Bits)
    ensures Xor(a, a) == Zeros(|a|) && Xor(a, Zeros(|a|)) == Xor(Zeros(|a|), a) == a
  {
  }

  lemma XorCons(x: bool, a: Bits, y: bool, b: Bits)
    requires |a| == |b|
    ensures Xor([x] + a, [y] + b) == [x != y] + Xor(a, b)
  {
  }

  lemma XorNot(a: Bits)
    ensures Xor(a, Not(a)) == Ones(|a|) && Xor(Ones(|a|), a) == Not(a)
  {
  }

  lemma XorCancel(a: Bits, b: Bits, c: Bits)
    requires |a| == |b| == |c| && Xor(a, b) == Xor(a, c)
    ensures b == c
  {
  }

  // ----- Polynomials -----

  /** b * g(x) * x^n */
  function Term(b: bool, g: Bits, n: nat): (r: Bits)
    ensures |r| == |g| + n
  {
    if b then g + Zeros(n) else Zeros(|g| + n)
  }

  /** q(x) * g(x): schoolbook multiplication, one shifted copy of g per coefficient of q. */
  function Mul(q: Bits, g: Bits): (r: Bits)
    requires |g| > 0
    ensures |r| == |q| + |g| - 1
  {
    if q == [] then Zeros(|g| - 1) else Xor(Term(q[0], g, |q| - 1), [false] + Mul(q[1..], g))
  }

  /** q * g + r, with deg r < deg g. */
  function Recompose(q: Bits, g: Bits, r: Bits): (dividend: Bits)
    requires |g| > 0 && |r| == |g| - 1
    ensures |dividend| == |q| + |r|
  {
    Xor(Mul(q, g), Zeros(|q|) + r)
  }

  lemma RecomposeNil(g: Bits, r: Bits)
    requires |g| > 0 && |r| == |g| - 1
    ensures Recompose([], g, r) == r
  {
  }

  lemma RecomposeStep(q: Bits, g: Bits, r: Bits)
    requires |g| > 0 && |r| == |g| - 1 && q != []
    ensures Recompose(q, g, r) == Xor(Term(q[0], g, |q| - 1), [false] + Recompose(q[1..], g, r))
  {
  }

  /** Division by a polynomial with a nonzero leading coefficient has one quotient and one remainder. */
  lemma {:induction false} DivisionUnique(g: Bits, q: Bits, r: Bits, q': Bits, r': Bits)
    requires |g| > 0 && g[0] && |q| == |q'| && |r| == |r'| == |g| - 1
    requires Recompose(q, g, r) == Recompose(q', g, r')
    ensures q == q' && r == r'
  {
    if q == [] {
      RecomposeNil(g, r);
      RecomposeNil(g, r');
    } else {
      RecomposeStep(q, g, r);
      RecomposeStep(q', g, r');
      assert q[0] == Recompose(q, g, r)[0] == q'[0];
      var t, t' := Recompose(q[1..], g, r), Recompose(q'[1..], g, r');
      XorCancel(Term(q[0], g, |q| - 1), [false] + t, [false] + t');
      assert t == ([false] + t)[1..] == ([false] + t')[1..] == t';
      DivisionUnique(g, q[1..], r, q'[1..], r');
      assert q == [q[0]] + q[1..] && q' == [q'[0]] + q'[1..];
    }
  }
}
