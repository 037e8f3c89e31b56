/**
 Quotients and remainders by a variable divisor.
 */
module Division {

  lemma MultipleBound(d: int, n: nat)
    ensures (d >= 1 ==> d * n >= n) && (d <= -1 ==> d * n + n <= 0)
  {
  }

  lemma DivUnique(a: int, q: int, r: int, n: nat)
    requires n > 0 && a == q * n + r && 0 <= r < n
    ensures a % n == r && a / n == q
  {
    var d := a / n - q;
    assert a == a / n * n + a % n;
    assert d * n == r - a % n;
    MultipleBound(d, n);
  }

  lemma ModStep(a: int, n: nat)
    requires n > 0
    ensures (a + n) % n == a % n
  {
    DivUnique(a + n, a / n + 1, a % n, n);
  }

  lemma ModNext(n: nat, m: nat)
    requires m > 0
    ensures (n + 1) % m == if n % m == m - 1 then 0 else n % m + 1
  {
    var q, r := n / m, n % m;
    if r == m - 1 {
      DivUnique(n + 1, q + 1, 0, m);
    } else {
      DivUnique(n + 1, q, r + 1, m);
    }
  }

  lemma QuotientBelow(x: nat, n: nat, k: nat)
    requires x < n * k
    ensures k > 0 && x / k < n
  {
    assert k > 0;
    var q, r := x / k, x % k;
    assert x == q * k + r;
    assert (n - q) * k == n * k - q * k;
    MultipleBound(n - q, k);
  }

  lemma QuotientOf(b: nat, o: nat, k: nat)
    requires o < k
    ensures (b * k + o) / k == b
  {
    DivUnique(b * k + o, b, o, k);
  }
}
