/**
 Signs of squares and products of real samples.
 */
module Squares {

  lemma SquareBound(x: real, y: real)
    requires x != y
    ensures x * y + x * y < x * x + y * y
  {
    var d := x - y;
    var r := d * d;
    assert d > 0.0 || d < 0.0;
    Square(d, d, r);
    Expand(x, y, d, r);
  }

  lemma Expand(x: real, y: real, d: real, r: real)
    requires d == x - y && r == d * (x - y)
    ensures r == x * x + y * y - (x * y + x * y)
  {
    assert d * (x - y) == d * x - d * y;
    assert d * x == x * x - x * y && d * y == x * y - y * y;
  }

  lemma Square(d: real, e: real, r: real)
    requires r == d * e && d == e && (d > 0.0 || d < 0.0)
    ensures r > 0.0
  {
    if d > 0.0 {
      Positive(d, e, r);
    } else {
      var p, q := 0.0 - d, 0.0 - e;
      assert p * q == p * (0.0 - e) == 0.0 - p * e;
      assert p * e == (0.0 - d) * e == 0.0 - d * e;
      Positive(p, q, r);
    }
  }

  lemma Positive(x: real, y: real, r: real)
    requires x > 0.0 && y > 0.0 && r == x * y
    ensures r > 0.0
  {
  }

  lemma SquareSign(d: real, r: real)
    requires r == d * d
    ensures if d == 0.0 then r == 0.0 else r > 0.0
  {
    if d > 0.0 || d < 0.0 {
      Square(d, d, r);
    }
  }
}
