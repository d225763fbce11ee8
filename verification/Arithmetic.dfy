/** Division and remainder of a counter that is incremented. */
module Arithmetic {
  lemma MulDistributes(p: int, q: int, b: int)
    ensures (p - q) * b == p * b - q * b
  {
  }

  lemma MulAtLeast(p: int, b: int)
    requires p >= 1 && b >= 1
    ensures p * b >= b
  {
  }

  lemma DivMod(x: int, b: int)
    requires b >= 1
    ensures x == (x / b) * b + x % b && 0 <= x % b < b
  {
  }

  lemma ModIs(q: int, b: int, r: int, x: int)
    requires 0 <= r < b && x == q * b + r
    ensures x % b == r
  {
    DivMod(x, b);
    var p := x / b;
    MulDistributes(p, q, b);
    MulDistributes(q, p, b);
    if p > q {
      MulAtLeast(p - q, b);
    } else if p < q {
      MulAtLeast(q - p, b);
    }
  }

  lemma NextMod(p: int, b: int)
    requires b >= 1
    ensures (p + 1) % b == if p % b + 1 == b then 0 else p % b + 1
  {
    DivMod(p, b);
    var q, r := p / b, p % b;
    if r + 1 == b {
      MulDistributes(q + 1, 1, b);
      ModIs(q + 1, b, 0, p + 1);
    } else {
      ModIs(q, b, r + 1, p + 1);
    }
  }
}
