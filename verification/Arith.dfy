/** The smaller of two numbers, and facts about products and quotients. */
module Arith {

  function Min(a: int, b: int): int {
    if a < b then a else b
  }

  lemma MulMonotone(a: int, b: int, c: int, d: int)
    requires 0 <= a <= c && 0 <= b <= d
    ensures a * b <= c * d
  {
    assert a * b <= c * b;
    assert c * b <= c * d;
  }

  lemma MulAtLeast(k: int, e: int)
    requires e > 0
    ensures k >= 1 ==> k * e >= e
    ensures k <= -1 ==> k * e <= -e
  {
  }

  lemma MultipleMod(d: int, e: int)
    requires e > 0
    ensures (d * e) % e == 0
  {
    var q, r := (d * e) / e, (d * e) % e;
    assert (d - q) * e == r;
    MulAtLeast(d - q, e);
  }

  lemma DivUnique(n: int, d: int, q: int, r: int)
    requires d > 0 && n == d * q + r && 0 <= r < d
    ensures n / d == q
  {
    var k := n / d - q;
    assert k * d == r - n % d;
    MulAtLeast(k, d);
  }
}
