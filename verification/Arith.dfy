/** Quotients and remainders by a number that is not a constant. */
module Arith {
  lemma {:induction false} NonNeg(a: int, b: int)
    requires a >= 0 && b >= 0
    ensures a * b >= 0
  {}

  lemma {:induction false} Dist(m: int, a: int, b: int)
    ensures m * (a + b) == m * a + m * b && m * (a - b) == m * a - m * b
  {}

  lemma {:induction false} Small(m: int, d: int)
    requires m > 0 && -m < m * d < m
    ensures d == 0
  {
    if d >= 1 { NonNeg(m, d - 1); Dist(m, d, 1); } else if d <= -1 { NonNeg(m, -1 - d); Dist(m, -1, d); }
  }

  lemma {:induction false} DivMod(x: int, m: int)
    requires m > 0
    ensures x == m * (x / m) + x % m && 0 <= x % m < m
  {}

  lemma {:induction false} RestIs(x: int, m: int, q: int, r: int)
    requires m > 0 && x == m * q + r && 0 <= r < m
    ensures x % m == r
  {
    DivMod(x, m);
    var p, s := x / m, x % m;
    Dist(m, p, q);
    Small(m, p - q);
  }

  lemma {:induction false} RestOff(z: int, m: int, j: int)
    requires m > 0
    ensures (z - m * j) % m == z % m
  {
    DivMod(z, m);
    Dist(m, z / m, j);
    RestIs(z - m * j, m, z / m - j, z % m);
  }

  lemma {:induction false} Apart(a: nat, b: nat, m: int)
    requires m > 0 && a % m == 0 && b % m == 0 && a < b
    ensures b - a >= m
  {
    DivMod(a, m);
    DivMod(b, m);
    Dist(m, b / m, a / m);
    if b - a < m { Small(m, b / m - a / m); }
  }

  lemma {:induction false} Assoc(a: int, b: int, c: int)
    ensures (a * b) * c == a * (b * c)
  {}
}
