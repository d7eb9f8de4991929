/** Powers of two. */
module Powers {
  import Arith

  function Pow2(n: nat): (p: nat)
    ensures p > 0
  {
    if n == 0 then 1 else 2 * Pow2(n - 1)
  }

  lemma {:induction false} Pow2Sum(a: nat, b: nat)
    ensures Pow2(a + b) == Pow2(a) * Pow2(b)
  {
    if a > 0 {
      Pow2Sum(a - 1, b);
      Arith.Assoc(2, Pow2(a - 1), Pow2(b));
      assert (a + b) - 1 == (a - 1) + b;
    }
  }

  lemma {:induction false} Pow2Mono(a: nat, b: nat)
    requires a <= b
    ensures 0 < Pow2(a) <= Pow2(b)
  {
    if a < b { Pow2Mono(a, b - 1); } else if a > 0 { Pow2Mono(a - 1, a - 1); }
  }
}
