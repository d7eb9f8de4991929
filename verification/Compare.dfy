/** Comparison functions, as the trees and sort() take them. */
module Compare {
  /** The sign of cmp(x, y) says how x compares with y. */
  type Cmp<!T> = (T, T) -> int

  ghost predicate TotalPreorder<T(!new)>(cmp: Cmp<T>) {
    && (forall x, y :: cmp(x, y) < 0 <==> cmp(y, x) > 0)
    && (forall x, y, z :: cmp(x, y) <= 0 && cmp(y, z) <= 0 ==> cmp(x, z) <= 0)
  }

  lemma {:induction false} Trans<T(!new)>(x: T, y: T, z: T, cmp: Cmp<T>)
    requires TotalPreorder(cmp) && cmp(x, y) >= 0 && cmp(y, z) >= 0
    ensures cmp(x, z) >= 0
  {
    assert cmp(z, y) <= 0 && cmp(y, x) <= 0;
    assert cmp(z, x) <= 0;
  }

  lemma {:induction false} Flip<T(!new)>(x: T, y: T, cmp: Cmp<T>)
    requires TotalPreorder(cmp)
    ensures cmp(x, y) <= 0 <==> cmp(y, x) >= 0
  {}

  lemma {:induction false} Smaller<T(!new)>(x: T, y: T, z: T, cmp: Cmp<T>)
    requires TotalPreorder(cmp) && cmp(x, y) >= 0 && cmp(x, z) < 0
    ensures cmp(y, z) < 0
  {
    assert cmp(y, x) <= 0 && cmp(z, x) > 0;
    assert cmp(z, y) <= 0 ==> cmp(z, x) <= 0;
  }
}
