/** Powers of two and the integer logarithms the collector computes with `leading_zeros`. */
module Powers {

  function Pow2(n: nat): (r: nat)
    ensures r >= 1
  {
    if n == 0 then 1 else 2 * Pow2(n - 1)
  }

  lemma {:induction false} Pow2Monotone(a: nat, b: nat)
    requires a <= b
    ensures Pow2(a) <= Pow2(b)
    ensures a < b ==> 2 * Pow2(a) <= Pow2(b)
    decreases b - a
  {
    if a < b {
      Pow2Monotone(a, b - 1);
    }
  }

  lemma {:induction false} Pow2Sum(a: nat, b: nat)
    ensures Pow2(a + b) == Pow2(a) * Pow2(b)
  {
    if b > 0 {
      Pow2Sum(a, b - 1);
    }
  }

  /** Two powers that bracket a number bracket it uniquely. */
  lemma {:induction false} BracketUnique(a: nat, b: nat, v: nat)
    requires Pow2(a) <= v < Pow2(a + 1)
    requires Pow2(b) <= v < Pow2(b + 1)
    ensures a == b
  {
    if a < b {
      Pow2Monotone(a + 1, b);
    } else if b < a {
      Pow2Monotone(b + 1, a);
    }
  }

  /** `log2i_graceful` on a positive argument: the position of the highest set bit. */
  function FloorLog2(v: nat): (r: nat)
    requires v > 0
    ensures Pow2(r) <= v < Pow2(r + 1)
  {
    if v == 1 then 0 else 1 + FloorLog2(v / 2)
  }
}
