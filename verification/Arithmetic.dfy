/** Minimum, maximum and doubling. */
module Arithmetic {

  function Min(a: int, b: int): int {
    if a < b then a else b
  }

  function Max(a: int, b: int): int {
    if a < b then b else a
  }

  /** x * 2 ** times */
  function Doubled(x: nat, times: nat): nat
    decreases times
  {
    if times == 0 then x else Doubled(2 * x, times - 1)
  }

  lemma {:induction false} DoubledNext(x: nat, times: nat)
    ensures Doubled(x, times + 1) == 2 * Doubled(x, times)
    decreases times
  {
    if times > 0 {
      DoubledNext(2 * x, times - 1);
    }
  }

  lemma {:induction false} DoubledGrows(x: nat, times: nat)
    ensures x <= Doubled(x, times)
    decreases times
  {
    if times > 0 {
      DoubledGrows(2 * x, times - 1);
    }
  }

  lemma {:induction false} DoubledMonotone(x: nat, a: nat, b: nat)
    requires a <= b
    ensures Doubled(x, a) <= Doubled(x, b)
    decreases a
  {
    if a == 0 {
      DoubledGrows(x, b);
    } else {
      DoubledMonotone(2 * x, a - 1, b - 1);
    }
  }
}
