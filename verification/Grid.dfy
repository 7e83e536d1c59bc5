/** Addresses reached by repeated pointer increments, without multiplication. */
module Grid {
  /** base advanced n times by step. */
  function At(base: nat, step: nat, n: nat): (a: nat)
    ensures a >= base
  {
    if n == 0 then base else At(base, step, n - 1) + step
  }

  lemma {:induction false} AtMono(base: nat, step: nat, m: nat, n: nat)
    requires m <= n
    ensures At(base, step, m) <= At(base, step, n)
    ensures m < n ==> At(base, step, m) + step <= At(base, step, n)
    decreases n
  {
    if m < n {
      AtMono(base, step, m, n - 1);
    }
  }

  lemma {:induction false} AtProduct(base: nat, step: nat, n: nat)
    ensures At(base, step, n) == base + n * step
  {
    if n > 0 {
      AtProduct(base, step, n - 1);
      assert n * step == (n - 1) * step + step;
    }
  }

  /** Advancing from an advanced base. */
  lemma {:induction false} AtShift(base: nat, step: nat, m: nat, n: nat)
    ensures At(At(base, step, m), step, n) == At(base, step, m + n)
  {
    if n > 0 {
      AtShift(base, step, m, n - 1);
    }
  }

  /** A cell of a grid is reached from one row and one column only. */
  lemma CellUnique(base: nat, step: nat, r: nat, c: nat, r': nat, c': nat)
    requires c < step && c' < step && At(base, step, r) + c == At(base, step, r') + c'
    ensures r == r' && c == c'
  {
    if r < r' {
      AtMono(base, step, r, r');
    } else if r' < r {
      AtMono(base, step, r', r);
    }
  }

  /** Two buffers that are not the same object. */
  predicate Apart(a: object, b: object) {
    a != b
  }
}
