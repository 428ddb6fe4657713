/** Products and quotients by a variable, which the solver does not settle on its own. */
module Arithmetic {

  lemma MulMonotone(a: nat, b: nat, t: nat)
    requires a <= b
    ensures a * t <= b * t
  {
  }

  lemma MulStep(a: nat, b: nat, n: nat)
    ensures a < b ==> a * n + n <= b * n
  {
    if a < b {
      MulMonotone(a + 1, b, n);
    }
  }

  lemma DivMonotone(a: nat, b: nat, n: nat)
    requires a <= b && n > 0
    ensures a / n <= b / n
  {
    if b / n < a / n {
      MulMonotone(b / n + 1, a / n, n);
    }
  }

  lemma DivNext(r: nat, n: nat)
    requires n > 0
    ensures (r + n) / n == r / n + 1
  {
    var q := (r + n) / n;
    assert r == r / n * n + r % n;
    assert r + n == q * n + (r + n) % n;
    assert (r / n + 1) * n == r / n * n + n;
    MulStep(q, r / n + 1, n);
    MulStep(r / n + 1, q, n);
  }

  /** Rounding a quotient up. */
  lemma DivUp(a: nat, n: nat)
    requires n > 0
    ensures (a + n - 1) / n == if a % n == 0 then a / n else a / n + 1
  {
    var q, r := a / n, a % n;
    assert a == q * n + r;
    if r == 0 {
      DivOf(q, n - 1, n);
    } else {
      assert (q + 1) * n == q * n + n;
      DivOf(q + 1, r - 1, n);
    }
  }

  lemma DivOf(q: nat, r: nat, n: nat)
    requires r < n
    ensures (q * n + r) / n == q
  {
    var p := (q * n + r) / n;
    assert q * n + r == p * n + (q * n + r) % n;
    MulStep(p, q, n);
    MulStep(q, p, n);
  }
}
