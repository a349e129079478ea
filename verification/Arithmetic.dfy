/** Products of natural numbers as repeated addition, which keeps multiplication out of the proofs about shapes. */
module Arithmetic {
  /** a * n */
  function Times(a: nat, n: nat): nat {
    if a == 0 then 0 else Times(a - 1, n) + n
  }

  lemma {:induction false} TimesIs(a: nat, n: nat)
    ensures Times(a, n) == a * n
  {
    if a > 0 {
      TimesIs(a - 1, n);
      assert a * n == (a - 1) * n + n;
    }
  }

  lemma {:induction false} TimesAdd(a: nat, b: nat, n: nat)
    ensures Times(a + b, n) == Times(a, n) + Times(b, n)
  {
    if b > 0 {
      TimesAdd(a, b - 1, n);
    }
  }

  lemma {:induction false} TimesTimes(a: nat, b: nat, n: nat)
    ensures Times(Times(a, b), n) == Times(a, Times(b, n))
  {
    if a > 0 {
      TimesTimes(a - 1, b, n);
      TimesAdd(Times(a - 1, b), b, n);
    }
  }

  lemma TimesSwap(a: nat, b: nat)
    ensures Times(a, b) == Times(b, a)
  {
    TimesIs(a, b);
    TimesIs(b, a);
  }

  lemma TimesBound(a: nat, b: nat, n: nat, k: nat)
    requires a < b && k < n
    ensures Times(a, n) + k < Times(b, n)
  {
    TimesAdd(a + 1, b - a - 1, n);
  }

  lemma SameQuotient(a: nat, b: nat, n: nat, j: nat, k: nat)
    requires j < n && k < n && Times(a, n) + j == Times(b, n) + k
    ensures a == b && j == k
  {
    if a < b {
      TimesBound(a, b, n, j);
    } else if b < a {
      TimesBound(b, a, n, k);
    }
  }

  lemma TimesCancel(a: nat, b: nat, n: nat)
    requires Times(a, n) == Times(b, n) && n >= 1
    ensures a == b
  {
    SameQuotient(a, b, n, 0, 0);
  }

  /** Division with remainder, below a product. */
  lemma {:induction false} Divide(m: nat, c: nat, n: nat) returns (q: nat, r: nat)
    requires m < Times(c, n)
    ensures q < c && r < n && m == Times(q, n) + r
  {
    if m < n {
      q, r := 0, m;
    } else {
      q, r := Divide(m - n, c - 1, n);
      q := q + 1;
    }
  }

  /** m / n, rounded down, by repeated subtraction */
  function Quotient(m: nat, n: nat): nat
    requires n > 0
    decreases m
  {
    if m < n then 0 else 1 + Quotient(m - n, n)
  }

  lemma {:induction false} QuotientOf(a: nat, n: nat, k: nat)
    requires k < n
    ensures Quotient(Times(a, n) + k, n) == a
  {
    if a > 0 {
      QuotientOf(a - 1, n, k);
    }
  }

  lemma QuotientIs(m: nat, n: nat)
    requires n > 0
    ensures Quotient(m, n) == m / n
  {
    assert m == m / n * n + m % n;
    TimesIs(m / n, n);
    QuotientOf(m / n, n, m % n);
  }

  lemma DivMod(a: nat, n: nat, k: nat)
    requires k < n
    ensures (a * n + k) / n == a && (a * n + k) % n == k
  {
    var x := a * n + k;
    assert x == x / n * n + x % n;
    TimesIs(x / n, n);
    TimesIs(a, n);
    SameQuotient(x / n, a, n, x % n, k);
  }

  /** Adding to a multiple and scaling. */
  lemma Combine(whole: nat, x: nat, c: nat, f: nat, n: nat, k: nat)
    requires whole == Times(x, c) + f
    ensures Times(whole, n) + k == Times(x, Times(c, n)) + (Times(f, n) + k)
  {
    TimesAdd(Times(x, c), f, n);
    TimesTimes(x, c, n);
  }
}
