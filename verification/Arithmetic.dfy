/** Residues by repeated subtraction, and circles of indices. */
module Arithmetic {

  /** `p % n`, by repeated subtraction. */
  function Residue(n: nat, p: nat): (r: nat)
    requires n > 0
    ensures r < n
    decreases p
  {
    if p < n then p else Residue(n, p - n)
  }

  function Quotient(n: nat, p: nat): nat
    requires n > 0
    decreases p
  {
    if p < n then 0 else 1 + Quotient(n, p - n)
  }

  lemma {:induction false} ResidueSplits(n: nat, p: nat)
    requires n > 0
    ensures p == n * Quotient(n, p) + Residue(n, p)
    decreases p
  {
    if p >= n {
      ResidueSplits(n, p - n);
    }
  }

  lemma {:induction false} MulAtLeast(n: nat, e: nat)
    requires e >= 1
    ensures n * e >= n
  {
    if e > 1 {
      MulAtLeast(n, e - 1);
      assert n * e == n * (e - 1) + n;
    }
  }

  lemma Distributes(n: nat, a: nat, b: nat)
    ensures n * (a + b) == n * a + n * b
  {
  }

  lemma MulMonotone(n: nat, a: nat, b: nat)
    ensures a <= b ==> n * a <= n * b
  {
  }

  lemma RemainderUnique(n: nat, q: nat, r: nat, d: nat, m: nat)
    requires r < n && m < n && n * q + r == n * d + m
    ensures r == m
  {
    if q > d {
      Distributes(n, d, q - d);
      MulAtLeast(n, q - d);
    } else if q < d {
      Distributes(n, q, d - q);
      MulAtLeast(n, d - q);
    }
  }

  lemma ResidueIsMod(n: nat, p: nat)
    requires n > 0
    ensures Residue(n, p) == p % n
  {
    ResidueSplits(n, p);
    assert p == n * (p / n) + p % n;
    RemainderUnique(n, Quotient(n, p), Residue(n, p), p / n, p % n);
  }

  lemma {:induction false} AddMultiple(n: nat, r: nat, z: nat)
    requires n > 0
    ensures Residue(n, r + n * z) == Residue(n, r)
    decreases z
  {
    if z > 0 {
      AddMultiple(n, r, z - 1);
      assert n * z == n * (z - 1) + n;
    }
  }

  /** Two numbers on one residue are a multiple of `n` apart. */
  lemma SameResidueApart(n: nat, p: nat, q: nat)
    requires n > 0 && p < q && Residue(n, p) == Residue(n, q)
    ensures Quotient(n, p) < Quotient(n, q)
    ensures q - p == n * (Quotient(n, q) - Quotient(n, p)) >= n
  {
    ResidueSplits(n, p);
    ResidueSplits(n, q);
    var x, y := Quotient(n, p), Quotient(n, q);
    MulMonotone(n, y, x);
    Distributes(n, x, y - x);
    MulAtLeast(n, y - x);
  }

  lemma SameResidueFar(n: nat, p: nat, q: nat)
    requires n > 0 && p < q && Residue(n, p) == Residue(n, q)
    ensures q - p >= n
  {
    SameResidueApart(n, p, q);
  }

  /** How many steps lead from `i` up to `c` on a circle of `n` indices. */
  function Distance(n: nat, i: int, c: int): int {
    if i <= c then c - i else c - i + n
  }

  /** One step around a circle of `n`; also how the 32-bit counter counts. */
  function Next(n: nat, i: int): int {
    if i + 1 == n then 0 else i + 1
  }

  /** A step up the circle is a step up the counter. */
  lemma {:induction false} NextResidue(n: nat, p: nat)
    requires n > 0
    ensures Next(n, Residue(n, p)) == Residue(n, p + 1)
    decreases p
  {
    if p >= n {
      NextResidue(n, p - n);
    }
  }

  lemma MultipleHasNoRemainder(n: nat, x: nat, e: nat)
    requires n > 0 && x == n * e
    ensures x % n == 0
  {
    assert x == n * (x / n) + x % n;
    RemainderUnique(n, e, 0, x / n, x % n);
  }
}
