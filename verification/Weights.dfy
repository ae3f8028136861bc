/** Sums of small ranks over names, weighted so that a gain at a shorter name outweighs any loss at longer ones. */
module Weights {
  import opened Arithmetic
  import opened Common

  function Pow(b: nat, e: nat): nat {
    if e == 0 then 1 else b * Pow(b, e - 1)
  }

  lemma {:induction false} PowPositive(b: nat, e: nat)
    requires b > 0
    ensures Pow(b, e) >= 1
  {
    if e > 0 {
      PowPositive(b, e - 1);
      MulMonotone(b, 1, Pow(b, e - 1));
    }
  }

  lemma {:induction false} PowMonotone(b: nat, e: nat, f: nat)
    requires b > 0 && e <= f
    ensures Pow(b, e) <= Pow(b, f)
    decreases f
  {
    if e < f {
      PowMonotone(b, e, f - 1);
      PowPositive(b, f - 1);
      MulMonotone(Pow(b, f - 1), 1, b);
    }
  }

  /** The weight of a name of at most `h` characters. */
  function Weight(b: nat, h: nat, k: Name): nat
    requires |k.name| <= h
  {
    Pow(b, h - |k.name|)
  }

  ghost predicate Short(q: seq<Name>, h: nat) {
    forall k :: k in q ==> |k.name| <= h
  }

  ghost function Total(q: seq<Name>, rank: Name -> nat, b: nat, h: nat): nat
    requires Short(q, h)
  {
    if q == [] then 0
    else
      assert q[0] in q;
      rank(q[0]) * Weight(b, h, q[0]) + Total(q[1..], rank, b, h)
  }

  lemma {:induction false} TotalBound(q: seq<Name>, rank: Name -> nat, b: nat, h: nat)
    requires Short(q, h) && b > 0 && forall k :: k in q ==> rank(k) <= 2
    ensures Total(q, rank, b, h) <= |q| * (2 * Pow(b, h))
  {
    if q != [] {
      assert q[0] in q;
      TotalBound(q[1..], rank, b, h);
      PowMonotone(b, h - |q[0].name|, h);
      MulMonotone(Weight(b, h, q[0]), rank(q[0]), 2);
      MulMonotone(2, Weight(b, h, q[0]), Pow(b, h));
      OneMore(|q| - 1, 2 * Pow(b, h));
    }
  }

  lemma SameTotal(q: seq<Name>, rank: Name -> nat, rank': Name -> nat, b: nat, h: nat)
    requires Short(q, h) && forall k :: k in q ==> rank(k) == rank'(k)
    ensures Total(q, rank, b, h) == Total(q, rank', b, h)
  {
    if q != [] {
      assert q[0] in q;
      SameTotal(q[1..], rank, rank', b, h);
    }
  }

  /** What one more name can lose at most, if it is longer than `level`. */
  function Loss(b: nat, h: nat, level: nat): nat
    requires level <= h
  {
    if level < h then 2 * Pow(b, h - level - 1) else 0
  }

  /**
   Ranks change for the better at `x`, not for the worse at other names of that length, and not at all at shorter
   names.
   */
  ghost predicate Better(q: seq<Name>, rank: Name -> nat, rank': Name -> nat, x: Name) {
    && rank'(x) < rank(x)
    && (forall k :: k in q ==> rank'(k) <= 2)
    && (forall k :: k in q && |k.name| <= |x.name| ==> rank'(k) <= rank(k))
  }

  lemma OneTerm(rank: Name -> nat, rank': Name -> nat, b: nat, h: nat, k: Name, x: Name)
    requires |k.name| <= h && |x.name| <= h && b > 0 && rank'(x) < rank(x) && rank'(k) <= 2
    requires |k.name| <= |x.name| ==> rank'(k) <= rank(k)
    ensures rank'(k) * Weight(b, h, k) + (if k == x then Weight(b, h, x) else 0)
         <= rank(k) * Weight(b, h, k) + Loss(b, h, |x.name|)
  {
    var v := Weight(b, h, k);
    if k == x {
      MulMonotone(v, rank'(k) + 1, rank(k));
      assert (rank'(k) + 1) * v == rank'(k) * v + v;
    } else if |k.name| <= |x.name| {
      MulMonotone(v, rank'(k), rank(k));
    } else {
      PowMonotone(b, h - |k.name|, h - |x.name| - 1);
      MulMonotone(v, rank'(k), 2);
      MulMonotone(2, v, Pow(b, h - |x.name| - 1));
    }
  }

  lemma {:induction false} TotalChange(q: seq<Name>, rank: Name -> nat, rank': Name -> nat, b: nat, h: nat, x: Name)
    requires Short(q, h) && |x.name| <= h && b > 0 && Better(q, rank, rank', x)
    ensures Total(q, rank', b, h) + (if x in q then Weight(b, h, x) else 0)
         <= Total(q, rank, b, h) + |q| * Loss(b, h, |x.name|)
  {
    if q != [] {
      var k, p := q[0], q[1..];
      assert k in q && (x in q <==> x == k || x in p);
      OneTerm(rank, rank', b, h, k, x);
      TotalChange(p, rank, rank', b, h, x);
      OneMore(|p|, Loss(b, h, |x.name|));
    }
  }

  lemma OneMore(m: nat, e: nat)
    ensures (m + 1) * e == m * e + e
  {
  }

  /** Such a change lowers the total, with a base large enough. */
  lemma TotalDrops(q: seq<Name>, rank: Name -> nat, rank': Name -> nat, b: nat, h: nat, x: Name)
    requires Short(q, h) && x in q && b > 2 * |q| && Better(q, rank, rank', x)
    ensures Total(q, rank', b, h) < Total(q, rank, b, h)
  {
    TotalChange(q, rank, rank', b, h, x);
    LossBelowWeight(|q|, b, h, x);
  }

  lemma LossBelowWeight(m: nat, b: nat, h: nat, x: Name)
    requires |x.name| <= h && b > 2 * m
    ensures m * Loss(b, h, |x.name|) < Weight(b, h, x)
  {
    PowPositive(b, h - |x.name|);
    if |x.name| < h {
      var p := Pow(b, h - |x.name| - 1);
      PowPositive(b, h - |x.name| - 1);
      assert m * (2 * p) == (2 * m) * p;
      MulMonotone(p, 2 * m + 1, b);
      assert (2 * m + 1) * p == (2 * m) * p + p;
    }
  }

  // ---------------------------------------------------------------- digits

  /** One more digit, of less weight than those before. */
  function Digit(x: nat, y: nat, base: nat): nat {
    x * base + y
  }

  lemma DigitLess(x': nat, y': nat, x: nat, y: nat, base: nat)
    requires y' < base
    ensures x' < x ==> Digit(x', y', base) < Digit(x, y, base)
    ensures x' == x && y' < y ==> Digit(x', y', base) < Digit(x, y, base)
  {
    if x' < x {
      MulMonotone(base, x' + 1, x);
      OneMore(x', base);
    }
  }

  predicate LexLess(x: (nat, nat, nat), y: (nat, nat, nat)) {
    x.0 < y.0 || (x.0 == y.0 && (x.1 < y.1 || (x.1 == y.1 && x.2 < y.2)))
  }
}
