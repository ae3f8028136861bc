/**
 Walking around a circle of `n` sources, stopping only at the good ones: counter values that name a
 good source are hits, and as many hits in a row as there are good sources name each exactly once.
 */
module Circle {
  import opened Arithmetic
  import opened Common

  /** The good ones among the sources. */
  ghost function Members(good: int -> bool, n: nat): set<int> {
    set i | i in Below(n) && good(i)
  }

  /** A counter value that names a good source. */
  predicate Hit(good: int -> bool, n: nat, p: nat)
    requires n > 0
  {
    good(Residue(n, p))
  }

  /** The first hit from `p` on; `a` is good, so the search ends. */
  ghost function Seek(good: int -> bool, n: nat, p: nat, a: nat): (q: nat)
    requires a < n && good(a)
    ensures p <= q
    decreases Distance(n, Residue(n, p), a)
  {
    if Hit(good, n, p) then p
    else
      NextResidue(n, p);
      Seek(good, n, p + 1, a)
  }

  lemma {:induction false} SeekFinds(good: int -> bool, n: nat, p: nat, a: nat)
    requires a < n && good(a)
    ensures var q := Seek(good, n, p, a);
            && q < p + n && Hit(good, n, q) && q - p <= Distance(n, Residue(n, p), a)
            && forall x :: p <= x < q ==> !Hit(good, n, x)
    decreases Distance(n, Residue(n, p), a)
  {
    if !Hit(good, n, p) {
      NextResidue(n, p);
      SeekFinds(good, n, p + 1, a);
    }
  }

  ghost function NextHit(good: int -> bool, n: nat, c: nat, a: nat): nat
    requires a < n && good(a)
  {
    Seek(good, n, c + 1, a)
  }

  /** The `k`-th counter value past `c` that names a member. */
  ghost function HitAt(good: int -> bool, n: nat, c: nat, a: nat, k: nat): (h: nat)
    requires a < n && good(a)
    ensures c + k <= h
    decreases k
  {
    if k == 0 then c else NextHit(good, n, HitAt(good, n, c, a, k - 1), a)
  }

  lemma {:induction false} HitAtShifts(good: int -> bool, n: nat, c: nat, a: nat, k: nat)
    requires a < n && good(a)
    ensures HitAt(good, n, c, a, k + 1) == HitAt(good, n, NextHit(good, n, c, a), a, k)
    decreases k
  {
    if k > 0 {
      HitAtShifts(good, n, c, a, k - 1);
    }
  }

  /** The members named by the counter values from `c + 1` to `h`. */
  ghost function Seen(good: int -> bool, n: nat, c: nat, h: nat): set<int>
    requires n > 0
    decreases h
  {
    if h <= c then {}
    else Seen(good, n, c, h - 1) + if Hit(good, n, h) then {Residue(n, h)} else {}
  }

  lemma {:induction false} SeenWitness(good: int -> bool, n: nat, c: nat, h: nat, r: int) returns (p: nat)
    requires n > 0 && r in Seen(good, n, c, h)
    ensures c < p <= h && Hit(good, n, p) && Residue(n, p) == r
    decreases h
  {
    if r in Seen(good, n, c, h - 1) {
      p := SeenWitness(good, n, c, h - 1, r);
    } else {
      p := h;
    }
  }

  lemma {:induction false} SeenHas(good: int -> bool, n: nat, c: nat, h: nat, p: nat)
    requires n > 0 && c < p <= h && Hit(good, n, p)
    ensures Residue(n, p) in Seen(good, n, c, h)
    decreases h
  {
    if p < h {
      SeenHas(good, n, c, h - 1, p);
    }
  }

  lemma {:induction false} SeenGap(good: int -> bool, n: nat, c: nat, h: nat, h': nat)
    requires n > 0 && c <= h <= h' && forall x :: h < x <= h' ==> !Hit(good, n, x)
    ensures Seen(good, n, c, h') == Seen(good, n, c, h)
    decreases h'
  {
    if h < h' {
      SeenGap(good, n, c, h, h' - 1);
    }
  }

  /** `n` counter values in a row name every source. */
  lemma {:induction false} Representative(n: nat, p: nat, a: nat) returns (q: nat)
    requires a < n
    ensures p <= q < p + n && Residue(n, q) == a
    ensures q - p <= Distance(n, Residue(n, p), a)
    decreases Distance(n, Residue(n, p), a)
  {
    if Residue(n, p) == a {
      q := p;
    } else {
      NextResidue(n, p);
      q := Representative(n, p + 1, a);
    }
  }

  lemma SeenAll(good: int -> bool, n: nat, c: nat, p: nat, h: nat)
    requires n > 0 && c < p && p + n <= h + 1
    ensures Members(good, n) <= Seen(good, n, c, h)
  {
    forall a | a in Members(good, n) ensures a in Seen(good, n, c, h) {
      var q := Representative(n, p, a);
      SeenHas(good, n, c, h, q);
    }
  }

  ghost function Residues(good: int -> bool, n: nat, c: nat, a: nat, k: nat): (s: seq<int>)
    requires a < n && good(a)
    ensures |s| == k
    decreases k
  {
    if k == 0 then [] else Residues(good, n, c, a, k - 1) + [Residue(n, HitAt(good, n, c, a, k))]
  }

  /** While some member is unseen, the next hit names one of those. */
  lemma NewHit(good: int -> bool, n: nat, c: nat, h: nat, h': nat)
    requires n > 0 && c <= h < h' && Hit(good, n, h') && forall x :: h < x < h' ==> !Hit(good, n, x)
    requires |Seen(good, n, c, h)| < |Members(good, n)|
    ensures Residue(n, h') !in Seen(good, n, c, h)
  {
    if Residue(n, h') in Seen(good, n, c, h) {
      SeenAgain(good, n, c, h, h');
      assert false;
    }
  }

  /** A hit that repeats what was seen has come full circle. */
  lemma SeenAgain(good: int -> bool, n: nat, c: nat, h: nat, h': nat)
    requires n > 0 && c <= h < h' && forall x :: h < x < h' ==> !Hit(good, n, x)
    requires Residue(n, h') in Seen(good, n, c, h)
    ensures |Members(good, n)| <= |Seen(good, n, c, h)|
  {
    var p := SeenWitness(good, n, c, h, Residue(n, h'));
    SameResidueFar(n, p, h');
    FullCircle(good, n, c, h, h', p);
    SubsetSize(Members(good, n), Seen(good, n, c, h));
  }

  lemma FullCircle(good: int -> bool, n: nat, c: nat, h: nat, h': nat, p: nat)
    requires n > 0 && c <= h < h' && forall x :: h < x < h' ==> !Hit(good, n, x)
    requires c < p && p + n <= h'
    ensures Members(good, n) <= Seen(good, n, c, h)
  {
    SeenGap(good, n, c, h, h' - 1);
    SeenAll(good, n, c, p, h' - 1);
  }

  /** A hit adds its residue to what was seen. */
  lemma SeenStep(good: int -> bool, n: nat, c: nat, h: nat, h': nat)
    requires n > 0 && c <= h < h' && Hit(good, n, h') && forall x :: h < x < h' ==> !Hit(good, n, x)
    ensures Seen(good, n, c, h') == Seen(good, n, c, h) + {Residue(n, h')}
    ensures Residue(n, h') in Members(good, n)
  {
    SeenGap(good, n, c, h, h' - 1);
  }

  lemma HitsStep(good: int -> bool, n: nat, c: nat, s: seq<int>, h: nat, h': nat)
    requires n > 0 && c <= h < h' && Hit(good, n, h') && forall x :: h < x < h' ==> !Hit(good, n, x)
    requires Distinct(s) && Elements(s) == Seen(good, n, c, h) <= Members(good, n) && |s| < |Members(good, n)|
    ensures var s' := s + [Residue(n, h')];
            Distinct(s') && Elements(s') == Seen(good, n, c, h') <= Members(good, n)
  {
    DistinctSize(s);
    SeenStep(good, n, c, h, h');
    NewHit(good, n, c, h, h');
    DistinctSnoc(s, Residue(n, h'));
  }

  /** Up to as many hits as there are members, no member repeats. */
  lemma {:induction false} HitsDistinct(good: int -> bool, n: nat, c: nat, a: nat, k: nat)
    requires a < n && good(a) && k <= |Members(good, n)|
    ensures Distinct(Residues(good, n, c, a, k))
    ensures Elements(Residues(good, n, c, a, k)) == Seen(good, n, c, HitAt(good, n, c, a, k)) <= Members(good, n)
    decreases k
  {
    if k > 0 {
      var s, h, h' := Residues(good, n, c, a, k - 1), HitAt(good, n, c, a, k - 1), HitAt(good, n, c, a, k);
      HitsDistinct(good, n, c, a, k - 1);
      SeekFinds(good, n, h + 1, a);
      HitsStep(good, n, c, s, h, h');
    }
  }

  /** What the first `k` hits name, peeled off at the front. */
  lemma {:induction false} ResiduesUnfold(good: int -> bool, n: nat, c: nat, a: nat, k: nat)
    requires a < n && good(a) && k > 0
    ensures var h := NextHit(good, n, c, a);
            Residues(good, n, c, a, k) == [Residue(n, h)] + Residues(good, n, h, a, k - 1)
    decreases k
  {
    if k == 1 {
      assert HitAt(good, n, c, a, 1) == NextHit(good, n, HitAt(good, n, c, a, 0), a);
    } else {
      ResiduesUnfold(good, n, c, a, k - 1);
      HitAtShifts(good, n, c, a, k - 1);
    }
  }

  // ---------------------------------------------------------------- successors

  /** The good source that comes after source `i` on the circle. */
  ghost function Successor(good: int -> bool, n: nat, i: nat, a: nat): (r: nat)
    requires a < n && good(a)
    ensures r < n
  {
    Residue(n, NextHit(good, n, i, a))
  }

  /** What the first hit names depends only on where on the circle the search starts. */
  lemma {:induction false} SeekPeriodic(good: int -> bool, n: nat, p: nat, q: nat, a: nat)
    requires a < n && good(a) && Residue(n, p) == Residue(n, q)
    ensures Residue(n, Seek(good, n, p, a)) == Residue(n, Seek(good, n, q, a))
    decreases Distance(n, Residue(n, p), a)
  {
    if !Hit(good, n, p) {
      NextResidue(n, p);
      NextResidue(n, q);
      SeekPeriodic(good, n, p + 1, q + 1, a);
    }
  }

  lemma SuccessorOf(good: int -> bool, n: nat, p: nat, a: nat)
    requires a < n && good(a)
    ensures Successor(good, n, Residue(n, p), a) == Residue(n, NextHit(good, n, p, a))
  {
    ResidueSmall(n, p);
    NextResidue(n, p);
    NextResidue(n, Residue(n, p));
    SeekPeriodic(good, n, Residue(n, p) + 1, p + 1, a);
  }

  lemma ResidueSmall(n: nat, p: nat)
    requires n > 0
    ensures Residue(n, Residue(n, p)) == Residue(n, p)
  {
  }

  /** No counter value from `u` up to `v`, exclusive, names a good source. */
  ghost predicate Bare(good: int -> bool, n: nat, u: nat, v: nat)
    requires n > 0
  {
    forall x :: u <= x < v ==> !Hit(good, n, x)
  }

  lemma SeekAt(good: int -> bool, n: nat, p: nat, q: nat, a: nat)
    requires a < n && good(a) && p <= q && Hit(good, n, q) && Bare(good, n, p, q)
    ensures Seek(good, n, p, a) == q
  {
    SeekFinds(good, n, p, a);
  }

  lemma TurnHits(good: int -> bool, n: nat, p: nat)
    requires n > 0
    ensures Residue(n, p + n) == Residue(n, p) && (Hit(good, n, p + n) <==> Hit(good, n, p))
  {
  }

  /** If the `m` sources from `u` on are bare, starting past them makes no difference. */
  lemma BareFront(good: int -> bool, n: nat, u: nat, m: nat, a: nat)
    requires a < n && good(a) && Bare(good, n, u, u + m)
    ensures Seek(good, n, u, a) == Seek(good, n, u + m, a)
  {
    var y := Seek(good, n, u + m, a);
    SeekFinds(good, n, u + m, a);
    SeekAt(good, n, u, y, a);
  }

  /** If the other sources are bare, starting past the first `m` leads around to the same one. */
  lemma BareBack(good: int -> bool, n: nat, u: nat, m: nat, a: nat)
    requires a < n && good(a) && m < n && Bare(good, n, u + m, u + n)
    ensures Residue(n, Seek(good, n, u, a)) == Residue(n, Seek(good, n, u + m, a))
  {
    BareFront(good, n, u + m, n - m, a);
    TurnHits(good, n, u);
    SeekPeriodic(good, n, u, u + n, a);
  }

  lemma BareNeither(good: int -> bool, n: nat, u: nat, m: nat, a: nat)
    requires a < n && good(a) && m < n && !Bare(good, n, u, u + m) && !Bare(good, n, u + m, u + n)
    ensures Residue(n, Seek(good, n, u, a)) != Residue(n, Seek(good, n, u + m, a))
  {
    var x, y := Seek(good, n, u, a), Seek(good, n, u + m, a);
    SeekFinds(good, n, u, a);
    SeekFinds(good, n, u + m, a);
    assert x < u + m <= y < u + n;
    if Residue(n, x) == Residue(n, y) {
      SameResidueFar(n, x, y);
      assert false;
    }
  }

  /** Starting `m` sources further on finds the same good source exactly if one of the two arcs is bare. */
  lemma SameFirst(good: int -> bool, n: nat, u: nat, m: nat, a: nat)
    requires a < n && good(a) && m < n
    ensures Residue(n, Seek(good, n, u, a)) == Residue(n, Seek(good, n, u + m, a))
       <==> Bare(good, n, u, u + m) || Bare(good, n, u + m, u + n)
  {
    if Bare(good, n, u, u + m) {
      BareFront(good, n, u, m, a);
    } else if Bare(good, n, u + m, u + n) {
      BareBack(good, n, u, m, a);
    } else {
      BareNeither(good, n, u, m, a);
    }
  }

  // ---------------------------------------------------------------- chains of successors

  /** Good sources, each the successor of the one before. */
  ghost predicate Chain(good: int -> bool, n: nat, a: nat, s: seq<int>)
    requires a < n && good(a)
  {
    && (forall j :: 0 <= j < |s| ==> 0 <= s[j] < n && good(s[j]))
    && (forall j :: 0 <= j < |s| - 1 ==> s[j + 1] == Successor(good, n, s[j], a))
  }

  /** A chain names what the hits from its first source on name. */
  lemma {:induction false} ChainIsHits(good: int -> bool, n: nat, a: nat, s: seq<int>, c: nat)
    requires a < n && good(a) && Chain(good, n, a, s) && s != [] && Residue(n, NextHit(good, n, c, a)) == s[0]
    ensures s == Residues(good, n, c, a, |s|)
    decreases |s|
  {
    var h := NextHit(good, n, c, a);
    ResiduesUnfold(good, n, c, a, |s|);
    if |s| > 1 {
      ChainTail(good, n, a, s);
      SuccessorOf(good, n, h, a);
      ChainIsHits(good, n, a, s[1..], h);
    }
    assert s == [s[0]] + s[1..];
  }

  lemma ChainTail(good: int -> bool, n: nat, a: nat, s: seq<int>)
    requires a < n && good(a) && Chain(good, n, a, s) && |s| > 1
    ensures Chain(good, n, a, s[1..]) && s[1..][0] == Successor(good, n, s[0], a)
  {
    assert s[0 + 1] == Successor(good, n, s[0], a);
    forall j | 0 <= j < |s| - 2 ensures s[1..][j + 1] == Successor(good, n, s[1..][j], a) {
      assert s[j + 1 + 1] == Successor(good, n, s[j + 1], a);
    }
  }

  /** Up to as many good sources as there are, a chain does not repeat. */
  lemma ChainDistinct(good: int -> bool, n: nat, a: nat, s: seq<int>)
    requires a < n && good(a) && Chain(good, n, a, s) && |s| <= |Members(good, n)|
    ensures Distinct(s)
  {
    if s != [] {
      var c := s[0] + n - 1;
      TurnHits(good, n, s[0]);
      SeekAt(good, n, c + 1, c + 1, a);
      ChainIsHits(good, n, a, s, c);
      HitsDistinct(good, n, c, a, |s|);
    }
  }

  lemma ChainCovers(good: int -> bool, n: nat, a: nat, s: seq<int>)
    requires a < n && good(a) && Chain(good, n, a, s) && |s| == |Members(good, n)|
    ensures Distinct(s) && Elements(s) == Members(good, n)
  {
    ChainDistinct(good, n, a, s);
    DistinctSize(s);
    SubsetSize(Elements(s), Members(good, n));
  }

  /** Different good sources have different successors. */
  lemma SuccessorInjective(good: int -> bool, n: nat, a: nat, i: nat, j: nat)
    requires a < n && good(a) && i < n && j < n && good(i) && good(j)
    requires Successor(good, n, i, a) == Successor(good, n, j, a)
    ensures i == j
  {
    if i < j {
      NoSharedSuccessor(good, n, a, i, j);
    } else if j < i {
      NoSharedSuccessor(good, n, a, j, i);
    }
  }

  /** From `i` the next good source comes by `j`, and from `j` it comes after `j` and by `i`'s next turn. */
  lemma NoSharedSuccessor(good: int -> bool, n: nat, a: nat, i: nat, j: nat)
    requires a < n && good(a) && i < j < n && good(i) && good(j)
    ensures Successor(good, n, i, a) != Successor(good, n, j, a)
  {
    var x, y := NextHit(good, n, i, a), NextHit(good, n, j, a);
    SeekFinds(good, n, i + 1, a);
    SeekFinds(good, n, j + 1, a);
    TurnHits(good, n, i);
    assert Hit(good, n, j) && Hit(good, n, i + n);
    assert i < x <= j < y <= i + n;
    if Residue(n, x) == Residue(n, y) {
      SameResidueFar(n, x, y);
      assert false;
    }
  }

  lemma ChainPart(good: int -> bool, n: nat, a: nat, s: seq<int>, x: int)
    requires a < n && good(a) && Chain(good, n, a, s) && s != [] && x == Successor(good, n, s[|s| - 1], a)
    ensures Chain(good, n, a, s + [x])
  {
    SeekFinds(good, n, s[|s| - 1] + 1, a);
    ResidueSmall(n, NextHit(good, n, s[|s| - 1], a));
    var s' := s + [x];
    forall j | 0 <= j < |s'| - 1 ensures s'[j + 1] == Successor(good, n, s'[j], a) {
      if j < |s| - 1 {
        assert s'[j] == s[j] && s'[j + 1] == s[j + 1];
      }
    }
  }

  /**
   A listing of all good sources that steps to the successor everywhere but perhaps after place `e` does so there
   too.
   */
  lemma OneGapCloses(good: int -> bool, n: nat, a: nat, s: seq<int>, e: nat)
    requires a < n && good(a) && e + 1 < |s| == |Members(good, n)|
    requires Chain(good, n, a, s[..e + 1]) && Chain(good, n, a, s[e + 1..])
    requires Distinct(s) && Elements(s) == Members(good, n)
    ensures s[e + 1] == Successor(good, n, s[e], a)
  {
    var z := Successor(good, n, s[e], a);
    assert s[..e + 1][e] == s[e];
    ChainPart(good, n, a, s[..e + 1], z);
    ChainDistinct(good, n, a, s[..e + 1] + [z]);
    var p := s[..e + 1] + [z];
    DistinctInit(p);
    assert p[..|p| - 1] == s[..e + 1] && p[e + 1] == z;
    assert z in Elements(s);
    var f :| 0 <= f < |s| && s[f] == z;
    if f > e + 1 {
      assert s[e + 1..][f - e - 2] == s[f - 1] && s[e + 1..][f - e - 2 + 1] == s[f];
      SuccessorInjective(good, n, a, s[f - 1], s[e]);
      assert false;
    }
  }
}
