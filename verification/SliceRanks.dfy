/**
 How far endpoint slices are from what the handlers want: every change a handler makes lowers a weighted
 total of ranks, where what a copy should hold depends only on a slice with a shorter name.
 */
module SliceRanks {
  import opened Common
  import opened Weights
  import opened Reconcile
  import opened SliceHealing

  ghost predicate Shrinks(c: Config) {
    forall s :: c.parse(s).Some? ==> |c.parse(s).value.1| < |s|
  }

  /** The slice's place is that of a copy that should be there. */
  predicate Wanting(c: Config, w: World, k: Name) {
    Canonical(c, k) && LiveMerge(w, ImportOf(c, k)) && SliceOf(c, k) in w.slices
  }

  function WantedHere(c: Config, w: World, k: Name): Slice
    requires Wanting(c, w, k)
  {
    var n, d := ImportOf(c, k), SliceOf(c, k);
    Desired(c, n, w.imports[n], d.name, w.slices[d])
  }

  /** A stale slice may be deleted or replaced, a missing copy may be created; a current copy stays. */
  function Rank(c: Config, w: World, k: Name): (r: nat)
    ensures r <= 2
  {
    if Wanting(c, w, k) then
      if k !in w.slices then 1 else if Agrees(WantedHere(c, w, k), w.slices[k]) then 0 else 2
    else if k in w.slices then 1
    else 0
  }

  function Ranks(c: Config, w: World): Name -> nat {
    k => Rank(c, w, k)
  }

  predicate Same(w: World, w': World, k: Name) {
    (k in w.slices <==> k in w'.slices) && (k in w.slices ==> w.slices[k] == w'.slices[k])
  }

  ghost predicate SameMerges(w: World, w': World) {
    w.imports.Keys == w'.imports.Keys && forall n :: n in w.imports ==> w.imports[n].merge == w'.imports[n].merge
  }

  predicate SourceSame(c: Config, w: World, w': World, k: Name) {
    c.parse(k.name).Some? ==> Same(w, w', SliceOf(c, k))
  }

  lemma RankSame(c: Config, w: World, w': World, k: Name)
    requires SameMerges(w, w') && Same(w, w', k) && SourceSame(c, w, w', k)
    ensures Rank(c, w', k) == Rank(c, w, k)
  {
  }

  /** Where a slice changes and the slice it is copied from does not, the rank falls. */
  ghost predicate Improves(c: Config, w: World, w': World) {
    SameMerges(w, w') && forall k :: ImprovesAt(c, w, w', k)
  }

  ghost predicate ImprovesAt(c: Config, w: World, w': World, k: Name) {
    !Same(w, w', k) && SourceSame(c, w, w', k) ==> Rank(c, w', k) < Rank(c, w, k)
  }

  ghost predicate Inside(w: World, q: seq<Name>) {
    forall k :: k in w.slices ==> k in q
  }

  /** A changed slice of a list with the shortest name among those. */
  lemma {:induction false} ShortestChanged(w: World, w': World, q: seq<Name>) returns (x: Option<Name>)
    ensures x.None? ==> forall k :: k in q ==> Same(w, w', k)
    ensures x.Some? ==> x.value in q && !Same(w, w', x.value)
    ensures x.Some? ==> forall k :: k in q && !Same(w, w', k) ==> |x.value.name| <= |k.name|
  {
    if q == [] {
      x := None;
    } else {
      var y := ShortestChanged(w, w', q[1..]);
      assert forall k :: k in q <==> k == q[0] || k in q[1..];
      if !Same(w, w', q[0]) && (y.None? || |q[0].name| <= |y.value.name|) {
        x := Some(q[0]);
      } else {
        x := y;
      }
    }
  }

  lemma ChangedBetter(c: Config, w: World, w': World, q: seq<Name>, x: Name)
    requires Shrinks(c) && Improves(c, w, w') && Inside(w, q) && Inside(w', q)
    requires x in q && !Same(w, w', x) && forall k :: k in q && !Same(w, w', k) ==> |x.name| <= |k.name|
    ensures Better(q, Ranks(c, w), Ranks(c, w'), x)
  {
    forall k: Name | |k.name| <= |x.name| ensures SourceSame(c, w, w', k) {
    }
    forall k: Name | |k.name| <= |x.name| ensures Rank(c, w', k) <= Rank(c, w, k) {
      if Same(w, w', k) {
        RankSame(c, w, w', k);
      } else {
        assert ImprovesAt(c, w, w', k);
      }
    }
    assert ImprovesAt(c, w, w', x);
  }

  lemma SomeChanged(w: World, w': World, q: seq<Name>)
    requires Inside(w, q) && Inside(w', q) && w'.slices != w.slices
    ensures exists k :: k in q && !Same(w, w', k)
  {
    if forall k :: k in q ==> Same(w, w', k) {
      assert false;
    }
  }

  /** An improvement lowers the total if it changes anything. */
  lemma ImprovementCounts(c: Config, w: World, w': World, q: seq<Name>, b: nat, h: nat)
    requires Shrinks(c) && Improves(c, w, w') && Inside(w, q) && Inside(w', q) && Short(q, h) && b > 2 * |q|
    ensures w'.slices != w.slices ==> Total(q, Ranks(c, w'), b, h) < Total(q, Ranks(c, w), b, h)
  {
    if w'.slices != w.slices {
      var x := ShortestChanged(w, w', q);
      SomeChanged(w, w', q);
      ChangedBetter(c, w, w', q, x.value);
      TotalDrops(q, Ranks(c, w), Ranks(c, w'), b, h, x.value);
    }
  }

  /** The total does not depend on ports and statuses. */
  lemma OnlySlicesCount(c: Config, w: World, w': World, q: seq<Name>, b: nat, h: nat)
    requires SameMerges(w, w') && w'.slices == w.slices && Short(q, h)
    ensures Total(q, Ranks(c, w'), b, h) == Total(q, Ranks(c, w), b, h)
  {
    forall k ensures Rank(c, w, k) == Rank(c, w', k) {
      RankSame(c, w, w', k);
    }
    SameTotal(q, Ranks(c, w'), Ranks(c, w), b, h);
  }

  // ---------------------------------------------------------------- what handlers do to slices

  /** Pairs of a live merge import and a slice that is there. */
  ghost predicate LivePairs(c: Config, w: World, pairs: set<(Name, string)>) {
    forall p :: p in pairs ==> LiveMerge(w, p.0) && Name(c.namespace, p.1) in w.slices
  }

  lemma WantedIsWanting(c: Config, w: World, pairs: set<(Name, string)>, k: Name)
    requires GoodCodec(c) && NamesOk(w) && LivePairs(c, w, pairs) && k in Wanted(c, w, pairs)
    ensures Wanting(c, w, k) && Wanted(c, w, pairs)[k] == WantedHere(c, w, k)
    ensures exists p :: p in pairs && k == CopyKey(c, p.0, p.1)
  {
    var p :| p in pairs && k == CopyKey(c, p.0, p.1);
    assert Name(c.namespace, p.1).name == p.1;
    CopyKeyReads(c, p.0, Name(c.namespace, p.1));
  }

  lemma ApplyImproves(c: Config, w: World, pairs: set<(Name, string)>)
    requires GoodCodec(c) && NamesOk(w) && LivePairs(c, w, pairs)
    ensures Improves(c, w, Apply(w, Wanted(c, w, pairs)))
  {
    var wanted := Wanted(c, w, pairs);
    var w' := Apply(w, wanted);
    forall k ensures ImprovesAt(c, w, w', k) {
      if !Same(w, w', k) && SourceSame(c, w, w', k) {
        AppliedHere(w, wanted, k);
        WantedIsWanting(c, w, pairs, k);
        CurrentNow(c, w, w', k);
      }
    }
  }

  lemma AppliedHere(w: World, wanted: map<Name, Slice>, k: Name)
    requires !Same(w, Apply(w, wanted), k)
    ensures k in wanted && !(k in w.slices && Agrees(wanted[k], w.slices[k]))
    ensures k in Apply(w, wanted).slices && Apply(w, wanted).slices[k] == wanted[k]
  {
  }

  lemma CurrentNow(c: Config, w: World, w': World, k: Name)
    requires SameMerges(w, w') && w'.imports == w.imports && Wanting(c, w, k) && SourceSame(c, w, w', k)
    requires !(k in w.slices && Agrees(WantedHere(c, w, k), w.slices[k]))
    requires k in w'.slices && w'.slices[k] == WantedHere(c, w, k)
    ensures Rank(c, w', k) < Rank(c, w, k)
  {
  }

  /** Slices that may be dropped: none of them is a current copy. */
  ghost predicate Droppable(c: Config, w: World, gone: set<Name>) {
    forall k :: k in gone && k in w.slices ==> Rank(c, w, k) > 0
  }

  lemma DropImproves(c: Config, w: World, gone: set<Name>)
    requires Droppable(c, w, gone)
    ensures Improves(c, w, DropSlices(w, gone))
  {
    var w' := DropSlices(w, gone);
    forall k ensures ImprovesAt(c, w, w', k) {
      if !Same(w, w', k) && SourceSame(c, w, w', k) {
        assert k in gone && k in w.slices && k !in w'.slices;
        assert Wanting(c, w, k) <==> Wanting(c, w', k);
      }
    }
  }

  /** An apply or drop that changes no slice does nothing at all. */
  lemma ApplyIdle(w: World, wanted: map<Name, Slice>)
    requires Apply(w, wanted).slices == w.slices
    ensures Apply(w, wanted) == w
  {
    forall k ensures k !in Stale(w.slices, wanted) {
    }
    assert Stale(w.slices, wanted) == {};
    assert w.slices + Pick(wanted, {}) == w.slices;
    assert w.pending + SliceKeys({}) == w.pending;
  }

  lemma DropIdle(w: World, gone: set<Name>)
    requires DropSlices(w, gone).slices == w.slices
    ensures DropSlices(w, gone) == w
  {
    assert forall k :: k in gone ==> k !in DropSlices(w, gone).slices;
    assert gone * w.slices.Keys == {};
    assert w.pending + SliceKeys({}) == w.pending;
  }

  lemma ImportCopiesDroppable(c: Config, w: World, n: Name)
    requires !LiveMerge(w, n)
    ensures Droppable(c, w, CopiesOfImport(c, w, n))
  {
    forall k | k in CopiesOfImport(c, w, n) && k in w.slices ensures Rank(c, w, k) > 0 {
      if Rank(c, w, k) == 0 {
        DesiredLabels(c, ImportOf(c, k), w.imports[ImportOf(c, k)], SliceOf(c, k).name, w.slices[SliceOf(c, k)],
            w.slices[k]);
        assert false;
      }
    }
  }

  lemma SliceCopiesDroppable(c: Config, w: World, d: Name)
    requires d.namespace == c.namespace && d !in w.slices
    ensures Droppable(c, w, CopiesOfSlice(c, w, d.name))
  {
    forall k | k in CopiesOfSlice(c, w, d.name) && k in w.slices ensures Rank(c, w, k) > 0 {
      if Rank(c, w, k) == 0 {
        DesiredLabels(c, ImportOf(c, k), w.imports[ImportOf(c, k)], SliceOf(c, k).name, w.slices[SliceOf(c, k)],
            w.slices[k]);
        assert false;
      }
    }
  }
}
