/**
 Every step of a handler settles something: what it changes brings slices, services, ports or statuses
 nearer to rest, and a handler that changes nothing only crosses its object off.
 */
module Settling {
  import opened Common
  import opened Weights
  import opened Reconcile
  import opened SliceHealing
  import opened SliceRanks

  /** The names that slices can come to have, with what it takes to weigh them. */
  datatype Room = Room(q: seq<Name>, b: nat, h: nat)

  ghost predicate Spacious(r: Room) {
    Short(r.q, r.h) && r.b > 2 * |r.q|
  }

  /** There is room for every slice and for every copy a handler may make of one. */
  ghost predicate Fits(c: Config, r: Room, w: World) {
    && Spacious(r) && Inside(w, r.q)
    && (forall k :: SliceKey(k) in w.pending ==> k in r.q)
    && (forall k :: k in r.q && c.parse(k.name).Some? ==> CopyKey(c, ImportOf(c, k), SliceOf(c, k).name) in r.q)
    && (forall n, d :: n in w.imports && d in w.slices && IsDataplane(c, d, w.slices[d]) ==>
      CopyKey(c, n, d.name) in r.q)
  }

  ghost function Mass(c: Config, r: Room, w: World): nat
    requires Spacious(r)
  {
    Total(r.q, Ranks(c, w), r.b, r.h)
  }

  /** Names can be told apart, and no merge import is named like the dataplane's own service. */
  ghost predicate Tame(c: Config, w: World) {
    GoodCodec(c) && Shrinks(c) && NamesOk(w) && !LiveMerge(w, Name(c.namespace, c.ingress))
  }

  /** The slices of `w'` weigh no more than those of `w`, and less unless nothing changed. */
  ghost predicate Lighter(c: Config, r: Room, w: World, w': World) {
    && Tame(c, w') && Fits(c, r, w') && SameMerges(w, w')
    && Mass(c, r, w') <= Mass(c, r, w)
    && (Mass(c, r, w') == Mass(c, r, w) ==> w' == w)
  }

  // ---------------------------------------------------------------- slices

  lemma CopiesAreNotDataplane(c: Config, w: World, pairs: set<(Name, string)>, k: Name)
    requires Tame(c, w) && LivePairs(c, w, pairs) && k in Wanted(c, w, pairs)
    ensures !IsDataplane(c, k, Wanted(c, w, pairs)[k])
  {
    WantedIsWanting(c, w, pairs, k);
    assert LiveMerge(w, ImportOf(c, k));
  }

  lemma ApplyFits(c: Config, r: Room, w: World, pairs: set<(Name, string)>)
    requires Tame(c, w) && Fits(c, r, w) && LivePairs(c, w, pairs)
    requires forall p :: p in pairs ==> CopyKey(c, p.0, p.1) in r.q
    ensures Fits(c, r, Apply(w, Wanted(c, w, pairs)))
  {
    var wanted := Wanted(c, w, pairs);
    var w' := Apply(w, wanted);
    forall k | k in wanted ensures k in r.q && !IsDataplane(c, k, wanted[k]) {
      WantedIsWanting(c, w, pairs, k);
      CopiesAreNotDataplane(c, w, pairs, k);
    }
    forall d | d in w'.slices && IsDataplane(c, d, w'.slices[d]) ensures d in w.slices
      && IsDataplane(c, d, w.slices[d]) {
      if !Same(w, w', d) {
        AppliedHere(w, wanted, d);
      }
    }
  }

  lemma ApplyLighter(c: Config, r: Room, w: World, pairs: set<(Name, string)>)
    requires Tame(c, w) && Fits(c, r, w) && LivePairs(c, w, pairs)
    requires forall p :: p in pairs ==> CopyKey(c, p.0, p.1) in r.q
    ensures Lighter(c, r, w, Apply(w, Wanted(c, w, pairs)))
  {
    var w' := Apply(w, Wanted(c, w, pairs));
    ApplyFits(c, r, w, pairs);
    ApplyNames(c, w, pairs);
    ApplyImproves(c, w, pairs);
    ImprovementCounts(c, w, w', r.q, r.b, r.h);
    if w'.slices == w.slices {
      ApplyIdle(w, Wanted(c, w, pairs));
    }
  }

  lemma DropLighter(c: Config, r: Room, w: World, gone: set<Name>)
    requires Tame(c, w) && Fits(c, r, w) && Droppable(c, w, gone)
    ensures Lighter(c, r, w, DropSlices(w, gone))
  {
    var w' := DropSlices(w, gone);
    DropFits(c, r, w, gone);
    DropNames(w, gone);
    DropImproves(c, w, gone);
    ImprovementCounts(c, w, w', r.q, r.b, r.h);
    if w'.slices == w.slices {
      DropIdle(w, gone);
    }
  }

  lemma DropFits(c: Config, r: Room, w: World, gone: set<Name>)
    requires Fits(c, r, w)
    ensures Fits(c, r, DropSlices(w, gone))
  {
    var w' := DropSlices(w, gone);
    assert forall k :: k in w'.slices ==> k in w.slices && w'.slices[k] == w.slices[k];
    assert forall k :: SliceKey(k) in w'.pending ==> SliceKey(k) in w.pending || k in w.slices;
  }

  lemma LighterTransitive(c: Config, r: Room, w: World, w': World, w'': World)
    requires Spacious(r) && Lighter(c, r, w, w') && Lighter(c, r, w', w'')
    ensures Lighter(c, r, w, w'')
  {
  }

  lemma CheckLighter(c: Config, r: Room, w: World, k: Name)
    requires Tame(c, w) && Fits(c, r, w) && k in r.q
    ensures Lighter(c, r, w, CheckEndpointSlice(c, w, k))
  {
    if c.parse(k.name).Some? {
      var n, d := ImportOf(c, k), SliceOf(c, k);
      if !LiveMerge(w, n) || d !in w.slices {
        assert !Wanting(c, w, k);
        DropLighter(c, r, w, {k});
      } else {
        ApplyLighter(c, r, w, {(n, d.name)});
      }
    }
  }

  lemma MergeLighter(c: Config, r: Room, w: World, d: Name)
    requires Tame(c, w) && Fits(c, r, w) && d in w.slices && IsDataplane(c, d, w.slices[d])
    ensures Lighter(c, r, w, Apply(w, Wanted(c, w, MergePairs(w, d.name))))
  {
    assert Name(c.namespace, d.name) == d;
    ApplyLighter(c, r, w, MergePairs(w, d.name));
  }

  lemma CrossedOff(c: Config, r: Room, w: World, key: Key, w0: World)
    requires Tame(c, w) && Fits(c, r, w) && w0 == w.(pending := w.pending - {key})
    ensures Tame(c, w0) && Fits(c, r, w0) && Mass(c, r, w0) == Mass(c, r, w)
  {
    OnlySlicesCount(c, w, w0, r.q, r.b, r.h);
  }

  /** The slice handler makes the slices lighter, or only crosses its slice off. */
  lemma HandleSliceLighter(c: Config, r: Room, w: World, k: Name, w0: World)
    requires Tame(c, w) && Fits(c, r, w) && SliceKey(k) in w.pending && w0 == w.(pending := w.pending - {SliceKey(k)})
    ensures Lighter(c, r, w0, HandleSlice(c, w, k))
  {
    CrossedOff(c, r, w, SliceKey(k), w0);
    if k in w.slices {
      if IsDataplane(c, k, w.slices[k]) {
        MergeLighter(c, r, w0, k);
      } else {
        CheckLighter(c, r, w0, k);
      }
    } else {
      CheckLighter(c, r, w0, k);
      GoneLighter(c, r, w0, CheckEndpointSlice(c, w0, k), k);
    }
  }

  /**
   The copies of a slice that is gone are dropped; if it was itself a copy and has just been made anew, they are
   too.
   */
  lemma GoneLighter(c: Config, r: Room, w: World, w1: World, k: Name)
    requires Tame(c, w) && Fits(c, r, w) && k in r.q && k !in w.slices
    requires w1 == CheckEndpointSlice(c, w, k) && Lighter(c, r, w, w1)
    ensures k.namespace == c.namespace ==> Lighter(c, r, w, DropSlices(w1, CopiesOfSlice(c, w1, k.name)))
  {
    if k.namespace == c.namespace {
      var w2 := DropSlices(w1, CopiesOfSlice(c, w1, k.name));
      if k in w1.slices {
        MadeAnew(c, w, w1, k);
        AnewImproves(c, w, w1, k, w2);
        AnewLighter(c, r, w, w1, k, w2);
      } else {
        SliceCopiesDroppable(c, w1, k);
        DropLighter(c, r, w1, CopiesOfSlice(c, w1, k.name));
        LighterTransitive(c, r, w, w1, w2);
      }
    }
  }

  lemma MadeAnew(c: Config, w: World, w1: World, k: Name)
    requires Tame(c, w) && k !in w.slices && w1 == CheckEndpointSlice(c, w, k) && k in w1.slices
    ensures Wanting(c, w, k) && w1.slices == w.slices[k := WantedHere(c, w, k)] && w1.imports == w.imports
  {
    var n, d := ImportOf(c, k), SliceOf(c, k);
    if !LiveMerge(w, n) || d !in w.slices {
      assert false;
    } else {
      OnlyOneApplied(c, w, n, d, k);
    }
  }

  lemma OnlyOneApplied(c: Config, w: World, n: Name, d: Name, k: Name)
    requires Tame(c, w) && c.parse(k.name).Some? && n == ImportOf(c, k) && d == SliceOf(c, k)
    requires LiveMerge(w, n) && d in w.slices && k !in w.slices && k in Apply(w, Wanted(c, w, {(n, d.name)})).slices
    ensures Wanting(c, w, k) && Apply(w, Wanted(c, w, {(n, d.name)})).slices == w.slices[k := WantedHere(c, w, k)]
  {
    var pairs := {(n, d.name)};
    var wanted := Wanted(c, w, pairs);
    var w1 := Apply(w, wanted);
    AppliedHere(w, wanted, k);
    WantedIsWanting(c, w, pairs, k);
    forall x | x in wanted ensures x == k {
      WantedIsWanting(c, w, pairs, x);
    }
    forall x | x != k ensures Same(w, w1, x) {
      if !Same(w, w1, x) {
        AppliedHere(w, wanted, x);
        assert false;
      }
    }
    assert w1.slices == w.slices[k := wanted[k]];
  }

  lemma AnewImproves(c: Config, w: World, w1: World, k: Name, w2: World)
    requires Tame(c, w) && k.namespace == c.namespace && k !in w.slices && Wanting(c, w, k)
    requires w1.slices == w.slices[k := WantedHere(c, w, k)] && w1.imports == w.imports
    requires w2 == DropSlices(w1, CopiesOfSlice(c, w1, k.name))
    ensures Improves(c, w, w2) && k in w2.slices
  {
    var gone := CopiesOfSlice(c, w1, k.name);
    assert k !in gone by {
      assert w1.slices[k].labels[DataplaneSlice] == SliceOf(c, k).name;
      assert |SliceOf(c, k).name| < |k.name|;
    }
    assert w2.slices == w1.slices - gone by {
      assert w1.slices - gone * w1.slices.Keys == w1.slices - gone;
    }
    forall x ensures ImprovesAt(c, w, w2, x) {
      if x == k {
        if SourceSame(c, w, w2, k) {
          CurrentNow(c, w, w2, k);
        }
      } else if !Same(w, w2, x) && SourceSame(c, w, w2, x) {
        assert x in gone && x in w.slices && x !in w2.slices && w1.slices[x] == w.slices[x];
        NotItsCopy(c, w, k, x, w2);
      }
    }
  }

  lemma NotItsCopy(c: Config, w: World, k: Name, x: Name, w2: World)
    requires k.namespace == c.namespace && !Same(w, w2, k) && SourceSame(c, w, w2, x) && w2.imports == w.imports
    requires x in w.slices && x !in w2.slices && Labelled(w.slices[x], DataplaneSlice, k.name)
    ensures Rank(c, w2, x) < Rank(c, w, x)
  {
    if Rank(c, w, x) == 0 {
      DesiredLabels(c, ImportOf(c, x), w.imports[ImportOf(c, x)], SliceOf(c, x).name, w.slices[SliceOf(c, x)],
          w.slices[x]);
      assert false;
    }
    assert Wanting(c, w, x) <==> Wanting(c, w2, x);
  }

  lemma AnewLighter(c: Config, r: Room, w: World, w1: World, k: Name, w2: World)
    requires Tame(c, w) && Fits(c, r, w) && Lighter(c, r, w, w1) && k !in w.slices && k in w2.slices
    requires w2 == DropSlices(w1, CopiesOfSlice(c, w1, k.name)) && Improves(c, w, w2)
    ensures Lighter(c, r, w, w2)
  {
    DropFits(c, r, w1, CopiesOfSlice(c, w1, k.name));
    DropNames(w1, CopiesOfSlice(c, w1, k.name));
    ImprovementCounts(c, w, w2, r.q, r.b, r.h);
  }
}
