/**
 What the endpoint-slice handlers keep over every run: no orphaned copies, and a current copy of every
 dataplane slice for every merge import, up to what is still pending.
 */
module SliceHealing {
  import opened Common
  import opened Reconcile
  import L = Ports

  /** The codec of copy names, on non-empty names. */
  ghost predicate GoodCodec(c: Config) {
    && (forall i, d :: i != "" && d != "" ==> c.parse(c.get(i, d)) == Some((i, d)))
    && (forall s :: c.parse(s).Some? ==> c.parse(s).value.0 != "" && c.parse(s).value.1 != "")
    && c.parse("").None?
  }

  ghost predicate NamesOk(w: World) {
    && (forall n :: n in w.imports ==> n.name != "")
    && (forall k :: k in w.slices ==> k.name != "")
  }

  /** The name is the one built for the import and slice it tells of. */
  predicate Canonical(c: Config, k: Name) {
    c.parse(k.name).Some? && c.get(c.parse(k.name).value.0, c.parse(k.name).value.1) == k.name
  }

  predicate LiveMerge(w: World, n: Name) {
    n in w.imports && w.imports[n].merge
  }

  /** The import is there, and its last reconciliation stopped at the port allocation. */
  predicate PortFailed(w: World, n: Name) {
    n in w.imports && n in w.failures && (w.failures[n].PortConflict? || w.failures[n].PortsTaken?)
  }

  /** A copy that has its labels, its import and its dataplane slice, or soon loses or regains them. */
  ghost predicate Backed(c: Config, w: World, k: Name)
    requires k in w.slices && Canonical(c, k)
  {
    var n, d := ImportOf(c, k), SliceOf(c, k);
    && Labelled(w.slices[k], ManagedBy, c.app)
    && Labelled(w.slices[k], ServiceName, n.name)
    && Labelled(w.slices[k], DataplaneSlice, d.name)
    && (LiveMerge(w, n) || ImportKey(n) in w.pending || PortFailed(w, n))
    && (d in w.slices || SliceKey(d) in w.pending)
  }

  ghost predicate NotOrphaned(c: Config, w: World, k: Name) {
    k in w.slices && Canonical(c, k) && !IsDataplane(c, k, w.slices[k]) ==>
      SliceKey(k) in w.pending || Backed(c, w, k)
  }

  ghost predicate NoOrphans(c: Config, w: World) {
    forall k :: NotOrphaned(c, w, k)
  }

  /** Import `n` has a current copy of dataplane slice `d`. */
  predicate Current(c: Config, w: World, n: Name, d: Name)
    requires n in w.imports && d in w.slices
  {
    var k := CopyKey(c, n, d.name);
    k in w.slices && Agrees(Desired(c, n, w.imports[n], d.name, w.slices[d]), w.slices[k])
  }

  /**
   A slice in the place of a copy carries the label of the dataplane's own service, and is taken for one of its
   slices.
   */
  predicate Disguised(c: Config, w: World, k: Name) {
    k in w.slices && IsDataplane(c, k, w.slices[k])
  }

  /** The copy's place is taken, by a current copy or by a slice taken for the dataplane's own. */
  ghost predicate Copied(c: Config, w: World, n: Name, d: Name)
    requires n in w.imports && d in w.slices
  {
    Current(c, w, n, d) || Disguised(c, w, CopyKey(c, n, d.name))
  }

  ghost predicate Healed(c: Config, w: World, n: Name, d: Name) {
    LiveMerge(w, n) && n !in w.failures && d in w.slices && IsDataplane(c, d, w.slices[d]) ==>
      || ImportKey(n) in w.pending || SliceKey(d) in w.pending || SliceKey(CopyKey(c, n, d.name)) in w.pending
      || Copied(c, w, n, d)
  }

  ghost predicate AllHealed(c: Config, w: World) {
    forall n, d :: Healed(c, w, n, d)
  }

  // ---------------------------------------------------------------- what any handler does

  /** Slices change only together with becoming pending; imports keep their kind. */
  ghost predicate Follows(w: World, w': World) {
    && w.pending <= w'.pending
    && w'.imports.Keys == w.imports.Keys
    && (forall n :: n in w.imports ==> w'.imports[n].merge == w.imports[n].merge)
    && (forall k :: SliceKey(k) in w'.pending || (k in w.slices <==> k in w'.slices))
    && (forall k :: SliceKey(k) in w'.pending || (k in w.slices ==> w'.slices[k] == w.slices[k]))
  }

  lemma FollowsTransitive(w: World, w': World, w'': World)
    requires Follows(w, w') && Follows(w', w'')
    ensures Follows(w, w'')
  {
  }

  lemma ApplyFollows(w: World, wanted: map<Name, Slice>)
    ensures Follows(w, Apply(w, wanted))
    ensures forall k :: k in wanted ==> k in Apply(w, wanted).slices && Agrees(wanted[k], Apply(w, wanted).slices[k])
  {
    var stale := Stale(w.slices, wanted);
    forall k ensures SliceKey(k) in SliceKeys(stale) <==> k in stale {
    }
  }

  lemma DropFollows(w: World, gone: set<Name>)
    ensures Follows(w, DropSlices(w, gone))
    ensures forall k :: k in gone ==> k !in DropSlices(w, gone).slices
    ensures forall k :: k in DropSlices(w, gone).slices ==>
            k in w.slices && DropSlices(w, gone).slices[k] == w.slices[k]
  {
    var present := gone * w.slices.Keys;
    forall k ensures SliceKey(k) in SliceKeys(present) <==> k in present {
    }
  }

  // ---------------------------------------------------------------- wanted copies

  lemma WantedHas(c: Config, w: World, pairs: set<(Name, string)>, n: Name, d: Name)
    requires GoodCodec(c) && (n, d.name) in pairs && n in w.imports && d in w.slices && d.namespace == c.namespace
    requires n.name != "" && d.name != ""
    ensures CopyKey(c, n, d.name) in Wanted(c, w, pairs)
    ensures Wanted(c, w, pairs)[CopyKey(c, n, d.name)] == Desired(c, n, w.imports[n], d.name, w.slices[d])
  {
    assert c.parse(c.get(n.name, d.name)) == Some((n.name, d.name));
    var k := CopyKey(c, n, d.name);
    assert ImportOf(c, k) == n && SliceOf(c, k) == d;
    assert CopyKey(c, (n, d.name).0, (n, d.name).1) == k;
  }

  lemma WantedNamed(c: Config, w: World, pairs: set<(Name, string)>, k: Name)
    requires GoodCodec(c) && k in Wanted(c, w, pairs)
    ensures k.name != ""
  {
  }

  /** After applying wanted copies for a pair, the pair is healed. */
  lemma AppliedHeals(c: Config, w: World, pairs: set<(Name, string)>, n: Name, d: Name)
    requires GoodCodec(c) && (n, d.name) in pairs && n in w.imports && d in w.slices && d.namespace == c.namespace
    requires n.name != "" && d.name != ""
    ensures var w' := Apply(w, Wanted(c, w, pairs));
            SliceKey(d) in w'.pending || (n in w'.imports && d in w'.slices && Copied(c, w', n, d))
  {
    var wanted := Wanted(c, w, pairs);
    WantedHas(c, w, pairs, n, d);
    ApplyFollows(w, wanted);
  }

  // ---------------------------------------------------------------- one handler, in general

  /** Nothing but, perhaps, the key being handled is taken off the pending set. */
  ghost predicate Dequeued(w: World, key: Key, w0: World) {
    w0 == w.(pending := w0.pending) && w.pending - {key} <= w0.pending
  }

  /** Nothing labelled as a copy of the import is left alone. */
  ghost predicate CopiesGone(c: Config, w: World, n: Name) {
    forall k :: k in CopiesOfImport(c, w, n) ==> SliceKey(k) in w.pending
  }

  ghost predicate SliceCopiesGone(c: Config, w: World, d: Name) {
    forall k :: k in CopiesOfSlice(c, w, d.name) ==> SliceKey(k) in w.pending
  }

  /** The handler owes something for import `n`: it took its key, or took back its port failure. */
  predicate Owed(w: World, key: Key, w': World, n: Name) {
    (key == ImportKey(n) || PortFailed(w, n)) && ImportKey(n) !in w'.pending && !PortFailed(w', n) && !LiveMerge(w', n)
  }

  /** What suffices for a handler of `key` to keep copies from being orphaned. */
  ghost predicate Settles(c: Config, w: World, key: Key, w': World) {
    && (forall n :: Owed(w, key, w', n) ==> CopiesGone(c, w', n))
    && (key.SliceKey? && key !in w'.pending ==>
          && NotOrphaned(c, w', key.name)
          && (key.name.namespace == c.namespace && key.name !in w'.slices ==> SliceCopiesGone(c, w', key.name)))
  }

  lemma KeepsOneNotOrphaned(c: Config, w: World, key: Key, w0: World, w': World, k: Name)
    requires NoOrphans(c, w) && Dequeued(w, key, w0) && Follows(w0, w') && Settles(c, w, key, w')
    ensures NotOrphaned(c, w', k)
  {
    if SliceKey(k) !in w'.pending && key != SliceKey(k) && k in w'.slices && Canonical(c, k)
       && !IsDataplane(c, k, w'.slices[k]) {
      assert NotOrphaned(c, w, k);
      assert Backed(c, w, k);
      var n, d := ImportOf(c, k), SliceOf(c, k);
      assert k in CopiesOfImport(c, w', n) && k in CopiesOfSlice(c, w', d.name);
      assert !Owed(w, key, w', n);
    }
  }

  lemma KeepsNoOrphans(c: Config, w: World, key: Key, w0: World, w': World)
    requires NoOrphans(c, w) && Dequeued(w, key, w0) && Follows(w0, w') && Settles(c, w, key, w')
    ensures NoOrphans(c, w')
  {
    forall k ensures NotOrphaned(c, w', k) {
      KeepsOneNotOrphaned(c, w, key, w0, w', k);
    }
  }

  /** The handler owes the copy of slice `d` for import `n`. */
  predicate CopyOwed(c: Config, w: World, key: Key, w': World, n: Name, d: Name) {
    || key == ImportKey(n) || key == SliceKey(d) || key == SliceKey(CopyKey(c, n, d.name))
    || (n in w.failures && n !in w'.failures)
  }

  lemma KeepsOneHealed(c: Config, w: World, key: Key, w0: World, w': World, n: Name, d: Name)
    requires AllHealed(c, w) && Dequeued(w, key, w0) && Follows(w0, w') && !CopyOwed(c, w, key, w', n, d)
    ensures Healed(c, w', n, d)
  {
    assert Healed(c, w, n, d);
    var k := CopyKey(c, n, d.name);
    if LiveMerge(w', n) && n !in w'.failures && d in w'.slices && IsDataplane(c, d, w'.slices[d])
       && ImportKey(n) !in w'.pending && SliceKey(d) !in w'.pending && SliceKey(k) !in w'.pending {
      assert w'.slices[d] == w.slices[d];
      assert Copied(c, w, n, d);
      assert w'.slices[k] == w.slices[k];
    }
  }

  lemma KeepsAllHealed(c: Config, w: World, key: Key, w0: World, w': World)
    requires AllHealed(c, w) && Dequeued(w, key, w0) && Follows(w0, w')
    requires forall n, d :: CopyOwed(c, w, key, w', n, d) ==> Healed(c, w', n, d)
    ensures AllHealed(c, w')
  {
    forall n, d ensures Healed(c, w', n, d) {
      if !CopyOwed(c, w, key, w', n, d) {
        KeepsOneHealed(c, w, key, w0, w', n, d);
      }
    }
  }

  // ---------------------------------------------------------------- the slice handler

  ghost predicate Safe(c: Config, w: World) {
    GoodCodec(c) && NamesOk(w) && NoOrphans(c, w) && AllHealed(c, w)
  }

  lemma CopyKeyReads(c: Config, n: Name, d: Name)
    requires GoodCodec(c) && n.name != "" && d.name != "" && d.namespace == c.namespace
    ensures var k := CopyKey(c, n, d.name);
            c.parse(k.name).Some? && ImportOf(c, k) == n && SliceOf(c, k) == d && Canonical(c, k)
  {
    assert c.parse(c.get(n.name, d.name)) == Some((n.name, d.name));
  }

  lemma CanonicalIsCopyKey(c: Config, k: Name)
    requires Canonical(c, k)
    ensures CopyKey(c, ImportOf(c, k), SliceOf(c, k).name) == k
  {
  }

  lemma CheckFollows(c: Config, w: World, k: Name)
    requires GoodCodec(c)
    ensures Follows(w, CheckEndpointSlice(c, w, k))
    ensures CheckEndpointSlice(c, w, k).imports == w.imports && CheckEndpointSlice(c, w, k).failures == w.failures
  {
    if c.parse(k.name).Some? {
      var n, d := ImportOf(c, k), SliceOf(c, k);
      if n !in w.imports || !w.imports[n].merge || d !in w.slices {
        DropFollows(w, {k});
      } else {
        ApplyFollows(w, Wanted(c, w, {(n, d.name)}));
      }
    }
  }

  /** A canonical copy that was just applied has everything it needs. */
  lemma AppliedBacks(c: Config, w: World, k: Name, n: Name, d: Name)
    requires GoodCodec(c) && Canonical(c, k) && n == ImportOf(c, k) && d == SliceOf(c, k)
    requires LiveMerge(w, n) && d in w.slices
    ensures NotOrphaned(c, Apply(w, Wanted(c, w, {(n, d.name)})), k)
  {
    var wanted := Wanted(c, w, {(n, d.name)});
    var w' := Apply(w, wanted);
    WantedHas(c, w, {(n, d.name)}, n, d);
    ApplyFollows(w, wanted);
    CanonicalIsCopyKey(c, k);
    DesiredLabels(c, n, w.imports[n], d.name, w.slices[d], w'.slices[k]);
  }

  lemma DesiredLabels(c: Config, n: Name, imp: Import, d: string, dp: Slice, s: Slice)
    requires Agrees(Desired(c, n, imp, d, dp), s)
    ensures Labelled(s, ManagedBy, c.app) && Labelled(s, ServiceName, n.name) && Labelled(s, DataplaneSlice, d)
  {
  }

  /** Checking a slice leaves it pending, gone, not a copy, or a copy with everything it needs. */
  lemma CheckSettles(c: Config, w: World, k: Name)
    requires GoodCodec(c) && (k in w.slices ==> !IsDataplane(c, k, w.slices[k]))
    ensures NotOrphaned(c, CheckEndpointSlice(c, w, k), k)
  {
    if Canonical(c, k) {
      var n, d := ImportOf(c, k), SliceOf(c, k);
      if n !in w.imports || !w.imports[n].merge || d !in w.slices {
        DropFollows(w, {k});
      } else {
        AppliedBacks(c, w, k, n, d);
      }
    }
  }

  /** Checking a copy heals it. */
  lemma CheckHeals(c: Config, w: World, n: Name, d: Name)
    requires GoodCodec(c) && n.name != "" && d.name != ""
    ensures Healed(c, CheckEndpointSlice(c, w, CopyKey(c, n, d.name)), n, d)
  {
    var k := CopyKey(c, n, d.name);
    var w' := CheckEndpointSlice(c, w, k);
    CheckFollows(c, w, k);
    if d.namespace == c.namespace {
      CopyKeyReads(c, n, d);
      if LiveMerge(w, n) && d in w.slices {
        AppliedHeals(c, w, {(n, d.name)}, n, d);
      }
    }
  }

  lemma HandleSliceFollows(c: Config, w: World, k: Name, w0: World)
    requires GoodCodec(c) && w0 == w.(pending := w.pending - {SliceKey(k)})
    ensures Follows(w0, HandleSlice(c, w, k)) && HandleSlice(c, w, k).failures == w.failures
  {
    if k in w.slices {
      if IsDataplane(c, k, w.slices[k]) {
        ApplyFollows(w0, Wanted(c, w0, MergePairs(w0, k.name)));
      } else {
        CheckFollows(c, w0, k);
      }
    } else {
      CheckFollows(c, w0, k);
      var w1 := CheckEndpointSlice(c, w0, k);
      DropFollows(w1, CopiesOfSlice(c, w1, k.name));
    }
  }

  lemma HandleSliceSettles(c: Config, w: World, k: Name, w0: World)
    requires GoodCodec(c) && w0 == w.(pending := w.pending - {SliceKey(k)})
    ensures Settles(c, w, SliceKey(k), HandleSlice(c, w, k))
  {
    var w' := HandleSlice(c, w, k);
    HandleSliceFollows(c, w, k, w0);
    if k in w.slices {
      if !IsDataplane(c, k, w.slices[k]) {
        CheckSettles(c, w0, k);
      }
    } else {
      CheckSettles(c, w0, k);
      var w1 := CheckEndpointSlice(c, w0, k);
      if k.namespace == c.namespace {
        DropSettles(c, w1, k);
      }
    }
  }

  /** Dropping the copies of a slice leaves none, and its own state is no worse than before. */
  lemma DropSettles(c: Config, w: World, k: Name)
    requires NotOrphaned(c, w, k)
    ensures var w' := DropSlices(w, CopiesOfSlice(c, w, k.name));
            NotOrphaned(c, w', k) && SliceCopiesGone(c, w', k)
  {
    var w' := DropSlices(w, CopiesOfSlice(c, w, k.name));
    DropFollows(w, CopiesOfSlice(c, w, k.name));
    assert forall x :: x in CopiesOfSlice(c, w', k.name) ==> x in CopiesOfSlice(c, w, k.name);
  }

  lemma HandleSliceHeals(c: Config, w: World, k: Name, w0: World, n: Name, d: Name)
    requires GoodCodec(c) && NamesOk(w) && w0 == w.(pending := w.pending - {SliceKey(k)})
    requires k == d || k == CopyKey(c, n, d.name)
    ensures Healed(c, HandleSlice(c, w, k), n, d)
  {
    var w' := HandleSlice(c, w, k);
    HandleSliceFollows(c, w, k, w0);
    if LiveMerge(w, n) && SliceKey(d) !in w'.pending && d in w'.slices {
      if k in w.slices && IsDataplane(c, k, w.slices[k]) {
        if k == d {
          AppliedHeals(c, w0, MergePairs(w0, k.name), n, d);
        }
      } else if k == CopyKey(c, n, d.name) {
        CheckHeals(c, w0, n, d);
        if k !in w.slices {
          var w1 := CheckEndpointSlice(c, w0, k);
          CheckFollows(c, w0, k);
          DropFollows(w1, CopiesOfSlice(c, w1, k.name));
        }
      }
    }
  }

  lemma ApplyNames(c: Config, w: World, pairs: set<(Name, string)>)
    requires GoodCodec(c) && NamesOk(w)
    ensures NamesOk(Apply(w, Wanted(c, w, pairs)))
  {
    forall k | k in Wanted(c, w, pairs) ensures k.name != "" {
      WantedNamed(c, w, pairs, k);
    }
  }

  lemma DropNames(w: World, gone: set<Name>)
    requires NamesOk(w)
    ensures NamesOk(DropSlices(w, gone))
  {
  }

  lemma CheckNames(c: Config, w: World, k: Name)
    requires GoodCodec(c) && NamesOk(w)
    ensures NamesOk(CheckEndpointSlice(c, w, k))
  {
    if c.parse(k.name).Some? {
      DropNames(w, {k});
      ApplyNames(c, w, {(ImportOf(c, k), SliceOf(c, k).name)});
    }
  }

  lemma HandleSliceNames(c: Config, w: World, k: Name)
    requires GoodCodec(c) && NamesOk(w)
    ensures NamesOk(HandleSlice(c, w, k))
  {
    var w0 := w.(pending := w.pending - {SliceKey(k)});
    if k in w.slices && IsDataplane(c, k, w.slices[k]) {
      ApplyNames(c, w0, MergePairs(w0, k.name));
    } else {
      CheckNames(c, w0, k);
      var w1 := CheckEndpointSlice(c, w0, k);
      DropNames(w1, CopiesOfSlice(c, w1, k.name));
    }
  }

  lemma HandleSliceSafe(c: Config, w: World, k: Name)
    requires Safe(c, w)
    ensures Safe(c, HandleSlice(c, w, k))
  {
    var w0 := w.(pending := w.pending - {SliceKey(k)});
    var w' := HandleSlice(c, w, k);
    HandleSliceFollows(c, w, k, w0);
    HandleSliceSettles(c, w, k, w0);
    KeepsNoOrphans(c, w, SliceKey(k), w0, w');
    forall n, d | CopyOwed(c, w, SliceKey(k), w', n, d) ensures Healed(c, w', n, d) {
      HandleSliceHeals(c, w, k, w0, n, d);
    }
    KeepsAllHealed(c, w, SliceKey(k), w0, w');
    HandleSliceNames(c, w, k);
  }

  // ---------------------------------------------------------------- the import handler

  lemma ServiceFollows(c: Config, w: World, n: Name, k: Name, spec: ServiceSpec)
    ensures var w' := AddImportService(c, w, n, k, spec).0;
            Follows(w, w') && w'.slices == w.slices && w'.imports == w.imports && w'.failures == w.failures
  {
  }

  /** What is left after an import was reconciled. */
  ghost predicate Reconciled(c: Config, w: World, n: Name) {
    && (LiveMerge(w, n) || PortFailed(w, n) || CopiesGone(c, w, n))
    && (forall d :: Healed(c, w, n, d))
  }

  lemma ConcludeFollows(c: Config, w: World, n: Name, port: Condition, failure: Option<Failure>)
    requires n in w.imports
    ensures var w' := Conclude(w, n, port, failure);
            && Follows(w, w') && w'.slices == w.slices
            && w'.failures == (if failure.Some? then w.failures[n := failure.value] else w.failures - {n})
  {
    StatusFollows(w, n, port, if failure.Some? then Bad(failure.value) else Good);
  }

  lemma StatusFollows(w: World, n: Name, port: Condition, service: Condition)
    requires n in w.imports
    ensures var w' := SetStatus(w, n, port, service);
            Follows(w, w') && w'.slices == w.slices && w'.failures == w.failures
  {
  }

  lemma AllocateFollows(w: World, n: Name, draws: seq<nat>)
    requires n in w.imports
    ensures var w' := Allocate(w, n, draws).0;
            Follows(w, w') && w'.slices == w.slices && w'.failures == w.failures
    ensures Allocate(w, n, draws).1.Some? ==>
              Allocate(w, n, draws).1.value.PortConflict? || Allocate(w, n, draws).1.value.PortsTaken?
  {
  }

  lemma BuildCopies(c: Config, w: World, n: Name)
    requires GoodCodec(c) && NamesOk(w) && n in w.imports
    ensures var w' := Apply(w, Wanted(c, w, DataplanePairs(c, w, n)));
            && Follows(w, w')
            && forall d :: d in w'.slices && IsDataplane(c, d, w'.slices[d]) ==>
                 SliceKey(d) in w'.pending || Copied(c, w', n, d)
  {
    var pairs := DataplanePairs(c, w, n);
    var w' := Apply(w, Wanted(c, w, pairs));
    ApplyFollows(w, Wanted(c, w, pairs));
    forall d | d in w'.slices && IsDataplane(c, d, w'.slices[d]) && SliceKey(d) !in w'.pending
      ensures Copied(c, w', n, d)
    {
      assert (n, d.name) in pairs;
      AppliedHeals(c, w, pairs, n, d);
    }
  }

  lemma BuildServices(c: Config, w: World, n: Name)
    requires n in w.imports
    ensures var (w', failure) := AddServices(c, w, n);
            && Follows(w, w') && w'.slices == w.slices && w'.failures == w.failures
            && (failure.Some? ==> failure.value.ServiceConflict?)
  {
    ServiceFollows(c, w, n, SystemServiceKey(c, n), SystemSpec(c, w.imports[n]));
    var (w2, failure) := AddImportService(c, w, n, SystemServiceKey(c, n), SystemSpec(c, w.imports[n]));
    ServiceFollows(c, w2, n, n, UserSpec(c, n));
  }

  lemma DropCopies(c: Config, w: World, n: Name)
    ensures var w' := DropSlices(w, CopiesOfImport(c, w, n));
            Follows(w, w') && CopiesOfImport(c, w', n) == {}
  {
    DropFollows(w, CopiesOfImport(c, w, n));
  }

  /** Building copies for a merge import heals it; building services for another drops its copies. */
  lemma BuildWorks(c: Config, w: World, n: Name)
    requires GoodCodec(c) && NamesOk(w) && n in w.imports
    ensures var (w', failure) := Build(c, w, n);
            && Follows(w, w') && w'.imports == w.imports && w'.failures == w.failures
            && (failure.Some? ==> !failure.value.PortConflict? && !failure.value.PortsTaken?)
            && (!w.imports[n].merge ==> CopiesOfImport(c, w', n) == {})
            && (w.imports[n].merge && failure.None? ==>
                  forall d :: d in w'.slices && IsDataplane(c, d, w'.slices[d]) ==>
                    SliceKey(d) in w'.pending || Copied(c, w', n, d))
  {
    if w.imports[n].merge {
      BuildCopies(c, w, n);
    } else {
      var w1 := DropSlices(w, CopiesOfImport(c, w, n));
      DropCopies(c, w, n);
      BuildServices(c, w1, n);
      var w2 := AddServices(c, w1, n).0;
      FollowsTransitive(w, w1, w2);
      assert CopiesOfImport(c, w2, n) == CopiesOfImport(c, w1, n);
    }
  }

  lemma CopiedStays(c: Config, w: World, w': World, n: Name, d: Name)
    requires n in w.imports && n in w'.imports && d in w.slices && w'.slices == w.slices && Copied(c, w, n, d)
    ensures Copied(c, w', n, d)
  {
  }

  lemma ConcludeReconciles(c: Config, w: World, n: Name, port: Condition, failure: Option<Failure>)
    requires n in w.imports
    requires LiveMerge(w, n) || CopiesOfImport(c, w, n) == {}
             || (failure.Some? && (failure.value.PortConflict? || failure.value.PortsTaken?))
    requires LiveMerge(w, n) && failure.None? ==>
               forall d :: d in w.slices && IsDataplane(c, d, w.slices[d]) ==>
                 SliceKey(d) in w.pending || Copied(c, w, n, d)
    ensures Reconciled(c, Conclude(w, n, port, failure), n)
  {
    var w' := Conclude(w, n, port, failure);
    ConcludeFollows(c, w, n, port, failure);
    assert CopiesOfImport(c, w', n) == CopiesOfImport(c, w, n);
    forall d ensures Healed(c, w', n, d) {
      if LiveMerge(w, n) && failure.None? && d in w.slices && IsDataplane(c, d, w.slices[d])
        && SliceKey(d) !in w.pending {
        CopiedStays(c, w, w', n, d);
      }
    }
  }

  lemma AddImportWorks(c: Config, w: World, n: Name, draws: seq<nat>)
    requires GoodCodec(c) && NamesOk(w) && n in w.imports
    ensures var w' := AddImport(c, w, n, draws);
            && Follows(w, w') && Reconciled(c, w', n)
            && (forall m :: m != n ==> (m in w'.failures <==> m in w.failures)
                                       && (m in w.failures ==> w'.failures[m] == w.failures[m]))
  {
    var (w1, failure) := Allocate(w, n, draws);
    AllocateFollows(w, n, draws);
    if failure.Some? {
      ConcludeFollows(c, w1, n, Bad(failure.value), failure);
      ConcludeReconciles(c, w1, n, Bad(failure.value), failure);
      FollowsTransitive(w, w1, AddImport(c, w, n, draws));
    } else {
      var (w2, failure) := Build(c, w1, n);
      BuildWorks(c, w1, n);
      ConcludeFollows(c, w2, n, Good, failure);
      ConcludeReconciles(c, w2, n, Good, failure);
      FollowsTransitive(w, w1, w2);
      FollowsTransitive(w, w2, AddImport(c, w, n, draws));
    }
  }

  lemma AddImportNames(c: Config, w: World, n: Name, draws: seq<nat>)
    requires GoodCodec(c) && NamesOk(w) && n in w.imports
    ensures NamesOk(AddImport(c, w, n, draws))
  {
    var (w1, failure) := Allocate(w, n, draws);
    AllocateFollows(w, n, draws);
    assert NamesOk(w1);
    if failure.None? {
      BuildNames(c, w1, n);
      ConcludeFollows(c, Build(c, w1, n).0, n, Good, Build(c, w1, n).1);
    } else {
      ConcludeFollows(c, w1, n, Bad(failure.value), failure);
    }
  }

  lemma BuildNames(c: Config, w: World, n: Name)
    requires GoodCodec(c) && NamesOk(w) && n in w.imports
    ensures NamesOk(Build(c, w, n).0) && n in Build(c, w, n).0.imports
  {
    if w.imports[n].merge {
      ApplyNames(c, w, DataplanePairs(c, w, n));
    } else {
      var w1 := DropSlices(w, CopiesOfImport(c, w, n));
      DropNames(w, CopiesOfImport(c, w, n));
      ServiceFollows(c, w1, n, SystemServiceKey(c, n), SystemSpec(c, w1.imports[n]));
      var (w2, failure) := AddImportService(c, w1, n, SystemServiceKey(c, n), SystemSpec(c, w1.imports[n]));
      ServiceFollows(c, w2, n, n, UserSpec(c, n));
    }
  }

  /** Reconciling an import keeps the invariants, whether its own key or a service's set it off. */
  lemma AddImportSafe(c: Config, w: World, key: Key, w0: World, n: Name, draws: seq<nat>)
    requires Safe(c, w) && Dequeued(w, key, w0) && n in w.imports && (key == ImportKey(n) || key.ServiceKey?)
    ensures Safe(c, AddImport(c, w0, n, draws))
  {
    var w' := AddImport(c, w0, n, draws);
    AddImportWorks(c, w0, n, draws);
    AddImportNames(c, w0, n, draws);
    forall m | Owed(w, key, w', m) ensures CopiesGone(c, w', m) {
      assert m == n;
    }
    KeepsNoOrphans(c, w, key, w0, w');
    forall m, d | CopyOwed(c, w, key, w', m, d) ensures Healed(c, w', m, d) {
      assert m == n;
    }
    KeepsAllHealed(c, w, key, w0, w');
  }

  /** A longer pending set is as safe. */
  lemma MorePending(c: Config, w: World, key: Key)
    requires Safe(c, w)
    ensures Safe(c, w.(pending := w.pending + {key}))
  {
    var w' := w.(pending := w.pending + {key});
    forall k ensures NotOrphaned(c, w', k) {
      assert NotOrphaned(c, w, k);
    }
    forall n, d ensures Healed(c, w', n, d) {
      assert Healed(c, w, n, d);
    }
  }

  lemma DeleteServiceFollows(c: Config, w: World, k: Name, n: Name)
    ensures var w' := DeleteImportService(c, w, k, n);
            Follows(w, w') && w'.slices == w.slices && w'.imports == w.imports && w'.failures == w.failures
  {
  }

  lemma DeleteImportWorks(c: Config, w: World, n: Name)
    requires n !in w.imports
    ensures var w' := DeleteImport(c, w, n);
            && Follows(w, w') && CopiesOfImport(c, w', n) == {}
            && w'.imports == w.imports && w'.failures == w.failures - {n}
            && (forall k :: k in w'.slices ==> k in w.slices)
  {
    DeleteServiceFollows(c, w, n, n);
    var w1 := DeleteImportService(c, w, n, n);
    DeleteServiceFollows(c, w1, Name(c.namespace, c.system(n)), n);
    var w2 := if n.namespace != c.namespace
              then DeleteImportService(c, w1, Name(c.namespace, c.system(n)), n) else w1;
    FollowsTransitive(w, w1, w2);
    DropFollows(w2, CopiesOfImport(c, w2, n));
    FollowsTransitive(w, w2, DropSlices(w2, CopiesOfImport(c, w2, n)));
  }

  lemma DeleteImportSafe(c: Config, w: World, w0: World, n: Name)
    requires Safe(c, w) && Dequeued(w, ImportKey(n), w0) && n !in w.imports
    ensures Safe(c, DeleteImport(c, w0, n))
  {
    var w' := DeleteImport(c, w0, n);
    DeleteImportWorks(c, w0, n);
    DeletedSafe(c, w, w0, n, w');
  }

  lemma DeletedSafe(c: Config, w: World, w0: World, n: Name, w': World)
    requires Safe(c, w) && Dequeued(w, ImportKey(n), w0) && n !in w.imports && Follows(w0, w')
    requires CopiesOfImport(c, w', n) == {} && w'.failures == w.failures - {n}
    requires forall k :: k in w'.slices ==> k in w.slices
    ensures Safe(c, w')
  {
    KeepsNoOrphans(c, w, ImportKey(n), w0, w');
    KeepsAllHealed(c, w, ImportKey(n), w0, w');
  }

  lemma RequeueSafe(c: Config, w: World, n: Name, key: Key)
    requires Safe(c, w)
    ensures Safe(c, Requeue(w, n, key))
  {
    MorePending(c, w, key);
  }

  lemma HandleImportSafe(c: Config, w: World, n: Name, draws: seq<nat>)
    requires Safe(c, w)
    ensures Safe(c, HandleImport(c, w, n, draws))
  {
    var w0 := w.(pending := w.pending - {ImportKey(n)});
    if n in w.imports {
      AddImportSafe(c, w, ImportKey(n), w0, n, draws);
      RequeueSafe(c, AddImport(c, w0, n, draws), n, ImportKey(n));
    } else {
      DeleteImportSafe(c, w, w0, n);
    }
  }

  lemma SkipServiceSafe(c: Config, w: World, k: Name, w0: World)
    requires Safe(c, w) && Dequeued(w, ServiceKey(k), w0) && w0.pending <= w.pending
    ensures Safe(c, w0)
  {
    KeepsNoOrphans(c, w, ServiceKey(k), w0, w0);
    KeepsAllHealed(c, w, ServiceKey(k), w0, w0);
  }

  lemma SecondImportSafe(c: Config, w: World, k: Name, n: Name, draws: seq<nat>)
    requires Safe(c, w) && n in w.imports
    ensures Safe(c, Requeue(AddImport(c, w, n, draws), n, ServiceKey(k)))
  {
    AddImportSafe(c, w, ServiceKey(k), w, n, draws);
    RequeueSafe(c, AddImport(c, w, n, draws), n, ServiceKey(k));
  }

  lemma HandleServiceSafe(c: Config, w: World, k: Name, draws: seq<nat>, draws': seq<nat>)
    requires Safe(c, w)
    ensures Safe(c, HandleService(c, w, k, draws, draws'))
  {
    var w0 := w.(pending := w.pending - {ServiceKey(k)});
    SkipServiceSafe(c, w, k, w0);
    var w1 := if k in w0.imports then AddImport(c, w0, k, draws) else w0;
    if k in w0.imports {
      AddImportSafe(c, w0, ServiceKey(k), w0, k, draws);
      SecondImportSafe(c, w0, k, k, draws);
    }
    assert Safe(c, w1);
    SystemServiceSafe(c, w1, k, draws');
  }

  lemma SystemServiceSafe(c: Config, w: World, k: Name, draws: seq<nat>)
    requires Safe(c, w)
    ensures Safe(c, HandleSystemService(c, w, k, draws))
  {
    if k.name in w.serviceToImport && w.serviceToImport[k.name] in w.imports {
      SecondImportSafe(c, w, k, w.serviceToImport[k.name], draws);
    }
  }

  // ---------------------------------------------------------------- whole runs

  /** A write from outside makes its object pending, which is excuse enough. */
  lemma OutsideSafe(c: Config, w: World, e: Event)
    requires Safe(c, w) && !e.Handle? && Enabled(w, e)
    ensures Safe(c, Next(c, w, e))
  {
    var w' := Next(c, w, e);
    forall k ensures NotOrphaned(c, w', k) {
      assert NotOrphaned(c, w, k);
    }
    forall n, d ensures Healed(c, w', n, d) {
      assert Healed(c, w, n, d);
    }
  }

  lemma NextSafe(c: Config, w: World, e: Event)
    requires Safe(c, w) && Enabled(w, e)
    ensures Safe(c, Next(c, w, e))
  {
    match e
    case Handle(key, draws, draws') =>
      match key {
        case ImportKey(n) => HandleImportSafe(c, w, n, draws);
        case ServiceKey(k) => HandleServiceSafe(c, w, k, draws, draws');
        case SliceKey(k) => HandleSliceSafe(c, w, k);
      }
    case _ => OutsideSafe(c, w, e);
  }

  lemma {:induction false} RunSafe(c: Config, w: World, events: seq<Event>)
    requires Safe(c, w) && Legal(c, w, events)
    ensures Safe(c, Run(c, w, events))
    decreases |events|
  {
    if events != [] {
      NextSafe(c, w, events[0]);
      RunSafe(c, Next(c, w, events[0]), events[1..]);
    }
  }

  /**
   A slice named as a copy, and not taken for one of the dataplane's own, has its dataplane slice and its
   import, which is merged, or is not and was refused a port.
   */
  ghost predicate Founded(c: Config, w: World, k: Name) {
    k in w.slices && Canonical(c, k) && !Disguised(c, w, k) ==>
      && SliceOf(c, k) in w.slices && ImportOf(c, k) in w.imports
      && (w.imports[ImportOf(c, k)].merge || PortFailed(w, ImportOf(c, k)))
  }

  /**
   A merge import without failure has a current copy of the slice; only in the dataplane's namespace can another
   slice be in its place.
   */
  ghost predicate UpToDate(c: Config, w: World, n: Name, d: Name) {
    LiveMerge(w, n) && n !in w.failures && d in w.slices && IsDataplane(c, d, w.slices[d]) ==>
      || Current(c, w, n, d)
      || (n.namespace == c.namespace && Disguised(c, w, CopyKey(c, n, d.name)))
  }

  /**
   Eventual consistency, in every run that starts empty and whatever the interleaving: once nothing is
   pending, copies are founded and up to date.
   */
  lemma QuietMeansConsistent(c: Config, events: seq<Event>, w: World)
    requires GoodCodec(c) && Legal(c, START, events) && w == Run(c, START, events) && w.pending == {}
    ensures forall k :: Founded(c, w, k)
    ensures forall n, d :: UpToDate(c, w, n, d)
  {
    assert Safe(c, START);
    RunSafe(c, START, events);
    forall k ensures Founded(c, w, k) {
      assert NotOrphaned(c, w, k);
    }
    forall n, d ensures UpToDate(c, w, n, d) {
      assert Healed(c, w, n, d);
    }
  }

  /**
   Exactly when a copy is current at rest: another slice is in its place if and only if that one is taken
   for the dataplane's own.
   */
  lemma CurrentExactly(c: Config, events: seq<Event>, w: World, n: Name, d: Name)
    requires GoodCodec(c) && Legal(c, START, events) && w == Run(c, START, events) && w.pending == {}
    requires LiveMerge(w, n) && n !in w.failures && n != Name(c.namespace, c.ingress)
    requires d in w.slices && IsDataplane(c, d, w.slices[d])
    ensures Current(c, w, n, d) <==> !Disguised(c, w, CopyKey(c, n, d.name))
  {
    QuietMeansConsistent(c, events, w);
    assert UpToDate(c, w, n, d);
    if Current(c, w, n, d) {
      DesiredLabels(c, n, w.imports[n], d.name, w.slices[d], w.slices[CopyKey(c, n, d.name)]);
    }
  }

  // ---------------------------------------------------------------- what a copy holds

  /** Endpoint by endpoint, `s` has the addresses and the three conditions of `d`. */
  ghost predicate SameEndpoints(s: Slice, d: Slice) {
    && |s.endpoints| == |d.endpoints|
    && forall i :: 0 <= i < |s.endpoints| ==>
         && s.endpoints[i].addresses == d.endpoints[i].addresses
         && s.endpoints[i].ready == d.endpoints[i].ready
         && s.endpoints[i].serving == d.endpoints[i].serving
         && s.endpoints[i].terminating == d.endpoints[i].terminating
  }

  /** The slice is labelled with the import it serves, its manager and the slice it is copied from, and nothing else. */
  ghost predicate LabelledAsCopy(c: Config, s: Slice, n: Name, d: Name) {
    && s.labels.Keys == {ServiceName, ManagedBy, DataplaneSlice}
    && s.labels[ServiceName] == n.name && s.labels[ManagedBy] == c.app && s.labels[DataplaneSlice] == d.name
  }

  /** What a copy at rest holds: the endpoints of its dataplane slice, for IPv4, under its three labels. */
  lemma CopyHolds(c: Config, events: seq<Event>, w: World, n: Name, d: Name)
    requires GoodCodec(c) && Legal(c, START, events) && w == Run(c, START, events) && w.pending == {}
    requires n in w.imports && w.imports[n].merge && n !in w.failures && n != Name(c.namespace, c.ingress)
    requires d in w.slices && d.namespace == c.namespace
    requires ServiceName in w.slices[d].labels && w.slices[d].labels[ServiceName] == c.ingress
    requires var k := Name(n.namespace, c.get(n.name, d.name));
             k in w.slices && k.namespace == c.namespace && ServiceName in w.slices[k].labels ==>
               w.slices[k].labels[ServiceName] != c.ingress
    ensures var k := Name(n.namespace, c.get(n.name, d.name));
            && k in w.slices && w.slices[k].ipv4
            && SameEndpoints(w.slices[k], w.slices[d]) && LabelledAsCopy(c, w.slices[k], n, d)
  {
    CurrentExactly(c, events, w, n, d);
  }

  /** What a copy holds that was just made: all of the endpoints, and the import's port. */
  ghost predicate MadeFrom(c: Config, s: Slice, n: Name, imp: Import, d: Name, dp: Slice) {
    s.ipv4 && s.endpoints == dp.endpoints && s.ports == [imp.targetPort] && LabelledAsCopy(c, s, n, d)
  }

  lemma AppliedMakes(c: Config, w: World, pairs: set<(Name, string)>, n: Name, d: Name)
    requires GoodCodec(c) && (n, d.name) in pairs && n in w.imports && d in w.slices && d.namespace == c.namespace
    requires n.name != "" && d.name != "" && Name(n.namespace, c.get(n.name, d.name)) !in w.slices
    ensures var k, w' := Name(n.namespace, c.get(n.name, d.name)), Apply(w, Wanted(c, w, pairs));
            k in w'.slices && MadeFrom(c, w'.slices[k], n, w.imports[n], d, w.slices[d])
  {
    WantedHas(c, w, pairs, n, d);
    var k := Name(n.namespace, c.get(n.name, d.name));
    PutWhereMissing(w, Wanted(c, w, pairs), k);
    DesiredFields(c, n, w.imports[n], d, w.slices[d]);
  }

  lemma PutWhereMissing(w: World, wanted: map<Name, Slice>, k: Name)
    requires k in wanted && k !in w.slices
    ensures k in Apply(w, wanted).slices && Apply(w, wanted).slices[k] == wanted[k]
  {
  }

  lemma DesiredFields(c: Config, n: Name, imp: Import, d: Name, dp: Slice)
    ensures MadeFrom(c, Desired(c, n, imp, d.name, dp), n, imp, d, dp)
  {
  }

  /** The handler of a dataplane slice makes the missing copies of it, for every merge import. */
  lemma HandlerMakesCopies(c: Config, w: World, d: Name, n: Name)
    requires GoodCodec(c) && NamesOk(w) && d in w.slices && IsDataplane(c, d, w.slices[d]) && LiveMerge(w, n)
    requires Name(n.namespace, c.get(n.name, d.name)) !in w.slices
    ensures var k, w' := Name(n.namespace, c.get(n.name, d.name)), HandleSlice(c, w, d);
            k in w'.slices && MadeFrom(c, w'.slices[k], n, w.imports[n], d, w.slices[d])
  {
    var w0 := w.(pending := w.pending - {SliceKey(d)});
    assert (n, d.name) in MergePairs(w0, d.name);
    AppliedMakes(c, w0, MergePairs(w0, d.name), n, d);
  }

  /** Reconciling a merge import makes its missing copies, unless its port or its service is missing. */
  lemma AddImportMakesCopies(c: Config, w: World, n: Name, draws: seq<nat>, d: Name)
    requires GoodCodec(c) && NamesOk(w) && LiveMerge(w, n) && d in w.slices && IsDataplane(c, d, w.slices[d])
    requires Name(n.namespace, c.get(n.name, d.name)) !in w.slices
    ensures var k, w' := Name(n.namespace, c.get(n.name, d.name)), AddImport(c, w, n, draws);
            n !in w'.failures ==>
              && n in w'.imports && w'.imports[n].targetPort != 0
              && k in w'.slices && MadeFrom(c, w'.slices[k], n, w'.imports[n], d, w.slices[d])
  {
    var w' := AddImport(c, w, n, draws);
    if n !in w'.failures {
      var w1 := Allocate(w, n, draws).0;
      AllocateFollows(w, n, draws);
      L.LeaseSettles(w.leases, n, w.imports[n].targetPort, draws);
      assert (n, d.name) in DataplanePairs(c, w1, n);
      AppliedMakes(c, w1, DataplanePairs(c, w1, n), n, d);
      ConcludeFollows(c, Build(c, w1, n).0, n, Good, Build(c, w1, n).1);
      ConcludeKeepsPort(Build(c, w1, n).0, n, Build(c, w1, n).1);
    }
  }

  lemma ConcludeKeepsPort(w: World, n: Name, failure: Option<Failure>)
    requires n in w.imports
    ensures var w' := Conclude(w, n, Good, failure);
            n in w'.imports && w'.imports[n].targetPort == w.imports[n].targetPort
              && w'.imports[n].port == w.imports[n].port
  {
  }
}
