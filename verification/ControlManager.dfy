/** The control-plane manager: the handlers of `Reconcile`, as they change the cluster object by object. */
module ControlManager {
  import opened Common
  import opened Reconcile
  import opened SliceHealing
  import L = Ports

  // ---------------------------------------------------------------- one object at a time

  /** Creates or updates one slice unless it is there as wanted. */
  function PutIfStale(w: World, k: Name, want: Slice): World {
    if k in w.slices && Agrees(want, w.slices[k]) then w
    else w.(slices := w.slices[k := want], pending := w.pending + {SliceKey(k)}, writes := w.writes + 1)
  }

  lemma StaleGrows(slices: map<Name, Slice>, wanted: map<Name, Slice>, k: Name, want: Slice)
    requires k !in wanted
    ensures Stale(slices, wanted[k := want])
         == Stale(slices, wanted) + if k in slices && Agrees(want, slices[k]) then {} else {k}
    ensures k !in Stale(slices, wanted)
  {
    var w' := wanted[k := want];
    forall x ensures x in Stale(slices, w') <==>
                     x in Stale(slices, wanted) || (x == k && !(k in slices && Agrees(want, slices[k]))) {
    }
  }

  lemma SliceKeysGrow(pending: set<Key>, s: set<Name>, k: Name)
    ensures pending + SliceKeys(s + {k}) == pending + SliceKeys(s) + {SliceKey(k)}
  {
  }

  lemma TouchOneMore(w: World, slices: map<Name, Slice>, keys: set<Name>, k: Name, slices': map<Name, Slice>)
    requires k !in keys
    ensures var w1 := Touch(w, slices, keys);
            Touch(w, slices', keys + {k}) == w1.(slices := slices', pending := w1.pending + {SliceKey(k)},
                writes := w1.writes + 1)
  {
    SliceKeysGrow(w.pending, keys, k);
  }

  lemma PatchOneMore(slices: map<Name, Slice>, wanted: map<Name, Slice>, k: Name, want: Slice)
    requires k !in wanted
    ensures var stale := Stale(slices, wanted);
            var wanted' := wanted[k := want];
            && k !in stale
            && slices + Pick(wanted', stale) == slices + Pick(wanted, stale)
            && slices + Pick(wanted', stale + {k}) == (slices + Pick(wanted, stale))[k := want]
  {
    var stale := Stale(slices, wanted);
    PickGrows(wanted, stale, k, want);
    MergeOne(slices, Pick(wanted, stale), k, want);
  }

  /** Applying one more wanted slice is one more check. */
  lemma ApplyOneMore(w: World, wanted: map<Name, Slice>, k: Name, want: Slice)
    requires k !in wanted
    ensures Apply(w, wanted[k := want]) == PutIfStale(Apply(w, wanted), k, want)
  {
    var stale, wanted' := Stale(w.slices, wanted), wanted[k := want];
    var slices := w.slices + Pick(wanted, stale);
    assert Apply(w, wanted) == Touch(w, slices, stale);
    ApplyAt(w, wanted, k);
    StaleGrows(w.slices, wanted, k, want);
    PatchOneMore(w.slices, wanted, k, want);
    if k in w.slices && Agrees(want, w.slices[k]) {
      assert stale + {} == stale;
    } else {
      assert Apply(w, wanted') == Touch(w, slices[k := want], stale + {k});
      TouchOneMore(w, slices, stale, k, slices[k := want]);
    }
  }

  lemma ApplyAt(w: World, wanted: map<Name, Slice>, k: Name)
    requires k !in wanted
    ensures k in Apply(w, wanted).slices <==> k in w.slices
    ensures k in w.slices ==> Apply(w, wanted).slices[k] == w.slices[k]
  {
  }

  function DropOne(w: World, k: Name): World {
    if k in w.slices
    then w.(slices := w.slices - {k}, pending := w.pending + {SliceKey(k)}, writes := w.writes + 1)
    else w
  }

  lemma DropOneMore(w: World, gone: set<Name>, k: Name)
    requires k !in gone
    ensures DropSlices(w, gone + {k}) == DropOne(DropSlices(w, gone), k)
  {
    var present, present' := gone * w.slices.Keys, (gone + {k}) * w.slices.Keys;
    assert DropSlices(w, gone) == Touch(w, w.slices - present, present);
    assert DropSlices(w, gone + {k}) == Touch(w, w.slices - present', present');
    if k in w.slices {
      assert present' == present + {k};
      TouchOneMore(w, w.slices - present, present, k, w.slices - present');
      RemoveOne(w.slices, present, k);
    } else {
      assert present' == present;
    }
  }

  lemma WantOneMoreKey(c: Config, w: World, keys: set<Name>, k: Name)
    requires k !in keys && c.parse(k.name).Some? && ImportOf(c, k) in w.imports && SliceOf(c, k) in w.slices
    ensures k !in WantedAt(c, w, keys)
    ensures WantedAt(c, w, keys + {k})
         == WantedAt(c, w, keys)[k := Desired(c, ImportOf(c, k), w.imports[ImportOf(c, k)], SliceOf(c, k).name,
             w.slices[SliceOf(c, k)])]
  {
  }

  lemma CopyKeysGrow(c: Config, pairs: set<(Name, string)>, n: Name, d: Name)
    requires GoodCodec(c) && n.name != "" && d.name != "" && d.namespace == c.namespace
    requires (n, d.name) !in pairs
    requires forall p :: p in pairs ==> p.0.name != "" && p.1 != ""
    ensures var k := CopyKey(c, n, d.name);
            k !in CopyKeys(c, pairs) && CopyKeys(c, pairs + {(n, d.name)}) == CopyKeys(c, pairs) + {k}
  {
    var k := CopyKey(c, n, d.name);
    CopyKeyReads(c, n, d);
    forall p | p in pairs ensures CopyKey(c, p.0, p.1) != k {
      CopyKeyReads(c, p.0, Name(c.namespace, p.1));
      assert CopyKey(c, p.0, Name(c.namespace, p.1).name) == k ==> p == (n, d.name);
    }
    assert (n, d.name) in pairs + {(n, d.name)} && CopyKey(c, (n, d.name).0, (n, d.name).1) == k;
  }

  /** Wanting one more pair is wanting one more copy. */
  lemma WantOneMore(c: Config, w: World, pairs: set<(Name, string)>, n: Name, d: Name)
    requires GoodCodec(c) && NamesOk(w) && n in w.imports && d in w.slices && d.namespace == c.namespace
    requires (n, d.name) !in pairs
    requires forall p :: p in pairs ==> p.0.name != "" && p.1 != ""
    ensures var k := CopyKey(c, n, d.name);
            && k !in Wanted(c, w, pairs)
            && Wanted(c, w, pairs + {(n, d.name)})
            == Wanted(c, w, pairs)[k := Desired(c, n, w.imports[n], d.name, w.slices[d])]
  {
    CopyKeyReads(c, n, d);
    CopyKeysGrow(c, pairs, n, d);
    WantOneMoreKey(c, w, CopyKeys(c, pairs), CopyKey(c, n, d.name));
  }

  /** Pairs of an import and a dataplane slice as a listing of `w` gives them. */
  predicate Listed(c: Config, w: World, pairs: set<(Name, string)>) {
    forall p :: p in pairs ==> p.0 in w.imports && Name(c.namespace, p.1) in w.slices
  }

  lemma CheckOneMore(c: Config, w: World, pairs: set<(Name, string)>, p: (Name, string), d: Name)
    requires GoodCodec(c) && NamesOk(w) && p !in pairs && d == Name(c.namespace, p.1)
    requires Listed(c, w, pairs) && p.0 in w.imports && d in w.slices
    ensures Apply(w, Wanted(c, w, pairs + {p}))
         == PutIfStale(Apply(w, Wanted(c, w, pairs)), CopyKey(c, p.0, p.1),
             Desired(c, p.0, w.imports[p.0], p.1, w.slices[d]))
  {
    forall q | q in pairs ensures q.0.name != "" && q.1 != "" {
      assert Name(c.namespace, q.1).name == q.1;
    }
    assert p == (p.0, d.name);
    WantOneMore(c, w, pairs, p.0, d);
    ApplyOneMore(w, Wanted(c, w, pairs), CopyKey(c, p.0, p.1), Desired(c, p.0, w.imports[p.0], p.1, w.slices[d]));
  }

  lemma CheckJustOne(c: Config, w: World, n: Name, d: Name)
    requires GoodCodec(c) && NamesOk(w) && n in w.imports && d in w.slices && d.namespace == c.namespace
    ensures Apply(w, Wanted(c, w, {(n, d.name)}))
         == PutIfStale(w, CopyKey(c, n, d.name), Desired(c, n, w.imports[n], d.name, w.slices[d]))
  {
    WantNone(c, w);
    ApplyNone(w);
    assert {} + {(n, d.name)} == {(n, d.name)};
    CheckOneMore(c, w, {}, (n, d.name), d);
  }

  lemma DropJustOne(w: World, k: Name)
    ensures DropSlices(w, {k}) == DropOne(w, k)
  {
    DropNone(w);
    assert {} + {k} == {k};
    DropOneMore(w, {}, k);
  }

  // ---------------------------------------------------------------- a listing, one object after the other

  function DropList(w: World, q: seq<Name>): World {
    if q == [] then w else DropOne(DropList(w, q[..|q| - 1]), q[|q| - 1])
  }

  /** The order of deletion does not matter. */
  lemma {:induction false} DropListIsDropSlices(w: World, q: seq<Name>)
    requires Distinct(q)
    ensures DropList(w, q) == DropSlices(w, Elements(q))
  {
    if q == [] {
      DropNone(w);
      assert Elements(q) == {};
    } else {
      var p, k := q[..|q| - 1], q[|q| - 1];
      DistinctInit(q);
      DropListIsDropSlices(w, p);
      DropOneMore(w, Elements(p), k);
    }
  }

  /** Checks the copies of listed pairs against the imports and slices of a listing `w0`. */
  function CheckList(c: Config, w0: World, w: World, q: seq<(Name, string)>): World
    requires Listed(c, w0, Elements(q))
  {
    if q == [] then w
    else
      var p := q[|q| - 1];
      assert p in Elements(q);
      PutIfStale(CheckList(c, w0, w, q[..|q| - 1]), CopyKey(c, p.0, p.1),
                 Desired(c, p.0, w0.imports[p.0], p.1, w0.slices[Name(c.namespace, p.1)]))
  }

  /** The order of the checks does not matter. */
  lemma {:induction false} CheckListIsApply(c: Config, w: World, q: seq<(Name, string)>)
    requires GoodCodec(c) && NamesOk(w) && Distinct(q) && Listed(c, w, Elements(q))
    ensures CheckList(c, w, w, q) == Apply(w, Wanted(c, w, Elements(q)))
  {
    if q == [] {
      WantNone(c, w);
      ApplyNone(w);
      assert Elements(q) == {};
    } else {
      var r, p := q[..|q| - 1], q[|q| - 1];
      DistinctInit(q);
      CheckListIsApply(c, w, r);
      CheckOneMore(c, w, Elements(r), p, Name(c.namespace, p.1));
    }
  }

  // ---------------------------------------------------------------- the manager

  class Manager {
    const c: Config
    const ports: L.PortManager
    var imports: map<Name, Import>
    var services: map<Name, Service>
    var slices: map<Name, Slice>
    var serviceToImport: map<string, Name>
    ghost var failures: map<Name, Failure>
    ghost var pending: set<Key>
    ghost var writes: nat

    ghost function View(): World
      reads this, ports
    {
      World(imports, services, slices, ports.View(), serviceToImport, failures, pending, writes)
    }

    constructor (c: Config)
      ensures this.c == c && View() == START && fresh(ports)
    {
      this.c := c;
      ports := new L.PortManager();
      imports, services, slices, serviceToImport := map[], map[], map[], map[];
      failures, pending, writes := map[], {}, 0;
    }

    method CheckImportEndpointSlice(n: Name, imp: Import, d: string, dp: Slice)
      modifies this
      ensures View() == PutIfStale(old(View()), CopyKey(c, n, d), Desired(c, n, imp, d, dp))
    {
      var k := CopyKey(c, n, d);
      var want := Desired(c, n, imp, d, dp);
      if k in slices && Agrees(want, slices[k]) {
        return;
      }
      slices := slices[k := want];
      pending, writes := pending + {SliceKey(k)}, writes + 1;
    }

    /** Checks the copies for listed pairs of import and dataplane slice, in whatever order they come. */
    method CheckPairs(pairs: set<(Name, string)>)
      requires GoodCodec(c) && NamesOk(View())
      requires Listed(c, View(), pairs)
      modifies this
      ensures View() == Apply(old(View()), Wanted(c, old(View()), pairs))
    {
      var q := List(pairs);
      var listedImports, listedSlices := imports, slices;
      ghost var w := View();
      for i := 0 to |q|
        invariant View() == CheckList(c, w, w, q[..i])
      {
        var p := q[i];
        assert p in Elements(q);
        assert q[..i + 1][..i] == q[..i];
        CheckImportEndpointSlice(p.0, listedImports[p.0], p.1, listedSlices[Name(c.namespace, p.1)]);
      }
      assert q[..|q|] == q;
      CheckListIsApply(c, w, q);
    }

    /** Copies every dataplane slice for a merge import whose service exists. */
    method AddImportEndpointSlices(n: Name) returns (failure: Option<Failure>)
      requires GoodCodec(c) && NamesOk(View()) && n in imports && imports[n].merge
      modifies this
      ensures (View(), failure) == Build(c, old(View()), n)
    {
      if n !in services {
        return Some(NoService);
      }
      var pairs := set k | k in slices && IsDataplane(c, k, slices[k]) :: (n, k.name);
      assert pairs == DataplanePairs(c, View(), n);
      forall p | p in pairs ensures p.0 in imports && Name(c.namespace, p.1) in slices {
        var k :| k in slices && IsDataplane(c, k, slices[k]) && p == (n, k.name);
        assert k == Name(c.namespace, p.1);
      }
      CheckPairs(pairs);
      return None;
    }

    /** Copies one dataplane slice for every merge import. */
    method CopyForImports(k: Name)
      requires GoodCodec(c) && NamesOk(View()) && k in slices && k.namespace == c.namespace
      modifies this
      ensures View() == Apply(old(View()), Wanted(c, old(View()), MergePairs(old(View()), k.name)))
    {
      var pairs := set n | n in imports && imports[n].merge :: (n, k.name);
      assert pairs == MergePairs(View(), k.name);
      CheckPairs(pairs);
    }

    /** Deletes a slice; one that is not found is no error. */
    method DeleteSlice(k: Name)
      modifies this
      ensures View() == DropOne(old(View()), k)
    {
      if k in slices {
        slices := slices - {k};
        pending, writes := pending + {SliceKey(k)}, writes + 1;
      }
    }

    /** Deletes a listed set of slices one by one. */
    method DeleteSlices(gone: set<Name>)
      modifies this
      ensures View() == DropSlices(old(View()), gone)
    {
      var q := List(gone);
      ghost var w := View();
      for i := 0 to |q|
        invariant View() == DropList(w, q[..i])
      {
        assert q[..i + 1][..i] == q[..i];
        DeleteSlice(q[i]);
      }
      assert q[..|q|] == q;
      DropListIsDropSlices(w, q);
    }

    method CheckEndpointSlice(k: Name)
      requires GoodCodec(c) && NamesOk(View())
      modifies this
      ensures View() == Reconcile.CheckEndpointSlice(c, old(View()), k)
    {
      var parsed := c.parse(k.name);
      if parsed.None? {
        return;
      }
      var n, d := Name(k.namespace, parsed.value.0), Name(c.namespace, parsed.value.1);
      if n !in imports || !imports[n].merge || d !in slices {
        DropJustOne(View(), k);
        DeleteSlice(k);
        return;
      }
      ghost var w := View();
      CheckImportEndpointSlice(n, imports[n], d.name, slices[d]);
      CheckJustOne(c, w, n, d);
    }

    /** The endpoint-slice controller, for a slice that is there or is gone. */
    method HandleEndpointSlice(k: Name)
      requires GoodCodec(c) && NamesOk(View())
      modifies this
      ensures View() == HandleSlice(c, old(View()), k)
    {
      pending := pending - {SliceKey(k)};
      ghost var w0 := View();
      if k in slices {
        if IsDataplane(c, k, slices[k]) {
          CopyForImports(k);
        } else {
          CheckEndpointSlice(k);
        }
      } else {
        CheckEndpointSlice(k);
        if k.namespace != c.namespace {
          return;
        }
        var gone := set x | x in slices && Labelled(slices[x], ManagedBy, c.app)
          && Labelled(slices[x], DataplaneSlice, k.name);
        assert gone == CopiesOfSlice(c, View(), k.name);
        DeleteSlices(gone);
      }
    }

    // -------------------------------------------------------------- imports and services

    method AddImportService(n: Name, k: Name, spec: ServiceSpec) returns (failure: Option<Failure>)
      modifies this
      ensures (View(), failure) == Reconcile.AddImportService(c, old(View()), n, k, spec)
    {
      if n.namespace != k.namespace {
        serviceToImport := serviceToImport[k.name := n];
      }
      if k in services {
        if !Owns(c, n, services[k]) {
          return Some(ServiceConflict(k));
        }
        if services[k].spec == spec {
          return None;
        }
      }
      services := services[k := Service(OwnLabels(c, n), spec, "")];
      pending, writes := pending + {ServiceKey(k)}, writes + 1;
      return None;
    }

    method DeleteImportService(k: Name, n: Name)
      modifies this
      ensures View() == Reconcile.DeleteImportService(c, old(View()), k, n)
    {
      if k !in services || !Owns(c, n, services[k]) {
        return;
      }
      services := services - {k};
      pending, writes := pending + {ServiceKey(k)}, writes + 1;
    }

    method DeleteImportEndpointSlices(n: Name)
      modifies this
      ensures View() == DropSlices(old(View()), CopiesOfImport(c, old(View()), n))
    {
      var gone := set k | k in slices && k.namespace == n.namespace
                          && Labelled(slices[k], ManagedBy, c.app) && Labelled(slices[k], ServiceName, n.name);
      assert gone == CopiesOfImport(c, View(), n);
      DeleteSlices(gone);
    }

    method UpdateImport(n: Name, imp: Import)
      modifies this
      ensures View() == PutImport(old(View()), n, imp)
    {
      imports := imports[n := imp];
      pending, writes := pending + {ImportKey(n)}, writes + 1;
    }

    method AllocateTargetPort(n: Name, draws: seq<nat>) returns (failure: Option<Failure>)
      requires n in imports && |draws| == L.MAX_RANDOM_TRIES
      modifies this, ports
      ensures (View(), failure) == Allocate(old(View()), n, draws)
    {
      var imp := imports[n];
      var out := ports.Lease(n, imp.targetPort, draws);
      match out
      case Conflict(holder) => return Some(PortConflict(holder));
      case AllTaken => return Some(PortsTaken);
      case Leased(port) =>
        if imp.targetPort == 0 {
          UpdateImport(n, imp.(targetPort := port));
        }
        return None;
    }

    /** The deferred part of a reconciliation: record its outcome, writing the status if it changed. */
    method UpdateStatus(n: Name, port: Condition, failure: Option<Failure>)
      requires n in imports
      modifies this
      ensures View() == Conclude(old(View()), n, port, failure)
    {
      var service := if failure.Some? then Bad(failure.value) else Good;
      var imp := imports[n];
      failures := if failure.Some? then failures[n := failure.value] else failures - {n};
      if imp.portValid != Some(port) || imp.serviceValid != Some(service) {
        UpdateImport(n, imp.(portValid := Some(port), serviceValid := Some(service)));
      }
    }

    method AddImportServices(n: Name) returns (failure: Option<Failure>)
      requires n in imports
      modifies this
      ensures (View(), failure) == AddServices(c, old(View()), n)
    {
      failure := AddImportService(n, SystemServiceKey(c, n), SystemSpec(c, imports[n]));
      if failure.Some? || n.namespace == c.namespace {
        return;
      }
      failure := AddImportService(n, n, UserSpec(c, n));
    }

    method AddImport(n: Name, draws: seq<nat>)
      requires GoodCodec(c) && NamesOk(View()) && n in imports && |draws| == L.MAX_RANDOM_TRIES
      modifies this, ports
      ensures View() == Reconcile.AddImport(c, old(View()), n, draws)
    {
      AllocateFollows(View(), n, draws);
      var failure := AllocateTargetPort(n, draws);
      if failure.Some? {
        UpdateStatus(n, Bad(failure.value), failure);
        return;
      }
      if imports[n].merge {
        failure := AddImportEndpointSlices(n);
      } else {
        DeleteImportEndpointSlices(n);
        failure := AddImportServices(n);
      }
      UpdateStatus(n, Good, failure);
    }

    method DeleteImport(n: Name)
      modifies this, ports
      ensures View() == Reconcile.DeleteImport(c, old(View()), n)
    {
      DeleteImportService(n, n);
      if n.namespace != c.namespace {
        DeleteImportService(Name(c.namespace, c.system(n)), n);
      }
      DeleteImportEndpointSlices(n);
      ports.Release(n);
      failures := failures - {n};
    }
  }
}
