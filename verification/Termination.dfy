/**
 One handler step: it writes nothing and only crosses its object off, or it lowers the level of the world;
 and all it writes stays among the names there can be.
 */
module Termination {
  import opened Common
  import opened Reconcile
  import opened SliceHealing
  import opened Weights
  import opened PortFailures
  import opened PortDebts
  import opened SliceRanks
  import opened Settling
  import opened ImportSettling
  import L = Ports

  // ---------------------------------------------------------------- the import handler

  /**
   A port that is not refused is given: it is held as before, or a debt is paid, or the import has one port less
   to ask for.
   */
  lemma PortGiven(c: Config, r: Room, w: World, n: Name, draws: seq<nat>)
    requires Tame(c, w) && Fits(c, r, w) && n in w.imports && w.imports[n].targetPort != 0
    requires PortRefusal(w.imports[n], w.leases, n).None?
    ensures var (w1, failure) := Allocate(w, n, draws);
            && failure.None? && w1 == w.(leases := w.leases.Assign(n, w.imports[n].targetPort)) && Sinks(c, r, w, w1)
  {
    AssignPays(w.imports, w.leases, n);
    LeasesSink(c, r, w, w.(leases := w.leases.Assign(n, w.imports[n].targetPort)));
  }

  lemma LeasesSink(c: Config, r: Room, w: World, w': World)
    requires Tame(c, w) && Fits(c, r, w) && w' == w.(leases := w'.leases, failures := w'.failures)
    requires w'.leases == w.leases || LexLess(Debts(w.imports, w'.leases), Debts(w.imports, w.leases))
    ensures Sinks(c, r, w, w')
  {
    LeasesKept(c, r, w, w');
    DebtsDown(c, r, w, w');
  }

  lemma LeasesKept(c: Config, r: Room, w: World, w': World)
    requires Tame(c, w) && Fits(c, r, w) && w' == w.(leases := w'.leases, failures := w'.failures)
    ensures Kept(c, r, w, w')
  {
    OtherObjects(c, r, w, w');
  }

  lemma DebtsDown(c: Config, r: Room, w: World, w': World)
    requires Spacious(r) && w' == w.(leases := w'.leases, failures := w'.failures)
    requires w'.leases == w.leases || LexLess(Debts(w.imports, w'.leases), Debts(w.imports, w.leases))
    ensures Down(c, r, w, w')
  {
    if w'.leases == w.leases {
      assert Unmoved(w, w');
    }
  }

  lemma PortWritten(c: Config, r: Room, w: World, n: Name, draws: seq<nat>)
    requires Tame(c, w) && Fits(c, r, w) && n in w.imports && w.imports[n].targetPort == 0 && NotFull(w, n)
    ensures var (w1, failure) := Allocate(w, n, draws);
            && failure.None? && n in w1.imports && Tame(c, w1) && Fits(c, r, w1) && SameMerges(w, w1)
            && |AsksAny(w1.imports)| < |AsksAny(w.imports)|
  {
    var w1 := Allocate(w, n, draws).0;
    L.LeaseSettles(w.leases, n, 0, draws);
    OtherObjects(c, r, w, w1);
    AsksLess(w.imports, w1.imports, n);
  }

  lemma AsksLess(imports: Imports, imports': Imports, n: Name)
    requires n in imports && imports[n].targetPort == 0
    requires n in imports' && imports'[n].targetPort != 0 && imports' == imports[n := imports'[n]]
    ensures |AsksAny(imports')| < |AsksAny(imports)|
  {
    assert AsksAny(imports') == AsksAny(imports) - {n};
    RemovedSize(AsksAny(imports), n);
  }

  /** The import is refused its port: at most its status is written. */
  lemma RefusedSettles(c: Config, r: Room, w: World, n: Name, draws: seq<nat>)
    requires Tame(c, w) && Fits(c, r, w) && n in w.imports && PortRefusal(w.imports[n], w.leases, n).Some?
    ensures Sinks(c, r, w, AddImport(c, w, n, draws))
  {
    var f := PortRefusal(w.imports[n], w.leases, n);
    AllocateRefuses(w, n, draws);
    BuiltSettles(c, r, w, n, w, Bad(f.value), f);
  }

  lemma ServedSettles(c: Config, r: Room, w: World, n: Name, draws: seq<nat>)
    requires Tame(c, w) && Fits(c, r, w) && n in w.imports && w.imports[n].targetPort != 0
    requires PortRefusal(w.imports[n], w.leases, n).None?
    ensures Sinks(c, r, w, AddImport(c, w, n, draws))
  {
    PortGiven(c, r, w, n, draws);
    var w1 := Allocate(w, n, draws).0;
    BuildSettles(c, r, w1, n);
    BuildVerdict(c, w1, n);
    assert PortRefusal(w1.imports[n], w1.leases, n).None?;
    BuiltSettles(c, r, w1, n, Build(c, w1, n).0, Good, Build(c, w1, n).1);
    SinksTransitive(c, r, w, w1, AddImport(c, w, n, draws));
  }

  /** The import is given its first port, which outweighs all the rest. */
  lemma FirstPortSettles(c: Config, r: Room, w: World, n: Name, draws: seq<nat>)
    requires Tame(c, w) && Fits(c, r, w) && n in w.imports && w.imports[n].targetPort == 0 && NotFull(w, n)
    ensures Sinks(c, r, w, AddImport(c, w, n, draws))
  {
    PortWritten(c, r, w, n, draws);
    var w1 := Allocate(w, n, draws).0;
    BuildSettles(c, r, w1, n);
    ConcludedFits(c, r, w1, n, Build(c, w1, n).0, Good, Build(c, w1, n).1);
    AskedSinks(c, r, w, AddImport(c, w, n, draws));
  }

  lemma AskedSinks(c: Config, r: Room, w: World, w': World)
    requires Spacious(r) && Tame(c, w') && Fits(c, r, w') && SameMerges(w, w')
    requires |AsksAny(w'.imports)| < |AsksAny(w.imports)|
    ensures Sinks(c, r, w, w')
  {
  }

  /** Reconciling an import settles something, unless it finds all ports taken. */
  lemma AddImportSettles(c: Config, r: Room, w: World, n: Name, draws: seq<nat>)
    requires Tame(c, w) && Fits(c, r, w) && n in w.imports && NotFull(w, n)
    ensures Sinks(c, r, w, AddImport(c, w, n, draws))
  {
    if w.imports[n].targetPort == 0 {
      FirstPortSettles(c, r, w, n, draws);
    } else if PortRefusal(w.imports[n], w.leases, n).Some? {
      RefusedSettles(c, r, w, n, draws);
    } else {
      ServedSettles(c, r, w, n, draws);
    }
  }

  lemma NoRetry(c: Config, w: World, n: Name, draws: seq<nat>, key: Key)
    requires n in w.imports && NotFull(w, n)
    ensures Requeue(AddImport(c, w, n, draws), n, key) == AddImport(c, w, n, draws)
  {
    AllocateRefuses(w, n, draws);
    var (w1, failure) := Allocate(w, n, draws);
    if failure.Some? {
      ConcludeFollows(c, w1, n, Bad(failure.value), failure);
    } else {
      BuildFailures(c, w1, n);
      ConcludeFollows(c, Build(c, w1, n).0, n, Good, Build(c, w1, n).1);
    }
  }

  lemma LighterSettles(c: Config, r: Room, w: World, w': World)
    requires Spacious(r) && Lighter(c, r, w, w') && w'.imports == w.imports
    requires w'.services == w.services && w'.leases == w.leases
    ensures Sinks(c, r, w, w')
  {
  }

  lemma TidiesSettles(c: Config, r: Room, w: World, w': World)
    requires Tame(c, w) && Fits(c, r, w) && Tidies(c, w, w') && w'.slices == w.slices && w'.leases == w.leases
    requires forall k :: SliceKey(k) in w'.pending ==> SliceKey(k) in w.pending
    ensures Sinks(c, r, w, w')
  {
    OtherObjects(c, r, w, w');
    if w'.services != w.services || w'.pending != w.pending {
      TidierDown(c, r, w, w');
    }
  }

  lemma TidierDown(c: Config, r: Room, w: World, w': World)
    requires Spacious(r) && w'.imports == w.imports && w'.leases == w.leases
    requires Tidier(c, w.imports, w.services, w'.services)
    ensures Down(c, r, w, w')
  {
  }

  lemma DeleteServiceSettles(c: Config, r: Room, w: World, k: Name, n: Name)
    requires Tame(c, w) && Fits(c, r, w) && n !in w.imports
    ensures Sinks(c, r, w, DeleteImportService(c, w, k, n)) && DeleteImportService(c, w, k, n).imports == w.imports
  {
    DeleteServiceTidies(c, w, k, n);
    TidiesSettles(c, r, w, DeleteImportService(c, w, k, n));
  }

  lemma DropCopiesSettles(c: Config, r: Room, w: World, n: Name)
    requires Tame(c, w) && Fits(c, r, w) && n !in w.imports
    ensures Sinks(c, r, w, DropSlices(w, CopiesOfImport(c, w, n)))
  {
    ImportCopiesDroppable(c, w, n);
    DropLighter(c, r, w, CopiesOfImport(c, w, n));
    LighterSettles(c, r, w, DropSlices(w, CopiesOfImport(c, w, n)));
  }

  lemma DeleteImportSettles(c: Config, r: Room, w: World, n: Name)
    requires Tame(c, w) && Fits(c, r, w) && n !in w.imports
    ensures Sinks(c, r, w, DeleteImport(c, w, n))
  {
    var w1 := DeleteImportService(c, w, n, n);
    DeleteServiceSettles(c, r, w, n, n);
    var w2 := if n.namespace != c.namespace then DeleteImportService(c, w1, Name(c.namespace, c.system(n)), n) else w1;
    DeleteServiceSettles(c, r, w1, Name(c.namespace, c.system(n)), n);
    UnmovedGauge(c, r, w1, w1);
    SinksTransitive(c, r, w, w1, w2);
    var w3 := DropSlices(w2, CopiesOfImport(c, w2, n));
    DropCopiesSettles(c, r, w2, n);
    SinksTransitive(c, r, w, w2, w3);
    LeaseEnds(c, r, w3, n, DeleteImport(c, w, n));
    SinksTransitive(c, r, w, w3, DeleteImport(c, w, n));
  }

  lemma LeaseEnds(c: Config, r: Room, w: World, n: Name, w': World)
    requires Tame(c, w) && Fits(c, r, w) && n !in w.imports
    requires w' == w.(leases := w.leases.Release(n), failures := w.failures - {n})
    ensures Sinks(c, r, w, w')
  {
    ReleasePays(w.imports, w.leases, n);
    LeasesSink(c, r, w, w');
  }

  // ---------------------------------------------------------------- every handler

  lemma CrossedOffGauge(c: Config, r: Room, w: World, key: Key, w0: World)
    requires Tame(c, w) && Fits(c, r, w) && w0 == w.(pending := w.pending - {key})
    ensures Tame(c, w0) && Fits(c, r, w0) && Gauge(c, r, w0) == Gauge(c, r, w)
  {
    CrossedOff(c, r, w, key, w0);
  }

  lemma HandleImportSettles(c: Config, r: Room, w: World, n: Name, draws: seq<nat>, w0: World)
    requires Tame(c, w) && Fits(c, r, w) && w0 == w.(pending := w.pending - {ImportKey(n)})
    requires n in w.imports ==> NotFull(w, n)
    ensures Sinks(c, r, w0, HandleImport(c, w, n, draws))
  {
    CrossedOffGauge(c, r, w, ImportKey(n), w0);
    if n in w.imports {
      AddImportSettles(c, r, w0, n, draws);
      NoRetry(c, w0, n, draws, ImportKey(n));
    } else {
      DeleteImportSettles(c, r, w0, n);
    }
  }

  lemma HandleSystemSettles(c: Config, r: Room, w: World, k: Name, draws: seq<nat>)
    requires Tame(c, w) && Fits(c, r, w)
    requires SystemImport(c, w, k).Some? ==> NotFull(w, SystemImport(c, w, k).value)
    ensures Sinks(c, r, w, HandleSystemService(c, w, k, draws))
  {
    if SystemImport(c, w, k).Some? {
      var n := SystemImport(c, w, k).value;
      AddImportSettles(c, r, w, n, draws);
      NoRetry(c, w, n, draws, ServiceKey(k));
    } else {
      UnmovedGauge(c, r, w, w);
    }
  }

  lemma HandleServiceSettles(c: Config, r: Room, w: World, k: Name, draws: seq<nat>, draws': seq<nat>, w0: World)
    requires Tame(c, w) && Fits(c, r, w) && w0 == w.(pending := w.pending - {ServiceKey(k)})
    requires Provided(c, w, Handle(ServiceKey(k), draws, draws'))
    ensures Sinks(c, r, w0, HandleService(c, w, k, draws, draws'))
  {
    CrossedOffGauge(c, r, w, ServiceKey(k), w0);
    var w1 := AfterOwnImport(c, w, k, draws);
    OwnImportSettles(c, r, w, k, draws, w0);
    HandleSystemSettles(c, r, w1, k, draws');
    SinksTransitive(c, r, w0, w1, HandleSystemService(c, w1, k, draws'));
    HandleServiceCases(c, w, k, draws, draws', w0, w1);
  }

  lemma HandleServiceCases(c: Config, w: World, k: Name, draws: seq<nat>, draws': seq<nat>, w0: World, w1: World)
    requires w0 == w.(pending := w.pending - {ServiceKey(k)}) && w1 == AfterOwnImport(c, w, k, draws)
    requires k in w.imports ==> NotFull(w, k)
    ensures HandleService(c, w, k, draws, draws') == w1
         || HandleService(c, w, k, draws, draws') == HandleSystemService(c, w1, k, draws')
  {
    if k in w.imports {
      NoRetry(c, w0, k, draws, ServiceKey(k));
    }
  }

  lemma OwnImportSettles(c: Config, r: Room, w: World, k: Name, draws: seq<nat>, w0: World)
    requires Tame(c, w0) && Fits(c, r, w0) && w0 == w.(pending := w.pending - {ServiceKey(k)})
    requires k in w.imports ==> NotFull(w, k)
    ensures Sinks(c, r, w0, AfterOwnImport(c, w, k, draws))
  {
    if k in w.imports {
      AddImportSettles(c, r, w0, k, draws);
    } else {
      UnmovedGauge(c, r, w0, w0);
    }
  }

  /** A handler step writes nothing, or sinks the level. */
  lemma StepSettles(c: Config, r: Room, w: World, e: Event, w0: World)
    requires Tame(c, w) && Fits(c, r, w) && e.Handle? && e.key in w.pending && Provided(c, w, e)
    requires w0 == w.(pending := w.pending - {e.key})
    ensures Sinks(c, r, w0, Next(c, w, e)) && Gauge(c, r, w0) == Gauge(c, r, w)
  {
    CrossedOffGauge(c, r, w, e.key, w0);
    match e.key
    case ImportKey(n) => HandleImportSettles(c, r, w, n, e.draws, w0);
    case ServiceKey(k) => HandleServiceSettles(c, r, w, k, e.draws, e.draws', w0);
    case SliceKey(k) =>
      HandleSliceLighter(c, r, w, k, w0);
      LighterSettles(c, r, w0, HandleSlice(c, w, k));
  }

  // ---------------------------------------------------------------- what handlers can touch

  /** What bounds every count: the names there can be. */
  datatype Roof = Roof(room: Room, imports: set<Name>, services: set<Name>)

  ghost predicate Under(c: Config, f: Roof, w: World) {
    && Tame(c, w) && Fits(c, f.room, w)
    && w.imports.Keys <= f.imports && w.leases.byName.Keys <= f.imports
    && w.services.Keys <= f.services && AllKeys(c, w.imports) <= f.services
    && (forall n :: ImportKey(n) in w.pending ==> n in f.imports)
    && (forall k :: ServiceKey(k) in w.pending ==> k in f.services)
  }

  /** Imports and services of `w'`, pending or there, are those of `w` or of what its imports want. */
  ghost predicate Within(c: Config, w: World, w': World) {
    && w'.imports.Keys == w.imports.Keys
    && (forall n :: n in w'.leases.byName ==> n in w.leases.byName || n in w.imports)
    && (forall k :: k in w'.services ==> k in w.services || k in AllKeys(c, w.imports))
    && (forall n :: ImportKey(n) in w'.pending ==> ImportKey(n) in w.pending || n in w.imports)
    && (forall k :: ServiceKey(k) in w'.pending ==>
      ServiceKey(k) in w.pending || k in w.services || k in AllKeys(c, w.imports))
  }

  lemma SameKeys(c: Config, w: World, w': World)
    requires w'.imports.Keys == w.imports.Keys
    ensures AllKeys(c, w'.imports) == AllKeys(c, w.imports)
  {
  }

  lemma WithinTransitive(c: Config, w: World, w': World, w'': World)
    requires Within(c, w, w') && Within(c, w', w'')
    ensures Within(c, w, w'')
  {
    SameKeys(c, w, w');
  }

  lemma StaysUnder(c: Config, f: Roof, w: World, w': World)
    requires Under(c, f, w) && Within(c, w, w') && Tame(c, w') && Fits(c, f.room, w')
    ensures Under(c, f, w')
  {
    SameKeys(c, w, w');
  }

  lemma AddServiceWithin(c: Config, w: World, n: Name, k: Name, spec: ServiceSpec)
    requires n in w.imports && k in KeysOf(c, n)
    ensures Within(c, w, AddImportService(c, w, n, k, spec).0)
  {
    assert k in AllKeys(c, w.imports);
  }

  lemma AddServicesWithin(c: Config, w: World, n: Name)
    requires n in w.imports
    ensures Within(c, w, AddServices(c, w, n).0)
  {
    var k := SystemServiceKey(c, n);
    AddServiceWithin(c, w, n, k, SystemSpec(c, w.imports[n]));
    var (w1, failure) := AddImportService(c, w, n, k, SystemSpec(c, w.imports[n]));
    if failure.None? && n.namespace != c.namespace {
      AddServiceWithin(c, w1, n, n, UserSpec(c, n));
      WithinTransitive(c, w, w1, AddImportService(c, w1, n, n, UserSpec(c, n)).0);
    }
  }

  lemma SlicesWithin(c: Config, w: World, w': World)
    requires w'.imports == w.imports && w'.services == w.services && w'.leases == w.leases
    requires forall key :: key in w'.pending ==> key in w.pending || key.SliceKey?
    ensures Within(c, w, w')
  {
  }

  lemma BuildWithin(c: Config, w: World, n: Name)
    requires n in w.imports
    ensures Within(c, w, Build(c, w, n).0)
  {
    if w.imports[n].merge {
      SlicesWithin(c, w, Build(c, w, n).0);
    } else {
      var w1 := DropSlices(w, CopiesOfImport(c, w, n));
      SlicesWithin(c, w, w1);
      AddServicesWithin(c, w1, n);
      WithinTransitive(c, w, w1, AddServices(c, w1, n).0);
    }
  }

  lemma AllocateWithin(c: Config, w: World, n: Name, draws: seq<nat>)
    requires n in w.imports
    ensures Within(c, w, Allocate(w, n, draws).0)
  {
  }

  lemma ConcludeWithin(c: Config, w: World, n: Name, port: Condition, failure: Option<Failure>)
    requires n in w.imports
    ensures Within(c, w, Conclude(w, n, port, failure))
  {
    StatusWithin(c, w, n, port, Recorded(failure));
  }

  lemma StatusWithin(c: Config, w: World, n: Name, port: Condition, service: Condition)
    requires n in w.imports
    ensures Within(c, w, SetStatus(w, n, port, service))
  {
  }

  lemma AddImportWithin(c: Config, w: World, n: Name, draws: seq<nat>)
    requires n in w.imports
    ensures Within(c, w, AddImport(c, w, n, draws))
  {
    var (w1, failure) := Allocate(w, n, draws);
    AllocateWithin(c, w, n, draws);
    if failure.Some? {
      ConcludeWithin(c, w1, n, Bad(failure.value), failure);
      WithinTransitive(c, w, w1, AddImport(c, w, n, draws));
    } else {
      var (w2, failure') := Build(c, w1, n);
      BuildWithin(c, w1, n);
      ConcludeWithin(c, w2, n, Good, failure');
      WithinTransitive(c, w, w1, w2);
      WithinTransitive(c, w, w2, AddImport(c, w, n, draws));
    }
  }

  lemma DeleteServiceWithin(c: Config, w: World, k: Name, n: Name)
    ensures Within(c, w, DeleteImportService(c, w, k, n))
  {
  }

  lemma DeleteImportWithin(c: Config, w: World, n: Name)
    ensures Within(c, w, DeleteImport(c, w, n))
  {
    var w1 := DeleteImportService(c, w, n, n);
    var w2 := if n.namespace != c.namespace then DeleteImportService(c, w1, Name(c.namespace, c.system(n)), n) else w1;
    DeleteServiceWithin(c, w, n, n);
    DeleteServiceWithin(c, w1, Name(c.namespace, c.system(n)), n);
    WithinTransitive(c, w, w1, w2);
    SlicesWithin(c, w2, DropSlices(w2, CopiesOfImport(c, w2, n)));
    WithinTransitive(c, w, w2, DropSlices(w2, CopiesOfImport(c, w2, n)));
  }

  lemma HandleServiceWithin(c: Config, w: World, k: Name, draws: seq<nat>, draws': seq<nat>, w0: World)
    requires w0 == w.(pending := w.pending - {ServiceKey(k)}) && Provided(c, w, Handle(ServiceKey(k), draws, draws'))
    ensures Within(c, w0, HandleService(c, w, k, draws, draws'))
  {
    var w1 := AfterOwnImport(c, w, k, draws);
    if k in w.imports {
      AddImportWithin(c, w0, k, draws);
      NoRetry(c, w0, k, draws, ServiceKey(k));
    }
    if SystemImport(c, w1, k).Some? {
      var n := SystemImport(c, w1, k).value;
      AddImportWithin(c, w1, n, draws');
      NoRetry(c, w1, n, draws', ServiceKey(k));
      WithinTransitive(c, w0, w1, AddImport(c, w1, n, draws'));
    }
  }

  lemma HandleImportWithin(c: Config, w: World, n: Name, draws: seq<nat>, w0: World)
    requires w0 == w.(pending := w.pending - {ImportKey(n)}) && (n in w.imports ==> NotFull(w, n))
    ensures Within(c, w0, HandleImport(c, w, n, draws))
  {
    if n in w.imports {
      AddImportWithin(c, w0, n, draws);
      NoRetry(c, w0, n, draws, ImportKey(n));
    } else {
      DeleteImportWithin(c, w0, n);
    }
  }

  lemma CheckWithin(c: Config, w: World, k: Name)
    ensures forall key :: key in CheckEndpointSlice(c, w, k).pending ==> key in w.pending || key.SliceKey?
  {
  }

  lemma HandleSliceWithin(c: Config, w: World, k: Name, w0: World)
    requires w0 == w.(pending := w.pending - {SliceKey(k)})
    ensures Within(c, w0, HandleSlice(c, w, k))
  {
    CheckWithin(c, w0, k);
    SlicesWithin(c, w0, HandleSlice(c, w, k));
  }

  lemma CrossedOffUnder(c: Config, f: Roof, w: World, key: Key, w0: World)
    requires Under(c, f, w) && w0 == w.(pending := w.pending - {key})
    ensures Under(c, f, w0)
  {
    CrossedOff(c, f.room, w, key, w0);
  }

  lemma StepUnder(c: Config, f: Roof, w: World, e: Event)
    requires Under(c, f, w) && e.Handle? && e.key in w.pending && Provided(c, w, e)
    ensures Under(c, f, Next(c, w, e))
  {
    var w0 := w.(pending := w.pending - {e.key});
    CrossedOffUnder(c, f, w, e.key, w0);
    StepSettles(c, f.room, w, e, w0);
    match e.key {
      case ImportKey(n) => HandleImportWithin(c, w, n, e.draws, w0);
      case ServiceKey(k) => HandleServiceWithin(c, w, k, e.draws, e.draws', w0);
      case SliceKey(k) => HandleSliceWithin(c, w, k, w0);
    }
    StaysUnder(c, f, w0, Next(c, w, e));
  }
}
