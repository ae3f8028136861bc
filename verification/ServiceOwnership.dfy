/**
 What the import handlers do to services: they create absent ones, change or delete only those whose
 labels name the import at hand, and do nothing when run again.
 */
module ServiceOwnership {
  import opened Common
  import opened Reconcile
  import L = Ports

  type Services = map<Name, Service>

  /** A service outside `n`'s ownership is as before; a new or changed one is owned by `n`. */
  ghost predicate RespectsAt(c: Config, s: Services, s': Services, n: Name, k: Name) {
    && (k in s && !Owns(c, n, s[k]) ==> k in s' && s'[k] == s[k])
    && (k in s' && !(k in s && s'[k] == s[k]) ==> Owns(c, n, s'[k]))
  }

  ghost predicate Respects(c: Config, s: Services, s': Services, n: Name) {
    forall k :: RespectsAt(c, s, s', n, k)
  }

  lemma RespectsTransitive(c: Config, s: Services, s': Services, s'': Services, n: Name)
    requires Respects(c, s, s', n) && Respects(c, s', s'', n)
    ensures Respects(c, s, s'', n)
  {
    forall k ensures RespectsAt(c, s, s'', n, k) {
      assert RespectsAt(c, s, s', n, k) && RespectsAt(c, s', s'', n, k);
    }
  }

  lemma AddRespects(c: Config, w: World, n: Name, k: Name, spec: ServiceSpec)
    ensures Respects(c, w.services, AddImportService(c, w, n, k, spec).0.services, n)
  {
    var s := Service(OwnLabels(c, n), spec, "");
    assert Owns(c, n, s);
    if k !in w.services || Owns(c, n, w.services[k]) {
      PutRespects(c, w.services, n, k, s);
    }
  }

  lemma PutRespects(c: Config, s: Services, n: Name, k: Name, service: Service)
    requires Owns(c, n, service) && (k in s ==> Owns(c, n, s[k]))
    ensures Respects(c, s, s[k := service], n)
  {
  }

  lemma DeleteRespects(c: Config, w: World, k: Name, n: Name)
    ensures Respects(c, w.services, DeleteImportService(c, w, k, n).services, n)
  {
  }

  lemma AddKeepsRest(c: Config, w: World, n: Name, k: Name, spec: ServiceSpec)
    ensures var w' := AddImportService(c, w, n, k, spec).0;
            w'.imports == w.imports && w'.slices == w.slices && w'.leases == w.leases && w'.failures == w.failures
  {
  }

  lemma BuildRespects(c: Config, w: World, n: Name)
    requires n in w.imports
    ensures Respects(c, w.services, Build(c, w, n).0.services, n) && Build(c, w, n).0.imports == w.imports
  {
    if !w.imports[n].merge {
      AddServicesRespects(c, DropSlices(w, CopiesOfImport(c, w, n)), n);
    }
  }

  lemma AddImportRespects(c: Config, w: World, n: Name, draws: seq<nat>)
    requires n in w.imports
    ensures Respects(c, w.services, AddImport(c, w, n, draws).services, n)
    ensures AddImport(c, w, n, draws).imports.Keys == w.imports.Keys
  {
    var (w1, failure) := Allocate(w, n, draws);
    AllocateKeepsServices(w, n, draws);
    if failure.None? {
      BuildRespects(c, w1, n);
      var (w2, failure) := Build(c, w1, n);
      ConcludeKeepsServices(w2, n, Good, failure);
    } else {
      ConcludeKeepsServices(w1, n, Bad(failure.value), failure);
    }
  }

  lemma AllocateKeepsServices(w: World, n: Name, draws: seq<nat>)
    requires n in w.imports
    ensures Allocate(w, n, draws).0.services == w.services
    ensures Allocate(w, n, draws).0.imports.Keys == w.imports.Keys
  {
  }

  lemma ConcludeKeepsServices(w: World, n: Name, port: Condition, failure: Option<Failure>)
    requires n in w.imports
    ensures Conclude(w, n, port, failure).services == w.services
    ensures Conclude(w, n, port, failure).imports.Keys == w.imports.Keys
  {
  }

  lemma AddServicesRespects(c: Config, w: World, n: Name)
    requires n in w.imports
    ensures Respects(c, w.services, AddServices(c, w, n).0.services, n) && AddServices(c, w, n).0.imports == w.imports
  {
    var k, spec := SystemServiceKey(c, n), SystemSpec(c, w.imports[n]);
    AddRespects(c, w, n, k, spec);
    AddKeepsRest(c, w, n, k, spec);
    var (w1, failure) := AddImportService(c, w, n, k, spec);
    AddRespects(c, w1, n, n, UserSpec(c, n));
    AddKeepsRest(c, w1, n, n, UserSpec(c, n));
    RespectsTransitive(c, w.services, w1.services, AddImportService(c, w1, n, n, UserSpec(c, n)).0.services, n);
  }

  lemma DeleteImportRespects(c: Config, w: World, n: Name)
    ensures Respects(c, w.services, DeleteImport(c, w, n).services, n)
  {
    DeleteRespects(c, w, n, n);
    var w1 := DeleteImportService(c, w, n, n);
    var k := Name(c.namespace, c.system(n));
    DeleteRespects(c, w1, k, n);
    RespectsTransitive(c, w.services, w1.services, DeleteImportService(c, w1, k, n).services, n);
  }

  /** A service that is not labelled as managed, or lacks an import's name or namespace. */
  predicate Foreign(c: Config, s: Service) {
    (App in s.labels ==> s.labels[App] != c.app) || ImportName !in s.labels || ImportNamespace !in s.labels
  }

  lemma ForeignStays(c: Config, s: Services, s': Services, n: Name, x: Name)
    requires Respects(c, s, s', n) && x in s && Foreign(c, s[x])
    ensures x in s' && s'[x] == s[x]
  {
    assert RespectsAt(c, s, s', n, x);
  }

  lemma AddImportSparesForeign(c: Config, w: World, n: Name, draws: seq<nat>, x: Name)
    requires n in w.imports && x in w.services && Foreign(c, w.services[x])
    ensures x in AddImport(c, w, n, draws).services && AddImport(c, w, n, draws).services[x] == w.services[x]
  {
    AddImportRespects(c, w, n, draws);
    ForeignStays(c, w.services, AddImport(c, w, n, draws).services, n, x);
  }

  lemma HandleServiceSparesForeign(c: Config, w: World, k: Name, draws: seq<nat>, draws': seq<nat>, x: Name)
    requires x in w.services && Foreign(c, w.services[x])
    ensures var w' := HandleService(c, w, k, draws, draws');
            x in w'.services && w'.services[x] == w.services[x]
  {
    var w0 := w.(pending := w.pending - {ServiceKey(k)});
    if k in w0.imports {
      AddImportSparesForeign(c, w0, k, draws, x);
    }
    SecondSparesForeign(c, if k in w0.imports then AddImport(c, w0, k, draws) else w0, k, draws', x);
  }

  lemma SecondSparesForeign(c: Config, w: World, k: Name, draws: seq<nat>, x: Name)
    requires x in w.services && Foreign(c, w.services[x])
    ensures var w' := HandleSystemService(c, w, k, draws);
            x in w'.services && w'.services[x] == w.services[x]
  {
    if k.name in w.serviceToImport && w.serviceToImport[k.name] in w.imports {
      AddImportSparesForeign(c, w, w.serviceToImport[k.name], draws, x);
    }
  }

  lemma HandleImportSparesForeign(c: Config, w: World, n: Name, draws: seq<nat>, x: Name)
    requires x in w.services && Foreign(c, w.services[x])
    ensures var w' := HandleImport(c, w, n, draws);
            x in w'.services && w'.services[x] == w.services[x]
  {
    var w0 := w.(pending := w.pending - {ImportKey(n)});
    if n in w.imports {
      AddImportSparesForeign(c, w0, n, draws, x);
    } else {
      DeleteImportRespects(c, w0, n);
      ForeignStays(c, w0.services, DeleteImport(c, w0, n).services, n, x);
    }
  }

  /** No handler ever touches a service it does not own, even if names of system services collide. */
  lemma HandlerSparesForeign(c: Config, w: World, e: Event, x: Name)
    requires e.Handle? && x in w.services && Foreign(c, w.services[x])
    ensures x in Next(c, w, e).services && Next(c, w, e).services[x] == w.services[x]
  {
    match e.key
    case ImportKey(n) => HandleImportSparesForeign(c, w, n, e.draws, x);
    case ServiceKey(k) => HandleServiceSparesForeign(c, w, k, e.draws, e.draws', x);
    case SliceKey(k) => assert HandleSlice(c, w, k).services == w.services;
  }

  /** Over every run, a foreign service changes only by writes from outside. */
  lemma {:induction false} RunSparesForeign(c: Config, w: World, events: seq<Event>, x: Name)
    requires x in w.services && Foreign(c, w.services[x])
    requires forall i :: 0 <= i < |events| ==> !(events[i].WriteService? && events[i].name == x)
    requires forall i :: 0 <= i < |events| ==> !(events[i].RemoveService? && events[i].name == x)
    ensures x in Run(c, w, events).services && Run(c, w, events).services[x] == w.services[x]
    decreases |events|
  {
    if events != [] {
      if events[0].Handle? {
        HandlerSparesForeign(c, w, events[0], x);
      }
      RunSparesForeign(c, Next(c, w, events[0]), events[1..], x);
    }
  }

  /** Slice `x` is as before, or still not there. */
  predicate SameSlice(w: World, w': World, x: Name) {
    (x in w'.slices <==> x in w.slices) && (x in w.slices ==> w'.slices[x] == w.slices[x])
  }

  /** The name is not one of a copy, nor do the labels say so. */
  predicate OrdinarySlice(c: Config, w: World, x: Name) {
    && c.parse(x.name).None?
    && (x in w.slices && ManagedBy in w.slices[x].labels ==> w.slices[x].labels[ManagedBy] != c.app)
  }

  lemma ApplySparesSlice(c: Config, w: World, keys: set<Name>, x: Name)
    requires c.parse(x.name).None?
    ensures SameSlice(w, Apply(w, WantedAt(c, w, keys)), x)
  {
  }

  lemma BuildSparesSlice(c: Config, w: World, n: Name, x: Name)
    requires n in w.imports && OrdinarySlice(c, w, x)
    ensures SameSlice(w, Build(c, w, n).0, x)
  {
    if w.imports[n].merge {
      ApplySparesSlice(c, w, CopyKeys(c, DataplanePairs(c, w, n)), x);
    } else {
      AddServicesKeepSlices(c, DropSlices(w, CopiesOfImport(c, w, n)), n);
    }
  }

  lemma AddImportSparesSlice(c: Config, w: World, n: Name, draws: seq<nat>, x: Name)
    requires n in w.imports && OrdinarySlice(c, w, x)
    ensures SameSlice(w, AddImport(c, w, n, draws), x)
  {
    var (w1, failure) := Allocate(w, n, draws);
    AllocateKeepsSlices(w, n, draws);
    if failure.Some? {
      ConcludeKeepsSlices(w1, n, Bad(failure.value), failure);
    } else {
      var (w2, failure') := Build(c, w1, n);
      BuildSparesSlice(c, w1, n, x);
      ConcludeKeepsSlices(w2, n, Good, failure');
    }
  }

  lemma AllocateKeepsSlices(w: World, n: Name, draws: seq<nat>)
    requires n in w.imports
    ensures Allocate(w, n, draws).0.slices == w.slices
  {
  }

  lemma ConcludeKeepsSlices(w: World, n: Name, port: Condition, failure: Option<Failure>)
    ensures Conclude(w, n, port, failure).slices == w.slices
  {
  }

  lemma DeleteImportSparesSlice(c: Config, w: World, n: Name, x: Name)
    requires OrdinarySlice(c, w, x)
    ensures SameSlice(w, DeleteImport(c, w, n), x)
  {
    if x in w.slices {
      DeletedCopiesGone(c, w, n, x);
    }
  }

  lemma HandleServiceSparesSlice(c: Config, w: World, k: Name, draws: seq<nat>, draws': seq<nat>, x: Name)
    requires OrdinarySlice(c, w, x)
    ensures SameSlice(w, HandleService(c, w, k, draws, draws'), x)
  {
    var w0 := w.(pending := w.pending - {ServiceKey(k)});
    if k in w0.imports {
      AddImportSparesSlice(c, w0, k, draws, x);
    }
    SystemServiceSparesSlice(c, if k in w0.imports then AddImport(c, w0, k, draws) else w0, k, draws', x);
  }

  lemma SystemServiceSparesSlice(c: Config, w: World, k: Name, draws: seq<nat>, x: Name)
    requires OrdinarySlice(c, w, x)
    ensures SameSlice(w, HandleSystemService(c, w, k, draws), x)
  {
    if k.name in w.serviceToImport && w.serviceToImport[k.name] in w.imports {
      AddImportSparesSlice(c, w, w.serviceToImport[k.name], draws, x);
    }
  }

  lemma HandleSliceSparesSlice(c: Config, w: World, k: Name, x: Name)
    requires OrdinarySlice(c, w, x)
    ensures SameSlice(w, HandleSlice(c, w, k), x)
  {
    var w0 := w.(pending := w.pending - {SliceKey(k)});
    if k in w.slices && IsDataplane(c, k, w.slices[k]) {
      ApplySparesSlice(c, w0, CopyKeys(c, MergePairs(w0, k.name)), x);
    } else {
      CheckSparesSlice(c, w0, k, x);
      var w1 := CheckEndpointSlice(c, w0, k);
      DropSparesSlice(w1, CopiesOfSlice(c, w1, k.name), x);
    }
  }

  lemma CheckSparesSlice(c: Config, w: World, k: Name, x: Name)
    requires OrdinarySlice(c, w, x)
    ensures SameSlice(w, CheckEndpointSlice(c, w, k), x)
  {
    if c.parse(k.name).Some? {
      DropSparesSlice(w, {k}, x);
      ApplySparesSlice(c, w, CopyKeys(c, {(ImportOf(c, k), SliceOf(c, k).name)}), x);
    }
  }

  lemma DropSparesSlice(w: World, gone: set<Name>, x: Name)
    requires x !in gone
    ensures SameSlice(w, DropSlices(w, gone), x)
  {
  }

  lemma HandleImportSparesSlice(c: Config, w: World, n: Name, draws: seq<nat>, x: Name)
    requires OrdinarySlice(c, w, x)
    ensures SameSlice(w, HandleImport(c, w, n, draws), x)
  {
    var w0 := w.(pending := w.pending - {ImportKey(n)});
    if n in w.imports {
      AddImportSparesSlice(c, w0, n, draws, x);
    } else {
      DeleteImportSparesSlice(c, w0, n, x);
    }
  }

  lemma HandlerSparesSlice(c: Config, w: World, e: Event, x: Name)
    requires e.Handle? && OrdinarySlice(c, w, x)
    ensures SameSlice(w, Next(c, w, e), x)
  {
    match e.key
    case ImportKey(n) => HandleImportSparesSlice(c, w, n, e.draws, x);
    case ServiceKey(k) => HandleServiceSparesSlice(c, w, k, e.draws, e.draws', x);
    case SliceKey(k) => HandleSliceSparesSlice(c, w, k, x);
  }

  lemma NextSparesSlice(c: Config, w: World, e: Event, x: Name)
    requires OrdinarySlice(c, w, x)
    requires !(e.WriteSlice? && e.name == x) && !(e.RemoveSlice? && e.name == x)
    ensures SameSlice(w, Next(c, w, e), x)
  {
    if e.Handle? {
      HandlerSparesSlice(c, w, e, x);
    }
  }

  /**
   Over every run, a slice that is not labelled as managed and whose name is not one of a copy changes only by
   writes from outside, even one that carries the name or the service label of an import.
   */
  lemma {:induction false} RunSparesSlices(c: Config, w: World, events: seq<Event>, x: Name)
    requires OrdinarySlice(c, w, x)
    requires forall i :: 0 <= i < |events| ==> !(events[i].WriteSlice? && events[i].name == x)
    requires forall i :: 0 <= i < |events| ==> !(events[i].RemoveSlice? && events[i].name == x)
    ensures SameSlice(w, Run(c, w, events), x)
    decreases |events|
  {
    if events != [] {
      var e := events[0];
      NextSparesSlice(c, w, e, x);
      RunSparesSlices(c, Next(c, w, e), events[1..], x);
    }
  }

  // ---------------------------------------------------------------- idempotence

  /** The service is there as wanted, so adding it again writes nothing. */
  predicate InPlace(c: Config, w: World, n: Name, k: Name, spec: ServiceSpec) {
    && k in w.services && Owns(c, n, w.services[k]) && w.services[k].spec == spec
    && (n.namespace != k.namespace ==> k.name in w.serviceToImport && w.serviceToImport[k.name] == n)
  }

  lemma OwnLabelsOwn(c: Config, n: Name, spec: ServiceSpec)
    ensures Owns(c, n, Service(OwnLabels(c, n), spec, ""))
  {
  }

  lemma AddPutsInPlace(c: Config, w: World, n: Name, k: Name, spec: ServiceSpec)
    ensures AddImportService(c, w, n, k, spec).1.None? ==> InPlace(c, AddImportService(c, w, n, k, spec).0, n, k, spec)
  {
    OwnLabelsOwn(c, n, spec);
  }

  lemma AddAgain(c: Config, w: World, n: Name, k: Name, spec: ServiceSpec)
    requires InPlace(c, w, n, k, spec)
    ensures AddImportService(c, w, n, k, spec) == (w, None)
  {
    if n.namespace != k.namespace {
      assert w.serviceToImport[k.name := n] == w.serviceToImport;
    }
  }

  /** Both services of an import are in place. */
  predicate ServicesInPlace(c: Config, w: World, n: Name)
    requires n in w.imports
  {
    && InPlace(c, w, n, SystemServiceKey(c, n), SystemSpec(c, w.imports[n]))
    && (n.namespace != c.namespace ==> InPlace(c, w, n, n, UserSpec(c, n)))
  }

  lemma AddServicesInPlace(c: Config, w: World, n: Name)
    requires n in w.imports
    ensures AddServices(c, w, n).0.imports == w.imports
    ensures AddServices(c, w, n).1.None? ==> ServicesInPlace(c, AddServices(c, w, n).0, n)
    ensures ServicesInPlace(c, w, n) ==> AddServices(c, w, n) == (w, None)
  {
    var k, spec := SystemServiceKey(c, n), SystemSpec(c, w.imports[n]);
    AddPutsInPlace(c, w, n, k, spec);
    var (w1, failure) := AddImportService(c, w, n, k, spec);
    AddPutsInPlace(c, w1, n, n, UserSpec(c, n));
    if ServicesInPlace(c, w, n) {
      AddAgain(c, w, n, k, spec);
      if n.namespace != c.namespace {
        AddAgain(c, w, n, n, UserSpec(c, n));
      }
    }
  }

  /** An import that needs nothing: leased, built, and with its good status recorded. */
  ghost predicate Done(c: Config, w: World, n: Name) {
    && n in w.imports && !w.imports[n].merge && n !in w.failures
    && w.imports[n].targetPort != 0
    && L.LeaseSpecific(w.leases, n, w.imports[n].targetPort) == (w.leases, L.Leased(w.imports[n].targetPort))
    && CopiesOfImport(c, w, n) == {}
    && ServicesInPlace(c, w, n)
    && w.imports[n].portValid == Some(Good) && w.imports[n].serviceValid == Some(Good)
  }

  lemma DoneStays(c: Config, w: World, n: Name, draws: seq<nat>)
    requires Done(c, w, n)
    ensures AddImport(c, w, n, draws) == w
  {
    assert Allocate(w, n, draws) == (w, None);
    DropNone(w);
    AddServicesInPlace(c, w, n);
    assert Build(c, w, n) == (w, None);
    assert w.failures - {n} == w.failures;
  }

  lemma ConcludeKeepsPlace(c: Config, w: World, n: Name)
    requires n in w.imports && !w.imports[n].merge && w.imports[n].targetPort != 0
    requires L.LeaseSpecific(w.leases, n, w.imports[n].targetPort) == (w.leases, L.Leased(w.imports[n].targetPort))
    requires CopiesOfImport(c, w, n) == {} && ServicesInPlace(c, w, n)
    ensures Done(c, Conclude(w, n, Good, None), n)
  {
    var w' := Conclude(w, n, Good, None);
    ConcludeRecords(w, n);
    assert CopiesOfImport(c, w', n) == CopiesOfImport(c, w, n);
    assert SystemSpec(c, w'.imports[n]) == SystemSpec(c, w.imports[n]);
    assert InPlace(c, w', n, SystemServiceKey(c, n), SystemSpec(c, w'.imports[n]));
  }

  lemma ConcludeRecords(w: World, n: Name)
    requires n in w.imports
    ensures var w' := Conclude(w, n, Good, None);
            && w'.services == w.services && w'.slices == w.slices && w'.leases == w.leases
            && w'.serviceToImport == w.serviceToImport && n !in w'.failures
            && n in w'.imports && w'.imports[n] == w.imports[n].(portValid := Some(Good), serviceValid := Some(Good))
  {
  }

  /** An import that asks for any port, and is given one it holds already, holds it for certain. */
  ghost predicate KnowsItsPort(w: World, n: Name)
    requires n in w.imports
  {
    w.imports[n].targetPort == 0 ==> L.OwnLease(w.leases, n)
  }

  lemma AllocateLeases(w: World, n: Name, draws: seq<nat>)
    requires n in w.imports && Allocate(w, n, draws).1.None?
    ensures var w' := Allocate(w, n, draws).0;
            && n in w'.imports && w'.imports[n].merge == w.imports[n].merge && w'.imports[n].targetPort != 0
            && var lease := L.LeaseSpecific(w'.leases, n, w'.imports[n].targetPort);
               lease == (w'.leases, L.Leased(w'.imports[n].targetPort)) <==> KnowsItsPort(w, n)
  {
    L.LeaseSettles(w.leases, n, w.imports[n].targetPort, draws);
  }

  /**
   After a successful reconciliation of an import that is not merged, an immediate second one changes
   nothing, exactly if the import knows its port: otherwise the second one does not find the lease it
   was given.
   */
  lemma AddImportIdempotent(c: Config, w: World, n: Name, draws: seq<nat>, draws': seq<nat>)
    requires n in w.imports && !w.imports[n].merge
    ensures var w' := AddImport(c, w, n, draws);
            n !in w'.failures ==> (AddImport(c, w', n, draws') == w' <==> KnowsItsPort(w, n))
  {
    var w' := AddImport(c, w, n, draws);
    if n !in w'.failures {
      AddImportSucceeds(c, w, n, draws);
      AllocateLeases(w, n, draws);
      if KnowsItsPort(w, n) {
        BuiltIsDone(c, Allocate(w, n, draws).0, n, w');
        DoneStays(c, w', n, draws');
      } else {
        SucceededKeepsPort(c, Allocate(w, n, draws).0, n, w');
        LeaseMissed(c, w', n, draws');
      }
    }
  }

  lemma SucceededKeepsPort(c: Config, w: World, n: Name, w': World)
    requires n in w.imports && !w.imports[n].merge && w' == Conclude(Build(c, w, n).0, n, Good, None)
    ensures w'.leases == w.leases && n in w'.imports && w'.imports[n].targetPort == w.imports[n].targetPort
            && n !in w'.failures
  {
    AddServicesKeepSlices(c, DropSlices(w, CopiesOfImport(c, w, n)), n);
    ConcludeRecords(Build(c, w, n).0, n);
  }

  lemma LeaseMissed(c: Config, w: World, n: Name, draws: seq<nat>)
    requires n in w.imports && n !in w.failures && w.imports[n].targetPort != 0
    requires L.LeaseSpecific(w.leases, n, w.imports[n].targetPort) != (w.leases, L.Leased(w.imports[n].targetPort))
    ensures AddImport(c, w, n, draws) != w
  {
    var (w1, failure) := Allocate(w, n, draws);
    if failure.Some? {
      assert n in AddImport(c, w, n, draws).failures;
    } else {
      AddImportKeepsLeases(c, w, n, draws);
    }
  }

  lemma AddImportKeepsLeases(c: Config, w: World, n: Name, draws: seq<nat>)
    requires n in w.imports
    ensures AddImport(c, w, n, draws).leases == Allocate(w, n, draws).0.leases
  {
  }

  /**
   The import behind the last scanned port, after a random lease of `m` that found nothing free took it:
   asking for any port it is given that port, and reconciled again it is refused it. Only its services can
   keep the first reconciliation from succeeding.
   */
  lemma SecondReconciliationRefused(
    c: Config, w: World, l: L.Leases, m: Name, draws0: seq<nat>, n: Name, draws: seq<nat>, draws': seq<nat>)
    requires L.FindsNothing(l, m, draws0) && w.leases == L.LeaseRandom(l, m, draws0).0
    requires L.SCANNED in l.byPort && n == l.byPort[L.SCANNED]
    requires n in w.imports && !w.imports[n].merge && w.imports[n].targetPort == 0
    ensures var w' := AddImport(c, w, n, draws);
            n !in w'.failures ==>
              n in AddImport(c, w', n, draws').failures && AddImport(c, w', n, draws').failures[n] == PortConflict(m)
    ensures w.services == map[] ==> n !in AddImport(c, w, n, draws).failures
  {
    L.HolderDisplaced(l, m, draws0);
    GivenHeldPort(w, n, L.SCANNED, draws);
    var w1, w' := Allocate(w, n, draws).0, AddImport(c, w, n, draws);
    if w.services == map[] {
      FreshServices(c, w1, n);
      SucceededKeepsPort(c, w1, n, w');
    }
    if n !in w'.failures {
      AddImportSucceeds(c, w, n, draws);
      SucceededKeepsPort(c, w1, n, w');
      RefusedHeldPort(c, w', n, m, draws');
    }
  }

  lemma GivenHeldPort(w: World, n: Name, p: nat, draws: seq<nat>)
    requires n in w.imports && w.imports[n].targetPort == 0 && |w.leases.byPort| != L.PORT_COUNT
    requires n in w.leases.byName && w.leases.byName[n] == p != 0
    ensures var (w1, failure) := Allocate(w, n, draws);
            && failure == None && w1.leases == w.leases && w1.services == w.services
            && n in w1.imports && w1.imports[n] == w.imports[n].(targetPort := p)
  {
    assert L.LeasePort(w.leases, n, 0, draws) == (w.leases, L.Leased(p));
  }

  lemma RefusedHeldPort(c: Config, w: World, n: Name, m: Name, draws: seq<nat>)
    requires n in w.imports && w.imports[n].targetPort != 0
    requires w.imports[n].targetPort in w.leases.byPort && w.leases.byPort[w.imports[n].targetPort] == m != n
    ensures n in AddImport(c, w, n, draws).failures && AddImport(c, w, n, draws).failures[n] == PortConflict(m)
  {
    assert Allocate(w, n, draws).1 == Some(PortConflict(m));
  }

  lemma FreshServices(c: Config, w: World, n: Name)
    requires n in w.imports && !w.imports[n].merge && w.services == map[]
    ensures Build(c, w, n).1 == None
  {
  }

  lemma BuiltIsDone(c: Config, w: World, n: Name, w': World)
    requires n in w.imports && !w.imports[n].merge && w.imports[n].targetPort != 0 && Build(c, w, n).1.None?
    requires L.LeaseSpecific(w.leases, n, w.imports[n].targetPort) == (w.leases, L.Leased(w.imports[n].targetPort))
    requires w' == Conclude(Build(c, w, n).0, n, Good, None)
    ensures Done(c, w', n)
  {
    BuildsInPlace(c, w, n);
    ConcludeKeepsPlace(c, Build(c, w, n).0, n);
  }

  lemma AddImportSucceeds(c: Config, w: World, n: Name, draws: seq<nat>)
    requires n in w.imports
    ensures n !in AddImport(c, w, n, draws).failures ==>
              && Allocate(w, n, draws).1.None? && Build(c, Allocate(w, n, draws).0, n).1.None?
              && AddImport(c, w, n, draws) == Conclude(Build(c, Allocate(w, n, draws).0, n).0, n, Good, None)
  {
  }

  lemma BuildsInPlace(c: Config, w: World, n: Name)
    requires n in w.imports && !w.imports[n].merge && Build(c, w, n).1.None?
    ensures var w' := Build(c, w, n).0;
            w'.imports == w.imports && w'.leases == w.leases && CopiesOfImport(c, w', n) == {}
              && ServicesInPlace(c, w', n)
  {
    var w2 := DropSlices(w, CopiesOfImport(c, w, n));
    AddServicesInPlace(c, w2, n);
    AddServicesKeepSlices(c, w2, n);
    assert CopiesOfImport(c, w2, n) == {};
  }

  lemma AddServicesKeepSlices(c: Config, w: World, n: Name)
    requires n in w.imports
    ensures AddServices(c, w, n).0.slices == w.slices && AddServices(c, w, n).0.leases == w.leases
  {
    var k, spec := SystemServiceKey(c, n), SystemSpec(c, w.imports[n]);
    AddKeepsRest(c, w, n, k, spec);
    AddKeepsRest(c, AddImportService(c, w, n, k, spec).0, n, n, UserSpec(c, n));
  }

  // ---------------------------------------------------------------- what the services forward

  /** A service that listens on `port` and forwards to `targetPort` of the pods selected. */
  predicate Forwards(s: Service, selector: map<string, string>, port: nat, targetPort: nat) {
    && s.spec.ClusterIP? && s.spec.selector == selector && |s.spec.ports| == 1
    && s.spec.ports[0].port == port && s.spec.ports[0].targetPort == targetPort
  }

  lemma PlacesForward(c: Config, w: World, n: Name)
    requires n in w.imports && ServicesInPlace(c, w, n)
    ensures var k := Name(c.namespace, if n.namespace == c.namespace then n.name else c.system(n));
            k in w.services && Forwards(w.services[k], c.selector, w.imports[n].port, w.imports[n].targetPort)
    ensures n.namespace != c.namespace ==>
              && n in w.services && w.services[n].spec.ExternalName?
              && w.services[n].spec.host == c.host(c.system(n), c.namespace)
  {
  }

  /**
   What a reconciled import that is not merged forwards: its system service listens on the import's port
   and forwards to its target port at the dataplane's pods, and outside the system namespace the import's
   own service stands for that system service.
   */
  lemma ReconciledForwards(c: Config, w: World, n: Name, draws: seq<nat>)
    requires n in w.imports && !w.imports[n].merge
    ensures var w' := AddImport(c, w, n, draws);
            var k := Name(c.namespace, if n.namespace == c.namespace then n.name else c.system(n));
            n !in w'.failures ==>
              && n in w'.imports && w'.imports[n].targetPort != 0
              && (w.imports[n].targetPort != 0 ==> w'.imports[n].targetPort == w.imports[n].targetPort)
              && k in w'.services && Forwards(w'.services[k], c.selector, w.imports[n].port, w'.imports[n].targetPort)
              && (n.namespace != c.namespace ==>
                    && n in w'.services && w'.services[n].spec.ExternalName?
                    && w'.services[n].spec.host == c.host(c.system(n), c.namespace))
  {
    var w' := AddImport(c, w, n, draws);
    if n !in w'.failures {
      var w1 := Allocate(w, n, draws).0;
      AddImportSucceeds(c, w, n, draws);
      L.LeaseSettles(w.leases, n, w.imports[n].targetPort, draws);
      BuildsInPlace(c, w1, n);
      PlacesForward(c, Build(c, w1, n).0, n);
      ConcludeRecords(Build(c, w1, n).0, n);
    }
  }

  // ---------------------------------------------------------------- statuses, and what a deletion leaves

  /** What a reconciliation records of the import: which of port and service is valid, and why not. */
  lemma StatusTells(c: Config, w: World, n: Name, draws: seq<nat>)
    requires n in w.imports
    ensures var w' := AddImport(c, w, n, draws);
            && n in w'.imports
            && (n !in w'.failures ==> w'.imports[n].portValid == Some(Good) && w'.imports[n].serviceValid == Some(Good))
            && (n in w'.failures && (w'.failures[n].PortConflict? || w'.failures[n].PortsTaken?) ==>
                  w'.imports[n].portValid == Some(Bad(w'.failures[n]))
                    && w'.imports[n].serviceValid == Some(Bad(w'.failures[n])))
            && (n in w'.failures && !(w'.failures[n].PortConflict? || w'.failures[n].PortsTaken?) ==>
                  w'.imports[n].portValid == Some(Good) && w'.imports[n].serviceValid == Some(Bad(w'.failures[n])))
  {
    var (w1, failure) := Allocate(w, n, draws);
    if failure.Some? {
      StatusRecorded(w1, n, Bad(failure.value), failure);
    } else {
      var (w2, failure') := Build(c, w1, n);
      BuildFailsOtherwise(c, w1, n);
      StatusRecorded(w2, n, Good, failure');
    }
  }

  lemma BuildFailsOtherwise(c: Config, w: World, n: Name)
    requires n in w.imports
    ensures Build(c, w, n).1.Some? ==> Build(c, w, n).1.value.NoService? || Build(c, w, n).1.value.ServiceConflict?
  {
    if !w.imports[n].merge {
      AddServicesFailOtherwise(c, DropSlices(w, CopiesOfImport(c, w, n)), n);
    }
  }

  lemma AddServicesFailOtherwise(c: Config, w: World, n: Name)
    requires n in w.imports
    ensures var failure := AddServices(c, w, n).1; failure.Some? ==> failure.value.ServiceConflict?
  {
  }

  lemma StatusRecorded(w: World, n: Name, port: Condition, failure: Option<Failure>)
    requires n in w.imports
    ensures var w' := Conclude(w, n, port, failure);
            && n in w'.imports && w'.imports[n].portValid == Some(port)
            && (failure.None? ==> n !in w'.failures && w'.imports[n].serviceValid == Some(Good))
            && (failure.Some? ==>
                  && n in w'.failures && w'.failures[n] == failure.value
                  && w'.imports[n].serviceValid == Some(Bad(failure.value)))
  {
  }

  /** The service's labels say that it is managed, and for import `n`. */
  predicate LabelledFor(c: Config, s: Service, n: Name) {
    && {App, ImportName, ImportNamespace} <= s.labels.Keys
    && s.labels[App] == c.app && s.labels[ImportName] == n.name && s.labels[ImportNamespace] == n.namespace
  }

  /** A deleted import leaves no service labelled as its own under its keys, no lease and no failure. */
  lemma DeletedLeavesNothing(c: Config, w: World, n: Name)
    ensures var w', k := DeleteImport(c, w, n), Name(c.namespace, c.system(n));
            && (n in w'.services ==> !LabelledFor(c, w'.services[n], n))
            && (n.namespace != c.namespace && k in w'.services ==> !LabelledFor(c, w'.services[k], n))
            && n !in w'.leases.byName && n !in w'.failures
  {
    var w1, k := DeleteImportService(c, w, n, n), Name(c.namespace, c.system(n));
    var w2 := if n.namespace != c.namespace then DeleteImportService(c, w1, k, n) else w1;
    DeletedGone(c, w, n, n);
    DeletedGone(c, w1, k, n);
    DeleteRespects(c, w1, k, n);
    assert RespectsAt(c, w1.services, DeleteImportService(c, w1, k, n).services, n, n);
    assert DeleteImport(c, w, n).services == w2.services;
    DeleteImportParts(c, w, n, w2);
  }

  lemma DeletedGone(c: Config, w: World, k: Name, n: Name)
    ensures var w' := DeleteImportService(c, w, k, n); k in w'.services ==> !Owns(c, n, w'.services[k])
    ensures forall x :: x in DeleteImportService(c, w, k, n).services ==>
              x in w.services && DeleteImportService(c, w, k, n).services[x] == w.services[x]
  {
  }

  lemma DeleteImportParts(c: Config, w: World, n: Name, w2: World)
    requires var w1 := DeleteImportService(c, w, n, n);
             w2 == if n.namespace != c.namespace then DeleteImportService(c, w1, Name(c.namespace, c.system(n)),
                 n) else w1
    ensures var w' := DeleteImport(c, w, n);
            && w'.services == w2.services && n !in w'.failures && n !in w'.leases.byName
            && w'.slices == DropSlices(w2, CopiesOfImport(c, w2, n)).slices && w2.slices == w.slices
  {
  }

  /** Nor any slice labelled as its copy; other slices stay. */
  lemma DeletedCopiesGone(c: Config, w: World, n: Name, k: Name)
    requires k in w.slices
    ensures k in DeleteImport(c, w, n).slices <==>
              !(&& k.namespace == n.namespace && Labelled(w.slices[k], ManagedBy, c.app)
                && Labelled(w.slices[k], ServiceName, n.name))
  {
    var w1 := DeleteImportService(c, w, n, n);
    var w2 := if n.namespace != c.namespace then DeleteImportService(c, w1, Name(c.namespace, c.system(n)), n) else w1;
    DeleteImportParts(c, w, n, w2);
    assert k in CopiesOfImport(c, w2, n) <==>
             k.namespace == n.namespace && Labelled(w.slices[k], ManagedBy, c.app)
               && Labelled(w.slices[k], ServiceName, n.name);
  }
}
