/**
 Imports and their ports: what a reconciliation does depends on whether the import's port is available,
 and runs that always find ports available leave no orphaned copies.
 */
module PortFailures {
  import opened Common
  import opened Reconcile
  import opened SliceHealing
  import L = Ports

  // ---------------------------------------------------------------- one reconciliation

  /** The port an import asks for is free or its own; an import that asks for any port finds not all of them taken. */
  predicate PortAvailable(w: World, n: Name)
    requires n in w.imports
  {
    var p := w.imports[n].targetPort;
    if p == 0 then |w.leases.byPort| != L.PORT_COUNT else p in w.leases.byPort ==> w.leases.byPort[p] == n
  }

  lemma AllocateExactly(w: World, n: Name, draws: seq<nat>)
    requires n in w.imports
    ensures Allocate(w, n, draws).1.None? <==> PortAvailable(w, n)
  {
  }

  /**
   Reconciling an import that is not merged leaves it without copies exactly if it had none or its port is
   available.
   */
  lemma CopiesGoExactly(c: Config, w: World, n: Name, draws: seq<nat>)
    requires n in w.imports && !w.imports[n].merge
    ensures CopiesOfImport(c, AddImport(c, w, n, draws), n) == {}
       <==> CopiesOfImport(c, w, n) == {} || PortAvailable(w, n)
  {
    AllocateExactly(w, n, draws);
    AllocateFollows(w, n, draws);
    var (w1, failure) := Allocate(w, n, draws);
    if failure.Some? {
      ConcludeFollows(c, w1, n, Bad(failure.value), failure);
      SameCopies(c, w, AddImport(c, w, n, draws), n);
    } else {
      var (w2, failure') := Build(c, w1, n);
      DropCopies(c, w1, n);
      BuildServices(c, DropSlices(w1, CopiesOfImport(c, w1, n)), n);
      SameCopies(c, DropSlices(w1, CopiesOfImport(c, w1, n)), w2, n);
      ConcludeFollows(c, w2, n, Good, failure');
      SameCopies(c, w2, AddImport(c, w, n, draws), n);
    }
  }

  lemma SameCopies(c: Config, w: World, w': World, n: Name)
    requires w'.slices == w.slices
    ensures CopiesOfImport(c, w', n) == CopiesOfImport(c, w, n)
  {
  }

  // ---------------------------------------------------------------- runs that find their ports

  /** No recorded failure is one of the port allocation. */
  predicate Unfailed(w: World) {
    forall n :: n in w.failures ==> !w.failures[n].PortConflict? && !w.failures[n].PortsTaken?
  }

  /** Every reconciliation of the step finds its port available. */
  predicate Served(c: Config, w: World, e: Event) {
    match e
    case Handle(ImportKey(n), _, _) => n in w.imports ==> PortAvailable(w, n)
    case Handle(ServiceKey(k), draws, _) =>
      && (k in w.imports ==> PortAvailable(w, k))
      && var w1 := AfterOwnImport(c, w, k, draws);
         SystemImport(c, w1, k).Some? ==> PortAvailable(w1, SystemImport(c, w1, k).value)
    case _ => true
  }

  /** The world in which a service handler turns to the import behind a system service. */
  function AfterOwnImport(c: Config, w: World, k: Name, draws: seq<nat>): World {
    var w0 := w.(pending := w.pending - {ServiceKey(k)});
    if k in w0.imports then AddImport(c, w0, k, draws) else w0
  }

  function SystemImport(c: Config, w: World, k: Name): (n: Option<Name>)
    ensures n.Some? ==> n.value in w.imports
  {
    if k.namespace == c.namespace && k.name in w.serviceToImport && w.serviceToImport[k.name] in w.imports
    then Some(w.serviceToImport[k.name]) else None
  }

  ghost predicate AllServed(c: Config, w: World, events: seq<Event>)
    decreases |events|
  {
    events == [] || (Served(c, w, events[0]) && AllServed(c, Next(c, w, events[0]), events[1..]))
  }

  lemma AddImportUnfailed(c: Config, w: World, n: Name, draws: seq<nat>)
    requires Unfailed(w) && n in w.imports && PortAvailable(w, n)
    ensures Unfailed(AddImport(c, w, n, draws))
  {
    AllocateExactly(w, n, draws);
    AllocateFollows(w, n, draws);
    var w1 := Allocate(w, n, draws).0;
    var (w2, failure) := Build(c, w1, n);
    BuildFailures(c, w1, n);
    ConcludeFollows(c, w2, n, Good, failure);
  }

  lemma BuildFailures(c: Config, w: World, n: Name)
    requires n in w.imports
    ensures var (w', failure) := Build(c, w, n);
            && w'.failures == w.failures && w'.imports == w.imports
            && (failure.Some? ==> !failure.value.PortConflict? && !failure.value.PortsTaken?)
  {
    if !w.imports[n].merge {
      BuildServices(c, DropSlices(w, CopiesOfImport(c, w, n)), n);
    }
  }

  lemma DeleteImportUnfailed(c: Config, w: World, n: Name)
    requires Unfailed(w)
    ensures Unfailed(DeleteImport(c, w, n))
  {
    assert DeleteImport(c, w, n).failures == w.failures - {n};
  }

  lemma SameFailures(w: World, w': World)
    requires Unfailed(w) && w'.failures == w.failures
    ensures Unfailed(w')
  {
  }

  lemma HandleImportUnfailed(c: Config, w: World, n: Name, draws: seq<nat>)
    requires Unfailed(w) && (n in w.imports ==> PortAvailable(w, n))
    ensures Unfailed(HandleImport(c, w, n, draws))
  {
    var w0 := w.(pending := w.pending - {ImportKey(n)});
    SameFailures(w, w0);
    if n in w.imports {
      var w1 := AddImport(c, w0, n, draws);
      AddImportUnfailed(c, w0, n, draws);
      SameFailures(w1, Requeue(w1, n, ImportKey(n)));
    } else {
      DeleteImportUnfailed(c, w0, n);
    }
  }

  lemma HandleSystemUnfailed(c: Config, w: World, k: Name, draws: seq<nat>)
    requires Unfailed(w) && (SystemImport(c, w, k).Some? ==> PortAvailable(w, SystemImport(c, w, k).value))
    ensures Unfailed(HandleSystemService(c, w, k, draws))
  {
    if SystemImport(c, w, k).Some? {
      var n := SystemImport(c, w, k).value;
      var w1 := AddImport(c, w, n, draws);
      AddImportUnfailed(c, w, n, draws);
      SameFailures(w1, Requeue(w1, n, ServiceKey(k)));
    }
  }

  lemma HandleServiceUnfailed(c: Config, w: World, k: Name, draws: seq<nat>, draws': seq<nat>)
    requires Unfailed(w) && Served(c, w, Handle(ServiceKey(k), draws, draws'))
    ensures Unfailed(HandleService(c, w, k, draws, draws'))
  {
    var w0 := w.(pending := w.pending - {ServiceKey(k)});
    SameFailures(w, w0);
    var w1 := AfterOwnImport(c, w, k, draws);
    if k in w.imports {
      AddImportUnfailed(c, w0, k, draws);
    }
    HandleSystemUnfailed(c, w1, k, draws');
    SameFailures(w1, Requeue(w1, k, ServiceKey(k)));
  }

  lemma NextUnfailed(c: Config, w: World, e: Event)
    requires Unfailed(w) && Served(c, w, e)
    ensures Unfailed(Next(c, w, e))
  {
    match e
    case Handle(key, draws, draws') =>
      match key {
        case ImportKey(n) => HandleImportUnfailed(c, w, n, draws);
        case ServiceKey(k) => HandleServiceUnfailed(c, w, k, draws, draws');
        case SliceKey(k) => SameFailures(w, HandleSlice(c, w, k));
      }
    case _ => SameFailures(w, Next(c, w, e));
  }

  lemma {:induction false} RunUnfailed(c: Config, w: World, events: seq<Event>)
    requires Unfailed(w) && AllServed(c, w, events)
    ensures Unfailed(Run(c, w, events))
    decreases |events|
  {
    if events != [] {
      NextUnfailed(c, w, events[0]);
      RunUnfailed(c, Next(c, w, events[0]), events[1..]);
    }
  }

  /** In a run that always finds ports available, copies at rest have a live merge import and a dataplane slice. */
  lemma ServedMeansNoOrphans(c: Config, events: seq<Event>, w: World, k: Name)
    requires GoodCodec(c) && Legal(c, START, events) && AllServed(c, START, events)
    requires w == Run(c, START, events) && w.pending == {}
    requires k in w.slices && Canonical(c, k) && !IsDataplane(c, k, w.slices[k])
    ensures LiveMerge(w, ImportOf(c, k)) && SliceOf(c, k) in w.slices
  {
    QuietMeansConsistent(c, events, w);
    assert Founded(c, w, k);
    RunUnfailed(c, START, events);
  }

  // ---------------------------------------------------------------- runs that find some port

  /** An import that asks for any port does not find all of them taken. */
  predicate NotFull(w: World, n: Name)
    requires n in w.imports
  {
    w.imports[n].targetPort == 0 ==> |w.leases.byPort| != L.PORT_COUNT
  }

  /** The refusal of the port an import asks for, told from the leases. */
  function PortRefusal(imp: Import, l: L.Leases, n: Name): Option<Failure> {
    if imp.targetPort != 0 && imp.targetPort in l.byPort && l.byPort[imp.targetPort] != n
    then Some(PortConflict(l.byPort[imp.targetPort])) else None
  }

  lemma AllocateRefuses(w: World, n: Name, draws: seq<nat>)
    requires n in w.imports && NotFull(w, n)
    ensures Allocate(w, n, draws).1 == PortRefusal(w.imports[n], w.leases, n)
    ensures Allocate(w, n, draws).1.Some? ==> Allocate(w, n, draws).0 == w
  {
  }

  /** No reconciliation of the step finds all ports taken; ports may be refused. */
  predicate Provided(c: Config, w: World, e: Event) {
    match e
    case Handle(ImportKey(n), _, _) => n in w.imports ==> NotFull(w, n)
    case Handle(ServiceKey(k), draws, _) =>
      && (k in w.imports ==> NotFull(w, k))
      && var w1 := AfterOwnImport(c, w, k, draws);
         SystemImport(c, w1, k).Some? ==> NotFull(w1, SystemImport(c, w1, k).value)
    case _ => true
  }

  ghost predicate AllProvided(c: Config, w: World, events: seq<Event>)
    decreases |events|
  {
    events == [] || (Provided(c, w, events[0]) && AllProvided(c, Next(c, w, events[0]), events[1..]))
  }
}
