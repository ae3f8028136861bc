/**
 What the handlers keep of services over every run: an import that is not merged has its services in
 place, and an import that was refused for a service is so for a reason that lasts, up to what is still
 pending.
 */
module ServiceHealing {
  import opened Common
  import opened Reconcile
  import opened ServiceOwnership
  import L = Ports

  /** System services of different imports have different names. */
  ghost predicate Injective(c: Config) {
    forall n, m :: c.system(n) == c.system(m) ==> n == m
  }

  /** No import in the system namespace is named like the system service of an import. */
  ghost predicate NoneNamedLikeSystem(c: Config, w: World) {
    forall n, m :: n in w.imports && n.namespace == c.namespace ==> n.name != c.system(m)
  }

  /** The service is as the import wants it, or its handler is still due. */
  predicate Placed(c: Config, w: World, n: Name, k: Name, spec: ServiceSpec) {
    ServiceKey(k) in w.pending || (k in w.services && Owns(c, n, w.services[k]) && w.services[k].spec == spec)
  }

  /** A change of the system service leads back to the import. */
  predicate Known(c: Config, w: World, n: Name) {
    n.namespace != c.namespace ==> c.system(n) in w.serviceToImport && w.serviceToImport[c.system(n)] == n
  }

  predicate Placements(c: Config, w: World, n: Name)
    requires n in w.imports
  {
    && Known(c, w, n)
    && Placed(c, w, n, SystemServiceKey(c, n), SystemSpec(c, w.imports[n]))
    && (n.namespace != c.namespace ==> Placed(c, w, n, n, UserSpec(c, n)))
  }

  /** The reason for which the import was refused a service is still there. */
  predicate Refused(c: Config, w: World, n: Name)
    requires n in w.imports && n in w.failures
  {
    match w.failures[n]
    case NoService => w.imports[n].merge && (ServiceKey(n) in w.pending || n !in w.services)
    case ServiceConflict(k) =>
      && !w.imports[n].merge && (k == n || k == SystemServiceKey(c, n)) && Known(c, w, n)
      && (ServiceKey(k) in w.pending || (k in w.services && !Owns(c, n, w.services[k])))
    case _ => true
  }

  predicate Attended(c: Config, w: World, n: Name) {
    n in w.imports && ImportKey(n) !in w.pending ==>
      if n in w.failures then Refused(c, w, n) else w.imports[n].merge || Placements(c, w, n)
  }

  ghost predicate AllAttended(c: Config, w: World) {
    forall n :: Attended(c, w, n)
  }

  // ---------------------------------------------------------------- what a handler leaves to other imports

  predicate SameImport(w: World, w': World, x: Name) {
    && (x in w'.imports <==> x in w.imports) && (x in w.imports ==> w'.imports[x] == w.imports[x])
    && (x in w'.failures <==> x in w.failures) && (x in w.failures ==> w'.failures[x] == w.failures[x])
  }

  /** What the reconciliation of `m` leaves as it is. */
  ghost predicate LeavesOthers(c: Config, w: World, w': World, m: Name) {
    && (forall x :: x != m ==> SameImport(w, w', x))
    && w.pending <= w'.pending
    && (forall s :: s in w.serviceToImport ==> s in w'.serviceToImport)
    && (forall s :: s in w.serviceToImport && s != c.system(m) ==> w'.serviceToImport[s] == w.serviceToImport[s])
  }

  lemma AddServiceLeaves(c: Config, w: World, n: Name, k: Name, spec: ServiceSpec)
    requires n.namespace != k.namespace ==> k.name == c.system(n)
    ensures LeavesOthers(c, w, AddImportService(c, w, n, k, spec).0, n)
  {
  }

  lemma LeavesTransitive(c: Config, w: World, w': World, w'': World, m: Name)
    requires LeavesOthers(c, w, w', m) && LeavesOthers(c, w', w'', m)
    ensures LeavesOthers(c, w, w'', m)
  {
    forall x | x != m ensures SameImport(w, w'', x) {
      assert SameImport(w, w', x) && SameImport(w', w'', x);
    }
  }

  lemma AddServicesLeave(c: Config, w: World, n: Name)
    requires n in w.imports
    ensures LeavesOthers(c, w, AddServices(c, w, n).0, n)
  {
    var k := SystemServiceKey(c, n);
    AddServiceLeaves(c, w, n, k, SystemSpec(c, w.imports[n]));
    var w1 := AddImportService(c, w, n, k, SystemSpec(c, w.imports[n])).0;
    AddServiceLeaves(c, w1, n, n, UserSpec(c, n));
    LeavesTransitive(c, w, w1, AddImportService(c, w1, n, n, UserSpec(c, n)).0, n);
  }

  lemma BuildLeaves(c: Config, w: World, n: Name)
    requires n in w.imports
    ensures LeavesOthers(c, w, Build(c, w, n).0, n)
  {
    if w.imports[n].merge {
      ApplyLeaves(c, w, Wanted(c, w, DataplanePairs(c, w, n)), n);
    } else {
      var w1 := DropSlices(w, CopiesOfImport(c, w, n));
      DropLeaves(c, w, CopiesOfImport(c, w, n), n);
      AddServicesLeave(c, w1, n);
      LeavesTransitive(c, w, w1, AddServices(c, w1, n).0, n);
    }
  }

  lemma ApplyLeaves(c: Config, w: World, wanted: map<Name, Slice>, n: Name)
    ensures LeavesOthers(c, w, Apply(w, wanted), n)
  {
  }

  lemma DropLeaves(c: Config, w: World, gone: set<Name>, n: Name)
    ensures LeavesOthers(c, w, DropSlices(w, gone), n)
  {
  }

  lemma AllocateLeaves(c: Config, w: World, n: Name, draws: seq<nat>)
    requires n in w.imports
    ensures LeavesOthers(c, w, Allocate(w, n, draws).0, n)
  {
    var (leases, out) := L.LeasePort(w.leases, n, w.imports[n].targetPort, draws);
    var w1 := w.(leases := leases);
    assert LeavesOthers(c, w, w1, n);
    if out.Leased? && w.imports[n].targetPort == 0 {
      PutLeaves(c, w1, n, w.imports[n].(targetPort := out.port));
      LeavesTransitive(c, w, w1, Allocate(w, n, draws).0, n);
    }
  }

  lemma PutLeaves(c: Config, w: World, n: Name, imp: Import)
    ensures LeavesOthers(c, w, PutImport(w, n, imp), n)
  {
  }

  lemma ConcludeLeaves(c: Config, w: World, n: Name, port: Condition, failure: Option<Failure>)
    requires n in w.imports
    ensures LeavesOthers(c, w, Conclude(w, n, port, failure), n)
  {
    var service := if failure.Some? then Bad(failure.value) else Good;
    var w1 := SetStatus(w, n, port, service);
    StatusLeaves(c, w, n, port, service);
    FailureLeaves(c, w1, n, failure);
    LeavesTransitive(c, w, w1, Conclude(w, n, port, failure), n);
  }

  lemma StatusLeaves(c: Config, w: World, n: Name, port: Condition, service: Condition)
    ensures LeavesOthers(c, w, SetStatus(w, n, port, service), n)
  {
  }

  lemma FailureLeaves(c: Config, w: World, n: Name, failure: Option<Failure>)
    ensures var failures := if failure.Some? then w.failures[n := failure.value] else w.failures - {n};
            LeavesOthers(c, w, w.(failures := failures), n)
  {
  }

  lemma AddImportLeaves(c: Config, w: World, n: Name, draws: seq<nat>)
    requires n in w.imports
    ensures LeavesOthers(c, w, AddImport(c, w, n, draws), n)
  {
    var (w1, failure) := Allocate(w, n, draws);
    AllocateLeaves(c, w, n, draws);
    if failure.Some? {
      ConcludeLeaves(c, w1, n, Bad(failure.value), failure);
      LeavesTransitive(c, w, w1, AddImport(c, w, n, draws), n);
    } else {
      var (w2, failure') := Build(c, w1, n);
      BuildLeaves(c, w1, n);
      ConcludeLeaves(c, w2, n, Good, failure');
      LeavesTransitive(c, w, w1, w2, n);
      LeavesTransitive(c, w, w2, AddImport(c, w, n, draws), n);
    }
  }

  lemma DeleteImportLeaves(c: Config, w: World, n: Name)
    ensures LeavesOthers(c, w, DeleteImport(c, w, n), n)
  {
    var w1 := DeleteImportService(c, w, n, n);
    DeleteServiceLeaves(c, w, n, n);
    DeleteServiceLeaves(c, w1, Name(c.namespace, c.system(n)), n);
    var w2 := if n.namespace != c.namespace then DeleteImportService(c, w1, Name(c.namespace, c.system(n)), n) else w1;
    LeavesTransitive(c, w, w1, w2, n);
    ForgetLeaves(c, w2, n);
    LeavesTransitive(c, w, w2, DeleteImport(c, w, n), n);
  }

  lemma ForgetLeaves(c: Config, w: World, n: Name)
    ensures var w' := DropSlices(w, CopiesOfImport(c, w, n));
            LeavesOthers(c, w, w'.(leases := w'.leases.Release(n), failures := w'.failures - {n}), n)
  {
  }

  lemma DeleteServiceLeaves(c: Config, w: World, k: Name, n: Name)
    ensures LeavesOthers(c, w, DeleteImportService(c, w, k, n), n)
  {
  }

  // ---------------------------------------------------------------- a changed service is pending

  predicate SameService(s: Services, s': Services, k: Name) {
    (k in s' <==> k in s) && (k in s ==> s'[k] == s[k])
  }

  ghost predicate Noted(s: Services, s': Services, pending: set<Key>) {
    forall k :: SameService(s, s', k) || ServiceKey(k) in pending
  }

  lemma NotedTransitive(s: Services, s': Services, s'': Services, pending: set<Key>, pending': set<Key>)
    requires Noted(s, s', pending) && Noted(s', s'', pending') && pending <= pending'
    ensures Noted(s, s'', pending')
  {
    forall k ensures SameService(s, s'', k) || ServiceKey(k) in pending' {
      assert SameService(s, s', k) || ServiceKey(k) in pending;
      assert SameService(s', s'', k) || ServiceKey(k) in pending';
    }
  }

  lemma AddServiceNoted(c: Config, w: World, n: Name, k: Name, spec: ServiceSpec)
    ensures var w' := AddImportService(c, w, n, k, spec).0;
            Noted(w.services, w'.services, w'.pending) && w.pending <= w'.pending
  {
  }

  lemma DeleteServiceNoted(c: Config, w: World, k: Name, n: Name)
    ensures var w' := DeleteImportService(c, w, k, n);
            Noted(w.services, w'.services, w'.pending) && w.pending <= w'.pending
  {
  }

  lemma AddServicesNoted(c: Config, w: World, n: Name)
    requires n in w.imports
    ensures var w' := AddServices(c, w, n).0;
            Noted(w.services, w'.services, w'.pending) && w.pending <= w'.pending
  {
    var k, spec := SystemServiceKey(c, n), SystemSpec(c, w.imports[n]);
    AddServiceNoted(c, w, n, k, spec);
    var w1 := AddImportService(c, w, n, k, spec).0;
    var w2 := AddImportService(c, w1, n, n, UserSpec(c, n)).0;
    AddServiceNoted(c, w1, n, n, UserSpec(c, n));
    NotedTransitive(w.services, w1.services, w2.services, w1.pending, w2.pending);
    assert AddServices(c, w, n).0 == w1 || AddServices(c, w, n).0 == w2;
  }

  lemma BuildNoted(c: Config, w: World, n: Name)
    requires n in w.imports
    ensures var w' := Build(c, w, n).0;
            Noted(w.services, w'.services, w'.pending) && w.pending <= w'.pending
  {
    if !w.imports[n].merge {
      AddServicesNoted(c, DropSlices(w, CopiesOfImport(c, w, n)), n);
    }
  }

  lemma AddImportNoted(c: Config, w: World, n: Name, draws: seq<nat>)
    requires n in w.imports
    ensures var w' := AddImport(c, w, n, draws); Noted(w.services, w'.services, w'.pending)
  {
    var (w1, failure) := Allocate(w, n, draws);
    AllocateKeepsServices(w, n, draws);
    if failure.Some? {
      ConcludeKeepsServices(w1, n, Bad(failure.value), failure);
    } else {
      var (w2, failure') := Build(c, w1, n);
      BuildNoted(c, w1, n);
      ConcludeKeepsServices(w2, n, Good, failure');
      ConcludeLeaves(c, w2, n, Good, failure');
    }
  }

  lemma DeleteImportNoted(c: Config, w: World, n: Name)
    ensures var w' := DeleteImport(c, w, n); Noted(w.services, w'.services, w'.pending)
  {
    var w1, k := DeleteImportService(c, w, n, n), Name(c.namespace, c.system(n));
    var w2 := if n.namespace != c.namespace then DeleteImportService(c, w1, k, n) else w1;
    DeleteServiceNoted(c, w, n, n);
    DeleteServiceNoted(c, w1, k, n);
    NotedTransitive(w.services, w1.services, w2.services, w1.pending, w2.pending);
    DeleteImportParts(c, w, n, w2);
    assert w2.pending <= DeleteImport(c, w, n).pending;
  }

  /** What is placed for one import stays so while another is handled. */
  lemma OthersAttended(c: Config, w: World, w': World, m: Name, n: Name)
    requires Injective(c) && n != m && Attended(c, w, n)
    requires LeavesOthers(c, w, w', m) && Noted(w.services, w'.services, w'.pending)
    ensures Attended(c, w', n)
  {
    assert SameImport(w, w', n);
    if n in w'.imports && ImportKey(n) !in w'.pending {
      var k := SystemServiceKey(c, n);
      assert SameService(w.services, w'.services, n) || ServiceKey(n) in w'.pending;
      assert SameService(w.services, w'.services, k) || ServiceKey(k) in w'.pending;
      if n !in w.failures {
        if !w.imports[n].merge {
          StaysKnown(c, w, w', m, n);
        }
      } else if w.failures[n].ServiceConflict? {
        StaysKnown(c, w, w', m, n);
      }
    }
  }

  lemma StaysKnown(c: Config, w: World, w': World, m: Name, n: Name)
    requires Injective(c) && n != m && LeavesOthers(c, w, w', m) && Known(c, w, n)
    ensures Known(c, w', n)
  {
    assert c.system(n) != c.system(m);
  }

  // ---------------------------------------------------------------- what a handler does for its own import

  /** After its own reconciliation an import is attended to. */
  lemma ReconciledAttended(c: Config, w: World, n: Name, draws: seq<nat>)
    requires n in w.imports
    ensures Attended(c, AddImport(c, w, n, draws), n)
  {
    var w' := AddImport(c, w, n, draws);
    if n in w'.failures {
      ReconciledRefused(c, w, n, draws);
    } else if !w'.imports[n].merge {
      AddImportSucceeds(c, w, n, draws);
      var w1 := Allocate(w, n, draws).0;
      var w2 := Build(c, w1, n).0;
      ConcludeRecords(w2, n);
      BuildsInPlace(c, w1, n);
      InPlaceIsPlaced(c, w2, n, w');
    }
  }

  lemma ReconciledRefused(c: Config, w: World, n: Name, draws: seq<nat>)
    requires n in w.imports && n in AddImport(c, w, n, draws).failures
    ensures n in AddImport(c, w, n, draws).imports && Refused(c, AddImport(c, w, n, draws), n)
  {
    var (w1, failure) := Allocate(w, n, draws);
    if failure.Some? {
      StatusRecorded(w1, n, Bad(failure.value), failure);
    } else {
      var (w2, failure') := Build(c, w1, n);
      StatusRecorded(w2, n, Good, failure');
      BuildRefused(c, w1, n);
      ConcludeKeepsRefusal(c, w2, n, failure'.value);
    }
  }

  predicate RefusedBy(c: Config, w: World, n: Name, failure: Failure)
    requires n in w.imports
  {
    Refused(c, w.(failures := w.failures[n := failure]), n)
  }

  lemma BuildRefused(c: Config, w: World, n: Name)
    requires n in w.imports && Build(c, w, n).1.Some?
    ensures RefusedBy(c, Build(c, w, n).0, n, Build(c, w, n).1.value)
  {
    if !w.imports[n].merge {
      AddServicesRefused(c, DropSlices(w, CopiesOfImport(c, w, n)), n);
    }
  }

  lemma AddServicesRefused(c: Config, w: World, n: Name)
    requires n in w.imports && !w.imports[n].merge && AddServices(c, w, n).1.Some?
    ensures RefusedBy(c, AddServices(c, w, n).0, n, AddServices(c, w, n).1.value)
  {
    var k, spec := SystemServiceKey(c, n), SystemSpec(c, w.imports[n]);
    var (w1, failure) := AddImportService(c, w, n, k, spec);
    ServiceRefused(c, w, n, k, spec);
    if failure.None? {
      ServiceRefused(c, w1, n, n, UserSpec(c, n));
    }
  }

  lemma ServiceRefused(c: Config, w: World, n: Name, k: Name, spec: ServiceSpec)
    ensures var (w', failure) := AddImportService(c, w, n, k, spec);
            && (failure.Some? ==>
              failure == Some(ServiceConflict(k)) && k in w'.services && !Owns(c, n, w'.services[k]))
            && (k.namespace == n.namespace ==> w'.serviceToImport == w.serviceToImport)
            && (k.namespace != n.namespace ==> k.name in w'.serviceToImport && w'.serviceToImport[k.name] == n)
            && w'.imports == w.imports
  {
  }

  lemma ConcludeKeepsRefusal(c: Config, w: World, n: Name, failure: Failure)
    requires n in w.imports && RefusedBy(c, w, n, failure)
    ensures var w' := Conclude(w, n, Good, Some(failure));
            n in w'.imports && n in w'.failures && Refused(c, w', n)
  {
  }

  lemma InPlaceIsPlaced(c: Config, w: World, n: Name, w': World)
    requires n in w.imports && ServicesInPlace(c, w, n) && w'.services == w.services
             && w'.serviceToImport == w.serviceToImport
    requires n in w'.imports && w'.imports[n].port == w.imports[n].port
             && w'.imports[n].targetPort == w.imports[n].targetPort
    ensures Placements(c, w', n)
  {
  }

  /** Reconciling an import attends to it and leaves the others attended to. */
  lemma AddImportAttends(c: Config, w: World, m: Name, draws: seq<nat>, n: Name)
    requires Injective(c) && m in w.imports && (n == m || Attended(c, w, n))
    ensures Attended(c, AddImport(c, w, m, draws), n)
  {
    if n == m {
      ReconciledAttended(c, w, m, draws);
    } else {
      AddImportLeaves(c, w, m, draws);
      AddImportNoted(c, w, m, draws);
      OthersAttended(c, w, AddImport(c, w, m, draws), m, n);
    }
  }

  lemma MorePendingAttends(c: Config, w: World, key: Key, n: Name)
    requires Attended(c, w, n)
    ensures Attended(c, w.(pending := w.pending + {key}), n)
  {
  }

  lemma RequeueAttends(c: Config, w: World, m: Name, key: Key, n: Name)
    requires Attended(c, w, n)
    ensures Attended(c, Requeue(w, m, key), n)
  {
    MorePendingAttends(c, w, key, n);
  }

  /** Crossing off a key that is not one of an import's own leaves it attended to. */
  lemma StillAttended(c: Config, w: World, key: Key, w0: World, n: Name)
    requires Attended(c, w, n) && w0 == w.(pending := w.pending - {key})
    requires key != ImportKey(n) && key != ServiceKey(n) && key != ServiceKey(SystemServiceKey(c, n))
    ensures Attended(c, w0, n)
  {
  }

  lemma HandleImportAttends(c: Config, w: World, m: Name, draws: seq<nat>, n: Name)
    requires Injective(c) && Attended(c, w, n)
    ensures Attended(c, HandleImport(c, w, m, draws), n)
  {
    var w0 := w.(pending := w.pending - {ImportKey(m)});
    if n != m {
      StillAttended(c, w, ImportKey(m), w0, n);
    }
    if m in w.imports {
      AddImportAttends(c, w0, m, draws, n);
      RequeueAttends(c, AddImport(c, w0, m, draws), m, ImportKey(m), n);
    } else {
      DeleteAttends(c, w0, m, n);
    }
  }

  lemma DeleteAttends(c: Config, w: World, m: Name, n: Name)
    requires Injective(c) && m !in w.imports && (n == m || Attended(c, w, n))
    ensures Attended(c, DeleteImport(c, w, m), n)
  {
    if n != m {
      DeleteImportLeaves(c, w, m);
      DeleteImportNoted(c, w, m);
      OthersAttended(c, w, DeleteImport(c, w, m), m, n);
    }
  }

  /** The system part of the service handler: it attends to the import that its service leads back to. */
  lemma HandleSystemAttends(c: Config, w: World, k: Name, draws: seq<nat>, n: Name)
    requires Injective(c)
    requires Attended(c, w, n)
             || (n in w.imports && k == Name(c.namespace, c.system(n)) && Known(c, w, n) && n.namespace != c.namespace)
    ensures Attended(c, HandleSystemService(c, w, k, draws), n)
  {
    if k.namespace == c.namespace && k.name in w.serviceToImport && w.serviceToImport[k.name] in w.imports {
      var m := w.serviceToImport[k.name];
      AddImportAttends(c, w, m, draws, n);
      RequeueAttends(c, AddImport(c, w, m, draws), m, ServiceKey(k), n);
    }
  }

  lemma HandleServiceAttends(c: Config, w: World, k: Name, draws: seq<nat>, draws': seq<nat>, n: Name)
    requires Injective(c) && NoneNamedLikeSystem(c, w) && Attended(c, w, n)
    ensures Attended(c, HandleService(c, w, k, draws, draws'), n)
  {
    var w0 := w.(pending := w.pending - {ServiceKey(k)});
    if k in w.imports {
      assert k == SystemServiceKey(c, n) ==> k == n;
      if k != n {
        StillAttended(c, w, ServiceKey(k), w0, n);
      }
      var w1 := AddImport(c, w0, k, draws);
      AddImportAttends(c, w0, k, draws, n);
      RequeueAttends(c, w1, k, ServiceKey(k), n);
      HandleSystemAttends(c, w1, k, draws', n);
    } else {
      if k != n && k != SystemServiceKey(c, n) {
        StillAttended(c, w, ServiceKey(k), w0, n);
      }
      HandleSystemAttends(c, w0, k, draws', n);
    }
  }

  lemma OutsideAttends(c: Config, w: World, e: Event, n: Name)
    requires Attended(c, w, n) && !e.Handle?
    ensures Attended(c, Next(c, w, e), n)
  {
  }

  lemma NextAttends(c: Config, w: World, e: Event, n: Name)
    requires Injective(c) && NoneNamedLikeSystem(c, w) && Attended(c, w, n)
    ensures Attended(c, Next(c, w, e), n)
  {
    match e
    case Handle(key, draws, draws') =>
      match key {
        case ImportKey(m) => HandleImportAttends(c, w, m, draws, n);
        case ServiceKey(k) => HandleServiceAttends(c, w, k, draws, draws', n);
        case SliceKey(k) => HandleSliceAttends(c, w, k, n);
      }
    case _ => OutsideAttends(c, w, e, n);
  }

  lemma HandleSliceAttends(c: Config, w: World, k: Name, n: Name)
    requires Attended(c, w, n)
    ensures Attended(c, HandleSlice(c, w, k), n)
  {
    var w0 := w.(pending := w.pending - {SliceKey(k)});
    CheckLeavesRest(c, w0, k);
    SlicesAttend(c, w, HandleSlice(c, w, k), n);
  }

  lemma CheckLeavesRest(c: Config, w: World, k: Name)
    ensures w.pending <= CheckEndpointSlice(c, w, k).pending
  {
  }

  lemma SlicesAttend(c: Config, w: World, w': World, n: Name)
    requires Attended(c, w, n) && w'.imports == w.imports && w'.services == w.services
    requires w'.serviceToImport == w.serviceToImport && w'.failures == w.failures
    requires forall key :: key in w.pending && !key.SliceKey? ==> key in w'.pending
    ensures Attended(c, w', n)
  {
  }

  // ---------------------------------------------------------------- why names are kept apart

  /**
   Where two imports share the name of their system service, its handler turns to the one recorded last: if
   that one is gone, a missing service is not made again for the other.
   */
  lemma CollisionUnattended(c: Config, w: World, n: Name, m: Name, draws: seq<nat>, draws': seq<nat>)
    requires n.namespace != c.namespace && n in w.imports && m !in w.imports && c.system(m) == c.system(n)
    requires c.system(n) in w.serviceToImport && w.serviceToImport[c.system(n)] == m
    requires Name(c.namespace, c.system(n)) !in w.imports && Name(c.namespace, c.system(n)) !in w.services
    ensures var k := Name(c.namespace, c.system(n));
            HandleService(c, w, k, draws, draws') == w.(pending := w.pending - {ServiceKey(k)})
  {
  }

  /**
   Where an import of the system namespace is named like the system service of another and is refused its
   port, the handler ends there: services stay as they are.
   */
  lemma NamesakeUnattended(c: Config, w: World, n: Name, draws: seq<nat>, draws': seq<nat>)
    requires var k := Name(c.namespace, c.system(n));
             k in w.imports && L.LeasePort(w.leases, k, w.imports[k].targetPort, draws).1.Conflict?
    ensures var k := Name(c.namespace, c.system(n));
            HandleService(c, w, k, draws, draws').services == w.services
  {
    var k := Name(c.namespace, c.system(n));
    var w0 := w.(pending := w.pending - {ServiceKey(k)});
    assert Allocate(w0, k, draws).1.Some?;
    assert k in AddImport(c, w0, k, draws).failures;
  }

  // ---------------------------------------------------------------- whole runs

  /** In no world of the run an import of the system namespace is named like the system service of an import. */
  ghost predicate KeptApart(c: Config, w: World, events: seq<Event>)
    decreases |events|
  {
    NoneNamedLikeSystem(c, w) && (events == [] || KeptApart(c, Next(c, w, events[0]), events[1..]))
  }

  /** Over every run, every import is attended to. */
  lemma {:induction false} RunAttends(c: Config, w: World, events: seq<Event>, n: Name)
    requires Injective(c) && KeptApart(c, w, events) && Attended(c, w, n)
    ensures Attended(c, Run(c, w, events), n)
    decreases |events|
  {
    if events != [] {
      NextAttends(c, w, events[0], n);
      RunAttends(c, Next(c, w, events[0]), events[1..], n);
    }
  }

  /**
   Services heal. In every run from an empty cluster, however writes and handlers interleave, once nothing
   is pending every import that is not merged and was reconciled without error has its services: the system
   service listens on its port and forwards to its target port at the dataplane's pods, and outside the
   system namespace its own service stands for the system service.
   */
  lemma ServicesHeal(c: Config, events: seq<Event>, w: World, n: Name)
    requires Injective(c) && KeptApart(c, START, events) && w == Run(c, START, events) && w.pending == {}
    requires n in w.imports && !w.imports[n].merge && n !in w.failures
    ensures var k := Name(c.namespace, if n.namespace == c.namespace then n.name else c.system(n));
            k in w.services && Forwards(w.services[k], c.selector, w.imports[n].port, w.imports[n].targetPort)
    ensures n.namespace != c.namespace ==>
              && n in w.services && w.services[n].spec.ExternalName?
              && w.services[n].spec.host == c.host(c.system(n), c.namespace)
  {
    RunAttends(c, START, events, n);
    assert Placements(c, w, n);
  }

  /**
   Refusals are real. In every such run, once nothing is pending, an import that was refused for a service is
   so for a reason that is still there: a merge import has no service, or a service under one of the import's
   keys is not labelled as the import's own.
   */
  lemma RefusalsAreReal(c: Config, events: seq<Event>, w: World, n: Name)
    requires Injective(c) && KeptApart(c, START, events) && w == Run(c, START, events) && w.pending == {}
    requires n in w.imports && n in w.failures
    ensures match w.failures[n]
            case NoService => w.imports[n].merge && n !in w.services
            case ServiceConflict(k) =>
              && !w.imports[n].merge
              && (k == n || (n.namespace != c.namespace && k == Name(c.namespace, c.system(n))))
              && k in w.services && !LabelledFor(c, w.services[k], n)
            case _ => true
  {
    RunAttends(c, START, events, n);
    assert Refused(c, w, n);
  }
}
