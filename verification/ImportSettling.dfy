/**
 How far imports and services are from rest: ports to be given out, services to be deleted, created and
 updated, statuses to be recorded, each counted, in this order of importance.
 */
module ImportSettling {
  import opened Common
  import opened Weights
  import opened Reconcile
  import opened SliceHealing
  import opened PortFailures
  import opened PortDebts
  import opened SliceRanks
  import opened Settling
  import L = Ports

  type Services = map<Name, Service>

  // ---------------------------------------------------------------- what is counted

  function AsksAny(imports: Imports): set<Name> {
    set n | n in imports && imports[n].targetPort == 0
  }

  /** The import a service's labels name. */
  function Owner(c: Config, s: Service): Option<Name> {
    if App in s.labels && s.labels[App] == c.app && ImportName in s.labels && ImportNamespace in s.labels
    then Some(Name(s.labels[ImportNamespace], s.labels[ImportName])) else None
  }

  lemma OwnsIsOwner(c: Config, n: Name, s: Service)
    ensures Owns(c, n, s) <==> Owner(c, s) == Some(n)
  {
  }

  /** Services of imports that are gone. */
  function Ownerless(c: Config, imports: Imports, services: Services): set<Name> {
    set k | k in services && Owner(c, services[k]).Some? && Owner(c, services[k]).value !in imports
  }

  /** The keys of the services an import wants. */
  function KeysOf(c: Config, n: Name): set<Name> {
    if n.namespace == c.namespace then {n} else {Name(c.namespace, c.system(n)), n}
  }

  ghost function AllKeys(c: Config, imports: Imports): set<Name> {
    set n, k | n in imports && k in KeysOf(c, n) :: k
  }

  ghost function Missing(c: Config, imports: Imports, services: Services): set<Name> {
    AllKeys(c, imports) - services.Keys
  }

  function SpecFor(c: Config, n: Name, imp: Import, k: Name): ServiceSpec {
    if k == SystemServiceKey(c, n) then SystemSpec(c, imp) else UserSpec(c, n)
  }

  /** Services of an import that differ from what it wants. */
  function Outdated(c: Config, imports: Imports, services: Services): set<Name> {
    set k | k in services && Owner(c, services[k]).Some? && Owner(c, services[k]).value in imports
            && services[k].spec != SpecFor(c, Owner(c, services[k]).value, imports[Owner(c, services[k]).value], k)
  }

  ghost function Mess(c: Config, imports: Imports, s: Services): (nat, nat, nat) {
    (|Ownerless(c, imports, s)|, |Missing(c, imports, s)|, |Outdated(c, imports, s)|)
  }

  /** Fewer services to delete, or else fewer to create, or else fewer to update. */
  ghost predicate Tidier(c: Config, imports: Imports, s: Services, s': Services) {
    LexLess(Mess(c, imports, s'), Mess(c, imports, s))
  }

  /** No service is touched, or services get tidier. */
  ghost predicate Tidies(c: Config, w: World, w': World) {
    && w'.imports == w.imports
    && ((w'.services == w.services && w'.pending == w.pending) || Tidier(c, w.imports, w.services, w'.services))
  }

  lemma TidiesTransitive(c: Config, w: World, w': World, w'': World)
    requires Tidies(c, w, w') && Tidies(c, w', w'')
    ensures Tidies(c, w, w'')
  {
    var x, y, z := Mess(c, w.imports, w.services), Mess(c, w.imports, w'.services), Mess(c, w.imports, w''.services);
    assert LexLess(y, x) && LexLess(z, y) ==> LexLess(z, x);
  }

  // ---------------------------------------------------------------- services

  lemma CreateTidies(c: Config, imports: Imports, s: Services, n: Name, k: Name, service: Service)
    requires n in imports && k in KeysOf(c, n) && k !in s && Owner(c, service) == Some(n)
    ensures Tidier(c, imports, s, s[k := service])
  {
    var s' := s[k := service];
    assert Ownerless(c, imports, s') == Ownerless(c, imports, s);
    assert k in AllKeys(c, imports);
    assert Missing(c, imports, s') == Missing(c, imports, s) - {k};
    RemovedSize(Missing(c, imports, s), k);
  }

  lemma UpdateTidies(c: Config, imports: Imports, s: Services, n: Name, k: Name, service: Service)
    requires n in imports && k in s && Owner(c, s[k]) == Some(n) && Owner(c, service) == Some(n)
    requires service.spec == SpecFor(c, n, imports[n], k) && s[k].spec != service.spec
    ensures Tidier(c, imports, s, s[k := service])
  {
    var s' := s[k := service];
    assert Ownerless(c, imports, s') == Ownerless(c, imports, s);
    assert Missing(c, imports, s') == Missing(c, imports, s);
    assert Outdated(c, imports, s') == Outdated(c, imports, s) - {k};
    RemovedSize(Outdated(c, imports, s), k);
  }

  lemma DeleteTidies(c: Config, imports: Imports, s: Services, n: Name, k: Name)
    requires n !in imports && k in s && Owner(c, s[k]) == Some(n)
    ensures Tidier(c, imports, s, s - {k})
  {
    assert Ownerless(c, imports, s - {k}) == Ownerless(c, imports, s) - {k};
    RemovedSize(Ownerless(c, imports, s), k);
  }

  lemma AddServiceTidies(c: Config, w: World, n: Name, k: Name, spec: ServiceSpec)
    requires n in w.imports && k in KeysOf(c, n) && spec == SpecFor(c, n, w.imports[n], k)
    ensures Tidies(c, w, AddImportService(c, w, n, k, spec).0)
  {
    var s := Service(OwnLabels(c, n), spec, "");
    var w' := AddImportService(c, w, n, k, spec).0;
    OwnLabelsName(c, n, spec);
    AddServiceCases(c, w, n, k, spec, s);
    if k !in w.services {
      CreateTidies(c, w.imports, w.services, n, k, s);
    } else if Owner(c, w.services[k]) == Some(n) && w.services[k].spec != spec {
      UpdateTidies(c, w.imports, w.services, n, k, s);
    }
  }

  lemma AddServiceCases(c: Config, w: World, n: Name, k: Name, spec: ServiceSpec, s: Service)
    requires s == Service(OwnLabels(c, n), spec, "")
    ensures var w' := AddImportService(c, w, n, k, spec).0;
            && w'.imports == w.imports
            && if k !in w.services || (Owner(c, w.services[k]) == Some(n) && w.services[k].spec != spec)
               then w'.services == w.services[k := s]
               else w'.services == w.services && w'.pending == w.pending
  {
    if k in w.services {
      OwnsIsOwner(c, n, w.services[k]);
    }
  }

  lemma OwnLabelsName(c: Config, n: Name, spec: ServiceSpec)
    ensures Owner(c, Service(OwnLabels(c, n), spec, "")) == Some(n)
  {
  }

  lemma AddServicesTidies(c: Config, w: World, n: Name)
    requires n in w.imports
    ensures Tidies(c, w, AddServices(c, w, n).0)
  {
    var k := SystemServiceKey(c, n);
    AddServiceTidies(c, w, n, k, SystemSpec(c, w.imports[n]));
    var (w1, failure) := AddImportService(c, w, n, k, SystemSpec(c, w.imports[n]));
    if failure.None? && n.namespace != c.namespace {
      AddServiceTidies(c, w1, n, n, UserSpec(c, n));
      TidiesTransitive(c, w, w1, AddImportService(c, w1, n, n, UserSpec(c, n)).0);
    }
  }

  lemma DeleteServiceTidies(c: Config, w: World, k: Name, n: Name)
    requires n !in w.imports
    ensures Tidies(c, w, DeleteImportService(c, w, k, n))
  {
    if k in w.services {
      OwnsIsOwner(c, n, w.services[k]);
      if Owns(c, n, w.services[k]) {
        DeleteTidies(c, w.imports, w.services, n, k);
      }
    }
  }

  // ---------------------------------------------------------------- building

  /** Imports stay; services get tidier, or stay while slices get lighter, or nothing is written. */
  ghost predicate Built(c: Config, r: Room, w: World, w': World) {
    && w'.imports == w.imports && w'.leases == w.leases && Tame(c, w') && Fits(c, r, w')
    && (|| Tidier(c, w.imports, w.services, w'.services)
        || (&& w'.services == w.services && Mass(c, r, w') <= Mass(c, r, w)
            && (Mass(c, r, w') == Mass(c, r, w) ==> w'.slices == w.slices && w'.pending == w.pending)))
  }

  /** What happens to other objects leaves the slices as they are. */
  lemma OtherObjects(c: Config, r: Room, w: World, w': World)
    requires Tame(c, w) && Fits(c, r, w) && w'.slices == w.slices && SameMerges(w, w')
    requires forall k :: SliceKey(k) in w'.pending ==> SliceKey(k) in w.pending
    ensures Tame(c, w') && Fits(c, r, w') && Mass(c, r, w') == Mass(c, r, w)
  {
    OnlySlicesCount(c, w, w', r.q, r.b, r.h);
    assert forall n :: n in w'.imports <==> n in w.imports;
  }

  lemma ServiceKeysOnly(c: Config, w: World, n: Name)
    requires n in w.imports
    ensures forall k :: SliceKey(k) in AddServices(c, w, n).0.pending ==> SliceKey(k) in w.pending
  {
  }

  lemma CopiesLighter(c: Config, r: Room, w: World, n: Name)
    requires Tame(c, w) && Fits(c, r, w) && LiveMerge(w, n)
    ensures Lighter(c, r, w, Apply(w, Wanted(c, w, DataplanePairs(c, w, n))))
  {
    var pairs := DataplanePairs(c, w, n);
    forall p | p in pairs ensures LiveMerge(w, p.0) && Name(c.namespace, p.1) in w.slices
      && CopyKey(c, p.0, p.1) in r.q {
      var k :| k in w.slices && IsDataplane(c, k, w.slices[k]) && p == (n, k.name);
      assert k == Name(c.namespace, p.1);
    }
    ApplyLighter(c, r, w, pairs);
  }

  lemma BuildSettles(c: Config, r: Room, w: World, n: Name)
    requires Tame(c, w) && Fits(c, r, w) && n in w.imports
    ensures Built(c, r, w, Build(c, w, n).0)
  {
    if w.imports[n].merge {
      CopiesBuilt(c, r, w, n);
    } else {
      ImportCopiesDroppable(c, w, n);
      DropLighter(c, r, w, CopiesOfImport(c, w, n));
      ServicesBuilt(c, r, w, n, DropSlices(w, CopiesOfImport(c, w, n)));
    }
  }

  lemma CopiesBuilt(c: Config, r: Room, w: World, n: Name)
    requires Tame(c, w) && Fits(c, r, w) && LiveMerge(w, n)
    ensures Built(c, r, w, w) && Built(c, r, w, Apply(w, Reconcile.Wanted(c, w, DataplanePairs(c, w, n))))
  {
    CopiesLighter(c, r, w, n);
  }

  lemma ServicesBuilt(c: Config, r: Room, w: World, n: Name, w1: World)
    requires Spacious(r) && n in w.imports && Lighter(c, r, w, w1) && w1.imports == w.imports
    requires w1.services == w.services && w1.leases == w.leases
    ensures Built(c, r, w, AddServices(c, w1, n).0)
  {
    var w2 := AddServices(c, w1, n).0;
    AddServicesTidies(c, w1, n);
    ServiceKeysOnly(c, w1, n);
    OtherObjects(c, r, w1, w2);
  }

  // ---------------------------------------------------------------- statuses

  /** The failure that building the import comes to, told from the services. */
  function Verdict(c: Config, merge: bool, services: Services, n: Name): Option<Failure> {
    var k := SystemServiceKey(c, n);
    if merge then if n in services then None else Some(NoService)
    else if k in services && !Owns(c, n, services[k]) then Some(ServiceConflict(k))
    else if n.namespace != c.namespace && n in services && !Owns(c, n, services[n]) then Some(ServiceConflict(n))
    else None
  }

  lemma BuildVerdict(c: Config, w: World, n: Name)
    requires n in w.imports
    ensures Build(c, w, n).1 == Verdict(c, w.imports[n].merge, w.services, n)
  {
    if !w.imports[n].merge {
      ServicesVerdict(c, DropSlices(w, CopiesOfImport(c, w, n)), n);
    }
  }

  lemma ServicesVerdict(c: Config, w: World, n: Name)
    requires n in w.imports
    ensures AddServices(c, w, n).1 == Verdict(c, false, w.services, n)
  {
  }

  function Recorded(failure: Option<Failure>): Condition {
    if failure.Some? then Bad(failure.value) else Good
  }

  /** What a reconciliation would record of an import: on its port, and on its service. */
  function Findings(c: Config, imports: Imports, services: Services, leases: L.Leases, n: Name): (Condition, Condition)
    requires n in imports
  {
    var refusal := PortRefusal(imports[n], leases, n);
    if refusal.Some? then (Bad(refusal.value), Bad(refusal.value))
    else (Good, Recorded(Verdict(c, imports[n].merge, services, n)))
  }

  predicate Reported(imp: Import, findings: (Condition, Condition)) {
    imp.portValid == Some(findings.0) && imp.serviceValid == Some(findings.1)
  }

  function Misreported(c: Config, imports: Imports, services: Services, leases: L.Leases): set<Name> {
    set n | n in imports && !Reported(imports[n], Findings(c, imports, services, leases, n))
  }

  /** The import with another status. */
  predicate StatusOnly(imports: Imports, imports': Imports, n: Name) {
    && n in imports && n in imports'
    && imports' == imports[n := imports'[n]]
    && imports'[n] == imports[n].(portValid := imports'[n].portValid, serviceValid := imports'[n].serviceValid)
  }

  lemma StatusKeeps(c: Config, imports: Imports, imports': Imports, n: Name, s: Services, l: L.Leases)
    requires StatusOnly(imports, imports', n)
    ensures AsksAny(imports') == AsksAny(imports) && Mess(c, imports', s) == Mess(c, imports, s)
    ensures Debts(imports', l) == Debts(imports, l)
  {
    StatusKeepsMess(c, imports, imports', n, s);
    StatusKeepsDebts(imports, imports', n, l);
  }

  lemma StatusKeepsMess(c: Config, imports: Imports, imports': Imports, n: Name, s: Services)
    requires StatusOnly(imports, imports', n)
    ensures AsksAny(imports') == AsksAny(imports) && Mess(c, imports', s) == Mess(c, imports, s)
  {
    assert imports'.Keys == imports.Keys;
    assert Ownerless(c, imports', s) == Ownerless(c, imports, s);
    assert AllKeys(c, imports') == AllKeys(c, imports);
    assert Outdated(c, imports', s) == Outdated(c, imports, s);
  }

  lemma StatusKeepsDebts(imports: Imports, imports': Imports, n: Name, l: L.Leases)
    requires StatusOnly(imports, imports', n)
    ensures Debts(imports', l) == Debts(imports, l)
  {
    assert imports'.Keys == imports.Keys;
    assert Leftover(imports', l) == Leftover(imports, l);
    assert Moving(imports', l) == Moving(imports, l);
    assert Unrecorded(imports', l) == Unrecorded(imports, l);
  }

  lemma ReportCounts(c: Config, imports: Imports, imports': Imports, n: Name, s: Services, l: L.Leases)
    requires StatusOnly(imports, imports', n)
    requires !Reported(imports[n], Findings(c, imports, s, l, n))
             && Reported(imports'[n], Findings(c, imports, s, l, n))
    ensures |Misreported(c, imports', s, l)| < |Misreported(c, imports, s, l)|
  {
    assert forall x :: x in imports ==> Findings(c, imports', s, l, x) == Findings(c, imports, s, l, x);
    assert Misreported(c, imports', s, l) == Misreported(c, imports, s, l) - {n};
    RemovedSize(Misreported(c, imports, s, l), n);
  }

  lemma ConcludeSame(w: World, n: Name, port: Condition, f: Option<Failure>)
    requires n in w.imports && Reported(w.imports[n], (port, Recorded(f)))
    ensures Unmoved(w, Conclude(w, n, port, f))
  {
  }

  lemma ConcludeWrites(w: World, n: Name, port: Condition, f: Option<Failure>)
    requires n in w.imports && !Reported(w.imports[n], (port, Recorded(f)))
    ensures Records(w, n, (port, Recorded(f)), Conclude(w, n, port, f))
  {
  }

  /** A status is written, and nothing else. */
  predicate Records(w: World, n: Name, findings: (Condition, Condition), w': World)
    requires n in w.imports
  {
    && w'.services == w.services && w'.slices == w.slices && w'.leases == w.leases
    && w'.imports == w.imports[n := w.imports[n].(portValid := Some(findings.0), serviceValid := Some(findings.1))]
    && w'.pending == w.pending + {ImportKey(n)}
  }

  // ---------------------------------------------------------------- the level of a world

  datatype Level = Level(any: nat, debts: (nat, nat, nat), mess: (nat, nat, nat), unreported: nat, mass: nat)

  predicate Lower(x: Level, y: Level) {
    || x.any < y.any
    || (x.any == y.any && LexLess(x.debts, y.debts))
    || (x.any == y.any && x.debts == y.debts && LexLess(x.mess, y.mess))
    || (x.any == y.any && x.debts == y.debts && x.mess == y.mess && x.unreported < y.unreported)
    || (x.any == y.any && x.debts == y.debts && x.mess == y.mess && x.unreported == y.unreported && x.mass < y.mass)
  }

  lemma LowerTransitive(x: Level, y: Level, z: Level)
    requires Lower(x, y) && Lower(y, z)
    ensures Lower(x, z)
  {
  }

  ghost function Gauge(c: Config, r: Room, w: World): Level
    requires Spacious(r)
  {
    Level(|AsksAny(w.imports)|, Debts(w.imports, w.leases), Mess(c, w.imports, w.services),
          |Misreported(c, w.imports, w.services, w.leases)|, Mass(c, r, w))
  }

  predicate Unmoved(w: World, w': World) {
    && w'.imports == w.imports && w'.services == w.services && w'.slices == w.slices && w'.leases == w.leases
    && w'.pending == w.pending
  }

  ghost predicate Kept(c: Config, r: Room, w: World, w': World) {
    Tame(c, w') && Fits(c, r, w') && SameMerges(w, w')
  }

  ghost predicate Down(c: Config, r: Room, w: World, w': World)
    requires Spacious(r)
  {
    Unmoved(w, w') || Lower(Gauge(c, r, w'), Gauge(c, r, w))
  }

  /** Nothing is written, or the level sinks. */
  ghost predicate Sinks(c: Config, r: Room, w: World, w': World) {
    Spacious(r) && Kept(c, r, w, w') && Down(c, r, w, w')
  }

  lemma UnmovedGauge(c: Config, r: Room, w: World, w': World)
    requires Tame(c, w) && Fits(c, r, w) && Unmoved(w, w')
    ensures Tame(c, w') && Fits(c, r, w') && Gauge(c, r, w') == Gauge(c, r, w)
  {
    OtherObjects(c, r, w, w');
  }

  lemma SinksTransitive(c: Config, r: Room, w: World, w': World, w'': World)
    requires Sinks(c, r, w, w') && Sinks(c, r, w', w'')
    ensures Sinks(c, r, w, w'')
  {
    KeptTransitive(c, r, w, w', w'');
    DownTransitive(c, r, w, w', w'');
  }

  lemma KeptTransitive(c: Config, r: Room, w: World, w': World, w'': World)
    requires SameMerges(w, w') && Kept(c, r, w', w'')
    ensures Kept(c, r, w, w'')
  {
  }

  lemma DownTransitive(c: Config, r: Room, w: World, w': World, w'': World)
    requires Spacious(r) && Down(c, r, w, w') && Down(c, r, w', w'')
    ensures Down(c, r, w, w'')
  {
    if Unmoved(w, w') {
      StillSame(c, r, w, w');
    } else if Unmoved(w', w'') {
      StillSame(c, r, w', w'');
    } else {
      LowerTransitive(Gauge(c, r, w''), Gauge(c, r, w'), Gauge(c, r, w));
    }
  }

  lemma StillSame(c: Config, r: Room, w: World, w': World)
    requires Spacious(r) && Unmoved(w, w')
    ensures Gauge(c, r, w') == Gauge(c, r, w)
  {
    OnlySlicesCount(c, w, w', r.q, r.b, r.h);
  }

  /** Building an import and recording the outcome keeps slices, merges and the asked ports in bounds. */
  lemma ConcludedFits(c: Config, r: Room, w: World, n: Name, w2: World, port: Condition, f: Option<Failure>)
    requires Tame(c, w) && Fits(c, r, w) && n in w.imports && Built(c, r, w, w2)
    ensures var w' := Conclude(w2, n, port, f);
            Tame(c, w') && Fits(c, r, w') && SameMerges(w, w') && AsksAny(w'.imports) == AsksAny(w.imports)
  {
    var w' := Conclude(w2, n, port, f);
    if Reported(w2.imports[n], (port, Recorded(f))) {
      ConcludeSame(w2, n, port, f);
      OtherObjects(c, r, w2, w');
    } else {
      ConcludeWrites(w2, n, port, f);
      WrittenGauge(c, r, w2, n, (port, Recorded(f)), w');
    }
  }

  /** Building an import and recording what was found settles something, if its port was given already. */
  lemma BuiltSettles(c: Config, r: Room, w: World, n: Name, w2: World, port: Condition, f: Option<Failure>)
    requires Tame(c, w) && Fits(c, r, w) && n in w.imports && Built(c, r, w, w2)
    requires (port, Recorded(f)) == Findings(c, w.imports, w.services, w.leases, n)
    ensures Sinks(c, r, w, Conclude(w2, n, port, f))
  {
    var w' := Conclude(w2, n, port, f);
    if Reported(w.imports[n], (port, Recorded(f))) {
      ConcludeSame(w2, n, port, f);
      BuiltAlone(c, r, w, w2, w');
    } else {
      ConcludeWrites(w2, n, port, f);
      BuiltAndWritten(c, r, w, n, w2, (port, Recorded(f)), w');
    }
  }

  lemma BuiltAlone(c: Config, r: Room, w: World, w2: World, w': World)
    requires Tame(c, w) && Fits(c, r, w) && Built(c, r, w, w2) && Unmoved(w2, w')
    ensures Sinks(c, r, w, w')
  {
    BuiltSinks(c, r, w, w2);
    UnmovedKept(c, r, w, w2, w');
    DownTransitive(c, r, w, w2, w');
  }

  lemma UnmovedKept(c: Config, r: Room, w: World, w2: World, w': World)
    requires Kept(c, r, w, w2) && Unmoved(w2, w')
    ensures Kept(c, r, w, w')
  {
    OtherObjects(c, r, w2, w');
  }

  lemma BuiltSinks(c: Config, r: Room, w: World, w2: World)
    requires Tame(c, w) && Fits(c, r, w) && Built(c, r, w, w2)
    ensures Sinks(c, r, w, w2)
  {
    BuiltGauge(c, r, w, w2);
    BuiltLower(Gauge(c, r, w), Gauge(c, r, w2), Unmoved(w, w2));
  }

  lemma BuiltLower(g: Level, g2: Level, still: bool)
    requires g2.any == g.any && g2.debts == g.debts
    requires LexLess(g2.mess, g.mess)
          || (g2.mess == g.mess && g2.unreported == g.unreported && (g2.mass < g.mass || still))
    ensures still || Lower(g2, g)
  {
  }

  lemma BuiltAndWritten(
    c: Config, r: Room, w: World, n: Name, w2: World, findings: (Condition, Condition), w': World)
    requires Tame(c, w) && Fits(c, r, w) && n in w.imports && Built(c, r, w, w2)
    requires findings == Findings(c, w.imports, w.services, w.leases, n) && !Reported(w.imports[n], findings)
    requires Records(w2, n, findings, w')
    ensures Sinks(c, r, w, w')
  {
    WrittenGauge(c, r, w2, n, findings, w');
    KeptTransitive(c, r, w, w2, w');
    BuiltGauge(c, r, w, w2);
    WrittenReports(c, w, n, findings, w');
    WrittenDown(c, r, w, w2, w');
  }

  lemma WrittenDown(c: Config, r: Room, w: World, w2: World, w': World)
    requires Spacious(r) && w'.services == w2.services
    requires Gauge(c, r, w2).any == Gauge(c, r, w).any && Gauge(c, r, w2).debts == Gauge(c, r, w).debts
    requires Gauge(c, r, w').any == Gauge(c, r, w2).any && Gauge(c, r, w').debts == Gauge(c, r, w2).debts
    requires Gauge(c, r, w').mess == Gauge(c, r, w2).mess
    requires LexLess(Gauge(c, r, w2).mess, Gauge(c, r, w).mess)
          || (w2.services == w.services && Gauge(c, r, w2).mess == Gauge(c, r, w).mess)
    requires w'.services == w.services ==> Gauge(c, r, w').unreported < Gauge(c, r, w).unreported
    ensures Down(c, r, w, w')
  {
    if LexLess(Gauge(c, r, w2).mess, Gauge(c, r, w).mess) {
      WrittenLower(Gauge(c, r, w), Gauge(c, r, w2), Gauge(c, r, w'), false);
    } else {
      WrittenLower(Gauge(c, r, w), Gauge(c, r, w2), Gauge(c, r, w'), true);
    }
  }

  lemma WrittenReports(c: Config, w: World, n: Name, findings: (Condition, Condition), w': World)
    requires n in w.imports && w'.leases == w.leases
    requires findings == Findings(c, w.imports, w.services, w.leases, n) && !Reported(w.imports[n], findings)
    requires w'.imports
          == w.imports[n := w.imports[n].(portValid := Some(findings.0), serviceValid := Some(findings.1))]
    ensures w'.services == w.services ==>
              |Misreported(c, w'.imports, w'.services, w'.leases)| < |Misreported(c, w.imports, w.services, w.leases)|
  {
    ReportCounts(c, w.imports, w'.imports, n, w.services, w.leases);
  }

  lemma WrittenLower(g: Level, g2: Level, g': Level, same: bool)
    requires g2.any == g.any && g2.debts == g.debts && g'.any == g2.any && g'.debts == g2.debts && g'.mess == g2.mess
    requires LexLess(g2.mess, g.mess) || (same && g2.mess == g.mess)
    requires same ==> g'.unreported < g.unreported
    ensures Lower(g', g)
  {
  }

  lemma BuiltGauge(c: Config, r: Room, w: World, w2: World)
    requires Tame(c, w) && Fits(c, r, w) && Built(c, r, w, w2)
    ensures SameMerges(w, w2)
    ensures Gauge(c, r, w2).any == Gauge(c, r, w).any && Gauge(c, r, w2).debts == Gauge(c, r, w).debts
    ensures || LexLess(Gauge(c, r, w2).mess, Gauge(c, r, w).mess)
            || (&& w2.services == w.services && Gauge(c, r, w2).mess == Gauge(c, r, w).mess
                && Gauge(c, r, w2).unreported == Gauge(c, r, w).unreported
                && (Gauge(c, r, w2).mass < Gauge(c, r, w).mass || Unmoved(w, w2)))
  {
  }

  lemma WrittenGauge(c: Config, r: Room, w: World, n: Name, findings: (Condition, Condition), w': World)
    requires Tame(c, w) && Fits(c, r, w) && n in w.imports && Records(w, n, findings, w')
    ensures Tame(c, w') && Fits(c, r, w') && SameMerges(w, w') && StatusOnly(w.imports, w'.imports, n)
    ensures AsksAny(w'.imports) == AsksAny(w.imports)
    ensures Gauge(c, r, w').any == Gauge(c, r, w).any && Gauge(c, r, w').debts == Gauge(c, r, w).debts
    ensures Gauge(c, r, w').mess == Gauge(c, r, w).mess
  {
    OtherObjects(c, r, w, w');
    StatusKeeps(c, w.imports, w'.imports, n, w.services, w.leases);
  }
}
