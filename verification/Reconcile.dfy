/**
 Reconciliation of imports: the cluster as maps of imports, services and endpoint slices, and the
 control-plane handlers as steps on it. Every write to an object makes the object pending, and a
 handler runs for one pending object at a time, in any order.
 */
module Reconcile {
  import opened Common
  import L = Ports

  // ---------------------------------------------------------------- objects

  datatype SliceLabel = ServiceName | ManagedBy | DataplaneSlice | OtherSliceLabel(key: string)

  /** An endpoint; `other` stands for the fields no handler looks at. */
  datatype Endpoint = Endpoint(
    addresses: seq<string>, ready: Option<bool>, serving: Option<bool>, terminating: Option<bool>, other: string)

  datatype Slice = Slice(labels: map<SliceLabel, string>, ipv4: bool, endpoints: seq<Endpoint>, ports: seq<nat>)

  datatype ServiceLabel = App | ImportName | ImportNamespace | OtherServiceLabel(key: string)

  /** A TCP port of a service. */
  datatype ServicePort = ServicePort(port: nat, targetPort: nat)

  datatype ServiceSpec =
    | ClusterIP(selector: map<string, string>, ports: seq<ServicePort>)
    | ExternalName(host: string)
    | OtherSpec(text: string)

  /** A service; `other` stands for the fields that are not compared. */
  datatype Service = Service(labels: map<ServiceLabel, string>, spec: ServiceSpec, other: string)

  datatype Failure =
    | PortConflict(holder: Name)
    | PortsTaken
    | NoService
    | ServiceConflict(service: Name)

  datatype Condition = Good | Bad(why: Failure)

  datatype Import = Import(
    merge: bool, port: nat, targetPort: nat, portValid: Option<Condition>, serviceValid: Option<Condition>)

  datatype Key = ImportKey(name: Name) | ServiceKey(name: Name) | SliceKey(name: Name)

  /**
   The installation: its namespace, the value of the managed-by labels, the name of the dataplane's
   own service, the names of slice copies with their parser, the names of system services, the labels
   of dataplane pods, and the host name of a service in a namespace.
   */
  datatype Config = Config(
    namespace: string,
    app: string,
    ingress: string,
    get: (string, string) -> string,
    parse: string -> Option<(string, string)>,
    system: Name -> string,
    selector: map<string, string>,
    host: (string, string) -> string)

  /** The cluster and the manager. `failures` holds the imports whose last reconciliation failed. */
  datatype World = World(
    imports: map<Name, Import>,
    services: map<Name, Service>,
    slices: map<Name, Slice>,
    leases: L.Leases,
    serviceToImport: map<string, Name>,
    failures: map<Name, Failure>,
    pending: set<Key>,
    writes: nat)

  // ---------------------------------------------------------------- endpoint slices

  predicate SameEndpoint(a: Endpoint, b: Endpoint) {
    a.addresses == b.addresses && a.ready == b.ready && a.serving == b.serving && a.terminating == b.terminating
  }

  /** No change is seen between two slices; ports are not compared. */
  predicate Agrees(a: Slice, b: Slice) {
    && a.ipv4 == b.ipv4 && a.labels == b.labels && |a.endpoints| == |b.endpoints|
    && forall i :: 0 <= i < |a.endpoints| ==> SameEndpoint(a.endpoints[i], b.endpoints[i])
  }

  predicate Labelled(s: Slice, l: SliceLabel, value: string) {
    l in s.labels && s.labels[l] == value
  }

  /** An endpoint slice of the dataplane's own service. */
  predicate IsDataplane(c: Config, k: Name, s: Slice) {
    k.namespace == c.namespace && Labelled(s, ServiceName, c.ingress)
  }

  function CopyKey(c: Config, n: Name, d: string): Name {
    Name(n.namespace, c.get(n.name, d))
  }

  /** The copy of dataplane slice `d` that import `n` should have. */
  function Desired(c: Config, n: Name, imp: Import, d: string, dp: Slice): Slice {
    Slice(map[ServiceName := n.name, ManagedBy := c.app, DataplaneSlice := d], true, dp.endpoints, [imp.targetPort])
  }

  /** The import and the dataplane slice a copy's name tells of. */
  function ImportOf(c: Config, k: Name): Name
    requires c.parse(k.name).Some?
  {
    Name(k.namespace, c.parse(k.name).value.0)
  }

  function SliceOf(c: Config, k: Name): Name
    requires c.parse(k.name).Some?
  {
    Name(c.namespace, c.parse(k.name).value.1)
  }

  function CopyKeys(c: Config, pairs: set<(Name, string)>): set<Name> {
    set p | p in pairs :: CopyKey(c, p.0, p.1)
  }

  /** The copies wanted at the given keys; a key tells which import and dataplane slice it is for. */
  function WantedAt(c: Config, w: World, keys: set<Name>): map<Name, Slice> {
    map k | k in keys && c.parse(k.name).Some? && ImportOf(c, k) in w.imports && SliceOf(c, k) in w.slices
      :: Desired(c, ImportOf(c, k), w.imports[ImportOf(c, k)], SliceOf(c, k).name, w.slices[SliceOf(c, k)])
  }

  /** The wanted copies for pairs of an import and a dataplane slice, keyed by the copies' names. */
  function Wanted(c: Config, w: World, pairs: set<(Name, string)>): map<Name, Slice> {
    WantedAt(c, w, CopyKeys(c, pairs))
  }

  function SliceKeys(names: set<Name>): set<Key> {
    set k | k in names :: SliceKey(k)
  }

  /** The wanted slices that are missing or differ. */
  function Stale(slices: map<Name, Slice>, wanted: map<Name, Slice>): set<Name> {
    set k | k in wanted && !(k in slices && Agrees(wanted[k], slices[k]))
  }

  /** The same world with other slices, after a write of each slice in `keys`. */
  function Touch(w: World, slices: map<Name, Slice>, keys: set<Name>): World {
    w.(slices := slices, pending := w.pending + SliceKeys(keys), writes := w.writes + |keys|)
  }

  function Apply(w: World, wanted: map<Name, Slice>): (w': World)
    ensures w'.imports == w.imports && w'.services == w.services && w'.leases == w.leases
    ensures w'.serviceToImport == w.serviceToImport && w'.failures == w.failures
  {
    var stale := Stale(w.slices, wanted);
    Touch(w, w.slices + Pick(wanted, stale), stale)
  }

  function DropSlices(w: World, gone: set<Name>): (w': World)
    ensures w'.imports == w.imports && w'.services == w.services && w'.leases == w.leases
    ensures w'.serviceToImport == w.serviceToImport && w'.failures == w.failures
  {
    var present := gone * w.slices.Keys;
    Touch(w, w.slices - present, present)
  }

  function DataplanePairs(c: Config, w: World, n: Name): set<(Name, string)> {
    set k | k in w.slices && IsDataplane(c, k, w.slices[k]) :: (n, k.name)
  }

  function MergePairs(w: World, d: string): set<(Name, string)> {
    set n | n in w.imports && w.imports[n].merge :: (n, d)
  }

  function CopiesOfImport(c: Config, w: World, n: Name): set<Name> {
    set k | k in w.slices && k.namespace == n.namespace
            && Labelled(w.slices[k], ManagedBy, c.app) && Labelled(w.slices[k], ServiceName, n.name)
  }

  function CopiesOfSlice(c: Config, w: World, d: string): set<Name> {
    set k | k in w.slices && Labelled(w.slices[k], ManagedBy, c.app) && Labelled(w.slices[k], DataplaneSlice, d)
  }

  /** The check of one slice whose name may be that of a copy: delete an orphan, heal a copy. */
  function CheckEndpointSlice(c: Config, w: World, k: Name): (w': World)
    ensures w'.imports == w.imports && w'.services == w.services && w'.leases == w.leases
    ensures w'.serviceToImport == w.serviceToImport && w'.failures == w.failures
  {
    if c.parse(k.name).None? then w
    else
      var n, d := ImportOf(c, k), SliceOf(c, k);
      if n !in w.imports || !w.imports[n].merge || d !in w.slices then DropSlices(w, {k})
      else Apply(w, Wanted(c, w, {(n, d.name)}))
  }

  /** The handler of an endpoint slice that was written or deleted. */
  function HandleSlice(c: Config, w: World, k: Name): (w': World)
    ensures w'.imports == w.imports && w'.services == w.services && w'.leases == w.leases
    ensures w'.serviceToImport == w.serviceToImport && w'.failures == w.failures
  {
    var w0 := w.(pending := w.pending - {SliceKey(k)});
    if k in w.slices then
      if IsDataplane(c, k, w.slices[k]) then Apply(w0, Wanted(c, w0, MergePairs(w0, k.name)))
      else CheckEndpointSlice(c, w0, k)
    else
      var w1 := CheckEndpointSlice(c, w0, k);
      if k.namespace != c.namespace then w1 else DropSlices(w1, CopiesOfSlice(c, w1, k.name))
  }

  lemma DropNone(w: World)
    ensures DropSlices(w, {}) == w
  {
    assert {} * w.slices.Keys == {};
    assert w.slices - {} == w.slices;
  }

  lemma ApplyNone(w: World)
    ensures Apply(w, map[]) == w
  {
    var none: map<Name, Slice> := map[];
    assert Stale(w.slices, none) == {};
    assert w.slices + Pick(none, {}) == w.slices;
    assert w.pending + SliceKeys({}) == w.pending;
  }

  lemma WantNone(c: Config, w: World)
    ensures Wanted(c, w, {}) == map[]
  {
  }

  // ---------------------------------------------------------------- services

  predicate Owns(c: Config, n: Name, s: Service) {
    && App in s.labels && s.labels[App] == c.app
    && ImportName in s.labels && s.labels[ImportName] == n.name
    && ImportNamespace in s.labels && s.labels[ImportNamespace] == n.namespace
  }

  function PutService(w: World, k: Name, s: Service): World {
    w.(services := w.services[k := s], pending := w.pending + {ServiceKey(k)}, writes := w.writes + 1)
  }

  function OwnLabels(c: Config, n: Name): map<ServiceLabel, string> {
    map[App := c.app, ImportName := n.name, ImportNamespace := n.namespace]
  }

  /** Creates a service, updates one of this import's, and refuses to touch any other. */
  function AddImportService(c: Config, w: World, n: Name, k: Name, spec: ServiceSpec): (r: (World, Option<Failure>))
    ensures r.0.imports == w.imports && r.0.slices == w.slices && r.0.leases == w.leases && r.0.failures == w.failures
  {
    var w1 := if n.namespace != k.namespace then w.(serviceToImport := w.serviceToImport[k.name := n]) else w;
    var s := Service(OwnLabels(c, n), spec, "");
    if k !in w.services then (PutService(w1, k, s), None)
    else if !Owns(c, n, w.services[k]) then (w1, Some(ServiceConflict(k)))
    else if w.services[k].spec == spec then (w1, None)
    else (PutService(w1, k, s), None)
  }

  function DeleteImportService(c: Config, w: World, k: Name, n: Name): (w': World)
    ensures w'.imports == w.imports && w'.slices == w.slices && w'.leases == w.leases && w'.failures == w.failures
  {
    if k in w.services && Owns(c, n, w.services[k]) then
      w.(services := w.services - {k}, pending := w.pending + {ServiceKey(k)}, writes := w.writes + 1)
    else w
  }

  // ---------------------------------------------------------------- imports

  function PutImport(w: World, n: Name, imp: Import): World {
    w.(imports := w.imports[n := imp], pending := w.pending + {ImportKey(n)}, writes := w.writes + 1)
  }

  /** Records the outcome in the import's status, writing it only if it changed. */
  function SetStatus(w: World, n: Name, port: Condition, service: Condition): World {
    if n !in w.imports then w
    else
      var imp := w.imports[n];
      if imp.portValid == Some(port) && imp.serviceValid == Some(service) then w
      else PutImport(w, n, imp.(portValid := Some(port), serviceValid := Some(service)))
  }

  function Conclude(w: World, n: Name, port: Condition, failure: Option<Failure>): (w': World)
    ensures w'.imports.Keys == w.imports.Keys && w'.leases == w.leases
  {
    match failure
    case None => SetStatus(w, n, port, Good).(failures := w.failures - {n})
    case Some(f) => SetStatus(w, n, port, Bad(f)).(failures := w.failures[n := f])
  }

  function SystemServiceKey(c: Config, n: Name): Name {
    Name(c.namespace, if n.namespace == c.namespace then n.name else c.system(n))
  }

  function SystemSpec(c: Config, imp: Import): ServiceSpec {
    ClusterIP(c.selector, [ServicePort(imp.port, imp.targetPort)])
  }

  function UserSpec(c: Config, n: Name): ServiceSpec {
    ExternalName(c.host(c.system(n), c.namespace))
  }

  /** The services of an import that is not merged into an existing one. */
  function AddServices(c: Config, w: World, n: Name): (r: (World, Option<Failure>))
    requires n in w.imports
    ensures r.0.imports == w.imports && r.0.slices == w.slices && r.0.leases == w.leases
  {
    var (w1, failure) := AddImportService(c, w, n, SystemServiceKey(c, n), SystemSpec(c, w.imports[n]));
    if failure.Some? || n.namespace == c.namespace then (w1, failure)
    else AddImportService(c, w1, n, n, UserSpec(c, n))
  }

  /** What follows once the import has its port: copies of slices if merged, else services. */
  function Build(c: Config, w: World, n: Name): (r: (World, Option<Failure>))
    requires n in w.imports
    ensures r.0.imports == w.imports && r.0.leases == w.leases
  {
    if w.imports[n].merge then
      if n !in w.services then (w, Some(NoService))
      else (Apply(w, Wanted(c, w, DataplanePairs(c, w, n))), None)
    else
      AddServices(c, DropSlices(w, CopiesOfImport(c, w, n)), n)
  }

  /** The port the import ends up with is also written to the import if it had none. */
  function Allocate(w: World, n: Name, draws: seq<nat>): (r: (World, Option<Failure>))
    requires n in w.imports
    ensures r.0.imports.Keys == w.imports.Keys
  {
    var imp := w.imports[n];
    var (leases, out) := L.LeasePort(w.leases, n, imp.targetPort, draws);
    var w1 := w.(leases := leases);
    match out
    case Conflict(holder) => (w1, Some(PortConflict(holder)))
    case AllTaken => (w1, Some(PortsTaken))
    case Leased(port) => (if imp.targetPort == 0 then PutImport(w1, n, imp.(targetPort := port)) else w1, None)
  }

  function AddImport(c: Config, w: World, n: Name, draws: seq<nat>): (w': World)
    requires n in w.imports
    ensures w'.imports.Keys == w.imports.Keys
  {
    var (w1, failure) := Allocate(w, n, draws);
    if failure.Some? then Conclude(w1, n, Bad(failure.value), failure)
    else
      var (w2, failure) := Build(c, w1, n);
      Conclude(w2, n, Good, failure)
  }

  function DeleteImport(c: Config, w: World, n: Name): World {
    var w1 := DeleteImportService(c, w, n, n);
    var w2 := if n.namespace != c.namespace
              then DeleteImportService(c, w1, Name(c.namespace, c.system(n)), n) else w1;
    var w3 := DropSlices(w2, CopiesOfImport(c, w2, n));
    w3.(leases := w3.leases.Release(n), failures := w3.failures - {n})
  }

  /** A handler that ran out of ports is retried; the other failures wait for a change. */
  function Requeue(w: World, n: Name, key: Key): World {
    if n in w.failures && w.failures[n].PortsTaken? then w.(pending := w.pending + {key}) else w
  }

  /** The handler of an import that was written or deleted. */
  function HandleImport(c: Config, w: World, n: Name, draws: seq<nat>): World {
    var w0 := w.(pending := w.pending - {ImportKey(n)});
    if n in w.imports then Requeue(AddImport(c, w0, n, draws), n, ImportKey(n)) else DeleteImport(c, w0, n)
  }

  /** The import behind a system service. */
  function HandleSystemService(c: Config, w: World, k: Name, draws: seq<nat>): World {
    if k.namespace == c.namespace && k.name in w.serviceToImport && w.serviceToImport[k.name] in w.imports then
      var n := w.serviceToImport[k.name];
      Requeue(AddImport(c, w, n, draws), n, ServiceKey(k))
    else w
  }

  /** The handler of a service: the import of that name, then the import behind a system service. */
  function HandleService(c: Config, w: World, k: Name, draws: seq<nat>, draws': seq<nat>): World {
    var w0 := w.(pending := w.pending - {ServiceKey(k)});
    var w1 := if k in w0.imports then AddImport(c, w0, k, draws) else w0;
    if k in w0.imports && k in w1.failures then Requeue(w1, k, ServiceKey(k))
    else HandleSystemService(c, w1, k, draws')
  }

  // ---------------------------------------------------------------- runs

  datatype Event =
    | WriteImport(name: Name, spec: Import)
    | RemoveImport(name: Name)
    | WriteService(name: Name, service: Service)
    | RemoveService(name: Name)
    | WriteSlice(name: Name, slice: Slice)
    | RemoveSlice(name: Name)
    | Handle(key: Key, draws: seq<nat>, draws': seq<nat>)

  /** Users and Kubernetes may write any object of a non-empty name; handlers run for pending objects. */
  ghost predicate Enabled(w: World, e: Event) {
    match e
    case Handle(key, _, _) => key in w.pending
    case WriteImport(n, _) => n.name != ""
    case WriteSlice(n, _) => n.name != ""
    case _ => true
  }

  function Next(c: Config, w: World, e: Event): World {
    match e
    case WriteImport(n, imp) => w.(imports := w.imports[n := imp], pending := w.pending + {ImportKey(n)})
    case RemoveImport(n) => w.(imports := w.imports - {n}, pending := w.pending + {ImportKey(n)})
    case WriteService(k, s) => w.(services := w.services[k := s], pending := w.pending + {ServiceKey(k)})
    case RemoveService(k) => w.(services := w.services - {k}, pending := w.pending + {ServiceKey(k)})
    case WriteSlice(k, s) => w.(slices := w.slices[k := s], pending := w.pending + {SliceKey(k)})
    case RemoveSlice(k) => w.(slices := w.slices - {k}, pending := w.pending + {SliceKey(k)})
    case Handle(key, draws, draws') =>
      match key
      case ImportKey(n) => HandleImport(c, w, n, draws)
      case ServiceKey(k) => HandleService(c, w, k, draws, draws')
      case SliceKey(k) => HandleSlice(c, w, k)
  }

  const START := World(map[], map[], map[], L.NONE, map[], map[], {}, 0)

  function Run(c: Config, w: World, events: seq<Event>): World
    decreases |events|
  {
    if events == [] then w else Run(c, Next(c, w, events[0]), events[1..])
  }

  ghost predicate Legal(c: Config, w: World, events: seq<Event>)
    decreases |events|
  {
    events == [] || (Enabled(w, events[0]) && Legal(c, Next(c, w, events[0]), events[1..]))
  }
}
