/**
 Reconciliation comes to rest: from any world there is a number of handler steps that no run exceeds, in
 whatever order handlers run, unless all ports are taken.
 */
module Rest {
  import opened Common
  import opened Weights
  import opened Reconcile
  import opened SliceHealing
  import opened PortFailures
  import opened PortDebts
  import opened SliceRanks
  import opened Settling
  import opened ImportSettling
  import opened Termination
  import L = Ports
  import Installation
  import SliceName
  import opened ControlManager

  // ---------------------------------------------------------------- levels as numbers

  function Digits3(x: nat, t: (nat, nat, nat), base: nat): nat {
    Digit(Digit(Digit(x, t.0, base), t.1, base), t.2, base)
  }

  predicate Below3(t: (nat, nat, nat), base: nat) {
    t.0 < base && t.1 < base && t.2 < base
  }

  lemma Digits3Less(x': nat, t': (nat, nat, nat), x: nat, t: (nat, nat, nat), base: nat)
    requires Below3(t', base)
    ensures x' < x ==> Digits3(x', t', base) < Digits3(x, t, base)
    ensures x' == x && LexLess(t', t) ==> Digits3(x', t', base) < Digits3(x, t, base)
  {
    DigitLess(x', t'.0, x, t.0, base);
    var a', a := Digit(x', t'.0, base), Digit(x, t.0, base);
    DigitLess(a', t'.1, a, t.1, base);
    DigitLess(Digit(a', t'.1, base), t'.2, Digit(a, t.1, base), t.2, base);
  }

  function Height(g: Level, pending: nat, base: nat): nat {
    var ports := Digits3(g.any, g.debts, base);
    var services := Digits3(ports, g.mess, base);
    Digit(Digit(Digit(services, g.unreported, base), g.mass, base), pending, base)
  }

  predicate Digits(g: Level, pending: nat, base: nat) {
    && Below3(g.debts, base) && Below3(g.mess, base)
    && g.unreported < base && g.mass < base && pending < base
  }

  lemma HeightLess(g': Level, p': nat, g: Level, p: nat, base: nat)
    requires Digits(g', p', base) && (Lower(g', g) || (g' == g && p' < p))
    ensures Height(g', p', base) < Height(g, p, base)
  {
    Digits3Less(g'.any, g'.debts, g.any, g.debts, base);
    var a', a := Digits3(g'.any, g'.debts, base), Digits3(g.any, g.debts, base);
    Digits3Less(a', g'.mess, a, g.mess, base);
    var b', b := Digits3(a', g'.mess, base), Digits3(a, g.mess, base);
    DigitLess(b', g'.unreported, b, g.unreported, base);
    var d', d := Digit(b', g'.unreported, base), Digit(b, g.unreported, base);
    DigitLess(d', g'.mass, d, g.mass, base);
    DigitLess(Digit(d', g'.mass, base), p', Digit(d, g.mass, base), p, base);
  }

  // ---------------------------------------------------------------- bounds

  function KeysUnder(f: Roof): set<Key> {
    (set n | n in f.imports :: ImportKey(n)) + (set k | k in f.services :: ServiceKey(k))
      + (set k | k in f.room.q :: SliceKey(k))
  }

  function Heaviest(r: Room): nat {
    |r.q| * (2 * Pow(r.b, r.h))
  }

  function Base(f: Roof): nat {
    1 + |f.imports| + |f.services| + |KeysUnder(f)| + Heaviest(f.room)
  }

  lemma PendingBounded(c: Config, f: Roof, w: World)
    requires Under(c, f, w)
    ensures |w.pending| <= |KeysUnder(f)|
  {
    forall key | key in w.pending ensures key in KeysUnder(f) {
      match key
      case ImportKey(n) =>
      case ServiceKey(k) =>
      case SliceKey(k) =>
    }
    SubsetSize(w.pending, KeysUnder(f));
  }

  lemma MessBounded(c: Config, f: Roof, imports: Imports, services: Services)
    requires services.Keys <= f.services && AllKeys(c, imports) <= f.services
    ensures var m := Mess(c, imports, services); m.0 <= |f.services| && m.1 <= |f.services| && m.2 <= |f.services|
  {
    SubsetSize(Ownerless(c, imports, services), f.services);
    SubsetSize(Missing(c, imports, services), f.services);
    SubsetSize(Outdated(c, imports, services), f.services);
  }

  lemma MisreportedBounded(c: Config, f: Roof, imports: Imports, services: Services, leases: L.Leases)
    requires imports.Keys <= f.imports
    ensures |Misreported(c, imports, services, leases)| <= |f.imports|
  {
    SubsetSize(Misreported(c, imports, services, leases), f.imports);
  }

  lemma DebtsBounded(f: Roof, imports: Imports, leases: L.Leases)
    requires imports.Keys <= f.imports && leases.byName.Keys <= f.imports
    ensures var d := Debts(imports, leases); d.0 <= |f.imports| && d.1 <= |f.imports| && d.2 <= |f.imports|
  {
    SubsetSize(Leftover(imports, leases), f.imports);
    SubsetSize(Moving(imports, leases), f.imports);
    SubsetSize(Unrecorded(imports, leases), f.imports);
  }

  lemma MassBounded(c: Config, r: Room, w: World)
    requires Spacious(r)
    ensures Mass(c, r, w) <= Heaviest(r)
  {
    TotalBound(r.q, Ranks(c, w), r.b, r.h);
  }

  lemma GaugeBounded(c: Config, f: Roof, w: World)
    requires Under(c, f, w)
    ensures Digits(Gauge(c, f.room, w), |w.pending|, Base(f))
  {
    PendingBounded(c, f, w);
    MessBounded(c, f, w.imports, w.services);
    MisreportedBounded(c, f, w.imports, w.services, w.leases);
    DebtsBounded(f, w.imports, w.leases);
    MassBounded(c, f.room, w);
  }

  ghost function HeightOf(c: Config, f: Roof, w: World): nat
    requires Spacious(f.room)
  {
    Height(Gauge(c, f.room, w), |w.pending|, Base(f))
  }

  /** Every handler step leads further down. */
  lemma StepDown(c: Config, f: Roof, w: World, e: Event)
    requires Under(c, f, w) && e.Handle? && e.key in w.pending && Provided(c, w, e)
    ensures Under(c, f, Next(c, w, e)) && HeightOf(c, f, Next(c, w, e)) < HeightOf(c, f, w)
  {
    var w0, w' := w.(pending := w.pending - {e.key}), Next(c, w, e);
    StepSettles(c, f.room, w, e, w0);
    StepUnder(c, f, w, e);
    GaugeBounded(c, f, w');
    if Unmoved(w0, w') {
      CrossedOffUnder(c, f, w, e.key, w0);
      UnmovedGauge(c, f.room, w0, w');
      RemovedSize(w.pending, e.key);
    }
    HeightLess(Gauge(c, f.room, w'), |w'.pending|, Gauge(c, f.room, w), |w.pending|, Base(f));
  }

  // ---------------------------------------------------------------- a roof for any world

  lemma {:induction false} Listing(s: set<Name>) returns (q: seq<Name>)
    ensures Distinct(q) && Elements(q) == s
    decreases s
  {
    if s == {} {
      q := [];
    } else {
      var x :| x in s;
      var p := Listing(s - {x});
      DistinctSnoc(p, x);
      q := p + [x];
    }
  }

  lemma {:induction false} Longest(q: seq<Name>) returns (h: nat)
    ensures Short(q, h)
  {
    if q == [] {
      h := 0;
    } else {
      var g := Longest(q[1..]);
      h := if |q[0].name| > g then |q[0].name| else g;
      assert forall k :: k in q <==> k == q[0] || k in q[1..];
    }
  }

  function PendingSlices(w: World): set<Name> {
    set key | key in w.pending && key.SliceKey? :: key.name
  }

  function PendingImports(w: World): set<Name> {
    set key | key in w.pending && key.ImportKey? :: key.name
  }

  function PendingServices(w: World): set<Name> {
    set key | key in w.pending && key.ServiceKey? :: key.name
  }

  function RealKey(c: Config, k: Name): Name {
    if c.parse(k.name).Some? then CopyKey(c, ImportOf(c, k), SliceOf(c, k).name) else k
  }

  function Seen(w: World): set<Name> {
    w.slices.Keys + PendingSlices(w)
  }

  ghost function Copies(c: Config, w: World): set<Name> {
    set n, d | n in w.imports && d in w.slices && IsDataplane(c, d, w.slices[d]) :: CopyKey(c, n, d.name)
  }

  ghost function SliceNames(c: Config, w: World): set<Name> {
    Seen(w) + (set k | k in Seen(w) :: RealKey(c, k)) + Copies(c, w)
  }

  lemma RealKeyIsReal(c: Config, k: Name)
    requires GoodCodec(c)
    ensures RealKey(c, RealKey(c, k)) == RealKey(c, k)
  {
    if c.parse(k.name).Some? {
      CopyKeyReads(c, ImportOf(c, k), SliceOf(c, k));
    }
  }

  lemma CopiesAreReal(c: Config, w: World, k: Name)
    requires GoodCodec(c) && NamesOk(w) && k in Copies(c, w)
    ensures RealKey(c, k) == k
  {
    var n, d :| n in w.imports && d in w.slices && IsDataplane(c, d, w.slices[d]) && k == CopyKey(c, n, d.name);
    CopyKeyReads(c, n, d);
  }

  lemma NamesClosed(c: Config, w: World, k: Name)
    requires GoodCodec(c) && NamesOk(w) && k in SliceNames(c, w)
    ensures RealKey(c, k) in SliceNames(c, w)
  {
    if k in Copies(c, w) {
      CopiesAreReal(c, w, k);
    } else if k !in Seen(w) {
      var x :| x in Seen(w) && k == RealKey(c, x);
      RealKeyIsReal(c, x);
    }
  }

  lemma RoomFor(c: Config, w: World) returns (r: Room)
    requires Tame(c, w)
    ensures Fits(c, r, w)
  {
    var names := SliceNames(c, w);
    var q := Listing(names);
    var h := Longest(q);
    r := Room(q, 2 * |q| + 1, h);
    assert forall k :: k in q <==> k in names by {
      assert forall k :: k in q <==> k in Elements(q);
    }
    forall k | SliceKey(k) in w.pending ensures k in names {
      assert SliceKey(k).name in PendingSlices(w);
    }
    forall k | k in names && c.parse(k.name).Some? ensures CopyKey(c, ImportOf(c, k), SliceOf(c, k).name) in names {
      NamesClosed(c, w, k);
    }
  }

  lemma RoofFor(c: Config, w: World) returns (f: Roof)
    requires Tame(c, w)
    ensures Under(c, f, w)
  {
    var r := RoomFor(c, w);
    f := Roof(r, w.imports.Keys + w.leases.byName.Keys + PendingImports(w),
        w.services.Keys + PendingServices(w) + AllKeys(c, w.imports));
    forall n | ImportKey(n) in w.pending ensures n in f.imports {
      assert ImportKey(n).name in PendingImports(w);
    }
    forall k | ServiceKey(k) in w.pending ensures k in f.services {
      assert ServiceKey(k).name in PendingServices(w);
    }
  }

  // ---------------------------------------------------------------- runs of handlers

  predicate OnlyHandlers(events: seq<Event>) {
    forall i :: 0 <= i < |events| ==> events[i].Handle?
  }

  /** A run of handlers only, none of which finds all ports taken. */
  ghost predicate Handlers(c: Config, w: World, events: seq<Event>) {
    OnlyHandlers(events) && Legal(c, w, events) && AllProvided(c, w, events)
  }

  lemma {:induction false} RunDown(c: Config, f: Roof, w: World, events: seq<Event>)
    requires Under(c, f, w) && Handlers(c, w, events)
    ensures |events| <= HeightOf(c, f, w)
    decreases |events|
  {
    if events != [] {
      var w1 := DownOne(c, f, w, events);
      RunDown(c, f, w1, events[1..]);
    }
  }

  lemma DownOne(c: Config, f: Roof, w: World, events: seq<Event>) returns (w1: World)
    requires Under(c, f, w) && Handlers(c, w, events) && events != []
    ensures Under(c, f, w1) && HeightOf(c, f, w1) < HeightOf(c, f, w)
    ensures Handlers(c, w1, events[1..])
  {
    w1 := Next(c, w, events[0]);
    StepDown(c, f, w, events[0]);
  }

  /**
   From any world, in which no merge import is named like the dataplane's own service, there is a number of
   steps that no run of handlers exceeds, whatever their order, whatever ports are drawn and whichever
   are refused, unless an import that asks for any port finds all of them taken.
   */
  lemma HandlersEnd(c: Config, w: World) returns (bound: nat)
    requires Tame(c, w)
    ensures forall events :: Handlers(c, w, events) ==> |events| <= bound
  {
    var f := RoofFor(c, w);
    bound := HeightOf(c, f, w);
    forall events | Handlers(c, w, events) ensures |events| <= bound {
      RunDown(c, f, w, events);
    }
  }

  /** Nothing is pending, or what is pending finds all ports taken. */
  ghost predicate AtRest(c: Config, w: World) {
    forall key :: key in w.pending ==> !Provided(c, w, Handle(key, [], []))
  }

  /** A run of handlers that ends at rest. */
  ghost predicate Restful(c: Config, w: World, events: seq<Event>) {
    Handlers(c, w, events) && AtRest(c, Run(c, w, events))
  }

  lemma HandlersCons(c: Config, w: World, e: Event, rest: seq<Event>)
    requires e.Handle? && e.key in w.pending && Provided(c, w, e)
    requires Handlers(c, Next(c, w, e), rest)
    ensures var events := [e] + rest;
            && Handlers(c, w, events)
            && Run(c, w, events) == Run(c, Next(c, w, e), rest)
  {
    assert ([e] + rest)[1..] == rest;
  }

  lemma {:induction false} RunToRest(c: Config, f: Roof, w: World, height: nat) returns (events: seq<Event>)
    requires Under(c, f, w) && height == HeightOf(c, f, w)
    ensures Restful(c, w, events)
    decreases height
  {
    if AtRest(c, w) {
      events := [];
    } else {
      var key :| key in w.pending && Provided(c, w, Handle(key, [], []));
      var e := Handle(key, [], []);
      StepDown(c, f, w, e);
      var rest := RunToRest(c, f, Next(c, w, e), HeightOf(c, f, Next(c, w, e)));
      HandlersCons(c, w, e, rest);
      events := [e] + rest;
    }
  }

  /** So handlers can always be run until nothing is pending, or all ports are taken. */
  lemma RestIsReached(c: Config, w: World) returns (events: seq<Event>)
    requires Tame(c, w)
    ensures Restful(c, w, events)
  {
    var f := RoofFor(c, w);
    events := RunToRest(c, f, w, HeightOf(c, f, w));
  }

  // ---------------------------------------------------------------- an import named like the dataplane's own service

  ghost predicate Lengthens(c: Config) {
    forall i, s :: |c.get(i, s)| > |s|
  }

  /** A merge import is named like the dataplane's service, and the dataplane slice with the longest name is pending. */
  ghost predicate Spiral(c: Config, w: World, n: Name, d: Name) {
    && GoodCodec(c) && Lengthens(c) && NamesOk(w) && n == Name(c.namespace, c.ingress) && LiveMerge(w, n)
    && LongestDataplane(c, w, d) && SliceKey(d) in w.pending
  }

  ghost predicate LongestDataplane(c: Config, w: World, d: Name) {
    Disguised(c, w, d) && forall k :: Disguised(c, w, k) ==> |k.name| <= |d.name|
  }

  /** The copy made for that import is a dataplane slice too. */
  lemma CopyIsDataplane(c: Config, w: World, n: Name, d: Name, s: Slice)
    requires n == Name(c.namespace, c.ingress) && n in w.imports && d in w.slices
    requires Agrees(Desired(c, n, w.imports[n], d.name, w.slices[d]), s)
    ensures IsDataplane(c, CopyKey(c, n, d.name), s)
  {
    DesiredLabels(c, n, w.imports[n], d.name, w.slices[d], s);
  }

  lemma CopyMade(c: Config, w: World, n: Name, d: Name, w0: World)
    requires Spiral(c, w, n, d) && w0 == w.(pending := w.pending - {SliceKey(d)})
    ensures var k, w' := CopyKey(c, n, d.name), HandleSlice(c, w, d);
            k in w'.slices && w'.slices[k] == Desired(c, n, w.imports[n], d.name, w.slices[d])
              && SliceKey(k) in w'.pending
  {
    var k, pairs := CopyKey(c, n, d.name), MergePairs(w0, d.name);
    assert (n, d.name) in pairs;
    WantedHas(c, w0, pairs, n, d);
    if k in w.slices && Agrees(Wanted(c, w0, pairs)[k], w.slices[k]) {
      CopyIsDataplane(c, w0, n, d, w.slices[k]);
      assert false;
    }
    assert k in Stale(w0.slices, Wanted(c, w0, pairs));
  }

  lemma OnlyOneDataplane(c: Config, w: World, n: Name, d: Name, w0: World, x: Name)
    requires Spiral(c, w, n, d) && w0 == w.(pending := w.pending - {SliceKey(d)})
    requires Disguised(c, HandleSlice(c, w, d), x)
    ensures Disguised(c, w, x) || x == CopyKey(c, n, d.name)
  {
    var pairs := MergePairs(w0, d.name);
    var wanted := Wanted(c, w0, pairs);
    if !Same(w0, Apply(w0, wanted), x) {
      AppliedHere(w0, wanted, x);
      DataplaneCopy(c, w0, d, x);
    }
  }

  lemma DataplaneCopy(c: Config, w: World, d: Name, x: Name)
    requires GoodCodec(c) && NamesOk(w) && Disguised(c, w, d)
    requires var wanted := Wanted(c, w, MergePairs(w, d.name)); x in wanted && IsDataplane(c, x, wanted[x])
    ensures x == CopyKey(c, Name(c.namespace, c.ingress), d.name)
  {
    assert Name(c.namespace, d.name) == d;
    WantedIsWanting(c, w, MergePairs(w, d.name), x);
    var p :| p in MergePairs(w, d.name) && x == CopyKey(c, p.0, p.1);
    CopyKeyReads(c, p.0, d);
  }

  /** The copy has a longer name, and is pending. */
  lemma SpiralTurns(c: Config, w: World, n: Name, d: Name)
    requires Spiral(c, w, n, d)
    ensures Spiral(c, HandleSlice(c, w, d), n, CopyKey(c, n, d.name))
  {
    var w0, w', k := w.(pending := w.pending - {SliceKey(d)}), HandleSlice(c, w, d), CopyKey(c, n, d.name);
    CopyMade(c, w, n, d, w0);
    CopyLongest(c, w, n, d, w0);
    ApplyNames(c, w0, MergePairs(w0, d.name));
    assert w'.imports == w.imports;
  }

  lemma CopyLongest(c: Config, w: World, n: Name, d: Name, w0: World)
    requires Spiral(c, w, n, d) && w0 == w.(pending := w.pending - {SliceKey(d)})
    ensures LongestDataplane(c, HandleSlice(c, w, d), CopyKey(c, n, d.name))
  {
    var w', k := HandleSlice(c, w, d), CopyKey(c, n, d.name);
    CopyMade(c, w, n, d, w0);
    CopyIsDataplane(c, w, n, d, w'.slices[k]);
    forall x | Disguised(c, w', x) ensures |x.name| <= |k.name| {
      OnlyOneDataplane(c, w, n, d, w0, x);
    }
  }

  function Dataplanes(c: Config, w: World): set<Name> {
    set k | k in w.slices && IsDataplane(c, k, w.slices[k])
  }

  lemma {:induction false} LongestOf(s: set<Name>) returns (x: Name)
    requires s != {}
    ensures x in s && forall k :: k in s ==> |k.name| <= |x.name|
    decreases s
  {
    x :| x in s;
    if s != {x} {
      var y := LongestOf(s - {x});
      if |x.name| < |y.name| {
        x := y;
      }
    }
  }

  /**
   With that import merged and reconciled, and any dataplane slice there, nothing is ever at rest: in every
   legal run, whatever was handled so far, something is pending.
   */
  lemma NeverQuiet(c: Config, events: seq<Event>, w: World, n: Name, d: Name)
    requires GoodCodec(c) && Lengthens(c) && Legal(c, START, events) && w == Run(c, START, events)
    requires n == Name(c.namespace, c.ingress) && LiveMerge(w, n) && n !in w.failures && Disguised(c, w, d)
    ensures w.pending != {}
  {
    if w.pending == {} {
      QuietMeansConsistent(c, events, w);
      assert d in Dataplanes(c, w);
      var x := LongestOf(Dataplanes(c, w));
      assert UpToDate(c, w, n, x);
      if Current(c, w, n, x) {
        CopyIsDataplane(c, w, n, x, w.slices[CopyKey(c, n, x.name)]);
      }
      assert false;
    }
  }

  /** Copies of copies are made without end: for any number of steps there is a run of handlers that long. */
  lemma {:induction false} HandlersNeverEnd(
    c: Config, w: World, n: Name, d: Name, steps: nat) returns (events: seq<Event>)
    requires Spiral(c, w, n, d)
    ensures Handlers(c, w, events) && |events| == steps
    decreases steps
  {
    if steps == 0 {
      events := [];
    } else {
      var w1, d1 := Turn(c, w, n, d);
      var rest := HandlersNeverEnd(c, w1, n, d1, steps - 1);
      events := [Handle(SliceKey(d), [], [])] + rest;
    }
  }

  lemma Turn(c: Config, w: World, n: Name, d: Name) returns (w1: World, d1: Name)
    requires Spiral(c, w, n, d)
    ensures Spiral(c, w1, n, d1)
    ensures forall rest :: Handlers(c, w1, rest) ==> Handlers(c, w, [Handle(SliceKey(d), [], [])] + rest)
  {
    w1, d1 := HandleSlice(c, w, d), CopyKey(c, n, d.name);
    SpiralTurns(c, w, n, d);
    forall rest | Handlers(c, w1, rest) ensures Handlers(c, w, [Handle(SliceKey(d), [], [])] + rest) {
      HandlersCons(c, w, Handle(SliceKey(d), [], []), rest);
    }
  }

  /** Such a world is two writes away from an empty cluster. */
  lemma SpiralStarts(c: Config, d: Name, slice: Slice)
    requires GoodCodec(c) && Lengthens(c) && c.ingress != "" && d.name != "" && IsDataplane(c, d, slice)
    ensures var n := Name(c.namespace, c.ingress);
            var events := [WriteImport(n, Import(true, 1, 1, None, None)), WriteSlice(d, slice)];
            Legal(c, START, events) && Spiral(c, Run(c, START, events), n, d)
  {
    var n := Name(c.namespace, c.ingress);
    var first, second := WriteImport(n, Import(true, 1, 1, None, None)), WriteSlice(d, slice);
    var w1 := Next(c, START, first);
    var w2 := Next(c, w1, second);
    assert [first, second][1..] == [second] && [second][1..] == [];
    assert Run(c, w1, [second]) == Run(c, w2, []) == w2;
    assert Run(c, START, [first, second]) == w2;
    assert w2.slices == map[d := slice];
    assert Legal(c, w2, []) && Legal(c, w1, [second]);
  }

  // ---------------------------------------------------------------- an import that finds all ports taken

  predicate Full(w: World, n: Name) {
    && n in w.imports && w.imports[n].targetPort == 0 && |w.leases.byPort| == L.PORT_COUNT
    && ImportKey(n) in w.pending
  }

  lemma FullStays(c: Config, w: World, n: Name)
    requires Full(w, n)
    ensures Full(HandleImport(c, w, n, []), n)
  {
    var w0 := w.(pending := w.pending - {ImportKey(n)});
    assert Allocate(w0, n, []) == (w0, Some(PortsTaken));
    ConcludeFull(w0, n);
  }

  lemma ConcludeFull(w: World, n: Name)
    requires n in w.imports && w.imports[n].targetPort == 0
    ensures var w' := Conclude(w, n, Bad(PortsTaken), Some(PortsTaken));
            && n in w'.imports && w'.imports[n].targetPort == 0 && w'.leases == w.leases
            && n in w'.failures && w'.failures[n] == PortsTaken
  {
  }

  /** It is retried for ever: for any number of steps there is a run of handlers that long. */
  lemma {:induction false} RetriedForever(c: Config, w: World, n: Name, steps: nat) returns (events: seq<Event>)
    requires Full(w, n)
    ensures OnlyHandlers(events) && Legal(c, w, events) && |events| == steps
    decreases steps
  {
    if steps == 0 {
      events := [];
    } else {
      var e := Handle(ImportKey(n), [], []);
      FullStays(c, w, n);
      var rest := RetriedForever(c, HandleImport(c, w, n, []), n, steps - 1);
      events := [e] + rest;
      assert events[1..] == rest;
    }
  }

  // ---------------------------------------------------------------- the deployed system

  lemma {:induction false} RunOn(c: Config, w: World, events: seq<Event>, more: seq<Event>)
    requires Legal(c, w, events) && Legal(c, Run(c, w, events), more)
    ensures Legal(c, w, events + more) && Run(c, w, events + more) == Run(c, Run(c, w, events), more)
    decreases |events|
  {
    if events == [] {
      assert events + more == more;
    } else {
      RunOn(c, Next(c, w, events[0]), events[1..], more);
      assert (events + more)[1..] == events[1..] + more;
    }
  }

  lemma DeployedShrinks(namespace: string, system: Name -> string)
    ensures Shrinks(Installation.Deployed(namespace, system))
  {
    var c := Installation.Deployed(namespace, system);
    forall s | c.parse(s).Some? ensures |c.parse(s).value.1| < |s| {
      SliceName.ParseIsShorter(s);
    }
  }

  /**
   With an import named like the dataplane's own service, handlers of the deployed system can go on for any
   number of steps.
   */
  lemma DeployedNeverEnds(namespace: string, system: Name -> string, c: Config, steps: nat)
    returns (writes: seq<Event>, events: seq<Event>)
    requires c == Installation.Deployed(namespace, system)
    ensures Legal(c, START, writes) && Handlers(c, Run(c, START, writes), events) && |events| == steps
  {
    Installation.DeployedCodec(namespace, system);
    forall i, s ensures |c.get(i, s)| > |s| {
      SliceName.GetIsLonger(i, s);
    }
    var n, d := Name(c.namespace, c.ingress), Name(namespace, "d");
    var slice := Slice(map[ServiceName := c.ingress], true, [], []);
    SpiralStarts(c, d, slice);
    writes := [WriteImport(n, Import(true, 1, 1, None, None)), WriteSlice(d, slice)];
    events := HandlersNeverEnd(c, Run(c, START, writes), n, d, steps);
  }

  /**
   Eventual consistency. However a run of the deployed system goes, from then on only so many handler
   steps are possible; handlers can be run to rest; and at any rest with nothing pending, copies are
   founded and up to date.
   */
  lemma EventuallyConsistent(namespace: string, system: Name -> string, c: Config, events: seq<Event>, w: World)
    returns (bound: nat, more: seq<Event>)
    requires c == Installation.Deployed(namespace, system) && Legal(c, START, events) && w == Run(c, START, events)
    requires !LiveMerge(w, Name(c.namespace, c.ingress))
    ensures forall on :: Handlers(c, w, on) ==> |on| <= bound
    ensures Restful(c, w, more)
    ensures forall on :: Legal(c, w, on) && Run(c, w, on).pending == {} ==> Consistent(c, Run(c, w, on))
  {
    Installation.DeployedCodec(namespace, system);
    DeployedShrinks(namespace, system);
    assert Safe(c, START);
    RunSafe(c, START, events);
    bound := HandlersEnd(c, w);
    more := RestIsReached(c, w);
    forall on | Legal(c, w, on) && Run(c, w, on).pending == {} ensures Consistent(c, Run(c, w, on)) {
      RunOn(c, START, events, on);
      QuietMeansConsistent(c, events + on, Run(c, w, on));
    }
  }

  ghost predicate Consistent(c: Config, w: World) {
    (forall k :: Founded(c, w, k)) && (forall n, d :: UpToDate(c, w, n, d))
  }
}
