/**
 Where the guarantee on slice copies ends: a slice whose name parses as a copy's name, but is not the
 name that would be built, can be left behind without its import.
 */
module Orphans {
  import opened Common
  import opened Reconcile
  import opened SliceHealing
  import opened ControlManager
  import opened PortFailures
  import Installation
  import SliceName

  /**
   In every run that always finds ports available and comes to rest, the slice is gone or has its merge import
   and its dataplane slice.
   */
  ghost predicate NeverOrphaned(c: Config, k: Name)
    requires c.parse(k.name).Some?
  {
    forall events: seq<Event> ::
      Legal(c, START, events) && AllServed(c, START, events) ==> RestsWell(c, k, Run(c, START, events))
  }

  ghost predicate RestsWell(c: Config, k: Name, w: World)
    requires c.parse(k.name).Some?
  {
    w.pending == {} && k in w.slices && !IsDataplane(c, k, w.slices[k]) ==>
      LiveMerge(w, ImportOf(c, k)) && SliceOf(c, k) in w.slices
  }

  // ---------------------------------------------------------------- a run that leaves an orphan

  const BLANK := Slice(map[], true, [], [])
  const MERGED := Import(true, 1, 1, None, None)

  function DataplaneOf(c: Config): Slice {
    BLANK.(labels := map[ServiceName := c.ingress])
  }

  /** A world without services, leases or failures. */
  function Plain(imports: map<Name, Import>, slices: map<Name, Slice>, pending: set<Key>, writes: nat): World {
    START.(imports := imports, slices := slices, pending := pending, writes := writes)
  }

  /** Some run leads from one world to the other; if `served`, one that always finds ports available. */
  ghost predicate Reaches(c: Config, w: World, w': World, served: bool) {
    exists events: seq<Event> ::
      Legal(c, w, events) && Run(c, w, events) == w' && (served ==> AllServed(c, w, events))
  }

  lemma ReachesItself(c: Config, w: World, served: bool)
    ensures Reaches(c, w, w, served)
  {
    assert Legal(c, w, []) && Run(c, w, []) == w && AllServed(c, w, []);
  }

  lemma ReachesBack(c: Config, w: World, e: Event, w': World, w'': World, served: bool)
    requires Enabled(w, e) && Next(c, w, e) == w' && Reaches(c, w', w'', served) && (served ==> Served(c, w, e))
    ensures Reaches(c, w, w'', served)
  {
    var rest :| Legal(c, w', rest) && Run(c, w', rest) == w'' && (served ==> AllServed(c, w', rest));
    var events := [e] + rest;
    assert events[1..] == rest;
    assert Legal(c, w, events) && Run(c, w, events) == w'' && (served ==> AllServed(c, w, events));
  }

  /** A dataplane slice, and a slice in the way: named like a copy, blank otherwise. */
  ghost predicate Scene(c: Config, slices: map<Name, Slice>, k: Name, d: Name) {
    && d.namespace == c.namespace && k != d && d.name != "" && k.name != ""
    && slices.Keys == {d, k} && slices[d] == DataplaneOf(c) && slices[k] == BLANK
  }

  lemma ReadTheCopyKey(c: Config, k: Name)
    requires GoodCodec(c) && c.parse(k.name).Some? && !Canonical(c, k)
    ensures var n, d := ImportOf(c, k), SliceOf(c, k);
            var ck := CopyKey(c, n, d.name);
            && n.name != "" && d.name != "" && k.name != "" && d.namespace == c.namespace && ck != k
            && c.parse(ck.name).Some? && ImportOf(c, ck) == n && ck.namespace == n.namespace
  {
    CopyKeyReads(c, ImportOf(c, k), SliceOf(c, k));
  }

  lemma HandleDataplane(c: Config, d: Name, w': World, served: bool)
    requires d.namespace == c.namespace && Reaches(c, Plain(map[], map[d := DataplaneOf(c)], {}, 0), w', served)
    ensures Reaches(c, Plain(map[], map[d := DataplaneOf(c)], {SliceKey(d)}, 0), w', served)
  {
    var w0, w := Plain(map[], map[d := DataplaneOf(c)], {}, 0),
      Plain(map[], map[d := DataplaneOf(c)], {SliceKey(d)}, 0);
    NothingToCopy(c, w, d, w0);
    ReachesBack(c, w, Handle(SliceKey(d), [], []), w0, w', served);
  }

  lemma NothingToCopy(c: Config, w: World, d: Name, w0: World)
    requires w.imports == map[] && d in w.slices && IsDataplane(c, d, w.slices[d])
    requires w0 == w.(pending := w.pending - {SliceKey(d)})
    ensures HandleSlice(c, w, d) == w0
  {
    assert MergePairs(w0, d.name) == {};
    WantNone(c, w0);
    ApplyNone(w0);
  }

  lemma FirstSteps(c: Config, slices: map<Name, Slice>, k: Name, n: Name, d: Name, w': World)
    requires Scene(c, slices, k, d) && n.name != ""
    requires Reaches(c, Plain(map[n := MERGED], slices, {ImportKey(n), SliceKey(k)}, 0), w', true)
    ensures Reaches(c, START, w', true)
  {
    var dp := DataplaneOf(c);
    var w3 := Plain(map[n := MERGED], map[d := dp], {ImportKey(n)}, 0);
    assert map[d := dp][k := BLANK] == slices;
    ReachesBack(c, w3, WriteSlice(k, BLANK), Plain(map[n := MERGED], slices, {ImportKey(n), SliceKey(k)}, 0), w', true);
    ReachesBack(c, Plain(map[], map[d := dp], {}, 0), WriteImport(n, MERGED), w3, w', true);
    HandleDataplane(c, d, w', true);
    ReachesBack(c, START, WriteSlice(d, dp), Plain(map[], map[d := dp], {SliceKey(d)}, 0), w', true);
  }

  /** The slice in the way makes its handler build the copy it is not. */
  lemma BuildTheRealCopy(
    c: Config, slices: map<Name, Slice>, k: Name, n: Name, d: Name, ck: Name, want: Slice, w': World)
    requires GoodCodec(c) && Scene(c, slices, k, d) && n.name != ""
    requires c.parse(k.name).Some? && n == ImportOf(c, k) && d == SliceOf(c, k)
    requires ck == CopyKey(c, n, d.name) && ck !in slices && want == Desired(c, n, MERGED, d.name, DataplaneOf(c))
    requires Reaches(c, Plain(map[n := MERGED], slices[ck := want], {ImportKey(n), SliceKey(ck)}, 1), w', true)
    ensures Reaches(c, Plain(map[n := MERGED], slices, {ImportKey(n), SliceKey(k)}, 0), w', true)
  {
    var w := Plain(map[n := MERGED], slices, {ImportKey(n), SliceKey(k)}, 0);
    var w0 := Plain(map[n := MERGED], slices, {ImportKey(n)}, 0);
    assert {ImportKey(n), SliceKey(k)} - {SliceKey(k)} == {ImportKey(n)};
    assert {ImportKey(n)} + {SliceKey(ck)} == {ImportKey(n), SliceKey(ck)};
    var next := Plain(map[n := MERGED], slices[ck := want], {ImportKey(n), SliceKey(ck)}, 1);
    HealTheCopy(c, w, k, w0, n, d, ck, want, next, w', true);
  }

  lemma HealTheCopy(
    c: Config, w: World, k: Name, w0: World, n: Name, d: Name, ck: Name, want: Slice, next: World, w': World,
    served: bool)
    requires GoodCodec(c) && NamesOk(w) && k in w.slices && !IsDataplane(c, k, w.slices[k])
    requires c.parse(k.name).Some? && n == ImportOf(c, k) && d == SliceOf(c, k) && ck == CopyKey(c, n, d.name)
    requires n in w.imports && w.imports[n].merge && d in w.slices
    requires want == Desired(c, n, w.imports[n], d.name, w.slices[d])
    requires SliceKey(k) in w.pending && w0 == w.(pending := w.pending - {SliceKey(k)})
    requires next == PutIfStale(w0, ck, want) && Reaches(c, next, w', served)
    ensures Reaches(c, w, w', served)
  {
    BuildsTheRealCopy(c, w, k, w0, n, d, ck, want);
    ReachesBack(c, w, Handle(SliceKey(k), [], []), next, w', served);
  }

  lemma BuildsTheRealCopy(c: Config, w: World, k: Name, w0: World, n: Name, d: Name, ck: Name, want: Slice)
    requires GoodCodec(c) && NamesOk(w) && k in w.slices && !IsDataplane(c, k, w.slices[k])
    requires c.parse(k.name).Some? && n == ImportOf(c, k) && d == SliceOf(c, k) && ck == CopyKey(c, n, d.name)
    requires n in w.imports && w.imports[n].merge && d in w.slices
    requires want == Desired(c, n, w.imports[n], d.name, w.slices[d])
    requires w0 == w.(pending := w.pending - {SliceKey(k)})
    ensures HandleSlice(c, w, k) == PutIfStale(w0, ck, want)
  {
    CheckJustOne(c, w0, n, d);
  }

  /** Deleting the import deletes the copy it has, by its labels, and not the slice in the way. */
  lemma DeleteTheRealCopy(
    c: Config, slices: map<Name, Slice>, k: Name, n: Name, d: Name, ck: Name, want: Slice, w': World)
    requires Scene(c, slices, k, d) && ck.namespace == n.namespace && ck !in slices
    requires want == Desired(c, n, MERGED, d.name, DataplaneOf(c))
    requires Reaches(c, Plain(map[], slices, {SliceKey(ck)}, 2), w', true)
    ensures Reaches(c, Plain(map[], slices[ck := want], {ImportKey(n), SliceKey(ck)}, 1), w', true)
  {
    var w := Plain(map[], slices[ck := want], {ImportKey(n), SliceKey(ck)}, 1);
    var w0 := Plain(map[], slices[ck := want], {SliceKey(ck)}, 1);
    OnlyTheRealCopy(c, slices, k, n, d, ck, want);
    DropJustOne(w0, ck);
    assert slices[ck := want] - {ck} == slices;
    assert w.(pending := w.pending - {ImportKey(n)}) == w0;
    NoServices(c, w0, n);
    assert START.leases.Release(n) == START.leases && START.failures - {n} == START.failures;
    ReachesBack(c, w, Handle(ImportKey(n), [], []), Plain(map[], slices, {SliceKey(ck)}, 2), w', true);
  }

  lemma OnlyTheRealCopy(c: Config, slices: map<Name, Slice>, k: Name, n: Name, d: Name, ck: Name, want: Slice)
    requires Scene(c, slices, k, d) && ck.namespace == n.namespace && ck !in slices
    requires want == Desired(c, n, MERGED, d.name, DataplaneOf(c))
    ensures CopiesOfImport(c, Plain(map[], slices[ck := want], {SliceKey(ck)}, 1), n) == {ck}
  {
  }

  lemma NoServices(c: Config, w: World, n: Name)
    requires w.services == map[]
    ensures DeleteImport(c, w, n)
         == DropSlices(w, CopiesOfImport(c, w, n)).(leases := w.leases.Release(n), failures := w.failures - {n})
  {
    assert DeleteImportService(c, w, n, n) == w;
    assert DeleteImportService(c, w, Name(c.namespace, c.system(n)), n) == w;
  }

  /** The deletion of the copy is handled without further ado. */
  lemma NothingToDelete(c: Config, slices: map<Name, Slice>, k: Name, d: Name, ck: Name, w': World)
    requires Scene(c, slices, k, d) && ck !in slices && c.parse(ck.name).Some?
    requires Reaches(c, Plain(map[], slices, {}, 2), w', true)
    ensures Reaches(c, Plain(map[], slices, {SliceKey(ck)}, 2), w', true)
  {
    var w, w0 := Plain(map[], slices, {SliceKey(ck)}, 2), Plain(map[], slices, {}, 2);
    DropJustOne(w0, ck);
    assert CheckEndpointSlice(c, w0, ck) == w0;
    assert CopiesOfSlice(c, w0, ck.name) == {};
    DropNone(w0);
    assert w.(pending := w.pending - {SliceKey(ck)}) == w0;
    ReachesBack(c, w, Handle(SliceKey(ck), [], []), w0, w', true);
  }

  lemma DropTheImport(c: Config, slices: map<Name, Slice>, n: Name, pending: set<Key>, w': World)
    requires ImportKey(n) in pending && Reaches(c, Plain(map[], slices, pending, 1), w', true)
    ensures Reaches(c, Plain(map[n := MERGED], slices, pending, 1), w', true)
  {
    assert map[n := MERGED] - {n} == map[];
    assert pending + {ImportKey(n)} == pending;
    ReachesBack(c, Plain(map[n := MERGED], slices, pending, 1), RemoveImport(n), Plain(map[], slices, pending, 1),
        w', true);
  }

  /** A name that parses but would not be built is left behind by some run. */
  lemma LeftBehind(c: Config, k: Name)
    requires GoodCodec(c) && c.parse(k.name).Some? && !Canonical(c, k)
    requires SliceOf(c, k) != k && CopyKey(c, ImportOf(c, k), SliceOf(c, k).name) != SliceOf(c, k)
    ensures !NeverOrphaned(c, k)
  {
    var n, d := ImportOf(c, k), SliceOf(c, k);
    var ck := CopyKey(c, n, d.name);
    var slices, want := map[d := DataplaneOf(c), k := BLANK], Desired(c, n, MERGED, d.name, DataplaneOf(c));
    var rest := Plain(map[], slices, {}, 2);
    ReadTheCopyKey(c, k);
    ReachesItself(c, rest, true);
    NothingToDelete(c, slices, k, d, ck, rest);
    DeleteTheRealCopy(c, slices, k, n, d, ck, want, rest);
    DropTheImport(c, slices[ck := want], n, {ImportKey(n), SliceKey(ck)}, rest);
    BuildTheRealCopy(c, slices, k, n, d, ck, want, rest);
    FirstSteps(c, slices, k, n, d, rest);
    assert !RestsWell(c, k, rest);
  }

  // ---------------------------------------------------------------- exactly which names are safe

  lemma CanonicalNeverOrphaned(c: Config, k: Name)
    requires GoodCodec(c) && Canonical(c, k)
    ensures NeverOrphaned(c, k)
  {
    forall events: seq<Event> | Legal(c, START, events) && AllServed(c, START, events)
      ensures RestsWell(c, k, Run(c, START, events))
    {
      var w := Run(c, START, events);
      if w.pending == {} && k in w.slices && !IsDataplane(c, k, w.slices[k]) {
        ServedMeansNoOrphans(c, events, w, k);
      }
    }
  }

  /**
   In the deployed system, a name that parses as a copy's name is never left behind by any run exactly
   when it is spelled as it would be built: the length in plain decimal, and a dash after the import.
   */
  lemma NeverOrphanedExactly(namespace: string, system: Name -> string, k: Name)
    requires SliceName.Parse(k.name).Some?
    ensures var parts := SliceName.Split3(k.name).value;
            var imp := SliceName.Parse(k.name).value.0;
            NeverOrphaned(Installation.Deployed(namespace, system), k)
            <==> parts.1 == SliceName.Print(|imp|) && parts.2[|imp|] == '-'
  {
    var c := Installation.Deployed(namespace, system);
    Installation.DeployedCodec(namespace, system);
    SliceName.GetParse(k.name);
    if Canonical(c, k) {
      CanonicalNeverOrphaned(c, k);
    } else {
      var (imp, slice) := SliceName.Parse(k.name).value;
      SliceName.GetIsLonger(imp, slice);
      SliceName.ParseIsShorter(k.name);
      LeftBehind(c, k);
    }
  }

  /** Such a name: the run that `LeftBehind` builds leaves it without its import. */
  lemma ZeroPaddedIsLeftBehind(namespace: string, system: Name -> string, ns: string)
    ensures var k := Name(ns, "clusterlink-01-a.b");
            var c := Installation.Deployed(namespace, system);
            c.parse(k.name) == Some(("a", "b")) && !NeverOrphaned(c, k)
  {
    var k := Name(ns, "clusterlink-01-a.b");
    SliceName.NonCanonicalParses();
    SliceName.GetParse(k.name);
    NeverOrphanedExactly(namespace, system, k);
  }
}
