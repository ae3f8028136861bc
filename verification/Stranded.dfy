/**
 Copies of an import that is no longer merged and is refused its port: a run can come to rest with
 them in place.
 */
module Stranded {
  import opened Common
  import opened Reconcile
  import opened SliceHealing
  import opened ControlManager
  import opened PortFailures
  import opened Orphans
  import L = Ports

  /** An import that asks for port 7, and what becomes of it. */
  function Asking(merge: bool, status: Option<(Condition, Condition)>): Import {
    match status
    case None => Import(merge, 1, 7, None, None)
    case Some((port, service)) => Import(merge, 1, 7, Some(port), Some(service))
  }

  /** The world after a failed reconciliation, whose status write calls for another one. */
  function Failed(w: World, n: Name, leases: L.Leases, port: Condition, f: Failure, merge: bool): World {
    w.(imports := w.imports[n := Asking(merge, Some((port, Bad(f))))], leases := leases,
       failures := w.failures[n := f], writes := w.writes + 1)
  }

  /** A failed reconciliation records its failure and, having written the status, runs once more to no effect. */
  lemma FailTwice(c: Config, w: World, w0: World, n: Name, again: World, r: World, w': World)
    requires n in w.imports && ImportKey(n) in w.pending && w0 == w.(pending := w.pending - {ImportKey(n)})
    requires again == r.(pending := r.pending + {ImportKey(n)}) && ImportKey(n) !in r.pending
    requires n in r.imports && n in r.failures && !r.failures[n].PortsTaken?
    requires AddImport(c, w0, n, []) == again && AddImport(c, r, n, []) == r
    requires Reaches(c, r, w', false)
    ensures Reaches(c, w, w', false)
  {
    assert again.pending - {ImportKey(n)} == r.pending;
    ReachesHandle(c, again, n, r, r, w');
    ReachesHandle(c, w, n, w0, again, w');
  }

  lemma ReachesHandle(c: Config, w: World, n: Name, w0: World, next: World, w': World)
    requires n in w.imports && ImportKey(n) in w.pending && w0 == w.(pending := w.pending - {ImportKey(n)})
    requires next == AddImport(c, w0, n, []) && (n in next.failures ==> !next.failures[n].PortsTaken?)
    requires Reaches(c, next, w', false)
    ensures Reaches(c, w, w', false)
  {
    ReachesBack(c, w, Handle(ImportKey(n), [], []), next, w', false);
  }

  lemma ConcludeChanges(w: World, n: Name, port: Condition, f: Failure, merge: bool)
    requires n in w.imports && w.imports[n] == Asking(merge, None)
    ensures var r := Failed(w, n, w.leases, port, f, merge);
            Conclude(w, n, port, Some(f)) == r.(pending := r.pending + {ImportKey(n)})
  {
  }

  lemma ConcludeRests(w: World, n: Name, port: Condition, f: Failure, merge: bool)
    requires n in w.imports && w.imports[n] == Asking(merge, Some((port, Bad(f)))) && n in w.failures
             && w.failures[n] == f
    ensures Conclude(w, n, port, Some(f)) == w
  {
    assert w.failures[n := f] == w.failures;
  }

  /** A merge import without its service gets its port, and no more. */
  lemma LeasedWithoutService(c: Config, w: World, n: Name)
    requires n in w.imports && w.imports[n].merge && w.imports[n].targetPort == 7 && n !in w.services
    requires 7 in w.leases.byPort ==> w.leases.byPort[7] == n
    ensures AddImport(c, w, n, []) == Conclude(w.(leases := w.leases.Assign(n, 7)), n, Good, Some(NoService))
  {
  }

  lemma Refused(c: Config, w: World, n: Name, holder: Name)
    requires n in w.imports && w.imports[n].targetPort == 7 && 7 in w.leases.byPort && w.leases.byPort[7] == holder != n
    ensures AddImport(c, w, n, []) == Conclude(w, n, Bad(PortConflict(holder)), Some(PortConflict(holder)))
  {
  }

  /** Import `m` holds port 7 and waits for its service; nothing is pending but what is said. */
  function Held(c: Config, m: Name, imports: map<Name, Import>, slices: map<Name, Slice>, failures: map<Name, Failure>,
                pending: set<Key>, writes: nat): World {
    World(imports, map[], slices, L.Leases(map[7 := m], map[m := 7]), map[], failures, pending, writes)
  }

  const HOLDER := Asking(true, Some((Good, Bad(NoService))))

  lemma HoldThePort(c: Config, d: Name, m: Name, w': World)
    requires d.namespace == c.namespace && d.name != "" && m.name != ""
    requires Reaches(c, Held(c, m, map[m := HOLDER], map[d := DataplaneOf(c)], map[m := NoService], {}, 1), w', false)
    ensures Reaches(c, START, w', false)
  {
    var slices := map[d := DataplaneOf(c)];
    var r := Held(c, m, map[m := HOLDER], slices, map[m := NoService], {}, 1);
    var w := Plain(map[m := Asking(true, None)], slices, {ImportKey(m)}, 0);
    var w0 := Plain(map[m := Asking(true, None)], slices, {}, 0);
    assert {ImportKey(m)} - {ImportKey(m)} == {};
    HolderReconciles(c, m, slices, w0, r);
    FailTwice(c, w, w0, m, r.(pending := r.pending + {ImportKey(m)}), r, w');
    WriteTheHolder(c, d, m, w');
  }

  lemma HolderReconciles(c: Config, m: Name, slices: map<Name, Slice>, w0: World, r: World)
    requires w0 == Plain(map[m := Asking(true, None)], slices, {}, 0)
    requires r == Held(c, m, map[m := HOLDER], slices, map[m := NoService], {}, 1)
    ensures AddImport(c, w0, m, []) == r.(pending := r.pending + {ImportKey(m)})
    ensures AddImport(c, r, m, []) == r
  {
    AssignSeven(m);
    LeasedWithoutService(c, w0, m);
    ConcludeChanges(w0.(leases := r.leases), m, Good, NoService, true);
    assert map[m := Asking(true, None)][m := HOLDER] == map[m := HOLDER];
    LeasedWithoutService(c, r, m);
    ConcludeRests(r, m, Good, NoService, true);
  }

  lemma AssignSeven(m: Name)
    ensures var l := L.Leases(map[7 := m], map[m := 7]);
            L.NONE.Assign(m, 7) == l && l.Assign(m, 7) == l
  {
    L.AssignAgain(L.NONE, m, 7);
  }

  lemma WriteTheHolder(c: Config, d: Name, m: Name, w': World)
    requires d.namespace == c.namespace && d.name != "" && m.name != ""
    requires Reaches(c, Plain(map[m := Asking(true, None)], map[d := DataplaneOf(c)], {ImportKey(m)}, 0), w', false)
    ensures Reaches(c, START, w', false)
  {
    var slices := map[d := DataplaneOf(c)];
    ReachesBack(c, Plain(map[], slices, {}, 0), WriteImport(m, Asking(true, None)),
        Plain(map[m := Asking(true, None)], slices, {ImportKey(m)}, 0), w', false);
    HandleDataplane(c, d, w', false);
    ReachesBack(c, START, WriteSlice(d, DataplaneOf(c)), Plain(map[], slices, {SliceKey(d)}, 0), w', false);
  }

  /** The copy of a merge import is put in place before the import is reconciled. */
  lemma CopyInPlace(
    c: Config, k: Name, n: Name, d: Name, m: Name, blank: map<Name, Slice>, slices: map<Name, Slice>, w': World)
    requires GoodCodec(c) && Canonical(c, k) && n == ImportOf(c, k) && d == SliceOf(c, k) && n != m && m.name != ""
    requires n != Name(c.namespace, c.ingress)
    requires Scene(c, blank, k, d) && slices == blank[k := Desired(c, n, Asking(true, None), d.name, DataplaneOf(c))]
    requires Reaches(c, Held(c, m, map[m := HOLDER, n := Asking(true, None)], slices, map[m := NoService],
             {ImportKey(n)}, 2), w', false)
    ensures Reaches(c, Held(c, m, map[m := HOLDER, n := Asking(true, None)], blank, map[m := NoService],
             {ImportKey(n), SliceKey(k)}, 1), w', false)
  {
    var imports, want := map[m := HOLDER, n := Asking(true, None)],
      Desired(c, n, Asking(true, None), d.name, DataplaneOf(c));
    var w := Held(c, m, imports, blank, map[m := NoService], {ImportKey(n), SliceKey(k)}, 1);
    var w0 := Held(c, m, imports, blank, map[m := NoService], {ImportKey(n)}, 1);
    var w1 := Held(c, m, imports, slices, map[m := NoService], {ImportKey(n), SliceKey(k)}, 2);
    var w2 := Held(c, m, imports, slices, map[m := NoService], {ImportKey(n)}, 2);
    CanonicalIsCopyKey(c, k);
    assert {ImportKey(n), SliceKey(k)} - {SliceKey(k)} == {ImportKey(n)}
      && {ImportKey(n)} + {SliceKey(k)} == {ImportKey(n), SliceKey(k)};
    assert ServiceName in want.labels && ServiceName !in BLANK.labels;
    HealTheCopy(c, w1, k, w2, n, d, k, want, w2, w', false);
    HealTheCopy(c, w, k, w0, n, d, k, want, w1, w', false);
  }

  /** The world the run comes to rest in: `n` is refused its port, and its copy is there still. */
  function Stuck(c: Config, n: Name, m: Name, slices: map<Name, Slice>): World {
    Held(c, m, map[m := HOLDER, n := Asking(false, Some((Bad(PortConflict(m)), Bad(PortConflict(m)))))], slices,
         map[m := NoService, n := PortConflict(m)], {}, 3)
  }

  lemma StopMerging(c: Config, n: Name, m: Name, slices: map<Name, Slice>, w': World)
    requires n != m && n.name != "" && Reaches(c, Stuck(c, n, m, slices), w', false)
    ensures Reaches(c, Held(c, m, map[m := HOLDER, n := Asking(true, None)], slices, map[m := NoService],
             {ImportKey(n)}, 2), w', false)
  {
    var w := Held(c, m, map[m := HOLDER, n := Asking(false, None)], slices, map[m := NoService], {ImportKey(n)}, 2);
    var w0 := Held(c, m, map[m := HOLDER, n := Asking(false, None)], slices, map[m := NoService], {}, 2);
    var r := Stuck(c, n, m, slices);
    assert {ImportKey(n)} - {ImportKey(n)} == {};
    RefusedTwice(c, n, m, slices, w0, r);
    FailTwice(c, w, w0, n, r.(pending := r.pending + {ImportKey(n)}), r, w');
    RewriteImport(c, n, m, slices, w, w');
  }

  lemma RefusedTwice(c: Config, n: Name, m: Name, slices: map<Name, Slice>, w0: World, r: World)
    requires n != m && r == Stuck(c, n, m, slices)
    requires w0 == Held(c, m, map[m := HOLDER, n := Asking(false, None)], slices, map[m := NoService], {}, 2)
    ensures AddImport(c, w0, n, []) == r.(pending := r.pending + {ImportKey(n)})
    ensures AddImport(c, r, n, []) == r
  {
    var f := PortConflict(m);
    Refused(c, w0, n, m);
    ConcludeChanges(w0, n, Bad(f), f, false);
    ReplaceSecond(m, HOLDER, n, Asking(false, None), r.imports[n]);
    assert map[m := NoService][n := f] == map[m := NoService, n := f];
    Refused(c, r, n, m);
    ConcludeRests(r, n, Bad(f), f, false);
  }

  lemma ReplaceSecond<V>(m: Name, x: V, n: Name, y: V, z: V)
    requires m != n
    ensures map[m := x, n := y][n := z] == map[m := x, n := z]
  {
  }

  lemma RewriteImport(c: Config, n: Name, m: Name, slices: map<Name, Slice>, w: World, w': World)
    requires n != m && n.name != "" && Reaches(c, w, w', false)
    requires w == Held(c, m, map[m := HOLDER, n := Asking(false, None)], slices, map[m := NoService], {ImportKey(n)}, 2)
    ensures Reaches(c, Held(c, m, map[m := HOLDER, n := Asking(true, None)], slices, map[m := NoService],
             {ImportKey(n)}, 2), w', false)
  {
    var w1 := Held(c, m, map[m := HOLDER, n := Asking(true, None)], slices, map[m := NoService], {ImportKey(n)}, 2);
    ReplaceSecond(m, HOLDER, n, Asking(true, None), Asking(false, None));
    ReachesBack(c, w1, WriteImport(n, Asking(false, None)), w, w', false);
  }

  /** The port is given back, and nothing is handled on that account. */
  function Released(c: Config, n: Name, m: Name, slices: map<Name, Slice>): World {
    World(map[n := Asking(false, Some((Bad(PortConflict(m)), Bad(PortConflict(m)))))], map[], slices, L.NONE, map[],
          map[n := PortConflict(m)], {}, 3)
  }

  lemma GiveThePortBack(c: Config, n: Name, m: Name, slices: map<Name, Slice>, w': World)
    requires n != m && CopiesOfImport(c, Stuck(c, n, m, slices), m) == {}
             && Reaches(c, Released(c, n, m, slices), w', false)
    ensures Reaches(c, Stuck(c, n, m, slices), w', false)
  {
    var w := Stuck(c, n, m, slices);
    var w0 := w.(imports := w.imports - {m});
    RemoveFirst(m, HOLDER, n, Asking(false, Some((Bad(PortConflict(m)), Bad(PortConflict(m))))));
    RemoveFirst(m, NoService, n, PortConflict(m));
    assert w.leases.Release(m) == L.NONE;
    RemoveAndRest(c, w, w0, m, w');
  }

  lemma RemoveFirst<V>(m: Name, x: V, n: Name, y: V)
    requires m != n
    ensures map[m := x, n := y] - {m} == map[n := y]
  {
  }

  lemma RemoveAndRest(c: Config, w: World, w0: World, m: Name, w': World)
    requires w.services == map[] && w.pending == {} && CopiesOfImport(c, w, m) == {}
             && w0 == w.(imports := w.imports - {m})
    requires Reaches(c, w0.(leases := w.leases.Release(m), failures := w.failures - {m}), w', false)
    ensures Reaches(c, w, w', false)
  {
    var w1 := w0.(pending := {ImportKey(m)});
    SameCopies(c, w, w0, m);
    DeleteWithoutService(c, w0, m);
    assert {ImportKey(m)} - {ImportKey(m)} == {};
    ReachesDelete(c, w1, m, w0, w');
    ReachesRemove(c, w, m, w1, w');
  }

  lemma DeleteWithoutService(c: Config, w: World, m: Name)
    requires w.services == map[] && CopiesOfImport(c, w, m) == {}
    ensures DeleteImport(c, w, m) == w.(leases := w.leases.Release(m), failures := w.failures - {m})
  {
    NoServices(c, w, m);
    DropNone(w);
  }

  lemma ReachesDelete(c: Config, w: World, m: Name, w0: World, w': World)
    requires m !in w.imports && ImportKey(m) in w.pending && w0 == w.(pending := w.pending - {ImportKey(m)})
    requires Reaches(c, DeleteImport(c, w0, m), w', false)
    ensures Reaches(c, w, w', false)
  {
    ReachesBack(c, w, Handle(ImportKey(m), [], []), DeleteImport(c, w0, m), w', false);
  }

  lemma ReachesRemove(c: Config, w: World, m: Name, next: World, w': World)
    requires next == w.(imports := w.imports - {m}, pending := w.pending + {ImportKey(m)})
             && Reaches(c, next, w', false)
    ensures Reaches(c, w, w', false)
  {
    ReachesBack(c, w, RemoveImport(m), next, w', false);
  }

  /** A copy of an import that is there but not merged. */
  predicate StrandedCopy(c: Config, w: World, k: Name)
    requires c.parse(k.name).Some?
  {
    var n := ImportOf(c, k);
    w.pending == {} && n in w.imports && !w.imports[n].merge && k in w.slices && k in CopiesOfImport(c, w, n)
  }

  lemma BothStranded(c: Config, k: Name, n: Name, d: Name, m: Name, slices: map<Name, Slice>)
    requires c.parse(k.name).Some? && n == ImportOf(c, k) && k != d && m.name != n.name
    requires slices == map[d := DataplaneOf(c), k := Desired(c, n, Asking(true, None), d.name, DataplaneOf(c))]
    ensures StrandedCopy(c, Stuck(c, n, m, slices), k) && !PortAvailable(Stuck(c, n, m, slices), n)
    ensures StrandedCopy(c, Released(c, n, m, slices), k) && PortAvailable(Released(c, n, m, slices), n)
    ensures CopiesOfImport(c, Stuck(c, n, m, slices), m) == {}
  {
    assert ManagedBy !in slices[d].labels;
    assert slices[k].labels[ServiceName] == n.name;
  }

  lemma StrandedReached(c: Config, k: Name, n: Name, d: Name, m: Name, slices: map<Name, Slice>, w': World)
    requires GoodCodec(c) && Canonical(c, k) && n == ImportOf(c, k) && d == SliceOf(c, k) && k != d
    requires n != Name(c.namespace, c.ingress) && m != n && m.name != ""
    requires slices == map[d := DataplaneOf(c), k := Desired(c, n, Asking(true, None), d.name, DataplaneOf(c))]
    requires Reaches(c, Stuck(c, n, m, slices), w', false)
    ensures Reaches(c, START, w', false)
  {
    var blank := map[d := DataplaneOf(c), k := BLANK];
    StopMerging(c, n, m, slices, w');
    assert blank[k := slices[k]] == slices;
    CopyInPlace(c, k, n, d, m, blank, slices, w');
    WriteThem(c, k, n, d, m, blank, w');
    HoldThePort(c, d, m, w');
  }

  lemma WriteThem(c: Config, k: Name, n: Name, d: Name, m: Name, blank: map<Name, Slice>, w': World)
    requires n.name != "" && k.name != "" && n != m && blank == map[d := DataplaneOf(c)][k := BLANK]
    requires Reaches(c, Held(c, m, map[m := HOLDER, n := Asking(true, None)], blank, map[m := NoService],
             {ImportKey(n), SliceKey(k)}, 1), w', false)
    ensures Reaches(c, Held(c, m, map[m := HOLDER], map[d := DataplaneOf(c)], map[m := NoService], {}, 1), w', false)
  {
    var slices, imports := map[d := DataplaneOf(c)], map[m := HOLDER][n := Asking(true, None)];
    var w1 := Held(c, m, imports, slices, map[m := NoService], {ImportKey(n)}, 1);
    var w2 := Held(c, m, imports, blank, map[m := NoService], {ImportKey(n), SliceKey(k)}, 1);
    assert {ImportKey(n)} + {SliceKey(k)} == {ImportKey(n), SliceKey(k)};
    ReachesBack(c, w1, WriteSlice(k, BLANK), w2, w', false);
    ReachesBack(c, Held(c, m, map[m := HOLDER], slices, map[m := NoService], {}, 1),
        WriteImport(n, Asking(true, None)), w1, w', false);
  }

  /**
   Every copy can be stranded: some run comes to rest with it although its import is no longer merged,
   while another import holds the port; and it stays when that import and its lease are gone, since
   nothing handles the refused import again.
   */
  lemma CopyCanBeStranded(c: Config, k: Name) returns (refused: World, released: World)
    requires GoodCodec(c) && Canonical(c, k) && SliceOf(c, k) != k && ImportOf(c, k) != Name(c.namespace, c.ingress)
    ensures Reaches(c, START, refused, false) && StrandedCopy(c, refused, k) && !PortAvailable(refused, ImportOf(c, k))
    ensures Reaches(c, START, released, false) && StrandedCopy(c, released, k)
            && PortAvailable(released, ImportOf(c, k))
  {
    var n, d := ImportOf(c, k), SliceOf(c, k);
    var m := Name(n.namespace, n.name + "x");
    var slices := map[d := DataplaneOf(c), k := Desired(c, n, Asking(true, None), d.name, DataplaneOf(c))];
    refused, released := Stuck(c, n, m, slices), Released(c, n, m, slices);
    assert |m.name| == |n.name| + 1;
    BothStranded(c, k, n, d, m, slices);
    ReachesItself(c, refused, false);
    StrandedReached(c, k, n, d, m, slices, refused);
    ReachesItself(c, released, false);
    GiveThePortBack(c, n, m, slices, released);
    StrandedReached(c, k, n, d, m, slices, released);
  }
}
