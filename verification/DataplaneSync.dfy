/**
 The dataplane's clusters and listeners: the control plane keeps them in caches keyed by name, and the
 dataplane replaces what it has by each full set it fetches.
 */
module DataplaneSync {
  import opened Common
  import opened Naming

  // ---------------------------------------------------------------- the control plane's cluster cache

  datatype Target = Target(host: string, port: nat)

  datatype Cluster = Cluster(name: string, target: Target)

  type Cache = map<string, Cluster>

  datatype Op =
    | AddPeer(peer: string, gateway: Target)
    | DeletePeer(peer: string)
    | AddExport(service: Name, target: Target)
    | DeleteExport(service: Name)

  function KeyOf(op: Op): string {
    match op
    case AddPeer(p, _) => RemotePeerClusterName(p)
    case DeletePeer(p) => RemotePeerClusterName(p)
    case AddExport(e, _) => ExportClusterName(e.name, e.namespace)
    case DeleteExport(e) => ExportClusterName(e.name, e.namespace)
  }

  function Step(m: Cache, op: Op): Cache {
    match op
    case AddPeer(_, t) => m[KeyOf(op) := Cluster(KeyOf(op), t)]
    case DeletePeer(_) => m - {KeyOf(op)}
    case AddExport(_, t) => m[KeyOf(op) := Cluster(KeyOf(op), t)]
    case DeleteExport(_) => m - {KeyOf(op)}
  }

  function Replay(m: Cache, ops: seq<Op>): Cache
    decreases |ops|
  {
    if ops == [] then m else Replay(Step(m, ops[0]), ops[1..])
  }

  predicate About(op: Op, e: Name) {
    (op.AddExport? || op.DeleteExport?) && op.service == e
  }

  lemma OtherOpSpares(m: Cache, op: Op, e: Name)
    requires !About(op, e) && '/' !in e.namespace
    requires op.AddExport? || op.DeleteExport? ==> '/' !in op.service.namespace
    ensures var k := ExportClusterName(e.name, e.namespace);
            (k in Step(m, op) <==> k in m) && (k in m ==> Step(m, op)[k] == m[k])
  {
    match op
    case AddPeer(p, _) => ClusterNamesDistinct(e, e, p);
    case DeletePeer(p) => ClusterNamesDistinct(e, e, p);
    case AddExport(x, _) => ClusterNamesDistinct(e, x, "");
    case DeleteExport(x) => ClusterNamesDistinct(e, x, "");
  }

  /** An export's cluster is what the last operation on that export made it, whatever peers and other exports do. */
  lemma {:induction false} ExportRouteIsItsOwn(m: Cache, ops: seq<Op>, e: Name, i: nat)
    requires '/' !in e.namespace && i < |ops| && About(ops[i], e)
    requires forall j :: 0 <= j < |ops| && (ops[j].AddExport? || ops[j].DeleteExport?) ==>
             '/' !in ops[j].service.namespace
    requires forall j :: i < j < |ops| ==> !About(ops[j], e)
    ensures var k := ExportClusterName(e.name, e.namespace);
            && (k in Replay(m, ops) <==> ops[i].AddExport?)
            && (ops[i].AddExport? ==> Replay(m, ops)[k] == Cluster(k, ops[i].target))
    decreases |ops|
  {
    if i > 0 {
      ExportRouteIsItsOwn(Step(m, ops[0]), ops[1..], e, i - 1);
    } else {
      UntouchedRoute(Step(m, ops[0]), ops[1..], e);
    }
  }

  lemma {:induction false} UntouchedRoute(m: Cache, ops: seq<Op>, e: Name)
    requires '/' !in e.namespace
    requires forall j :: 0 <= j < |ops| ==> !About(ops[j], e)
    requires forall j :: 0 <= j < |ops| && (ops[j].AddExport? || ops[j].DeleteExport?) ==>
             '/' !in ops[j].service.namespace
    ensures var k := ExportClusterName(e.name, e.namespace);
            (k in Replay(m, ops) <==> k in m) && (k in m ==> Replay(m, ops)[k] == m[k])
    decreases |ops|
  {
    if ops != [] {
      OtherOpSpares(m, ops[0], e);
      UntouchedRoute(Step(m, ops[0]), ops[1..], e);
    }
  }

  lemma OtherOpSparesPeer(m: Cache, op: Op, p: string)
    requires !((op.AddPeer? || op.DeletePeer?) && op.peer == p)
    ensures var k := RemotePeerClusterName(p);
            (k in Step(m, op) <==> k in m) && (k in m ==> Step(m, op)[k] == m[k])
  {
    match op
    case AddPeer(q, _) => PeerNamesDistinct(p, q);
    case DeletePeer(q) => PeerNamesDistinct(p, q);
    case AddExport(x, _) => ClusterNamesDistinct(x, x, p);
    case DeleteExport(x) => ClusterNamesDistinct(x, x, p);
  }

  lemma PeerNamesDistinct(p: string, q: string)
    requires p != q
    ensures RemotePeerClusterName(p) != RemotePeerClusterName(q)
  {
    var x, y := RemotePeerClusterName(p), RemotePeerClusterName(q);
    assert x[|REMOTE_PEER_CLUSTER_PREFIX|..] == p && y[|REMOTE_PEER_CLUSTER_PREFIX|..] == q;
  }

  lemma {:induction false} UntouchedPeer(m: Cache, ops: seq<Op>, p: string)
    requires forall j :: 0 <= j < |ops| ==> !((ops[j].AddPeer? || ops[j].DeletePeer?) && ops[j].peer == p)
    ensures var k := RemotePeerClusterName(p);
            (k in Replay(m, ops) <==> k in m) && (k in m ==> Replay(m, ops)[k] == m[k])
    decreases |ops|
  {
    if ops != [] {
      OtherOpSparesPeer(m, ops[0], p);
      UntouchedPeer(Step(m, ops[0]), ops[1..], p);
    }
  }

  /** A peer's cluster is what the last operation on that peer made it, whatever exports and other peers do. */
  lemma {:induction false} PeerRouteIsItsOwn(m: Cache, ops: seq<Op>, p: string, i: nat)
    requires i < |ops| && (ops[i].AddPeer? || ops[i].DeletePeer?) && ops[i].peer == p
    requires forall j :: i < j < |ops| ==> !((ops[j].AddPeer? || ops[j].DeletePeer?) && ops[j].peer == p)
    ensures var k := RemotePeerClusterName(p);
            && (k in Replay(m, ops) <==> ops[i].AddPeer?)
            && (ops[i].AddPeer? ==> Replay(m, ops)[k] == Cluster(k, ops[i].gateway))
    decreases |ops|
  {
    if i > 0 {
      PeerRouteIsItsOwn(Step(m, ops[0]), ops[1..], p, i - 1);
    } else {
      UntouchedPeer(Step(m, ops[0]), ops[1..], p);
    }
  }

  // ---------------------------------------------------------------- the dataplane

  /** `filters` stands for what a listener holds besides its socket. */
  datatype Listener = Listener(name: string, address: string, port: nat, filters: string)

  predicate SameSocket(a: Listener, b: Listener) {
    a.address == b.address && a.port == b.port
  }

  function ShortName(l: Listener): string {
    TrimPrefix(l.name, IMPORT_LISTENER_PREFIX)
  }

  /** The last value of each key among decoded resources. */
  function Latest<T>(rs: seq<Option<T>>, key: T -> string): map<string, T> {
    if rs == [] then map[]
    else
      var m := Latest(rs[..|rs| - 1], key);
      match rs[|rs| - 1]
      case None => m
      case Some(x) => m[key(x) := x]
  }

  /** Resource `i` is the last one with key `k`. */
  ghost predicate LastWith<T(!new)>(rs: seq<Option<T>>, key: T -> string, k: string, i: int) {
    && 0 <= i < |rs| && rs[i].Some? && key(rs[i].value) == k
    && NoneWith(rs, key, k, i + 1)
  }

  /** From resource `i` on, none has key `k`. */
  ghost predicate NoneWith<T(!new)>(rs: seq<Option<T>>, key: T -> string, k: string, i: nat) {
    forall j :: i <= j < |rs| && rs[j].Some? ==> key(rs[j].value) != k
  }

  /** A key is there exactly if some resource has it, with the value of the last such resource. */
  lemma {:induction false} LatestMeaning<T(!new)>(rs: seq<Option<T>>, key: T -> string, k: string) returns (i: int)
    ensures k in Latest(rs, key) ==> LastWith(rs, key, k, i) && Latest(rs, key)[k] == rs[i].value
    ensures k !in Latest(rs, key) ==> NoneWith(rs, key, k, 0)
    decreases |rs|
  {
    i := -1;
    if rs != [] {
      var last := |rs| - 1;
      i := LatestMeaning(rs[..last], key, k);
      assert forall j :: 0 <= j < last ==> rs[j] == rs[..last][j];
      if rs[last].Some? && key(rs[last].value) == k {
        i := last;
      }
    }
  }

  /** What comes before the first resource that cannot be decoded. */
  function BeforeFault<T>(rs: seq<Option<T>>): seq<Option<T>> {
    if rs == [] || rs[0].None? then [] else [rs[0]] + BeforeFault(rs[1..])
  }

  lemma {:induction false} FaultAt<T>(rs: seq<Option<T>>, i: nat)
    requires i < |rs| && rs[i].None? && forall j :: 0 <= j < i ==> rs[j].Some?
    ensures BeforeFault(rs) == rs[..i]
  {
    if i > 0 {
      FaultAt(rs[1..], i - 1);
      assert rs[..i] == [rs[0]] + rs[1..][..i - 1];
    }
  }

  /** A listener whose socket did not change is kept. */
  function Place(m: map<string, Listener>, l: Listener): map<string, Listener> {
    if ShortName(l) in m && SameSocket(l, m[ShortName(l)]) then m else m[ShortName(l) := l]
  }

  function PlaceAll(m: map<string, Listener>, rs: seq<Option<Listener>>): map<string, Listener> {
    if rs == [] then m
    else
      var m' := PlaceAll(m, rs[..|rs| - 1]);
      match rs[|rs| - 1]
      case None => m'
      case Some(l) => Place(m', l)
  }

  const ByName: Cluster -> string := (c: Cluster) => c.name
  const ByShortName: Listener -> string := (l: Listener) => ShortName(l)

  lemma {:induction false} PlaceAllMeaning(m: map<string, Listener>, rs: seq<Option<Listener>>, n: string)
    ensures var m', latest := PlaceAll(m, rs), Latest(rs, ByShortName);
            && (n in m' <==> n in m || n in latest)
            && (n in latest ==> SameSocket(m'[n], latest[n]))
    decreases |rs|
  {
    if rs != [] {
      PlaceAllMeaning(m, rs[..|rs| - 1], n);
    }
  }

  /** A listener whose socket is fetched as it was stays the same listener; any other listener is a fetched one. */
  lemma {:induction false} ListenerKept(m: map<string, Listener>, rs: seq<Option<Listener>>, n: string)
    ensures var m' := PlaceAll(m, rs);
            && (n in m && (forall l :: Some(l) in rs && ShortName(l) == n ==>
                             l.address == m[n].address && l.port == m[n].port) ==>
                  n in m' && m'[n] == m[n])
            && (n in m' && !(n in m && m'[n] == m[n]) ==> Some(m'[n]) in rs && ShortName(m'[n]) == n)
    decreases |rs|
  {
    if rs != [] {
      var last := |rs| - 1;
      ListenerKept(m, rs[..last], n);
      assert forall x :: x in rs <==> x in rs[..last] || x == rs[last];
    }
  }

  class Dataplane {
    var clusters: map<string, Cluster>
    var listeners: map<string, Listener>

    constructor ()
      ensures clusters == map[] && listeners == map[]
    {
      clusters, listeners := map[], map[];
    }

    method AddCluster(c: Cluster)
      modifies this`clusters
      ensures clusters == old(clusters)[c.name := c]
    {
      clusters := clusters[c.name := c];
    }

    method AddListener(ln: Listener)
      modifies this`listeners
      ensures listeners == Place(old(listeners), ln)
    {
      var name := TrimPrefix(ln.name, IMPORT_LISTENER_PREFIX);
      if name in listeners && SameSocket(ln, listeners[name]) {
        return;
      }
      listeners := listeners[name := ln];
    }

    /**
     A fetched set that cannot be decoded is applied up to the fault and removes nothing; otherwise it becomes
     the whole truth.
     */
    method HandleClusters(resources: seq<Option<Cluster>>) returns (ok: bool)
      modifies this`clusters
      ensures ok <==> None !in resources
      ensures ok ==> clusters == Latest(resources, ByName)
      ensures !ok ==> clusters == old(clusters) + Latest(BeforeFault(resources), ByName)
    {
      var seen: set<string> := {};
      var i := 0;
      assert resources[..0] == [];
      while i < |resources|
        invariant 0 <= i <= |resources|
        invariant forall j :: 0 <= j < i ==> resources[j].Some?
        invariant seen == Latest(resources[..i], ByName).Keys
        invariant clusters == old(clusters) + Latest(resources[..i], ByName)
      {
        assert resources[..i + 1][..i] == resources[..i];
        if resources[i].None? {
          FaultAt(resources, i);
          return false;
        }
        var c := resources[i].value;
        MergeOne(old(clusters), Latest(resources[..i], ByName), c.name, c);
        AddCluster(c);
        seen := seen + {c.name};
        i := i + 1;
      }
      assert resources[..i] == resources;
      RemoveClustersExcept(seen);
      PickMerged(old(clusters), Latest(resources, ByName));
      return true;
    }

    method RemoveClustersExcept(seen: set<string>)
      modifies this`clusters
      ensures clusters == Pick(old(clusters), seen)
    {
      var left := clusters.Keys;
      while left != {}
        invariant left <= old(clusters).Keys
        invariant clusters == Pick(old(clusters), left + seen)
        decreases left
      {
        var n :| n in left;
        if n !in seen {
          clusters := clusters - {n};
        }
        left := left - {n};
      }
    }

    /** As for clusters; here it is the sockets that agree with the fetched set. */
    method HandleListeners(resources: seq<Option<Listener>>) returns (ok: bool)
      modifies this`listeners
      ensures ok <==> None !in resources
      ensures ok ==> listeners.Keys == Latest(resources, ByShortName).Keys
      ensures ok ==> forall n :: n in listeners ==>
                && listeners[n].address == Latest(resources, ByShortName)[n].address
                && listeners[n].port == Latest(resources, ByShortName)[n].port
      ensures !ok ==> listeners == PlaceAll(old(listeners), BeforeFault(resources))
    {
      var seen: set<string> := {};
      var i := 0;
      assert resources[..0] == [];
      while i < |resources|
        invariant 0 <= i <= |resources|
        invariant forall j :: 0 <= j < i ==> resources[j].Some?
        invariant seen == Latest(resources[..i], ByShortName).Keys
        invariant listeners == PlaceAll(old(listeners), resources[..i])
      {
        assert resources[..i + 1][..i] == resources[..i];
        if resources[i].None? {
          FaultAt(resources, i);
          return false;
        }
        var l := resources[i].value;
        AddListener(l);
        seen := seen + {TrimPrefix(l.name, IMPORT_LISTENER_PREFIX)};
        i := i + 1;
      }
      assert resources[..i] == resources;
      RemoveListenersExcept(seen);
      forall n ensures n in listeners <==> n in Latest(resources, ByShortName) {
        PlaceAllMeaning(old(listeners), resources, n);
      }
      forall n | n in listeners ensures SameSocket(listeners[n], Latest(resources, ByShortName)[n]) {
        PlaceAllMeaning(old(listeners), resources, n);
      }
      return true;
    }

    method RemoveListenersExcept(seen: set<string>)
      modifies this`listeners
      ensures listeners == Pick(old(listeners), seen)
    {
      var left := listeners.Keys;
      while left != {}
        invariant left <= old(listeners).Keys
        invariant listeners == Pick(old(listeners), left + seen)
        decreases left
      {
        var n :| n in left;
        if n !in seen {
          listeners := listeners - {n};
        }
        left := left - {n};
      }
    }
  }
}
