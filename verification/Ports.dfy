/**
 The allocator of listening ports for imports: two maps that must stay each other's inverse, updated
 in place by leases and releases. A lease of port 0 asks for any free port: a number of random tries,
 then a scan.
 */
module Ports {
  import opened Common

  const START_PORT: nat := 1024
  const END_PORT: nat := 49152
  const PORT_COUNT: nat := END_PORT - START_PORT
  const MAX_RANDOM_TRIES: nat := 40

  /** The scan gives up after this many ports; it begins at port 1, not at a random offset. */
  const SCANNED: nat := PORT_COUNT - 2

  datatype Leases = Leases(byPort: map<nat, Name>, byName: map<Name, nat>) {

    ghost predicate Inverse() {
      && 0 !in byPort
      && (forall p :: p in byPort ==> byPort[p] in byName && byName[byPort[p]] == p)
      && (forall n :: n in byName ==> byName[n] in byPort && byPort[byName[n]] == n)
    }

    /** Gives `name` the port, freeing whatever it held before. */
    function Assign(name: Name, port: nat): Leases {
      var freed := if name in byName then byPort - {byName[name]} else byPort;
      Leases(freed[port := name], byName[name := port])
    }

    function Release(name: Name): Leases {
      if name in byName then Leases(byPort - {byName[name]}, byName - {name}) else this
    }
  }

  const NONE := Leases(map[], map[])

  datatype Outcome = Leased(port: nat) | Conflict(holder: Name) | AllTaken

  function LeaseSpecific(l: Leases, name: Name, port: nat): (Leases, Outcome) {
    if port in l.byPort && l.byPort[port] != name then (l, Conflict(l.byPort[port]))
    else (l.Assign(name, port), Leased(port))
  }

  /** Random numbers as the allocator draws them. */
  predicate ValidDraws(draws: seq<nat>) {
    forall k :: 0 <= k < |draws| ==> draws[k] < PORT_COUNT
  }

  /** The first of the drawn ports that is free, or 0. */
  function FirstFree(l: Leases, draws: seq<nat>): nat {
    if draws == [] then 0
    else if START_PORT + draws[0] !in l.byPort then START_PORT + draws[0]
    else FirstFree(l, draws[1..])
  }

  /** The scan: one port further each time, for at most `left` ports, stopping at a free one. */
  function Scan(l: Leases, port: nat, left: nat): nat
    decreases left
  {
    if left == 0 then port
    else
      var next := if port + 1 == END_PORT then START_PORT else port + 1;
      if next !in l.byPort then next else Scan(l, next, left - 1)
  }

  function RandomFree(l: Leases, draws: seq<nat>): nat {
    var port := FirstFree(l, draws);
    if port != 0 then port else Scan(l, 0, SCANNED)
  }

  function LeaseRandom(l: Leases, name: Name, draws: seq<nat>): (Leases, Outcome) {
    if |l.byPort| == PORT_COUNT then (l, AllTaken)
    else if name in l.byName && l.byName[name] != 0 then (l, Leased(l.byName[name]))
    else
      var port := RandomFree(l, draws);
      (l.Assign(name, port), Leased(port))
  }

  function LeasePort(l: Leases, name: Name, port: nat, draws: seq<nat>): (Leases, Outcome) {
    if port == 0 then LeaseRandom(l, name, draws) else LeaseSpecific(l, name, port)
  }

  // ---------------------------------------------------------------- the search

  /** A caller can tell beforehand that the scan will succeed: one of its ports is free. */
  ghost predicate Roomy(l: Leases) {
    exists p :: 1 <= p <= SCANNED && p !in l.byPort
  }

  lemma {:induction false} ScanStops(l: Leases, port: nat, left: nat)
    requires port + left <= SCANNED
    ensures var p := Scan(l, port, left);
            && port <= p <= port + left
            && (p !in l.byPort ==> left == 0 || port < p)
            && (forall q :: port < q < p ==> q in l.byPort)
            && (left > 0 && p in l.byPort ==> p == port + left)
    decreases left
  {
    if left > 0 && port + 1 in l.byPort {
      ScanStops(l, port + 1, left - 1);
    }
  }

  lemma {:induction false} FirstFreeIsFree(l: Leases, draws: seq<nat>)
    requires ValidDraws(draws)
    ensures var p := FirstFree(l, draws);
            p != 0 ==> p !in l.byPort && START_PORT <= p < END_PORT
  {
    if draws != [] {
      FirstFreeIsFree(l, draws[1..]);
    }
  }

  /** The port found is free exactly when a draw was free or the scanned range has room. */
  lemma RandomFreeIsFree(l: Leases, draws: seq<nat>)
    requires 0 !in l.byPort && ValidDraws(draws)
    ensures RandomFree(l, draws) !in l.byPort <==> FirstFree(l, draws) != 0 || Roomy(l)
    ensures 0 < RandomFree(l, draws) < END_PORT
  {
    FirstFreeIsFree(l, draws);
    ScanStops(l, 0, SCANNED);
    if FirstFree(l, draws) == 0 && Roomy(l) {
      var p :| 1 <= p <= SCANNED && p !in l.byPort;
      assert Scan(l, 0, SCANNED) <= p;
    }
  }

  /** Fewer than SCANNED leases leave room, by pigeonhole. */
  lemma FewLeasesLeaveRoom(l: Leases)
    requires |l.byPort| < SCANNED
    ensures Roomy(l)
  {
    if !Roomy(l) {
      var scanned := Below(SCANNED + 1) - {0};
      BelowSize(SCANNED + 1);
      forall p | p in scanned ensures p in l.byPort.Keys {
      }
      SubsetSize(scanned, l.byPort.Keys);
      assert false;
    }
  }

  /** The tries give the first drawn port that is free, if any. */
  lemma {:induction false} FirstFreeExactly(l: Leases, draws: seq<nat>) returns (k: nat)
    ensures k <= |draws| && forall j :: 0 <= j < k ==> 1024 + draws[j] in l.byPort
    ensures k < |draws| ==> 1024 + draws[k] !in l.byPort && FirstFree(l, draws) == 1024 + draws[k]
    ensures k == |draws| ==> FirstFree(l, draws) == 0
  {
    if draws == [] || 1024 + draws[0] !in l.byPort {
      k := 0;
    } else {
      var j := FirstFreeExactly(l, draws[1..]);
      k := j + 1;
    }
  }

  /** Any free one of the 48128 ports from 1024 up can be drawn. */
  lemma AnyPortCanBeDrawn(l: Leases, p: nat)
    requires 1024 <= p < 49152 && p !in l.byPort
    ensures var draws := seq(40, i => p - 1024);
            |draws| == MAX_RANDOM_TRIES && ValidDraws(draws) && RandomFree(l, draws) == p
  {
    var draws := seq(40, i => p - 1024);
    assert draws[0] == p - 1024;
  }

  /** If no draw is free, the scan gives the lowest free port up to 48126, or else 48126 itself. */
  lemma ScanExactly(l: Leases, draws: seq<nat>)
    requires FirstFree(l, draws) == 0
    ensures var p := RandomFree(l, draws);
            && 1 <= p <= 48126 && (forall q :: 1 <= q < p ==> q in l.byPort)
            && (p in l.byPort ==> p == 48126)
  {
    ScanStops(l, 0, SCANNED);
  }

  // ---------------------------------------------------------------- the invariant

  /** A released name holds nothing, its port is free, and nobody else's lease changes. */
  lemma ReleaseFrees(l: Leases, name: Name)
    requires l.Inverse()
    ensures var l' := l.Release(name);
            && l'.Inverse() && name !in l'.byName
            && (forall n :: n != name ==>
              (n in l'.byName <==> n in l.byName) && (n in l.byName ==> l'.byName[n] == l.byName[n]))
            && (name in l.byName ==> l.byName[name] !in l'.byPort)
  {
  }

  /** Exactly when a lease is not granted: a given port that another name holds, or any port while 48128 are held. */
  lemma LeaseRefused(l: Leases, name: Name, port: nat, draws: seq<nat>)
    ensures var (l', out) := LeasePort(l, name, port, draws);
            && (out.Conflict? <==> port != 0 && port in l.byPort && l.byPort[port] != name)
            && (out.Conflict? ==> out.holder == l.byPort[port])
            && (out.AllTaken? <==> port == 0 && |l.byPort| == 48128)
            && (!out.Leased? ==> l' == l)
  {
  }

  lemma AssignKeeps(l: Leases, name: Name, port: nat)
    requires l.Inverse() && port != 0
    ensures l.Assign(name, port).Inverse() <==> port !in l.byPort || l.byPort[port] == name
    ensures forall n :: n != name ==>
              (n in l.Assign(name, port).byName <==> n in l.byName)
              && (n in l.byName ==> l.Assign(name, port).byName[n] == l.byName[n])
  {
    var l' := l.Assign(name, port);
    if port in l.byPort && l.byPort[port] != name {
      var other := l.byPort[port];
      assert l'.byName[other] == port && l'.byPort[port] == name;
    }
  }

  /**
   A random lease keeps the maps inverse exactly when the name already holds a port, all ports are
   taken, a draw was free, or the scanned range has room.
   */
  lemma RandomLeaseKeepsInverse(l: Leases, name: Name, draws: seq<nat>)
    requires l.Inverse() && ValidDraws(draws)
    ensures LeaseRandom(l, name, draws).0.Inverse() <==>
            |l.byPort| == PORT_COUNT || name in l.byName || FirstFree(l, draws) != 0 || Roomy(l)
  {
    RandomFreeIsFree(l, draws);
    AssignKeeps(l, name, RandomFree(l, draws));
  }

  /** The same without knowing the draws: whatever is drawn, a random lease keeps the maps inverse. */
  lemma RandomLeaseKeepsInverseAlways(l: Leases, name: Name)
    requires l.Inverse()
    ensures (forall draws :: ValidDraws(draws) && |draws| == MAX_RANDOM_TRIES ==>
            LeaseRandom(l, name, draws).0.Inverse())
       <==> |l.byPort| == PORT_COUNT || name in l.byName || Roomy(l)
  {
    if |l.byPort| == PORT_COUNT || name in l.byName || Roomy(l) {
      forall draws | ValidDraws(draws) && |draws| == MAX_RANDOM_TRIES ensures LeaseRandom(l, name, draws).0.Inverse() {
        RandomLeaseKeepsInverse(l, name, draws);
      }
    } else {
      var draws := seq(MAX_RANDOM_TRIES, i => 0);
      assert START_PORT in l.byPort;
      HeldDraws(l, draws);
      RandomLeaseKeepsInverse(l, name, draws);
      assert ValidDraws(draws) && |draws| == MAX_RANDOM_TRIES && !LeaseRandom(l, name, draws).0.Inverse();
    }
  }

  datatype Op = Take(name: Name, port: nat, draws: seq<nat>) | Give(name: Name)

  function Step(l: Leases, op: Op): Leases {
    match op
    case Take(name, port, draws) => LeasePort(l, name, port, draws).0
    case Give(name) => l.Release(name)
  }

  ghost predicate Safe(l: Leases, op: Op) {
    op.Take? && op.port == 0 ==>
      && ValidDraws(op.draws)
      && (op.name in l.byName || FirstFree(l, op.draws) != 0 || Roomy(l))
  }

  function Replay(l: Leases, ops: seq<Op>): Leases
    decreases |ops|
  {
    if ops == [] then l else Replay(Step(l, ops[0]), ops[1..])
  }

  ghost predicate AllSafe(l: Leases, ops: seq<Op>)
    decreases |ops|
  {
    ops == [] || (Safe(l, ops[0]) && AllSafe(Step(l, ops[0]), ops[1..]))
  }

  lemma StepKeepsInverse(l: Leases, op: Op)
    requires l.Inverse() && Safe(l, op)
    ensures Step(l, op).Inverse()
    ensures forall n :: n != op.name ==>
              (n in Step(l, op).byName <==> n in l.byName)
              && (n in l.byName ==> Step(l, op).byName[n] == l.byName[n])
  {
    match op
    case Take(name, port, draws) =>
      if port == 0 {
        RandomLeaseKeepsInverse(l, name, draws);
        RandomFreeIsFree(l, draws);
        AssignKeeps(l, name, RandomFree(l, draws));
      } else {
        AssignKeeps(l, name, port);
      }
    case Give(name) =>
  }

  /** Over every run of leases and releases the two maps stay inverse, and an untouched name keeps its port. */
  lemma {:induction false} RunKeepsInverse(l: Leases, ops: seq<Op>, bystander: Name)
    requires l.Inverse() && AllSafe(l, ops)
    ensures Replay(l, ops).Inverse()
    ensures (forall k :: 0 <= k < |ops| ==> ops[k].name != bystander) && bystander in l.byName ==>
              bystander in Replay(l, ops).byName && Replay(l, ops).byName[bystander] == l.byName[bystander]
    decreases |ops|
  {
    if ops != [] {
      StepKeepsInverse(l, ops[0]);
      RunKeepsInverse(Step(l, ops[0]), ops[1..], bystander);
    }
  }

  /** At every random lease of the run, fewer than SCANNED ports are held. */
  ghost predicate AlwaysFew(l: Leases, ops: seq<Op>)
    decreases |ops|
  {
    || ops == []
    || (&& (ops[0].Take? && ops[0].port == 0 ==> ValidDraws(ops[0].draws) && |l.byPort| < SCANNED)
        && AlwaysFew(Step(l, ops[0]), ops[1..]))
  }

  lemma {:induction false} FewAreSafe(l: Leases, ops: seq<Op>)
    requires AlwaysFew(l, ops)
    ensures AllSafe(l, ops)
    decreases |ops|
  {
    if ops != [] {
      if |l.byPort| < SCANNED {
        FewLeasesLeaveRoom(l);
      }
      FewAreSafe(Step(l, ops[0]), ops[1..]);
    }
  }

  /** Runs that never hold SCANNED ports at a random lease keep the two maps inverse. */
  lemma FewKeepInverse(ops: seq<Op>)
    requires AlwaysFew(NONE, ops)
    ensures Replay(NONE, ops).Inverse()
  {
    FewAreSafe(NONE, ops);
    RunKeepsInverse(NONE, ops, Name("", ""));
  }

  /** What a granted lease gives: the port asked for, or for port 0 the held port or a free one. */
  lemma LeaseGives(l: Leases, name: Name, port: nat, draws: seq<nat>)
    requires l.Inverse() && Safe(l, Take(name, port, draws)) && LeasePort(l, name, port, draws).1.Leased?
    ensures var (l', out) := LeasePort(l, name, port, draws);
            && name in l'.byName && l'.byName[name] == out.port && out.port != 0
            && (port != 0 ==> out.port == port)
            && (port == 0 ==> if name in l.byName then out.port == l.byName[name] else out.port !in l.byPort)
  {
    if port == 0 {
      RandomFreeIsFree(l, draws);
    }
  }

  /** Leasing again what was just leased changes nothing. */
  lemma LeaseAgain(l: Leases, name: Name, port: nat, draws: seq<nat>)
    requires l.Inverse() && name in l.byName && l.byName[name] == port
    ensures LeaseSpecific(l, name, port) == (l, Leased(port))
    ensures LeasePort(l, name, 0, draws).0 == l
  {
    assert (l.byPort - {port})[port := name] == l.byPort;
    assert l.byName[name := port] == l.byName;
  }

  /** The port a name holds, if any, is known to be its own. */
  ghost predicate OwnLease(l: Leases, name: Name) {
    name in l.byName && l.byName[name] != 0 ==> l.byName[name] in l.byPort && l.byPort[l.byName[name]] == name
  }

  /**
   Asking for the port just granted changes nothing, exactly unless a held port that is not the name's own was
   granted again.
   */
  lemma LeaseSettles(l: Leases, name: Name, port: nat, draws: seq<nat>)
    requires LeasePort(l, name, port, draws).1.Leased?
    ensures var (l', out) := LeasePort(l, name, port, draws);
            && out.port != 0
            && (LeaseSpecific(l', name, out.port) == (l', Leased(out.port)) <==> (port == 0 ==> OwnLease(l, name)))
  {
    var (l', out) := LeasePort(l, name, port, draws);
    ScanStops(l, 0, SCANNED);
    if port == 0 && name in l.byName && l.byName[name] != 0 {
      HeldAgain(l, name);
    } else {
      AssignAgain(l, name, out.port);
    }
  }

  lemma HeldAgain(l: Leases, name: Name)
    requires name in l.byName && l.byName[name] != 0
    ensures LeaseSpecific(l, name, l.byName[name]) == (l, Leased(l.byName[name])) <==> OwnLease(l, name)
  {
    var p := l.byName[name];
    assert l.byName[name := p] == l.byName;
    if OwnLease(l, name) {
      assert (l.byPort - {p})[p := name] == l.byPort;
    } else if p !in l.byPort {
      assert p in LeaseSpecific(l, name, p).0.byPort;
    }
  }

  lemma AssignAgain(l: Leases, name: Name, port: nat)
    ensures l.Assign(name, port).Assign(name, port) == l.Assign(name, port)
  {
    var l' := l.Assign(name, port);
    assert (l'.byPort - {port})[port := name] == l'.byPort;
    assert l'.byName[name := port] == l'.byName;
  }

  /** Ports 1 to SCANNED leased to as many names: far from full, yet the scan hands out a held port. */
  function Crowded(): Leases {
    Leases(map p: nat | p in PortsUpTo(SCANNED) :: Holder(p),
           map n | n in HoldersUpTo(SCANNED) :: |n.name|)
  }

  function Holder(p: nat): Name {
    Name("", seq(p, i => 'a'))
  }

  function PortsUpTo(k: nat): (s: set<nat>)
    ensures forall p :: p in s <==> 1 <= p <= k
  {
    if k == 0 then {} else PortsUpTo(k - 1) + {k}
  }

  function HoldersUpTo(k: nat): (s: set<Name>)
    ensures forall n :: n in s <==> 1 <= |n.name| <= k && n == Holder(|n.name|)
  {
    if k == 0 then {} else
      assert |Holder(k).name| == k;
      HoldersUpTo(k - 1) + {Holder(k)}
  }

  lemma {:induction false} PortsUpToSize(k: nat)
    ensures |PortsUpTo(k)| == k
  {
    if k > 0 {
      PortsUpToSize(k - 1);
    }
  }

  lemma {:induction false} HeldDraws(l: Leases, draws: seq<nat>)
    requires forall k :: 0 <= k < |draws| ==> START_PORT + draws[k] in l.byPort
    ensures FirstFree(l, draws) == 0
  {
    if draws != [] {
      HeldDraws(l, draws[1..]);
    }
  }

  /** With two ports less than all of them held, a new name whose draws miss takes a port from its holder. */
  lemma CrowdedBreaks(name: Name, draws: seq<nat>)
    requires name.namespace != "" && forall k :: 0 <= k < |draws| ==> START_PORT + draws[k] <= SCANNED
    ensures Crowded().Inverse() && |Crowded().byPort| == PORT_COUNT - 2
    ensures !LeaseRandom(Crowded(), name, draws).0.Inverse()
  {
    var l := Crowded();
    forall p | p in l.byPort ensures l.byPort[p] in l.byName && l.byName[l.byPort[p]] == p {
      assert |Holder(p).name| == p;
    }
    PortsUpToSize(SCANNED);
    assert l.byPort.Keys == PortsUpTo(SCANNED);
    HeldDraws(l, draws);
    RandomLeaseKeepsInverse(l, name, draws);
  }

  /** A random lease of a new name for which neither a draw nor a scanned port is free. */
  ghost predicate FindsNothing(l: Leases, name: Name, draws: seq<nat>) {
    && l.Inverse() && ValidDraws(draws) && |l.byPort| != PORT_COUNT && name !in l.byName
    && FirstFree(l, draws) == 0 && !Roomy(l)
  }

  /** It takes the last scanned port, whose holder keeps believing in it. */
  lemma HolderDisplaced(l: Leases, name: Name, draws: seq<nat>)
    requires FindsNothing(l, name, draws)
    ensures SCANNED in l.byPort
    ensures var l', holder := LeaseRandom(l, name, draws).0, l.byPort[SCANNED];
            && holder != name && holder in l'.byName && l'.byName[holder] == SCANNED
            && SCANNED in l'.byPort && l'.byPort[SCANNED] == name && |l'.byPort| == |l.byPort|
            && !OwnLease(l', holder)
  {
    ScanStops(l, 0, SCANNED);
    assert SCANNED in l.byPort;
    assert l.byPort[SCANNED := name].Keys == l.byPort.Keys;
    KeysCount(l.byPort, l.byPort[SCANNED := name]);
  }

  lemma KeysCount<K, V>(a: map<K, V>, b: map<K, V>)
    requires a.Keys == b.Keys
    ensures |a| == |b|
  {
    assert |a| == |a.Keys| && |b| == |b.Keys|;
  }

  // ---------------------------------------------------------------- the manager

  class PortManager {
    var leasesByPort: map<nat, Name>
    var leasesByName: map<Name, nat>

    ghost function View(): Leases
      reads this
    {
      Leases(leasesByPort, leasesByName)
    }

    constructor ()
      ensures View() == NONE && View().Inverse()
    {
      leasesByPort, leasesByName := map[], map[];
    }

    /** Random tries first, then the scan, whose starting port the tries never set. */
    method GetRandomFreePort(draws: seq<nat>) returns (port: nat)
      requires |draws| == MAX_RANDOM_TRIES
      ensures port == RandomFree(View(), draws)
    {
      var i := 0;
      while i < MAX_RANDOM_TRIES
        invariant 0 <= i <= |draws|
        invariant FirstFree(View(), draws) == FirstFree(View(), draws[i..])
      {
        var drawn := START_PORT + draws[i];
        if drawn !in leasesByPort {
          return drawn;
        }
        i := i + 1;
      }
      port := 0;
      i := 0;
      while i < PORT_COUNT - 2
        invariant 0 <= i <= SCANNED
        invariant Scan(View(), 0, SCANNED) == Scan(View(), port, SCANNED - i)
      {
        port := port + 1;
        if port == END_PORT {
          port := START_PORT;
        }
        if port !in leasesByPort {
          break;
        }
        i := i + 1;
      }
    }

    method Lease(name: Name, port: nat, draws: seq<nat>) returns (out: Outcome)
      requires |draws| == MAX_RANDOM_TRIES
      modifies this
      ensures (View(), out) == LeasePort(old(View()), name, port, draws)
    {
      if port == 0 {
        out := LeaseWithRandomPort(name, draws);
      } else {
        out := LeaseWithSpecificPort(name, port);
      }
    }

    method LeaseWithRandomPort(name: Name, draws: seq<nat>) returns (out: Outcome)
      requires |draws| == MAX_RANDOM_TRIES
      modifies this
      ensures (View(), out) == LeaseRandom(old(View()), name, draws)
    {
      if |leasesByPort| == PORT_COUNT {
        return AllTaken;
      }
      if name in leasesByName && leasesByName[name] != 0 {
        return Leased(leasesByName[name]);
      }
      var port := GetRandomFreePort(draws);
      if name in leasesByName {
        leasesByPort := leasesByPort - {leasesByName[name]};
      }
      leasesByPort := leasesByPort[port := name];
      leasesByName := leasesByName[name := port];
      return Leased(port);
    }

    method LeaseWithSpecificPort(name: Name, port: nat) returns (out: Outcome)
      modifies this
      ensures (View(), out) == LeaseSpecific(old(View()), name, port)
    {
      if port in leasesByPort && leasesByPort[port] != name {
        return Conflict(leasesByPort[port]);
      }
      if name in leasesByName {
        leasesByPort := leasesByPort - {leasesByName[name]};
      }
      leasesByPort := leasesByPort[port := name];
      leasesByName := leasesByName[name := port];
      return Leased(port);
    }

    method Release(name: Name)
      modifies this
      ensures View() == old(View()).Release(name)
    {
      if name in leasesByName {
        var port := leasesByName[name];
        leasesByName := leasesByName - {name};
        leasesByPort := leasesByPort - {port};
      }
    }
  }
}
