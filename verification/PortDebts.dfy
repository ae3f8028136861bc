/** What the leases of ports still owe to the imports: leases to end, to move and to record. */
module PortDebts {
  import opened Common
  import opened Weights
  import opened Reconcile
  import L = Ports

  type Imports = map<Name, Import>

  /** Leases of imports that are gone. */
  function Leftover(imports: Imports, l: L.Leases): set<Name> {
    l.byName.Keys - imports.Keys
  }

  /** Imports that do not hold the port they ask for. */
  function Moving(imports: Imports, l: L.Leases): set<Name> {
    set n | n in imports && !(n in l.byName && l.byName[n] == imports[n].targetPort)
  }

  /** Imports whose port is not recorded as anyone's. */
  function Unrecorded(imports: Imports, l: L.Leases): set<Name> {
    set n | n in imports && imports[n].targetPort !in l.byPort
  }

  function Debts(imports: Imports, l: L.Leases): (nat, nat, nat) {
    (|Leftover(imports, l)|, |Moving(imports, l)|, |Unrecorded(imports, l)|)
  }

  /** Giving an import the port it asks for changes nothing or pays a debt. */
  lemma AssignPays(imports: Imports, l: L.Leases, n: Name)
    requires n in imports && (imports[n].targetPort in l.byPort ==> l.byPort[imports[n].targetPort] == n)
    ensures var l' := l.Assign(n, imports[n].targetPort);
            l' == l || LexLess(Debts(imports, l'), Debts(imports, l))
  {
    var p := imports[n].targetPort;
    if !(n in l.byName && l.byName[n] == p) {
      AssignMoves(imports, l, n);
    } else if p in l.byPort {
      assert (l.byPort - {p})[p := n] == l.byPort && l.byName[n := p] == l.byName;
    } else {
      AssignRecords(imports, l, n);
    }
  }

  lemma AssignMoves(imports: Imports, l: L.Leases, n: Name)
    requires n in imports && !(n in l.byName && l.byName[n] == imports[n].targetPort)
    ensures LexLess(Debts(imports, l.Assign(n, imports[n].targetPort)), Debts(imports, l))
  {
    var l' := l.Assign(n, imports[n].targetPort);
    assert Leftover(imports, l') == Leftover(imports, l);
    assert Moving(imports, l') == Moving(imports, l) - {n};
    RemovedSize(Moving(imports, l), n);
  }

  lemma AssignRecords(imports: Imports, l: L.Leases, n: Name)
    requires n in imports && n in l.byName && l.byName[n] == imports[n].targetPort && imports[n].targetPort !in l.byPort
    ensures LexLess(Debts(imports, l.Assign(n, imports[n].targetPort)), Debts(imports, l))
  {
    var p := imports[n].targetPort;
    var l' := l.Assign(n, p);
    assert l.byName[n := p] == l.byName;
    assert Leftover(imports, l') == Leftover(imports, l) && Moving(imports, l') == Moving(imports, l);
    assert n in Unrecorded(imports, l) && n !in Unrecorded(imports, l');
    SubsetSize(Unrecorded(imports, l'), Unrecorded(imports, l) - {n});
    RemovedSize(Unrecorded(imports, l), n);
  }

  /** Ending the lease of an import that is gone changes nothing or pays a debt. */
  lemma ReleasePays(imports: Imports, l: L.Leases, n: Name)
    requires n !in imports
    ensures l.Release(n) == l || LexLess(Debts(imports, l.Release(n)), Debts(imports, l))
  {
    if n in l.byName {
      assert Leftover(imports, l.Release(n)) == Leftover(imports, l) - {n};
      RemovedSize(Leftover(imports, l), n);
    }
  }
}
