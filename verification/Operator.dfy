/**
 The operator's registration of instances: one instance per namespace owns the deployment, and when it
 is deleted the ownership is handed to the earliest-created instance that remains.
 */
module Operator {
  import opened Common

  /** An instance, identified by its name; the deployment goes to `namespace`. */
  datatype Instance = Instance(namespace: string, created: nat, deleting: bool, finalizer: bool)

  /** The stored instances, the owner of each namespace, and what was deployed, in order. */
  datatype State = State(store: map<string, Instance>, owners: map<string, string>, applied: seq<(string, string)>) {

    /** An owner is stored, in its namespace, with the finalizer that keeps it until it is reconciled. */
    ghost predicate Valid() {
      && (forall ns :: ns in owners ==>
            owners[ns] in store && store[owners[ns]].namespace == ns && store[owners[ns]].finalizer)
      && (forall n :: n in store && store[n].deleting ==> store[n].finalizer)
    }
  }

  /** The candidate for a namespace that a listing yields: created first, and first listed among equals. */
  function Earliest(store: map<string, Instance>, listing: seq<string>, ns: string): Option<string> {
    if listing == [] then None
    else
      var best := Earliest(store, listing[..|listing| - 1], ns);
      var n := listing[|listing| - 1];
      if n in store && store[n].namespace == ns
        && (best.None? || best.value !in store || store[n].created < store[best.value].created)
      then Some(n) else best
  }

  lemma {:induction false} EarliestMeaning(store: map<string, Instance>, listing: seq<string>, ns: string)
    ensures match Earliest(store, listing, ns)
            case None => forall n :: n in listing && n in store ==> store[n].namespace != ns
            case Some(e) =>
              && e in listing && e in store && store[e].namespace == ns
              && forall n :: n in listing && n in store && store[n].namespace == ns ==>
                store[e].created <= store[n].created
    decreases |listing|
  {
    if listing != [] {
      var k := |listing| - 1;
      EarliestMeaning(store, listing[..k], ns);
      assert forall n :: n in listing <==> n in listing[..k] || n == listing[k];
    }
  }

  /** Among instances created at the same time it is the one listed first. */
  lemma {:induction false} EarliestIsFirst(store: map<string, Instance>, listing: seq<string>, ns: string)
    returns (i: int)
    ensures match Earliest(store, listing, ns)
            case None => i == -1
            case Some(e) =>
              && 0 <= i < |listing| && listing[i] == e && e in store
              && forall j :: 0 <= j < i && listing[j] in store && store[listing[j]].namespace == ns ==>
                   store[listing[j]].created > store[e].created
    decreases |listing|
  {
    i := -1;
    if listing != [] {
      var k := |listing| - 1;
      EarliestMeaning(store, listing[..k], ns);
      i := EarliestIsFirst(store, listing[..k], ns);
      assert forall j :: 0 <= j < k ==> listing[j] == listing[..k][j] && listing[j] in listing[..k];
      if Earliest(store, listing, ns) != Earliest(store, listing[..k], ns) {
        i := k;
      }
    }
  }

  /** Reconciling an instance; an owner under deletion is removed and the next one reconciled. */
  function Settle(s: State, listing: seq<string>, name: string): State
    decreases |s.store|
  {
    if name !in s.store then s
    else
      var i := s.store[name];
      if i.namespace in s.owners && s.owners[i.namespace] != name then s
      else if i.deleting then
        var s' := State(s.store - {name}, s.owners - {i.namespace}, s.applied);
        assert s.store.Keys == s'.store.Keys + {name};
        match Earliest(s'.store, listing, i.namespace)
        case None => s'
        case Some(next) => Settle(s', listing, next)
      else
        State(s.store[name := i.(finalizer := true)], s.owners[i.namespace := name],
              s.applied + [(i.namespace, name)])
  }

  /** Everything stored is listed. */
  ghost predicate Complete(s: State, listing: seq<string>) {
    forall n :: n in s.store ==> n in listing
  }

  /** Reconciling keeps the owners valid, and deploys at most once, for the owner it leaves registered. */
  lemma {:induction false} ReconcileKeeps(s: State, listing: seq<string>, name: string)
    requires s.Valid() && Complete(s, listing)
    ensures var s' := Settle(s, listing, name);
            && s'.Valid() && Complete(s', listing)
            && (s'.applied == s.applied ||
                exists ns :: ns in s'.owners && s'.applied == s.applied + [(ns, s'.owners[ns])]
                             && !s'.store[s'.owners[ns]].deleting)
    decreases |s.store|
  {
    if name in s.store {
      var i := s.store[name];
      if !(i.namespace in s.owners && s.owners[i.namespace] != name) {
        if i.deleting {
          var s1 := State(s.store - {name}, s.owners - {i.namespace}, s.applied);
          assert s.store.Keys == s1.store.Keys + {name};
          var next := Earliest(s1.store, listing, i.namespace);
          if next.Some? {
            ReconcileKeeps(s1, listing, next.value);
          }
        } else {
          assert Settle(s, listing, name).owners[i.namespace] == name;
        }
      }
    }
  }

  /** What a reconciliation deploys of `ns`: the instance that owns it afterwards, if any, and nothing else. */
  predicate DeploysOwner(s: State, s': State, ns: string) {
    s'.applied == if ns in s'.owners then s.applied + [(ns, s'.owners[ns])] else s.applied
  }

  /** The instance is missing, or its namespace belongs to another. */
  predicate Blocked(s: State, name: string) {
    name in s.store ==> s.store[name].namespace in s.owners && s.owners[s.store[name].namespace] != name
  }

  lemma {:induction false} Deploys(s: State, listing: seq<string>, name: string)
    requires Complete(s, listing)
    ensures Blocked(s, name) ==> Settle(s, listing, name) == s
    ensures !Blocked(s, name) ==> DeploysOwner(s, Settle(s, listing, name), s.store[name].namespace)
    decreases |s.store|
  {
    if !Blocked(s, name) && s.store[name].deleting {
      var ns := s.store[name].namespace;
      var s1 := State(s.store - {name}, s.owners - {ns}, s.applied);
      assert s.store.Keys == s1.store.Keys + {name};
      EarliestMeaning(s1.store, listing, ns);
      var next := Earliest(s1.store, listing, ns);
      if next.Some? {
        Deploys(s1, listing, next.value);
      }
    }
  }

  /**
   What is deployed. An instance that is not under deletion and has no rival is deployed, once; one under
   deletion has the instance deployed that its namespace passes to, if one remains that is not under
   deletion itself; a missing or blocked instance has nothing deployed.
   */
  lemma DeployedExactly(s: State, listing: seq<string>, name: string)
    requires Complete(s, listing)
    ensures var s' := Settle(s, listing, name);
            if Blocked(s, name) then s' == s
            else
              var ns := s.store[name].namespace;
              if !s.store[name].deleting then s'.applied == s.applied + [(ns, name)]
              else
                if forall n :: n in s.store && s.store[n].namespace == ns ==> s.store[n].deleting
                then s'.applied == s.applied && ns !in s'.owners
                else ns in s'.owners && s'.applied == s.applied + [(ns, s'.owners[ns])]
  {
    if !Blocked(s, name) {
      Deploys(s, listing, name);
      ReconcileCandidate(s, listing, name, s.store[name].namespace);
    }
  }

  /** Instances and owners of other namespaces are not touched. */
  ghost predicate SameElsewhere(s: State, s': State, ns: string) {
    && (forall n :: n in s'.store ==> n in s.store && s'.store[n].namespace == s.store[n].namespace
                                      && s'.store[n].deleting == s.store[n].deleting
                                      && s'.store[n].created == s.store[n].created)
    && (forall n :: n in s.store && s.store[n].namespace != ns ==> n in s'.store && s'.store[n] == s.store[n])
    && (forall m :: m != ns ==> (m in s'.owners <==> m in s.owners) && (m in s.owners ==> s'.owners[m] == s.owners[m]))
  }

  /** What a namespace looks like after its owner, or a candidate without a rival, was reconciled. */
  ghost predicate Settled(s: State, ns: string) {
    if ns in s.owners then
      && s.owners[ns] in s.store && s.store[s.owners[ns]].namespace == ns && !s.store[s.owners[ns]].deleting
    else
      forall n :: n in s.store ==> s.store[n].namespace != ns
  }

  /** The owner was created no later than any other instance of its namespace. */
  ghost predicate OwnedByEarliest(s: State, ns: string) {
    ns in s.owners && s.owners[ns] in s.store ==>
      forall n :: n in s.store && s.store[n].namespace == ns ==> s.store[s.owners[ns]].created <= s.store[n].created
  }

  lemma {:induction false} ReconcileCandidate(s: State, listing: seq<string>, name: string, ns: string)
    requires Complete(s, listing) && name in s.store && s.store[name].namespace == ns
    requires ns in s.owners ==> s.owners[ns] == name
    ensures var s' := Settle(s, listing, name);
            && SameElsewhere(s, s', ns) && Settled(s', ns)
            && (forall n :: n in s.store && n !in s'.store ==> s.store[n].deleting)
            && (s.store[name].deleting ==> name !in s'.store && OwnedByEarliest(s', ns))
            && (!s.store[name].deleting ==> ns in s'.owners && s'.owners[ns] == name)
    decreases |s.store|
  {
    if s.store[name].deleting {
      var s1 := State(s.store - {name}, s.owners - {ns}, s.applied);
      assert s.store.Keys == s1.store.Keys + {name};
      EarliestMeaning(s1.store, listing, ns);
      var next := Earliest(s1.store, listing, ns);
      if next.Some? {
        ReconcileCandidate(s1, listing, next.value, ns);
        RemovedElsewhere(s, s1, Settle(s1, listing, next.value), name, ns);
      }
    }
  }

  lemma RemovedElsewhere(s: State, s1: State, s': State, name: string, ns: string)
    requires name in s.store && s.store[name].namespace == ns
    requires s1 == State(s.store - {name}, s.owners - {ns}, s.applied) && SameElsewhere(s1, s', ns)
    ensures SameElsewhere(s, s', ns)
  {
  }

  /**
   Hand-over. Reconciling an owner under deletion removes it, and with it any successors that are under
   deletion too; the namespace then belongs to the earliest-created instance that remains, which gets
   deployed, or to nobody if none remains.
   */
  lemma HandOver(s: State, listing: seq<string>, name: string)
    requires s.Valid() && Complete(s, listing) && name in s.store && s.store[name].deleting
    requires s.store[name].namespace in s.owners ==> s.owners[s.store[name].namespace] == name
    ensures var ns := s.store[name].namespace;
            var s' := Settle(s, listing, name);
            && name !in s'.store && SameElsewhere(s, s', ns) && Settled(s', ns) && OwnedByEarliest(s', ns)
            && (forall n :: n in s.store && n !in s'.store ==> s.store[n].deleting)
            && s'.applied == (if ns in s'.owners then s.applied + [(ns, s'.owners[ns])] else s.applied)
  {
    ReconcileCandidate(s, listing, name, s.store[name].namespace);
    Deploys(s, listing, name);
  }

  /** Ownership leaves an instance only by its own deletion. */
  lemma OwnershipIsKept(s: State, listing: seq<string>, name: string, ns: string)
    requires s.Valid() && Complete(s, listing) && ns in s.owners
    ensures var s' := Settle(s, listing, name);
            var owner := s.owners[ns];
            (ns in s'.owners && s'.owners[ns] == owner)
              || (name == owner && s.store[owner].deleting && owner !in s'.store)
  {
    if name in s.store {
      var m := s.store[name].namespace;
      if m !in s.owners || s.owners[m] == name {
        ReconcileCandidate(s, listing, name, m);
      }
    }
  }

  // ---------------------------------------------------------------- runs

  datatype Event =
    | Create(name: string, namespace: string, created: nat)
    | RequestDelete(name: string)
    | Handle(name: string, listing: seq<string>)

  /** An instance without finalizer is deleted at once; one with finalizer waits for its reconciliation. */
  function Next(s: State, e: Event): State {
    match e
    case Create(n, ns, t) => if n in s.store then s else s.(store := s.store[n := Instance(ns, t, false, false)])
    case RequestDelete(n) =>
      if n !in s.store then s
      else if s.store[n].finalizer then s.(store := s.store[n := s.store[n].(deleting := true)])
      else s.(store := s.store - {n})
    case Handle(n, listing) => Settle(s, listing, n)
  }

  ghost predicate Legal(s: State, events: seq<Event>)
    decreases |events|
  {
    events == [] || ((events[0].Handle? ==> Complete(s, events[0].listing)) && Legal(Next(s, events[0]), events[1..]))
  }

  function Run(s: State, events: seq<Event>): State
    decreases |events|
  {
    if events == [] then s else Run(Next(s, events[0]), events[1..])
  }

  /** Over every run owners are stored instances of their namespace, and an undeleted owner stays the owner. */
  lemma {:induction false} RunKeepsOwner(s: State, events: seq<Event>, ns: string)
    requires s.Valid() && Legal(s, events)
    requires ns in s.owners && !s.store[s.owners[ns]].deleting
    requires forall k :: 0 <= k < |events| ==> events[k] != RequestDelete(s.owners[ns])
    ensures var s' := Run(s, events);
            s'.Valid() && ns in s'.owners && s'.owners[ns] == s.owners[ns] && !s'.store[s'.owners[ns]].deleting
    decreases |events|
  {
    if events != [] {
      var e := events[0];
      if e.Handle? {
        ReconcileKeeps(s, e.listing, e.name);
        OwnershipIsKept(s, e.listing, e.name, ns);
        OwnerStaysAlive(s, e.listing, e.name, s.owners[ns]);
      }
      RunKeepsOwner(Next(s, e), events[1..], ns);
    }
  }

  lemma {:induction false} OwnerStaysAlive(s: State, listing: seq<string>, name: string, n: string)
    requires Complete(s, listing) && n in s.store && !s.store[n].deleting
    ensures n in Settle(s, listing, name).store && !Settle(s, listing, name).store[n].deleting
  {
    if name in s.store {
      var m := s.store[name].namespace;
      if m !in s.owners || s.owners[m] == name {
        ReconcileCandidate(s, listing, name, m);
      }
    }
  }

  // ---------------------------------------------------------------- the reconciler

  class InstanceReconciler {
    var store: map<string, Instance>
    var instances: map<string, string>
    ghost var applied: seq<(string, string)>

    ghost function View(): State
      reads this
    {
      State(store, instances, applied)
    }

    constructor ()
      ensures View() == State(map[], map[], [])
    {
      store, instances, applied := map[], map[], [];
    }

    method Reconcile(listing: seq<string>, name: string)
      modifies this
      ensures View() == Settle(old(View()), listing, name)
      decreases |store|, 1
    {
      if name !in store {
        return;
      }
      var instance := store[name];
      var ns := instance.namespace;
      if ns in instances {
        if instances[ns] != name {
          return;
        }
      } else {
        instances := instances[ns := name];
      }
      if instance.deleting {
        assert store.Keys == (store - {name}).Keys + {name};
        store := store - {name};
        instances := instances - {ns};
        assert instances == old(instances) - {ns};
        TriggerAnotherInstance(listing, ns);
        return;
      }
      store := store[name := instance.(finalizer := true)];
      assert instances == old(instances)[ns := name];
      applied := applied + [(ns, name)];
    }

    method TriggerAnotherInstance(listing: seq<string>, ns: string)
      modifies this
      ensures View() == match Earliest(old(store), listing, ns)
                        case None => old(View())
                        case Some(next) => Settle(old(View()), listing, next)
      decreases |store|, 2
    {
      var earliest: Option<string> := None;
      var i := 0;
      assert listing[..0] == [];
      while i < |listing|
        invariant 0 <= i <= |listing|
        invariant earliest == Earliest(store, listing[..i], ns)
        invariant earliest.Some? ==> earliest.value in store
        invariant View() == old(View())
      {
        assert listing[..i + 1][..i] == listing[..i];
        var n := listing[i];
        if n in store && store[n].namespace == ns {
          if earliest.None? || store[n].created < store[earliest.value].created {
            earliest := Some(n);
          }
        }
        i := i + 1;
      }
      assert listing[..i] == listing;
      if earliest.Some? {
        Reconcile(listing, earliest.value);
      }
    }
  }
}
