/**
 The connectivity policy decision point: two tiers of policies, each split into a deny map and an
 allow map that are changed in place, against one last-writer map per tier and a declarative rule.
 */
module Pdp {
  import opened Common
  import opened Policies

  type PolicyMap = map<Name, Spec>

  // ---------------------------------------------------------------- the reference

  /** What the decision point knows: the last accepted policy of each name, in each tier. */
  datatype Store = Store(privileged: PolicyMap, regular: PolicyMap) {
    function Tier(privilege: bool): PolicyMap {
      if privilege then privileged else regular
    }

    function With(privilege: bool, policies: PolicyMap): Store {
      if privilege then this.(privileged := policies) else this.(regular := policies)
    }
  }

  const EMPTY := Store(map[], map[])

  datatype Op = AddOrUpdate(privilege: bool, name: Name, spec: Spec) | Delete(privilege: bool, name: Name)

  /** An invalid policy changes nothing; a valid one replaces whatever had its name, of either action. */
  function Step(s: Store, op: Op): Store {
    s.With(op.privilege, TierStep(s.Tier(op.privilege), op))
  }

  function TierStep(m: PolicyMap, op: Op): PolicyMap {
    match op
    case AddOrUpdate(_, name, spec) => if ValidSpec(spec) then m[name := spec] else m
    case Delete(_, name) => m - {name}
  }

  function Replay(s: Store, ops: seq<Op>): Store
    decreases |ops|
  {
    if ops == [] then s else Replay(Step(s, ops[0]), ops[1..])
  }

  ghost predicate Accepted(s: Store) {
    && (forall n :: n in s.privileged ==> ValidSpec(s.privileged[n]))
    && (forall n :: n in s.regular ==> ValidSpec(s.regular[n]))
  }

  /** Whether policy `name` of a tier takes part in decisions for namespace `ns`. */
  predicate InScope(privilege: bool, name: Name, ns: string) {
    privilege || name.namespace == ns
  }

  /** What makes a policy decide a connection with the given action. */
  ghost function Deciding(privilege: bool, action: Action, src: Attrs, dst: Attrs, ns: string): (Name, Spec) -> bool {
    (name: Name, spec: Spec) => InScope(privilege, name, ns) && spec.action == action && Applies(spec, src, dst)
  }

  ghost predicate Decides(
    m: PolicyMap, privilege: bool, name: Name, action: Action, src: Attrs, dst: Attrs, ns: string) {
    name in m && Deciding(privilege, action, src, dst, ns)(name, m[name])
  }

  ghost predicate SomeDecides(m: PolicyMap, privilege: bool, action: Action, src: Attrs, dst: Attrs, ns: string) {
    Has(m, Deciding(privilege, action, src, dst, ns))
  }

  ghost predicate Has<K, V>(m: map<K, V>, q: (K, V) -> bool) {
    exists k :: k in m && q(k, m[k])
  }

  lemma SomeIff(m: PolicyMap, p: bool, a: Action, src: Attrs, dst: Attrs, ns: string)
    ensures SomeDecides(m, p, a, src, dst, ns) <==> exists n :: Decides(m, p, n, a, src, dst, ns)
  {
    var q := Deciding(p, a, src, dst, ns);
    assert forall n :: Decides(m, p, n, a, src, dst, ns) <==> n in m && q(n, m[n]);
  }

  lemma HasAfterUpdate<K, V>(m: map<K, V>, k: K, v: V, q: (K, V) -> bool)
    requires k !in m
    ensures Has(m[k := v], q) <==> Has(m, q) || q(k, v)
  {
    var m' := m[k := v];
    assert m'[k] == v;
    assert forall x :: x in m ==> x in m' && m'[x] == m[x];
  }

  lemma SameHits<K(!new), V(!new)>(m: map<K, V>, m': map<K, V>, q: (K, V) -> bool)
    requires forall k, v :: q(k, v) ==> (k in m <==> k in m') && (k in m ==> m[k] == m'[k])
    ensures Has(m, q) <==> Has(m', q)
  {
    assert forall k :: k in m && q(k, m[k]) ==> k in m' && q(k, m'[k]);
    assert forall k :: k in m' && q(k, m'[k]) ==> k in m && q(k, m[k]);
  }

  lemma MergeUpdate<K, V>(d: map<K, V>, a: map<K, V>, k: K, v: V)
    ensures k !in a ==> d[k := v] + a == (d + a)[k := v]
    ensures d + a[k := v] == (d + a)[k := v]
    ensures (d + a - {k})[k := v] == (d + a)[k := v]
  {
  }

  /** Privileged deny, then privileged allow, then the namespace's own deny and allow; otherwise deny. */
  ghost predicate Allowed(s: Store, src: Attrs, dst: Attrs, ns: string) {
    && !SomeDecides(s.privileged, true, Deny, src, dst, ns)
    && (|| SomeDecides(s.privileged, true, Allow, src, dst, ns)
        || (&& !SomeDecides(s.regular, false, Deny, src, dst, ns)
            && SomeDecides(s.regular, false, Allow, src, dst, ns)))
  }

  ghost predicate PrivilegedMatch(s: Store, src: Attrs, dst: Attrs, ns: string) {
    SomeDecides(s.privileged, true, Deny, src, dst, ns) || SomeDecides(s.privileged, true, Allow, src, dst, ns)
  }

  ghost predicate DependsOnClient(s: Store) {
    exists p, n :: n in s.Tier(p) && SpecDependsOnClient(s.Tier(p)[n])
  }

  /** Policy `n` is one of the given action that selects the client by some `from`, and the destination by some `to`. */
  ghost predicate Hits(m: PolicyMap, n: Name, a: Action, src: Attrs, dst: Attrs) {
    && n in m && m[n].action == a
    && (exists w :: w in m[n].from && w.selector.Some? && Selects(w.selector.value, src))
    && (exists w :: w in m[n].to && w.selector.Some? && Selects(w.selector.value, dst))
  }

  /** The decision, by the first line that applies. */
  lemma DecisionTable(s: Store, src: Attrs, dst: Attrs, ns: string)
    ensures (exists n :: Hits(s.privileged, n, Deny, src, dst)) ==> !Allowed(s, src, dst, ns)
    ensures (forall n :: !Hits(s.privileged, n, Deny, src, dst)) ==>
              ((exists n :: Hits(s.privileged, n, Allow, src, dst)) ==> Allowed(s, src, dst, ns))
    ensures (forall n :: !Hits(s.privileged, n, Deny, src, dst) && !Hits(s.privileged, n, Allow, src, dst)) ==>
              ((exists n: Name :: n.namespace == ns && Hits(s.regular, n, Deny, src, dst)) ==>
                !Allowed(s, src, dst, ns))
    ensures (forall n :: !Hits(s.privileged, n, Deny, src, dst) && !Hits(s.privileged, n, Allow, src, dst)) ==>
              (forall n: Name :: n.namespace == ns ==> !Hits(s.regular, n, Deny, src, dst)) ==>
              (Allowed(s, src, dst, ns) <==> exists n: Name :: n.namespace == ns && Hits(s.regular, n, Allow, src, dst))
    ensures PrivilegedMatch(s, src, dst, ns) <==>
              exists n :: Hits(s.privileged, n, Deny, src, dst) || Hits(s.privileged, n, Allow, src, dst)
  {
    HitsDecide(s.privileged, true, Deny, src, dst, ns);
    HitsDecide(s.privileged, true, Allow, src, dst, ns);
    HitsDecide(s.regular, false, Deny, src, dst, ns);
    HitsDecide(s.regular, false, Allow, src, dst, ns);
  }

  lemma HitsDecide(m: PolicyMap, p: bool, a: Action, src: Attrs, dst: Attrs, ns: string)
    ensures SomeDecides(m, p, a, src, dst, ns) <==>
            exists n: Name :: (p || n.namespace == ns) && Hits(m, n, a, src, dst)
  {
    SomeIff(m, p, a, src, dst, ns);
    forall n: Name ensures Decides(m, p, n, a, src, dst, ns) <==> (p || n.namespace == ns) && Hits(m, n, a, src, dst) {
      if n in m {
        assert Decides(m, p, n, a, src, dst, ns) <==> InScope(p, n, ns) && m[n].action == a && Applies(m[n], src, dst);
        assert Applies(m[n], src, dst) <==> Covers(m[n].from, src) && Covers(m[n].to, dst);
        assert Hits(m, n, a, src, dst) <==> m[n].action == a && Covers(m[n].from, src) && Covers(m[n].to, dst);
      }
    }
  }

  // ---------------------------------------------------------------- properties of the reference

  /**
   Noninterference: while no policy's `from` has a requirement, the decision is the same for any two
   clients, so deciding on a client without known attributes is sound.
   */
  lemma Noninterference(s: Store, src: Attrs, src': Attrs, dst: Attrs, ns: string)
    requires !DependsOnClient(s)
    ensures Allowed(s, src, dst, ns) <==> Allowed(s, src', dst, ns)
    ensures PrivilegedMatch(s, src, dst, ns) <==> PrivilegedMatch(s, src', dst, ns)
  {
    TierNoninterference(s, true, Allow, src, src', dst, ns);
    TierNoninterference(s, true, Deny, src, src', dst, ns);
    TierNoninterference(s, false, Allow, src, src', dst, ns);
    TierNoninterference(s, false, Deny, src, src', dst, ns);
  }

  lemma TierNoninterference(s: Store, p: bool, a: Action, src: Attrs, src': Attrs, dst: Attrs, ns: string)
    requires !DependsOnClient(s)
    ensures SomeDecides(s.Tier(p), p, a, src, dst, ns) <==> SomeDecides(s.Tier(p), p, a, src', dst, ns)
  {
    var m, q, q' := s.Tier(p), Deciding(p, a, src, dst, ns), Deciding(p, a, src', dst, ns);
    forall n | n in m ensures q(n, m[n]) <==> q'(n, m[n]) {
      IndifferentToClient(m[n], src, src', dst);
    }
  }

  /** A policy under an unused name adds its own decisions and removes none. */
  lemma AddUnused(
    m: PolicyMap, p: bool, name: Name, spec: Spec, m': PolicyMap, a: Action, src: Attrs, dst: Attrs, ns: string)
    requires name !in m && m' == m[name := spec]
    ensures SomeDecides(m', p, a, src, dst, ns) <==>
            || SomeDecides(m, p, a, src, dst, ns)
            || (InScope(p, name, ns) && a == spec.action && Applies(spec, src, dst))
  {
    HasAfterUpdate(m, name, spec, Deciding(p, a, src, dst, ns));
  }

  /** Deny policies only deny more, allow policies only allow more. */
  lemma AddIsMonotone(s: Store, p: bool, name: Name, spec: Spec, src: Attrs, dst: Attrs, ns: string)
    requires name !in s.Tier(p) && ValidSpec(spec)
    ensures var s' := Step(s, AddOrUpdate(p, name, spec));
            && (spec.action == Deny && Allowed(s', src, dst, ns) ==> Allowed(s, src, dst, ns))
            && (spec.action == Allow && Allowed(s, src, dst, ns) ==> Allowed(s', src, dst, ns))
  {
    var s' := Step(s, AddOrUpdate(p, name, spec));
    AddUnused(s.Tier(p), p, name, spec, s'.Tier(p), Deny, src, dst, ns);
    AddUnused(s.Tier(p), p, name, spec, s'.Tier(p), Allow, src, dst, ns);
  }

  /** No change to a regular policy touches a privileged match or another namespace's decisions. */
  lemma RegularIsLocal(s: Store, op: Op, src: Attrs, dst: Attrs, ns: string)
    requires !op.privilege
    ensures PrivilegedMatch(Step(s, op), src, dst, ns) <==> PrivilegedMatch(s, src, dst, ns)
    ensures PrivilegedMatch(s, src, dst, ns) || op.name.namespace != ns ==>
              (Allowed(Step(s, op), src, dst, ns) <==> Allowed(s, src, dst, ns))
  {
    var s' := Step(s, op);
    assert s'.privileged == s.privileged;
    if op.name.namespace != ns {
      forall a: Action
        ensures SomeDecides(s'.regular, false, a, src, dst, ns) <==> SomeDecides(s.regular, false, a, src, dst, ns)
      {
        var q := Deciding(false, a, src, dst, ns);
        forall n: Name, spec: Spec | q(n, spec) ensures n != op.name {
          assert InScope(false, n, ns);
        }
        SameHits(s.regular, s'.regular, q);
      }
    }
  }

  /** Operations on different policies commute. */
  lemma DistinctOpsCommute(s: Store, x: Op, y: Op)
    requires x.privilege != y.privilege || x.name != y.name
    ensures Step(Step(s, x), y) == Step(Step(s, y), x)
  {
    if x.privilege == y.privilege {
      TierStepsCommute(s.Tier(x.privilege), x, y);
    }
  }

  lemma TierStepsCommute(m: PolicyMap, x: Op, y: Op)
    requires x.name != y.name
    ensures TierStep(TierStep(m, x), y) == TierStep(TierStep(m, y), x)
  {
    var a, b := TierStep(TierStep(m, x), y), TierStep(TierStep(m, y), x);
    forall n: Name ensures (n in a <==> n in b) && (n in a ==> a[n] == b[n]) {
    }
    assert a == b;
  }

  lemma {:induction false} ReplayAccepted(s: Store, ops: seq<Op>)
    requires Accepted(s)
    ensures Accepted(Replay(s, ops))
    decreases |ops|
  {
    if ops != [] {
      ReplayAccepted(Step(s, ops[0]), ops[1..]);
    }
  }

  /** What the last operation on a name says is what the store holds for it, after any run. */
  lemma {:induction false} LastWriterWins(s: Store, ops: seq<Op>, k: nat, p: bool, name: Name)
    requires k < |ops| && ops[k].privilege == p && ops[k].name == name
    requires ops[k].AddOrUpdate? ==> ValidSpec(ops[k].spec)
    requires forall j :: k < j < |ops| && ops[j].privilege == p && ops[j].name == name ==>
               ops[j].AddOrUpdate? && !ValidSpec(ops[j].spec)
    ensures name in Replay(s, ops).Tier(p) <==> ops[k].AddOrUpdate?
    ensures ops[k].AddOrUpdate? ==> Replay(s, ops).Tier(p)[name] == ops[k].spec
    decreases |ops|
  {
    if k > 0 {
      LastWriterWins(Step(s, ops[0]), ops[1..], k - 1, p, name);
    } else {
      UntouchedStays(Step(s, ops[0]), ops[1..], p, name);
    }
  }

  lemma {:induction false} UntouchedStays(s: Store, ops: seq<Op>, p: bool, name: Name)
    requires forall j :: 0 <= j < |ops| && ops[j].privilege == p && ops[j].name == name ==>
               ops[j].AddOrUpdate? && !ValidSpec(ops[j].spec)
    ensures name in Replay(s, ops).Tier(p) <==> name in s.Tier(p)
    ensures name in s.Tier(p) ==> Replay(s, ops).Tier(p)[name] == s.Tier(p)[name]
    decreases |ops|
  {
    if ops != [] {
      UntouchedStays(Step(s, ops[0]), ops[1..], p, name);
    }
  }

  // ---------------------------------------------------------------- the tiers, changed in place

  datatype Decision = Undecided | AllowIt | DenyIt

  datatype DestinationDecision = DestinationDecision(decision: Decision, matchedBy: Option<Name>, privilegedMatch: bool)

  const FRESH := DestinationDecision(Undecided, None, false)

  /** A policy's own decision, or none if it does not match; evaluation may fail. */
  function PolicyDecide(spec: Spec, src: Attrs, dst: Attrs): (bool, Decision) {
    match SpecMatches(spec, src, dst)
    case Failed => (false, DenyIt)
    case Answer(yes) => (true, if !yes then Undecided else if spec.action == Allow then AllowIt else DenyIt)
  }

  function ActionOf(d: Decision): Action
    requires d != Undecided
  {
    if d == AllowIt then Allow else Deny
  }

  /** One map of policies of one action, visited in any order until one matches. */
  method DecideInMap(policies: PolicyMap, ghost action: Action, src: Attrs, dst: Attrs, privilege: bool, ns: string)
    returns (ok: bool, d: DestinationDecision)
    requires action == Allow || action == Deny
    requires forall n :: n in policies ==> ValidSpec(policies[n]) && policies[n].action == action
    ensures ok
    ensures d.decision != Undecided ==>
              && d.privilegedMatch == privilege && ActionOf(d.decision) == action
              && d.matchedBy.Some? && Decides(policies, privilege, d.matchedBy.value, action, src, dst, ns)
    ensures d.decision == Undecided ==>
              d == FRESH && forall n :: !Decides(policies, privilege, n, action, src, dst, ns)
  {
    var left := policies.Keys;
    d := FRESH;
    while left != {}
      invariant left <= policies.Keys
      invariant forall n :: n in policies && n !in left ==> !Decides(policies, privilege, n, action, src, dst, ns)
      decreases left
    {
      var name :| name in left;
      left := left - {name};
      if !privilege && name.namespace != ns {
        continue;
      }
      ValidSpecMatches(policies[name], src, dst);
      var r := PolicyDecide(policies[name], src, dst);
      if !r.0 {
        return false, d;
      }
      if r.1 != Undecided {
        return true, DestinationDecision(r.1, Some(name), privilege);
      }
    }
    return true, d;
  }

  /** Splitting a tier by action does not change who decides. */
  lemma SplitDecides(deny: PolicyMap, allow: PolicyMap, p: bool, src: Attrs, dst: Attrs, ns: string)
    requires deny.Keys !! allow.Keys
    requires forall n :: n in deny ==> deny[n].action == Deny
    requires forall n :: n in allow ==> allow[n].action == Allow
    ensures forall n :: Decides(deny + allow, p, n, Deny, src, dst, ns) <==> Decides(deny, p, n, Deny, src, dst, ns)
    ensures forall n :: Decides(deny + allow, p, n, Allow, src, dst, ns) <==> Decides(allow, p, n, Allow, src, dst, ns)
    ensures forall n, a :: Decides(deny + allow, p, n, a, src, dst, ns) ==> a == Deny || a == Allow
  {
  }

  class PolicyTier {
    const privileged: bool
    var denyPolicies: PolicyMap
    var allowPolicies: PolicyMap

    ghost predicate Valid()
      reads this
    {
      && denyPolicies.Keys !! allowPolicies.Keys
      && (forall n :: n in denyPolicies ==> ValidSpec(denyPolicies[n]) && denyPolicies[n].action == Deny)
      && (forall n :: n in allowPolicies ==> ValidSpec(allowPolicies[n]) && allowPolicies[n].action == Allow)
    }

    ghost function View(): PolicyMap
      reads this
    {
      denyPolicies + allowPolicies
    }

    constructor (privileged: bool)
      ensures this.privileged == privileged && Valid() && View() == map[]
    {
      this.privileged := privileged;
      denyPolicies, allowPolicies := map[], map[];
    }

    method DeletePolicy(name: Name) returns (ok: bool)
      requires Valid()
      modifies this
      ensures Valid() && View() == old(View()) - {name}
      ensures ok <==> name in old(View())
    {
      ok := false;
      if name in denyPolicies {
        denyPolicies := denyPolicies - {name};
        ok := true;
      }
      if name in allowPolicies {
        allowPolicies := allowPolicies - {name};
        ok := true;
      }
    }

    method AddPolicy(name: Name, spec: Spec)
      requires Valid() && ValidSpec(spec)
      modifies this
      ensures Valid() && View() == old(View())[name := spec]
    {
      MergeUpdate(denyPolicies, allowPolicies, name, spec);
      var _ := DeletePolicy(name);
      MergeUpdate(denyPolicies, allowPolicies, name, spec);
      assert name !in View();
      if spec.action == Deny {
        denyPolicies := denyPolicies[name := spec];
      } else {
        allowPolicies := allowPolicies[name := spec];
      }
    }

    /** Deny policies are consulted first; the named policy is one that decides. */
    method Decide(src: Attrs, dst: Attrs, ns: string) returns (ok: bool, d: DestinationDecision)
      requires Valid()
      ensures ok
      ensures d.decision != Undecided ==>
                && d.privilegedMatch == privileged && d.matchedBy.Some?
                && Decides(View(), privileged, d.matchedBy.value, ActionOf(d.decision), src, dst, ns)
      ensures d.decision == DenyIt <==> SomeDecides(View(), privileged, Deny, src, dst, ns)
      ensures d.decision == Undecided ==> d == FRESH && forall a :: !SomeDecides(View(), privileged, a, src, dst, ns)
    {
      SplitDecides(denyPolicies, allowPolicies, privileged, src, dst, ns);
      forall a ensures SomeDecides(View(), privileged, a, src, dst, ns)
                  <==> exists n :: Decides(View(), privileged, n, a, src, dst, ns) {
        SomeIff(View(), privileged, a, src, dst, ns);
      }
      ok, d := DecideInMap(denyPolicies, Deny, src, dst, privileged, ns);
      if !ok || d.decision != Undecided {
        return;
      }
      ok, d := DecideInMap(allowPolicies, Allow, src, dst, privileged, ns);
    }

    method DependsOnClientAttrs() returns (yes: bool)
      ensures Valid() ==> (yes <==> exists n :: n in View() && SpecDependsOnClient(View()[n]))
    {
      yes := (exists n :: n in denyPolicies && SpecDependsOnClient(denyPolicies[n]))
          || (exists n :: n in allowPolicies && SpecDependsOnClient(allowPolicies[n]));
      assert forall n :: n in denyPolicies && n !in allowPolicies ==> View()[n] == denyPolicies[n];
      assert forall n :: n in allowPolicies ==> View()[n] == allowPolicies[n];
    }
  }

  class PDP {
    const privilegedPolicies: PolicyTier
    const regularPolicies: PolicyTier

    ghost predicate Valid()
      reads this, privilegedPolicies, regularPolicies
    {
      && privilegedPolicies != regularPolicies
      && privilegedPolicies.privileged && !regularPolicies.privileged
      && privilegedPolicies.Valid() && regularPolicies.Valid()
    }

    /** The four maps, as the last-writer store they stand for. */
    ghost function View(): Store
      reads this, privilegedPolicies, regularPolicies
    {
      Store(privilegedPolicies.View(), regularPolicies.View())
    }

    constructor ()
      ensures Valid() && View() == EMPTY && fresh(privilegedPolicies) && fresh(regularPolicies)
    {
      privilegedPolicies := new PolicyTier(true);
      regularPolicies := new PolicyTier(false);
    }

    /** A rejected update leaves the old policy in force. */
    method AddOrUpdatePolicy(privilege: bool, name: Name, spec: Spec) returns (ok: bool)
      requires Valid()
      modifies privilegedPolicies, regularPolicies
      ensures Valid() && View() == Step(old(View()), AddOrUpdate(privilege, name, spec))
      ensures ok <==> ValidSpec(spec)
    {
      if !ValidSpec(spec) {
        return false;
      }
      if privilege {
        privilegedPolicies.AddPolicy(name, spec);
      } else {
        regularPolicies.AddPolicy(name, spec);
      }
      return true;
    }

    method DeletePolicy(privilege: bool, name: Name) returns (ok: bool)
      requires Valid()
      modifies privilegedPolicies, regularPolicies
      ensures Valid() && View() == Step(old(View()), Delete(privilege, name))
      ensures ok <==> name in old(View()).Tier(privilege)
    {
      if privilege {
        ok := privilegedPolicies.DeletePolicy(name);
      } else {
        ok := regularPolicies.DeletePolicy(name);
      }
    }

    /** Never fails, whatever order the maps are visited in, and decides by the precedence rule. */
    method Decide(src: Attrs, dst: Attrs, ns: string) returns (ok: bool, d: DestinationDecision)
      requires Valid()
      ensures ok && d.decision != Undecided
      ensures d.decision == AllowIt <==> Allowed(View(), src, dst, ns)
      ensures d.privilegedMatch <==> PrivilegedMatch(View(), src, dst, ns)
      ensures d.matchedBy.Some? ==>
                Decides(View().Tier(d.privilegedMatch), d.privilegedMatch, d.matchedBy.value,
                        ActionOf(d.decision), src, dst, ns)
      ensures d.matchedBy.None? ==>
                d.decision == DenyIt && forall p, a :: !SomeDecides(View().Tier(p), p, a, src, dst, ns)
    {
      ok, d := privilegedPolicies.Decide(src, dst, ns);
      if !ok || d.decision != Undecided {
        return;
      }
      ok, d := regularPolicies.Decide(src, dst, ns);
      if !ok || d.decision != Undecided {
        return;
      }
      return true, DestinationDecision(DenyIt, None, false);
    }

    method DependsOnClientAttrs() returns (yes: bool)
      requires Valid()
      ensures yes <==> DependsOnClient(View())
    {
      yes := privilegedPolicies.DependsOnClientAttrs();
      if !yes {
        yes := regularPolicies.DependsOnClientAttrs();
      }
      assert View().Tier(true) == privilegedPolicies.View();
      assert View().Tier(false) == regularPolicies.View();
    }
  }
}
