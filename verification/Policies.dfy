/**
 Access policies: their selectors, their validation, and what it means for a policy to match a
 connection.
 */
module Policies {
  import opened Common

  /** The key-value attributes of a workload. */
  type Attrs = map<string, string>

  datatype Operator = In | NotIn | Exists | DoesNotExist | OtherOperator(text: string)

  datatype Requirement = Requirement(key: string, operator: Operator, values: seq<string>)

  datatype Selector = Selector(matchLabels: map<string, string>, matchExpressions: seq<Requirement>)

  datatype Workload = Workload(workloadSets: seq<string>, selector: Option<Selector>)

  datatype Action = Allow | Deny | OtherAction(text: string)

  datatype Spec = Spec(action: Action, from: seq<Workload>, to: seq<Workload>)

  /** A yes-no answer that may be an error instead. */
  datatype Match = Failed | Answer(yes: bool)

  // ---------------------------------------------------------------- label selectors

  predicate Compiles(r: Requirement) {
    match r.operator
    case In => r.values != []
    case NotIn => r.values != []
    case Exists => r.values == []
    case DoesNotExist => r.values == []
    case OtherOperator(_) => false
  }

  predicate SelectorCompiles(s: Selector) {
    forall r :: r in s.matchExpressions ==> Compiles(r)
  }

  predicate Holds(r: Requirement, attrs: Attrs) {
    match r.operator
    case In => r.key in attrs && attrs[r.key] in r.values
    case NotIn => r.key !in attrs || attrs[r.key] !in r.values
    case Exists => r.key in attrs
    case DoesNotExist => r.key !in attrs
    case OtherOperator(_) => false
  }

  /** All requirements hold; a selector without any matches everything. */
  predicate Selects(s: Selector, attrs: Attrs) {
    && (forall k :: k in s.matchLabels ==> k in attrs && attrs[k] == s.matchLabels[k])
    && (forall r :: r in s.matchExpressions ==> Holds(r, attrs))
  }

  // ---------------------------------------------------------------- the matchers

  /** A missing selector compiles to one that matches nothing. */
  function WorkloadMatches(w: Workload, attrs: Attrs): Match {
    match w.selector
    case None => Answer(false)
    case Some(s) => if SelectorCompiles(s) then Answer(Selects(s, attrs)) else Failed
  }

  function ListMatches(ws: seq<Workload>, attrs: Attrs): Match {
    if ws == [] then Answer(false)
    else
      var first := WorkloadMatches(ws[0], attrs);
      if first.Failed? || first.yes then first else ListMatches(ws[1..], attrs)
  }

  function SpecMatches(spec: Spec, src: Attrs, dst: Attrs): Match {
    var from := ListMatches(spec.from, src);
    if from.Failed? || !from.yes then from else ListMatches(spec.to, dst)
  }

  // ---------------------------------------------------------------- validation

  predicate ValidWorkload(w: Workload) {
    && w.workloadSets == []
    && w.selector.Some?
    && SelectorCompiles(w.selector.value)
  }

  predicate ValidList(ws: seq<Workload>) {
    forall w :: w in ws ==> ValidWorkload(w)
  }

  predicate ValidSpec(spec: Spec) {
    && (spec.action == Allow || spec.action == Deny)
    && spec.from != [] && ValidList(spec.from)
    && spec.to != [] && ValidList(spec.to)
  }

  /** Some element of the list selects the workload. */
  ghost predicate Covers(ws: seq<Workload>, attrs: Attrs) {
    exists w :: w in ws && w.selector.Some? && Selects(w.selector.value, attrs)
  }

  ghost predicate Applies(spec: Spec, src: Attrs, dst: Attrs) {
    Covers(spec.from, src) && Covers(spec.to, dst)
  }

  lemma {:induction false} ListMatchesMeaning(ws: seq<Workload>, attrs: Attrs)
    requires ValidList(ws)
    ensures ListMatches(ws, attrs) == Answer(Covers(ws, attrs))
  {
    if ws != [] {
      ListMatchesMeaning(ws[1..], attrs);
      assert forall w :: w in ws <==> w == ws[0] || w in ws[1..];
      assert ValidWorkload(ws[0]);
    }
  }

  /** A validated policy never fails to evaluate, and matches by its declarative meaning. */
  lemma ValidSpecMatches(spec: Spec, src: Attrs, dst: Attrs)
    requires ValidSpec(spec)
    ensures SpecMatches(spec, src, dst) == Answer(Applies(spec, src, dst))
  {
    ListMatchesMeaning(spec.from, src);
    ListMatchesMeaning(spec.to, dst);
  }

  // ---------------------------------------------------------------- dependence on client attributes

  predicate HasRequirements(w: Workload) {
    w.selector.Some? && (w.selector.value.matchLabels != map[] || w.selector.value.matchExpressions != [])
  }

  predicate SpecDependsOnClient(spec: Spec) {
    exists w :: w in spec.from && HasRequirements(w)
  }

  /** Without requirements in its `from`, a policy cannot tell two clients apart. */
  lemma IndifferentToClient(spec: Spec, src: Attrs, src': Attrs, dst: Attrs)
    requires !SpecDependsOnClient(spec)
    ensures Applies(spec, src, dst) <==> Applies(spec, src', dst)
  {
    forall a: Attrs, b: Attrs | Covers(spec.from, a) ensures Covers(spec.from, b) {
      var w :| w in spec.from && w.selector.Some? && Selects(w.selector.value, a);
      assert !HasRequirements(w);
      assert Selects(w.selector.value, b);
    }
  }

  // ---------------------------------------------------------------- what selectors and validation come to

  /** The four operators, told by the labels that would do instead. */
  lemma RequirementsMean(key: string, values: seq<string>, attrs: Attrs)
    ensures Holds(Requirement(key, In, values), attrs) <==>
              exists v :: v in values && Selects(Selector(map[key := v], []), attrs)
    ensures Holds(Requirement(key, NotIn, values), attrs) <==> !Holds(Requirement(key, In, values), attrs)
    ensures Holds(Requirement(key, Exists, []), attrs) <==> exists v :: Selects(Selector(map[key := v], []), attrs)
    ensures Holds(Requirement(key, DoesNotExist, []), attrs) <==> !Holds(Requirement(key, Exists, []), attrs)
  {
    forall v ensures Selects(Selector(map[key := v], []), attrs) <==> key in attrs && attrs[key] == v {
    }
    assert key in attrs ==> Selects(Selector(map[key := attrs[key]], []), attrs);
  }

  /** Labels select the workloads that would not change by being given them. */
  lemma LabelsMean(labels: map<string, string>, attrs: Attrs)
    ensures Selects(Selector(labels, []), attrs) <==> attrs + labels == attrs
  {
    if attrs + labels == attrs {
      forall k | k in labels ensures k in attrs && attrs[k] == labels[k] {
        assert (attrs + labels)[k] == labels[k];
      }
    }
  }

  /** Every further expression narrows a selector to the workloads for which it holds. */
  lemma ExpressionsNarrow(labels: map<string, string>, rs: seq<Requirement>, r: Requirement, attrs: Attrs)
    ensures Selects(Selector(labels, rs + [r]), attrs) <==> Selects(Selector(labels, rs), attrs) && Holds(r, attrs)
  {
    assert forall x :: x in rs + [r] <==> x in rs || x == r;
  }

  /** Exactly the policies that are accepted. */
  lemma ValidExactly(spec: Spec)
    ensures ValidSpec(spec) <==>
              && (spec.action == Allow || spec.action == Deny) && |spec.from| > 0 && |spec.to| > 0
              && forall w :: w in spec.from || w in spec.to ==>
                   && |w.workloadSets| == 0 && w.selector.Some?
                   && forall r :: r in w.selector.value.matchExpressions ==>
                        if r.operator == In || r.operator == NotIn then |r.values| > 0
                        else (r.operator == Exists || r.operator == DoesNotExist) && |r.values| == 0
  {
  }

  /** A policy depends on the client unless every selector of its `from` is empty. */
  lemma DependsExactly(spec: Spec)
    requires ValidSpec(spec)
    ensures SpecDependsOnClient(spec) <==> exists w :: w in spec.from && w.selector.value != Selector(map[], [])
  {
  }
}
