/**
 Round-robin fairness across requests: retries bump the shared counter too, so the counter tells
 which source was picked last, and successive requests walk around the circle of sources that
 accept, skipping the others.
 */
module Fairness {
  import opened Arithmetic
  import opened Circle
  import opened Common
  import opened LoadBalancing
  import opened Egress

  // ---------------------------------------------------------------- one request

  /** A first pass under way whose next pick is what counter value `start` names. */
  ghost predicate Due(b: Balance, counter: Counter, start: nat) {
    && b.Valid() && b.scheme == RoundRobin && b.n > 0 && b.current !in b.failed
    && Residue(b.n, start) == if b.current == -1 then Residue(b.n, Bump(RoundRobin, counter)) else Next(b.n, b.current)
  }

  lemma RoundRobinStep(b: Balance, counter: Counter, r: nat, start: nat)
    requires Due(b, counter, start) && |b.Tried()| != b.n
    ensures var s := Choose(b, counter, r);
            && s.Selected? && Due(s.balance, s.counter, start + 1)
            && s.balance.current == Residue(b.n, start)
            && s.balance.n == b.n && |s.balance.Tried()| == |b.Tried()| + 1
  {
    ChooseProgress(b, counter, r);
    TriedFits(b);
    NextResidue(b.n, start);
  }

  /** The sources that `m` counter values name, from `start` on. */
  function Arc(n: nat, start: nat, m: nat): (s: seq<int>)
    requires n > 0
    ensures |s| == m
    decreases m
  {
    if m == 0 then [] else [Residue(n, start)] + Arc(n, start + 1, m - 1)
  }

  lemma {:induction false} ArcAt(n: nat, start: nat, m: nat, k: nat)
    requires n > 0 && k < m
    ensures Arc(n, start, m)[k] == Residue(n, start + k)
    decreases k
  {
    if k > 0 {
      ArcAt(n, start + 1, m - 1, k - 1);
    }
  }

  lemma OrderStep(b: Balance, counter: Counter, rand: nat -> nat, t: nat, start: nat)
    returns (next: Balance, c: Counter, rest: seq<int>)
    requires Due(b, counter, start) && |b.Tried()| != b.n
    ensures Due(next, c, start + 1) && next.n == b.n && |next.Tried()| == |b.Tried()| + 1 <= b.n
    ensures rest == Order(next, c, rand, t + 1) && Order(b, counter, rand, t) == [Residue(b.n, start)] + rest
  {
    RoundRobinStep(b, counter, rand(t), start);
    OrderUnfolds(b, counter, rand, t);
    var s := Choose(b, counter, rand(t));
    next, c, rest := s.balance, s.counter, Order(s.balance, s.counter, rand, t + 1);
    TriedFits(next);
  }

  lemma OrderDone(b: Balance, counter: Counter, rand: nat -> nat, t: nat, start: nat)
    requires Due(b, counter, start) && |b.Tried()| == b.n
    ensures Order(b, counter, rand, t) == []
  {
    OrderUnfolds(b, counter, rand, t);
  }

  /** The round-robin order of a request: from the bumped counter, once around the circle. */
  lemma {:induction false} RoundRobinOrder(
    b: Balance, counter: Counter, rand: nat -> nat, t: nat, start: nat, left: nat, order: seq<int>)
    requires Due(b, counter, start) && |b.Tried()| + left == b.n && order == Order(b, counter, rand, t)
    ensures order == Arc(b.n, start, left)
    decreases left
  {
    if left == 0 {
      OrderDone(b, counter, rand, t, start);
    } else {
      var next, c, rest := OrderStep(b, counter, rand, t, start);
      RoundRobinOrder(next, c, rand, t + 1, start + 1, left - 1, rest);
    }
  }

  lemma CounterStep(b: Balance, counter: Counter, r: nat)
    requires b.Valid() && b.scheme == RoundRobin
    ensures match Choose(b, counter, r)
            case Exhausted(b1) => true
            case Selected(b1, c1) =>
              b1.current != -1 && c1 == if b1.IsDelayed() then counter else Bump(RoundRobin, counter)
  {
    ChooseProgress(b, counter, r);
  }

  lemma FirstsOfPrepend(e: Attempt, r: Report)
    ensures |Firsts(Prepend(e, r).log)| == (if e.delayed then 0 else 1) + |Firsts(r.log)|
  {
    assert Prepend(e, r).log[1..] == r.log;
  }

  function BumpBy(counter: Counter, m: nat): Counter
    decreases m
  {
    if m == 0 then counter else BumpBy(Bump(RoundRobin, counter), m - 1)
  }

  lemma {:induction false} BumpByWraps(c: Counter, m: nat)
    ensures BumpBy(c, m) == Wrap(c + m)
    decreases m
  {
    if m > 0 {
      BumpByWraps(Bump(RoundRobin, c), m - 1);
    }
  }

  /** One round of a round-robin loop: what it logs, and the state it leaves if it goes on. */
  lemma RoundRobinRound(env: Env, b: Balance, counter: Counter, t: nat)
    returns (entry: seq<Attempt>, c: Counter, next: Option<Balance>)
    requires b.Valid() && b.scheme == RoundRobin
    ensures |entry| <= 1 && (next.Some? ==> |entry| == 1)
    ensures c == if |entry| == 1 && !entry[0].delayed then Bump(RoundRobin, counter) else counter
    ensures next.None? ==> Run(env, b, counter, t).0.log == entry && Run(env, b, counter, t).1 == c
    ensures next.Some? ==>
              && next.value.Valid() && next.value.scheme == RoundRobin
              && 0 <= next.value.Measure() < b.Measure()
              && var rest := Run(env, next.value, c, t + 1);
                 Run(env, b, counter, t) == (Prepend(entry[0], rest.0), rest.1)
  {
    CounterStep(b, counter, env.rand(t));
    RunUnfolds(env, b, counter, t);
    match Choose(b, counter, env.rand(t))
    case Exhausted(_) => entry, c, next := [], counter, None;
    case Selected(b1, c1) =>
      var a := Try(env, t, b1.current, b1.IsDelayed());
      entry, c := [Attempt(b1.current, b1.IsDelayed(), a)], c1;
      next := if a.Continues() then Some(After(b1, a)) else None;
  }

  lemma CountOne(e: Attempt, counter: Counter, c: Counter, rest: (Report, Counter))
    requires c == if e.delayed then counter else Bump(RoundRobin, counter)
    requires rest.1 == BumpBy(c, |Firsts(rest.0.log)|)
    ensures rest.1 == BumpBy(counter, |Firsts(Prepend(e, rest.0).log)|)
  {
    FirstsOfPrepend(e, rest.0);
  }

  /** The counter moves once per selection of the first pass. */
  lemma {:induction false} RunCounts(env: Env, b: Balance, counter: Counter, t: nat, run: (Report, Counter))
    requires b.Valid() && b.scheme == RoundRobin && run == Run(env, b, counter, t)
    ensures run.1 == BumpBy(counter, |Firsts(run.0.log)|)
    decreases b.Measure()
  {
    var entry, c, next := RoundRobinRound(env, b, counter, t);
    if next.Some? {
      var rest := Run(env, next.value, c, t + 1);
      RunCounts(env, next.value, c, t + 1, rest);
      CountOne(entry[0], counter, c, rest);
    } else if entry != [] {
      CountOne(entry[0], counter, c, (Report([], NoSource), c));
      assert entry == [entry[0]] + [];
    }
  }

  // ---------------------------------------------------------------- what a request picks

  /** Source `i` is good: tried at once it grants a token; or it is not, and the loop goes on past it. */
  predicate BehavesAt(env: Env, good: int -> bool, t: nat, i: int) {
    var a := Try(env, t, i, false);
    if good(i) then a == Granted else a.Continues()
  }

  /** Good sources always grant. The others may change their ways from round to round, as long as they do not. */
  ghost predicate Behaves(env: Env, n: nat, good: int -> bool) {
    forall t, i :: 0 <= i < n ==> BehavesAt(env, good, t, i)
  }

  /** Steady decisions and reachability are an instance. */
  lemma SteadyBehaves(env: Env, n: nat)
    requires Steady(env, n) && SteadyPeers(env, n)
    ensures Behaves(env, n, Preferred(env))
  {
    forall t: nat, i: int | 0 <= i < n ensures BehavesAt(env, Preferred(env), t, i) {
      assert SteadyAt(env, t, i) && SteadyAt(env, 0, i) && env.peer(t, i) == env.peer(0, i);
    }
  }

  lemma {:induction false} FirstPassStops(
    env: Env, n: nat, good: int -> bool, order: seq<int>, queue: seq<int>, t: nat, k: nat)
    requires Behaves(env, n, good) && Within(order, n)
    requires k < |order| && good(order[k]) && forall j :: 0 <= j < k ==> !good(order[j])
    ensures |Firsts(FirstPass(env, order, queue, t).log)| == k + 1
    ensures FirstPass(env, order, queue, t).outcome == Chosen(order[k])
  {
    var i := order[0];
    assert BehavesAt(env, good, t, i);
    var a := Try(env, t, i, false);
    var log := FirstPass(env, order, queue, t).log;
    if k == 0 {
      assert log[1..] == [];
    } else {
      var queue' := if a.Postponed? then queue + [i] else queue;
      FirstPassStops(env, n, good, order[1..], queue', t + 1, k - 1);
      assert log[1..] == FirstPass(env, order[1..], queue', t + 1).log;
    }
  }

  lemma RoundRobinRequest(env: Env, n: nat, c: Counter)
    requires n > 0
    ensures var arc := Arc(n, Next(COUNTER_LIMIT, c), n);
            Run(env, NewBalance(n, RoundRobin), c, 0).0 == FirstPass(env, arc, [], 0) && Within(arc, n)
  {
    var b := NewBalance(n, RoundRobin);
    RunIsTwoPasses(env, b, c, 0);
    RoundRobinOrder(b, c, env.rand, 0, Next(COUNTER_LIMIT, c), n, Order(b, c, env.rand, 0));
    OrderIsPermutation(b, c, env.rand, 0);
    ElementsWithin(Arc(n, Next(COUNTER_LIMIT, c), n), n);
  }

  lemma ArcStops(env: Env, n: nat, good: int -> bool, s: nat, h: nat)
    requires Behaves(env, n, good) && n > 0 && Within(Arc(n, s, n), n)
    requires s <= h < s + n && Hit(good, n, h) && Bare(good, n, s, h)
    ensures var r := FirstPass(env, Arc(n, s, n), [], 0);
            |Firsts(r.log)| == h - s + 1 && r.outcome == Chosen(Residue(n, h))
  {
    ArcAt(n, s, n, h - s);
    forall j | 0 <= j < h - s ensures !good(Arc(n, s, n)[j]) {
      ArcAt(n, s, n, j);
      assert !Hit(good, n, s + j);
    }
    FirstPassStops(env, n, good, Arc(n, s, n), [], 0, h - s);
  }

  /** The 32-bit counter after `c` increments from zero. */
  function Wrap(c: nat): Counter {
    Residue(COUNTER_LIMIT, c)
  }

  /** Where a request that finds the counter at `c` stops: its retries are counted without wrapping. */
  ghost function Stop(good: int -> bool, n: nat, c: Counter, a: nat): (h: nat)
    requires a < n && good(a)
  {
    Seek(good, n, Next(COUNTER_LIMIT, c), a)
  }

  /** What a request picks, and how it leaves the counter, for any counter, wrapping or not. */
  lemma RequestPick(env: Env, n: nat, good: int -> bool, c: Counter, a: nat)
    requires Behaves(env, n, good) && a < n && good(a)
    ensures var run := Run(env, NewBalance(n, RoundRobin), c, 0);
            var h := Stop(good, n, c, a);
            run.0.outcome == Chosen(Residue(n, h)) && run.1 == Wrap(h)
  {
    var b, s, h := NewBalance(n, RoundRobin), Next(COUNTER_LIMIT, c), Stop(good, n, c, a);
    SeekFinds(good, n, s, a);
    RoundRobinRequest(env, n, c);
    ArcStops(env, n, good, s, h);
    RunCounts(env, b, c, 0, Run(env, b, c, 0));
    BumpByWraps(c, h - s + 1);
  }

  // ---------------------------------------------------------------- succession, and where the counter wraps

  /**
   Searching on from the wrapped counter value instead of from `p` makes no difference. Wrapping
   goes back by some multiple of 2^32, that is by `m` places on the circle; either the `m` sources
   passed over once more are all bad, or all the others are.
   */
  ghost predicate Harmless(good: int -> bool, n: nat, p: nat)
    requires n > 0
  {
    var u := Wrap(p);
    WrapBelow(p);
    var m := Residue(n, p - u);
    Bare(good, n, u, u + m) || Bare(good, n, u + m, u + n)
  }

  lemma WrapBelow(p: nat)
    ensures Wrap(p) <= p
    decreases p
  {
    if p >= COUNTER_LIMIT {
      WrapBelow(p - COUNTER_LIMIT);
    }
  }

  /** Harmless is exactly when the search ends at the same source. */
  lemma HarmlessExactly(good: int -> bool, n: nat, p: nat, a: nat)
    requires a < n && good(a)
    ensures Residue(n, Seek(good, n, Wrap(p), a)) == Residue(n, Seek(good, n, p, a)) <==> Harmless(good, n, p)
  {
    WrapBelow(p);
    ArcsDecide(good, n, Wrap(p), p - Wrap(p), a);
  }

  lemma ArcsDecide(good: int -> bool, n: nat, u: nat, d: nat, a: nat)
    requires a < n && good(a)
    ensures Residue(n, Seek(good, n, u, a)) == Residue(n, Seek(good, n, u + d, a))
       <==> Bare(good, n, u, u + Residue(n, d)) || Bare(good, n, u + Residue(n, d), u + n)
  {
    SameFirst(good, n, u, Residue(n, d), a);
    SeekPast(good, n, u, d, a);
  }

  lemma SeekPast(good: int -> bool, n: nat, u: nat, d: nat, a: nat)
    requires a < n && good(a)
    ensures Residue(n, Seek(good, n, u + Residue(n, d), a)) == Residue(n, Seek(good, n, u + d, a))
  {
    ResidueAdds(n, u, d);
    SeekPeriodic(good, n, u + Residue(n, d), u + d, a);
  }

  lemma {:induction false} ResidueAdds(n: nat, u: nat, d: nat)
    requires n > 0
    ensures Residue(n, u + Residue(n, d)) == Residue(n, u + d)
    decreases d
  {
    if d >= n {
      ResidueAdds(n, u, d - n);
    }
  }

  /** A counter that has not wrapped yet, or a number of sources that divides 2^32, is harmless. */
  lemma HarmlessIf(good: int -> bool, n: nat, p: nat)
    requires n > 0 && (p < COUNTER_LIMIT || Residue(n, COUNTER_LIMIT) == 0)
    ensures Harmless(good, n, p)
  {
    WrapBelow(p);
    if p >= COUNTER_LIMIT {
      WrapKeepsResidue(n, p);
    }
  }

  lemma {:induction false} WrapKeepsResidue(n: nat, p: nat)
    requires n > 0 && Residue(n, COUNTER_LIMIT) == 0
    ensures Wrap(p) <= p && Residue(n, p - Wrap(p)) == 0
    decreases p
  {
    if p >= COUNTER_LIMIT {
      WrapKeepsResidue(n, p - COUNTER_LIMIT);
      AddLimit(n, p - COUNTER_LIMIT - Wrap(p - COUNTER_LIMIT));
    }
  }

  lemma AddLimit(n: nat, x: nat)
    requires n > 0 && Residue(n, COUNTER_LIMIT) == 0
    ensures Residue(n, x + COUNTER_LIMIT) == Residue(n, x)
  {
    ResidueSplits(n, COUNTER_LIMIT);
    AddMultiple(n, x, Quotient(n, COUNTER_LIMIT));
  }

  lemma NextWraps(p: nat)
    ensures Next(COUNTER_LIMIT, Wrap(p)) == Wrap(p + 1)
  {
    NextResidue(COUNTER_LIMIT, p);
  }

  /**
   A request picks the cyclic successor, among the good sources, of what the counter names, exactly
   when the increment it starts with does not wrap or wraps harmlessly. Wrapping during its retries
   does not matter.
   */
  lemma RequestPicksSuccessor(env: Env, n: nat, good: int -> bool, c: Counter, a: nat)
    requires Behaves(env, n, good) && a < n && good(a)
    ensures Run(env, NewBalance(n, RoundRobin), c, 0).0.outcome == Chosen(Successor(good, n, Residue(n, c), a))
       <==> Harmless(good, n, c + 1)
  {
    RequestPick(env, n, good, c, a);
    SuccessorOf(good, n, c, a);
    NextWraps(c);
    HarmlessExactly(good, n, c + 1, a);
  }

  /**
   Two requests in a row, each finding the sources in its own state but the same ones good: the second
   picks the cyclic successor of what the first picked exactly when the counter does not wrap from
   the first pick to the increment after it, or wraps harmlessly.
   */
  lemma SuccessionExactly(env: Env, env': Env, n: nat, good: int -> bool, c: Counter, a: nat)
    requires Behaves(env, n, good) && Behaves(env', n, good) && a < n && good(a)
    ensures var run := Run(env, NewBalance(n, RoundRobin), c, 0);
            && run.0.outcome == Chosen(Residue(n, Stop(good, n, c, a)))
            && (Run(env', NewBalance(n, RoundRobin), run.1, 0).0.outcome
                == Chosen(Successor(good, n, Residue(n, Stop(good, n, c, a)), a))
                <==> Harmless(good, n, Stop(good, n, c, a) + 1))
  {
    var h := Stop(good, n, c, a);
    RequestPick(env, n, good, c, a);
    RequestPick(env', n, good, Wrap(h), a);
    SuccessorOf(good, n, h, a);
    NextWraps(h);
    HarmlessExactly(good, n, h + 1, a);
  }

  lemma LimitKeepsResidue(n: nat, p: nat)
    requires n > 0 && p >= COUNTER_LIMIT
    ensures Residue(n, p - COUNTER_LIMIT) == Residue(n, p) <==> COUNTER_LIMIT % n == 0
  {
    ResidueIsMod(n, COUNTER_LIMIT);
    if COUNTER_LIMIT % n == 0 {
      AddLimit(n, p - COUNTER_LIMIT);
    } else if Residue(n, p - COUNTER_LIMIT) == Residue(n, p) {
      SameResidueApart(n, p - COUNTER_LIMIT, p);
      MultipleHasNoRemainder(n, COUNTER_LIMIT, Quotient(n, p) - Quotient(n, p - COUNTER_LIMIT));
      assert false;
    }
  }

  /**
   A request leaves the counter naming its own pick exactly when it does not wrap while retrying, or wrapping
   keeps residues.
   */
  lemma CounterNamesPick(env: Env, n: nat, good: int -> bool, c: Counter, a: nat)
    requires Behaves(env, n, good) && a < n <= COUNTER_LIMIT && good(a)
    ensures var run := Run(env, NewBalance(n, RoundRobin), c, 0);
            run.0.outcome == Chosen(Residue(n, run.1)) <==>
              Stop(good, n, c, a) < COUNTER_LIMIT || COUNTER_LIMIT % n == 0
  {
    var h := Stop(good, n, c, a);
    RequestPick(env, n, good, c, a);
    SeekFinds(good, n, Next(COUNTER_LIMIT, c), a);
    WrapNames(n, h);
  }

  lemma WrapNames(n: nat, h: nat)
    requires n > 0 && h < COUNTER_LIMIT + COUNTER_LIMIT
    ensures Residue(n, Wrap(h)) == Residue(n, h) <==> h < COUNTER_LIMIT || COUNTER_LIMIT % n == 0
  {
    if h >= COUNTER_LIMIT {
      assert Wrap(h) == Wrap(h - COUNTER_LIMIT) == h - COUNTER_LIMIT;
      LimitKeepsResidue(n, h);
    }
  }

  // ---------------------------------------------------------------- consecutive requests

  /** What requests in a row pick, each in its own environment, the first one finding the counter at `c`. */
  ghost function Picks(envs: seq<Env>, n: nat, c: Counter): seq<int>
    decreases |envs|
  {
    if envs == [] then []
    else
      var run := Run(envs[0], NewBalance(n, RoundRobin), c, 0);
      match run.0.outcome
      case Chosen(i) => [i] + Picks(envs[1..], n, run.1)
      case _ => []
  }

  /** Where the `j`-th request in a row stops. */
  ghost function StopAt(good: int -> bool, n: nat, c: Counter, a: nat, j: nat): nat
    requires a < n && good(a)
  {
    if j == 0 then Stop(good, n, c, a) else Stop(good, n, Wrap(StopAt(good, n, c, a, j - 1)), a)
  }

  lemma {:induction false} StopAtShifts(good: int -> bool, n: nat, c: Counter, a: nat, j: nat)
    requires a < n && good(a)
    ensures StopAt(good, n, c, a, j + 1) == StopAt(good, n, Wrap(Stop(good, n, c, a)), a, j)
  {
    if j > 0 {
      StopAtShifts(good, n, c, a, j - 1);
    }
  }

  ghost predicate AllBehave(envs: seq<Env>, n: nat, good: int -> bool) {
    forall j :: 0 <= j < |envs| ==> Behaves(envs[j], n, good)
  }

  lemma {:induction false} PicksAt(envs: seq<Env>, n: nat, good: int -> bool, c: Counter, a: nat, j: nat)
    requires AllBehave(envs, n, good) && a < n && good(a)
    ensures |Picks(envs, n, c)| == |envs|
    ensures j < |envs| ==> Picks(envs, n, c)[j] == Residue(n, StopAt(good, n, c, a, j))
    decreases |envs|
  {
    if envs != [] {
      var c': Counter := Wrap(Stop(good, n, c, a));
      PicksUnfold(envs, n, good, c, a);
      PicksAt(envs[1..], n, good, c', a, if j == 0 then 0 else j - 1);
      if j > 0 {
        StopAtShifts(good, n, c, a, j - 1);
      }
    }
  }

  lemma PicksUnfold(envs: seq<Env>, n: nat, good: int -> bool, c: Counter, a: nat)
    requires envs != [] && AllBehave(envs, n, good) && a < n && good(a)
    ensures AllBehave(envs[1..], n, good)
    ensures Picks(envs, n, c) == [Residue(n, Stop(good, n, c, a))] + Picks(envs[1..], n, Wrap(Stop(good, n, c, a)))
  {
    RequestPick(envs[0], n, good, c, a);
  }

  lemma StopIsGood(good: int -> bool, n: nat, c: Counter, a: nat, j: nat)
    requires a < n && good(a)
    ensures good(Residue(n, StopAt(good, n, c, a, j)))
  {
    var d: Counter := if j == 0 then c else Wrap(StopAt(good, n, c, a, j - 1));
    SeekFinds(good, n, Next(COUNTER_LIMIT, d), a);
  }

  /** The counter's wrapping between picks `j` and `j + 1` of a row of requests is harmless. */
  ghost predicate HarmlessAfter(good: int -> bool, n: nat, c: Counter, a: nat, j: nat)
    requires a < n && good(a)
  {
    Harmless(good, n, StopAt(good, n, c, a, j) + 1)
  }

  /** Neighbouring picks are successors exactly where wrapping is harmless. */
  lemma PicksStep(envs: seq<Env>, n: nat, good: int -> bool, c: Counter, a: nat, j: nat)
    requires AllBehave(envs, n, good) && a < n && good(a) && j + 1 < |envs|
    ensures |Picks(envs, n, c)| == |envs| && 0 <= Picks(envs, n, c)[j]
    ensures Picks(envs, n, c)[j + 1] == Successor(good, n, Picks(envs, n, c)[j], a) <==> HarmlessAfter(good, n, c, a, j)
  {
    var h := StopAt(good, n, c, a, j);
    PicksAt(envs, n, good, c, a, j);
    PicksAt(envs, n, good, c, a, j + 1);
    SuccessorOf(good, n, h, a);
    NextWraps(h);
    HarmlessExactly(good, n, h + 1, a);
  }

  lemma PicksChain(envs: seq<Env>, n: nat, good: int -> bool, c: Counter, a: nat, lo: nat, hi: nat)
    requires AllBehave(envs, n, good) && a < n && good(a) && lo <= hi <= |envs|
    requires forall j :: lo <= j < hi - 1 ==> HarmlessAfter(good, n, c, a, j)
    ensures |Picks(envs, n, c)| == |envs| && Chain(good, n, a, Picks(envs, n, c)[lo..hi])
  {
    PicksAt(envs, n, good, c, a, 0);
    var picks := Picks(envs, n, c);
    forall j | 0 <= j < |envs| ensures 0 <= picks[j] < n && good(picks[j]) {
      PicksAt(envs, n, good, c, a, j);
      StopIsGood(good, n, c, a, j);
    }
    forall j | lo <= j < hi - 1 ensures picks[j + 1] == Successor(good, n, picks[j], a) {
      PicksStep(envs, n, good, c, a, j);
    }
    SliceChain(good, n, a, picks, lo, hi);
  }

  lemma SliceChain(good: int -> bool, n: nat, a: nat, picks: seq<int>, lo: nat, hi: nat)
    requires a < n && good(a) && lo <= hi <= |picks|
    requires forall j :: 0 <= j < |picks| ==> 0 <= picks[j] < n && good(picks[j])
    requires forall j :: lo <= j < hi - 1 ==> picks[j + 1] == Successor(good, n, picks[j], a)
    ensures Chain(good, n, a, picks[lo..hi])
  {
    var s := picks[lo..hi];
    forall j | 0 <= j < |s| - 1 ensures s[j + 1] == Successor(good, n, s[j], a) {
      assert picks[lo + j + 1] == Successor(good, n, picks[lo + j], a);
    }
  }

  /** As many requests in a row as there are good sources use each of them exactly once. */
  ghost predicate Fair(envs: seq<Env>, n: nat, good: int -> bool, c: Counter) {
    |Picks(envs, n, c)| == |Members(good, n)|
    && Distinct(Picks(envs, n, c)) && Elements(Picks(envs, n, c)) == Members(good, n)
  }

  /**
   Fairness. Whatever the other sources do from round to round and from request to request, as many
   requests in a row as there are good sources use each of them exactly once, wherever the counter
   stands, if its wrapping between two of the requests is harmless.
   */
  lemma RoundRobinIsFair(envs: seq<Env>, n: nat, good: int -> bool, c: Counter, a: nat)
    requires AllBehave(envs, n, good) && a < n && good(a) && |envs| == |Members(good, n)|
    requires forall j :: 0 <= j < |envs| - 1 ==> HarmlessAfter(good, n, c, a, j)
    ensures Fair(envs, n, good, c)
  {
    PicksChain(envs, n, good, c, a, 0, |envs|);
    assert Picks(envs, n, c)[0..|envs|] == Picks(envs, n, c);
    ChainCovers(good, n, a, Picks(envs, n, c));
  }

  /** The other direction: with a single wrapping in question, the row is fair exactly if that one is harmless. */
  lemma FairExactly(envs: seq<Env>, n: nat, good: int -> bool, c: Counter, a: nat, e: nat)
    requires AllBehave(envs, n, good) && a < n && good(a) && e + 1 < |envs| == |Members(good, n)|
    requires forall j :: 0 <= j < |envs| - 1 && j != e ==> HarmlessAfter(good, n, c, a, j)
    ensures Fair(envs, n, good, c) <==> HarmlessAfter(good, n, c, a, e)
  {
    if HarmlessAfter(good, n, c, a, e) {
      RoundRobinIsFair(envs, n, good, c, a);
    } else if Fair(envs, n, good, c) {
      PicksChain(envs, n, good, c, a, 0, e + 1);
      PicksChain(envs, n, good, c, a, e + 1, |envs|);
      var picks := Picks(envs, n, c);
      assert picks[0..e + 1] == picks[..e + 1] && picks[e + 1..|envs|] == picks[e + 1..];
      OneGapCloses(good, n, a, picks, e);
      PicksStep(envs, n, good, c, a, e);
      assert false;
    }
  }

  // ---------------------------------------------------------------- how far requests get

  /** `n * j`, by repeated addition. */
  function Laps(n: nat, j: nat): nat
    decreases j
  {
    if j == 0 then 0 else Laps(n, j - 1) + n
  }

  lemma {:induction false} LapsIsProduct(n: nat, j: nat)
    ensures Laps(n, j) == n * j
    decreases j
  {
    if j > 0 {
      LapsIsProduct(n, j - 1);
      Distributes(n, j - 1, 1);
    }
  }

  lemma {:induction false} LapsAdd(n: nat, i: nat, j: nat)
    ensures Laps(n, i + j) == Laps(n, i) + Laps(n, j)
    decreases j
  {
    if j > 0 {
      LapsAdd(n, i, j - 1);
    }
  }

  /** The counter does not wrap after any of the first `j` requests. */
  ghost predicate Unwrapped(good: int -> bool, n: nat, c: Counter, a: nat, j: nat)
    requires a < n && good(a)
  {
    forall i :: 0 <= i < j ==> StopAt(good, n, c, a, i) + 1 < COUNTER_LIMIT
  }

  lemma NextStop(good: int -> bool, n: nat, c: Counter, a: nat, j: nat)
    requires a < n && good(a)
    ensures StopAt(good, n, c, a, 0) < Next(COUNTER_LIMIT, c) + n
    ensures StopAt(good, n, c, a, j) + 1 < COUNTER_LIMIT ==>
              StopAt(good, n, c, a, j + 1) < StopAt(good, n, c, a, j) + 1 + n
  {
    SeekFinds(good, n, Next(COUNTER_LIMIT, c), a);
    SeekFinds(good, n, StopAt(good, n, c, a, j) + 1, a);
  }

  /** While the counter does not wrap, each request moves it by at most one turn. */
  lemma {:induction false} StopBound(good: int -> bool, n: nat, c: Counter, a: nat, j: nat)
    requires a < n && good(a) && Unwrapped(good, n, c, a, j)
    ensures StopAt(good, n, c, a, j) < Next(COUNTER_LIMIT, c) + Laps(n, j + 1)
  {
    if j == 0 {
      NextStop(good, n, c, a, 0);
      assert Laps(n, 1) == Laps(n, 0) + n;
    } else {
      StopBound(good, n, c, a, j - 1);
      NextStop(good, n, c, a, j - 1);
    }
  }

  /** And it does not wrap before so many turns are up. */
  lemma {:induction false} StopsBelow(good: int -> bool, n: nat, c: Counter, a: nat, j: nat)
    requires a < n && good(a) && Next(COUNTER_LIMIT, c) + Laps(n, j) < COUNTER_LIMIT
    ensures Unwrapped(good, n, c, a, j)
    ensures StopAt(good, n, c, a, j) < Next(COUNTER_LIMIT, c) + Laps(n, j + 1)
  {
    if j > 0 {
      StopsBelow(good, n, c, a, j - 1);
    }
    StopBound(good, n, c, a, j);
  }

  /**
   What a caller can tell beforehand: far enough from 2^32, or with a number of sources that divides it, requests
   are fair.
   */
  lemma FairBeforehand(envs: seq<Env>, n: nat, good: int -> bool, c: Counter, a: nat)
    requires AllBehave(envs, n, good) && a < n && good(a) && |envs| == |Members(good, n)|
    requires c + n * |envs| < 0x1_0000_0000 || 0x1_0000_0000 % n == 0
    ensures Fair(envs, n, good, c)
  {
    LapsIsProduct(n, |envs|);
    ResidueIsMod(n, COUNTER_LIMIT);
    forall j | 0 <= j < |envs| - 1 ensures HarmlessAfter(good, n, c, a, j) {
      if Residue(n, COUNTER_LIMIT) != 0 {
        LapsAdd(n, j + 1, |envs| - j - 1);
        assert Laps(n, |envs| - j - 1) >= n;
        StopsBelow(good, n, c, a, j);
      }
      HarmlessIf(good, n, StopAt(good, n, c, a, j) + 1);
    }
    RoundRobinIsFair(envs, n, good, c, a);
  }

  // ---------------------------------------------------------------- a row of requests wraps at most once

  lemma {:induction false} StopAtFrom(good: int -> bool, n: nat, c: Counter, a: nat, e: nat, i: nat)
    requires a < n && good(a)
    ensures StopAt(good, n, c, a, e + 1 + i) == StopAt(good, n, Wrap(StopAt(good, n, c, a, e)), a, i)
    decreases i
  {
    if i > 0 {
      StopAtFrom(good, n, c, a, e, i - 1);
    }
  }

  /** After its first wrap, the counter does not come to wrap again within as many turns as make up 2^32. */
  lemma OneWrap(good: int -> bool, n: nat, c: Counter, a: nat, m: nat, e: nat, j: nat)
    requires a < n && good(a) && Laps(n, m) <= COUNTER_LIMIT && e < j < m
    requires Unwrapped(good, n, c, a, e)
    requires StopAt(good, n, c, a, e) + 1 >= COUNTER_LIMIT
    ensures StopAt(good, n, c, a, j) + 1 < COUNTER_LIMIT
  {
    var h, i := StopAt(good, n, c, a, e), j - e - 1;
    StopBound(good, n, c, a, e);
    StopsAgain(good, n, h, a, m, e + 1, i);
    StopAtFrom(good, n, c, a, e, i);
  }

  lemma StopsAgain(good: int -> bool, n: nat, h: nat, a: nat, m: nat, e: nat, i: nat)
    requires a < n && good(a) && Laps(n, m) <= COUNTER_LIMIT && e + i + 1 <= m
    requires COUNTER_LIMIT <= h + 1 < COUNTER_LIMIT + Laps(n, e)
    ensures StopAt(good, n, Wrap(h), a, i) + 1 < COUNTER_LIMIT
  {
    LapsAdd(n, e, i);
    LapsAdd(n, e, i + 1);
    LapsAdd(n, e + i + 1, m - e - i - 1);
    WrapOnce(h + 1);
    NextWraps(h);
    StopsBelow(good, n, Wrap(h), a, i);
  }

  lemma WrapOnce(p: nat)
    requires COUNTER_LIMIT <= p < COUNTER_LIMIT + COUNTER_LIMIT
    ensures Wrap(p) == p - COUNTER_LIMIT
  {
    assert Wrap(p) == Wrap(p - COUNTER_LIMIT) == p - COUNTER_LIMIT;
  }

  lemma {:induction false} FirstWrap(good: int -> bool, n: nat, c: Counter, a: nat, e: nat) returns (f: nat)
    requires a < n && good(a) && StopAt(good, n, c, a, e) + 1 >= COUNTER_LIMIT
    ensures f <= e && StopAt(good, n, c, a, f) + 1 >= COUNTER_LIMIT
    ensures Unwrapped(good, n, c, a, f)
  {
    if i :| 0 <= i < e && StopAt(good, n, c, a, i) + 1 >= COUNTER_LIMIT {
      f := FirstWrap(good, n, c, a, i);
    } else {
      f := e;
    }
  }

  lemma WrapsOrHarmless(good: int -> bool, n: nat, c: Counter, a: nat, j: nat)
    requires a < n && good(a)
    ensures StopAt(good, n, c, a, j) + 1 < COUNTER_LIMIT ==> HarmlessAfter(good, n, c, a, j)
  {
    if StopAt(good, n, c, a, j) + 1 < COUNTER_LIMIT {
      HarmlessIf(good, n, StopAt(good, n, c, a, j) + 1);
    }
  }

  lemma OthersHarmless(good: int -> bool, n: nat, c: Counter, a: nat, m: nat, f: nat, j: nat)
    requires a < n && good(a) && Laps(n, m) <= COUNTER_LIMIT && f < m && j < m && j != f
    requires StopAt(good, n, c, a, f) + 1 >= COUNTER_LIMIT
    requires Unwrapped(good, n, c, a, f)
    ensures HarmlessAfter(good, n, c, a, j)
  {
    if j > f {
      OneWrap(good, n, c, a, m, f, j);
    }
    WrapsOrHarmless(good, n, c, a, j);
  }

  /**
   Fairness, exactly. With no more than 2^32 sources times good sources, a row of requests is fair if and
   only if the counter's wrapping is harmless after every one of them but the last.
   */
  lemma RowIsFairExactly(envs: seq<Env>, n: nat, good: int -> bool, c: Counter, a: nat)
    requires AllBehave(envs, n, good) && a < n && good(a) && |envs| == |Members(good, n)|
    requires n * |envs| <= COUNTER_LIMIT
    ensures Fair(envs, n, good, c) <==> forall j :: 0 <= j < |envs| - 1 ==> HarmlessAfter(good, n, c, a, j)
  {
    if e :| 0 <= e < |envs| - 1 && !HarmlessAfter(good, n, c, a, e) {
      LapsIsProduct(n, |envs|);
      WrapsOrHarmless(good, n, c, a, e);
      var f := FirstWrap(good, n, c, a, e);
      forall j | 0 <= j < |envs| - 1 && j != f ensures HarmlessAfter(good, n, c, a, j) {
        OthersHarmless(good, n, c, a, |envs|, f, j);
      }
      FairExactly(envs, n, good, c, a, f);
    } else {
      RoundRobinIsFair(envs, n, good, c, a);
    }
  }

  /**
   The schemes by their names: without one, as with `round-robin`, a request finds the first good source
   from the bumped counter on; with `static`, the lowest-index one, reachable sources first; with `random`,
   whichever source is drawn is selected first.
   */
  lemma SchemesByName(env: Env, n: nat, good: int -> bool, c: Counter, a: nat, text: string, i: nat)
    requires Behaves(env, n, good) && a < n && good(a) && i < n
    ensures text == "" || text == "round-robin" ==>
              Run(env, NewBalance(n, SchemeOf(text)), c, 0).0.outcome == Chosen(Residue(n, Stop(good, n, c, a)))
    ensures text == "static" && Steady(env, n) && SteadyPeers(env, n) ==>
              LowestFirst(env, n, Run(env, NewBalance(n, SchemeOf(text)), c, 0).0.outcome)
    ensures text == "random" ==>
              Choose(NewBalance(n, SchemeOf(text)), c, i).Selected?
              && Choose(NewBalance(n, SchemeOf(text)), c, i).balance.current == i
  {
    RequestPick(env, n, good, c, a);
    if text == "static" && Steady(env, n) && SteadyPeers(env, n) {
      StaticPreference(env, n, c);
    } else if text == "random" {
      RandomTakesNearest(NewBalance(n, Random), c, i, i);
    }
  }

  /**
   Three sources, all good: of two requests in a row, the one that wraps the counter repeats the pick of the
   other.
   */
  lemma WrapRepeatsPick(env: Env, env': Env, good: int -> bool)
    requires Behaves(env, 3, good) && Behaves(env', 3, good) && good(0) && good(1) && good(2)
    ensures Picks([env, env'], 3, 0xFFFF_FFFE) == [0, 0]
    ensures !Harmless(good, 3, COUNTER_LIMIT)
  {
    var c: Counter := COUNTER_LIMIT - 2;
    ThreeAtTheLimit(good);
    SeekAt(good, 3, COUNTER_LIMIT - 1, COUNTER_LIMIT - 1, 0);
    SeekAt(good, 3, 0, 0, 0);
    PicksAt([env, env'], 3, good, c, 0, 0);
    PicksAt([env, env'], 3, good, c, 0, 1);
    assert StopAt(good, 3, c, 0, 1) == Stop(good, 3, Wrap(StopAt(good, 3, c, 0, 0)), 0);
  }

  lemma ThreeAtTheLimit(good: int -> bool)
    requires good(0) && good(1)
    ensures Residue(3, COUNTER_LIMIT - 1) == 0 && Residue(3, 0) == 0 && Wrap(COUNTER_LIMIT) == 0
    ensures Hit(good, 3, 0) && Hit(good, 3, COUNTER_LIMIT - 1) && !Harmless(good, 3, COUNTER_LIMIT)
  {
    ResidueIsMod(3, COUNTER_LIMIT - 1);
    ResidueIsMod(3, COUNTER_LIMIT);
    assert Hit(good, 3, 0) && Hit(good, 3, 1);
  }
}
