/**
 Authorization of an egress connection: the loop that selects a source, consults the peer's
 reachability, the policy decision point and the remote peer, and retries until one source grants
 a token or the load balancer runs out of sources.
 */
module Egress {
  import opened Arithmetic
  import opened Common
  import opened LoadBalancing

  datatype PeerView = Missing | Peer(reachable: bool)

  datatype Verdict = Allow | Deny | Error

  /** What the loop finds out about source `i` in its round `t`, and the random numbers it draws. */
  datatype Env = Env(
    peer: (nat, int) -> PeerView,
    pdp: (nat, int) -> Verdict,
    client: (nat, int) -> bool,
    grant: (nat, int) -> bool,
    rand: nat -> nat)

  datatype Action =
    | Postponed      // unreachable, kept for later
    | Denied         // not allowed by the local policies
    | Refused        // no token from the remote peer
    | Granted
    | PeerMissing
    | PdpFailed
    | ClientMissing
  {
    predicate Continues() {
      Postponed? || Denied? || Refused?
    }

    /** Whether the policy decision point was asked. */
    predicate Queried() {
      !Postponed? && !PeerMissing?
    }
  }

  datatype Attempt = Attempt(index: int, delayed: bool, action: Action)

  datatype Outcome = Chosen(index: int) | NoSource | Aborted(index: int, why: Action) | Crash

  datatype Report = Report(log: seq<Attempt>, outcome: Outcome)

  /** One round of the loop after a source was selected. */
  function Try(env: Env, t: nat, i: int, delayed: bool): Action {
    match env.peer(t, i)
    case Missing => PeerMissing
    case Peer(reachable) =>
      if !reachable && !delayed then Postponed
      else match env.pdp(t, i)
        case Error => PdpFailed
        case Deny => Denied
        case Allow =>
          if !env.client(t, i) then ClientMissing
          else if env.grant(t, i) then Granted
          else Refused
  }

  function Conclude(i: int, a: Action): Outcome {
    if a.Granted? then Chosen(i) else Aborted(i, a)
  }

  function Prepend(e: Attempt, rest: Report): Report {
    Report([e] + rest.log, rest.outcome)
  }

  function After(b: Balance, a: Action): Balance {
    if a.Postponed? then b.Delay() else b
  }

  lemma AfterProgress(b: Balance, counter: Counter, r: nat, a: Action)
    requires b.Valid() && b.scheme != Unknown && Choose(b, counter, r).Selected?
    requires a.Postponed? ==> !Choose(b, counter, r).balance.IsDelayed()
    ensures After(Choose(b, counter, r).balance, a).Valid()
    ensures 0 <= After(Choose(b, counter, r).balance, a).Measure() < b.Measure()
  {
    ChooseProgress(b, counter, r);
    TriedFits(Choose(b, counter, r).balance);
  }

  /** The retry loop, from any state between two rounds. */
  function Run(env: Env, b: Balance, counter: Counter, t: nat): (Report, Counter)
    requires b.Valid()
    decreases if b.Measure() < 0 then 0 else b.Measure()
  {
    match Choose(b, counter, env.rand(t))
    case Exhausted(_) => (Report([], NoSource), counter)
    case Selected(b1, c1) =>
      if b1.current == -1 then (Report([], Crash), c1)
      else
        assert b.scheme != Unknown;
        var a := Try(env, t, b1.current, b1.IsDelayed());
        if !a.Continues() then
          (Prepend(Attempt(b1.current, b1.IsDelayed(), a), Report([], Conclude(b1.current, a))), c1)
        else
          AfterProgress(b, counter, env.rand(t), a);
          var (rest, c2) := Run(env, After(b1, a), c1, t + 1);
          (Prepend(Attempt(b1.current, b1.IsDelayed(), a), rest), c2)
  }

  // ---------------------------------------------------------------- the reference: two passes

  /** First pass: every source of `order` once, postponing the unreachable ones. */
  function FirstPass(env: Env, order: seq<int>, queue: seq<int>, t: nat): Report {
    if order == [] then SecondPass(env, queue, t)
    else
      var i := order[0];
      var a := Try(env, t, i, false);
      Prepend(Attempt(i, false, a),
              if a.Continues()
              then FirstPass(env, order[1..], if a.Postponed? then queue + [i] else queue, t + 1)
              else Report([], Conclude(i, a)))
  }

  /** Second pass: the postponed sources, first postponed first, whatever their reachability. */
  function SecondPass(env: Env, queue: seq<int>, t: nat): Report {
    if queue == [] then Report([], NoSource)
    else
      var i := queue[0];
      var a := Try(env, t, i, true);
      Prepend(Attempt(i, true, a),
              if a.Continues() then SecondPass(env, queue[1..], t + 1) else Report([], Conclude(i, a)))
  }

  /** The sources still to be selected for the first time, in the order the scheme will take them. */
  function Upcoming(scheme: Scheme, n: nat, tried: set<int>, current: int, counter: Counter,
                    rand: nat -> nat, t: nat): seq<int>
    decreases |Below(n) - tried|
  {
    if Below(n) <= tried || n == 0 then []
    else
      var c := Bump(scheme, counter);
      var next := Advance(scheme, n, tried, current, c, rand(t));
      if next !in Below(n) - tried then []
      else
        assert Below(n) - (tried + {next}) == Below(n) - tried - {next};
        [next] + Upcoming(scheme, n, tried + {next}, next, c, rand, t + 1)
  }

  function Order(b: Balance, counter: Counter, rand: nat -> nat, t: nat): seq<int> {
    Upcoming(b.scheme, b.n, b.Tried(), b.current, counter, rand, t)
  }

  lemma OrderUnfolds(b: Balance, counter: Counter, rand: nat -> nat, t: nat)
    requires b.Valid() && b.scheme != Unknown
    ensures |b.Tried()| == b.n ==> Order(b, counter, rand, t) == []
    ensures |b.Tried()| != b.n ==>
              var s := Choose(b, counter, rand(t));
              Order(b, counter, rand, t) == [s.balance.current] + Order(s.balance, s.counter, rand, t + 1)
  {
    TriedFits(b);
    ChooseProgress(b, counter, rand(t));
  }

  /** Every scheme's order is a permutation of the sources not selected yet. */
  lemma {:induction false} OrderIsPermutation(b: Balance, counter: Counter, rand: nat -> nat, t: nat)
    requires b.Valid() && b.scheme != Unknown
    ensures Distinct(Order(b, counter, rand, t))
    ensures Elements(Order(b, counter, rand, t)) == Below(b.n) - b.Tried()
    decreases b.n - |b.Tried()|
  {
    TriedFits(b);
    OrderUnfolds(b, counter, rand, t);
    if |b.Tried()| != b.n {
      ChooseProgress(b, counter, rand(t));
      var s := Choose(b, counter, rand(t));
      OrderIsPermutation(s.balance, s.counter, rand, t + 1);
      DistinctCons(s.balance.current, Order(s.balance, s.counter, rand, t + 1));
    }
  }

  /** How often the round-robin counter moves: once per selection of the first pass. */
  function Firsts(log: seq<Attempt>): seq<Attempt> {
    if log == [] then [] else (if log[0].delayed then [] else [log[0]]) + Firsts(log[1..])
  }

  function Seconds(log: seq<Attempt>): seq<Attempt> {
    if log == [] then [] else (if log[0].delayed then [log[0]] else []) + Seconds(log[1..])
  }

  /** The in-place loop does exactly the two passes, in the scheme's order, from any state between rounds. */
  lemma {:induction false} RunIsTwoPasses(env: Env, b: Balance, counter: Counter, t: nat)
    requires b.Valid() && b.scheme != Unknown
    ensures Run(env, b, counter, t).0 == FirstPass(env, Order(b, counter, env.rand, t), b.delayed, t)
    decreases b.Measure()
  {
    var r := env.rand(t);
    TriedFits(b);
    ChooseProgress(b, counter, r);
    OrderUnfolds(b, counter, env.rand, t);
    match Choose(b, counter, r)
    case Exhausted(_) =>
    case Selected(b1, c1) =>
      var a := Try(env, t, b1.current, b1.IsDelayed());
      if a.Continues() {
        AfterProgress(b, counter, r, a);
        RunIsTwoPasses(env, After(b1, a), c1, t + 1);
        if b1.IsDelayed() {
          assert b.delayed[1..] == b1.delayed;
          TriedFits(b1);
          OrderUnfolds(b1, c1, env.rand, t + 1);
        }
      }
  }

  /** An import whose scheme is none of the three has its first selection dereferenced as nil. */
  lemma UnknownSchemeCrashes(env: Env, n: nat, counter: Counter, t: nat)
    ensures Run(env, NewBalance(n, Unknown), counter, t)
         == (Report([], if n == 0 then NoSource else Crash), counter)
  {
  }

  lemma {:induction false} SecondPassNoCrash(env: Env, queue: seq<int>, t: nat)
    ensures !SecondPass(env, queue, t).outcome.Crash?
  {
    if queue != [] {
      SecondPassNoCrash(env, queue[1..], t + 1);
    }
  }

  lemma {:induction false} FirstPassNoCrash(env: Env, order: seq<int>, queue: seq<int>, t: nat)
    ensures !FirstPass(env, order, queue, t).outcome.Crash?
  {
    if order == [] {
      SecondPassNoCrash(env, queue, t);
    } else {
      var queue' := if Try(env, t, order[0], false).Postponed? then queue + [order[0]] else queue;
      FirstPassNoCrash(env, order[1..], queue', t + 1);
    }
  }

  /** A request crashes exactly if there are sources and the import's scheme is some other text. */
  lemma CrashExactly(env: Env, n: nat, text: string, counter: Counter)
    ensures Run(env, NewBalance(n, SchemeOf(text)), counter, 0).0.outcome == Crash
       <==> n > 0 && text != "" && text != "round-robin" && text != "random" && text != "static"
  {
    if SchemeOf(text) == Unknown {
      UnknownSchemeCrashes(env, n, counter, 0);
    } else {
      var b := NewBalance(n, SchemeOf(text));
      RunIsTwoPasses(env, b, counter, 0);
      FirstPassNoCrash(env, Order(b, counter, env.rand, 0), [], 0);
    }
  }

  // ---------------------------------------------------------------- what holds of every run

  function Indices(log: seq<Attempt>): seq<int> {
    seq(|log|, k requires 0 <= k < |log| => log[k].index)
  }

  function PostponedIn(log: seq<Attempt>): seq<int> {
    if log == [] then []
    else (if log[0].action.Postponed? then [log[0].index] else []) + PostponedIn(log[1..])
  }

  function Occurrences(log: seq<Attempt>, i: int): nat {
    if log == [] then 0 else (if log[0].index == i then 1 else 0) + Occurrences(log[1..], i)
  }

  function Queries(log: seq<Attempt>, i: int): nat {
    if log == [] then 0
    else (if log[0].index == i && log[0].action.Queried() then 1 else 0) + Queries(log[1..], i)
  }

  lemma {:induction false} SecondPassShape(env: Env, queue: seq<int>, t: nat)
    ensures var r := SecondPass(env, queue, t);
            && Firsts(r.log) == [] && Seconds(r.log) == r.log && PostponedIn(r.log) == []
            && Indices(r.log) <= queue
            && (r.outcome.NoSource? ==> Indices(r.log) == queue)
  {
    if queue != [] {
      SecondPassShape(env, queue[1..], t + 1);
      assert [queue[0]] + queue[1..] == queue;
    }
  }

  /**
   Two-phase order. The log is a first part that follows the scheme's order, and a second part that
   follows the order in which the first part postponed sources; the second part starts only after
   every source was selected once, and the loop gives up only after both parts are complete.
   */
  ghost predicate TwoPhase(r: Report, order: seq<int>, queue: seq<int>) {
    var first, second := Firsts(r.log), Seconds(r.log);
    && r.log == first + second
    && Indices(first) <= order
    && Indices(second) <= queue + PostponedIn(first)
    && (second != [] || r.outcome.NoSource? ==> Indices(first) == order)
    && (r.outcome.NoSource? ==> Indices(second) == queue + PostponedIn(first))
  }

  lemma {:induction false} PrependParts(e: Attempt, r: Report)
    requires !e.delayed
    ensures Firsts(Prepend(e, r).log) == [e] + Firsts(r.log)
    ensures Seconds(Prepend(e, r).log) == Seconds(r.log)
  {
    assert Prepend(e, r).log[1..] == r.log;
  }

  lemma {:induction false} ConsParts(e: Attempt, first: seq<Attempt>)
    ensures Indices([e] + first) == [e.index] + Indices(first)
    ensures PostponedIn([e] + first) == (if e.action.Postponed? then [e.index] else []) + PostponedIn(first)
  {
    assert ([e] + first)[1..] == first;
  }

  lemma Associates<T>(a: seq<T>, b: seq<T>, c: seq<T>)
    ensures a + (b + c) == (a + b) + c
  {
  }

  lemma ConsPrefix<T>(x: T, s: seq<T>, t: seq<T>)
    requires s <= t
    ensures [x] + s <= [x] + t
  {
  }

  lemma {:induction false} TwoPhaseStep(i: int, a: Action, r: Report, order: seq<int>, queue: seq<int>)
    requires TwoPhase(r, order, if a.Postponed? then queue + [i] else queue)
    ensures TwoPhase(Prepend(Attempt(i, false, a), r), [i] + order, queue)
  {
    var e := Attempt(i, false, a);
    var first, second := Firsts(r.log), Seconds(r.log);
    PrependParts(e, r);
    ConsParts(e, first);
    Associates([e], first, second);
    ConsPrefix(i, Indices(first), order);
    if a.Postponed? {
      Associates(queue, [i], PostponedIn(first));
    } else {
      assert [] + PostponedIn(first) == PostponedIn(first);
    }
  }

  lemma {:induction false} FirstPassShape(env: Env, order: seq<int>, queue: seq<int>, t: nat)
    ensures TwoPhase(FirstPass(env, order, queue, t), order, queue)
  {
    if order == [] {
      SecondPassShape(env, queue, t);
      assert queue + [] == queue;
    } else {
      var i := order[0];
      var a := Try(env, t, i, false);
      assert [i] + order[1..] == order;
      if a.Continues() {
        var queue' := if a.Postponed? then queue + [i] else queue;
        FirstPassShape(env, order[1..], queue', t + 1);
        TwoPhaseStep(i, a, FirstPass(env, order[1..], queue', t + 1), order[1..], queue);
      } else {
        var r := FirstPass(env, order, queue, t);
        assert r.log == [Attempt(i, false, a)];
        assert Firsts(r.log) == r.log;
      }
    }
  }

  lemma {:induction false} SecondPassCounts(env: Env, queue: seq<int>, t: nat, i: int)
    requires Distinct(queue)
    ensures var r := SecondPass(env, queue, t);
            && |r.log| <= |queue|
            && Occurrences(r.log, i) <= (if i in queue then 1 else 0)
            && Queries(r.log, i) <= (if i in queue then 1 else 0)
            && (r.outcome.NoSource? ==> Queries(r.log, i) == if i in queue then 1 else 0)
  {
    if queue != [] {
      SecondPassCounts(env, queue[1..], t + 1, i);
      var r, r' := SecondPass(env, queue, t), SecondPass(env, queue[1..], t + 1);
      assert r.log[1..] == r'.log || r.log[1..] == [];
      assert i in queue <==> i == queue[0] || i in queue[1..];
    }
  }

  /**
   Counting. Each source is selected at most twice and put to the policy decision point at most
   once; a loop that gives up has put every source to it exactly once, even if reachability changes
   between rounds.
   */
  lemma {:induction false} FirstPassCounts(env: Env, order: seq<int>, queue: seq<int>, t: nat, i: int)
    requires Distinct(order + queue)
    ensures var r := FirstPass(env, order, queue, t);
            && |r.log| <= 2 * |order| + |queue|
            && Occurrences(r.log, i) <= (if i in order then 2 else if i in queue then 1 else 0)
            && Queries(r.log, i) <= (if i in order || i in queue then 1 else 0)
            && (r.outcome.NoSource? ==> Queries(r.log, i) == if i in order || i in queue then 1 else 0)
  {
    if order == [] {
      assert order + queue == queue;
      SecondPassCounts(env, queue, t, i);
    } else {
      var a := Try(env, t, order[0], false);
      var r := FirstPass(env, order, queue, t);
      assert i in order <==> i == order[0] || i in order[1..];
      DistinctRotates(order, queue);
      if a.Continues() {
        var queue' := if a.Postponed? then queue + [order[0]] else queue;
        FirstPassCounts(env, order[1..], queue', t + 1, i);
        assert r.log[1..] == FirstPass(env, order[1..], queue', t + 1).log;
      } else {
        assert r.log[1..] == [];
      }
    }
  }

  lemma DistinctRotates(order: seq<int>, queue: seq<int>)
    requires order != [] && Distinct(order + queue)
    ensures Distinct(order[1..] + queue) && Distinct(order[1..] + (queue + [order[0]]))
    ensures order[0] !in order[1..] && order[0] !in queue
  {
    var all := order + queue;
    assert order[1..] + queue == all[1..];
    assert all[0] !in all[1..];
    assert order[1..] + (queue + [order[0]]) == all[1..] + [all[0]];
  }

  // ---------------------------------------------------------------- the log and the rounds

  /** The last round tells the outcome. */
  predicate Concludes(log: seq<Attempt>, outcome: Outcome) {
    match outcome
    case Chosen(i) => log != [] && log[|log| - 1].index == i && log[|log| - 1].action == Granted
    case Aborted(i, why) =>
      && log != [] && log[|log| - 1].index == i && log[|log| - 1].action == why
      && !why.Continues() && why != Granted
    case NoSource => log != [] ==> log[|log| - 1].action.Continues()
    case Crash => false
  }

  /**
   The log is what happened, round by round: entry `j` is what the loop found in round `t + j`, every
   round but the last goes on, and the last one tells the outcome.
   */
  ghost predicate Tells(env: Env, r: Report, t: nat) {
    && (forall j :: 0 <= j < |r.log| ==> r.log[j].action == Try(env, t + j, r.log[j].index, r.log[j].delayed))
    && (forall j :: 0 <= j < |r.log| - 1 ==> r.log[j].action.Continues())
    && Concludes(r.log, r.outcome)
  }

  lemma TellsMore(env: Env, e: Attempt, r: Report, t: nat)
    requires Tells(env, r, t + 1) && e.action == Try(env, t, e.index, e.delayed) && e.action.Continues()
    ensures Tells(env, Prepend(e, r), t)
  {
    var log := Prepend(e, r).log;
    forall j | 0 <= j < |log| ensures log[j].action == Try(env, t + j, log[j].index, log[j].delayed) {
      if j > 0 {
        assert log[j] == r.log[j - 1] && t + j == t + 1 + (j - 1);
      }
    }
    assert r.log != [] ==> log[|log| - 1] == r.log[|r.log| - 1];
  }

  lemma {:induction false} SecondPassTells(env: Env, queue: seq<int>, t: nat)
    ensures Tells(env, SecondPass(env, queue, t), t)
  {
    if queue != [] {
      var a := Try(env, t, queue[0], true);
      if a.Continues() {
        SecondPassTells(env, queue[1..], t + 1);
        TellsMore(env, Attempt(queue[0], true, a), SecondPass(env, queue[1..], t + 1), t);
      }
    }
  }

  lemma {:induction false} FirstPassTells(env: Env, order: seq<int>, queue: seq<int>, t: nat)
    ensures Tells(env, FirstPass(env, order, queue, t), t)
  {
    if order == [] {
      SecondPassTells(env, queue, t);
    } else {
      var i := order[0];
      var a := Try(env, t, i, false);
      if a.Continues() {
        var queue' := if a.Postponed? then queue + [i] else queue;
        FirstPassTells(env, order[1..], queue', t + 1);
        TellsMore(env, Attempt(i, false, a), FirstPass(env, order[1..], queue', t + 1), t);
      }
    }
  }

  // ---------------------------------------------------------------- steady decisions

  /** Every lookup succeeds, and decisions and grants do not change while the request runs. */
  ghost predicate Steady(env: Env, n: nat) {
    forall t, i :: 0 <= i < n ==> SteadyAt(env, t, i)
  }

  /** The indices of sources, of which there are `n`. */
  predicate Within(s: seq<int>, n: nat) {
    forall k :: 0 <= k < |s| ==> 0 <= s[k] < n
  }

  predicate SteadyAt(env: Env, t: nat, i: int) {
    && env.peer(t, i).Peer?
    && env.pdp(t, i) == env.pdp(0, i) && env.pdp(t, i) != Error
    && env.client(t, i)
    && env.grant(t, i) == env.grant(0, i)
  }

  predicate Accepts(env: Env, i: int) {
    env.pdp(0, i) == Allow && env.grant(0, i)
  }

  function Willing(env: Env): int -> bool {
    i => Accepts(env, i)
  }

  lemma {:induction false} SecondPassAnswer(env: Env, n: nat, queue: seq<int>, t: nat)
    requires Steady(env, n) && Within(queue, n)
    ensures SecondPass(env, queue, t).outcome == Answer(First(queue, Willing(env)))
  {
    if queue != [] {
      SecondPassAnswer(env, n, queue[1..], t + 1);
      assert SteadyAt(env, t, queue[0]);
    }
  }

  function First(s: seq<int>, p: int -> bool): Option<int> {
    if s == [] then None else if p(s[0]) then Some(s[0]) else First(s[1..], p)
  }

  function Answer(found: Option<int>): Outcome {
    match found case None => NoSource case Some(i) => Chosen(i)
  }

  /**
   Soundness and completeness, with reachability free to change: the outcome is a source that
   accepts, and it is `NoSource` only if none does.
   */
  lemma {:induction false} FirstPassDecides(env: Env, n: nat, order: seq<int>, queue: seq<int>, t: nat)
    requires Steady(env, n) && Within(order, n) && Within(queue, n)
    ensures match FirstPass(env, order, queue, t).outcome
            case Chosen(i) => (i in order || i in queue) && Accepts(env, i)
            case NoSource => forall i :: i in order || i in queue ==> !Accepts(env, i)
            case _ => false
  {
    if order == [] {
      SecondPassAnswer(env, n, queue, t);
      FirstCorrect(queue, Willing(env));
    } else {
      var i := order[0];
      assert SteadyAt(env, t, i);
      var queue' := if Try(env, t, i, false).Postponed? then queue + [i] else queue;
      FirstPassDecides(env, n, order[1..], queue', t + 1);
      assert forall j :: j in order <==> j == i || j in order[1..];
    }
  }

  lemma {:induction false} FirstCorrect(s: seq<int>, p: int -> bool)
    ensures match First(s, p)
            case None => forall i :: i in s ==> !p(i)
            case Some(i) => i in s && p(i)
  {
    if s != [] {
      FirstCorrect(s[1..], p);
      assert forall j :: j in s <==> j == s[0] || j in s[1..];
    }
  }

  ghost predicate SteadyPeers(env: Env, n: nat) {
    forall t, i :: 0 <= i < n ==> env.peer(t, i) == env.peer(0, i)
  }

  predicate Reachable(env: Env, i: int) {
    env.peer(0, i) == Peer(true)
  }

  function Preferred(env: Env): int -> bool {
    i => Reachable(env, i) && Accepts(env, i)
  }

  lemma {:induction false} FirstSkips(a: seq<int>, i: int, b: seq<int>, p: int -> bool)
    requires !p(i)
    ensures First(a + ([i] + b), p) == First(a + b, p)
  {
    if a == [] {
      assert a + ([i] + b) == [i] + b && a + b == b;
    } else {
      FirstSkips(a[1..], i, b, p);
      assert (a + ([i] + b))[1..] == a[1..] + ([i] + b) && (a + b)[1..] == a[1..] + b;
    }
  }

  /** With steady reachability the first reachable acceptor in the order wins, else the first acceptor at all. */
  lemma {:induction false} FirstPassPrefers(env: Env, n: nat, order: seq<int>, queue: seq<int>, t: nat)
    requires Steady(env, n) && SteadyPeers(env, n) && Within(order, n) && Within(queue, n)
    ensures FirstPass(env, order, queue, t).outcome ==
            var best := First(order, Preferred(env));
            if best.Some? then Chosen(best.value)
            else Answer(First(queue + order, Willing(env)))
  {
    if order == [] {
      SecondPassAnswer(env, n, queue, t);
      assert queue + order == queue;
    } else {
      var i := order[0];
      assert SteadyAt(env, t, i) && env.peer(t, i) == env.peer(0, i);
      var a := Try(env, t, i, false);
      var queue' := if a.Postponed? then queue + [i] else queue;
      FirstPassPrefers(env, n, order[1..], queue', t + 1);
      assert order == [i] + order[1..];
      if a.Postponed? {
        assert queue' + order[1..] == queue + order;
      } else if !Accepts(env, i) {
        FirstSkips(queue, i, order[1..], Willing(env));
      }
    }
  }

  // ---------------------------------------------------------------- whole requests

  ghost function Request(env: Env, n: nat, scheme: Scheme, counter: Counter): Report {
    Run(env, NewBalance(n, scheme), counter, 0).0
  }

  ghost function FullOrder(env: Env, n: nat, scheme: Scheme, counter: Counter): seq<int> {
    Order(NewBalance(n, scheme), counter, env.rand, 0)
  }

  /** The retry loop ends within 2n selections, in two phases over a permutation of all sources. */
  lemma RequestIsTwoPhase(env: Env, n: nat, scheme: Scheme, counter: Counter, i: int)
    requires scheme != Unknown
    ensures var order := FullOrder(env, n, scheme, counter);
            var r := Request(env, n, scheme, counter);
            && Distinct(order) && Elements(order) == Below(n)
            && TwoPhase(r, order, [])
            && |r.log| <= 2 * n && Occurrences(r.log, i) <= 2 && Queries(r.log, i) <= 1
            && (r.outcome.NoSource? && 0 <= i < n ==> Queries(r.log, i) == 1)
  {
    var b := NewBalance(n, scheme);
    var order := FullOrder(env, n, scheme, counter);
    OrderIsPermutation(b, counter, env.rand, 0);
    DistinctSize(order);
    BelowSize(n);
    RunIsTwoPasses(env, b, counter, 0);
    FirstPassShape(env, order, [], 0);
    assert order + [] == order;
    FirstPassCounts(env, order, [], 0, i);
    assert i in order <==> i in Elements(order);
  }

  lemma ElementsWithin(s: seq<int>, n: nat)
    requires Elements(s) == Below(n)
    ensures Within(s, n)
  {
    assert forall k :: 0 <= k < |s| ==> s[k] in Elements(s);
  }

  /** Entry `j` of the log got as far as the policies: its peer was there, and reachable or late. */
  predicate PastPeer(env: Env, log: seq<Attempt>, j: nat)
    requires j < |log|
  {
    var peer := env.peer(j, log[j].index);
    peer.Peer? && (peer.reachable || log[j].delayed)
  }

  predicate PastPdp(env: Env, log: seq<Attempt>, j: nat)
    requires j < |log|
  {
    PastPeer(env, log, j) && env.pdp(j, log[j].index) == Allow
  }

  predicate PastClient(env: Env, log: seq<Attempt>, j: nat)
    requires j < |log|
  {
    PastPdp(env, log, j) && env.client(j, log[j].index)
  }

  /**
   What ends a request, told from what its rounds found: a missing peer, a failing decision or a missing
   client, each with what is looked up before it in place, ends it with that error; a grant ends it with the
   source; and nothing else does before the sources are used up.
   */
  lemma RequestRounds(env: Env, n: nat, scheme: Scheme, counter: Counter, j: nat)
    requires scheme != Unknown && j < |Request(env, n, scheme, counter).log|
    ensures var r := Request(env, n, scheme, counter);
            var i, last := r.log[j].index, j == |r.log| - 1;
            && (env.peer(j, i) == Missing <==> last && r.outcome == Aborted(i, PeerMissing))
            && (PastPeer(env, r.log, j) && env.pdp(j, i) == Error <==> last && r.outcome == Aborted(i, PdpFailed))
            && (PastPdp(env, r.log, j) && !env.client(j, i) <==> last && r.outcome == Aborted(i, ClientMissing))
            && (PastClient(env, r.log, j) && env.grant(j, i) <==> last && r.outcome == Chosen(i))
    ensures var r := Request(env, n, scheme, counter);
            var i := r.log[j].index;
            && (r.log[j].action.Queried() <==> PastPeer(env, r.log, j))
            && (r.log[j].action == Postponed <==> env.peer(j, i) == Peer(false) && !r.log[j].delayed)
            && (r.log[j].action == Denied <==> PastPeer(env, r.log, j) && env.pdp(j, i) == Deny)
            && (r.log[j].action == Refused <==> PastClient(env, r.log, j) && !env.grant(j, i))
  {
    RequestTells(env, n, scheme, counter);
    RoundEnds(env, Request(env, n, scheme, counter), j);
    RoundActs(env, Request(env, n, scheme, counter), j);
  }

  lemma RoundActs(env: Env, r: Report, j: nat)
    requires Tells(env, r, 0) && j < |r.log|
    ensures var i, action := r.log[j].index, r.log[j].action;
            && (action == PeerMissing <==> env.peer(j, i) == Missing)
            && (action == PdpFailed <==> PastPeer(env, r.log, j) && env.pdp(j, i) == Error)
            && (action == ClientMissing <==> PastPdp(env, r.log, j) && !env.client(j, i))
            && (action == Granted <==> PastClient(env, r.log, j) && env.grant(j, i))
            && (action.Queried() <==> PastPeer(env, r.log, j))
            && (action == Postponed <==> env.peer(j, i) == Peer(false) && !r.log[j].delayed)
            && (action == Denied <==> PastPeer(env, r.log, j) && env.pdp(j, i) == Deny)
            && (action == Refused <==> PastClient(env, r.log, j) && !env.grant(j, i))
  {
    assert 0 + j == j;
  }

  lemma RoundEnds(env: Env, r: Report, j: nat)
    requires Tells(env, r, 0) && j < |r.log|
    ensures var i, action, last := r.log[j].index, r.log[j].action, j == |r.log| - 1;
            && (action == PeerMissing <==> last && r.outcome == Aborted(i, PeerMissing))
            && (action == PdpFailed <==> last && r.outcome == Aborted(i, PdpFailed))
            && (action == ClientMissing <==> last && r.outcome == Aborted(i, ClientMissing))
            && (action == Granted <==> last && r.outcome == Chosen(i))
  {
  }

  /** The log of a request is what happened in its rounds, and concerns its sources only. */
  lemma RequestTells(env: Env, n: nat, scheme: Scheme, counter: Counter)
    requires scheme != Unknown
    ensures Tells(env, Request(env, n, scheme, counter), 0) && Concerns(Request(env, n, scheme, counter).log, n)
  {
    var b, order := NewBalance(n, scheme), FullOrder(env, n, scheme, counter);
    RunIsTwoPasses(env, b, counter, 0);
    OrderIsPermutation(b, counter, env.rand, 0);
    ElementsWithin(order, n);
    PassTells(env, n, order, Request(env, n, scheme, counter));
  }

  lemma PassTells(env: Env, n: nat, order: seq<int>, r: Report)
    requires Within(order, n) && r == FirstPass(env, order, [], 0)
    ensures Tells(env, r, 0) && Concerns(r.log, n)
  {
    FirstPassTells(env, order, [], 0);
    FirstPassConcerns(env, n, order, [], 0);
  }

  predicate Concerns(log: seq<Attempt>, n: nat) {
    forall j :: 0 <= j < |log| ==> 0 <= log[j].index < n
  }

  lemma {:induction false} SecondPassConcerns(env: Env, n: nat, queue: seq<int>, t: nat)
    requires Within(queue, n)
    ensures Concerns(SecondPass(env, queue, t).log, n)
  {
    if queue != [] {
      SecondPassConcerns(env, n, queue[1..], t + 1);
    }
  }

  lemma {:induction false} FirstPassConcerns(env: Env, n: nat, order: seq<int>, queue: seq<int>, t: nat)
    requires Within(order, n) && Within(queue, n)
    ensures Concerns(FirstPass(env, order, queue, t).log, n)
  {
    if order == [] {
      SecondPassConcerns(env, n, queue, t);
    } else {
      var queue' := if Try(env, t, order[0], false).Postponed? then queue + [order[0]] else queue;
      FirstPassConcerns(env, n, order[1..], queue', t + 1);
    }
  }

  /** A request succeeds exactly when some source is allowed and grants a token, and picks such a one. */
  lemma RequestDecides(env: Env, n: nat, scheme: Scheme, counter: Counter)
    requires scheme != Unknown && Steady(env, n)
    ensures match Request(env, n, scheme, counter).outcome
            case Chosen(i) => 0 <= i < n && Accepts(env, i)
            case NoSource => forall i :: 0 <= i < n ==> !Accepts(env, i)
            case _ => false
  {
    var b := NewBalance(n, scheme);
    OrderIsPermutation(b, counter, env.rand, 0);
    RunIsTwoPasses(env, b, counter, 0);
    var order := FullOrder(env, n, scheme, counter);
    ElementsWithin(order, n);
    FirstPassDecides(env, n, order, [], 0);
    assert forall i :: i in order <==> i in Elements(order);
  }

  /** The indices from `low` up to `high`, exclusive. */
  function Ascending(low: int, high: int): seq<int>
    decreases high - low
  {
    if low >= high then [] else [low] + Ascending(low + 1, high)
  }

  lemma StaticStep(b: Balance, counter: Counter, r: nat)
    requires b.Valid() && b.scheme == Static && b.current !in b.failed
    ensures |b.Tried()| == b.n <==> b.current + 1 == b.n
    ensures |b.Tried()| != b.n ==>
              var s := Choose(b, counter, r);
              && s.Selected? && s.balance.Valid() && s.balance.scheme == Static && s.balance.n == b.n
              && s.balance.current == b.current + 1 && s.balance.current !in s.balance.failed
              && |s.balance.Tried()| == |b.Tried()| + 1
  {
    TriedFits(b);
    ChooseProgress(b, counter, r);
    assert |b.Tried()| == b.n && b.n > 0 ==> b.n - 1 in b.Tried();
    assert b.current + 1 == b.n ==> b.Tried() == Below(b.n);
  }

  lemma {:induction false} StaticOrder(b: Balance, counter: Counter, rand: nat -> nat, t: nat)
    requires b.Valid() && b.scheme == Static && b.current !in b.failed
    ensures Order(b, counter, rand, t) == Ascending(b.current + 1, b.n)
    decreases b.n - b.current
  {
    OrderUnfolds(b, counter, rand, t);
    StaticStep(b, counter, rand(t));
    if |b.Tried()| != b.n {
      var s := Choose(b, counter, rand(t));
      StaticOrder(s.balance, s.counter, rand, t + 1);
    }
  }

  lemma {:induction false} FirstInAscending(low: int, high: int, p: int -> bool)
    ensures match First(Ascending(low, high), p)
            case None => forall i :: low <= i < high ==> !p(i)
            case Some(i) => low <= i < high && p(i) && forall j :: low <= j < i ==> !p(j)
    decreases high - low
  {
    if low < high {
      FirstInAscending(low + 1, high, p);
      assert Ascending(low, high)[1..] == Ascending(low + 1, high);
    }
  }

  lemma StaticRequest(env: Env, n: nat, counter: Counter)
    ensures Request(env, n, Static, counter) == FirstPass(env, Ascending(0, n), [], 0)
    ensures Within(Ascending(0, n), n)
  {
    var b := NewBalance(n, Static);
    RunIsTwoPasses(env, b, counter, 0);
    StaticOrder(b, counter, env.rand, 0);
    OrderIsPermutation(b, counter, env.rand, 0);
    ElementsWithin(Ascending(0, n), n);
  }

  /** The lowest-index reachable acceptor, else the lowest-index acceptor, which is then an unreachable one. */
  ghost predicate LowestFirst(env: Env, n: nat, outcome: Outcome) {
    match outcome
    case Chosen(i) =>
      && 0 <= i < n && Accepts(env, i)
      && (Reachable(env, i) ==> forall j :: 0 <= j < i ==> !(Reachable(env, j) && Accepts(env, j)))
      && (!Reachable(env, i) ==>
            && (forall j :: 0 <= j < n ==> !(Reachable(env, j) && Accepts(env, j)))
            && (forall j :: 0 <= j < i ==> !Accepts(env, j)))
    case NoSource => forall i :: 0 <= i < n ==> !Accepts(env, i)
    case _ => false
  }

  lemma AscendingPreference(env: Env, n: nat)
    requires Steady(env, n) && SteadyPeers(env, n) && Within(Ascending(0, n), n)
    ensures LowestFirst(env, n, FirstPass(env, Ascending(0, n), [], 0).outcome)
  {
    FirstPassPrefers(env, n, Ascending(0, n), [], 0);
    FirstInAscending(0, n, Preferred(env));
    FirstInAscending(0, n, Willing(env));
    assert [] + Ascending(0, n) == Ascending(0, n);
    assert forall i :: Preferred(env)(i) <==> Reachable(env, i) && Accepts(env, i);
    assert forall i :: Willing(env)(i) <==> Accepts(env, i);
  }

  /** Under the static scheme with steady reachability, the order of preference is by index, reachable sources first. */
  lemma StaticPreference(env: Env, n: nat, counter: Counter)
    requires Steady(env, n) && SteadyPeers(env, n)
    ensures LowestFirst(env, n, Request(env, n, Static, counter).outcome)
  {
    StaticRequest(env, n, counter);
    AscendingPreference(env, n);
  }

  // ---------------------------------------------------------------- the imperative loop

  ghost function Onto(log: seq<Attempt>, r: (Report, Counter)): (Report, Counter) {
    (Report(log + r.0.log, r.0.outcome), r.1)
  }

  lemma OntoPrepend(log: seq<Attempt>, e: Attempt, r: (Report, Counter))
    ensures Onto(log, (Prepend(e, r.0), r.1)) == Onto(log + [e], r)
  {
    assert log + ([e] + r.0.log) == log + [e] + r.0.log;
  }

  /** The loop over the shared balancer; the error paths return, the three retry paths go round again. */
  method AuthorizeEgress(lb: LoadBalancer, importName: Name, n: nat, scheme: Scheme, env: Env)
    returns (outcome: Outcome, ghost log: seq<Attempt>)
    modifies lb
    ensures (Report(log, outcome), lb.CounterOf(importName))
         == Run(env, NewBalance(n, scheme), old(lb.CounterOf(importName)), 0)
    ensures forall other :: other != importName ==> lb.CounterOf(other) == old(lb.CounterOf(other))
  {
    var result := new Result(importName, n, scheme);
    var t := 0;
    log := [];
    ghost var whole := Run(env, NewBalance(n, scheme), old(lb.CounterOf(importName)), 0);
    assert Onto(log, whole) == whole by {
      assert [] + whole.0.log == whole.0.log;
    }
    while true
      invariant fresh(result) && result.importName == importName && result.View().Valid()
      invariant forall other :: other != importName ==> lb.CounterOf(other) == old(lb.CounterOf(other))
      invariant whole == Onto(log, Run(env, result.View(), lb.CounterOf(importName), t))
      decreases if result.View().Measure() < 0 then 0 else result.View().Measure()
    {
      var done;
      ghost var entry;
      done, outcome, entry := Round(lb, result, env, t);
      if done {
        log := log + entry;
        return;
      }
      OntoPrepend(log, entry[0], Run(env, result.View(), lb.CounterOf(importName), t + 1));
      log := log + [entry[0]];
      t := t + 1;
    }
  }

  /** One round: done with an outcome, or one entry logged and the state of the next round in place. */
  method Round(lb: LoadBalancer, result: Result, env: Env, t: nat)
    returns (done: bool, outcome: Outcome, ghost entry: seq<Attempt>)
    requires result.View().Valid()
    modifies lb, result
    ensures forall other :: other != result.importName ==> lb.CounterOf(other) == old(lb.CounterOf(other))
    ensures var run := Run(env, old(result.View()), old(lb.CounterOf(result.importName)), t);
            if done then (Report(entry, outcome), lb.CounterOf(result.importName)) == run
            else
              && result.View().Valid()
              && 0 <= result.View().Measure() < old(result.View().Measure())
              && |entry| == 1
              && var rest := Run(env, result.View(), lb.CounterOf(result.importName), t + 1);
                 run == (Prepend(entry[0], rest.0), rest.1)
  {
    RunUnfolds(env, result.View(), lb.CounterOf(result.importName), t);
    entry := [];
    outcome := NoSource;
    var ok := lb.Select(result, env.rand(t));
    if !ok {
      return true, NoSource, [];
    }
    if result.currentIndex == -1 {
      return true, Crash, [];
    }
    var i := result.currentIndex;
    var late := result.IsDelayed();
    var action := Consult(env, t, i, late);
    entry := [Attempt(i, late, action)];
    if action.Postponed? {
      result.Delay();
    } else if !action.Continues() {
      return true, Conclude(i, action), entry;
    }
    done := false;
  }

  /** What one round asks of the environment, in the order it asks. */
  method Consult(env: Env, t: nat, i: int, late: bool) returns (action: Action)
    ensures action == Try(env, t, i, late)
  {
    var peer := env.peer(t, i);
    if peer.Missing? {
      return PeerMissing;
    }
    if !peer.reachable {
      if !late {
        return Postponed;
      }
    }
    var verdict := env.pdp(t, i);
    if verdict == Error {
      return PdpFailed;
    }
    if verdict != Allow {
      return Denied;
    }
    if !env.client(t, i) {
      return ClientMissing;
    }
    if env.grant(t, i) {
      return Granted;
    }
    return Refused;
  }

  /** One unfolding of `Run`. */
  lemma {:induction false} RunUnfolds(env: Env, b: Balance, counter: Counter, t: nat)
    requires b.Valid()
    ensures match Choose(b, counter, env.rand(t))
            case Exhausted(_) => Run(env, b, counter, t) == (Report([], NoSource), counter)
            case Selected(b1, c1) =>
              if b1.current == -1 then Run(env, b, counter, t) == (Report([], Crash), c1)
              else
                var a := Try(env, t, b1.current, b1.IsDelayed());
                if !a.Continues() then
                  Run(env, b, counter, t)
                  == (Report([Attempt(b1.current, b1.IsDelayed(), a)], Conclude(b1.current, a)), c1)
                else
                  && After(b1, a).Valid()
                  && 0 <= After(b1, a).Measure() < b.Measure()
                  && var run2 := Run(env, After(b1, a), c1, t + 1);
                     Run(env, b, counter, t) == (Prepend(Attempt(b1.current, b1.IsDelayed(), a), run2.0), run2.1)
  {
    match Choose(b, counter, env.rand(t))
    case Exhausted(_) =>
    case Selected(b1, c1) =>
      if b1.current != -1 {
        var a := Try(env, t, b1.current, b1.IsDelayed());
        assert [Attempt(b1.current, b1.IsDelayed(), a)] + [] == [Attempt(b1.current, b1.IsDelayed(), a)];
        if a.Continues() {
          AfterProgress(b, counter, env.rand(t), a);
        }
      }
  }
}
