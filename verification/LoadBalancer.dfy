/**
 The load balancer that picks one of an import's sources: the per-request selection state, and
 the three schemes that advance it.
 */
module LoadBalancing {
  import opened Arithmetic
  import opened Common

  /** One past the largest value of the 32-bit round-robin counter. */
  const COUNTER_LIMIT: nat := 0x1_0000_0000

  type Counter = c: nat | c < COUNTER_LIMIT

  datatype Scheme = Random | RoundRobin | Static | Unknown

  /** An import without a scheme is balanced round-robin. */
  function SchemeOf(text: string): Scheme {
    if text == "" || text == "round-robin" then RoundRobin
    else if text == "random" then Random
    else if text == "static" then Static
    else Unknown
  }

  /** The selection state of one request over an import with `n` sources. */
  datatype Balance = Balance(n: nat, scheme: Scheme, current: int, failed: set<int>, delayed: seq<int>) {

    /** Every index selected so far. */
    function Tried(): set<int> {
      if current == -1 then failed else failed + {current}
    }

    predicate IsDelayed() {
      |failed| == n
    }

    function Delay(): Balance {
      this.(delayed := delayed + [current])
    }

    /**
     Holds between two selections. While the first pass is under way, `failed` is what precedes
     `current`: from 0 up when static, the arc of the circle behind it when round-robin.
     */
    ghost predicate Valid() {
      && -1 <= current < n
      && failed <= Below(n)
      && (forall k :: 0 <= k < |delayed| ==> delayed[k] in Tried())
      && (current == -1 ==> failed == {})
      && (scheme == Unknown ==> current == -1)
      && (current in failed ==> failed == Below(n))
      && (scheme == Static && current !in failed ==> forall i :: i in failed <==> 0 <= i < current)
      && (scheme == RoundRobin && current != -1 && current !in failed ==>
            forall i :: i in failed <==> 0 <= i < n && 1 <= Distance(n, i, current) <= |failed|)
    }

    /** Bounds the selections still to come. */
    ghost function Measure(): int {
      2 * (n - |Tried()|) + |delayed|
    }
  }

  function NewBalance(n: nat, scheme: Scheme): (b: Balance)
    ensures b.Valid()
  {
    Balance(n, scheme, -1, {}, [])
  }

  lemma TriedFits(b: Balance)
    requires b.Valid()
    ensures b.Tried() <= Below(b.n) && |b.Tried()| <= b.n
    ensures |b.Tried()| == b.n <==> b.Tried() == Below(b.n)
  {
    BelowSize(b.n);
    SubsetSize(b.Tried(), Below(b.n));
  }

  /** The scan of the random scheme: up from `index`, around the circle, for at most `budget` indices. */
  function Scan(n: nat, failed: set<int>, index: int, budget: nat, otherwise: int): int
    decreases budget
  {
    if budget == 0 then otherwise
    else if index !in failed then index
    else Scan(n, failed, Next(n, index), budget - 1, otherwise)
  }

  lemma {:induction false} ScanFinds(n: nat, failed: set<int>, index: int, budget: nat, otherwise: int)
    requires 0 <= index < n
    requires forall i :: 0 <= i < n && Distance(n, index, i) >= budget ==> i in failed
    requires failed <= Below(n) && failed != Below(n)
    ensures Scan(n, failed, index, budget, otherwise) in Below(n) - failed
    decreases budget
  {
    assert budget == 0 ==> Below(n) <= failed;
    if budget > 0 && index in failed {
      ScanFinds(n, failed, Next(n, index), budget - 1, otherwise);
    }
  }

  /** The scan stops at the first index that did not fail, going up from where it starts and around the circle. */
  lemma {:induction false} ScanNearest(n: nat, failed: set<int>, index: int, budget: nat, otherwise: int, i: int)
    requires 0 <= index < n && budget <= n && 0 <= i < n && i !in failed && Distance(n, index, i) < budget
    ensures var x := Scan(n, failed, index, budget, otherwise);
            0 <= x < n && x !in failed && Distance(n, index, x) <= Distance(n, index, i)
    decreases budget
  {
    if index in failed {
      ScanNearest(n, failed, Next(n, index), budget - 1, otherwise, i);
    }
  }

  datatype Selection = Exhausted(balance: Balance) | Selected(balance: Balance, counter: Counter)

  /** The index the scheme moves to, given the counter after its increment and a random number. */
  function Advance(scheme: Scheme, n: nat, tried: set<int>, current: int, counter: Counter, r: nat): int
    requires n > 0
  {
    match scheme
    case Random => Scan(n, tried, Residue(n, r), n, current)
    case RoundRobin => if current != -1 then Next(n, current) else Residue(n, counter)
    case Static => current + 1
    case Unknown => current
  }

  /** Only round-robin counts selections, in 32 bits. */
  function Bump(scheme: Scheme, counter: Counter): Counter {
    if scheme == RoundRobin then Next(COUNTER_LIMIT, counter) else counter
  }

  function Choose(b: Balance, counter: Counter, r: nat): Selection
    requires b.Valid()
  {
    TriedFits(b);
    var b1 := b.(failed := b.Tried());
    if |b.Tried()| == b.n then
      if |b.delayed| > 0 then
        Selected(b1.(current := b.delayed[0], delayed := b.delayed[1..]), counter)
      else Exhausted(b1)
    else
      var c := Bump(b.scheme, counter);
      Selected(b1.(current := Advance(b.scheme, b.n, b.Tried(), b.current, c, r)), c)
  }

  /**
   A successful selection yields an index never selected before while some is left, and otherwise
   the head of the delayed queue; `IsDelayed` tells the two apart; the measure drops by two or one.
   */
  lemma ChooseProgress(b: Balance, counter: Counter, r: nat)
    requires b.Valid() && b.scheme != Unknown
    ensures match Choose(b, counter, r)
            case Exhausted(b1) => |b.Tried()| == b.n && b.delayed == []
            case Selected(b1, c1) =>
              && b1.Valid() && 0 <= b1.current < b.n
              && b1.failed == b.Tried()
              && (b1.IsDelayed() <==> b.Tried() == Below(b.n))
              && (!b1.IsDelayed() ==>
                    b1.current !in b.Tried() && b1.delayed == b.delayed && b1.Measure() == b.Measure() - 2)
              && (b1.IsDelayed() ==>
                    [b1.current] + b1.delayed == b.delayed && b1.Measure() == b.Measure() - 1)
  {
    TriedFits(b);
    if |b.Tried()| == b.n {
      if |b.delayed| > 0 {
        var b1 := Choose(b, counter, r).balance;
        assert b.delayed[0] in b.Tried();
        assert b1.Tried() == b.Tried();
      }
    } else {
      AdvanceIsFresh(b, Bump(b.scheme, counter), r);
      AdvanceKeepsShape(b, Bump(b.scheme, counter), r);
    }
  }

  /** The random scheme takes the untried index nearest to the drawn one, going up: each is taken for some draw. */
  lemma RandomTakesNearest(b: Balance, counter: Counter, r: nat, i: int)
    requires b.Valid() && b.scheme == Random && 0 <= i < b.n && i !in b.Tried()
    ensures var s := Choose(b, counter, r);
            && s.Selected? && 0 <= s.balance.current < b.n && s.balance.current !in b.Tried()
            && Distance(b.n, r % b.n, s.balance.current) <= Distance(b.n, r % b.n, i)
            && s.counter == counter
    ensures Choose(b, counter, i).Selected? && Choose(b, counter, i).balance.current == i
  {
    TriedFits(b);
    ResidueIsMod(b.n, r);
    ScanNearest(b.n, b.Tried(), r % b.n, b.n, b.current, i);
    ScanNearest(b.n, b.Tried(), i, b.n, b.current, i);
  }

  lemma FirstPassUnfinished(b: Balance)
    requires b.Valid() && b.Tried() != Below(b.n)
    ensures b.current !in b.failed && |b.failed| + (if b.current == -1 then 0 else 1) < b.n
  {
    assert b.current in b.failed ==> b.Tried() == b.failed;
    TriedFits(b);
  }

  lemma AdvanceIsFresh(b: Balance, counter: Counter, r: nat)
    requires b.Valid() && b.scheme != Unknown && b.Tried() != Below(b.n) && b.n > 0
    ensures Advance(b.scheme, b.n, b.Tried(), b.current, counter, r) in Below(b.n) - b.Tried()
  {
    var n := b.n;
    TriedFits(b);
    FirstPassUnfinished(b);
    match b.scheme
    case Random => ScanFinds(n, b.Tried(), Residue(n, r), n, b.current);
    case RoundRobin =>
      if b.current != -1 {
        assert Distance(n, Next(n, b.current), b.current) == n - 1;
      }
    case Static =>
      assert b.current + 1 == n ==> b.Tried() == Below(n);
  }

  /** Moving on by one index lengthens the arc behind it by one. */
  lemma ArcGrows(n: nat, failed: set<int>, current: int, length: int)
    requires 0 <= current < n && 0 <= length < n - 1
    requires forall i :: i in failed <==> 0 <= i < n && 1 <= Distance(n, i, current) <= length
    ensures forall i :: i in failed + {current} <==> 0 <= i < n && 1 <= Distance(n, i, Next(n, current)) <= length + 1
  {
    var c := Next(n, current);
    forall i ensures i in failed + {current} <==> 0 <= i < n && 1 <= Distance(n, i, c) <= length + 1 {
      if 0 <= i < n && i != c {
        assert Distance(n, i, c) == Distance(n, i, current) + 1;
      }
    }
  }

  lemma AdvanceKeepsShape(b: Balance, counter: Counter, r: nat)
    requires b.Valid() && b.scheme != Unknown && b.Tried() != Below(b.n) && b.n > 0
    requires Advance(b.scheme, b.n, b.Tried(), b.current, counter, r) in Below(b.n) - b.Tried()
    ensures b.(failed := b.Tried(), current := Advance(b.scheme, b.n, b.Tried(), b.current, counter, r)).Valid()
  {
    var c := Advance(b.scheme, b.n, b.Tried(), b.current, counter, r);
    var b1 := b.(failed := b.Tried(), current := c);
    TriedFits(b);
    FirstPassUnfinished(b);
    if b.scheme == RoundRobin && b.current != -1 {
      ArcGrows(b.n, b.failed, b.current, |b.failed|);
    }
  }

  /** The state of one request, updated in place by the balancer. */
  class Result {
    const sources: nat
    const importName: Name
    const scheme: Scheme
    var currentIndex: int
    var failed: set<int>
    var delayed: seq<int>

    ghost function View(): Balance
      reads this
    {
      Balance(sources, scheme, currentIndex, failed, delayed)
    }

    constructor (importName: Name, sources: nat, scheme: Scheme)
      ensures this.importName == importName && this.sources == sources && this.scheme == scheme
      ensures View() == NewBalance(sources, scheme)
    {
      this.importName, this.sources, this.scheme := importName, sources, scheme;
      currentIndex, failed, delayed := -1, {}, [];
    }

    method IsDelayed() returns (yes: bool)
      ensures yes == View().IsDelayed()
    {
      yes := |failed| == sources;
    }

    method Delay()
      modifies this`delayed
      ensures View() == old(View()).Delay()
    {
      delayed := delayed + [currentIndex];
    }
  }

  /** The balancer shared by all requests: a counter per import, created at zero on first use. */
  class LoadBalancer {
    var states: map<Name, Counter>

    constructor ()
      ensures states == map[]
    {
      states := map[];
    }

    ghost function CounterOf(name: Name): Counter
      reads this
    {
      if name in states then states[name] else 0
    }

    method SelectRandom(result: Result, r: nat)
      requires result.sources > 0
      modifies result`currentIndex
      ensures result.currentIndex == Scan(result.sources, result.failed, Residue(result.sources, r),
                                          result.sources, old(result.currentIndex))
    {
      var index := r % result.sources;
      ResidueIsMod(result.sources, r);
      var i := 0;
      while i < result.sources
        invariant 0 <= i <= result.sources
        invariant result.currentIndex == old(result.currentIndex)
        invariant Scan(result.sources, result.failed, Residue(result.sources, r), result.sources, result.currentIndex)
               == Scan(result.sources, result.failed, index, result.sources - i, result.currentIndex)
      {
        if index !in result.failed {
          result.currentIndex := index;
          return;
        }
        index := index + 1;
        if index == result.sources {
          index := 0;
        }
        i := i + 1;
      }
    }

    method SelectRoundRobin(result: Result)
      requires result.sources > 0
      modifies this, result`currentIndex
      ensures states == old(states)[result.importName := Next(COUNTER_LIMIT, old(CounterOf(result.importName)))]
      ensures result.currentIndex ==
              if old(result.currentIndex) != -1 then Next(result.sources, old(result.currentIndex))
              else Residue(result.sources, CounterOf(result.importName))
    {
      if result.importName !in states {
        states := states[result.importName := 0];
      }
      var counter: Counter := Next(COUNTER_LIMIT, states[result.importName]);
      states := states[result.importName := counter];
      if result.currentIndex != -1 {
        result.currentIndex := result.currentIndex + 1;
        if result.currentIndex == result.sources {
          result.currentIndex := 0;
        }
        return;
      }
      ResidueIsMod(result.sources, counter);
      result.currentIndex := counter % result.sources;
    }

    method SelectStatic(result: Result)
      modifies result`currentIndex
      ensures result.currentIndex == old(result.currentIndex) + 1
    {
      result.currentIndex := result.currentIndex + 1;
    }

    /** In-place selection agrees with `Choose`, and touches no other import's counter. */
    method Select(result: Result, r: nat) returns (ok: bool)
      requires result.View().Valid()
      modifies this, result
      ensures result.View() ==
              Choose(old(result.View()), old(CounterOf(result.importName)), r).balance
      ensures match Choose(old(result.View()), old(CounterOf(result.importName)), r)
              case Exhausted(_) => !ok && CounterOf(result.importName) == old(CounterOf(result.importName))
              case Selected(_, c) => ok && CounterOf(result.importName) == c
      ensures forall other :: other != result.importName ==> CounterOf(other) == old(CounterOf(other))
    {
      TriedFits(result.View());
      if result.currentIndex != -1 {
        result.failed := result.failed + {result.currentIndex};
      }
      if |result.failed| == result.sources {
        if |result.delayed| > 0 {
          result.currentIndex := result.delayed[0];
          result.delayed := result.delayed[1..];
          return true;
        }
        return false;
      }
      SelectByScheme(result, r);
      return true;
    }

    /** The switch over the scheme; an unknown scheme selects nothing. */
    method SelectByScheme(result: Result, r: nat)
      requires result.sources > 0
      modifies this, result`currentIndex
      ensures CounterOf(result.importName) == Bump(result.scheme, old(CounterOf(result.importName)))
      ensures forall other :: other != result.importName ==> CounterOf(other) == old(CounterOf(other))
      ensures result.currentIndex == Advance(result.scheme, result.sources, result.failed,
                                             old(result.currentIndex), CounterOf(result.importName), r)
    {
      match result.scheme {
        case Random => SelectRandom(result, r);
        case RoundRobin => SelectRoundRobin(result);
        case Static => SelectStatic(result);
        case Unknown =>
      }
    }
  }
}
