/**
 The health monitor of one peer: it publishes a reachability status, and changes it only after a run
 of heartbeats that contradict it, longer to declare a peer unreachable than to declare it reachable.
 */
module PeerMonitoring {

  const HEALTHY_THRESHOLD: nat := 3
  const UNHEALTHY_THRESHOLD: nat := 5

  // ---------------------------------------------------------------- the history specification

  /** How many contradicting heartbeats in a row change a status: one before the first change. */
  function Needed(flipped: bool, reachable: bool): nat {
    if !flipped then 1 else if reachable then UNHEALTHY_THRESHOLD else HEALTHY_THRESHOLD
  }

  /** The status after some heartbeats, and the heartbeats at which it changed. */
  datatype History = History(reachable: bool, flips: seq<nat>) {

    /** The first heartbeat after the last change. */
    function Since(): nat {
      if flips == [] then 0 else flips[|flips| - 1] + 1
    }

    function Threshold(): nat {
      Needed(flips != [], reachable)
    }
  }

  /** The last `n` of the first `k` heartbeats all contradict the status. */
  predicate Contradicted(beats: seq<bool>, k: nat, n: nat, reachable: bool)
    requires n <= k <= |beats|
  {
    forall j :: k - n <= j < k ==> beats[j] != reachable
  }

  /** Whether the status changes at heartbeat `k - 1`. */
  predicate Changes(h: History, beats: seq<bool>, k: nat)
    requires k <= |beats|
  {
    h.Since() + h.Threshold() <= k && Contradicted(beats, k, h.Threshold(), h.reachable)
  }

  /** The status after the first `k` heartbeats, told from the heartbeats alone. */
  function After(initial: bool, beats: seq<bool>, k: nat): History
    requires k <= |beats|
    decreases k
  {
    if k == 0 then History(initial, [])
    else
      var h := After(initial, beats, k - 1);
      if Changes(h, beats, k) then History(!h.reachable, h.flips + [k - 1]) else h
  }

  /** The statuses published: the new status at every change. */
  function Published(initial: bool, flips: nat): seq<bool> {
    if flips == 0 then [] else Published(initial, flips - 1) + [NewStatus(initial, flips - 1)]
  }

  lemma PublishOne(before: seq<bool>, initial: bool, flips: nat)
    ensures before + Published(initial, flips) + [NewStatus(initial, flips)] == before + Published(initial, flips + 1)
  {
  }

  /** The status published at change `j`, counting from 0. */
  function NewStatus(initial: bool, j: nat): bool {
    if j == 0 then !initial else !NewStatus(initial, j - 1)
  }

  /** Successive published statuses alternate, the first one contradicting the initial status. */
  lemma {:induction false} PublishedAlternates(initial: bool, flips: nat, j: nat)
    requires j < flips
    ensures |Published(initial, flips)| == flips
    ensures Published(initial, flips)[j] == if j == 0 then !initial else !Published(initial, flips)[j - 1]
    decreases flips
  {
    PublishedAt(initial, flips, j);
    PublishedAt(initial, flips, if j == 0 then 0 else j - 1);
  }

  lemma {:induction false} PublishedAt(initial: bool, flips: nat, j: nat)
    requires j < flips
    ensures |Published(initial, flips)| == flips && Published(initial, flips)[j] == NewStatus(initial, j)
    decreases flips
  {
    if j < flips - 1 {
      PublishedAt(initial, flips - 1, j);
    } else if flips > 1 {
      PublishedAt(initial, flips - 1, 0);
    }
  }

  // ---------------------------------------------------------------- its properties

  /** Status alternates with every change; changes are at least the thresholds apart. */
  ghost predicate Spaced(initial: bool, h: History, k: nat) {
    && h.Since() <= k
    && NewStatus(initial, |h.flips|) == !h.reachable
    && (forall j :: 0 <= j < |h.flips| - 1 ==> h.flips[j] + Needed(true, NewStatus(initial, j)) <= h.flips[j + 1])
  }

  lemma {:induction false} AfterSpaced(initial: bool, beats: seq<bool>, k: nat)
    requires k <= |beats|
    ensures Spaced(initial, After(initial, beats, k), k)
    decreases k
  {
    if k > 0 {
      AfterSpaced(initial, beats, k - 1);
      var h := After(initial, beats, k - 1);
      if Changes(h, beats, k) {
        FlipSpaced(initial, h, k);
      }
    }
  }

  lemma FlipSpaced(initial: bool, h: History, k: nat)
    requires k > 0 && Spaced(initial, h, k - 1) && h.Since() + h.Threshold() <= k
    ensures Spaced(initial, History(!h.reachable, h.flips + [k - 1]), k)
  {
    var f := h.flips + [k - 1];
    forall j | 0 <= j < |f| - 1 ensures f[j] + Needed(true, NewStatus(initial, j)) <= f[j + 1] {
      if j + 1 < |h.flips| {
        assert f[j] == h.flips[j] && f[j + 1] == h.flips[j + 1];
      }
    }
  }

  lemma {:induction false} PairsTakeEight(initial: bool, h: History, k: nat, m: nat)
    requires Spaced(initial, h, k) && m < |h.flips|
    ensures h.flips[m] >= 8 * (m / 2)
    decreases m
  {
    if m >= 2 {
      PairsTakeEight(initial, h, k, m - 2);
      assert h.flips[m - 2] + Needed(true, NewStatus(initial, m - 2)) <= h.flips[m - 2 + 1];
      assert h.flips[m - 1] + Needed(true, NewStatus(initial, m - 1)) <= h.flips[m - 1 + 1];
    }
  }

  /** At most two changes, and two more for every further eight heartbeats. */
  lemma FlipBound(initial: bool, beats: seq<bool>)
    requires |beats| >= 1
    ensures |After(initial, beats, |beats|).flips| <= 2 + 2 * ((|beats| - 1) / 8)
  {
    var h := After(initial, beats, |beats|);
    AfterSpaced(initial, beats, |beats|);
    if h.flips != [] {
      PairsTakeEight(initial, h, |beats|, |h.flips| - 1);
    }
  }

  /**
   Exactly when the status changes: with the first heartbeat that contradicts the initial one; from
   reachable, with the fifth failure in a row since the last change; from unreachable, with the third success.
   */
  lemma ChangesExactly(initial: bool, beats: seq<bool>, k: nat)
    requires 0 < k <= |beats|
    ensures var h, h' := After(initial, beats, k - 1), After(initial, beats, k);
            var need := if h.flips == [] then 1 else if h.reachable then 5 else 3;
            var since := if h.flips == [] then 0 else h.flips[|h.flips| - 1] + 1;
            if since + need <= k && forall j :: k - need <= j < k ==> beats[j] != h.reachable
            then h'.reachable == !h.reachable && h'.flips == h.flips + [k - 1]
            else h' == h
  {
  }

  // ---------------------------------------------------------------- the monitor

  /** Contradicting heartbeats at the end of the first `k`, since heartbeat `since`. */
  function Strikes(beats: seq<bool>, since: nat, k: nat, reachable: bool): (n: nat)
    requires since <= k <= |beats|
    ensures n <= k - since
    ensures Contradicted(beats, k, n, reachable)
    ensures n < k - since ==> beats[k - n - 1] == reachable
    decreases k
  {
    if k == since || beats[k - 1] == reachable then 0
    else 1 + Strikes(beats, since, k - 1, reachable)
  }

  lemma StrikesDecide(beats: seq<bool>, since: nat, k: nat, reachable: bool, n: nat)
    requires since <= k <= |beats|
    ensures n <= Strikes(beats, since, k, reachable) <==> since + n <= k && Contradicted(beats, k, n, reachable)
  {
    var s := Strikes(beats, since, k, reachable);
    assert s < k - since ==> beats[k - s - 1] == reachable;
  }

  /** What the loop's variables mean after the first `k` heartbeats. */
  ghost predicate Tracking(initial: bool, beats: seq<bool>, k: nat, h: History, strikes: int, threshold: int)
    requires k <= |beats|
  {
    && h == After(initial, beats, k) && h.Since() <= k && NewStatus(initial, |h.flips|) == !h.reachable
    && threshold == h.Threshold() && strikes == Strikes(beats, h.Since(), k, h.reachable) < threshold
  }

  /** One heartbeat, seen by the strike counter and by the history. */
  lemma Beat(initial: bool, beats: seq<bool>, k: nat, h: History, strikes: int, threshold: int)
    requires k < |beats| && Tracking(initial, beats, k, h, strikes, threshold)
    ensures var now := if beats[k] == h.reachable then 0 else strikes + 1;
            if now < threshold then Tracking(initial, beats, k + 1, h, now, threshold)
            else
              && beats[k] == NewStatus(initial, |h.flips|)
              && Tracking(initial, beats, k + 1, History(beats[k], h.flips + [k]), 0, Needed(true, beats[k]))
  {
    StrikesDecide(beats, h.Since(), k + 1, h.reachable, h.Threshold());
  }

  class PeerMonitor {
    /** The condition of the peer's status, and every status handed to the callback. */
    var reachable: bool
    var published: seq<bool>

    constructor (reachable: bool)
      ensures this.reachable == reachable && published == []
    {
      this.reachable := reachable;
      published := [];
    }

    /** The monitoring loop over the heartbeats until it is stopped. */
    method Start(beats: seq<bool>)
      modifies this
      ensures var h := After(old(reachable), beats, |beats|);
              reachable == h.reachable && published == old(published) + Published(old(reachable), |h.flips|)
    {
      var healthy := reachable;
      var strikeCount := 0;
      var threshold := 1;
      var k := 0;
      ghost var h := History(reachable, []);
      while k < |beats|
        invariant 0 <= k <= |beats|
        invariant Tracking(old(reachable), beats, k, h, strikeCount, threshold)
        invariant healthy == reachable == h.reachable
        invariant published == old(published) + Published(old(reachable), |h.flips|)
      {
        var heartbeatOK := beats[k];
        Beat(old(reachable), beats, k, h, strikeCount, threshold);
        if healthy == heartbeatOK {
          strikeCount := 0;
        } else {
          strikeCount := strikeCount + 1;
        }
        k := k + 1;
        if strikeCount < threshold {
          continue;
        }
        if heartbeatOK {
          threshold := UNHEALTHY_THRESHOLD;
        } else {
          threshold := HEALTHY_THRESHOLD;
        }
        strikeCount := 0;
        healthy := heartbeatOK;
        reachable := heartbeatOK;
        published := published + [heartbeatOK];
        PublishOne(old(published), old(reachable), |h.flips|);
        h := History(heartbeatOK, h.flips + [k - 1]);
      }
    }
  }
}
