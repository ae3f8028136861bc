/**
 The index from client addresses to pods: two maps updated in place as pods come, change and go,
 against what the history of those events says.
 */
module PodIndexing {
  import opened Common

  datatype PodInfo = PodInfo(serviceAccount: string, labels: map<string, string>)

  datatype Pod = Pod(id: Name, info: PodInfo, ips: seq<string>, hostIP: string)

  /** An address the pod has for itself, not shared with its host. */
  predicate Reports(p: Pod, ip: string) {
    ip in p.ips && ip != p.hostIP
  }

  datatype Event = Added(pod: Pod) | Deleted(id: Name) {
    function Subject(): Name {
      match this case Added(p) => p.id case Deleted(id) => id
    }
  }

  datatype Index = Index(ipToPod: map<string, Name>, podList: map<Name, PodInfo>) {

    /** No address leads to a missing pod. */
    ghost predicate Closed() {
      forall ip :: ip in ipToPod ==> ipToPod[ip] in podList
    }

    function Lookup(ip: string): Option<PodInfo> {
      if ip in ipToPod && ipToPod[ip] in podList then Some(podList[ipToPod[ip]]) else None
    }
  }

  function Point(m: map<string, Name>, ips: seq<string>, hostIP: string, id: Name): map<string, Name>
    decreases |ips|
  {
    if ips == [] then m
    else
      var last := ips[|ips| - 1];
      var m' := Point(m, ips[..|ips| - 1], hostIP, id);
      if last != hostIP then m'[last := id] else m'
  }

  function Step(x: Index, e: Event): Index {
    match e
    case Added(p) => Index(Point(x.ipToPod, p.ips, p.hostIP, p.id), x.podList[p.id := p.info])
    case Deleted(id) =>
      Index(map ip | ip in x.ipToPod && x.ipToPod[ip] != id :: x.ipToPod[ip], x.podList - {id})
  }

  function Replay(h: seq<Event>): Index {
    if h == [] then Index(map[], map[]) else Step(Replay(h[..|h| - 1]), h[|h| - 1])
  }

  lemma {:induction false} PointMeaning(m: map<string, Name>, ips: seq<string>, hostIP: string, id: Name, ip: string)
    ensures var m' := Point(m, ips, hostIP, id);
            if ip in ips && ip != hostIP then ip in m' && m'[ip] == id
            else (ip in m' <==> ip in m) && (ip in m ==> m'[ip] == m[ip])
    decreases |ips|
  {
    if ips != [] {
      PointMeaning(m, ips[..|ips| - 1], hostIP, id, ip);
    }
  }

  /** An address a pod shares with its host is left as it is. */
  lemma HostAddressIgnored(x: Index, p: Pod)
    ensures var x' := Step(x, Added(p));
            (p.hostIP in x'.ipToPod <==> p.hostIP in x.ipToPod)
            && (p.hostIP in x.ipToPod ==> x'.ipToPod[p.hostIP] == x.ipToPod[p.hostIP])
  {
    PointMeaning(x.ipToPod, p.ips, p.hostIP, p.id, p.hostIP);
  }

  // ---------------------------------------------------------------- what the history says

  /** Pod `id` was the last to report the address, at event `i`, and was not deleted since. */
  ghost predicate HeldSince(h: seq<Event>, ip: string, id: Name, i: nat) {
    && i < |h| && h[i].Added? && h[i].pod.id == id && Reports(h[i].pod, ip)
    && forall j :: i < j < |h| ==> h[j] != Deleted(id) && !(h[j].Added? && Reports(h[j].pod, ip))
  }

  ghost predicate Held(h: seq<Event>, ip: string, id: Name) {
    exists i :: HeldSince(h, ip, id, i)
  }

  /** The last event about the pod, at `i`, gave it this information. */
  ghost predicate CurrentSince(h: seq<Event>, id: Name, info: PodInfo, i: nat) {
    && i < |h| && h[i].Added? && h[i].pod.id == id && h[i].pod.info == info
    && forall j :: i < j < |h| ==> h[j].Subject() != id
  }

  ghost predicate Current(h: seq<Event>, id: Name, info: PodInfo) {
    exists i :: CurrentSince(h, id, info, i)
  }

  lemma HeldSnoc(h: seq<Event>, e: Event, ip: string, id: Name)
    ensures Held(h + [e], ip, id) <==>
            if e.Added? && Reports(e.pod, ip) then e.pod.id == id
            else Held(h, ip, id) && e != Deleted(id)
  {
    var h' := h + [e];
    assert h'[|h|] == e && forall j :: 0 <= j < |h| ==> h'[j] == h[j];
    if e.Added? && Reports(e.pod, ip) && e.pod.id == id {
      assert HeldSince(h', ip, id, |h|);
    }
    forall i: nat | i < |h|
      ensures HeldSince(h', ip, id, i) <==>
              HeldSince(h, ip, id, i) && e != Deleted(id) && !(e.Added? && Reports(e.pod, ip))
    {
    }
  }

  lemma CurrentSnoc(h: seq<Event>, e: Event, id: Name, info: PodInfo)
    ensures Current(h + [e], id, info) <==>
            if e.Subject() == id then e.Added? && e.pod.info == info else Current(h, id, info)
  {
    var h' := h + [e];
    assert h'[|h|] == e && forall j :: 0 <= j < |h| ==> h'[j] == h[j];
    if e.Subject() == id && e.Added? && e.pod.info == info {
      assert CurrentSince(h', id, info, |h|);
    }
    forall i: nat | i < |h|
      ensures CurrentSince(h', id, info, i) <==> CurrentSince(h, id, info, i) && e.Subject() != id
    {
    }
  }

  /** After any run, the two maps say what the history says, and no address leads to a missing pod. */
  lemma {:induction false} IndexAgreesWithHistory(h: seq<Event>, ip: string, id: Name, info: PodInfo)
    ensures var x := Replay(h);
            && (ip in x.ipToPod && x.ipToPod[ip] == id <==> Held(h, ip, id))
            && (id in x.podList && x.podList[id] == info <==> Current(h, id, info))
    decreases |h|
  {
    if h != [] {
      var h', e := h[..|h| - 1], h[|h| - 1];
      assert h == h' + [e];
      IndexAgreesWithHistory(h', ip, id, info);
      HeldSnoc(h', e, ip, id);
      CurrentSnoc(h', e, id, info);
      if e.Added? {
        PointMeaning(Replay(h').ipToPod, e.pod.ips, e.pod.hostIP, e.pod.id, ip);
      }
    }
  }

  lemma {:induction false} IndexClosed(h: seq<Event>)
    ensures Replay(h).Closed()
    decreases |h|
  {
    if h != [] {
      var e := h[|h| - 1];
      IndexClosed(h[..|h| - 1]);
      if e.Added? {
        forall ip | ip in Replay(h).ipToPod ensures Replay(h).ipToPod[ip] in Replay(h).podList {
          PointMeaning(Replay(h[..|h| - 1]).ipToPod, e.pod.ips, e.pod.hostIP, e.pod.id, ip);
        }
      }
    }
  }

  /** A lookup finds the latest information of the pod that last reported the address, if not deleted since. */
  lemma LookupMeaning(h: seq<Event>, ip: string, info: PodInfo)
    ensures Replay(h).Lookup(ip) == Some(info) <==> exists id :: Held(h, ip, id) && Current(h, id, info)
  {
    var x := Replay(h);
    forall id ensures ip in x.ipToPod && x.ipToPod[ip] == id <==> Held(h, ip, id) {
      IndexAgreesWithHistory(h, ip, id, info);
    }
    forall id ensures id in x.podList && x.podList[id] == info <==> Current(h, id, info) {
      IndexAgreesWithHistory(h, ip, id, info);
    }
  }

  /** The late deletion of a former holder does not take the address from its new holder. */
  lemma LateDeleteHarmless(h: seq<Event>, ip: string, former: Name, holder: Name)
    requires Held(h, ip, holder) && former != holder
    ensures Held(h + [Deleted(former)], ip, holder)
    ensures Replay(h + [Deleted(former)]).Lookup(ip) == Replay(h).Lookup(ip)
  {
    HeldSnoc(h, Deleted(former), ip, holder);
    var x := Replay(h);
    IndexAgreesWithHistory(h, ip, holder, PodInfo("", map[]));
    assert (h + [Deleted(former)])[..|h|] == h;
  }

  // ---------------------------------------------------------------- the maps

  class PodIndex {
    var ipToPod: map<string, Name>
    var podList: map<Name, PodInfo>

    ghost function View(): Index
      reads this
    {
      Index(ipToPod, podList)
    }

    constructor ()
      ensures View() == Replay([])
    {
      ipToPod, podList := map[], map[];
    }

    method AddPod(pod: Pod)
      modifies this
      ensures View() == Step(old(View()), Added(pod))
    {
      podList := podList[pod.id := pod.info];
      var i := 0;
      assert pod.ips[..0] == [];
      while i < |pod.ips|
        invariant 0 <= i <= |pod.ips|
        invariant podList == old(podList)[pod.id := pod.info]
        invariant ipToPod == Point(old(ipToPod), pod.ips[..i], pod.hostIP, pod.id)
      {
        assert pod.ips[..i + 1][..i] == pod.ips[..i];
        if pod.ips[i] != pod.hostIP {
          ipToPod := ipToPod[pod.ips[i] := pod.id];
        }
        i := i + 1;
      }
      assert pod.ips[..i] == pod.ips;
    }

    /** Deletes the pod's entries while going through all of them. */
    method DeletePod(id: Name)
      modifies this
      ensures View() == Step(old(View()), Deleted(id))
    {
      podList := podList - {id};
      var left := ipToPod.Keys;
      while left != {}
        invariant left <= old(ipToPod).Keys
        invariant podList == old(podList) - {id}
        invariant ipToPod == map ip | ip in old(ipToPod) && (ip in left || old(ipToPod)[ip] != id) :: old(ipToPod)[ip]
        decreases left
      {
        var ip :| ip in left;
        if ipToPod[ip] == id {
          ipToPod := ipToPod - {ip};
        }
        left := left - {ip};
      }
    }

    method GetPodInfoByIP(ip: string) returns (info: Option<PodInfo>)
      ensures info == View().Lookup(ip)
    {
      if ip in ipToPod {
        var id := ipToPod[ip];
        if id in podList {
          return Some(podList[id]);
        }
      }
      return None;
    }
  }
}
