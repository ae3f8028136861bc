/**
 A whole connection attempt: the importing peer walks through the sources of an import, consulting
 its own policies and then the policies of the exporting peer behind each source.
 */
module Connection {
  import opened Common
  import opened LoadBalancing
  import opened Naming
  import opened Policies
  import E = Egress
  import I = Ingress
  import P = Pdp

  /** An import source. Empty export fields stand for the import's own name. */
  datatype Source = Source(peer: string, exportName: string, exportNamespace: string)

  function Target(s: Source, imp: Name): Name {
    Name(if s.exportNamespace == "" then imp.namespace else s.exportNamespace,
         if s.exportName == "" then imp.name else s.exportName)
  }

  /**
   The importing peer during one request. It starts with the policies of `before`; in round `t` it has
   those of `store(t)`, source `i` has the given reachability and local description, and the peer behind
   it is in state `remote(t, i)`.
   */
  datatype Site = Site(
    imp: Name,
    sources: seq<Source>,
    before: P.Store,
    store: nat -> P.Store,
    src: Attrs,
    reachable: (nat, int) -> bool,
    describe: (nat, int) -> Attrs,
    config: int -> I.Config,
    remote: (nat, int) -> I.State,
    rand: nat -> nat)

  ghost predicate LocallyAllowed(w: Site, t: nat, i: int) {
    P.Allowed(w.store(t), w.src, w.describe(t, i), w.imp.namespace)
  }

  ghost function RemoteAnswer(w: Site, t: nat, i: int): I.Grant
    requires 0 <= i < |w.sources|
  {
    I.AuthorizeIngress(w.config(i), w.remote(t, i), Target(w.sources[i], w.imp), w.src)
  }

  /** The environment the retry loop sees: the local decision point and the remote peers' answers. */
  ghost function EnvOf(w: Site): E.Env {
    E.Env(
      (t: nat, i: int) => E.Peer(w.reachable(t, i)),
      (t: nat, i: int) => if LocallyAllowed(w, t, i) then E.Allow else E.Deny,
      (t: nat, i: int) => true,
      (t: nat, i: int) => 0 <= i < |w.sources| && RemoteAnswer(w, t, i).Granted?,
      w.rand)
  }

  datatype Result = Rejected | Finished(report: E.Report)

  /** A client without attributes is not served if, at the start, some policy depends on them. */
  ghost function AuthorizeEgress(w: Site, scheme: Scheme, counter: Counter): Result {
    if w.src == map[] && P.DependsOnClient(w.before) then Rejected
    else Finished(E.Request(EnvOf(w), |w.sources|, scheme, counter))
  }

  /**
   The service has the name and the namespace that source `i` gives its export, and the import's own where it
   gives none.
   */
  predicate NamedBy(w: Site, i: int, service: Name)
    requires 0 <= i < |w.sources|
  {
    var s := w.sources[i];
    && (s.exportName != "" ==> service.name == s.exportName) && (s.exportName == "" ==> service.name == w.imp.name)
    && (s.exportNamespace != "" ==> service.namespace == s.exportNamespace)
    && (s.exportNamespace == "" ==> service.namespace == w.imp.namespace)
  }

  /**
   Exactly when a request is turned away at the start: the client has no attributes and some policy depends on
   them.
   */
  lemma RejectedExactly(w: Site, scheme: Scheme, counter: Counter)
    ensures AuthorizeEgress(w, scheme, counter) == Rejected <==>
              w.src == map[] && exists p, x :: x in w.before.Tier(p) && SpecDependsOnClient(w.before.Tier(p)[x])
  {
  }

  /** The request was served and found a source. */
  ghost predicate Succeeds(w: Site, scheme: Scheme, counter: Counter) {
    && scheme != Unknown && AuthorizeEgress(w, scheme, counter).Finished?
    && AuthorizeEgress(w, scheme, counter).report.outcome.Chosen?
  }

  ghost function ChosenSource(w: Site, scheme: Scheme, counter: Counter): (i: int)
    requires Succeeds(w, scheme, counter)
    ensures 0 <= i < |w.sources|
  {
    E.RequestTells(EnvOf(w), |w.sources|, scheme, counter);
    AuthorizeEgress(w, scheme, counter).report.outcome.index
  }

  /** The round that decided the request is its last one. */
  ghost function LastRound(w: Site, scheme: Scheme, counter: Counter): nat
    requires Succeeds(w, scheme, counter)
  {
    E.RequestTells(EnvOf(w), |w.sources|, scheme, counter);
    |AuthorizeEgress(w, scheme, counter).report.log| - 1
  }

  /**
   Both sides agreed. A successful request names a source that, in its last round, the local policies
   allowed and the exporting peer granted a token for that source's export; and the exporting peer's own
   policies allowed the client.
   */
  lemma BothSidesAllow(w: Site, scheme: Scheme, counter: Counter)
    requires Succeeds(w, scheme, counter)
    ensures var i, t := ChosenSource(w, scheme, counter), LastRound(w, scheme, counter);
            && AuthorizeEgress(w, scheme, counter).report.log[t].index == i
            && AuthorizeEgress(w, scheme, counter).report.log[t].action == E.Granted
            && LocallyAllowed(w, t, i)
            && RemoteAnswer(w, t, i).Granted?
            && RemoteAnswer(w, t, i).token.service == Target(w.sources[i], w.imp)
            && NamedBy(w, i, RemoteAnswer(w, t, i).token.service)
            && Target(w.sources[i], w.imp) in w.remote(t, i).exports
            && I.PolicyAllows(w.config(i), w.remote(t, i), Target(w.sources[i], w.imp), w.src)
  {
    E.RequestTells(EnvOf(w), |w.sources|, scheme, counter);
  }

  /**
   The rounds of a request, in the site's own terms: a source is put off exactly if it is unreachable in the
   first pass; denied, exactly if it is not put off and the local policies of that round do not allow the
   client, in the import's namespace; refused, exactly if they do and the peer does not grant.
   */
  lemma RoundsOfSite(w: Site, scheme: Scheme, counter: Counter, j: nat)
    requires scheme != Unknown && AuthorizeEgress(w, scheme, counter).Finished?
    requires j < |AuthorizeEgress(w, scheme, counter).report.log|
    ensures var e := AuthorizeEgress(w, scheme, counter).report.log[j];
            var i, open := e.index, w.reachable(j, e.index) || e.delayed;
            var allowed := P.Allowed(w.store(j), w.src, w.describe(j, i), w.imp.namespace);
            && 0 <= i < |w.sources|
            && (e.action == E.Postponed <==> !open)
            && (e.action == E.Denied <==> open && !allowed)
            && (e.action == E.Refused <==> open && allowed && !RemoteAnswer(w, j, i).Granted?)
            && (e.action == E.Granted <==> open && allowed && RemoteAnswer(w, j, i).Granted?)
            && (e.action == E.Postponed || e.action == E.Denied || e.action == E.Refused || e.action == E.Granted)
  {
    E.RequestTells(EnvOf(w), |w.sources|, scheme, counter);
    E.RequestRounds(EnvOf(w), |w.sources|, scheme, counter, j);
  }

  /**
   When a client has no known attributes, a grant is one that the exporting peer's policies give to every
   client; and so do the local policies of the round that decided, unless one that depends on client
   attributes has come since the start.
   */
  lemma UnknownClientServedSoundly(w: Site, scheme: Scheme, counter: Counter, client: Attrs)
    requires Succeeds(w, scheme, counter) && w.src == map[]
    ensures var i, t := ChosenSource(w, scheme, counter), LastRound(w, scheme, counter);
            && Target(w.sources[i], w.imp) in w.remote(t, i).exports
            && I.PolicyAllows(w.config(i), w.remote(t, i), Target(w.sources[i], w.imp), client)
            && (!P.DependsOnClient(w.store(t)) ==> LocallyAllowed(w.(src := client), t, i))
  {
    BothSidesAllow(w, scheme, counter);
    var i, t := ChosenSource(w, scheme, counter), LastRound(w, scheme, counter);
    I.GuardIsSound(w.config(i), w.remote(t, i), Target(w.sources[i], w.imp), client);
    if !P.DependsOnClient(w.store(t)) {
      P.Noninterference(w.store(t), map[], client, w.describe(t, i), w.imp.namespace);
    }
  }

  const ANYONE := Workload([], Some(Selector(map[], [])))
  const LABELLED := Workload([], Some(Selector(map["a" := "b"], [])))

  const ALLOW_ALL := Spec(Allow, [ANYONE], [ANYONE])
  const DENY_LABELLED := Spec(Deny, [LABELLED], [ANYONE])

  function AllowEveryone(ns: string): P.Store {
    P.Store(map[], map[Name(ns, "x") := ALLOW_ALL])
  }

  /** Everyone is allowed but those with a certain label. */
  function AllButLabelled(ns: string): P.Store {
    P.Store(map[], map[Name(ns, "x") := ALLOW_ALL, Name(ns, "y") := DENY_LABELLED])
  }

  lemma AnyoneSelected(attrs: Attrs)
    ensures Covers([ANYONE], attrs)
  {
    assert ANYONE in [ANYONE] && Selects(ANYONE.selector.value, attrs);
  }

  lemma LabelledSelected(attrs: Attrs)
    ensures Covers([LABELLED], attrs) <==> "a" in attrs && attrs["a"] == "b"
  {
    assert LABELLED in [LABELLED];
    assert Selects(LABELLED.selector.value, attrs) <==> "a" in attrs && attrs["a"] == "b";
  }

  lemma LabelDecides(dst: Attrs, ns: string)
    ensures P.Allowed(AllButLabelled(ns), map[], dst, ns)
    ensures !P.Allowed(AllButLabelled(ns), map["a" := "b"], dst, ns)
  {
    var s := AllButLabelled(ns);
    var x, y := Name(ns, "x"), Name(ns, "y");
    AnyoneSelected(map[]);
    AnyoneSelected(dst);
    LabelledSelected(map[]);
    LabelledSelected(map["a" := "b"]);
    assert "x"[0] != "y"[0];
    assert s.regular[x] == ALLOW_ALL && s.regular[y] == DENY_LABELLED && s.regular.Keys == {x, y};
    assert Applies(ALLOW_ALL, map[], dst) && !Applies(DENY_LABELLED, map[], dst);
    assert Applies(DENY_LABELLED, map["a" := "b"], dst);
    P.SomeIff(s.regular, false, Allow, map[], dst, ns);
    P.SomeIff(s.regular, false, Deny, map[], dst, ns);
    P.SomeIff(s.regular, false, Deny, map["a" := "b"], dst, ns);
    assert P.Decides(s.regular, false, x, Allow, map[], dst, ns);
    assert P.Decides(s.regular, false, y, Deny, map["a" := "b"], dst, ns);
  }

  lemma EveryoneAllowed(dst: Attrs, ns: string)
    ensures P.Allowed(AllowEveryone(ns), map[], dst, ns) && !P.DependsOnClient(AllowEveryone(ns))
  {
    var s, x := AllowEveryone(ns), Name(ns, "x");
    AnyoneSelected(map[]);
    AnyoneSelected(dst);
    assert Applies(ALLOW_ALL, map[], dst);
    P.SomeIff(s.regular, false, Allow, map[], dst, ns);
    P.SomeIff(s.regular, false, Deny, map[], dst, ns);
    assert P.Decides(s.regular, false, x, Allow, map[], dst, ns);
    assert !SpecDependsOnClient(ALLOW_ALL);
  }

  /**
   One source, always reachable, whose peer allows everyone. The local policies are there from the first round
   on, not before.
   */
  function LateSite(imp: Name, attrs: Attrs): Site {
    var peer := I.State(0, Some(0), map[imp := I.Export(map[], true)], AllowEveryone(imp.namespace), map[]);
    Site(imp, [Source("p", "", "")], P.EMPTY, t => AllButLabelled(imp.namespace), map[],
         (t, i) => true, (t, i) => attrs, i => I.Config((service, labels) => attrs), (t, i) => peer, t => 0)
  }

  /**
   Why the exception: policies that come between the check at the start and the decision. A client of
   unknown attributes is then served although, in the very round that decided, one with the label is not
   allowed.
   */
  lemma PolicyComesMeanwhile(imp: Name, attrs: Attrs, scheme: Scheme, counter: Counter)
    requires scheme != Unknown
    ensures var w := LateSite(imp, attrs);
            && Succeeds(w, scheme, counter)
            && !LocallyAllowed(w.(src := map["a" := "b"]), LastRound(w, scheme, counter),
                ChosenSource(w, scheme, counter))
  {
    var w := LateSite(imp, attrs);
    LabelDecides(attrs, imp.namespace);
    EveryoneAllowed(attrs, imp.namespace);
    assert Target(w.sources[0], imp) == imp;
    assert RemoteAnswer(w, 0, 0).Granted?;
    assert E.Steady(EnvOf(w), 1);
    assert E.Accepts(EnvOf(w), 0);
    E.RequestDecides(EnvOf(w), 1, scheme, counter);
    BothSidesAllow(w, scheme, counter);
  }

  // ---------------------------------------------------------------- from the grant to the tunnel

  /** In round `t` the peer behind source `i` is at event `j` of its run, which is the request for this source. */
  ghost predicate Asked(w: Site, i: int, run: seq<I.Event>, t: nat, j: nat)
    requires 0 <= i < |w.sources|
  {
    && j < |run| && w.remote(t, i) == I.After(w.config(i), run[..j])
    && run[j].Check? && run[j].request.verb == I.Post && run[j].request.path == I.AuthorizationPath
    && run[j].request.body.Some? && run[j].request.body.value.1 == w.src
    && NamedBy(w, i, run[j].request.body.value.0)
  }

  /**
   From the grant to the tunnel. The token that made an egress request succeed, asked for at event `j` of
   the run of the peer behind the chosen source, opens a connection there, to the cluster of that source's
   export, at any later time exactly while the key is unchanged and the token has not expired.
   */
  lemma GrantOpensTunnel(w: Site, scheme: Scheme, counter: Counter, run: seq<I.Event>, j: nat, j': nat,
                         headers: map<string, string>, name: string, namespace: string)
    requires Succeeds(w, scheme, counter)
    requires var i := ChosenSource(w, scheme, counter);
             && I.Legal(w.config(i), run)
             && Asked(w, i, run, LastRound(w, scheme, counter), j)
    requires j < j' <= |run| && Carries(headers, run[j])
    requires var s := w.sources[ChosenSource(w, scheme, counter)];
             && name == (if s.exportName != "" then s.exportName else w.imp.name)
             && namespace == (if s.exportNamespace != "" then s.exportNamespace else w.imp.namespace)
    ensures var i := ChosenSource(w, scheme, counter);
            var s, s' := I.After(w.config(i), run[..j]), I.After(w.config(i), run[..j']);
            I.CheckConnect(s', headers)
            == if s'.key == s.key && s'.now / I.MILLIS < (s.now + I.JWT_EXPIRY_SECONDS * I.MILLIS) / I.MILLIS
               then I.TargetCluster("export-" + namespace + "/" + name)
               else I.Denied(403)
  {
    BothSidesAllow(w, scheme, counter);
    var i, t := ChosenSource(w, scheme, counter), LastRound(w, scheme, counter);
    I.TokenWorks(w.config(i), run, j, j', RemoteAnswer(w, t, i).token, headers);
  }

  /** The headers present the token that the event issued. */
  predicate Carries(headers: map<string, string>, e: I.Event) {
    e.Check? && I.AUTHORIZATION_HEADER in headers && headers[I.AUTHORIZATION_HEADER] == I.BEARER_PREFIX + e.text
  }
}
