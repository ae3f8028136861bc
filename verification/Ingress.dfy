/**
 The exporting side of a connection: a remote peer asks for authorization and gets a short-lived
 signed token, and later presents it to open a connection. Requests interleave with policy changes,
 export changes, key rotation and the clock.
 */
module Ingress {
  import opened Common
  import opened Naming
  import opened Policies
  import P = Pdp

  /** How long a token is valid. */
  const JWT_EXPIRY_SECONDS: nat := 5
  const MILLIS: nat := 1000

  /** Signing keys, told apart by identity. */
  type Key = nat

  /** What a token's signature covers, and the key it was signed with. Expiry is in whole seconds. */
  datatype Token = Token(service: Name, exp: nat, key: Key)

  datatype Export = Export(labels: map<string, string>, valid: bool)

  /** How the peer describes one of its exports to the policies, given the export's name and labels. */
  datatype Config = Config(attributes: (Name, map<string, string>) -> Attrs)

  /**
   The exporting peer. `issued` records the text of every token signed so far; only those verify,
   and a text stands for the claims it was signed over.
   */
  datatype State = State(
    now: nat,
    key: Option<Key>,
    exports: map<Name, Export>,
    store: P.Store,
    issued: map<string, Token>)

  // ---------------------------------------------------------------- authorizing

  datatype Grant = NotFound | NotAllowed | Problem | Granted(token: Token)

  ghost predicate PolicyAllows(c: Config, s: State, service: Name, src: Attrs)
    requires service in s.exports
  {
    P.Allowed(s.store, src, c.attributes(service, s.exports[service].labels), service.namespace)
  }

  /** A client without attributes is turned away while some policy depends on client attributes. */
  ghost predicate Guarded(s: State, src: Attrs) {
    src == map[] && P.DependsOnClient(s.store)
  }

  ghost function AuthorizeIngress(c: Config, s: State, service: Name, src: Attrs): Grant {
    if service !in s.exports then NotFound
    else if Guarded(s, src) || !PolicyAllows(c, s, service, src) then NotAllowed
    else match s.key
      case None => Problem
      case Some(k) => Granted(Token(service, (s.now + JWT_EXPIRY_SECONDS * MILLIS) / MILLIS, k))
  }

  /**
   Exactly when a client is granted a token: the export is there, a key is set, the policies allow the client,
   and the client has attributes or no stored policy depends on them.
   */
  lemma GrantedExactly(c: Config, s: State, service: Name, src: Attrs)
    ensures AuthorizeIngress(c, s, service, src).Granted? <==>
              && service in s.exports && s.key.Some?
              && P.Allowed(s.store, src, c.attributes(service, s.exports[service].labels), service.namespace)
              && (src != map[] || forall p, x :: x in s.store.Tier(p) ==> !SpecDependsOnClient(s.store.Tier(p)[x]))
    ensures AuthorizeIngress(c, s, service, src).Granted? ==>
              var token := AuthorizeIngress(c, s, service, src).token;
              token.service == service && Some(token.key) == s.key && token.exp == (s.now + 5000) / 1000
  {
  }

  /** Granting an unknown client is as good as granting any client. */
  lemma GuardIsSound(c: Config, s: State, service: Name, src: Attrs)
    requires AuthorizeIngress(c, s, service, map[]).Granted?
    ensures PolicyAllows(c, s, service, src)
  {
    P.Noninterference(s.store, map[], src, c.attributes(service, s.exports[service].labels), service.namespace);
  }

  /** The export's own validity is not consulted: an export marked invalid is granted like a valid one. */
  lemma ValidityIgnored(c: Config, s: State, service: Name, src: Attrs)
    requires service in s.exports
    ensures var other := s.(exports := s.exports[service := s.exports[service].(valid := !s.exports[service].valid)]);
            AuthorizeIngress(c, other, service, src) == AuthorizeIngress(c, s, service, src)
  {
  }

  // ---------------------------------------------------------------- the messages

  datatype Verb = Get | Post | Connect | OtherVerb(text: string)

  datatype Path = HeartbeatPath | AuthorizationPath | OtherPath(text: string)

  datatype Request = Request(verb: Verb, path: Path, headers: map<string, string>, body: Option<(Name, Attrs)>)

  datatype Response = Denied(code: nat) | Heartbeat | AccessToken(text: string) | TargetCluster(cluster: string)

  const AUTHORIZATION_HEADER := "authorization"
  const BEARER_PREFIX := "Bearer "

  /** The token a header carries verifies: it was issued, under the current key, and has not expired. */
  function ParseAuthorization(s: State, text: string): Option<string> {
    if s.key.None? || text !in s.issued then None
    else
      var t := s.issued[text];
      if t.key != s.key.value || s.now / MILLIS >= t.exp then None
      else Some(ExportClusterName(t.service.name, t.service.namespace))
  }

  function CheckConnect(s: State, headers: map<string, string>): Response {
    if AUTHORIZATION_HEADER !in headers then Denied(400)
    else
      var authorization := headers[AUTHORIZATION_HEADER];
      if !(BEARER_PREFIX <= authorization) then Denied(400)
      else match ParseAuthorization(s, TrimPrefix(authorization, BEARER_PREFIX))
        case None => Denied(403)
        case Some(cluster) => TargetCluster(cluster)
  }

  ghost function CheckAuthorize(c: Config, s: State, body: Option<(Name, Attrs)>, text: string): Response {
    match body
    case None => Denied(400)
    case Some((service, src)) =>
      match AuthorizeIngress(c, s, service, src)
      case NotFound => Denied(404)
      case NotAllowed => Denied(403)
      case Problem => Denied(500)
      case Granted(_) => AccessToken(text)
  }

  /** The dispatch over method and path; `text` is what signing would produce. */
  ghost function CheckIngress(c: Config, s: State, r: Request, text: string): Response {
    if r.verb == Get && r.path == HeartbeatPath then Heartbeat
    else if r.verb == Post && r.path == AuthorizationPath then CheckAuthorize(c, s, r.body, text)
    else if r.verb == Connect then CheckConnect(s, r.headers)
    else Denied(400)
  }

  /** What a POST on the authorization path is answered. */
  lemma AuthorizationAnswered(c: Config, s: State, r: Request, service: Name, src: Attrs, text: string)
    requires r.verb == Post && r.path == AuthorizationPath && r.body == Some((service, src))
    ensures var answer := CheckIngress(c, s, r, text);
            && (answer == AccessToken(text) <==> AuthorizeIngress(c, s, service, src).Granted?)
            && (answer == Denied(404) <==> service !in s.exports)
            && (answer == Denied(500) ==> s.key.None?)
            && (answer == Denied(403) <==>
                  && service in s.exports
                  && !(&& P.Allowed(s.store, src, c.attributes(service, s.exports[service].labels), service.namespace)
                       && (src != map[] || !P.DependsOnClient(s.store))))
            && answer in {AccessToken(text), Denied(403), Denied(404), Denied(500)}
  {
    GrantedExactly(c, s, service, src);
  }

  /**
   What a CONNECT is answered: a request without bearer token is bad, one whose token does not verify is
   forbidden.
   */
  lemma ConnectAnswered(c: Config, s: State, r: Request, text: string)
    requires r.verb == Connect
    ensures var answer := CheckIngress(c, s, r, text);
            var bearer := "authorization" in r.headers && "Bearer " <= r.headers["authorization"];
            && (answer == Denied(400) <==> !bearer)
            && (answer.TargetCluster? <==>
                  && bearer && s.key.Some?
                  && r.headers["authorization"][7..] in s.issued
                  && s.issued[r.headers["authorization"][7..]].key == s.key.value
                  && s.now / 1000 < s.issued[r.headers["authorization"][7..]].exp)
            && (answer == Denied(403) || answer == Denied(400) || answer.TargetCluster?)
  {
    assert |BEARER_PREFIX| == 7;
  }

  /** Heartbeats are answered, and everything else is a bad request. */
  lemma OthersAnswered(c: Config, s: State, r: Request, text: string)
    requires r.verb != Connect && !(r.verb == Post && r.path == AuthorizationPath)
    ensures CheckIngress(c, s, r, text) == if r.verb == Get && r.path == HeartbeatPath then Heartbeat else Denied(400)
  {
  }

  // ---------------------------------------------------------------- runs

  datatype Event =
    | Tick(millis: nat)
    | SetKey(key: Key)
    | PutExport(name: Name, spec: Export)
    | DropExport(name: Name)
    | Policy(op: P.Op)
    | Check(request: Request, text: string)

  /** The token a request has issued, if any. */
  ghost function Issue(c: Config, s: State, e: Event): Option<Token> {
    if e.Check? && CheckIngress(c, s, e.request, e.text).AccessToken? && e.request.body.Some? then
      match AuthorizeIngress(c, s, e.request.body.value.0, e.request.body.value.1)
      case Granted(t) => Some(t)
      case _ => None
    else None
  }

  /** Signing is deterministic and collision-free: a text already issued is issued for the same claims. */
  ghost predicate Possible(c: Config, s: State, e: Event) {
    Issue(c, s, e).Some? && e.text in s.issued ==> s.issued[e.text] == Issue(c, s, e).value
  }

  ghost function Next(c: Config, s: State, e: Event): State {
    match e
    case Tick(d) => s.(now := s.now + d)
    case SetKey(k) => s.(key := Some(k))
    case PutExport(n, x) => s.(exports := s.exports[n := x])
    case DropExport(n) => s.(exports := s.exports - {n})
    case Policy(op) => s.(store := P.Step(s.store, op))
    case Check(_, text) =>
      match Issue(c, s, e)
      case None => s
      case Some(t) => s.(issued := s.issued[text := t])
  }

  /** A dropped export is not found, a put one is; a new key and five seconds each end every token issued before. */
  lemma EventsTakeEffect(c: Config, s: State, name: Name, src: Attrs, spec: Export, key: Key, t: Token)
    requires AuthorizeIngress(c, s, name, src) == Granted(t)
    ensures AuthorizeIngress(c, Next(c, s, DropExport(name)), name, src) == NotFound
    ensures AuthorizeIngress(c, Next(c, Next(c, s, DropExport(name)), PutExport(name, spec)), name, src) != NotFound
    ensures Some(key) != s.key ==> t.key != key && Next(c, s, SetKey(key)).key == Some(key)
    ensures Next(c, s, Tick(5000)).now / 1000 >= t.exp && Next(c, s, Tick(1000)).now / 1000 < t.exp
    ensures forall op :: Next(c, s, Policy(op)).store == P.Step(s.store, op)
  {
  }

  const START := State(0, None, map[], P.EMPTY, map[])

  ghost function After(c: Config, run: seq<Event>): State {
    if run == [] then START else Next(c, After(c, run[..|run| - 1]), run[|run| - 1])
  }

  ghost predicate Legal(c: Config, run: seq<Event>) {
    forall j :: 0 <= j < |run| ==> Possible(c, After(c, run[..j]), run[j])
  }

  lemma AfterSnoc(c: Config, run: seq<Event>, j: nat)
    requires j < |run|
    ensures After(c, run[..j + 1]) == Next(c, After(c, run[..j]), run[j])
  {
    assert run[..j + 1][..j] == run[..j];
  }

  lemma {:induction false} ClockOnlyAdvances(c: Config, run: seq<Event>, i: nat, j: nat)
    requires i <= j <= |run|
    ensures After(c, run[..i]).now <= After(c, run[..j]).now
    decreases j
  {
    if i < j {
      ClockOnlyAdvances(c, run, i, j - 1);
      AfterSnoc(c, run, j - 1);
    }
  }

  /** A map that only ever gains entries, one per step, and never a different value for a key it has. */
  ghost predicate Ledger<K, V>(m: seq<map<K, V>>, d: seq<Option<(K, V)>>) {
    && |m| == |d| + 1 && m[0] == map[]
    && (forall x :: 0 <= x < |d| && d[x].None? ==> m[x + 1] == m[x])
    && (forall x :: 0 <= x < |d| && d[x].Some? ==>
          && m[x + 1] == m[x][d[x].value.0 := d[x].value.1]
          && (d[x].value.0 in m[x] ==> m[x][d[x].value.0] == d[x].value.1))
  }

  lemma {:induction false} LedgerOrigin<K, V>(m: seq<map<K, V>>, d: seq<Option<(K, V)>>, j: nat, k: K) returns (i: nat)
    requires Ledger(m, d) && j <= |d| && k in m[j]
    ensures i < j && d[i] == Some((k, m[j][k]))
    decreases j
  {
    if d[j - 1] == Some((k, m[j][k])) {
      i := j - 1;
    } else {
      i := LedgerOrigin(m, d, j - 1, k);
    }
  }

  lemma {:induction false} LedgerKeeps<K, V>(m: seq<map<K, V>>, d: seq<Option<(K, V)>>, i: nat, j: nat, k: K)
    requires Ledger(m, d) && i <= j <= |d| && k in m[i]
    ensures k in m[j] && m[j][k] == m[i][k]
    decreases j
  {
    if i < j {
      LedgerKeeps(m, d, i, j - 1, k);
    }
  }

  ghost function Registry(c: Config, run: seq<Event>): seq<map<string, Token>> {
    seq(|run| + 1, x requires 0 <= x <= |run| => After(c, run[..x]).issued)
  }

  ghost function Issues(c: Config, run: seq<Event>): seq<Option<(string, Token)>> {
    seq(|run|, x requires 0 <= x < |run| => Entry(c, After(c, run[..x]), run[x]))
  }

  ghost function Entry(c: Config, s: State, e: Event): Option<(string, Token)> {
    match Issue(c, s, e)
    case None => None
    case Some(t) => Some((e.text, t))
  }

  lemma NextRegisters(c: Config, s: State, e: Event)
    requires Possible(c, s, e)
    ensures match Entry(c, s, e)
            case None => Next(c, s, e).issued == s.issued
            case Some((text, t)) =>
              Next(c, s, e).issued == s.issued[text := t] && (text in s.issued ==> s.issued[text] == t)
  {
  }

  lemma RegistryIsLedger(c: Config, run: seq<Event>)
    requires Legal(c, run)
    ensures Ledger(Registry(c, run), Issues(c, run))
  {
    var m, d := Registry(c, run), Issues(c, run);
    assert run[..0] == [];
    forall x | 0 <= x < |run|
      ensures match d[x]
              case None => m[x + 1] == m[x]
              case Some((text, t)) => m[x + 1] == m[x][text := t] && (text in m[x] ==> m[x][text] == t)
    {
      AfterSnoc(c, run, x);
      NextRegisters(c, After(c, run[..x]), run[x]);
    }
  }

  /** Every token the peer knows of was issued by some earlier request of the run. */
  lemma Provenance(c: Config, run: seq<Event>, j: nat, text: string) returns (i: nat)
    requires Legal(c, run) && j <= |run| && text in After(c, run[..j]).issued
    ensures i < j && run[i].Check? && run[i].text == text
    ensures Issue(c, After(c, run[..i]), run[i]) == Some(After(c, run[..j]).issued[text])
  {
    RegistryIsLedger(c, run);
    assert Registry(c, run)[j] == After(c, run[..j]).issued;
    i := LedgerOrigin(Registry(c, run), Issues(c, run), j, text);
    assert Issues(c, run)[i] == Entry(c, After(c, run[..i]), run[i]);
  }

  /** That a connection in state `s'` was authorized by a request in state `s`. */
  ghost predicate Backs(c: Config, s: State, e: Event, s': State, cluster: string) {
    && e.Check? && e.request.verb == Post && e.request.path == AuthorizationPath && e.request.body.Some?
    && var (service, src) := e.request.body.value;
       && service in s.exports && PolicyAllows(c, s, service, src) && !Guarded(s, src)
       && s.key.Some? && s.key == s'.key
       && s.now <= s'.now < s.now + 5000
       && cluster == ExportClusterName(service.name, service.namespace)
  }

  /**
   Token safety. However requests interleave with everything else, a CONNECT is let through only on
   a token issued less than five seconds before, under the same key, while its export existed and the
   policies allowed the client; and it is routed to the cluster of that same export.
   */
  lemma TokenSafety(c: Config, run: seq<Event>, j: nat, cluster: string) returns (i: nat)
    requires Legal(c, run) && j < |run| && run[j].Check?
    requires CheckIngress(c, After(c, run[..j]), run[j].request, run[j].text) == TargetCluster(cluster)
    ensures i < j && Backs(c, After(c, run[..i]), run[i], After(c, run[..j]), cluster)
    ensures AUTHORIZATION_HEADER in run[j].request.headers
    ensures run[j].request.headers[AUTHORIZATION_HEADER] == BEARER_PREFIX + run[i].text
  {
    var s := After(c, run[..j]);
    var authorization := run[j].request.headers[AUTHORIZATION_HEADER];
    var text := TrimPrefix(authorization, BEARER_PREFIX);
    assert authorization == BEARER_PREFIX + text;
    i := Provenance(c, run, j, text);
    ClockOnlyAdvances(c, run, i, j);
  }

  lemma IssuedStays(c: Config, run: seq<Event>, i: nat, j: nat, text: string)
    requires Legal(c, run) && i <= j <= |run| && text in After(c, run[..i]).issued
    ensures text in After(c, run[..j]).issued
    ensures After(c, run[..j]).issued[text] == After(c, run[..i]).issued[text]
  {
    RegistryIsLedger(c, run);
    var m := Registry(c, run);
    assert m[i] == After(c, run[..i]).issued && m[j] == After(c, run[..j]).issued;
    LedgerKeeps(m, Issues(c, run), i, j, text);
  }

  /**
   The other direction: a token issued by request `i` opens a connection at `j`, to the cluster of its
   export, exactly while the key is unchanged and the whole second of its expiry has not come.
   */
  lemma TokenWorks(c: Config, run: seq<Event>, i: nat, j: nat, token: Token, headers: map<string, string>)
    requires Legal(c, run) && i < j <= |run| && Issue(c, After(c, run[..i]), run[i]) == Some(token)
    requires AUTHORIZATION_HEADER in headers && headers[AUTHORIZATION_HEADER] == BEARER_PREFIX + run[i].text
    ensures var s, s' := After(c, run[..i]), After(c, run[..j]);
            CheckConnect(s', headers)
            == if s'.key == s.key && s'.now / MILLIS < (s.now + JWT_EXPIRY_SECONDS * MILLIS) / MILLIS
               then TargetCluster(ExportClusterName(token.service.name, token.service.namespace))
               else Denied(403)
  {
    AfterSnoc(c, run, i);
    IssuedStays(c, run, i + 1, j, run[i].text);
    assert (BEARER_PREFIX + run[i].text)[|BEARER_PREFIX|..] == run[i].text;
  }
}
