/** The installation as ClusterLink deploys it: its labels, and the codec of slice-copy names. */
module Installation {
  import opened Common
  import opened Reconcile
  import H = SliceHealing
  import SliceName

  const APP_NAME := "clusterlink.net"
  const INGRESS_SERVICE := "clusterlink"

  function Deployed(namespace: string, system: Name -> string): Config {
    Config(namespace, APP_NAME, INGRESS_SERVICE,
           (imp: string, slice: string) => SliceName.Get(imp, slice),
           (s: string) => SliceName.Parse(s),
           system,
           map["app" := "cl-dataplane"],
           (service: string, ns: string) => service + "." + ns + ".svc.cluster.local")
  }

  /** The name codec is as good as the reconciliation needs it to be. */
  lemma DeployedCodec(namespace: string, system: Name -> string)
    ensures H.GoodCodec(Deployed(namespace, system))
  {
    var c := Deployed(namespace, system);
    forall i: string, d: string | i != "" && d != "" ensures c.parse(c.get(i, d)) == Some((i, d)) {
      SliceName.ParseGet(i, d);
    }
  }

  /** Eventual consistency of the deployed system, in any run from an empty cluster. */
  lemma DeployedConsistent(namespace: string, system: Name -> string, events: seq<Event>)
    requires Legal(Deployed(namespace, system), START, events)
    requires Run(Deployed(namespace, system), START, events).pending == {}
    ensures var c := Deployed(namespace, system);
            var w := Run(c, START, events);
            (forall k :: H.Founded(c, w, k)) && (forall n, d :: H.UpToDate(c, w, n, d))
  {
    DeployedCodec(namespace, system);
    var c := Deployed(namespace, system);
    H.QuietMeansConsistent(c, events, Run(c, START, events));
  }

  /** The handler of a slice that took the place of a copy under the dataplane's label does not put the copy back. */
  lemma DisguisedStays(namespace: string, system: Name -> string, w: World, k: Name)
    requires H.Disguised(Deployed(namespace, system), w, k)
    ensures var w' := HandleSlice(Deployed(namespace, system), w, k);
            k in w'.slices && w'.slices[k] == w.slices[k]
  {
    var c := Deployed(namespace, system);
    var w0 := w.(pending := w.pending - {SliceKey(k)});
    var pairs := MergePairs(w0, k.name);
    forall p | p in pairs ensures CopyKey(c, p.0, p.1) != k {
      SliceName.GetIsLonger(p.0.name, k.name);
    }
    assert k !in CopyKeys(c, pairs);
    NotWantedStays(w0, Wanted(c, w0, pairs), k);
  }

  /** The name and labels of a slice that its own handler leaves alone while its import lives. */
  ghost predicate Overlooked(c: Config, w: World, k: Name) {
    && k in w.slices && c.parse(k.name).Some? && !H.Canonical(c, k)
    && !Labelled(w.slices[k], ManagedBy, c.app)
  }

  /**
   Why canonical names: a slice whose name parses but was not built, and that lacks the managed-by
   label, is not healed by its own handler.
   */
  lemma NonCanonicalNotHealed(c: Config, w: World, k: Name)
    requires H.GoodCodec(c) && Overlooked(c, w, k) && !IsDataplane(c, k, w.slices[k])
    requires H.LiveMerge(w, ImportOf(c, k)) && SliceOf(c, k) in w.slices
    ensures k in HandleSlice(c, w, k).slices && HandleSlice(c, w, k).slices[k] == w.slices[k]
  {
    var n, d := ImportOf(c, k), SliceOf(c, k);
    var w0 := w.(pending := w.pending - {SliceKey(k)});
    assert CopyKey(c, n, d.name) != k;
    assert k !in Wanted(c, w0, {(n, d.name)});
    NotWantedStays(w0, Wanted(c, w0, {(n, d.name)}), k);
  }

  lemma NotWantedStays(w: World, wanted: map<Name, Slice>, k: Name)
    requires k in w.slices && k !in wanted
    ensures k in Apply(w, wanted).slices && Apply(w, wanted).slices[k] == w.slices[k]
  {
  }

  /** And it is not deleted with its import either: it stays behind as an orphan. */
  lemma NonCanonicalSurvivesImport(c: Config, w: World, k: Name, draws: seq<nat>)
    requires Overlooked(c, w, k) && ImportOf(c, k) !in w.imports
    ensures var w' := HandleImport(c, w, ImportOf(c, k), draws);
            k in w'.slices && w'.slices[k] == w.slices[k]
  {
  }

  /** Ports are not compared: a copy that differs from the wanted one in its ports only is left as it is. */
  lemma StalePortsStay(w: World, wanted: map<Name, Slice>, k: Name, ports: seq<nat>)
    requires k in wanted && k in w.slices && w.slices[k] == wanted[k].(ports := ports)
    ensures Apply(w, wanted).slices[k] == w.slices[k]
  {
  }
}
