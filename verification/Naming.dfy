/** The names under which exports, peers and imports appear in the dataplane. */
module Naming {
  import opened Common

  const EXPORT_CLUSTER_PREFIX := "export-"
  const REMOTE_PEER_CLUSTER_PREFIX := "remote-peer-"
  const IMPORT_LISTENER_PREFIX := "import-"

  function ExportClusterName(name: string, namespace: string): string {
    EXPORT_CLUSTER_PREFIX + namespace + "/" + name
  }

  function RemotePeerClusterName(name: string): string {
    REMOTE_PEER_CLUSTER_PREFIX + name
  }

  function ImportListenerName(name: string, namespace: string): string {
    IMPORT_LISTENER_PREFIX + namespace + "/" + name
  }

  function TrimPrefix(s: string, prefix: string): string {
    if prefix <= s then s[|prefix|..] else s
  }

  /** Where `c` first occurs in `s`, or the length of `s`. */
  function IndexOf(s: string, c: char): (i: nat)
    ensures i <= |s|
    ensures i < |s| ==> s[i] == c
    ensures forall j :: 0 <= j < i ==> s[j] != c
  {
    if s == [] || s[0] == c then 0 else 1 + IndexOf(s[1..], c)
  }

  /** A split at the first occurrence of `c`, the second part absent if there is none. */
  function Cut(s: string, c: char): (string, Option<string>) {
    var i := IndexOf(s, c);
    if i == |s| then (s, None) else (s[..i], Some(s[i + 1..]))
  }

  lemma IndexOfUnique(s: string, c: char, i: nat)
    requires i < |s| && s[i] == c && c !in s[..i]
    ensures IndexOf(s, c) == i
  {
    assert forall k :: 0 <= k < i ==> s[k] in s[..i];
  }

  lemma CutAt(a: string, c: char, b: string)
    requires c !in a
    ensures Cut(a + [c] + b, c) == (a, Some(b))
  {
    var s := a + [c] + b;
    assert s[..|a|] == a && s[|a| + 1..] == b;
    IndexOfUnique(s, c, |a|);
  }

  /** The listener name, as the dataplane takes it apart again to ask for authorization. */
  function SplitListenerName(listener: string): (string, Option<string>) {
    Cut(TrimPrefix(listener, IMPORT_LISTENER_PREFIX), '/')
  }

  /** Building, trimming and splitting a listener name gives back the import exactly when its namespace has no slash. */
  lemma ListenerNameRoundTrip(name: string, namespace: string)
    ensures SplitListenerName(ImportListenerName(name, namespace)) == (namespace, Some(name)) <==> '/' !in namespace
  {
    var s := namespace + "/" + name;
    assert ImportListenerName(name, namespace) == IMPORT_LISTENER_PREFIX + s;
    assert TrimPrefix(ImportListenerName(name, namespace), IMPORT_LISTENER_PREFIX) == s;
    assert s == namespace + ['/'] + name;
    if '/' !in namespace {
      CutAt(namespace, '/', name);
    } else {
      var j :| 0 <= j < |namespace| && namespace[j] == '/';
      assert s[j] == '/';
      assert IndexOf(s, '/') < |namespace|;
      assert |Cut(s, '/').0| < |namespace|;
    }
  }

  /** Export names never collide with peer names, and tell apart exports in slash-free namespaces. */
  lemma ClusterNamesDistinct(e: Name, e': Name, peer: string)
    ensures ExportClusterName(e.name, e.namespace) != RemotePeerClusterName(peer)
    ensures ExportClusterName(e.name, e.namespace) == ExportClusterName(e'.name, e'.namespace) ==>
              e == e' || '/' in e.namespace || '/' in e'.namespace
  {
    assert ExportClusterName(e.name, e.namespace)[0] == 'e' && RemotePeerClusterName(peer)[0] == 'r';
    var s, s' := e.namespace + ['/'] + e.name, e'.namespace + ['/'] + e'.name;
    assert ExportClusterName(e.name, e.namespace) == EXPORT_CLUSTER_PREFIX + s;
    assert ExportClusterName(e'.name, e'.namespace) == EXPORT_CLUSTER_PREFIX + s';
    assert (EXPORT_CLUSTER_PREFIX + s)[|EXPORT_CLUSTER_PREFIX|..] == s;
    assert (EXPORT_CLUSTER_PREFIX + s')[|EXPORT_CLUSTER_PREFIX|..] == s';
    if '/' !in e.namespace && '/' !in e'.namespace {
      CutAt(e.namespace, '/', e.name);
      CutAt(e'.namespace, '/', e'.name);
    }
  }
}
