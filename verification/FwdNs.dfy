// Watcher keys of pkg/fwdns/manager.go, with parseNamespaceKey of pkg/fwdapi/handlers/namespaces.go.
module FwdNs {
  import opened Text

  function WatcherKey(namespace: string, context: string): string {
    namespace + "." + context
  }

  /** A namespace is a label, section 2.1 of RFC 1123: it has no dot. */
  predicate DotFree(s: string) {
    '.' !in s
  }

  lemma WatcherKeyUnique(ns: string, ctx: string, ns': string, ctx': string)
    requires DotFree(ns) && DotFree(ns')
    ensures WatcherKey(ns, ctx) == WatcherKey(ns', ctx') <==> ns == ns' && ctx == ctx'
  {
    if WatcherKey(ns, ctx) == WatcherKey(ns', ctx') {
      assert ns + ['.'] + ctx == ns' + ['.'] + ctx';
      CutUnique(ns, ctx, ns', ctx', '.');
    }
  }

  function NamespaceAndContext(key: string): (string, string) {
    match Cut(key, '.')
    case Some(p) => p
    case None => ("", "")
  }

  method ParseNamespaceKey(key: string) returns (namespace: string, context: string)
    ensures (namespace, context) == NamespaceAndContext(key)
  {
    for i := 0 to |key|
      invariant '.' !in key[..i]
    {
      if key[i] == '.' {
        assert key == key[..i] + ['.'] + key[i + 1..];
        CutOfJoin(key[..i], key[i + 1..], '.');
        return key[..i], key[i + 1..];
      }
    }
    return "", "";
  }

  /** A key without a dot is answered two empty strings, any other one its text around the first dot. */
  lemma KeyParts(key: string)
    ensures '.' !in key ==> NamespaceAndContext(key) == ("", "")
    ensures '.' in key ==>
              var (namespace, context) := NamespaceAndContext(key);
              '.' !in namespace && key == namespace + "." + context
  {
  }

  /** Parsing undoes WatcherKey exactly for namespaces without a dot, whatever the context. */
  lemma ParseUndoesWatcherKey(namespace: string, context: string)
    ensures NamespaceAndContext(WatcherKey(namespace, context)) == (namespace, context) <==> DotFree(namespace)
  {
    assert WatcherKey(namespace, context) == namespace + ['.'] + context;
    CutOfJoin(namespace, context, '.');
  }
}
