// The cluster and namespace ordinals of pkg/fwdns/manager.go, which choose the address block of a service. StartWatcher
// takes both under one lock, CreateServiceFWD each under its own; a run interleaves any number of both.
module FwdOrdinals {
  import opened Text
  import opened FwdNs

  function Index(m: map<string, nat>, key: string): nat {
    if key in m then m[key] else |m|
  }

  function Indexed(m: map<string, nat>, key: string): map<string, nat> {
    if key in m then m else m[key := |m|]
  }

  /** A StartWatcher that got its ordinals, or a CreateServiceFWD that got its first or both. */
  datatype Call = Call(context: string, namespace: string, clusterN: nat, namespaceN: Option<nat>)
  {
    function Key(): string {
      WatcherKey(namespace, context)
    }
  }

  datatype State = State(contexts: map<string, nat>, namespaces: map<string, nat>, watchers: set<string>,
                         calls: seq<Call>)

  const INIT := State(map[], map[], {}, [])

  datatype Step =
    | StartWatcher(context: string, namespace: string, clientFails: bool)
    | StopWatcher(context: string, namespace: string)
    | TakeContext(context: string, namespace: string)   // CreateServiceFWD, GetContextIndex
    | TakeNamespace(call: nat)                          // the same call, GetNamespaceIndex

  predicate Enabled(s: State, step: Step) {
    step.TakeNamespace? ==> step.call < |s.calls| && s.calls[step.call].namespaceN.None?
  }

  function Apply(s: State, step: Step): State
    requires Enabled(s, step)
  {
    match step
    case StartWatcher(ctx, ns, clientFails) =>
      var key := WatcherKey(ns, ctx);
      if key in s.watchers || clientFails then s
      else State(Indexed(s.contexts, ctx), Indexed(s.namespaces, key), s.watchers + {key},
                 s.calls + [Call(ctx, ns, Index(s.contexts, ctx), Some(Index(s.namespaces, key)))])
    case StopWatcher(ctx, ns) => s.(watchers := s.watchers - {WatcherKey(ns, ctx)})
    case TakeContext(ctx, ns) =>
      s.(contexts := Indexed(s.contexts, ctx), calls := s.calls + [Call(ctx, ns, Index(s.contexts, ctx), None)])
    case TakeNamespace(c) =>
      var key := s.calls[c].Key();
      s.(namespaces := Indexed(s.namespaces, key),
         calls := s.calls[c := s.calls[c].(namespaceN := Some(Index(s.namespaces, key)))])
  }

  function After(steps: seq<Step>): Option<State> {
    if steps == [] then Some(INIT)
    else
      match After(steps[..|steps| - 1])
      case None => None
      case Some(s) => if Enabled(s, steps[|steps| - 1]) then Some(Apply(s, steps[|steps| - 1])) else None
  }

  class NamespaceManager {
    var contextIndex: map<string, nat>
    var namespaceIndex: map<string, nat>
    var watchers: set<string>     // keys of the running watchers
    ghost var calls: seq<Call>    // the ordinals handed out

    ghost function St(): State
      reads this
    {
      State(contextIndex, namespaceIndex, watchers, calls)
    }

    constructor ()
      ensures St() == INIT
    {
      contextIndex, namespaceIndex, watchers, calls := map[], map[], {}, [];
    }

    method GetContextIndex(context: string) returns (idx: nat)
      modifies this`contextIndex
      ensures idx == Index(old(contextIndex), context) && contextIndex == Indexed(old(contextIndex), context)
    {
      if context in contextIndex {
        return contextIndex[context];
      }
      idx := |contextIndex|;
      contextIndex := contextIndex[context := idx];
    }

    method GetNamespaceIndex(key: string) returns (idx: nat)
      modifies this`namespaceIndex
      ensures idx == Index(old(namespaceIndex), key) && namespaceIndex == Indexed(old(namespaceIndex), key)
    {
      if key in namespaceIndex {
        return namespaceIndex[key];
      }
      idx := |namespaceIndex|;
      namespaceIndex := namespaceIndex[key := idx];
    }

    /** One critical section: None when the namespace is already watched or the client cannot be made. */
    method StartWatcher(context: string, namespace: string, clientFails: bool) returns (ordinals: Option<(nat, nat)>)
      modifies this
      ensures St() == Apply(old(St()), Step.StartWatcher(context, namespace, clientFails))
      ensures ordinals.Some? <==> WatcherKey(namespace, context) !in old(watchers) && !clientFails
      ensures ordinals.Some? ==>
                calls == old(calls) + [Call(context, namespace, ordinals.value.0, Some(ordinals.value.1))]
    {
      var key := WatcherKey(namespace, context);
      if key in watchers || clientFails {
        return None;
      }
      var clusterN := GetContextIndex(context);
      var namespaceN := GetNamespaceIndex(key);
      watchers := watchers + {key};
      calls := calls + [Call(context, namespace, clusterN, Some(namespaceN))];
      ordinals := Some((clusterN, namespaceN));
    }

    // The two critical sections of CreateServiceFWD.
    method TakeContext(context: string, ghost namespace: string) returns (clusterN: nat)
      modifies this
      ensures St() == Apply(old(St()), Step.TakeContext(context, namespace))
      ensures calls == old(calls) + [Call(context, namespace, clusterN, None)]
    {
      clusterN := GetContextIndex(context);
      calls := calls + [Call(context, namespace, clusterN, None)];
    }

    method TakeNamespace(context: string, namespace: string, ghost c: nat) returns (namespaceN: nat)
      requires Enabled(St(), Step.TakeNamespace(c)) && calls[c].context == context && calls[c].namespace == namespace
      modifies this
      ensures St() == Apply(old(St()), Step.TakeNamespace(c)) && calls[c].namespaceN == Some(namespaceN)
    {
      namespaceN := GetNamespaceIndex(WatcherKey(namespace, context));
      calls := calls[c := calls[c].(namespaceN := Some(namespaceN))];
    }
  }

  // ---------- The order of first indexing ----------

  function Append(order: seq<string>, key: string): seq<string> {
    if key in order then order else order + [key]
  }

  /** The contexts and the namespace keys of a run, each where it is indexed first. */
  function Orders(steps: seq<Step>): (seq<string>, seq<string>)
    requires After(steps).Some?
  {
    if steps == [] then ([], [])
    else
      var m := |steps| - 1;
      var s, (contexts, keys) := After(steps[..m]).value, Orders(steps[..m]);
      match steps[m]
      case StartWatcher(ctx, ns, _) =>
        if Apply(s, steps[m]) == s then (contexts, keys) else (Append(contexts, ctx), Append(keys, WatcherKey(ns, ctx)))
      case StopWatcher(_, _) => (contexts, keys)
      case TakeContext(ctx, _) => (Append(contexts, ctx), keys)
      case TakeNamespace(c) => (contexts, Append(keys, s.calls[c].Key()))
  }

  /** The map numbers the keys in this order. */
  ghost predicate Numbers(m: map<string, nat>, order: seq<string>) {
    && |m| == |order|
    && (forall k :: k in m <==> k in order)
    && (forall i :: 0 <= i < |order| ==> order[i] in m && m[order[i]] == i)
  }

  lemma NumbersMore(m: map<string, nat>, order: seq<string>, key: string)
    requires Numbers(m, order)
    ensures Numbers(Indexed(m, key), Append(order, key))
    ensures key in Indexed(m, key) && Indexed(m, key)[key] == Index(m, key)
    ensures forall k :: k in m ==> k in Indexed(m, key) && Indexed(m, key)[k] == m[k]
  {
  }

  predicate CallOk(s: State, call: Call) {
    && call.context in s.contexts && call.clusterN == s.contexts[call.context]
    && (call.namespaceN.Some? ==> call.Key() in s.namespaces && call.namespaceN.value == s.namespaces[call.Key()])
  }

  ghost predicate Inv(s: State, contexts: seq<string>, keys: seq<string>) {
    && Numbers(s.contexts, contexts) && Numbers(s.namespaces, keys)
    && forall c :: 0 <= c < |s.calls| ==> CallOk(s, s.calls[c])
  }

  lemma {:induction false} RunInv(steps: seq<Step>)
    requires After(steps).Some?
    ensures Inv(After(steps).value, Orders(steps).0, Orders(steps).1)
  {
    if steps != [] {
      var m := |steps| - 1;
      RunInv(steps[..m]);
      StepInv(steps, m);
    }
  }

  /** A step keeps what it does not number, so the calls made before stay as they were answered. */
  lemma CallKept(s: State, step: Step, c: nat)
    requires Enabled(s, step) && c < |s.calls| && CallOk(s, s.calls[c])
    ensures CallOk(Apply(s, step), Apply(s, step).calls[c])
  {
    hide WatcherKey;
  }

  lemma NewCallOk(s: State, step: Step)
    requires Enabled(s, step) && |Apply(s, step).calls| > |s.calls|
    ensures |Apply(s, step).calls| == |s.calls| + 1 && CallOk(Apply(s, step), Apply(s, step).calls[|s.calls|])
  {
    hide WatcherKey;
  }

  lemma CallsGrow(s: State, step: Step)
    requires Enabled(s, step)
    ensures |s.calls| <= |Apply(s, step).calls| <= |s.calls| + 1
  {
  }

  lemma StepNumbers(steps: seq<Step>, m: nat)
    requires m + 1 == |steps| && After(steps).Some?
             && Inv(After(steps[..m]).value, Orders(steps[..m]).0, Orders(steps[..m]).1)
    ensures Numbers(After(steps).value.contexts, Orders(steps).0)
            && Numbers(After(steps).value.namespaces, Orders(steps).1)
  {
    hide Numbers, Indexed, Append, WatcherKey, CallOk;
    var s := After(steps[..m]).value;
    var (contexts, keys) := Orders(steps[..m]);
    match steps[m]
    case StartWatcher(ctx, ns, _) =>
      NumbersMore(s.contexts, contexts, ctx);
      NumbersMore(s.namespaces, keys, WatcherKey(ns, ctx));
    case StopWatcher(_, _) =>
    case TakeContext(ctx, _) =>
      NumbersMore(s.contexts, contexts, ctx);
    case TakeNamespace(c) =>
      NumbersMore(s.namespaces, keys, s.calls[c].Key());
  }

  lemma StepInv(steps: seq<Step>, m: nat)
    requires m + 1 == |steps| && After(steps).Some?
             && Inv(After(steps[..m]).value, Orders(steps[..m]).0, Orders(steps[..m]).1)
    ensures Inv(After(steps).value, Orders(steps).0, Orders(steps).1)
  {
    hide Numbers, Apply, Enabled, CallOk, Orders;
    var s, t := After(steps[..m]).value, After(steps).value;
    StepNumbers(steps, m);
    CallsGrow(s, steps[m]);
    forall c | 0 <= c < |t.calls|
      ensures CallOk(t, t.calls[c])
    {
      if c < |s.calls| {
        CallKept(s, steps[m], c);
      } else {
        NewCallOk(s, steps[m]);
      }
    }
  }

  // ---------- Every interleaving ----------

  predicate Answered(s: State, c: nat) {
    c < |s.calls| && s.calls[c].namespaceN.Some?
  }

  function Ordinals(s: State, c: nat): (nat, nat)
    requires Answered(s, c)
  {
    (s.calls[c].clusterN, s.calls[c].namespaceN.value)
  }

  /** In every interleaving an answered call's ordinals are the places of its context and of its namespace key in the
      orders of first indexing. So they name the context and, for namespaces without dots, the namespace one to one. */
  lemma OrdinalsOfRun(steps: seq<Step>, c: nat, d: nat)
    requires After(steps).Some? && Answered(After(steps).value, c) && Answered(After(steps).value, d)
    ensures var s, (contexts, keys), (x, y) := After(steps).value, Orders(steps), Ordinals(After(steps).value, c);
            x < |contexts| && contexts[x] == s.calls[c].context && y < |keys| && keys[y] == s.calls[c].Key()
    ensures var s := After(steps).value;
            var (x, y), (x', y') := Ordinals(s, c), Ordinals(s, d);
            && (x == x' <==> s.calls[c].context == s.calls[d].context)
            && (y == y' <==> s.calls[c].Key() == s.calls[d].Key())
            && (DotFree(s.calls[c].namespace) && DotFree(s.calls[d].namespace) ==>
                  (y == y' <==>
                    (s.calls[c].context, s.calls[c].namespace) == (s.calls[d].context, s.calls[d].namespace)))
  {
    hide After, Orders, WatcherKey;
    RunInv(steps);
    var s := After(steps).value;
    assert CallOk(s, s.calls[c]) && CallOk(s, s.calls[d]);
    Placed(s.contexts, Orders(steps).0, s.calls[c].context);
    Placed(s.namespaces, Orders(steps).1, s.calls[c].Key());
    Placed(s.contexts, Orders(steps).0, s.calls[d].context);
    Placed(s.namespaces, Orders(steps).1, s.calls[d].Key());
    if DotFree(s.calls[c].namespace) && DotFree(s.calls[d].namespace) {
      WatcherKeyUnique(s.calls[c].namespace, s.calls[c].context, s.calls[d].namespace, s.calls[d].context);
    }
  }

  lemma Placed(m: map<string, nat>, order: seq<string>, key: string)
    requires Numbers(m, order) && key in m
    ensures m[key] < |order| && order[m[key]] == key
  {
    var i :| 0 <= i < |order| && order[i] == key;
  }

  /** In every interleaving a call is answered (1, 0), the block whose first address is the API's, exactly when its
      context is the second that any call indexed and its namespace key the first. */
  lemma ApiBlockIff(steps: seq<Step>, c: nat)
    requires After(steps).Some? && Answered(After(steps).value, c)
    ensures var s, (contexts, keys) := After(steps).value, Orders(steps);
            Ordinals(s, c) == (1, 0) <==>
              && |contexts| > 1 && contexts[1] == s.calls[c].context
              && |keys| > 0 && keys[0] == s.calls[c].Key()
  {
    hide After, Orders, WatcherKey;
    OrdinalsOfRun(steps, c, c);
    RunInv(steps);
    var s := After(steps).value;
    assert CallOk(s, s.calls[c]);
  }

  /** Step p is the first to index a namespace key, and it does so for this context: by a StartWatcher, or by the second
      half of a CreateServiceFWD. */
  predicate FirstKeyAt(steps: seq<Step>, p: nat, context: string) {
    && p < |steps| && After(steps[..p]).Some?
    && var s := After(steps[..p]).value;
       && s.namespaces == map[]
       && match steps[p]
          case StartWatcher(ctx, ns, clientFails) =>
            ctx == context && !clientFails && WatcherKey(ns, ctx) !in s.watchers
          case TakeNamespace(c) => c < |s.calls| && s.calls[c].context == context
          case _ => false
  }

  /** The context of the first key to be indexed is, by then, the second context to be indexed. The guard a caller can
      check: before that step exactly one other context has an index, or this one already has index 1. */
  predicate SecondContextFirst(steps: seq<Step>, p: nat, context: string) {
    FirstKeyAt(steps, p, context) && Index(After(steps[..p]).value.contexts, context) == 1
  }

  ghost predicate AllDotFree(s: State) {
    forall c :: 0 <= c < |s.calls| ==> DotFree(s.calls[c].namespace)
  }

  lemma {:induction false} FirstKeyExists(steps: seq<Step>) returns (p: nat, context: string)
    requires After(steps).Some? && After(steps).value.namespaces != map[]
    ensures FirstKeyAt(steps, p, context)
  {
    var m := |steps| - 1;
    var s := After(steps[..m]).value;
    if s.namespaces == map[] {
      p, context := m, if steps[m].StartWatcher? then steps[m].context else s.calls[steps[m].call].context;
    } else {
      p, context := FirstKeyExists(steps[..m]);
      assert steps[..m][..p] == steps[..p];
    }
  }

  lemma StaysAnswered(s: State, step: Step, c: nat)
    requires Enabled(s, step) && Answered(s, c)
    ensures Answered(Apply(s, step), c) && Apply(s, step).calls[c] == s.calls[c]
  {
  }

  /** The call that indexes the first key is answered 0 for it, and its context's index at the time. */
  lemma {:induction false} FirstKeyAnswered(steps: seq<Step>, p: nat, context: string) returns (d: nat)
    requires After(steps).Some? && FirstKeyAt(steps, p, context)
    ensures Answered(After(steps).value, d) && After(steps).value.calls[d].context == context
    ensures Ordinals(After(steps).value, d) == (Index(After(steps[..p]).value.contexts, context), 0)
  {
    var m := |steps| - 1;
    var s := After(steps[..m]).value;
    if p == m {
      RunInv(steps[..m]);
      match steps[m]
      case StartWatcher(_, _, _) => d := |s.calls|;
      case TakeNamespace(c) =>
        assert CallOk(s, s.calls[c]);
        d := c;
    } else {
      assert steps[..m][..p] == steps[..p];
      d := FirstKeyAnswered(steps[..m], p, context);
      hide Apply, Enabled;
      StaysAnswered(s, steps[m], d);
    }
  }

  /** With namespaces without dots, a run answers some call (1, 0) exactly when its first key is indexed for a context
      whose index is then 1. */
  lemma SomeCallGetsApiBlockIff(steps: seq<Step>)
    requires After(steps).Some? && AllDotFree(After(steps).value)
    ensures (exists c: nat :: Answered(After(steps).value, c) && Ordinals(After(steps).value, c) == (1, 0))
            <==> exists p, ctx :: SecondContextFirst(steps, p, ctx)
  {
    hide After, Orders, FirstKeyAt;
    var s := After(steps).value;
    if c: nat :| Answered(s, c) && Ordinals(s, c) == (1, 0) {
      RunInv(steps);
      assert CallOk(s, s.calls[c]);
      var p, ctx := FirstKeyExists(steps);
      var d := FirstKeyAnswered(steps, p, ctx);
      OrdinalsOfRun(steps, c, d);
      assert SecondContextFirst(steps, p, ctx);
    }
    if p, ctx :| SecondContextFirst(steps, p, ctx) {
      var c := FirstKeyAnswered(steps, p, ctx);
      assert Answered(s, c);
    }
  }

  // ---------- Watchers ----------

  /** A namespace that is watched is refused a second watcher; once that is stopped it is watched again, under the
      ordinals it had. */
  lemma WatchStopWatch(s: State, contexts: seq<string>, keys: seq<string>, ctx: string, ns: string)
    requires Inv(s, contexts, keys) && WatcherKey(ns, ctx) !in s.watchers
    ensures var s1 := Apply(s, StartWatcher(ctx, ns, false));
            var s2 := Apply(s1, StopWatcher(ctx, ns));
            var s3 := Apply(s2, StartWatcher(ctx, ns, false));
            && |s1.calls| == |s.calls| + 1 && Apply(s1, StartWatcher(ctx, ns, false)) == s1
            && |s3.calls| == |s.calls| + 2 && s3.calls[|s.calls| + 1] == s1.calls[|s.calls|]
  {
    hide WatcherKey;
  }

  /** A watcher whose client cannot be made changes nothing, and stopping one watcher leaves the others. */
  lemma OthersWatch(s: State, ctx: string, ns: string, other: string)
    ensures Apply(s, StartWatcher(ctx, ns, true)) == s
    ensures other != WatcherKey(ns, ctx) ==>
              (other in Apply(s, StopWatcher(ctx, ns)).watchers <==> other in s.watchers)
  {
  }

  // ---------- Both ordinals under one lock ----------

  /** Every CreateServiceFWD takes its second ordinal right after its first, as StartWatcher does. */
  ghost predicate OneLock(steps: seq<Step>) {
    forall i :: 0 <= i < |steps| && steps[i].TakeContext? ==>
      i + 1 < |steps| && After(steps[..i]).Some? && steps[i + 1] == TakeNamespace(|After(steps[..i]).value.calls|)
  }

  predicate Backed(s: State, key: string, c: nat) {
    Answered(s, c) && s.calls[c].Key() == key
  }

  ghost predicate Below(s: State) {
    && |s.contexts| <= |s.namespaces|
    && (forall c :: 0 <= c < |s.calls| ==> Answered(s, c) && s.calls[c].clusterN <= s.calls[c].namespaceN.value)
    && (forall key :: key in s.namespaces ==> exists c: nat :: Backed(s, key, c))
  }

  /** What StartWatcher does when it is not refused, and a CreateServiceFWD under one lock. */
  ghost predicate Takes(s: State, ctx: string, ns: string, t: State) {
    && t.contexts == Indexed(s.contexts, ctx) && t.namespaces == Indexed(s.namespaces, WatcherKey(ns, ctx))
    && t.calls == s.calls + [Call(ctx, ns, Index(s.contexts, ctx), Some(Index(s.namespaces, WatcherKey(ns, ctx))))]
  }

  lemma TakesInOrder(s: State, contexts: seq<string>, keys: seq<string>, ctx: string, ns: string)
    requires Inv(s, contexts, keys) && Below(s) && AllDotFree(s) && DotFree(ns)
    ensures var key := WatcherKey(ns, ctx);
            && Index(s.contexts, ctx) <= Index(s.namespaces, key)
            && |Indexed(s.contexts, ctx)| <= |Indexed(s.namespaces, key)|
  {
    hide WatcherKey, Numbers;
    var key := WatcherKey(ns, ctx);
    if key in s.namespaces {
      var c: nat :| Backed(s, key, c);
      assert CallOk(s, s.calls[c]);
      WatcherKeyUnique(ns, ctx, s.calls[c].namespace, s.calls[c].context);
    } else if ctx in s.contexts {
      Placed(s.contexts, contexts, ctx);
      assert |s.contexts| == |contexts| by {
        SameSize(s.contexts, contexts);
      }
    }
  }

  lemma SameSize(m: map<string, nat>, order: seq<string>)
    requires Numbers(m, order)
    ensures |m| == |order|
  {
  }

  lemma TakesBelow(s: State, contexts: seq<string>, keys: seq<string>, ctx: string, ns: string, t: State)
    requires Inv(s, contexts, keys) && Below(s) && AllDotFree(t) && Takes(s, ctx, ns, t)
    ensures Below(t)
  {
    hide WatcherKey, Inv;
    var key, n := WatcherKey(ns, ctx), |s.calls|;
    assert forall c :: 0 <= c < n ==> t.calls[c] == s.calls[c];
    assert Backed(t, key, n);
    assert t.calls[n].namespace == ns;
    TakesInOrder(s, contexts, keys, ctx, ns);
    forall k | k in t.namespaces && k != key
      ensures exists c: nat :: Backed(t, k, c)
    {
      var c: nat :| Backed(s, k, c);
      assert Backed(t, k, c);
    }
  }

  lemma LastStep(steps: seq<Step>)
    requires After(steps).Some? && steps != []
    ensures var m := |steps| - 1;
            && After(steps[..m]).Some? && Enabled(After(steps[..m]).value, steps[m])
            && After(steps).value == Apply(After(steps[..m]).value, steps[m])
  {
  }

  lemma DotFreeBefore(s: State, step: Step)
    requires Enabled(s, step) && AllDotFree(Apply(s, step))
    ensures AllDotFree(s)
  {
    forall c | 0 <= c < |s.calls|
      ensures Apply(s, step).calls[c].namespace == s.calls[c].namespace
    {
    }
  }

  lemma OneLockPrefix(steps: seq<Step>, m: nat)
    requires OneLock(steps) && m <= |steps| && (m > 0 ==> !steps[m - 1].TakeContext?)
    ensures OneLock(steps[..m])
  {
    hide After;
    forall i | 0 <= i < m && steps[..m][i].TakeContext?
      ensures steps[..m][..i] == steps[..i] && i + 1 < m
    {
    }
  }

  lemma {:induction false} OneLockBelow(steps: seq<Step>)
    requires After(steps).Some? && OneLock(steps) && AllDotFree(After(steps).value)
    ensures Below(After(steps).value)
  {
    hide After, Inv, Below, AllDotFree, WatcherKey;
    if steps == [] {
      NothingBelow();
      return;
    }
    var m, t := |steps| - 1, After(steps).value;
    LastStep(steps);
    var s := After(steps[..m]).value;
    DotFreeBefore(s, steps[m]);
    RunInv(steps[..m]);
    if m > 0 && steps[m - 1].TakeContext? {
      LastStep(steps[..m]);
      assert steps[..m][..m - 1] == steps[..m - 1];
      var r := After(steps[..m - 1]).value;
      assert steps[m] == TakeNamespace(|r.calls|);
      DotFreeBefore(r, steps[m - 1]);
      RunInv(steps[..m - 1]);
      OneLockPrefix(steps, m - 1);
      OneLockBelow(steps[..m - 1]);
      TakesBelow(r, Orders(steps[..m - 1]).0, Orders(steps[..m - 1]).1, steps[m - 1].context, steps[m - 1].namespace,
                 t);
    } else {
      OneLockPrefix(steps, m);
      OneLockBelow(steps[..m]);
      match steps[m]
      case StartWatcher(ctx, ns, _) =>
        if t != s {
          TakesBelow(s, Orders(steps[..m]).0, Orders(steps[..m]).1, ctx, ns, t);
        }
      case StopWatcher(_, _) => SameBelow(s, t);
      case TakeContext(_, _) => assert false;
      case TakeNamespace(c) =>
        AllAnswered(s, c);
        assert false;
    }
  }

  lemma NothingBelow()
    ensures After([]) == Some(INIT) && Below(INIT)
  {
  }

  lemma SameBelow(s: State, t: State)
    requires Below(s) && t.contexts == s.contexts && t.namespaces == s.namespaces && t.calls == s.calls
    ensures Below(t)
  {
    forall key | key in t.namespaces
      ensures exists c: nat :: Backed(t, key, c)
    {
      var c: nat :| Backed(s, key, c);
      assert Backed(t, key, c);
    }
  }

  lemma AllAnswered(s: State, c: nat)
    requires Below(s) && c < |s.calls|
    ensures Answered(s, c)
  {
  }

  /** If both ordinals are taken under one lock, as by StartWatcher alone, the namespace ordinal is never below the
      cluster ordinal; so no call is answered (1, 0). */
  lemma OneLockOrdinals(steps: seq<Step>, c: nat)
    requires After(steps).Some? && OneLock(steps) && AllDotFree(After(steps).value) && Answered(After(steps).value, c)
    ensures var (x, y) := Ordinals(After(steps).value, c); x <= y
  {
    hide After, OneLock;
    OneLockBelow(steps);
  }
}
