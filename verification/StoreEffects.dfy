// What each operation of the state store, and each event, changes for a reader of the store, and what it leaves alone.
module StoreEffects {
  import opened Text
  import opened StateStore
  import opened StateStoreProperties
  import opened StoreEvents
  import opened EventKeys
  import FwdNs

  // ---------- Operations ----------

  /** All other forwards are there as before, and no block changes. */
  ghost predicate OthersStay(s: State, t: State, key: string) {
    && t.blocked == s.blocked
    && forall k :: k != key ==>
         (k in t.forwards <==> k in s.forwards) && (k in s.forwards ==> t.forwards[k] == s.forwards[k])
  }

  /** What identifies a forward and its place. */
  predicate SameIdentity(f: ForwardSnapshot, g: ForwardSnapshot) {
    && f.key == g.key && f.serviceKey == g.serviceKey && f.registryKey == g.registryKey
    && f.serviceName == g.serviceName && f.headless == g.headless
    && f.namespace == g.namespace && f.context == g.context
    && f.podName == g.podName && f.containerName == g.containerName
    && f.localIP == g.localIP && f.localPort == g.localPort && f.podPort == g.podPort
  }

  /** An added forward is stored as given, under its key; a service it is the first of carries its name and place. */
  lemma AddShows(s: State, f: ForwardSnapshot, t: State)
    requires Does(s, Op.AddForward(f), t)
    ensures FwdNs.WatcherKey(f.namespace, f.context) in s.blocked ==> t == s
    ensures FwdNs.WatcherKey(f.namespace, f.context) !in s.blocked ==>
              && f.key in t.forwards && t.forwards[f.key] == f && OthersStay(s, t, f.key)
              && t.services.Keys == s.services.Keys + {f.serviceKey}
              && (f.serviceKey !in s.services ==>
                    var svc := t.services[f.serviceKey];
                    && svc.key == f.serviceKey && svc.serviceName == f.serviceName && svc.headless == f.headless
                    && svc.namespace == f.namespace && svc.context == f.context)
  {
    hide FwdNs.WatcherKey, Agrees;
  }

  /** A removed forward is gone, and with it its service when that has no other. */
  lemma RemoveShows(s: State, key: string, t: State)
    requires Agreement(s) && Does(s, Op.RemoveForward(key), t)
    ensures key !in t.forwards && OthersStay(s, t, key)
    ensures key !in s.forwards ==> t == s
    ensures key in s.forwards ==>
              var sk := s.forwards[key].serviceKey;
              (sk in t.services <==> exists k :: k in s.forwards && k != key && s.forwards[k].serviceKey == sk)
  {
    hide Agrees;
    if key in s.forwards {
      var sk := s.forwards[key].serviceKey;
      assert key in Of(s.forwards, sk);
      assert Of(t.forwards, sk) == Of(s.forwards, sk) - {key};
      if k :| k in s.forwards && k != key && s.forwards[k].serviceKey == sk {
        assert k in Of(t.forwards, sk);
      }
      if k :| k in Of(t.forwards, sk) {
        assert k in s.forwards && k != key && s.forwards[k].serviceKey == sk;
      }
    }
  }

  /** New byte counters are what a reader of the forward sees, each in its place; nothing else of it changes. */
  lemma MetricsShow(s: State, key: string, bytesIn: Uint64, bytesOut: Uint64, t: State)
    requires Does(s, Op.UpdateMetrics(key, bytesIn, bytesOut), t)
    ensures key !in s.forwards ==> t == s
    ensures key in s.forwards ==>
              && key in t.forwards && OthersStay(s, t, key)
              && t.forwards[key].bytesIn == bytesIn && t.forwards[key].bytesOut == bytesOut
              && SameIdentity(t.forwards[key], s.forwards[key])
              && t.forwards[key].hostnames == s.forwards[key].hostnames
              && t.forwards[key].status == s.forwards[key].status && t.forwards[key].error == s.forwards[key].error
  {
    hide Agrees;
  }

  /** Likewise a new status and its error text. */
  lemma StatusShows(s: State, key: string, status: Status, error: string, t: State)
    requires Does(s, Op.UpdateStatus(key, status, error), t)
    ensures key !in s.forwards ==> t == s
    ensures key in s.forwards ==>
              && key in t.forwards && OthersStay(s, t, key)
              && t.forwards[key].status == status && t.forwards[key].error == error
              && SameIdentity(t.forwards[key], s.forwards[key])
              && t.forwards[key].hostnames == s.forwards[key].hostnames
              && t.forwards[key].bytesIn == s.forwards[key].bytesIn
              && t.forwards[key].bytesOut == s.forwards[key].bytesOut
  {
    hide Agrees;
  }

  /** And new hostnames, which leave the services as they are. */
  lemma HostnamesShow(s: State, key: string, hostnames: seq<string>, t: State)
    requires Does(s, Op.UpdateHostnames(key, hostnames), t)
    ensures t.services == s.services && (key !in s.forwards ==> t == s)
    ensures key in s.forwards ==>
              && key in t.forwards && OthersStay(s, t, key)
              && t.forwards[key].hostnames == hostnames && SameIdentity(t.forwards[key], s.forwards[key])
              && t.forwards[key].status == s.forwards[key].status && t.forwards[key].error == s.forwards[key].error
              && t.forwards[key].bytesIn == s.forwards[key].bytesIn
              && t.forwards[key].bytesOut == s.forwards[key].bytesOut
  {
  }

  /** After an unblock, and nothing else, a forward of that namespace is stored again. */
  lemma UnblockedIsStored(s: State, ns: string, ctx: string, t: State, f: ForwardSnapshot, u: State)
    requires Does(s, Op.UnblockNamespace(ns, ctx), t) && Does(t, Op.AddForward(f), u)
    ensures t.forwards == s.forwards && t.services == s.services
    ensures forall key :: key != FwdNs.WatcherKey(ns, ctx) ==> (key in t.blocked <==> key in s.blocked)
    ensures f.namespace == ns && f.context == ctx ==> f.key in u.forwards && u.forwards[f.key] == f
  {
    hide Agrees;
  }

  // ---------- Effects on the summary ----------

  /** A sum changes by what the one changed forward contributes. */
  lemma SumMoves(m: Forwards, key: string, f: ForwardSnapshot, g: ForwardSnapshot -> int)
    requires key in m
    ensures var m' := m[key := f]; Sum(m', m'.Keys, g) == Sum(m, m.Keys, g) - g(m[key]) + g(f)
  {
    var m' := m[key := f];
    assert m'.Keys == m.Keys;
    SumStep(m, m.Keys, key, g);
    SumStep(m', m'.Keys, key, g);
    SumSame(m, m', m.Keys - {key}, g);
  }

  lemma ModDiffers(a: int, b: int, d: int)
    requires b == a + d
    ensures (b % WRAP - a % WRAP - d) % WRAP == 0
  {
    assert b == (b / WRAP) * WRAP + b % WRAP && a == (a / WRAP) * WRAP + a % WRAP;
    assert b % WRAP - a % WRAP - d == (a / WRAP - b / WRAP) * WRAP;
    MultipleOfWrap(a / WRAP - b / WRAP);
  }

  lemma MultipleOfWrap(q: int)
    ensures (q * WRAP) % WRAP == 0
  {
  }

  /** After a metrics update of a known forward the summary's two byte totals move by exactly the two differences,
      modulo 2^64, and its counts stay. */
  lemma MetricsMoveSummary(s: State, key: string, bytesIn: Uint64, bytesOut: Uint64, t: State,
                           before: SummaryStats, after: SummaryStats)
    requires key in s.forwards && Does(s, Op.UpdateMetrics(key, bytesIn, bytesOut), t)
    requires Summed(before, s.forwards, s.forwards.Keys) && Summed(after, t.forwards, t.forwards.Keys)
    ensures (after.totalBytesIn - before.totalBytesIn - (bytesIn - s.forwards[key].bytesIn)) % WRAP == 0
    ensures (after.totalBytesOut - before.totalBytesOut - (bytesOut - s.forwards[key].bytesOut)) % WRAP == 0
    ensures after.activeForwards == before.activeForwards && after.errorCount == before.errorCount
  {
    var f := t.forwards[key];
    MetricsShow(s, key, bytesIn, bytesOut, t);
    assert t.forwards == s.forwards[key := f];
    hide Does, Sum;
    SumMoves(s.forwards, key, f, InBytes);
    SumMoves(s.forwards, key, f, OutBytes);
    SumMoves(s.forwards, key, f, IsActive);
    SumMoves(s.forwards, key, f, IsError);
    var m, m' := s.forwards, t.forwards;
    ModDiffers(Sum(m, m.Keys, InBytes), Sum(m', m'.Keys, InBytes), bytesIn - m[key].bytesIn);
    ModDiffers(Sum(m, m.Keys, OutBytes), Sum(m', m'.Keys, OutBytes), bytesOut - m[key].bytesOut);
  }

  /** After a status update the summary's active and error counts move by the forward's own change, and its byte totals
      stay. */
  lemma StatusMovesSummary(s: State, key: string, status: Status, error: string, t: State,
                           before: SummaryStats, after: SummaryStats)
    requires key in s.forwards && Does(s, Op.UpdateStatus(key, status, error), t)
    requires Summed(before, s.forwards, s.forwards.Keys) && Summed(after, t.forwards, t.forwards.Keys)
    ensures after.activeForwards ==
            before.activeForwards - (if s.forwards[key].status == Active then 1 else 0)
            + (if status == Active then 1 else 0)
    ensures after.errorCount ==
            before.errorCount - (if s.forwards[key].status == Error then 1 else 0)
            + (if status == Error then 1 else 0)
    ensures after.totalBytesIn == before.totalBytesIn && after.totalBytesOut == before.totalBytesOut
  {
    var f := t.forwards[key];
    StatusShows(s, key, status, error, t);
    assert t.forwards == s.forwards[key := f];
    hide Does, Sum;
    SumMoves(s.forwards, key, f, InBytes);
    SumMoves(s.forwards, key, f, OutBytes);
    SumMoves(s.forwards, key, f, IsActive);
    SumMoves(s.forwards, key, f, IsError);
  }

  function WithStatus(m: Forwards, keys: set<string>, status: Status): set<string>
    requires keys <= m.Keys
  {
    set k | k in keys && m[k].status == status
  }

  lemma OneLess(m: Forwards, keys: set<string>, k: string, status: Status)
    requires keys <= m.Keys && k in keys
    ensures |WithStatus(m, keys, status)| ==
            |WithStatus(m, keys - {k}, status)| + if m[k].status == status then 1 else 0
  {
    var all, less := WithStatus(m, keys, status), WithStatus(m, keys - {k}, status);
    if m[k].status == status {
      assert all == less + {k};
    } else {
      assert all == less;
    }
  }

  /** The counts of a summary or an aggregate are numbers of forwards. */
  lemma {:induction false} CountsAre(m: Forwards, keys: set<string>)
    requires keys <= m.Keys
    ensures Sum(m, keys, IsActive) == |WithStatus(m, keys, Active)|
    ensures Sum(m, keys, IsError) == |WithStatus(m, keys, Error)|
    decreases keys
  {
    if k :| k in keys {
      hide WithStatus, Sum;
      SumStep(m, keys, k, IsActive);
      SumStep(m, keys, k, IsError);
      CountsAre(m, keys - {k});
      OneLess(m, keys, k, Active);
      OneLess(m, keys, k, Error);
    } else {
      assert keys == {} && WithStatus(m, keys, Active) == {} && WithStatus(m, keys, Error) == {};
    }
  }

  // ---------- Events ----------

  lemma OnlyOp(e: Event, filter: string, s: State, t: State, op: Op)
    requires HandlesOne(e, filter, s, t) && forall ops :: OpsOf(e, s, filter, ops) ==> ops == [op]
    ensures Does(s, op, t)
  {
    hide Does, OpsOf;
    var states, ops :| Handles(e, filter, states, ops, s, t);
    assert Does(states[0], ops[0], states[1]);
  }

  /** After a PodAdded event for a namespace that is not blocked, the forward is in the store under
      "service key.pod.port", with the event's fields, connecting, without traffic or error. */
  lemma AddedEventShows(e: Event, filter: string, s: State, t: State)
    requires e.PodAdded? && HandlesOne(e, filter, s, t)
    requires FwdNs.WatcherKey(e.namespace, e.context) !in s.blocked
    ensures var key := e.serviceKey + "." + e.podName + "." + e.localPort;
            && key in t.forwards && OthersStay(s, t, key)
            && var f := t.forwards[key];
               && f.key == key && f.serviceKey == e.serviceKey && f.registryKey == e.registryKey
               && f.serviceName == e.service && f.namespace == e.namespace && f.context == e.context
               && f.podName == e.podName && f.containerName == e.containerName && f.localIP == e.localIP
               && f.localPort == e.localPort && f.podPort == e.podPort && f.hostnames == e.hostnames
               && f.status == Connecting && f.error == "" && f.bytesIn == 0 && f.bytesOut == 0
  {
    hide FwdNs.WatcherKey, Does;
    OnlyOp(e, filter, s, t, Op.AddForward(SnapshotOf(e)));
    AddShows(s, SnapshotOf(e), t);
  }

  /** After a PodRemoved event the forward is gone and the others are untouched. */
  lemma RemovedEventShows(e: Event, filter: string, s: State, t: State)
    requires e.PodRemoved? && Agreement(s) && HandlesOne(e, filter, s, t)
    ensures var key := e.serviceKey + "." + e.podName + "." + e.localPort; key !in t.forwards && OthersStay(s, t, key)
  {
    hide Does, Agreement;
    var key := ForwardKey(e.serviceKey, e.podName, e.localPort);
    OnlyOp(e, filter, s, t, Op.RemoveForward(key));
    RemoveShows(s, key, t);
  }

  /** After a PodStatusChanged event a known forward shows the status the event's text names, or pending for any other
      text, its error text, and its hostnames if it is active and has some. */
  lemma StatusEventShows(e: Event, filter: string, s: State, t: State)
    requires e.PodStatusChanged? && HandlesOne(e, filter, s, t)
    requires e.serviceKey + "." + e.podName + "." + e.localPort in s.forwards
    ensures var key := e.serviceKey + "." + e.podName + "." + e.localPort;
            && key in t.forwards && OthersStay(s, t, key)
            && var f := t.forwards[key];
               && (e.status == "connecting" ==> f.status == Connecting)
               && (e.status == "active" ==> f.status == Active)
               && (e.status == "error" ==> f.status == Error)
               && (e.status == "stopping" ==> f.status == Stopping)
               && (e.status !in ["connecting", "active", "error", "stopping"] ==> f.status == Pending)
               && (match e.error case Some(text) => f.error == text case None => f.error == "")
               && f.hostnames ==
                    (if e.status == "active" && e.hostnames != [] then e.hostnames else s.forwards[key].hostnames)
               && SameIdentity(f, s.forwards[key])
               && f.bytesIn == s.forwards[key].bytesIn && f.bytesOut == s.forwards[key].bytesOut
  {
    hide Does, Steps;
    var key := ForwardKey(e.serviceKey, e.podName, e.localPort);
    var states, ops :| Handles(e, filter, states, ops, s, t);
    var error := if e.error.Some? then e.error.value else "";
    var mid := StatusStep(states, ops, key, StatusOf(e.status), error, e.hostnames);
    StatusShows(s, key, StatusOf(e.status), error, mid);
    if |ops| == 2 {
      HostnamesShow(mid, key, e.hostnames, t);
    }
  }

  lemma StatusStep(states: seq<State>, ops: seq<Op>, key: string, status: Status, error: string, hostnames: seq<string>)
    returns (mid: State)
    requires Steps(states, ops)
    requires ops == [Op.UpdateStatus(key, status, error)]
             || ops == [Op.UpdateStatus(key, status, error), Op.UpdateHostnames(key, hostnames)]
    ensures Does(states[0], Op.UpdateStatus(key, status, error), mid)
    ensures if |ops| == 1 then mid == states[1] else Does(mid, Op.UpdateHostnames(key, hostnames), states[2])
  {
    hide Does;
    mid := states[1];
    assert Does(states[0], ops[0], states[1]);
  }

  // ---------- The filter ----------

  lemma {:induction false} ContainsBetween(a: string, part: string, b: string)
    ensures Contains(a + part + b, part)
  {
    var s := a + part + b;
    if a == [] {
      assert s[..|part|] == part;
    } else {
      assert s[1..] == a[1..] + part + b;
      ContainsBetween(a[1..], part, b);
    }
  }

  lemma {:induction false} ContainedAt(s: string, part: string) returns (a: string, b: string)
    requires Contains(s, part)
    ensures s == a + part + b
  {
    if part <= s {
      a, b := [], s[|part|..];
    } else {
      a, b := ContainedAt(s[1..], part);
      a := [s[0]] + a;
    }
  }

  /** A text contains another exactly when it is that text between two others. */
  lemma ContainsIff(s: string, part: string)
    ensures Contains(s, part) <==> exists a, b :: s == a + part + b
  {
    hide Contains;
    if Contains(s, part) {
      var a, b := ContainedAt(s, part);
    }
    if a, b :| s == a + part + b {
      ContainsBetween(a, part, b);
    }
  }

  /** A forward passes a filter exactly when that is empty or part of a lower-cased hostname, service name, namespace or
      pod name. */
  lemma FilterIff(f: ForwardSnapshot, filter: string)
    ensures MatchesFilter(f, filter) <==>
            || filter == ""
            || exists text, a, b ::
                 && (text in f.hostnames || text == f.serviceName || text == f.namespace || text == f.podName)
                 && ToLower(text) == a + filter + b
  {
    hide ToLower, Contains;
    forall text
      ensures Contains(ToLower(text), filter) <==> exists a, b :: ToLower(text) == a + filter + b
    {
      ContainsIff(ToLower(text), filter);
    }
  }

  /** Lower-casing changes exactly the capital letters. */
  lemma ToLowerIs(s: string, i: nat)
    requires i < |s|
    ensures |ToLower(s)| == |s|
    ensures 'A' <= s[i] <= 'Z' ==> ToLower(s)[i] as int == s[i] as int + 32
    ensures !('A' <= s[i] <= 'Z') ==> ToLower(s)[i] == s[i]
  {
  }
}
