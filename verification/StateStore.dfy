// The TUI state store (pkg/fwdtui/state/store.go): forwards, the per-service aggregates kept beside them,
// and the block-list of removed namespaces. Byte counters are 64-bit and wrap.
module StateStore {
  import FwdNs

  const WRAP: int := 0x1_0000_0000_0000_0000

  type Uint64 = x: int | 0 <= x < WRAP

  datatype Status = Pending | Connecting | Active | Error | Stopping

  datatype ForwardSnapshot = ForwardSnapshot(
    key: string,
    serviceKey: string,
    registryKey: string,
    serviceName: string,
    namespace: string,
    context: string,
    headless: bool,
    podName: string,
    containerName: string,
    localIP: string,
    localPort: string,
    podPort: string,
    hostnames: seq<string>,
    status: Status,
    error: string,
    bytesIn: Uint64,
    bytesOut: Uint64)

  datatype ServiceSnapshot = ServiceSnapshot(
    key: string,
    serviceName: string,
    namespace: string,
    context: string,
    headless: bool,
    totalBytesIn: Uint64,
    totalBytesOut: Uint64,
    activeCount: nat,
    errorCount: nat,
    portForwards: seq<ForwardSnapshot>)

  type Forwards = map<string, ForwardSnapshot>
  type Services = map<string, ServiceSnapshot>

  datatype State = State(forwards: Forwards, services: Services, blocked: set<string>)

  const EMPTY_STORE := State(map[], map[], {})

  // ---------- Sums over the forwards map ----------

  function InBytes(f: ForwardSnapshot): int {
    f.bytesIn
  }

  function OutBytes(f: ForwardSnapshot): int {
    f.bytesOut
  }

  function IsActive(f: ForwardSnapshot): int {
    if f.status.Active? then 1 else 0
  }

  function IsError(f: ForwardSnapshot): int {
    if f.status.Error? then 1 else 0
  }

  function Erase(f: ForwardSnapshot): ForwardSnapshot {
    f.(hostnames := [])
  }

  ghost function Sum(m: Forwards, keys: set<string>, f: ForwardSnapshot -> int): int
    requires keys <= m.Keys
  {
    if keys == {} then 0
    else
      var k :| k in keys;
      f(m[k]) + Sum(m, keys - {k}, f)
  }

  /** The forwards of the keys as a multiset, without their hostnames. */
  ghost function Contents(m: Forwards, keys: set<string>): multiset<ForwardSnapshot>
    requires keys <= m.Keys
  {
    if keys == {} then multiset{}
    else
      var k :| k in keys;
      multiset{Erase(m[k])} + Contents(m, keys - {k})
  }

  lemma {:induction false} SumStep(m: Forwards, keys: set<string>, k: string, f: ForwardSnapshot -> int)
    requires keys <= m.Keys && k in keys
    ensures Sum(m, keys, f) == f(m[k]) + Sum(m, keys - {k}, f)
    decreases keys
  {
    var p :| p in keys && Sum(m, keys, f) == f(m[p]) + Sum(m, keys - {p}, f);
    if p != k {
      SumStep(m, keys - {p}, k, f);
      SumStep(m, keys - {k}, p, f);
      assert keys - {p} - {k} == keys - {k} - {p};
    }
  }

  lemma {:induction false} ContentsStep(m: Forwards, keys: set<string>, k: string)
    requires keys <= m.Keys && k in keys
    ensures Contents(m, keys) == multiset{Erase(m[k])} + Contents(m, keys - {k})
    decreases keys
  {
    var p :| p in keys && Contents(m, keys) == multiset{Erase(m[p])} + Contents(m, keys - {p});
    if p != k {
      ContentsStep(m, keys - {p}, k);
      ContentsStep(m, keys - {k}, p);
      assert keys - {p} - {k} == keys - {k} - {p};
    }
  }

  /** Only the forwards of the keys matter, and of those only what is summed. */
  lemma {:induction false} SumSame(m: Forwards, m': Forwards, keys: set<string>, f: ForwardSnapshot -> int)
    requires keys <= m.Keys && keys <= m'.Keys && forall k :: k in keys ==> f(m[k]) == f(m'[k])
    ensures Sum(m, keys, f) == Sum(m', keys, f)
    decreases keys
  {
    if k :| k in keys {
      SumStep(m, keys, k, f);
      SumStep(m', keys, k, f);
      SumSame(m, m', keys - {k}, f);
    }
  }

  lemma {:induction false} ContentsSame(m: Forwards, m': Forwards, keys: set<string>)
    requires keys <= m.Keys && keys <= m'.Keys && forall k :: k in keys ==> Erase(m[k]) == Erase(m'[k])
    ensures Contents(m, keys) == Contents(m', keys)
    decreases keys
  {
    if k :| k in keys {
      ContentsStep(m, keys, k);
      ContentsStep(m', keys, k);
      ContentsSame(m, m', keys - {k});
    }
  }

  lemma {:induction false} SumUnion(m: Forwards, a: set<string>, b: set<string>, f: ForwardSnapshot -> int)
    requires a + b <= m.Keys && a !! b
    ensures Sum(m, a + b, f) == Sum(m, a, f) + Sum(m, b, f)
    decreases a
  {
    if k :| k in a {
      SumStep(m, a + b, k, f);
      SumStep(m, a, k, f);
      assert a + b - {k} == (a - {k}) + b;
      SumUnion(m, a - {k}, b, f);
    } else {
      assert a + b == b;
    }
  }

  lemma {:induction false} ContentsSize(m: Forwards, keys: set<string>)
    requires keys <= m.Keys
    ensures |Contents(m, keys)| == |keys|
    decreases keys
  {
    if k :| k in keys {
      ContentsStep(m, keys, k);
      ContentsSize(m, keys - {k});
    }
  }

  // ---------- Agreement ----------

  /** The keys of a service's forwards. */
  function Of(m: Forwards, serviceKey: string): set<string> {
    set k | k in m && m[k].serviceKey == serviceKey
  }

  function EraseAll(fs: seq<ForwardSnapshot>): seq<ForwardSnapshot> {
    seq(|fs|, i requires 0 <= i < |fs| => Erase(fs[i]))
  }

  /** The list, the byte totals and the counts of a service are those of the forwards of the keys, hostnames aside. */
  ghost predicate Tallies(svc: ServiceSnapshot, m: Forwards, keys: set<string>)
    requires keys <= m.Keys
  {
    && multiset(EraseAll(svc.portForwards)) == Contents(m, keys)
    && svc.totalBytesIn == Sum(m, keys, InBytes) % WRAP
    && svc.totalBytesOut == Sum(m, keys, OutBytes) % WRAP
    && svc.activeCount == Sum(m, keys, IsActive)
    && svc.errorCount == Sum(m, keys, IsError)
  }

  /** The aggregate equals recomputation from the forwards. */
  ghost predicate Agrees(svc: ServiceSnapshot, m: Forwards) {
    Tallies(svc, m, Of(m, svc.key))
  }

  /** One turn of the loop of updateServiceAggregate. */
  function Counted(svc: ServiceSnapshot, fwd: ForwardSnapshot): ServiceSnapshot {
    svc.(
      portForwards := svc.portForwards + [fwd],
      totalBytesIn := (svc.totalBytesIn + fwd.bytesIn) % WRAP,
      totalBytesOut := (svc.totalBytesOut + fwd.bytesOut) % WRAP,
      activeCount := svc.activeCount + (if fwd.status.Active? then 1 else 0),
      errorCount := svc.errorCount + (if fwd.status.Error? then 1 else 0))
  }

  lemma NothingTallied(svc: ServiceSnapshot, m: Forwards)
    requires svc.portForwards == [] && svc.totalBytesIn == svc.totalBytesOut == svc.activeCount == svc.errorCount == 0
    ensures Tallies(svc, m, {})
  {
    assert EraseAll(svc.portForwards) == [];
  }

  lemma CountedTallies(svc: ServiceSnapshot, m: Forwards, seen: set<string>, k: string)
    requires seen <= m.Keys && k in m && k !in seen && Tallies(svc, m, seen)
    ensures Tallies(Counted(svc, m[k]), m, seen + {k})
  {
    hide Sum, Contents, Erase, EraseAll;
    AppendErased(svc.portForwards, m[k]);
    Accumulate(m, seen, k);
  }

  /** Each forward sits under its own key, each service under its own, a service is there exactly when some forward
      carries its key, and every aggregate agrees with the forwards. */
  ghost predicate Agreement(s: State) {
    && (forall k :: k in s.forwards ==> s.forwards[k].key == k)
    && (forall sk :: sk in s.services ==> s.services[sk].key == sk)
    && (forall sk :: sk in s.services <==> Of(s.forwards, sk) != {})
    && (forall sk :: sk in s.services ==> Agrees(s.services[sk], s.forwards))
  }

  // ---------- The store's operations as relations (the order of a service's list is not fixed) ----------

  datatype Op =
    | AddForward(snapshot: ForwardSnapshot)
    | RemoveForward(key: string)
    | UpdateMetrics(key: string, bytesIn: Uint64, bytesOut: Uint64)
    | UpdateStatus(key: string, status: Status, error: string)
    | UpdateHostnames(key: string, hostnames: seq<string>)
    | RemoveByNamespace(namespace: string, context: string)
    | UnblockNamespace(namespace: string, context: string)

  function NewService(f: ForwardSnapshot): ServiceSnapshot {
    ServiceSnapshot(f.serviceKey, f.serviceName, f.namespace, f.context, f.headless, 0, 0, 0, 0, [])
  }

  predicate SameService(a: ServiceSnapshot, b: ServiceSnapshot) {
    && a.key == b.key && a.serviceName == b.serviceName
    && a.namespace == b.namespace && a.context == b.context && a.headless == b.headless
  }

  ghost predicate Refreshed(svc: ServiceSnapshot, before: ServiceSnapshot, m: Forwards) {
    SameService(svc, before) && Agrees(svc, m)
  }

  /** One service, if it is there, is refreshed; the others stay. */
  ghost predicate RefreshedOne(before: Services, after: Services, sk: string, m: Forwards) {
    && after.Keys == before.Keys
    && (forall k :: k in before && k != sk ==> after[k] == before[k])
    && (sk in before ==> Refreshed(after[sk], before[sk], m))
  }

  function ForwardsIn(m: Forwards, namespace: string, context: string): set<string> {
    set k | k in m && m[k].namespace == namespace && m[k].context == context
  }

  function ServicesIn(m: Services, namespace: string, context: string): set<string> {
    set k | k in m && m[k].namespace == namespace && m[k].context == context
  }

  ghost predicate Does(s: State, op: Op, t: State) {
    match op
    case AddForward(f) =>
      if FwdNs.WatcherKey(f.namespace, f.context) in s.blocked then t == s
      else
        && t.forwards == s.forwards[f.key := f] && t.blocked == s.blocked
        && RefreshedOne(if f.serviceKey in s.services then s.services else s.services[f.serviceKey := NewService(f)],
                        t.services, f.serviceKey, t.forwards)
    case RemoveForward(key) =>
      if key !in s.forwards then t == s
      else
        var sk := s.forwards[key].serviceKey;
        && t.forwards == s.forwards - {key} && t.blocked == s.blocked
        && if sk in s.services && Of(t.forwards, s.services[sk].key) == {} then t.services == s.services - {sk}
           else RefreshedOne(s.services, t.services, sk, t.forwards)
    case UpdateMetrics(key, bytesIn, bytesOut) =>
      if key !in s.forwards then t == s
      else
        && t.forwards == s.forwards[key := s.forwards[key].(bytesIn := bytesIn, bytesOut := bytesOut)]
        && t.blocked == s.blocked
        && RefreshedOne(s.services, t.services, s.forwards[key].serviceKey, t.forwards)
    case UpdateStatus(key, status, error) =>
      if key !in s.forwards then t == s
      else
        && t.forwards == s.forwards[key := s.forwards[key].(status := status, error := error)] && t.blocked == s.blocked
        && RefreshedOne(s.services, t.services, s.forwards[key].serviceKey, t.forwards)
    case UpdateHostnames(key, hostnames) =>
      t == if key in s.forwards then s.(forwards := s.forwards[key := s.forwards[key].(hostnames := hostnames)]) else s
    case RemoveByNamespace(ns, ctx) =>
      t == State(s.forwards - ForwardsIn(s.forwards, ns, ctx), s.services - ServicesIn(s.services, ns, ctx),
                 s.blocked + {FwdNs.WatcherKey(ns, ctx)})
    case UnblockNamespace(ns, ctx) => t == s.(blocked := s.blocked - {FwdNs.WatcherKey(ns, ctx)})
  }

  // ---------- The display filter ----------

  /** strings.ToLower on ASCII letters. */
  function ToLower(s: string): string {
    seq(|s|, i requires 0 <= i < |s| => if 'A' <= s[i] <= 'Z' then 'a' + (s[i] - 'A') else s[i])
  }

  predicate Contains(s: string, part: string) {
    part <= s || (s != [] && Contains(s[1..], part))
  }

  predicate MatchesFilter(f: ForwardSnapshot, filter: string) {
    || filter == ""
    || (exists h :: h in f.hostnames && Contains(ToLower(h), filter))
    || Contains(ToLower(f.serviceName), filter)
    || Contains(ToLower(f.namespace), filter)
    || Contains(ToLower(f.podName), filter)
  }

  /** The keys of a service's forwards that pass the filter, as the forwards carry them. */
  function Shown(m: Forwards, filter: string, serviceKey: string): set<string> {
    set k | k in m && MatchesFilter(m[k], filter) && m[k].serviceKey == serviceKey :: m[k].key
  }

  datatype SummaryStats = SummaryStats(
    totalServices: nat,
    activeServices: nat,
    totalForwards: nat,
    activeForwards: nat,
    errorCount: nat,
    totalBytesIn: Uint64,
    totalBytesOut: Uint64)

  class Store {
    var forwards: Forwards
    var services: Services
    var blocked: set<string>
    var filter: string   // in lower case

    ghost function St(): State
      reads this
    {
      State(forwards, services, blocked)
    }

    constructor ()
      ensures St() == EMPTY_STORE && filter == ""
    {
      forwards, services, blocked, filter := map[], map[], {}, "";
    }

    method SetFilter(text: string)
      modifies this`filter
      ensures filter == ToLower(text)
    {
      filter := ToLower(text);
    }

    /** updateServiceAggregate: recompute a service from the forwards, in whatever order the map yields them. */
    method Aggregate(before: ServiceSnapshot) returns (svc: ServiceSnapshot)
      ensures Refreshed(svc, before, forwards)
    {
      hide Tallies;
      svc := before.(portForwards := [], totalBytesIn := 0, totalBytesOut := 0, activeCount := 0, errorCount := 0);
      NothingTallied(svc, forwards);
      var rest := forwards.Keys;
      ghost var seen: set<string> := {};
      while rest != {}
        invariant rest <= forwards.Keys && SameService(svc, before)
        invariant seen == Of(forwards, svc.key) - rest
        invariant Tallies(svc, forwards, seen)
        decreases rest
      {
        var k :| k in rest;
        rest := rest - {k};
        if forwards[k].serviceKey == svc.key {
          CountedTallies(svc, forwards, seen, k);
          svc := Counted(svc, forwards[k]);
          seen := seen + {k};
        }
      }
      assert seen == Of(forwards, svc.key);
    }

    method RefreshService(sk: string)
      modifies this`services
      ensures RefreshedOne(old(services), services, sk, forwards)
    {
      if sk in services {
        var svc := Aggregate(services[sk]);
        services := services[sk := svc];
      }
    }

    method AddForward(snapshot: ForwardSnapshot)
      modifies this`forwards, this`services
      ensures Does(old(St()), Op.AddForward(snapshot), St())
    {
      if FwdNs.WatcherKey(snapshot.namespace, snapshot.context) in blocked {
        return;
      }
      forwards := forwards[snapshot.key := snapshot];
      if snapshot.serviceKey !in services {
        services := services[snapshot.serviceKey := NewService(snapshot)];
      }
      RefreshService(snapshot.serviceKey);
    }

    method RemoveForward(key: string)
      modifies this`forwards, this`services
      ensures Does(old(St()), Op.RemoveForward(key), St())
    {
      if key in forwards {
        var serviceKey := forwards[key].serviceKey;
        forwards := forwards - {key};
        if serviceKey in services {
          RefreshService(serviceKey);
          AgreesSize(services[serviceKey], forwards);
          if |services[serviceKey].portForwards| == 0 {
            services := services - {serviceKey};
          }
        }
      }
    }

    method UpdateMetrics(key: string, bytesIn: Uint64, bytesOut: Uint64)
      modifies this`forwards, this`services
      ensures Does(old(St()), Op.UpdateMetrics(key, bytesIn, bytesOut), St())
    {
      if key in forwards {
        forwards := forwards[key := forwards[key].(bytesIn := bytesIn, bytesOut := bytesOut)];
        RefreshService(forwards[key].serviceKey);
      }
    }

    method UpdateStatus(key: string, status: Status, error: string)
      modifies this`forwards, this`services
      ensures Does(old(St()), Op.UpdateStatus(key, status, error), St())
    {
      if key in forwards {
        forwards := forwards[key := forwards[key].(status := status, error := error)];
        RefreshService(forwards[key].serviceKey);
      }
    }

    method UpdateHostnames(key: string, hostnames: seq<string>)
      modifies this`forwards
      ensures Does(old(St()), Op.UpdateHostnames(key, hostnames), St())
    {
      if key in forwards {
        forwards := forwards[key := forwards[key].(hostnames := hostnames)];
      }
    }

    method RemoveByNamespace(namespace: string, context: string) returns (removed: nat)
      modifies this`forwards, this`services, this`blocked
      ensures Does(old(St()), Op.RemoveByNamespace(namespace, context), St())
      ensures removed == |old(forwards)| - |forwards|
    {
      blocked := blocked + {FwdNs.WatcherKey(namespace, context)};
      var forwardsToRemove := ForwardsIn(forwards, namespace, context);
      WithoutKeys(forwards, forwardsToRemove);
      forwards := forwards - forwardsToRemove;
      removed := |forwardsToRemove|;
      services := services - ServicesIn(services, namespace, context);
    }

    method UnblockNamespace(namespace: string, context: string)
      modifies this`blocked
      ensures Does(old(St()), Op.UnblockNamespace(namespace, context), St())
    {
      blocked := blocked - {FwdNs.WatcherKey(namespace, context)};
    }

    // The first loop of GetSummary.
    method CountActiveServices() returns (n: nat)
      ensures n == |ActiveKeys(services)|
    {
      n := 0;
      var rest := services.Keys;
      ghost var counted: set<string> := {};
      while rest != {}
        invariant rest <= services.Keys && counted == ActiveKeys(services) - rest && n == |counted|
        decreases rest
      {
        var sk :| sk in rest;
        rest := rest - {sk};
        if services[sk].activeCount > 0 {
          n := n + 1;
          counted := counted + {sk};
        }
      }
    }

    method GetSummary() returns (stats: SummaryStats)
      ensures stats.totalServices == |services| && stats.totalForwards == |forwards|
      ensures stats.activeServices == |ActiveKeys(services)|
      ensures Summed(stats, forwards, forwards.Keys)
    {
      hide Summed, ActiveKeys;
      var activeServices := CountActiveServices();
      stats := SummaryStats(|services|, activeServices, |forwards|, 0, 0, 0, 0);
      NothingSummed(stats, forwards);
      var rest := forwards.Keys;
      ghost var seen: set<string> := {};
      while rest != {}
        invariant rest <= forwards.Keys && seen == forwards.Keys - rest
        invariant stats.totalServices == |services| && stats.totalForwards == |forwards|
                  && stats.activeServices == activeServices
        invariant Summed(stats, forwards, seen)
        decreases rest
      {
        var k :| k in rest;
        rest := rest - {k};
        AddedSummed(stats, forwards, seen, k);
        seen := seen + {k};
        stats := AddedTo(stats, forwards[k]);
      }
      assert seen == forwards.Keys;
    }
  }

  function ActiveKeys(services: Services): set<string> {
    set sk | sk in services && services[sk].activeCount > 0
  }

  ghost predicate Summed(stats: SummaryStats, m: Forwards, keys: set<string>)
    requires keys <= m.Keys
  {
    && stats.activeForwards == Sum(m, keys, IsActive)
    && stats.errorCount == Sum(m, keys, IsError)
    && stats.totalBytesIn == Sum(m, keys, InBytes) % WRAP
    && stats.totalBytesOut == Sum(m, keys, OutBytes) % WRAP
  }

  /** One turn of the second loop of GetSummary. */
  function AddedTo(stats: SummaryStats, fwd: ForwardSnapshot): SummaryStats {
    stats.(
      activeForwards := stats.activeForwards + (if fwd.status.Active? then 1 else 0),
      errorCount := stats.errorCount + (if fwd.status.Error? then 1 else 0),
      totalBytesIn := (stats.totalBytesIn + fwd.bytesIn) % WRAP,
      totalBytesOut := (stats.totalBytesOut + fwd.bytesOut) % WRAP)
  }

  lemma NothingSummed(stats: SummaryStats, m: Forwards)
    requires stats.activeForwards == stats.errorCount == stats.totalBytesIn == stats.totalBytesOut == 0
    ensures Summed(stats, m, {})
  {
  }

  lemma AddedSummed(stats: SummaryStats, m: Forwards, seen: set<string>, k: string)
    requires seen <= m.Keys && k in m && k !in seen && Summed(stats, m, seen)
    ensures Summed(AddedTo(stats, m[k]), m, seen + {k})
  {
    hide Sum, Contents;
    Accumulate(m, seen, k);
  }

  lemma WithoutKeys(m: Forwards, keys: set<string>)
    requires keys <= m.Keys
    ensures |m - keys| == |m| - |keys|
  {
    assert (m - keys).Keys == m.Keys - keys;
    assert |m.Keys - keys| == |m.Keys| - |keys|;
  }

  lemma AppendErased(fs: seq<ForwardSnapshot>, f: ForwardSnapshot)
    ensures multiset(EraseAll(fs + [f])) == multiset(EraseAll(fs)) + multiset{Erase(f)}
  {
    assert EraseAll(fs + [f]) == EraseAll(fs) + [Erase(f)];
  }

  lemma Accumulate(m: Forwards, seen: set<string>, k: string)
    requires seen <= m.Keys && k in m && k !in seen
    ensures Contents(m, seen + {k}) == Contents(m, seen) + multiset{Erase(m[k])}
    ensures Sum(m, seen + {k}, InBytes) == Sum(m, seen, InBytes) + m[k].bytesIn
    ensures Sum(m, seen + {k}, OutBytes) == Sum(m, seen, OutBytes) + m[k].bytesOut
    ensures Sum(m, seen + {k}, IsActive) == Sum(m, seen, IsActive) + IsActive(m[k])
    ensures Sum(m, seen + {k}, IsError) == Sum(m, seen, IsError) + IsError(m[k])
  {
    assert seen + {k} - {k} == seen;
    ContentsStep(m, seen + {k}, k);
    SumStep(m, seen + {k}, k, InBytes);
    SumStep(m, seen + {k}, k, OutBytes);
    SumStep(m, seen + {k}, k, IsActive);
    SumStep(m, seen + {k}, k, IsError);
  }

  lemma AgreesSize(svc: ServiceSnapshot, m: Forwards)
    requires Agrees(svc, m)
    ensures |svc.portForwards| == |Of(m, svc.key)|
  {
    ContentsSize(m, Of(m, svc.key));
    assert |EraseAll(svc.portForwards)| == |svc.portForwards|;
    assert |multiset(EraseAll(svc.portForwards))| == |EraseAll(svc.portForwards)|;
  }
}
