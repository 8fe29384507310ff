// What the state store keeps over every run: aggregates that agree with the forwards, a summary that
// conserves their totals, and removed namespaces that stay removed.
module StateStoreProperties {
  import opened StateStore
  import FwdNs

  // ---------- Agreement, one operation at a time ----------

  /** An aggregate is not disturbed by changes to other services' forwards, nor by hostnames. */
  lemma AgreesFrame(svc: ServiceSnapshot, m: Forwards, m': Forwards)
    requires Agrees(svc, m) && Of(m, svc.key) == Of(m', svc.key)
    requires forall k :: k in Of(m, svc.key) ==> Erase(m[k]) == Erase(m'[k])
    ensures Agrees(svc, m')
  {
    var keys := Of(m, svc.key);
    assert forall k :: k in keys ==>
             Erase(m[k]).bytesIn == Erase(m'[k]).bytesIn && Erase(m[k]).bytesOut == Erase(m'[k]).bytesOut
                                     && Erase(m[k]).status == Erase(m'[k]).status;
    ContentsSame(m, m', keys);
    SumSame(m, m', keys, InBytes);
    SumSame(m, m', keys, OutBytes);
    SumSame(m, m', keys, IsActive);
    SumSame(m, m', keys, IsError);
  }

  /** The two maps differ at one key at most, and that key belongs to service `sk` in both. */
  ghost predicate DifferAt(m: Forwards, m': Forwards, key: string, sk: string) {
    && (forall k :: k != key ==> (k in m <==> k in m'))
    && (forall k :: k != key && k in m && k in m' ==> m[k] == m'[k])
    && (key in m ==> m[key].serviceKey == sk)
    && (key in m' ==> m'[key].serviceKey == sk && m'[key].key == key)
  }

  lemma OfOther(m: Forwards, m': Forwards, key: string, sk: string, k: string)
    requires DifferAt(m, m', key, sk) && k != sk
    ensures Of(m', k) == Of(m, k) && forall x :: x in Of(m, k) ==> m'[x] == m[x]
  {
  }

  lemma OtherAgrees(svc: ServiceSnapshot, m: Forwards, m': Forwards, key: string, sk: string)
    requires Agrees(svc, m) && DifferAt(m, m', key, sk) && svc.key != sk
    ensures Agrees(svc, m')
  {
    OfOther(m, m', key, sk, svc.key);
    hide Agrees, DifferAt, Of;
    AgreesFrame(svc, m, m');
  }

  lemma RefreshKeepsAgreement(s: State, services: Services, t: State, key: string, sk: string)
    requires Agreement(s) && DifferAt(s.forwards, t.forwards, key, sk)
    requires forall k :: k in services ==> services[k].key == k
    requires services.Keys == s.services.Keys || services.Keys == s.services.Keys + {sk}
    requires forall k :: k in s.services && k in services && k != sk ==> services[k] == s.services[k]
    requires sk in services <==> Of(t.forwards, sk) != {}
    requires RefreshedOne(services, t.services, sk, t.forwards)
    ensures Agreement(t)
  {
    hide Agrees, Of;
    forall k
      ensures k in t.services <==> Of(t.forwards, k) != {}
      ensures k in t.services ==> t.services[k].key == k && Agrees(t.services[k], t.forwards)
    {
      if k != sk {
        OfOther(s.forwards, t.forwards, key, sk, k);
        if k in t.services {
          OtherAgrees(s.services[k], s.forwards, t.forwards, key, sk);
        }
      }
    }
  }

  predicate SameKeySameService(s: State, f: ForwardSnapshot) {
    f.key in s.forwards ==> s.forwards[f.key].serviceKey == f.serviceKey
  }

  lemma AddKeepsAgreement(s: State, f: ForwardSnapshot, t: State)
    requires Agreement(s) && Does(s, Op.AddForward(f), t) && SameKeySameService(s, f)
    ensures Agreement(t)
  {
    hide Agrees, FwdNs.WatcherKey, RefreshedOne;
    if FwdNs.WatcherKey(f.namespace, f.context) !in s.blocked {
      var services := if f.serviceKey in s.services then s.services else s.services[f.serviceKey := NewService(f)];
      assert f.key in Of(t.forwards, f.serviceKey);
      RefreshKeepsAgreement(s, services, t, f.key, f.serviceKey);
    }
  }

  lemma RemoveKeepsAgreement(s: State, key: string, t: State)
    requires Agreement(s) && Does(s, Op.RemoveForward(key), t)
    ensures Agreement(t)
  {
    hide Agrees;
    if key in s.forwards {
      var sk := s.forwards[key].serviceKey;
      assert key in Of(s.forwards, sk);
      if Of(t.forwards, sk) == {} {
        assert RefreshedOne(s.services - {sk}, t.services, sk, t.forwards);
        RemovedServiceAgreement(s, t, key, sk);
      } else {
        RefreshKeepsAgreement(s, s.services, t, key, sk);
      }
    }
  }

  lemma RemovedServiceAgreement(s: State, t: State, key: string, sk: string)
    requires Agreement(s) && DifferAt(s.forwards, t.forwards, key, sk)
    requires Of(t.forwards, sk) == {} && t.services == s.services - {sk}
    ensures Agreement(t)
  {
    hide Agrees, Of;
    forall k
      ensures k in t.services <==> Of(t.forwards, k) != {}
      ensures k in t.services ==> Agrees(t.services[k], t.forwards)
    {
      if k != sk {
        OfOther(s.forwards, t.forwards, key, sk, k);
        if k in t.services {
          OtherAgrees(s.services[k], s.forwards, t.forwards, key, sk);
        }
      }
    }
  }

  lemma UpdateKeepsAgreement(s: State, op: Op, t: State)
    requires Agreement(s) && Does(s, op, t) && (op.UpdateMetrics? || op.UpdateStatus?)
    ensures Agreement(t)
  {
    hide Agrees;
    if op.key in s.forwards {
      var sk := s.forwards[op.key].serviceKey;
      assert op.key in Of(s.forwards, sk) && op.key in Of(t.forwards, sk);
      RefreshKeepsAgreement(s, s.services, t, op.key, sk);
    }
  }

  lemma HostnamesKeepAgreement(s: State, op: Op, t: State)
    requires Agreement(s) && Does(s, op, t) && op.UpdateHostnames?
    ensures Agreement(t)
  {
    hide Agrees;
    forall k
      ensures Of(t.forwards, k) == Of(s.forwards, k)
      ensures k in t.services ==> Agrees(t.services[k], t.forwards)
    {
      assert Of(t.forwards, k) == Of(s.forwards, k);
      if k in t.services {
        AgreesFrame(s.services[k], s.forwards, t.forwards);
      }
    }
  }

  predicate InPlace(f: ForwardSnapshot, ns: string, ctx: string) {
    f.namespace == ns && f.context == ctx
  }

  /** A forward is of the namespace and context exactly when its service is. */
  ghost predicate Together(s: State, ns: string, ctx: string) {
    forall k :: k in s.forwards && s.forwards[k].serviceKey in s.services ==>
      var svc := s.services[s.forwards[k].serviceKey];
      InPlace(s.forwards[k], ns, ctx) <==> svc.namespace == ns && svc.context == ctx
  }

  lemma RemoveNamespaceKeepsAgreement(s: State, ns: string, ctx: string, t: State)
    requires Agreement(s) && Together(s, ns, ctx) && Does(s, Op.RemoveByNamespace(ns, ctx), t)
    ensures Agreement(t)
  {
    hide Agrees;
    forall k
      ensures k in t.services <==> Of(t.forwards, k) != {}
      ensures k in t.services ==> Agrees(t.services[k], t.forwards)
    {
      if k in t.services {
        assert Of(t.forwards, k) == Of(s.forwards, k);
        AgreesFrame(s.services[k], s.forwards, t.forwards);
      } else {
        assert Of(t.forwards, k) <= Of(s.forwards, k);
      }
    }
  }

  /** Removing a namespace keeps the agreement exactly when no forward in it belongs to a service outside it,
      nor the other way round. */
  lemma RemoveNamespaceKeepsAgreementIff(s: State, ns: string, ctx: string, t: State)
    requires Agreement(s) && Does(s, Op.RemoveByNamespace(ns, ctx), t)
    ensures Agreement(t) <==> Together(s, ns, ctx)
  {
    if Together(s, ns, ctx) {
      RemoveNamespaceKeepsAgreement(s, ns, ctx, t);
    } else {
      Astray(s, ns, ctx, t);
    }
  }

  lemma Astray(s: State, ns: string, ctx: string, t: State)
    requires Agreement(s) && Does(s, Op.RemoveByNamespace(ns, ctx), t) && !Together(s, ns, ctx)
    ensures !Agreement(t)
  {
    hide Agrees, FwdNs.WatcherKey;
    var k :| k in s.forwards && s.forwards[k].serviceKey in s.services &&
      var svc := s.services[s.forwards[k].serviceKey];
      !(InPlace(s.forwards[k], ns, ctx) <==> svc.namespace == ns && svc.context == ctx);
    var sk := s.forwards[k].serviceKey;
    assert k in Of(s.forwards, sk);
    if InPlace(s.forwards[k], ns, ctx) {
      assert k !in Of(t.forwards, sk) && Of(t.forwards, sk) <= Of(s.forwards, sk) - {k};
      assert |Of(t.forwards, sk)| <= |Of(s.forwards, sk) - {k}| by {
        SubsetSize(Of(t.forwards, sk), Of(s.forwards, sk) - {k});
      }
      AgreesSize(s.services[sk], s.forwards);
      if Agreement(t) {
        AgreesSize(t.services[sk], t.forwards);
        assert false;
      }
    } else {
      assert k in Of(t.forwards, sk) && sk !in t.services;
    }
  }

  lemma SubsetSize(a: set<string>, b: set<string>)
    requires a <= b
    ensures |a| <= |b|
  {
    assert b == a + (b - a);
  }

  /** Adding an unblocked forward keeps the agreement exactly when the store holds no forward of the same key
      for another service. */
  lemma AddKeepsAgreementIff(s: State, f: ForwardSnapshot, t: State)
    requires Agreement(s) && Does(s, Op.AddForward(f), t) && FwdNs.WatcherKey(f.namespace, f.context) !in s.blocked
    ensures Agreement(t) <==> SameKeySameService(s, f)
  {
    if SameKeySameService(s, f) {
      AddKeepsAgreement(s, f, t);
    } else {
      StaleAggregate(s, f, t);
    }
  }

  lemma StaleAggregate(s: State, f: ForwardSnapshot, t: State)
    requires Agreement(s) && Does(s, Op.AddForward(f), t) && FwdNs.WatcherKey(f.namespace, f.context) !in s.blocked
    requires !SameKeySameService(s, f)
    ensures !Agreement(t)
  {
    hide FwdNs.WatcherKey, Agrees;
    var sk := s.forwards[f.key].serviceKey;
    assert f.key in Of(s.forwards, sk);
    assert Of(t.forwards, sk) == Of(s.forwards, sk) - {f.key};
    assert sk in s.services && t.services[sk] == s.services[sk] && s.services[sk].key == sk;
    AgreesSize(s.services[sk], s.forwards);
    if Agreement(t) {
      AgreesSize(t.services[sk], t.forwards);
      assert false;
    }
  }

  // ---------- Agreement over runs ----------

  /** Service keys by forward key, and namespace and context by service key. */
  datatype Naming = Naming(serviceOf: string -> string, placeOf: string -> (string, string))

  predicate Follows(nm: Naming, f: ForwardSnapshot) {
    nm.serviceOf(f.key) == f.serviceKey && nm.placeOf(f.serviceKey) == (f.namespace, f.context)
  }

  ghost predicate Inv(nm: Naming, s: State) {
    && Agreement(s)
    && (forall k :: k in s.forwards ==> Follows(nm, s.forwards[k]))
    && (forall sk :: sk in s.services ==> nm.placeOf(sk) == (s.services[sk].namespace, s.services[sk].context))
  }

  ghost predicate Steps(states: seq<State>, ops: seq<Op>) {
    && |states| == |ops| + 1
    && forall i :: 0 <= i < |ops| ==> Does(states[i], ops[i], states[i + 1])
  }

  lemma NamingKept(nm: Naming, s: State, op: Op, t: State)
    requires Inv(nm, s) && Does(s, op, t) && (op.AddForward? ==> Follows(nm, op.snapshot))
    ensures forall k :: k in t.forwards ==> Follows(nm, t.forwards[k])
    ensures forall sk :: sk in t.services ==> nm.placeOf(sk) == (t.services[sk].namespace, t.services[sk].context)
  {
    hide Agrees, Agreement, FwdNs.WatcherKey;
  }

  lemma DoesKeepsInv(nm: Naming, s: State, op: Op, t: State)
    requires Inv(nm, s) && Does(s, op, t) && (op.AddForward? ==> Follows(nm, op.snapshot))
    ensures Inv(nm, t)
  {
    NamingKept(nm, s, op, t);
    hide Agreement, FwdNs.WatcherKey;
    match op
    case AddForward(f) =>
      assert SameKeySameService(s, f) by {
        KeyedByKey(s);
      }
      AddKeepsAgreement(s, f, t);
    case RemoveForward(key) => RemoveKeepsAgreement(s, key, t);
    case UpdateMetrics(_, _, _) => UpdateKeepsAgreement(s, op, t);
    case UpdateStatus(_, _, _) => UpdateKeepsAgreement(s, op, t);
    case UpdateHostnames(_, _) => HostnamesKeepAgreement(s, op, t);
    case RemoveByNamespace(ns, ctx) => RemoveNamespaceKeepsAgreement(s, ns, ctx, t);
    case UnblockNamespace(_, _) => UnblockKeepsAgreement(s, t);
  }

  lemma KeyedByKey(s: State)
    requires Agreement(s)
    ensures forall k :: k in s.forwards ==> s.forwards[k].key == k
  {
  }

  lemma UnblockKeepsAgreement(s: State, t: State)
    requires Agreement(s) && t.forwards == s.forwards && t.services == s.services
    ensures Agreement(t)
  {
  }

  lemma {:induction false} RunKeepsInv(nm: Naming, states: seq<State>, ops: seq<Op>, i: nat)
    requires Steps(states, ops) && Inv(nm, states[0]) && i <= |ops|
    requires forall op :: op in ops && op.AddForward? ==> Follows(nm, op.snapshot)
    ensures Inv(nm, states[i])
  {
    hide Inv, Does, Follows;
    if i > 0 {
      RunKeepsInv(nm, states, ops, i - 1);
      DoesKeepsInv(nm, states[i - 1], ops[i - 1], states[i]);
    }
  }

  /** Two forwards that share a key share the service key, and then the namespace and context. */
  predicate Apart(f: ForwardSnapshot, g: ForwardSnapshot) {
    && (f.key == g.key ==> f.serviceKey == g.serviceKey)
    && (f.serviceKey == g.serviceKey ==> f.namespace == g.namespace && f.context == g.context)
  }

  ghost predicate AllApart(adds: iset<ForwardSnapshot>) {
    forall f, g :: f in adds && g in adds ==> Apart(f, g)
  }

  ghost function ServiceOf(adds: iset<ForwardSnapshot>, key: string): string {
    if f :| f in adds && f.key == key then f.serviceKey else ""
  }

  ghost function PlaceOf(adds: iset<ForwardSnapshot>, serviceKey: string): (string, string) {
    if f :| f in adds && f.serviceKey == serviceKey then (f.namespace, f.context) else ("", "")
  }

  lemma NamedApart(adds: iset<ForwardSnapshot>) returns (nm: Naming)
    requires AllApart(adds)
    ensures forall f :: f in adds ==> Follows(nm, f)
  {
    nm := Naming(key => ServiceOf(adds, key), sk => PlaceOf(adds, sk));
    forall f | f in adds
      ensures Follows(nm, f)
    {
      var g :| g in adds && g.key == f.key && ServiceOf(adds, f.key) == g.serviceKey;
      assert Apart(f, g);
      var h :| h in adds && h.serviceKey == f.serviceKey && PlaceOf(adds, f.serviceKey) == (h.namespace, h.context);
      assert Apart(f, h);
    }
  }

  /** A run of store operations from the empty store that adds only these forwards. */
  ghost predicate RunAdding(adds: iset<ForwardSnapshot>, states: seq<State>, ops: seq<Op>) {
    && Steps(states, ops) && states[0] == EMPTY_STORE
    && forall op :: op in ops && op.AddForward? ==> op.snapshot in adds
  }

  /** If the forwards that may be added are told apart by their keys, the service aggregates agree with the forwards in
      every state of every run of store operations. */
  lemma AgreementInEveryState(adds: iset<ForwardSnapshot>, states: seq<State>, ops: seq<Op>, i: nat)
    requires AllApart(adds) && RunAdding(adds, states, ops) && i <= |ops|
    ensures Agreement(states[i])
  {
    hide Does, Follows, Agreement;
    var nm := NamedApart(adds);
    EmptyInv(nm);
    RunKeepsInv(nm, states, ops, i);
  }

  lemma EmptyInv(nm: Naming)
    ensures Inv(nm, EMPTY_STORE)
  {
  }

  // ---------- When keys do not tell forwards apart ----------

  lemma {:induction false} Recomputed(before: ServiceSnapshot, m: Forwards, keys: set<string>)
    returns (svc: ServiceSnapshot)
    requires keys <= m.Keys
    ensures SameService(svc, before) && Tallies(svc, m, keys)
    decreases keys
  {
    hide Tallies;
    if k :| k in keys {
      svc := Recomputed(before, m, keys - {k});
      CountedTallies(svc, m, keys - {k}, k);
      svc := Counted(svc, m[k]);
      assert keys - {k} + {k} == keys;
    } else {
      svc := before.(portForwards := [], totalBytesIn := 0, totalBytesOut := 0, activeCount := 0, errorCount := 0);
      NothingTallied(svc, m);
      assert keys == {};
    }
  }

  /** AddForward always has a result; an unblocked one is of its service. */
  lemma CanAdd(s: State, f: ForwardSnapshot) returns (t: State)
    requires FwdNs.WatcherKey(f.namespace, f.context) !in s.blocked
    requires forall sk :: sk in s.services ==> s.services[sk].key == sk
    ensures Does(s, Op.AddForward(f), t)
  {
    hide Agrees, Tallies, FwdNs.WatcherKey;
    var services := if f.serviceKey in s.services then s.services else s.services[f.serviceKey := NewService(f)];
    var m := s.forwards[f.key := f];
    var svc := Recomputed(services[f.serviceKey], m, Of(m, f.serviceKey));
    AgreesFromTallies(svc, m, f.serviceKey);
    t := State(m, services[f.serviceKey := svc], s.blocked);
  }

  lemma AgreesFromTallies(svc: ServiceSnapshot, m: Forwards, sk: string)
    requires svc.key == sk && Tallies(svc, m, Of(m, sk))
    ensures Agrees(svc, m)
  {
  }

  /** Two forwards that are not apart break the agreement: added one after the other if only the key is shared, and
      with the first one's namespace removed after that if the service key is. */
  lemma NotApartBreaks(f: ForwardSnapshot, g: ForwardSnapshot) returns (states: seq<State>, ops: seq<Op>)
    requires !Apart(f, g)
    ensures RunAdding(iset{f, g}, states, ops) && !Agreement(states[|ops|])
    ensures ops == [Op.AddForward(f), Op.AddForward(g)]
                   + (if f.serviceKey == g.serviceKey then [Op.RemoveByNamespace(f.namespace, f.context)] else [])
  {
    hide FwdNs.WatcherKey, Agreement, Does;
    var nm := Naming(_ => f.serviceKey, _ => (f.namespace, f.context));
    EmptyInv(nm);
    KeyedServices(EMPTY_STORE);
    var s1 := CanAdd(EMPTY_STORE, f);
    AddKeepsAgreement(EMPTY_STORE, f, s1);
    FirstAdded(f, s1);
    KeyedServices(s1);
    var s2 := CanAdd(s1, g);
    states, ops := [EMPTY_STORE, s1, s2], [Op.AddForward(f), Op.AddForward(g)];
    if f.serviceKey != g.serviceKey {
      StaleAggregate(s1, g, s2);
    } else {
      AddKeepsAgreement(s1, g, s2);
      SecondAdded(f, g, s1, s2);
      var ns, ctx := f.namespace, f.context;
      var s3 := State(s2.forwards - ForwardsIn(s2.forwards, ns, ctx), s2.services - ServicesIn(s2.services, ns, ctx),
                      s2.blocked + {FwdNs.WatcherKey(ns, ctx)});
      assert Does(s2, Op.RemoveByNamespace(ns, ctx), s3) by {
        RemovedState(s2, ns, ctx, s3);
      }
      Astray(s2, ns, ctx, s3);
      states, ops := states + [s3], ops + [Op.RemoveByNamespace(ns, ctx)];
    }
  }

  lemma RemovedState(s: State, ns: string, ctx: string, t: State)
    requires t == State(s.forwards - ForwardsIn(s.forwards, ns, ctx), s.services - ServicesIn(s.services, ns, ctx),
                        s.blocked + {FwdNs.WatcherKey(ns, ctx)})
    ensures Does(s, Op.RemoveByNamespace(ns, ctx), t)
  {
  }

  lemma KeyedServices(s: State)
    requires Agreement(s)
    ensures forall sk :: sk in s.services ==> s.services[sk].key == sk
  {
  }

  lemma FirstAdded(f: ForwardSnapshot, t: State)
    requires Does(EMPTY_STORE, Op.AddForward(f), t)
    ensures t.forwards == map[f.key := f] && t.blocked == {} && t.services.Keys == {f.serviceKey}
    ensures SameService(t.services[f.serviceKey], NewService(f))
  {
    hide Agrees, FwdNs.WatcherKey;
  }

  lemma SecondAdded(f: ForwardSnapshot, g: ForwardSnapshot, s: State, t: State)
    requires s.forwards == map[f.key := f] && s.blocked == {} && s.services.Keys == {f.serviceKey}
    requires SameService(s.services[f.serviceKey], NewService(f)) && f.serviceKey == g.serviceKey
    requires (f.namespace, f.context) != (g.namespace, g.context) && Does(s, Op.AddForward(g), t)
    ensures !Together(t, f.namespace, f.context)
  {
    hide Agrees, FwdNs.WatcherKey;
    assert t.forwards[g.key] == g && !InPlace(g, f.namespace, f.context);
  }

  ghost predicate AlwaysAgrees(adds: iset<ForwardSnapshot>) {
    forall states, ops, i: nat :: RunAdding(adds, states, ops) && i <= |ops| ==> Agreement(states[i])
  }

  /** Every run of store operations that adds only these forwards keeps the aggregates in agreement, in all its states,
      exactly when the forwards are told apart by their keys. */
  lemma AgreementIff(adds: iset<ForwardSnapshot>)
    ensures AlwaysAgrees(adds) <==> AllApart(adds)
  {
    hide Agreement, Apart, Does;
    if AllApart(adds) {
      forall states, ops, i: nat | RunAdding(adds, states, ops) && i <= |ops|
        ensures Agreement(states[i])
      {
        AgreementInEveryState(adds, states, ops, i);
      }
    } else {
      var f, g :| f in adds && g in adds && !Apart(f, g);
      var states, ops := NotApartBreaks(f, g);
      assert RunAdding(adds, states, ops);
    }
  }

  // ---------- Summary ----------

  /** The sum of a figure over some services. */
  ghost function SumServices(services: Services, keys: set<string>, f: ServiceSnapshot -> int): int
    requires keys <= services.Keys
  {
    if keys == {} then 0
    else
      var k :| k in keys;
      f(services[k]) + SumServices(services, keys - {k}, f)
  }

  function OfAny(m: Forwards, sks: set<string>): set<string> {
    set k | k in m && m[k].serviceKey in sks
  }

  function ServiceIn(svc: ServiceSnapshot): int {
    svc.totalBytesIn
  }

  function ServiceOut(svc: ServiceSnapshot): int {
    svc.totalBytesOut
  }

  function ServiceActive(svc: ServiceSnapshot): int {
    svc.activeCount
  }

  function ServiceErrors(svc: ServiceSnapshot): int {
    svc.errorCount
  }

  lemma OfAnyStep(m: Forwards, sks: set<string>, sk: string, g: ForwardSnapshot -> int)
    requires sk in sks
    ensures Of(m, sk) <= m.Keys && OfAny(m, sks) <= m.Keys && OfAny(m, sks - {sk}) <= m.Keys
    ensures Sum(m, OfAny(m, sks), g) == Sum(m, Of(m, sk), g) + Sum(m, OfAny(m, sks - {sk}), g)
  {
    assert OfAny(m, sks) == Of(m, sk) + OfAny(m, sks - {sk});
    SumUnion(m, Of(m, sk), OfAny(m, sks - {sk}), g);
  }

  /** Summing a count over services sums it over their forwards. */
  lemma {:induction false} CountsByService(services: Services, m: Forwards, sks: set<string>,
                                           f: ServiceSnapshot -> int, g: ForwardSnapshot -> int)
    requires sks <= services.Keys && forall sk :: sk in sks ==> f(services[sk]) == Sum(m, Of(m, sk), g)
    ensures SumServices(services, sks, f) == Sum(m, OfAny(m, sks), g)
    decreases sks
  {
    if sks == {} {
      assert OfAny(m, sks) == {};
    } else {
      var sk := OneService(services, sks, f);
      CountsByService(services, m, sks - {sk}, f, g);
      OfAnyStep(m, sks, sk, g);
    }
  }

  /** Equal up to the wrap-around of the byte counters. */
  ghost predicate Congruent(a: int, b: int) {
    exists q :: Laps(a, b, q)
  }

  predicate Laps(a: int, b: int, q: int) {
    a == b + q * WRAP
  }

  lemma CongruentSum(a: int, b: int, x: int, y: int)
    requires Congruent(a, x) && Congruent(b, y)
    ensures Congruent(a + b, x + y)
  {
    var p :| Laps(a, x, p);
    var q :| Laps(b, y, q);
    assert Laps(a + b, x + y, p + q);
  }

  lemma CongruentMod(a: int, b: int)
    ensures a == b % WRAP ==> Congruent(a, b)
    ensures Congruent(a, b) ==> a % WRAP == b % WRAP
  {
    assert a == b % WRAP ==> Laps(a, b, -(b / WRAP));
    if Congruent(a, b) {
      var q :| Laps(a, b, q);
      assert a == (b / WRAP + q) * WRAP + b % WRAP;
    }
  }

  lemma NoServices(services: Services, m: Forwards, f: ServiceSnapshot -> int, g: ForwardSnapshot -> int)
    ensures SumServices(services, {}, f) == 0 && Sum(m, OfAny(m, {}), g) == 0 && Congruent(0, 0)
  {
    assert OfAny(m, {}) == {};
    CongruentMod(0, 0);
  }

  lemma OneService(services: Services, sks: set<string>, f: ServiceSnapshot -> int) returns (sk: string)
    requires sks <= services.Keys && sks != {}
    ensures sk in sks && SumServices(services, sks, f) == f(services[sk]) + SumServices(services, sks - {sk}, f)
  {
    sk :| sk in sks && SumServices(services, sks, f) == f(services[sk]) + SumServices(services, sks - {sk}, f);
  }

  /** Likewise for wrapping byte totals, up to the wrap-around. */
  lemma {:induction false} BytesByService(services: Services, m: Forwards, sks: set<string>,
                                          f: ServiceSnapshot -> int, g: ForwardSnapshot -> int)
    requires sks <= services.Keys && forall sk :: sk in sks ==> Congruent(f(services[sk]), Sum(m, Of(m, sk), g))
    ensures Congruent(SumServices(services, sks, f), Sum(m, OfAny(m, sks), g))
    decreases sks
  {
    hide Congruent, OfAny, Of, Sum, SumServices;
    if sks == {} {
      NoServices(services, m, f, g);
    } else {
      var sk := OneService(services, sks, f);
      BytesByService(services, m, sks - {sk}, f, g);
      OfAnyStep(m, sks, sk, g);
      CongruentSum(f(services[sk]), SumServices(services, sks - {sk}, f), Sum(m, Of(m, sk), g),
                   Sum(m, OfAny(m, sks - {sk}), g));
    }
  }

  lemma ActiveMeansSome(m: Forwards, keys: set<string>)
    requires keys <= m.Keys
    ensures Sum(m, keys, IsActive) >= 0
    ensures Sum(m, keys, IsActive) > 0 <==> exists k :: k in keys && m[k].status.Active?
    decreases keys
  {
    if k :| k in keys {
      SumStep(m, keys, k, IsActive);
      ActiveMeansSome(m, keys - {k});
    }
  }

  /** Whatever GetSummary returns on a store in agreement: its counts and byte totals are the sums of the per-service
      aggregates, and its active services are the distinct service keys that own an active forward. */
  lemma SummaryConserves(s: State, stats: SummaryStats)
    requires Agreement(s) && Summed(stats, s.forwards, s.forwards.Keys)
             && stats.activeServices == |ActiveKeys(s.services)|
    ensures stats.activeForwards == SumServices(s.services, s.services.Keys, ServiceActive)
    ensures stats.errorCount == SumServices(s.services, s.services.Keys, ServiceErrors)
    ensures stats.totalBytesIn == SumServices(s.services, s.services.Keys, ServiceIn) % WRAP
    ensures stats.totalBytesOut == SumServices(s.services, s.services.Keys, ServiceOut) % WRAP
    ensures stats.activeServices ==
            |set k | k in s.forwards && s.forwards[k].status.Active? :: s.forwards[k].serviceKey|
  {
    hide Sum, Contents;
    AllOfServices(s);
    ActiveServicesAre(s);
    hide Agreement;
    CountsByService(s.services, s.forwards, s.services.Keys, ServiceActive, IsActive);
    CountsByService(s.services, s.forwards, s.services.Keys, ServiceErrors, IsError);
    BytesConserved(s, ServiceIn, InBytes);
    BytesConserved(s, ServiceOut, OutBytes);
  }

  /** Composed over runs: the same of whatever GetSummary returns in any state of any run of store operations that adds
      only forwards told apart by their keys. */
  lemma SummaryInEveryState(adds: iset<ForwardSnapshot>, states: seq<State>, ops: seq<Op>, i: nat, stats: SummaryStats)
    requires AllApart(adds) && RunAdding(adds, states, ops) && i <= |ops|
    requires Summed(stats, states[i].forwards, states[i].forwards.Keys)
    requires stats.activeServices == |ActiveKeys(states[i].services)|
    ensures var s := states[i];
            && stats.activeForwards == SumServices(s.services, s.services.Keys, ServiceActive)
            && stats.errorCount == SumServices(s.services, s.services.Keys, ServiceErrors)
            && stats.totalBytesIn == SumServices(s.services, s.services.Keys, ServiceIn) % WRAP
            && stats.totalBytesOut == SumServices(s.services, s.services.Keys, ServiceOut) % WRAP
            && stats.activeServices ==
               |set k | k in s.forwards && s.forwards[k].status.Active? :: s.forwards[k].serviceKey|
  {
    var s := states[i];
    hide Agreement, AllApart, RunAdding, Summed, ActiveKeys, SumServices;
    AgreementInEveryState(adds, states, ops, i);
    SummaryConserves(s, stats);
  }

  lemma BytesConserved(s: State, f: ServiceSnapshot -> int, g: ForwardSnapshot -> int)
    requires OfAny(s.forwards, s.services.Keys) == s.forwards.Keys
    requires forall sk :: sk in s.services ==> f(s.services[sk]) == Sum(s.forwards, Of(s.forwards, sk), g) % WRAP
    ensures Sum(s.forwards, s.forwards.Keys, g) % WRAP == SumServices(s.services, s.services.Keys, f) % WRAP
  {
    hide Sum, SumServices, OfAny, Congruent;
    forall sk | sk in s.services
      ensures Congruent(f(s.services[sk]), Sum(s.forwards, Of(s.forwards, sk), g))
    {
      CongruentMod(f(s.services[sk]), Sum(s.forwards, Of(s.forwards, sk), g));
    }
    BytesByService(s.services, s.forwards, s.services.Keys, f, g);
    CongruentMod(SumServices(s.services, s.services.Keys, f), Sum(s.forwards, s.forwards.Keys, g));
  }

  lemma AllOfServices(s: State)
    requires Agreement(s)
    ensures OfAny(s.forwards, s.services.Keys) == s.forwards.Keys
    ensures forall sk :: sk in s.services ==> s.services[sk].key == sk && Agrees(s.services[sk], s.forwards)
  {
    hide Agrees;
    assert forall k :: k in s.forwards ==> k in Of(s.forwards, s.forwards[k].serviceKey);
  }

  lemma ActiveServicesAre(s: State)
    requires Agreement(s)
    ensures ActiveKeys(s.services) ==
            set k | k in s.forwards && s.forwards[k].status.Active? :: s.forwards[k].serviceKey
  {
    var owners := set k | k in s.forwards && s.forwards[k].status.Active? :: s.forwards[k].serviceKey;
    forall sk
      ensures sk in ActiveKeys(s.services) <==> sk in owners
    {
      ActiveMeansSome(s.forwards, Of(s.forwards, sk));
      if sk in owners {
        var k :| k in s.forwards && s.forwards[k].status.Active? && s.forwards[k].serviceKey == sk;
        assert k in Of(s.forwards, sk);
      }
    }
  }

  // ---------- Removed namespaces ----------

  /** No forward and no service of the namespace and context is in the store. */
  ghost predicate Invisible(s: State, ns: string, ctx: string) {
    ForwardsIn(s.forwards, ns, ctx) == {} && ServicesIn(s.services, ns, ctx) == {}
  }

  lemma BlockedStaysInvisible(s: State, op: Op, t: State, ns: string, ctx: string)
    requires Invisible(s, ns, ctx) && FwdNs.WatcherKey(ns, ctx) in s.blocked && Does(s, op, t)
    requires op.UnblockNamespace? ==> FwdNs.WatcherKey(op.namespace, op.context) != FwdNs.WatcherKey(ns, ctx)
    ensures Invisible(t, ns, ctx) && FwdNs.WatcherKey(ns, ctx) in t.blocked
  {
    hide FwdNs.WatcherKey, Agrees;
    assert forall k :: k in s.forwards ==> !(s.forwards[k].namespace == ns && s.forwards[k].context == ctx) by {
      assert forall k :: k in s.forwards && s.forwards[k].namespace == ns && s.forwards[k].context == ctx ==>
               k in ForwardsIn(s.forwards, ns, ctx);
    }
    assert forall k :: k in s.services ==> !(s.services[k].namespace == ns && s.services[k].context == ctx) by {
      assert forall k :: k in s.services && s.services[k].namespace == ns && s.services[k].context == ctx ==>
               k in ServicesIn(s.services, ns, ctx);
    }
  }

  /** Once a namespace is removed, no run of store operations makes a forward or service of it visible before it is
      unblocked. Namespaces are labels without dots, so no other namespace's unblock lifts its block. */
  lemma {:induction false} RemovedStaysInvisible(states: seq<State>, ops: seq<Op>, i: nat, ns: string, ctx: string)
    requires Steps(states, ops) && |ops| > 0 && ops[0] == Op.RemoveByNamespace(ns, ctx) && FwdNs.DotFree(ns)
    requires forall j :: 0 <= j < |ops| && ops[j].UnblockNamespace? ==>
               FwdNs.DotFree(ops[j].namespace) && (ops[j].namespace, ops[j].context) != (ns, ctx)
    requires 0 < i <= |ops|
    ensures Invisible(states[i], ns, ctx) && FwdNs.WatcherKey(ns, ctx) in states[i].blocked
  {
    hide FwdNs.WatcherKey;
    if i == 1 {
      assert Does(states[0], ops[0], states[1]);
    } else {
      RemovedStaysInvisible(states, ops, i - 1, ns, ctx);
      var op := ops[i - 1];
      if op.UnblockNamespace? {
        FwdNs.WatcherKeyUnique(op.namespace, op.context, ns, ctx);
      }
      hide Does, Invisible;
      BlockedStaysInvisible(states[i - 1], op, states[i], ns, ctx);
    }
  }

  /** Removing a namespace leaves every other namespace's forwards, services and block status as they were. */
  lemma RemoveLeavesOthers(s: State, t: State, ns: string, ctx: string, ns': string, ctx': string)
    requires Does(s, Op.RemoveByNamespace(ns, ctx), t) && (ns', ctx') != (ns, ctx) && FwdNs.DotFree(ns)
             && FwdNs.DotFree(ns')
    ensures forall k :: k in ForwardsIn(s.forwards, ns', ctx') <==> k in ForwardsIn(t.forwards, ns', ctx')
    ensures forall k :: k in ForwardsIn(s.forwards, ns', ctx') ==> t.forwards[k] == s.forwards[k]
    ensures forall k :: k in ServicesIn(s.services, ns', ctx') <==> k in ServicesIn(t.services, ns', ctx')
    ensures forall k :: k in ServicesIn(s.services, ns', ctx') ==> t.services[k] == s.services[k]
    ensures FwdNs.WatcherKey(ns', ctx') in t.blocked <==> FwdNs.WatcherKey(ns', ctx') in s.blocked
  {
    FwdNs.WatcherKeyUnique(ns, ctx, ns', ctx');
  }
}
