// How bus events drive the state store: handleEventForStore and handlePodStatusChanged of pkg/fwdtui/ui.go for the
// standalone store, whose filter is never set, and handleKubefwdEvent, which does the same for the TUI's own store.
module StoreEvents {
  import opened Text
  import opened StateStore
  import opened StateStoreProperties
  import opened EventKeys
  import FwdNs

  datatype Event =
    | PodAdded(serviceKey: string, podName: string, localPort: string, registryKey: string, service: string,
               namespace: string, context: string, containerName: string, localIP: string, podPort: string,
               hostnames: seq<string>)
    | PodRemoved(serviceKey: string, podName: string, localPort: string)
    | PodStatusChanged(serviceKey: string, podName: string, localPort: string, status: string, error: Option<string>,
                       hostnames: seq<string>)
    | ServiceRemoved(serviceKey: string)
    | NamespaceRemoved(namespace: string, context: string)
    | Ignored

  function StatusOf(s: string): Status {
    if s == "connecting" then Connecting
    else if s == "active" then Active
    else if s == "error" then Error
    else if s == "stopping" then Stopping
    else Pending
  }

  function SnapshotOf(e: Event): ForwardSnapshot
    requires e.PodAdded?
  {
    ForwardSnapshot(ForwardKey(e.serviceKey, e.podName, e.localPort), e.serviceKey, e.registryKey, e.service,
                    e.namespace, e.context, false, e.podName, e.containerName, e.localIP, e.localPort, e.podPort,
                    e.hostnames, Connecting, "", 0, 0)
  }

  ghost predicate RemovesEach(ops: seq<Op>, keys: set<string>) {
    && (forall op :: op in ops ==> op.RemoveForward? && op.key in keys)
    && (forall k :: k in keys ==> Op.RemoveForward(k) in ops)
  }

  /** The store operations an event stands for. */
  ghost predicate OpsOf(e: Event, s: State, filter: string, ops: seq<Op>) {
    match e
    case PodAdded(_, _, _, _, _, _, _, _, _, _, _) => ops == [Op.AddForward(SnapshotOf(e))]
    case PodRemoved(sk, pod, port) => ops == [Op.RemoveForward(ForwardKey(sk, pod, port))]
    case PodStatusChanged(sk, pod, port, status, error, hostnames) =>
      var key := ForwardKey(sk, pod, port);
      ops == [Op.UpdateStatus(key, StatusOf(status), if error.Some? then error.value else "")]
             + (if status == "active" && hostnames != [] then [Op.UpdateHostnames(key, hostnames)] else [])
    case ServiceRemoved(sk) => RemovesEach(ops, Shown(s.forwards, filter, sk))
    case NamespaceRemoved(ns, ctx) => ops == [Op.RemoveByNamespace(ns, ctx)]
    case Ignored => ops == []
  }

  /** The run of store operations through which an event takes one state to another. */
  ghost predicate Handles(e: Event, filter: string, states: seq<State>, ops: seq<Op>, s: State, t: State) {
    Steps(states, ops) && states[0] == s && states[|ops|] == t && OpsOf(e, s, filter, ops)
  }

  lemma OneOp(e: Event, filter: string, s: State, op: Op, t: State)
    requires Does(s, op, t) && OpsOf(e, s, filter, [op])
    ensures Handles(e, filter, [s, t], [op], s, t)
  {
    hide Does, OpsOf;
  }

  method HandleEventForStore(store: Store, e: Event) returns (ghost states: seq<State>, ghost ops: seq<Op>)
    modifies store`forwards, store`services, store`blocked
    ensures Handles(e, store.filter, states, ops, old(store.St()), store.St())
  {
    hide Does, Handles, SnapshotOf, ForwardKey;
    ghost var before := store.St();
    match e
    case PodAdded(_, _, _, _, _, _, _, _, _, _, _) =>
      var snapshot := SnapshotOf(e);
      store.AddForward(snapshot);
      OneOp(e, store.filter, before, Op.AddForward(snapshot), store.St());
      states, ops := [before, store.St()], [Op.AddForward(snapshot)];
    case PodRemoved(sk, pod, port) =>
      var key := ForwardKey(sk, pod, port);
      store.RemoveForward(key);
      OneOp(e, store.filter, before, Op.RemoveForward(key), store.St());
      states, ops := [before, store.St()], [Op.RemoveForward(key)];
    case PodStatusChanged(_, _, _, _, _, _) =>
      states, ops := HandlePodStatusChanged(store, e);
    case ServiceRemoved(sk) =>
      states, ops := RemoveShown(store, sk);
    case NamespaceRemoved(ns, ctx) =>
      var _ := store.RemoveByNamespace(ns, ctx);
      OneOp(e, store.filter, before, Op.RemoveByNamespace(ns, ctx), store.St());
      states, ops := [before, store.St()], [Op.RemoveByNamespace(ns, ctx)];
    case Ignored =>
      states, ops := [before], [];
      NoOp(store.filter, before);
  }

  lemma NoOp(filter: string, s: State)
    ensures Handles(Ignored, filter, [s], [], s, s)
  {
  }

  method HandlePodStatusChanged(store: Store, e: Event) returns (ghost states: seq<State>, ghost ops: seq<Op>)
    requires e.PodStatusChanged?
    modifies store`forwards, store`services
    ensures Handles(e, store.filter, states, ops, old(store.St()), store.St())
  {
    hide Does;
    states := [store.St()];
    var key := ForwardKey(e.serviceKey, e.podName, e.localPort);
    var status := StatusOf(e.status);
    var errorMsg := if e.error.Some? then e.error.value else "";
    store.UpdateStatus(key, status, errorMsg);
    states, ops := states + [store.St()], [Op.UpdateStatus(key, status, errorMsg)];
    if e.status == "active" && e.hostnames != [] {
      store.UpdateHostnames(key, e.hostnames);
      states, ops := states + [store.St()], ops + [Op.UpdateHostnames(key, e.hostnames)];
    }
  }

  // The ServiceRemoved case: remove, one by one, the forwards of the service among those GetFiltered returned.
  method RemoveShown(store: Store, serviceKey: string) returns (ghost states: seq<State>, ghost ops: seq<Op>)
    modifies store`forwards, store`services
    ensures Handles(ServiceRemoved(serviceKey), store.filter, states, ops, old(store.St()), store.St())
  {
    hide Does;
    states, ops := [store.St()], [];
    var shown := Shown(store.forwards, store.filter, serviceKey);
    var rest := shown;
    while rest != {}
      invariant rest <= shown && Steps(states, ops) && states[0] == old(store.St()) && states[|ops|] == store.St()
      invariant RemovesEach(ops, shown - rest)
      decreases rest
    {
      var key :| key in rest;
      rest := rest - {key};
      store.RemoveForward(key);
      ghost var before := ops;
      states, ops := states + [store.St()], ops + [Op.RemoveForward(key)];
      assert ops[|before|] == Op.RemoveForward(key) && forall i :: 0 <= i < |before| ==> ops[i] == before[i];
    }
  }

  /** Removing forwards one by one removes exactly those keys. */
  lemma {:induction false} RemovalsRemove(states: seq<State>, ops: seq<Op>, i: nat)
    requires Steps(states, ops) && i <= |ops| && forall op :: op in ops ==> op.RemoveForward?
    ensures states[i].forwards == states[0].forwards - set op | op in ops[..i] :: op.key
  {
    if i > 0 {
      RemovalsRemove(states, ops, i - 1);
      assert ops[..i] == ops[..i - 1] + [ops[i - 1]];
      assert Does(states[i - 1], ops[i - 1], states[i]);
      assert (set op | op in ops[..i] :: op.key) == (set op | op in ops[..i - 1] :: op.key) + {ops[i - 1].key};
    }
  }

  /** With every forward under its own key, as in every reachable state, a ServiceRemoved event leaves none of the
      service's forwards exactly when they all pass the display filter. */
  lemma ServiceRemovedIff(serviceKey: string, filter: string, states: seq<State>, ops: seq<Op>, s: State, t: State)
    requires Handles(ServiceRemoved(serviceKey), filter, states, ops, s, t)
    requires forall k :: k in s.forwards ==> s.forwards[k].key == k
    ensures t.forwards == s.forwards - Shown(s.forwards, filter, serviceKey)
    ensures Of(t.forwards, serviceKey) == {} <==>
            forall k :: k in Of(s.forwards, serviceKey) ==> MatchesFilter(s.forwards[k], filter)
  {
    RemovalsRemove(states, ops, |ops|);
    var shown := Shown(s.forwards, filter, serviceKey);
    assert ops[..|ops|] == ops;
    assert (set op | op in ops :: op.key) == shown by {
      forall k | k in shown
        ensures k in (set op | op in ops :: op.key)
      {
        assert Op.RemoveForward(k) in ops;
      }
    }
    forall k | k in Of(s.forwards, serviceKey) && !MatchesFilter(s.forwards[k], filter)
      ensures k in Of(t.forwards, serviceKey)
    {
    }
  }

  ghost predicate HandlesOne(e: Event, filter: string, s: State, t: State) {
    exists states, ops :: Handles(e, filter, states, ops, s, t)
  }

  lemma {:induction false} OpsKeepInvisible(states: seq<State>, ops: seq<Op>, i: nat, ns: string, ctx: string)
    requires Steps(states, ops) && i <= |ops| && forall op :: op in ops ==> !op.UnblockNamespace?
    requires Invisible(states[0], ns, ctx) && FwdNs.WatcherKey(ns, ctx) in states[0].blocked
    ensures Invisible(states[i], ns, ctx) && FwdNs.WatcherKey(ns, ctx) in states[i].blocked
  {
    hide Does, Invisible, FwdNs.WatcherKey;
    if i > 0 {
      OpsKeepInvisible(states, ops, i - 1, ns, ctx);
      BlockedStaysInvisible(states[i - 1], ops[i - 1], states[i], ns, ctx);
    }
  }

  /** No sequence of events, under whatever display filters, makes anything of a blocked, invisible namespace
      visible. */
  lemma {:induction false} EventsCannotResurrect(states: seq<State>, events: seq<Event>, filters: seq<string>,
                                                 i: nat, ns: string, ctx: string)
    requires |states| == |events| + 1 && |filters| == |events| && i <= |events|
    requires forall j :: 0 <= j < |events| ==> HandlesOne(events[j], filters[j], states[j], states[j + 1])
    requires Invisible(states[0], ns, ctx) && FwdNs.WatcherKey(ns, ctx) in states[0].blocked
    ensures Invisible(states[i], ns, ctx) && FwdNs.WatcherKey(ns, ctx) in states[i].blocked
  {
    hide Invisible, FwdNs.WatcherKey, Steps, Does;
    if i > 0 {
      EventsCannotResurrect(states, events, filters, i - 1, ns, ctx);
      assert HandlesOne(events[i - 1], filters[i - 1], states[i - 1], states[i]);
      var mid, ops :| Handles(events[i - 1], filters[i - 1], mid, ops, states[i - 1], states[i]);
      OpsKeepInvisible(mid, ops, |ops|, ns, ctx);
    }
  }

  /** On a store without filter, as the standalone one, a ServiceRemoved event removes every forward of the service. */
  lemma ServiceRemovedUnfiltered(serviceKey: string, states: seq<State>, ops: seq<Op>, s: State, t: State)
    requires Handles(ServiceRemoved(serviceKey), "", states, ops, s, t)
    requires forall k :: k in s.forwards ==> s.forwards[k].key == k
    ensures Of(t.forwards, serviceKey) == {}
  {
    hide Handles;
    ServiceRemovedIff(serviceKey, "", states, ops, s, t);
  }

  const WEB := PodAdded("web.ns.ctx", "web-1", "80", "web.ns.ctx", "web", "ns", "ctx", "", "", "80", [])

  lemma NoMatch()
    ensures !MatchesFilter(SnapshotOf(WEB), "db")
  {
    hide Contains;
    assert ToLower("web") == "web" && ToLower("ns") == "ns" && ToLower("web-1") == "web-1";
    NotIn("web", 'd', "b");
    NotIn("ns", 'd', "b");
    NotIn("web-1", 'd', "b");
    assert ['d'] + "b" == "db";
  }

  lemma {:induction false} NotIn(s: string, c: char, rest: string)
    requires c !in s
    ensures !Contains(s, [c] + rest)
  {
    if s != [] {
      assert s[0] in s;
      NotIn(s[1..], c, rest);
    }
  }

  // ---------- Agreement over event runs ----------

  /** A PodAdded event as NewPodEvent builds it: the namespace is a label, the local port a number. */
  predicate Built(e: Event) {
    e.PodAdded? && e.serviceKey == ServiceKey(e.service, e.namespace, e.context)
    && FwdNs.DotFree(e.namespace) && FwdNs.DotFree(e.localPort)
  }

  /** Where the keys of two events collide, the pods, and the services, have names with as many dots. */
  predicate DotsAgree(e: Event, e': Event)
    requires Built(e) && Built(e')
  {
    && (SnapshotOf(e).key == SnapshotOf(e').key ==> Dots(e.podName) == Dots(e'.podName))
    && (e.serviceKey == e'.serviceKey ==> Dots(e.service) == Dots(e'.service))
  }

  lemma ApartIff(e: Event, e': Event)
    requires Built(e) && Built(e')
    ensures Apart(SnapshotOf(e), SnapshotOf(e')) <==> DotsAgree(e, e')
  {
    hide ServiceKey, ForwardKey, Dots;
    if SnapshotOf(e).key == SnapshotOf(e').key {
      ForwardKeyShared(e.serviceKey, e.podName, e.localPort, e'.serviceKey, e'.podName, e'.localPort);
    }
    if e.serviceKey == e'.serviceKey {
      ServiceKeyShared(e.service, e.namespace, e.context, e'.service, e'.namespace, e'.context);
    }
  }

  ghost predicate EventRun(states: seq<State>, events: seq<Event>, filters: seq<string>) {
    && |states| == |events| + 1 && |filters| == |events| && states[0] == EMPTY_STORE
    && forall j :: 0 <= j < |events| ==> HandlesOne(events[j], filters[j], states[j], states[j + 1])
  }

  /** On the TUI's store with the filter "db", removing the service "web" leaves its forward there. */
  lemma FilteredForwardSurvives() returns (states: seq<State>)
    ensures EventRun(states, [WEB, ServiceRemoved("web.ns.ctx")], ["db", "db"])
    ensures WEB.PodAdded? && SnapshotOf(WEB).serviceKey == "web.ns.ctx" && SnapshotOf(WEB).key in states[2].forwards
  {
    hide FwdNs.WatcherKey, Agrees, SnapshotOf, OpsOf, Does, Steps;
    var f := SnapshotOf(WEB);
    WebSnapshot();
    var added := CanAdd(EMPTY_STORE, f);
    FirstAdded(f, added);
    OneOp(WEB, "db", EMPTY_STORE, Op.AddForward(f), added);
    NothingShown(added);
    assert Handles(ServiceRemoved("web.ns.ctx"), "db", [added], [], added, added);
    states := [EMPTY_STORE, added, added];
    assert HandlesOne(WEB, "db", states[0], states[1])
           && HandlesOne(ServiceRemoved("web.ns.ctx"), "db", states[1], states[2]);
  }

  lemma WebSnapshot()
    ensures SnapshotOf(WEB).serviceKey == "web.ns.ctx"
            && forall s :: OpsOf(WEB, s, "db", [Op.AddForward(SnapshotOf(WEB))])
  {
  }

  lemma NothingShown(s: State)
    requires s.forwards == map[SnapshotOf(WEB).key := SnapshotOf(WEB)]
    ensures OpsOf(ServiceRemoved("web.ns.ctx"), s, "db", []) && Steps([s], [])
  {
    NoMatch();
    assert Shown(s.forwards, "db", "web.ns.ctx") == {};
  }

  lemma HandlingKeepsInv(nm: Naming, e: Event, filter: string, s: State, t: State)
    requires Inv(nm, s) && HandlesOne(e, filter, s, t) && (e.PodAdded? ==> Follows(nm, SnapshotOf(e)))
    ensures Inv(nm, t)
  {
    hide Inv, Follows, Does, SnapshotOf;
    var states, ops :| Handles(e, filter, states, ops, s, t);
    RunKeepsInv(nm, states, ops, |ops|);
  }

  lemma {:induction false} EventsKeepInv(nm: Naming, states: seq<State>, events: seq<Event>, filters: seq<string>,
                                         i: nat)
    requires EventRun(states, events, filters) && i <= |events|
    requires forall e :: e in events && e.PodAdded? ==> Follows(nm, SnapshotOf(e))
    ensures Inv(nm, states[i])
  {
    hide Inv, Follows, HandlesOne, SnapshotOf;
    if i == 0 {
      EmptyInv(nm);
    } else {
      EventsKeepInv(nm, states, events, filters, i - 1);
      HandlingKeepsInv(nm, events[i - 1], filters[i - 1], states[i - 1], states[i]);
    }
  }

  /** Over every run of events, under whatever filters, in which the events' keys do not collide, the service aggregates
      agree with the forwards in every state. */
  lemma AgreementOverEvents(states: seq<State>, events: seq<Event>, filters: seq<string>, i: nat)
    requires EventRun(states, events, filters) && i <= |events|
    requires forall e :: e in events && e.PodAdded? ==> Built(e)
    requires forall e, e' :: e in events && e' in events && Built(e) && Built(e') ==> DotsAgree(e, e')
    ensures Agreement(states[i])
  {
    hide Follows, EventRun, DotsAgree, Apart, SnapshotOf, Agreement;
    var adds := iset e | e in events && Built(e) :: SnapshotOf(e);
    forall f, g | f in adds && g in adds
      ensures Apart(f, g)
    {
      var e :| e in events && Built(e) && SnapshotOf(e) == f;
      var e' :| e' in events && Built(e') && SnapshotOf(e') == g;
      ApartIff(e, e');
    }
    var nm := NamedApart(adds);
    EventsKeepInv(nm, states, events, filters, i);
  }

  /** Any two events whose keys collide break the agreement: one after the other, and if it is the service key that
      collides, with the first one's namespace removed after that. */
  lemma CollisionBreaks(e: Event, e': Event) returns (states: seq<State>, events: seq<Event>)
    requires Built(e) && Built(e') && !DotsAgree(e, e')
    ensures events == [e, e'] + (if e.serviceKey == e'.serviceKey then [NamespaceRemoved(e.namespace, e.context)]
                                 else [])
    ensures EventRun(states, events, seq(|events|, _ => "")) && !Agreement(states[|events|])
  {
    hide Does, Agreement, Apart;
    ApartIff(e, e');
    var ops;
    states, ops := NotApartBreaks(SnapshotOf(e), SnapshotOf(e'));
    events := [e, e'] + (if e.serviceKey == e'.serviceKey then [NamespaceRemoved(e.namespace, e.context)] else []);
    forall j | 0 <= j < |events|
      ensures HandlesOne(events[j], "", states[j], states[j + 1])
    {
      assert Does(states[j], ops[j], states[j + 1]);
      OneOp(events[j], "", states[j], ops[j], states[j + 1]);
    }
  }

  function NewPod(service: string, namespace: string, context: string, podName: string): Event {
    PodAdded(ServiceKey(service, namespace, context), podName, "80", "", service, namespace, context, "", "", "80", [])
  }

  lemma DottedPodTexts()
    ensures SnapshotOf(NewPod("s", "n", "c", "x.y")).key == SnapshotOf(NewPod("s", "n", "c.x", "y")).key ==
            "s.n.c.x.y.80"
    ensures ServiceKey("s", "n", "c") == "s.n.c" && ServiceKey("s", "n", "c.x") == "s.n.c.x"
    ensures Dots("x.y") == 1 && Dots("y") == 0
  {
    DotsJoin("x", "y");
    DotsNone("x");
    DotsNone("y");
    assert "x" + "." + "y" == "x.y";
  }

  /** A pod "x.y" in context "c" and a pod "y" in context "c.x" share the forward key "s.n.c.x.y.80". */
  lemma DottedPodCollides() returns (states: seq<State>, events: seq<Event>)
    ensures events == [NewPod("s", "n", "c", "x.y"), NewPod("s", "n", "c.x", "y")]
    ensures EventRun(states, events, ["", ""]) && !Agreement(states[2])
  {
    hide Agreement, EventRun, Dots, SnapshotOf, ServiceKey, ForwardKey;
    DottedPodTexts();
    states, events := CollisionBreaks(NewPod("s", "n", "c", "x.y"), NewPod("s", "n", "c.x", "y"));
    assert seq(2, _ => "") == ["", ""];
  }

  lemma HeadlessServiceTexts()
    ensures ServiceKey("pod.svc", "ns", "ctx") == ServiceKey("pod", "svc", "ns.ctx") == "pod.svc.ns.ctx"
    ensures Dots("pod.svc") == 1 && Dots("pod") == 0
  {
    DotsJoin("pod", "svc");
    DotsNone("pod");
    DotsNone("svc");
    assert "pod" + "." + "svc" == "pod.svc";
  }

  /** Pod "pod" of the headless service "svc" in "ns" of "ctx", and the service "pod" in "svc" of "ns.ctx", share the
      service key "pod.svc.ns.ctx"; removing one's namespace takes the other's service with it. */
  lemma HeadlessServiceCollides() returns (states: seq<State>, events: seq<Event>)
    ensures events == [NewPod("pod.svc", "ns", "ctx", "pod"), NewPod("pod", "svc", "ns.ctx", "pod-1"),
                       NamespaceRemoved("ns", "ctx")]
    ensures EventRun(states, events, ["", "", ""]) && !Agreement(states[3])
  {
    hide Agreement, EventRun, Dots, SnapshotOf, ServiceKey, ForwardKey;
    HeadlessServiceTexts();
    states, events := CollisionBreaks(NewPod("pod.svc", "ns", "ctx", "pod"), NewPod("pod", "svc", "ns.ctx", "pod-1"));
    assert seq(3, _ => "") == ["", "", ""];
  }
}
