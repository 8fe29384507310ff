// The sequential pod sync of pkg/fwdservice/fwdservice.go: which forwards a service keeps, stops and starts.
module PodReconciler {
  import opened Text
  import opened ForwardMap
  import opened EventKeys
  import opened PodPorts

  datatype PodPhase = Pending | Up | Down

  datatype Pod = Pod(name: string, phase: PodPhase, deleting: bool, anyReady: bool, containers: seq<Container>)

  datatype ServiceSpec = ServiceSpec(ports: seq<ServicePort>, headless: bool)

  predicate IsPodEligible(p: Pod) {
    !p.phase.Down? && !p.deleting
  }

  predicate IsPodReady(p: Pod) {
    p.phase.Pending? || p.anyReady
  }

  function EligiblePods(listed: seq<Pod>): seq<Pod> {
    if listed == [] then []
    else
      var front, last := EligiblePods(listed[..|listed| - 1]), listed[|listed| - 1];
      if IsPodEligible(last) && IsPodReady(last) then front + [last] else front
  }

  /** A pod is in the answer exactly when it is listed, pending or running, not being deleted, and pending or with a
      ready container. */
  lemma {:induction false} EligiblePodsAre(listed: seq<Pod>)
    ensures forall p :: p in EligiblePods(listed) <==>
              p in listed && !p.deleting && (p.phase == Pending || (p.phase == Up && p.anyReady))
  {
    if listed != [] {
      EligiblePodsAre(listed[..|listed| - 1]);
      assert listed == listed[..|listed| - 1] + [listed[|listed| - 1]];
    }
  }

  /** The answer keeps the order of the list. */
  lemma {:induction false} EligiblePodsInOrder(a: seq<Pod>, b: seq<Pod>)
    ensures EligiblePods(a + b) == EligiblePods(a) + EligiblePods(b)
  {
    if b == [] {
      assert a + b == a;
    } else {
      var m := |b| - 1;
      assert (a + b)[..|a + b| - 1] == a + b[..m] && (a + b)[|a + b| - 1] == b[m];
      EligiblePodsInOrder(a, b[..m]);
    }
  }

  lemma EligibleOne(p: Pod)
    ensures EligiblePods([p]) ==
            if !p.deleting && (p.phase == Pending || (p.phase == Up && p.anyReady)) then [p] else []
  {
    assert [p][..0] == [];
  }

  function Names(pods: seq<Pod>): set<string> {
    set p | p in pods :: p.name
  }

  class PortForward {
    const service: string
    const podName: string
    const localPort: string
    const targetPort: string      // as the service spells it
    const podPort: string         // as found in the pod
    const containerName: string
    var stopOnce: bool
    var manualStopClosed: bool
    var doneClosed: bool

    function Key(): string {
      ForwardKey(service, podName, localPort)
    }

    constructor (service: string, podName: string, localPort: string, targetPort: string, podPort: string,
                 containerName: string)
      ensures this.service == service && this.podName == podName
      ensures this.localPort == localPort && this.targetPort == targetPort
      ensures this.podPort == podPort && this.containerName == containerName
      ensures !stopOnce && !manualStopClosed && !doneClosed
    {
      this.service, this.podName, this.localPort, this.targetPort := service, podName, localPort, targetPort;
      this.podPort, this.containerName := podPort, containerName;
      stopOnce, manualStopClosed, doneClosed := false, false, false;
    }

    method Stop()
      modifies this`stopOnce, this`manualStopClosed
      ensures stopOnce
      ensures manualStopClosed == (old(manualStopClosed) || (!old(stopOnce) && !old(doneClosed)))
    {
      if !stopOnce {
        stopOnce := true;
        if doneClosed || manualStopClosed {
          return;
        }
        manualStopClosed := true;
      }
    }

    // The forward's own goroutine closing DoneChan once it has been told to stop.
    method Finish()
      requires stopOnce
      modifies this`doneClosed
      ensures doneClosed
    {
      doneClosed := true;
    }
  }

  /** The forwards of the named pods. */
  function Kept(m: map<string, PortForward>, pods: set<string>): map<string, PortForward> {
    map k | k in m && m[k].podName in pods :: m[k]
  }

  lemma KeptAre(m: map<string, PortForward>, pods: set<string>)
    ensures forall k :: k in Kept(m, pods) <==> k in m && m[k].podName in pods
    ensures forall k :: k in Kept(m, pods) ==> Kept(m, pods)[k] == m[k]
  {
  }

  /** The entries left of a snapshot. */
  ghost predicate Without(m: map<string, PortForward>, infos: map<string, PortForward>, gone: set<string>) {
    m == infos - gone
  }

  lemma WithoutNone(infos: map<string, PortForward>)
    ensures Without(infos, infos, {})
  {
  }

  lemma WithoutMore(m: map<string, PortForward>, infos: map<string, PortForward>, gone: set<string>, key: string)
    requires Without(m, infos, gone) && key in infos && key !in gone
    ensures key in m && m[key] == infos[key] && Without(m - {key}, infos, gone + {key})
  {
    assert m - {key} == infos - (gone + {key});
  }

  lemma WithoutOthers(m: map<string, PortForward>, infos: map<string, PortForward>, gone: set<string>,
                      pods: set<string>)
    requires Without(m, infos, gone) && forall k :: k in infos ==> (k in gone <==> infos[k].podName !in pods)
    ensures m == Kept(infos, pods) && forall k :: k in infos ==> (k in m <==> k !in gone)
  {
    KeptAre(infos, pods);
  }

  lemma DistinctObjects(m: map<string, PortForward>)
    requires forall k :: k in m ==> m[k].Key() == k
    ensures forall k, k' :: k in m && k' in m && m[k] == m[k'] ==> k == k'
  {
  }

  /** What LoopPodsToForward builds for one port of one pod; `prefixed` puts the pod name in front of the service. */
  predicate BuiltFor(f: PortForward, name: string, portMap: seq<PortMapping>, prefixed: bool, pod: string,
                     port: ServicePort) {
    && Forwardable(portMap, port)
    && f.service == (if prefixed then pod + "." + name else name)
    && f.podName == pod
    && f.localPort == LocalPort(portMap, port)
    && f.targetPort == port.targetPort
  }

  predicate ResolvedIn(f: PortForward, pod: Pod) {
    pod.name == f.podName && (f.podPort, f.containerName) == PodPort(pod.containers, f.targetPort)
  }

  lemma BuiltFrom(f: PortForward, name: string, portMap: seq<PortMapping>, prefixed: bool, pod: Pod, port: ServicePort)
    requires Forwardable(portMap, port) && f.service == (if prefixed then pod.name + "." + name else name)
    requires f.podName == pod.name && f.localPort == LocalPort(portMap, port) && f.targetPort == port.targetPort
    requires (f.podPort, f.containerName) == PodPort(pod.containers, port.targetPort)
    ensures BuiltFor(f, name, portMap, prefixed, pod.name, port) && ResolvedIn(f, pod)
  {
    hide PodPort, Forwardable, LocalPort;
  }

  /** Each forward goes to the port and container that the search finds in its pod. */
  ghost predicate Resolved(spawned: seq<PortForward>, pods: seq<Pod>) {
    forall f :: f in spawned ==> exists pod :: pod in pods && ResolvedIn(f, pod)
  }

  lemma ResolvedMore(a: seq<PortForward>, b: seq<PortForward>, p: seq<Pod>, q: seq<Pod>)
    requires Resolved(a, p) && Resolved(b, q)
    ensures Resolved(a + b, p + q)
    ensures forall pods :: (forall pod :: pod in q ==> pod in pods) ==> Resolved(b, pods)
  {
    hide ResolvedIn;
    forall f | f in a + b
      ensures exists pod :: pod in p + q && ResolvedIn(f, pod)
    {
      if f in a {
        var pod :| pod in p && ResolvedIn(f, pod);
        assert pod in p + q;
      } else {
        var pod :| pod in q && ResolvedIn(f, pod);
        assert pod in p + q;
      }
    }
  }

  /** The keys a pod's forwardable ports have. */
  function PodKeys(name: string, portMap: seq<PortMapping>, ports: seq<ServicePort>, prefixed: bool,
                   pod: string): set<string> {
    set p | p in ports && Forwardable(portMap, p) ::
      ForwardKey(if prefixed then pod + "." + name else name, pod, LocalPort(portMap, p))
  }

  class ServiceFWD {
    const name: string
    const portMap: seq<PortMapping>
    const registered: ServiceSpec
    var updatedSpec: Option<ServiceSpec>
    var portForwards: map<string, PortForward>

    constructor (name: string, portMap: seq<PortMapping>, registered: ServiceSpec)
      ensures this.name == name && this.portMap == portMap && this.registered == registered
      ensures updatedSpec == None && Spec() == registered && portForwards == map[] && Valid()
    {
      this.name, this.portMap, this.registered := name, portMap, registered;
      updatedSpec, portForwards := None, map[];
    }

    function Spec(): ServiceSpec
      reads this
    {
      if updatedSpec.Some? then updatedSpec.value else registered
    }

    ghost predicate Valid()
      reads this
    {
      forall k :: k in portForwards ==> portForwards[k].Key() == k && portForwards[k].podName != ""
    }

    method AddServicePod(pfo: PortForward) returns (isNew: bool)
      requires Valid() && pfo.podName != ""
      modifies this`portForwards
      ensures Valid() && portForwards == Added(old(portForwards), pfo.Key(), pfo)
      ensures isNew <==> pfo.Key() !in old(portForwards)
    {
      var key := pfo.Key();
      isNew := key !in portForwards;
      if isNew {
        portForwards := portForwards[key := pfo];
      }
    }

    method RemoveOwnForward(pfo: PortForward)
      requires Valid()
      modifies this`portForwards
      ensures Valid() && portForwards == RemovedOwn(old(portForwards), pfo.Key(), pfo)
    {
      var key := pfo.Key();
      if key in portForwards && portForwards[key] == pfo {
        portForwards := portForwards - {key};
      }
    }

    /** Empty the map, then tell every forward that was in it to stop. */
    method StopAllPortForwards() returns (forwards: set<PortForward>)
      modifies this`portForwards, portForwards.Values
      ensures Valid() && portForwards == map[]
      ensures forwards == old(portForwards.Values)
      ensures forall f :: f in forwards ==> f.stopOnce
    {
      forwards := portForwards.Values;
      portForwards := map[];
      var rest := forwards;
      while rest != {}
        invariant rest <= forwards && portForwards == map[]
        invariant forall f :: f in forwards - rest ==> f.stopOnce
        decreases rest
      {
        var f :| f in rest;
        f.Stop();
        rest := rest - {f};
      }
    }

    /** Stop the entry of a key, wait until it is done, and delete the key. */
    method RemoveServicePod(key: string)
      requires Valid()
      modifies this`portForwards, if key in portForwards then {portForwards[key]} else {}
      ensures Valid() && portForwards == old(portForwards) - {key}
      ensures key in old(portForwards) ==> old(portForwards)[key].stopOnce && old(portForwards)[key].doneClosed
    {
      if key in portForwards {
        var pod := portForwards[key];
        pod.Stop();
        pod.Finish();
        portForwards := portForwards - {key};
      }
    }

    /** The loops of removeStaleForwards and syncNormalService: over a snapshot of the entries, in any order,
        remove those whose pod is not to be kept. */
    method RemoveAllBut(pods: set<string>)
      requires Valid()
      modifies this`portForwards, portForwards.Values
      ensures Valid() && portForwards == Kept(old(portForwards), pods)
      ensures forall k :: k in old(portForwards) && k in portForwards ==> unchanged(old(portForwards)[k])
      ensures forall k :: k in old(portForwards) && k !in portForwards ==>
                old(portForwards)[k].stopOnce && old(portForwards)[k].doneClosed
    {
      var infos := portForwards;
      DistinctObjects(infos);
      hide PortForward.Key, Kept, Without, Valid;
      WithoutNone(infos);
      var rest := infos.Keys;
      ghost var gone: set<string> := {};
      while rest != {}
        invariant rest <= infos.Keys && gone <= infos.Keys - rest && Valid()
        invariant Without(portForwards, infos, gone)
        invariant forall k :: k in infos && k !in rest ==> (k in gone <==> infos[k].podName !in pods)
        invariant forall k :: k in infos && k !in gone ==> unchanged(infos[k])
        invariant forall k :: k in gone ==> infos[k].stopOnce && infos[k].doneClosed
        decreases rest
      {
        var key :| key in rest;
        rest := rest - {key};
        if infos[key].podName !in pods {
          WithoutMore(portForwards, infos, gone, key);
          RemoveServicePod(key);
          gone := gone + {key};
        }
      }
      WithoutOthers(portForwards, infos, gone, pods);
    }

    /** The pod of some forward whose pod is eligible, or "" when there is none. */
    method FindPodNameToKeep(pods: seq<Pod>) returns (pod: string)
      ensures if exists k :: k in portForwards && portForwards[k].podName in Names(pods)
              then pod in Names(pods) && exists k :: k in portForwards && portForwards[k].podName == pod
              else pod == ""
    {
      var rest := portForwards.Keys;
      while rest != {}
        invariant rest <= portForwards.Keys
        invariant forall k :: k in portForwards && k !in rest ==> portForwards[k].podName !in Names(pods)
        decreases rest
      {
        var key :| key in rest;
        rest := rest - {key};
        if portForwards[key].podName in Names(pods) {
          return portForwards[key].podName;
        }
      }
      pod := "";
    }

    // One turn of the loop over the ports of a pod.
    method ForwardPort(pod: Pod, port: ServicePort, prefixed: bool) returns (more: seq<PortForward>)
      ensures forall f :: f in more ==> fresh(f) && ResolvedIn(f, pod)
      ensures var service := if prefixed then pod.name + "." + name else name;
              var key := ForwardKey(service, pod.name, LocalPort(portMap, port));
              if Forwardable(portMap, port) && key !in portForwards
              then |more| == 1 && BuiltFor(more[0], name, portMap, prefixed, pod.name, port)
              else more == []
    {
      hide ForwardKey, PodPort, BuiltFor, ResolvedIn, Forwardable, LocalPort;
      more := [];
      if Forwardable(portMap, port) {
        var service, localPort := if prefixed then pod.name + "." + name else name, LocalPort(portMap, port);
        if ForwardKey(service, pod.name, localPort) !in portForwards {
          var (podPort, containerName) := PodPort(pod.containers, port.targetPort);
          var pfo := new PortForward(service, pod.name, localPort, port.targetPort, podPort, containerName);
          BuiltFrom(pfo, name, portMap, prefixed, pod, port);
          more := [pfo];
        }
      }
    }

    /** The loop over the ports of one pod: build a forward for each forwardable port whose key has no entry. */
    method ForwardPod(pod: Pod, prefixed: bool) returns (spawned: seq<PortForward>)
      ensures forall f :: f in spawned ==> fresh(f)
      ensures SpawnedFor(spawned, portForwards, this.name, portMap, Spec().ports, prefixed, {pod.name})
      ensures forall f :: f in spawned ==> ResolvedIn(f, pod)
    {
      spawned := [];
      var ports := Spec().ports;
      for i := 0 to |ports|
        invariant forall f :: f in spawned ==> fresh(f) && ResolvedIn(f, pod)
        invariant SpawnedFor(spawned, portForwards, name, portMap, ports[..i], prefixed, {pod.name})
      {
        hide ForwardKey, SpawnedFor, PodPort, BuiltFor, ResolvedIn, Forwardable, LocalPort;
        assert ports[..i + 1] == ports[..i] + [ports[i]];
        var more := ForwardPort(pod, ports[i], prefixed);
        SpawnedMore(spawned, more, portForwards, name, portMap, ports[..i], ports[i], prefixed, pod.name);
        spawned := spawned + more;
      }
      assert ports[..|ports|] == ports;
    }

    /** Each forward built is launched as a goroutine whose first act is AddServicePod. */
    method LoopPodsToForward(pods: seq<Pod>, prefixed: bool) returns (spawned: seq<PortForward>)
      ensures forall f :: f in spawned ==> fresh(f)
      ensures SpawnedFor(spawned, portForwards, name, portMap, Spec().ports, prefixed, Names(pods))
      ensures Resolved(spawned, pods)
    {
      spawned := [];
      for i := 0 to |pods|
        invariant forall f :: f in spawned ==> fresh(f)
        invariant SpawnedFor(spawned, portForwards, name, portMap, Spec().ports, prefixed, Names(pods[..i]))
        invariant Resolved(spawned, pods[..i])
      {
        hide ResolvedIn, SpawnedFor;
        var more := ForwardPod(pods[i], prefixed);
        assert Resolved(more, [pods[i]]);
        ResolvedMore(spawned, more, pods[..i], [pods[i]]);
        assert pods[..i + 1] == pods[..i] + [pods[i]];
        assert Names(pods[..i + 1]) == Names(pods[..i]) + {pods[i].name};
        SpawnedTogether(spawned, more, portForwards, name, portMap, Spec().ports, prefixed, Names(pods[..i]),
                        {pods[i].name});
        spawned := spawned + more;
      }
      assert pods[..|pods|] == pods;
    }

    /** The spawned goroutines reach AddServicePod, in order. */
    method RunSpawned(spawned: seq<PortForward>)
      requires Valid() && forall f :: f in spawned ==> f.podName != ""
      modifies this`portForwards
      ensures Valid() && Ran(old(portForwards), portForwards, spawned)
    {
      for i := 0 to |spawned|
        invariant Valid() && Ran(old(portForwards), portForwards, spawned[..i])
      {
        assert spawned[..i + 1] == spawned[..i] + [spawned[i]];
        var _ := AddServicePod(spawned[i]);
      }
      assert spawned[..|spawned|] == spawned;
    }

    method GetPodsForService(listed: seq<Pod>) returns (pods: seq<Pod>)
      ensures pods == EligiblePods(listed)
    {
      pods := [];
      for i := 0 to |listed|
        invariant pods == EligiblePods(listed[..i])
      {
        assert listed[..i + 1][..i] == listed[..i];
        if IsPodEligible(listed[i]) && IsPodReady(listed[i]) {
          pods := pods + [listed[i]];
        }
      }
      assert listed[..|listed|] == listed;
    }

    method SyncNormalService(pods: seq<Pod>) returns (spawned: seq<PortForward>, pod: string)
      requires Valid() && pods != [] && "" !in Names(pods)
      modifies this`portForwards, portForwards.Values
      ensures Valid() && Chosen(old(portForwards), pods, pod)
      ensures portForwards == Kept(old(portForwards), {pod})
      ensures forall k :: k in portForwards ==> unchanged(old(portForwards)[k])
      ensures forall f :: f in spawned ==> fresh(f)
      ensures SpawnedFor(spawned, portForwards, name, portMap, Spec().ports, false, {pod})
      ensures Resolved(spawned, pods)
    {
      var keep := FindPodNameToKeep(pods);
      RemoveAllBut({keep});
      if keep == "" {
        pod := pods[0].name;
        assert pods[0] in pods;
        assert Names([pods[0]]) == {pod};
        spawned := LoopPodsToForward([pods[0]], false);
        ResolvedMore([], spawned, [], [pods[0]]);
        return;
      }
      pod := keep;
      for i := 0 to |pods|
        invariant forall j :: 0 <= j < i ==> pods[j].name != keep
      {
        if pods[i].name == keep {
          assert Names([pods[i]]) == {pod};
          spawned := LoopPodsToForward([pods[i]], false);
          ResolvedMore([], spawned, [], [pods[i]]);
          return;
        }
      }
      assert false;
      spawned := [];
    }

    method SyncHeadlessService(pods: seq<Pod>) returns (spawned: seq<PortForward>)
      requires pods != []
      ensures forall f :: f in spawned ==> fresh(f)
      ensures HeadlessSpawned(spawned, portForwards, name, portMap, Spec().ports, pods)
      ensures Resolved(spawned, pods)
    {
      assert Names([pods[0]]) == {pods[0].name};
      var bare := LoopPodsToForward([pods[0]], false);
      var all := LoopPodsToForward(pods, true);
      spawned := bare + all;
      ResolvedMore(bare, all, [pods[0]], pods);
      ResolvedMore([], spawned, [], [pods[0]] + pods);
      HeadlessTogether(bare, all, portForwards, name, portMap, Spec().ports, pods);
    }

    /** One sync over the pods the API lists. Nothing happens when none is eligible; otherwise the forwards of pods
        that are not eligible go first. `pod` is the pod a normal service ends up with. */
    method DoSyncPods(listed: seq<Pod>) returns (spawned: seq<PortForward>, pod: string)
      requires Valid() && "" !in Names(listed)
      modifies this`portForwards, portForwards.Values
      ensures Valid()
      ensures forall f :: f in spawned ==> fresh(f)
      ensures forall k :: k in portForwards ==>
                k in old(portForwards) && portForwards[k] == old(portForwards)[k] && unchanged(old(portForwards)[k])
      ensures
        var pods := EligiblePods(listed);
        if pods == [] then portForwards == old(portForwards) && spawned == []
        else if Spec().headless then
          && portForwards == Kept(old(portForwards), Names(pods))
          && HeadlessSpawned(spawned, portForwards, name, portMap, Spec().ports, pods)
        else
          && Chosen(old(portForwards), pods, pod)
          && portForwards == Kept(old(portForwards), {pod})
          && SpawnedFor(spawned, portForwards, name, portMap, Spec().ports, false, {pod})
      ensures Resolved(spawned, EligiblePods(listed))
    {
      var pods := GetPodsForService(listed);
      EligiblePodsAre(listed);
      pod := "";
      if pods == [] {
        return [], pod;
      }
      ghost var before := portForwards;
      RemoveAllBut(Names(pods));
      KeptAre(before, Names(pods));
      if Spec().headless {
        spawned := SyncHeadlessService(pods);
      } else {
        spawned, pod := SyncNormalService(pods);
        KeptWithin(before, pods, pod);
      }
    }

    /** A sync followed by the registration of what it spawned. */
    method Reconcile(listed: seq<Pod>) returns (pod: string)
      requires Valid() && "" !in Names(listed)
      modifies this`portForwards, portForwards.Values
      ensures Valid() && Spec() == old(Spec())
      ensures forall k :: k in portForwards && k in old(portForwards) && portForwards[k] == old(portForwards)[k] ==>
                unchanged(old(portForwards)[k])
      ensures Reconciled(old(portForwards), portForwards, name, portMap, Spec(), EligiblePods(listed), pod)
      ensures (exists p :: Serves(p, listed)) ==>
                forall k :: k in portForwards ==> exists p :: Serves(p, listed) && p.name == portForwards[k].podName
      ensures forall k :: k in portForwards ==>
                (k in old(portForwards) && portForwards[k] == old(portForwards)[k]) || fresh(portForwards[k])
    {
      hide Names, EligiblePods, SpawnedFor, HeadlessSpawned, Chosen, NormalSync, HeadlessSync, PortForward.Key, Serves;
      ghost var before := portForwards;
      var spawned;
      spawned, pod := DoSyncPods(listed);
      ghost var kept, pods := portForwards, EligiblePods(listed);
      if pods != [] {
        assert !Spec().headless ==> pod in Names(pods) by {
          ChosenIsEligible(before, pods, pod);
        }
        SpawnedNamed(listed, spawned, kept, name, portMap, Spec(), pod);
      }
      RunSpawned(spawned);
      if pods != [] {
        if Spec().headless {
          HeadlessReconciled(before, kept, portForwards, spawned, name, portMap, Spec().ports, pods);
        } else {
          NormalReconciled(before, kept, portForwards, spawned, name, portMap, Spec().ports, pod);
        }
      }
      OnlyServingPods(before, portForwards, name, portMap, Spec(), listed, pod);
    }

    /** A new spec: stop every forward of the old one, wait for each, and rebuild unless the service was shut down
        meanwhile. `slow` are the forwards whose wait times out. */
    method UpdateService(spec: ServiceSpec, listed: seq<Pod>, slow: set<PortForward>, shutDown: bool)
      returns (pod: string)
      requires Valid() && "" !in Names(listed)
      modifies this, portForwards.Values
      ensures Valid() && Spec() == spec
      ensures forall f :: f in old(portForwards.Values) ==>
                f.stopOnce && (f !in slow ==> f.doneClosed) && f !in portForwards.Values
      ensures if shutDown then portForwards == map[]
              else Reconciled(map[], portForwards, name, portMap, spec, EligiblePods(listed), pod)
    {
      hide Reconciled, EligiblePods, Names, PortForward.Key;
      updatedSpec := Some(spec);
      var forwards := StopAllPortForwards();
      var rest := forwards;
      while rest != {}
        invariant rest <= forwards && portForwards == map[] && updatedSpec == Some(spec)
        invariant forall f :: f in forwards ==> f.stopOnce
        invariant forall f :: f in forwards - rest && f !in slow ==> f.doneClosed
        decreases rest
      {
        var f :| f in rest;
        if f !in slow {
          f.Finish();
        }
        rest := rest - {f};
      }
      if shutDown {
        return "";
      }
      pod := Reconcile(listed);
    }
  }

  /** The forwards a loop over the named pods builds, given the entries there are: each is built for a forwardable
      port of one of the pods and has a key without entry, and every such key is served. */
  ghost predicate SpawnedFor(spawned: seq<PortForward>, m: map<string, PortForward>, name: string,
                             portMap: seq<PortMapping>,
                             ports: seq<ServicePort>, prefixed: bool, pods: set<string>) {
    && (forall f :: f in spawned ==> f.Key() !in m && exists pod, port ::
          pod in pods && port in ports && BuiltFor(f, name, portMap, prefixed, pod, port))
    && (forall pod, key :: pod in pods && key in PodKeys(name, portMap, ports, prefixed, pod) ==>
          key in m || exists f :: f in spawned && f.Key() == key)
  }

  lemma SpawnedMore(a: seq<PortForward>, b: seq<PortForward>, m: map<string, PortForward>, name: string,
                    portMap: seq<PortMapping>,
                    ports: seq<ServicePort>, port: ServicePort, prefixed: bool, pod: string)
    requires SpawnedFor(a, m, name, portMap, ports, prefixed, {pod})
    requires var key := ForwardKey(if prefixed then pod + "." + name else name, pod, LocalPort(portMap, port));
             if Forwardable(portMap, port) && key !in m
             then |b| == 1 && BuiltFor(b[0], name, portMap, prefixed, pod, port)
             else b == []
    ensures SpawnedFor(a + b, m, name, portMap, ports + [port], prefixed, {pod})
  {
    hide ForwardKey, Forwardable, LocalPort;
    var key := ForwardKey(if prefixed then pod + "." + name else name, pod, LocalPort(portMap, port));
    forall k | k in PodKeys(name, portMap, ports + [port], prefixed, pod) && k !in m
      ensures exists f :: f in a + b && f.Key() == k
    {
      if k in PodKeys(name, portMap, ports, prefixed, pod) {
        var f :| f in a && f.Key() == k;
        assert f in a + b;
      } else {
        assert k == key && b[0].Key() == key && b[0] in a + b;
      }
    }
    forall f | f in a + b
      ensures f.Key() !in m
      ensures exists q, p :: q in {pod} && p in ports + [port] && BuiltFor(f, name, portMap, prefixed, q, p)
    {
      if f in a {
        var q, p :| q in {pod} && p in ports && BuiltFor(f, name, portMap, prefixed, q, p);
        assert p in ports + [port];
      } else {
        assert f == b[0] && port in ports + [port] && pod in {pod};
      }
    }
  }

  lemma SpawnedTogether(a: seq<PortForward>, b: seq<PortForward>, m: map<string, PortForward>, name: string,
                        portMap: seq<PortMapping>,
                        ports: seq<ServicePort>, prefixed: bool, p: set<string>, q: set<string>)
    requires SpawnedFor(a, m, name, portMap, ports, prefixed, p) && SpawnedFor(b, m, name, portMap, ports, prefixed, q)
    ensures SpawnedFor(a + b, m, name, portMap, ports, prefixed, p + q)
  {
    hide PodKeys, BuiltFor;
    forall pod, key | pod in p + q && key in PodKeys(name, portMap, ports, prefixed, pod)
      ensures key in m || exists f :: f in a + b && f.Key() == key
    {
      if key !in m {
        if pod in p {
          var f :| f in a && f.Key() == key;
          assert f in a + b;
        } else {
          var f :| f in b && f.Key() == key;
          assert f in a + b;
        }
      }
    }
  }

  /** Old entries stay, and each new key belongs to a spawned forward. */
  ghost predicate Ran(before: map<string, PortForward>, after: map<string, PortForward>, spawned: seq<PortForward>) {
    && (forall k :: k in before ==> k in after && after[k] == before[k])
    && (forall k :: k in after && k !in before ==> after[k] in spawned && after[k].Key() == k)
    && (forall f :: f in spawned ==> f.Key() in after)
  }

  /** The pod a normal service is left with: one already forwarded and eligible if there is one, else the first. */
  ghost predicate Chosen(before: map<string, PortForward>, pods: seq<Pod>, pod: string) {
    && pod in Names(pods)
    && (if exists k :: k in before && before[k].podName in Names(pods)
        then exists k :: k in before && before[k].podName == pod
        else pod == pods[0].name)
  }

  /** A listed pod that a service may be forwarded to. */
  predicate Serves(p: Pod, listed: seq<Pod>) {
    p in listed && !p.deleting && (p.phase == Pending || (p.phase == Up && p.anyReady))
  }

  /** Once some listed pod can serve, no entry is left of a pod that cannot. */
  lemma OnlyServingPods(before: map<string, PortForward>, after: map<string, PortForward>, name: string,
                        portMap: seq<PortMapping>, spec: ServiceSpec, listed: seq<Pod>, pod: string)
    requires Reconciled(before, after, name, portMap, spec, EligiblePods(listed), pod)
    ensures (exists p :: Serves(p, listed)) ==>
              forall k :: k in after ==> exists p :: Serves(p, listed) && p.name == after[k].podName
  {
    hide EligiblePods, Synced, PodKeys, BuiltFor, HeadlessKeys;
    EligiblePodsAre(listed);
    var pods := EligiblePods(listed);
    if q :| Serves(q, listed) {
      assert q in pods;
      forall k | k in after
        ensures exists p :: Serves(p, listed) && p.name == after[k].podName
      {
        assert after[k].podName in Names(pods);
        var p :| p in pods && p.name == after[k].podName;
        assert Serves(p, listed);
      }
    }
  }

  lemma ChosenIsEligible(before: map<string, PortForward>, pods: seq<Pod>, pod: string)
    ensures Chosen(before, pods, pod) ==> pod in Names(pods)
  {
  }

  lemma KeptWithin(before: map<string, PortForward>, pods: seq<Pod>, pod: string)
    requires Chosen(Kept(before, Names(pods)), pods, pod)
    ensures Chosen(before, pods, pod)
    ensures Kept(Kept(before, Names(pods)), {pod}) == Kept(before, {pod})
  {
    var kept := Kept(before, Names(pods));
    KeptAre(before, Names(pods));
    if k :| k in before && before[k].podName in Names(pods) {
      assert k in kept && kept[k].podName in Names(pods);
    }
  }

  ghost predicate HeadlessSpawned(spawned: seq<PortForward>, m: map<string, PortForward>, name: string,
                                  portMap: seq<PortMapping>,
                                  ports: seq<ServicePort>, pods: seq<Pod>)
    requires pods != []
  {
    exists n {:trigger spawned[n..]} :: 0 <= n <= |spawned|
      && SpawnedFor(spawned[..n], m, name, portMap, ports, false, {pods[0].name})
      && SpawnedFor(spawned[n..], m, name, portMap, ports, true, Names(pods))
  }

  lemma HeadlessTogether(bare: seq<PortForward>, all: seq<PortForward>, m: map<string, PortForward>, name: string,
                         portMap: seq<PortMapping>, ports: seq<ServicePort>, pods: seq<Pod>)
    requires pods != []
    requires SpawnedFor(bare, m, name, portMap, ports, false, {pods[0].name})
    requires SpawnedFor(all, m, name, portMap, ports, true, Names(pods))
    ensures HeadlessSpawned(bare + all, m, name, portMap, ports, pods)
  {
    var spawned := bare + all;
    assert spawned[..|bare|] == bare && spawned[|bare|..] == all;
  }

  // ---------- What a sync leaves, on the maps before and after ----------

  /** Entries of the pods to keep stay the same objects, the needed keys are there, and new entries are new objects. */
  ghost predicate Synced(before: map<string, PortForward>, after: map<string, PortForward>, keep: set<string>,
                         needed: set<string>) {
    && after.Keys == Kept(before, keep).Keys + needed
    && (forall k :: k in Kept(before, keep) ==> after[k] == before[k])
    && (forall k :: k in after && k !in Kept(before, keep) ==> after[k] !in before.Values)
  }

  ghost predicate NormalSync(before: map<string, PortForward>, after: map<string, PortForward>, name: string,
                             portMap: seq<PortMapping>, ports: seq<ServicePort>, pod: string) {
    && Synced(before, after, {pod}, PodKeys(name, portMap, ports, false, pod))
    && (forall k :: k in after ==> after[k].podName == pod)
    && (forall k :: k in after && k !in Kept(before, {pod}) ==>
          exists port :: port in ports && BuiltFor(after[k], name, portMap, false, pod, port))
  }

  /** The keys of a headless service: the first pod's under the bare name, every pod's under "pod.service". */
  function HeadlessKeys(name: string, portMap: seq<PortMapping>, ports: seq<ServicePort>, pods: seq<Pod>): set<string>
    requires pods != []
  {
    PodKeys(name, portMap, ports, false, pods[0].name)
    + set pod, key | pod in Names(pods) && key in PodKeys(name, portMap, ports, true, pod) :: key
  }

  ghost predicate HeadlessSync(before: map<string, PortForward>, after: map<string, PortForward>, name: string,
                               portMap: seq<PortMapping>, ports: seq<ServicePort>, pods: seq<Pod>)
    requires pods != []
  {
    && Synced(before, after, Names(pods), HeadlessKeys(name, portMap, ports, pods))
    && (forall k :: k in after ==> after[k].podName in Names(pods))
    && (forall k :: k in after && k !in Kept(before, Names(pods)) ==>
          exists prefixed, pod, port :: port in ports && BuiltFor(after[k], name, portMap, prefixed, pod, port))
  }

  /** No eligible pod: nothing changes. Headless: all of them. Normal: one of them. */
  ghost predicate Reconciled(before: map<string, PortForward>, after: map<string, PortForward>, name: string,
                             portMap: seq<PortMapping>, spec: ServiceSpec, pods: seq<Pod>, pod: string) {
    if pods == [] then after == before
    else if spec.headless then HeadlessSync(before, after, name, portMap, spec.ports, pods)
    else Chosen(before, pods, pod) && NormalSync(before, after, name, portMap, spec.ports, pod)
  }

  lemma SpawnedPods(spawned: seq<PortForward>, m: map<string, PortForward>, name: string, portMap: seq<PortMapping>,
                    ports: seq<ServicePort>, prefixed: bool, pods: set<string>)
    requires SpawnedFor(spawned, m, name, portMap, ports, prefixed, pods)
    ensures forall f :: f in spawned ==> f.podName in pods
  {
    hide PodKeys, ForwardKey, Forwardable, LocalPort, PortForward.Key;
  }

  lemma SpawnedNamed(listed: seq<Pod>, spawned: seq<PortForward>, m: map<string, PortForward>, name: string,
                     portMap: seq<PortMapping>, spec: ServiceSpec, pod: string)
    requires "" !in Names(listed) && EligiblePods(listed) != []
    requires if spec.headless then HeadlessSpawned(spawned, m, name, portMap, spec.ports, EligiblePods(listed))
             else pod in Names(EligiblePods(listed)) && SpawnedFor(spawned, m, name, portMap, spec.ports, false, {pod})
    ensures forall f :: f in spawned ==> f.podName != ""
  {
    hide EligiblePods, SpawnedFor;
    var pods := EligiblePods(listed);
    EligiblePodsAre(listed);
    assert "" !in Names(pods) && pods[0].name in Names(pods);
    hide Names;
    if spec.headless {
      var n :| 0 <= n <= |spawned|
        && SpawnedFor(spawned[..n], m, name, portMap, spec.ports, false, {pods[0].name})
        && SpawnedFor(spawned[n..], m, name, portMap, spec.ports, true, Names(pods));
      SpawnedPods(spawned[..n], m, name, portMap, spec.ports, false, {pods[0].name});
      SpawnedPods(spawned[n..], m, name, portMap, spec.ports, true, Names(pods));
      assert spawned == spawned[..n] + spawned[n..];
    } else {
      SpawnedPods(spawned, m, name, portMap, spec.ports, false, {pod});
    }
  }

  lemma BuiltKey(f: PortForward, name: string, portMap: seq<PortMapping>, ports: seq<ServicePort>, prefixed: bool,
                 pod: string, port: ServicePort)
    requires port in ports && BuiltFor(f, name, portMap, prefixed, pod, port)
    ensures f.Key() in PodKeys(name, portMap, ports, prefixed, pod) && f.podName == pod
  {
  }

  lemma NormalReconciled(before: map<string, PortForward>, kept: map<string, PortForward>,
                         after: map<string, PortForward>,
                         spawned: seq<PortForward>, name: string, portMap: seq<PortMapping>, ports: seq<ServicePort>,
                         pod: string)
    requires kept == Kept(before, {pod}) && Ran(kept, after, spawned)
    requires SpawnedFor(spawned, kept, name, portMap, ports, false, {pod})
    requires forall f :: f in spawned ==> f !in before.Values
    ensures NormalSync(before, after, name, portMap, ports, pod)
  {
    KeptAre(before, {pod});
    hide Kept, PodKeys, BuiltFor, PortForward.Key;
    forall k | k in after && k !in kept
      ensures after[k].podName == pod && k in PodKeys(name, portMap, ports, false, pod)
      ensures exists port :: port in ports && BuiltFor(after[k], name, portMap, false, pod, port)
    {
      var q, port :| q in {pod} && port in ports && BuiltFor(after[k], name, portMap, false, q, port);
      BuiltKey(after[k], name, portMap, ports, false, q, port);
    }
    forall key | key in PodKeys(name, portMap, ports, false, pod)
      ensures key in after
    {
      assert pod in {pod};
    }
  }

  lemma SpawnedBuilt(f: PortForward, spawned: seq<PortForward>, m: map<string, PortForward>, name: string,
                     portMap: seq<PortMapping>,
                     ports: seq<ServicePort>, prefixed: bool, pods: set<string>)
    requires f in spawned
    ensures SpawnedFor(spawned, m, name, portMap, ports, prefixed, pods) ==>
              exists pod, port ::
                && pod in pods && port in ports && BuiltFor(f, name, portMap, prefixed, pod, port)
                && f.Key() in PodKeys(name, portMap, ports, prefixed, pod) && f.podName == pod
  {
    hide PodKeys, BuiltFor, PortForward.Key;
    if SpawnedFor(spawned, m, name, portMap, ports, prefixed, pods) {
      var pod, port :| pod in pods && port in ports && BuiltFor(f, name, portMap, prefixed, pod, port);
      BuiltKey(f, name, portMap, ports, prefixed, pod, port);
    }
  }

  lemma SpawnedHeadless(f: PortForward, spawned: seq<PortForward>, m: map<string, PortForward>, name: string,
                        portMap: seq<PortMapping>,
                        ports: seq<ServicePort>, pods: seq<Pod>)
    requires pods != [] && f in spawned && HeadlessSpawned(spawned, m, name, portMap, ports, pods)
    ensures f.podName in Names(pods) && f.Key() in HeadlessKeys(name, portMap, ports, pods)
    ensures exists prefixed, pod, port :: port in ports && BuiltFor(f, name, portMap, prefixed, pod, port)
  {
    hide PodKeys, BuiltFor, PortForward.Key, SpawnedFor;
    var n :| 0 <= n <= |spawned|
      && SpawnedFor(spawned[..n], m, name, portMap, ports, false, {pods[0].name})
      && SpawnedFor(spawned[n..], m, name, portMap, ports, true, Names(pods));
    assert pods[0] in pods;
    if f in spawned[..n] {
      SpawnedBuilt(f, spawned[..n], m, name, portMap, ports, false, {pods[0].name});
    } else {
      assert f in spawned[n..];
      SpawnedBuilt(f, spawned[n..], m, name, portMap, ports, true, Names(pods));
    }
  }

  lemma HeadlessServed(key: string, spawned: seq<PortForward>, m: map<string, PortForward>, name: string,
                       portMap: seq<PortMapping>,
                       ports: seq<ServicePort>, pods: seq<Pod>)
    requires pods != [] && HeadlessSpawned(spawned, m, name, portMap, ports, pods)
    ensures key in HeadlessKeys(name, portMap, ports, pods) && key !in m ==> exists f :: f in spawned && f.Key() == key
  {
    hide PodKeys, BuiltFor, PortForward.Key, Names;
    if key !in HeadlessKeys(name, portMap, ports, pods) || key in m {
      return;
    }
    var n :| 0 <= n <= |spawned|
      && SpawnedFor(spawned[..n], m, name, portMap, ports, false, {pods[0].name})
      && SpawnedFor(spawned[n..], m, name, portMap, ports, true, Names(pods));
    if key in PodKeys(name, portMap, ports, false, pods[0].name) {
      assert pods[0].name in {pods[0].name};
      assert exists f :: f in spawned[..n] && f.Key() == key;
    } else {
      assert exists f :: f in spawned[n..] && f.Key() == key;
    }
  }

  lemma HeadlessReconciled(before: map<string, PortForward>, kept: map<string, PortForward>,
                           after: map<string, PortForward>,
                           spawned: seq<PortForward>, name: string, portMap: seq<PortMapping>,
                           ports: seq<ServicePort>, pods: seq<Pod>)
    requires pods != [] && kept == Kept(before, Names(pods)) && Ran(kept, after, spawned)
    requires HeadlessSpawned(spawned, kept, name, portMap, ports, pods)
    requires forall f :: f in spawned ==> f !in before.Values
    ensures HeadlessSync(before, after, name, portMap, ports, pods)
  {
    KeptAre(before, Names(pods));
    hide Kept, BuiltFor, PortForward.Key, Names, HeadlessSpawned, HeadlessKeys;
    forall k | k in after && k !in kept
      ensures after[k].podName in Names(pods) && k in HeadlessKeys(name, portMap, ports, pods)
      ensures exists prefixed, pod, port :: port in ports && BuiltFor(after[k], name, portMap, prefixed, pod, port)
    {
      SpawnedHeadless(after[k], spawned, kept, name, portMap, ports, pods);
    }
    forall key | key in HeadlessKeys(name, portMap, ports, pods)
      ensures key in after
    {
      if key !in kept {
        HeadlessServed(key, spawned, kept, name, portMap, ports, pods);
      }
    }
  }

  // ---------- Convergence ----------

  /** Entries of the pod that were built from the current ports of a normal service. */
  ghost predicate Current(m: map<string, PortForward>, name: string, portMap: seq<PortMapping>,
                          ports: seq<ServicePort>, pod: string) {
    Kept(m, {pod}).Keys <= PodKeys(name, portMap, ports, false, pod)
  }

  /** A normal service converges: after a sync the registered keys are exactly one eligible pod's forwardable ports
      (given that its old entries were built from the current ports), all entries are that pod's, a forwarded eligible
      pod is kept with the same forwards, and a second sync over the same pods changes nothing. */
  lemma NormalServiceConverges(m0: map<string, PortForward>, m1: map<string, PortForward>,
                               m2: map<string, PortForward>, name: string,
                               portMap: seq<PortMapping>, spec: ServiceSpec, pods: seq<Pod>, p1: string, p2: string)
    requires pods != [] && !spec.headless
    requires Reconciled(m0, m1, name, portMap, spec, pods, p1) && Reconciled(m1, m2, name, portMap, spec, pods, p2)
    ensures m2 == m1
    ensures p1 in Names(pods) && forall k :: k in m1 ==> m1[k].podName == p1
    ensures (forall k :: k in m0 ==> m0[k].podName !in Names(pods)) ==> p1 == pods[0].name
    ensures m1.Keys == PodKeys(name, portMap, spec.ports, false, p1) <==> Current(m0, name, portMap, spec.ports, p1)
    ensures (exists k :: k in m0 && m0[k].podName in Names(pods)) ==> exists k :: k in m0 && m0[k].podName == p1
    ensures forall k :: k in m0 && m0[k].podName == p1 ==> k in m1 && m1[k] == m0[k]
  {
    hide PodKeys, Names;
    KeptAre(m0, {p1});
    KeptAre(m1, {p2});
    if k :| k in m1 {
      assert m1[k].podName in Names(pods);
      assert p2 == p1;
      assert Kept(m1, {p2}) == m1;
    } else {
      assert m1 == map[];
      NoKeysForAny(name, portMap, spec.ports, p1, p2);
    }
    forall k | k in m0 && m0[k].podName == p1
      ensures k in m1 && m1[k] == m0[k]
    {
      assert k in Kept(m0, {p1});
    }
  }

  /** In texts: after a sync of a normal service there is an entry "service.pod.port" for each of its ports. */
  lemma NormalKeyTexts(m0: map<string, PortForward>, m1: map<string, PortForward>, name: string,
                       portMap: seq<PortMapping>, spec: ServiceSpec, pods: seq<Pod>, pod: string, port: ServicePort)
    requires pods != [] && !spec.headless && Reconciled(m0, m1, name, portMap, spec, pods, pod)
    requires port in spec.ports && Forwardable(portMap, port)
    ensures name + "." + pod + "." + LocalPort(portMap, port) in m1
  {
    hide Forwardable, LocalPort, BuiltFor, Chosen, Kept;
    assert ForwardKey(name, pod, LocalPort(portMap, port)) in PodKeys(name, portMap, spec.ports, false, pod);
  }

  /** And of a headless one an entry "service.pod.port" for the first pod, and "pod.service.pod.port" for each. */
  lemma HeadlessKeyTexts(m0: map<string, PortForward>, m1: map<string, PortForward>, name: string,
                         portMap: seq<PortMapping>, spec: ServiceSpec, pods: seq<Pod>, p1: string, pod: Pod,
                         port: ServicePort)
    requires spec.headless && pod in pods && Reconciled(m0, m1, name, portMap, spec, pods, p1)
    requires port in spec.ports && Forwardable(portMap, port)
    ensures name + "." + pods[0].name + "." + LocalPort(portMap, port) in m1
    ensures pod.name + "." + name + "." + pod.name + "." + LocalPort(portMap, port) in m1
  {
    hide Forwardable, LocalPort, BuiltFor, Kept;
    var local := LocalPort(portMap, port);
    assert ForwardKey(name, pods[0].name, local) in PodKeys(name, portMap, spec.ports, false, pods[0].name);
    assert ForwardKey(pod.name + "." + name, pod.name, local) in PodKeys(name, portMap, spec.ports, true, pod.name);
    hide PodKeys;
    assert pod.name in Names(pods);
  }

  lemma NoKeysForAny(name: string, portMap: seq<PortMapping>, ports: seq<ServicePort>, p: string, q: string)
    requires PodKeys(name, portMap, ports, false, p) == {}
    ensures PodKeys(name, portMap, ports, false, q) == {}
  {
    hide ForwardKey, Forwardable;
    assert forall port :: port in ports && Forwardable(portMap, port) ==>
             ForwardKey(name, p, LocalPort(portMap, port)) in PodKeys(name, portMap, ports, false, p);
  }

  /** A headless service converges: only entries of eligible pods remain, every key of every eligible pod is there, and
      no other exactly when the entries kept were built from the current ports; what was there for eligible pods is
      untouched, and a second sync over the same pods changes nothing. */
  lemma HeadlessServiceConverges(m0: map<string, PortForward>, m1: map<string, PortForward>,
                                 m2: map<string, PortForward>, name: string,
                                 portMap: seq<PortMapping>, spec: ServiceSpec, pods: seq<Pod>, p1: string, p2: string)
    requires pods != [] && spec.headless
    requires Reconciled(m0, m1, name, portMap, spec, pods, p1) && Reconciled(m1, m2, name, portMap, spec, pods, p2)
    ensures m2 == m1
    ensures forall k :: k in m1 ==> m1[k].podName in Names(pods)
    ensures HeadlessKeys(name, portMap, spec.ports, pods) <= m1.Keys
    ensures m1.Keys == HeadlessKeys(name, portMap, spec.ports, pods) <==>
            Kept(m0, Names(pods)).Keys <= HeadlessKeys(name, portMap, spec.ports, pods)
    ensures forall k :: k in m0 && m0[k].podName in Names(pods) ==> k in m1 && m1[k] == m0[k]
  {
    hide PodKeys, Names, HeadlessKeys;
    KeptAre(m0, Names(pods));
    KeptAre(m1, Names(pods));
    assert Kept(m1, Names(pods)) == m1;
  }
}
