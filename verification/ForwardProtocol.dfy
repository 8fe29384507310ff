// The life of port-forwards under concurrent syncs, rebuilds, removals and exits (pkg/fwdservice/fwdservice.go,
// pkg/fwdport/fwdport.go). Each critical section, channel close and cleanup action is one step; a run is any
// interleaving of steps of any number of forwards, UpdateService and ForceReconnect calls and pod removals.
module ForwardProtocol {
  import opened Text
  import opened ForwardMap

  /** The forward's own goroutine: from spawn to the exit of removeOwnForward. */
  datatype Phase =
    | Spawned     // the goroutine has not reached AddServicePod
    | Duplicate   // AddServicePod refused it
    | Registered  // in PortForward, AddHosts not done
    | Running     // AddHosts succeeded: waiting for the pod, dialing or forwarding
    | Draining    // waiting on cleanupDone
    | Returned    // DoneChan closed
    | Exited      // removeOwnForward done

  /** The cleanup goroutine that PortForward starts after AddHosts. */
  datatype Cleanup = NoCleanup | Waiting | Stopping | HostsGone | AliasGone | Finished

  datatype Forward = Forward(
    key: string,
    origin: Option<nat>,   // the UpdateService or ForceReconnect call whose resync spawned it
    phase: Phase,
    cleanup: Cleanup,
    stopOnce: bool,        // Stop's sync.Once has fired
    stopClosed: bool,      // ManualStopChan
    doneClosed: bool,      // DoneChan
    asked: bool)           // history: someone other than the forward itself decided to stop it

  datatype Kind = Update | Force

  datatype Call = Call(
    kind: Kind,
    stopped: set<nat>,     // history: what stopAllPortForwards took out of the map
    toStop: set<nat>,      // of those, not yet told to stop
    toWait: set<nat>,      // of those, UpdateService still waits for
    timedOut: bool,
    resync: bool,
    settled: bool)         // history: at the resync, nothing it had stopped could still write a cleanup

  /** A RemoveServicePod call, between finding the entry and deleting the key. */
  datatype Removal = Removal(key: string, target: nat, stopped: bool, deleted: bool)

  datatype Event = AliasAdded(f: nat) | HostsAdded(f: nat) | HostsRemoved(f: nat) | AliasRemoved(f: nat)

  datatype State = State(
    fwds: seq<Forward>,
    reg: map<string, nat>,
    calls: seq<Call>,
    removals: seq<Removal>,
    log: seq<Event>)

  const INIT := State([], map[], [], [], [])

  datatype Step =
    | Spawn(key: string, origin: Option<nat>)
    | AddServicePod(f: nat)
    | FailEarly(f: nat)
    | AddHosts(f: nat)
    | GiveUp(f: nat)
    | ForwardPortsReturns(f: nat)
    | CloseDone(f: nat)
    | RemoveOwn(f: nat)
    | CleanupStops(f: nat)
    | CleanupHosts(f: nat)
    | CleanupAlias(f: nat)
    | CleanupFinishes(f: nat)
    | InformerStop(f: nat)
    | StopAll(kind: Kind)
    | CallStop(c: nat, f: nat)
    | CallWait(c: nat, f: nat)
    | CallTimeout(c: nat, f: nat)
    | CallResync(c: nat)
    | FindPod(key: string)
    | StopPod(r: nat)
    | DeletePod(r: nat)

  predicate In(s: State, f: nat, phase: Phase) {
    f < |s.fwds| && s.fwds[f].phase == phase
  }

  predicate Cleaning(s: State, f: nat, cleanup: Cleanup) {
    f < |s.fwds| && s.fwds[f].cleanup == cleanup
  }

  /** The forward may still write a cleanup, or has yet to start the goroutine that does. */
  predicate MayClean(f: Forward) {
    !f.doneClosed && !AliasRemovedBy(f.cleanup)
  }

  predicate Settled(s: State, call: Call) {
    forall f :: f in call.stopped && f < |s.fwds| ==> !MayClean(s.fwds[f])
  }

  predicate Enabled(s: State, step: Step) {
    match step
    case Spawn(key, origin) =>
      key !in s.reg && (origin.Some? ==> origin.value < |s.calls| && s.calls[origin.value].resync)
    case AddServicePod(f) => In(s, f, Spawned)
    case FailEarly(f) => In(s, f, Registered)
    case AddHosts(f) => In(s, f, Registered)
    case GiveUp(f) => In(s, f, Running)
    case ForwardPortsReturns(f) => In(s, f, Running)
    case CloseDone(f) => In(s, f, Draining) && Cleaning(s, f, Finished)
    case RemoveOwn(f) => In(s, f, Returned)
    case CleanupStops(f) => Cleaning(s, f, Waiting) && s.fwds[f].stopClosed
    case CleanupHosts(f) => Cleaning(s, f, Stopping)
    case CleanupAlias(f) => Cleaning(s, f, HostsGone)
    case CleanupFinishes(f) => Cleaning(s, f, AliasGone)
    case InformerStop(f) => f < |s.fwds|
    case StopAll(_) => true
    case CallStop(c, f) => c < |s.calls| && f in s.calls[c].toStop && f < |s.fwds|
    case CallWait(c, f) =>
      && c < |s.calls| && s.calls[c].toStop == {} && f in s.calls[c].toWait
      && f < |s.fwds| && s.fwds[f].doneClosed
    case CallTimeout(c, f) => c < |s.calls| && s.calls[c].toStop == {} && f in s.calls[c].toWait
    case CallResync(c) => c < |s.calls| && s.calls[c].toStop == {} && s.calls[c].toWait == {} && !s.calls[c].resync
    case FindPod(key) => key in s.reg
    case StopPod(r) => r < |s.removals| && !s.removals[r].stopped && s.removals[r].target < |s.fwds|
    case DeletePod(r) =>
      && r < |s.removals| && s.removals[r].stopped && !s.removals[r].deleted
      && s.removals[r].target < |s.fwds| && s.fwds[s.removals[r].target].doneClosed
  }

  /** Stop: closes ManualStopChan once, and not after DoneChan. */
  function Stopped(f: Forward): Forward {
    f.(stopOnce := true, stopClosed := f.stopClosed || (!f.stopOnce && !f.doneClosed))
  }

  function Put(s: State, f: nat, fwd: Forward): State
    requires f < |s.fwds|
  {
    s.(fwds := s.fwds[f := fwd])
  }

  function Ask(s: State, f: nat): State
    requires f < |s.fwds|
  {
    Put(s, f, Stopped(s.fwds[f]).(asked := true))
  }

  function AskAll(fwds: seq<Forward>, fs: set<nat>): seq<Forward> {
    seq(|fwds|, i requires 0 <= i < |fwds| => if i in fs then fwds[i].(asked := true) else fwds[i])
  }

  function PutCall(s: State, c: nat, call: Call): State
    requires c < |s.calls|
  {
    s.(calls := s.calls[c := call])
  }

  function Apply(s: State, step: Step): State
    requires Enabled(s, step)
  {
    match step
    case Spawn(key, origin) =>
      s.(fwds := s.fwds + [Forward(key, origin, Spawned, NoCleanup, false, false, false, false)],
         log := s.log + [AliasAdded(|s.fwds|)])
    case AddServicePod(f) =>
      var fwd := s.fwds[f];
      Put(s, f, fwd.(phase := if fwd.key in s.reg then Duplicate else Registered)).(reg := Added(s.reg, fwd.key, f))
    case FailEarly(f) => Put(s, f, s.fwds[f].(phase := Returned, doneClosed := true))
    case AddHosts(f) => Put(s, f, s.fwds[f].(phase := Running, cleanup := Waiting)).(log := s.log + [HostsAdded(f)])
    case GiveUp(f) => Put(s, f, Stopped(s.fwds[f]).(phase := Draining))
    case ForwardPortsReturns(f) => Put(s, f, s.fwds[f].(phase := Draining))
    case CloseDone(f) => Put(s, f, s.fwds[f].(phase := Returned, doneClosed := true))
    case RemoveOwn(f) => Put(s, f, s.fwds[f].(phase := Exited)).(reg := RemovedOwn(s.reg, s.fwds[f].key, f))
    case CleanupStops(f) => Put(s, f, s.fwds[f].(cleanup := Stopping))
    case CleanupHosts(f) => Put(s, f, s.fwds[f].(cleanup := HostsGone)).(log := s.log + [HostsRemoved(f)])
    case CleanupAlias(f) => Put(s, f, s.fwds[f].(cleanup := AliasGone)).(log := s.log + [AliasRemoved(f)])
    case CleanupFinishes(f) => Put(s, f, s.fwds[f].(cleanup := Finished))
    case InformerStop(f) => Ask(s, f)
    case StopAll(kind) =>
      var all := s.reg.Values;
      State(AskAll(s.fwds, all), map[],
            s.calls + [Call(kind, all, all, if kind.Update? then all else {}, false, false, false)], s.removals, s.log)
    case CallStop(c, f) => PutCall(Ask(s, f), c, s.calls[c].(toStop := s.calls[c].toStop - {f}))
    case CallWait(c, f) => PutCall(s, c, s.calls[c].(toWait := s.calls[c].toWait - {f}))
    case CallTimeout(c, f) => PutCall(s, c, s.calls[c].(toWait := s.calls[c].toWait - {f}, timedOut := true))
    case CallResync(c) => PutCall(s, c, s.calls[c].(resync := true, settled := Settled(s, s.calls[c])))
    case FindPod(key) => s.(removals := s.removals + [Removal(key, s.reg[key], false, false)])
    case StopPod(r) => Ask(s, s.removals[r].target).(removals := s.removals[r := s.removals[r].(stopped := true)])
    case DeletePod(r) =>
      s.(removals := s.removals[r := s.removals[r].(deleted := true)], reg := s.reg - {s.removals[r].key})
  }

  /** The state a sequence of steps leads to from the start, if every step was enabled. */
  function After(steps: seq<Step>): Option<State> {
    if steps == [] then Some(INIT)
    else
      match After(steps[..|steps| - 1])
      case None => None
      case Some(s) => if Enabled(s, steps[|steps| - 1]) then Some(Apply(s, steps[|steps| - 1])) else None
  }

  // ---------- Invariants ----------

  predicate Active(f: Forward) {
    f.phase.Registered? || f.phase.Running? || f.phase.Draining? || f.phase.Returned?
  }

  predicate HostsRemovedBy(c: Cleanup) {
    c.HostsGone? || AliasRemovedBy(c)
  }

  predicate AliasRemovedBy(c: Cleanup) {
    c.AliasGone? || c.Finished?
  }

  /** How the two goroutines of one forward and its channels stand to each other. */
  predicate ForwardOk(f: Forward) {
    && (f.doneClosed <==> f.phase.Returned? || f.phase.Exited?)
    && (f.phase.Spawned? || f.phase.Duplicate? || f.phase.Registered? ==> f.cleanup.NoCleanup?)
    && (f.phase.Running? || f.phase.Draining? ==> !f.cleanup.NoCleanup?)
    && (f.doneClosed ==> f.cleanup.NoCleanup? || f.cleanup.Finished?)
    && (!f.cleanup.NoCleanup? && !f.cleanup.Waiting? ==> f.stopClosed)
    && (f.stopClosed ==> f.stopOnce)
    && (f.stopOnce ==> f.stopClosed || f.doneClosed)
  }

  /** What a call knows of a forward it took out of the map. */
  predicate StoppedOk(s: State, call: Call, f: nat) {
    && f < |s.fwds| && s.fwds[f].asked && !OwnsKey(s, f) && (Active(s.fwds[f]) || s.fwds[f].phase.Exited?)
    && (f !in call.toStop ==> s.fwds[f].stopOnce)
    && (f !in call.toWait && call.kind.Update? && !call.timedOut ==> s.fwds[f].doneClosed)
    && (call.settled ==> !MayClean(s.fwds[f]))
  }

  predicate CallOk(s: State, call: Call) {
    && call.toStop <= call.stopped && call.toWait <= call.stopped
    && (call.resync ==> call.toStop == {} && call.toWait == {})
    && (call.settled ==> call.resync)
    && (call.resync && call.kind.Update? && !call.timedOut ==> call.settled)
    && forall f :: f in call.stopped ==> StoppedOk(s, call, f)
  }

  predicate RemovalOk(s: State, r: Removal) {
    && r.target < |s.fwds| && (Active(s.fwds[r.target]) || s.fwds[r.target].phase.Exited?)
    && (r.stopped ==> s.fwds[r.target].asked && s.fwds[r.target].stopOnce)
  }

  predicate Setup(e: Event) {
    e.AliasAdded? || e.HostsAdded?
  }

  /** Event i of the log cleans up what call c stopped, and event j sets up what call c spawned. */
  predicate Touches(s: State, i: int, j: int, c: int) {
    && 0 <= i < |s.log| && 0 <= j < |s.log| && 0 <= c < |s.calls|
    && !Setup(s.log[i]) && s.log[i].f in s.calls[c].stopped
    && Setup(s.log[j]) && s.log[j].f < |s.fwds| && s.fwds[s.log[j].f].origin == Some(c)
  }

  predicate Rebuilds(s: State, i: int, j: int, c: int) {
    Touches(s, i, j, c) && s.calls[c].settled
  }

  /** In the log, no clean-up of a forward stopped by a settled call comes after a set-up of a forward spawned
      by that call's resync. */
  ghost predicate Ordered(s: State) {
    forall i, j, c :: Rebuilds(s, i, j, c) ==> i < j
  }

  ghost predicate Inv(s: State) {
    && (forall f :: 0 <= f < |s.fwds| ==> ForwardOk(s.fwds[f]))
    && (forall k :: EntryOk(s, k))
    && (forall c :: 0 <= c < |s.calls| ==> CallOk(s, s.calls[c]))
    && (forall r :: 0 <= r < |s.removals| ==> RemovalOk(s, s.removals[r]))
    && (forall f :: 0 <= f < |s.fwds| ==> OriginOk(s, f) && AskedOk(s, f))
    && (forall e :: e in s.log ==> e.f < |s.fwds|)
    && (forall f :: 0 <= f < |s.fwds| ==> Logged(s, f))
  }

  /** The log holds exactly the actions the cleanup goroutine's position implies. */
  predicate Logged(s: State, f: nat)
    requires f < |s.fwds|
  {
    && (s.fwds[f].cleanup != NoCleanup <==> HostsAdded(f) in s.log)
    && (HostsRemovedBy(s.fwds[f].cleanup) <==> HostsRemoved(f) in s.log)
    && (AliasRemovedBy(s.fwds[f].cleanup) <==> AliasRemoved(f) in s.log)
  }

  /** A live forward that nobody has asked to stop. */
  predicate Wanted(s: State, f: int) {
    0 <= f < |s.fwds| && Active(s.fwds[f]) && !s.fwds[f].asked
  }

  /** Each wanted forward is the one registered under its own key. */
  ghost predicate Owned(s: State) {
    forall f :: Wanted(s, f) ==> OwnsKey(s, f)
  }

  // Each conjunct is kept by each step, one forward, key, call or event at a time.

  /** The steps of a forward's own goroutine. */
  predicate OwnStep(step: Step) {
    || step.AddServicePod? || step.FailEarly? || step.AddHosts? || step.GiveUp?
    || step.ForwardPortsReturns? || step.CloseDone? || step.RemoveOwn?
  }

  lemma OwnStepForwardOk(s: State, step: Step, f: nat)
    requires Enabled(s, step) && f < |s.fwds| && ForwardOk(s.fwds[f]) && OwnStep(step)
    ensures |Apply(s, step).fwds| == |s.fwds| && ForwardOk(Apply(s, step).fwds[f])
  {
  }

  predicate CleanupStep(step: Step) {
    step.CleanupStops? || step.CleanupHosts? || step.CleanupAlias? || step.CleanupFinishes?
  }

  lemma CleanupStepForwardOk(s: State, step: Step, f: nat)
    requires Enabled(s, step) && f < |s.fwds| && ForwardOk(s.fwds[f]) && CleanupStep(step)
    ensures |Apply(s, step).fwds| == |s.fwds| && ForwardOk(Apply(s, step).fwds[f])
  {
  }

  lemma OtherStepForwardOk(s: State, step: Step, f: nat)
    requires Enabled(s, step) && f < |Apply(s, step).fwds| && (f < |s.fwds| ==> ForwardOk(s.fwds[f]))
    requires !OwnStep(step) && !CleanupStep(step)
    ensures ForwardOk(Apply(s, step).fwds[f])
  {
  }

  lemma StepForwardOk(s: State, step: Step, f: nat)
    requires Enabled(s, step) && f < |Apply(s, step).fwds| && (f < |s.fwds| ==> ForwardOk(s.fwds[f]))
    ensures ForwardOk(Apply(s, step).fwds[f])
  {
    hide Apply, ForwardOk;
    if OwnStep(step) || CleanupStep(step) {
      NoneSpawned(s, step);
    }
    if OwnStep(step) {
      OwnStepForwardOk(s, step, f);
    } else if CleanupStep(step) {
      CleanupStepForwardOk(s, step, f);
    } else {
      OtherStepForwardOk(s, step, f);
    }
  }

  predicate EntryOk(s: State, k: string) {
    k in s.reg ==> s.reg[k] < |s.fwds| && s.fwds[s.reg[k]].key == k && Active(s.fwds[s.reg[k]])
  }

  lemma OwnStepEntryOk(s: State, step: Step, k: string)
    requires Enabled(s, step) && EntryOk(s, k) && OwnStep(step)
    ensures EntryOk(Apply(s, step), k)
  {
  }

  lemma OtherStepEntryOk(s: State, step: Step, k: string)
    requires Enabled(s, step) && EntryOk(s, k) && !OwnStep(step)
    ensures EntryOk(Apply(s, step), k)
  {
  }

  lemma StepEntryOk(s: State, step: Step, k: string)
    requires Enabled(s, step) && EntryOk(s, k)
    ensures EntryOk(Apply(s, step), k)
  {
    hide Apply, EntryOk;
    if OwnStep(step) {
      OwnStepEntryOk(s, step, k);
    } else {
      OtherStepEntryOk(s, step, k);
    }
  }

  lemma OwnStepStoppedOk(s: State, step: Step, c: nat, f: nat)
    requires Enabled(s, step) && OwnStep(step) && c < |s.calls| && StoppedOk(s, s.calls[c], f) && ForwardOk(s.fwds[f])
    ensures StoppedOk(Apply(s, step), s.calls[c], f)
  {
  }

  lemma CleanupStepStoppedOk(s: State, step: Step, c: nat, f: nat)
    requires Enabled(s, step) && CleanupStep(step) && c < |s.calls| && StoppedOk(s, s.calls[c], f)
             && ForwardOk(s.fwds[f])
    ensures StoppedOk(Apply(s, step), s.calls[c], f)
  {
  }

  /** The steps of other calls and goroutines, and of call c itself short of its resync. */
  lemma OtherStepStoppedOk(s: State, step: Step, c: nat, f: nat)
    requires Enabled(s, step) && !OwnStep(step) && !CleanupStep(step)
    requires c < |s.calls| && StoppedOk(s, s.calls[c], f) && ForwardOk(s.fwds[f])
    requires f in s.calls[c].stopped && (step.CallResync? ==> step.c != c)
    ensures c < |Apply(s, step).calls| && StoppedOk(Apply(s, step), Apply(s, step).calls[c], f)
  {
    hide Active, OwnsKey, AliasRemovedBy;
    OtherStepKeeps(s, step, f);
  }

  /** Such a step leaves the forward's phase and cleanup alone, and does not register it. */
  lemma OtherStepKeeps(s: State, step: Step, f: nat)
    requires Enabled(s, step) && !OwnStep(step) && !CleanupStep(step) && f < |s.fwds|
    ensures var t := Apply(s, step);
            && f < |t.fwds| && t.fwds[f].phase == s.fwds[f].phase && t.fwds[f].cleanup == s.fwds[f].cleanup
            && t.fwds[f].doneClosed == s.fwds[f].doneClosed
            && (Active(s.fwds[f]) ==> Active(t.fwds[f])) && (OwnsKey(t, f) ==> OwnsKey(s, f))
  {
  }

  lemma ResyncCallOk(s: State, c: nat)
    requires Enabled(s, CallResync(c)) && CallOk(s, s.calls[c])
    ensures CallOk(Apply(s, CallResync(c)), Apply(s, CallResync(c)).calls[c])
  {
    var call, t := s.calls[c], Apply(s, CallResync(c));
    assert forall f :: f in call.stopped ==> StoppedOk(s, call, f);
    forall f | f in call.stopped
      ensures StoppedOk(t, t.calls[c], f)
    {
      assert OwnsKey(t, f) == OwnsKey(s, f);
    }
  }

  /** A call's own sets, short of its resync. */
  lemma StepCallShape(s: State, step: Step, c: nat)
    requires Enabled(s, step) && c < |s.calls| && (step.CallResync? ==> step.c != c)
    ensures
      var call, call' := s.calls[c], Apply(s, step).calls[c];
      && call'.stopped == call.stopped && call'.kind == call.kind && call'.resync == call.resync
      && call'.settled == call.settled
      && call'.toStop <= call.toStop && call'.toWait <= call.toWait && (call.timedOut ==> call'.timedOut)
      && (OwnStep(step) || CleanupStep(step) ==> call' == call)
  {
  }

  lemma NewCallOk(s: State, kind: Kind)
    requires forall k :: EntryOk(s, k)
    ensures CallOk(Apply(s, StopAll(kind)), Apply(s, StopAll(kind)).calls[|s.calls|])
  {
    var t := Apply(s, StopAll(kind));
    forall f | f in s.reg.Values
      ensures StoppedOk(t, t.calls[|s.calls|], f)
    {
      var k :| k in s.reg && s.reg[k] == f;
      assert EntryOk(s, k);
    }
  }

  lemma StepCallOk(s: State, step: Step, c: nat)
    requires Enabled(s, step) && c < |Apply(s, step).calls| && forall f :: 0 <= f < |s.fwds| ==> ForwardOk(s.fwds[f])
    requires if c < |s.calls| then CallOk(s, s.calls[c]) else forall k :: EntryOk(s, k)
    ensures CallOk(Apply(s, step), Apply(s, step).calls[c])
  {
    if c >= |s.calls| {
      assert step.StopAll? && c == |s.calls|;
      NewCallOk(s, step.kind);
    } else if step == CallResync(c) {
      ResyncCallOk(s, c);
    } else {
      StepCallShape(s, step, c);
      hide Apply, Enabled, EntryOk, ForwardOk, StoppedOk;
      forall f | f in s.calls[c].stopped
        ensures StoppedOk(Apply(s, step), Apply(s, step).calls[c], f)
      {
        assert StoppedOk(s, s.calls[c], f);
        InRange(s, s.calls[c], f);
        if OwnStep(step) {
          OwnStepStoppedOk(s, step, c, f);
        } else if CleanupStep(step) {
          CleanupStepStoppedOk(s, step, c, f);
        } else {
          OtherStepStoppedOk(s, step, c, f);
        }
      }
    }
  }

  lemma InRange(s: State, call: Call, f: nat)
    requires StoppedOk(s, call, f)
    ensures f < |s.fwds|
  {
  }

  lemma NewRemovalOk(s: State, key: string)
    requires Enabled(s, FindPod(key)) && EntryOk(s, key)
    ensures RemovalOk(Apply(s, FindPod(key)), Apply(s, FindPod(key)).removals[|s.removals|])
  {
  }

  lemma OwnStepRemovalOk(s: State, step: Step, r: nat)
    requires Enabled(s, step) && OwnStep(step) && r < |s.removals| && RemovalOk(s, s.removals[r])
    ensures r < |Apply(s, step).removals| && RemovalOk(Apply(s, step), Apply(s, step).removals[r])
  {
  }

  lemma OtherStepRemovalOk(s: State, step: Step, r: nat)
    requires Enabled(s, step) && !OwnStep(step) && r < |s.removals| && RemovalOk(s, s.removals[r])
    ensures r < |Apply(s, step).removals| && RemovalOk(Apply(s, step), Apply(s, step).removals[r])
  {
  }

  lemma RemovalsGrow(s: State, step: Step)
    requires Enabled(s, step) && |Apply(s, step).removals| > |s.removals|
    ensures step.FindPod? && |Apply(s, step).removals| == |s.removals| + 1
  {
  }

  lemma StepRemovalOk(s: State, step: Step, r: nat)
    requires Enabled(s, step) && r < |Apply(s, step).removals|
    requires if r < |s.removals| then RemovalOk(s, s.removals[r]) else forall k :: EntryOk(s, k)
    ensures RemovalOk(Apply(s, step), Apply(s, step).removals[r])
  {
    hide Apply, RemovalOk, EntryOk;
    if r >= |s.removals| {
      RemovalsGrow(s, step);
      NewRemovalOk(s, step.key);
    } else if OwnStep(step) {
      OwnStepRemovalOk(s, step, r);
    } else {
      OtherStepRemovalOk(s, step, r);
    }
  }

  predicate OriginOk(s: State, f: nat)
    requires f < |s.fwds|
  {
    s.fwds[f].origin.Some? ==> s.fwds[f].origin.value < |s.calls| && s.calls[s.fwds[f].origin.value].resync
  }

  predicate ToStop(s: State, c: int, f: nat) {
    0 <= c < |s.calls| && f in s.calls[c].toStop
  }

  /** Who has been asked to stop has had Stop called, or a call still has to. */
  ghost predicate AskedOk(s: State, f: nat)
    requires f < |s.fwds|
  {
    s.fwds[f].asked ==> s.fwds[f].stopOnce || exists c :: ToStop(s, c, f)
  }

  lemma StepAskedOk(s: State, step: Step, f: nat)
    requires Enabled(s, step) && f < |Apply(s, step).fwds| && (f < |s.fwds| ==> AskedOk(s, f))
    ensures AskedOk(Apply(s, step), f)
  {
    var t := Apply(s, step);
    if f < |s.fwds| && t.fwds[f].asked && !t.fwds[f].stopOnce {
      if s.fwds[f].asked {
        var c :| ToStop(s, c, f);
        assert ToStop(t, c, f);
      } else {
        assert ToStop(t, |s.calls|, f);
      }
    }
  }

  lemma StepOriginOk(s: State, step: Step, f: nat)
    requires Enabled(s, step) && f < |Apply(s, step).fwds| && (f < |s.fwds| ==> OriginOk(s, f))
    ensures OriginOk(Apply(s, step), f)
  {
  }

  /** What a step writes to the log. */
  function Written(s: State, step: Step): seq<Event> {
    match step
    case Spawn(_, _) => [AliasAdded(|s.fwds|)]
    case AddHosts(f) => [HostsAdded(f)]
    case CleanupHosts(f) => [HostsRemoved(f)]
    case CleanupAlias(f) => [AliasRemoved(f)]
    case _ => []
  }

  lemma LogGrows(s: State, step: Step)
    requires Enabled(s, step)
    ensures Apply(s, step).log == s.log + Written(s, step)
  {
  }

  lemma OwnStepLogged(s: State, step: Step, f: nat)
    requires Enabled(s, step) && OwnStep(step) && f < |s.fwds| && ForwardOk(s.fwds[f]) && Logged(s, f)
    ensures f < |Apply(s, step).fwds| && Logged(Apply(s, step), f)
  {
    LogGrows(s, step);
  }

  lemma OtherStepLogged(s: State, step: Step, f: nat)
    requires Enabled(s, step) && !OwnStep(step) && f < |Apply(s, step).fwds|
    requires if f < |s.fwds| then ForwardOk(s.fwds[f]) && Logged(s, f) else forall e :: e in s.log ==> e.f < |s.fwds|
    ensures Logged(Apply(s, step), f)
  {
    LogGrows(s, step);
  }

  lemma NoneSpawned(s: State, step: Step)
    requires Enabled(s, step) && (OwnStep(step) || CleanupStep(step))
    ensures |Apply(s, step).fwds| == |s.fwds|
  {
  }

  lemma StepLogged(s: State, step: Step, f: nat)
    requires Enabled(s, step) && f < |Apply(s, step).fwds|
    requires if f < |s.fwds| then ForwardOk(s.fwds[f]) && Logged(s, f) else forall e :: e in s.log ==> e.f < |s.fwds|
    ensures Logged(Apply(s, step), f)
  {
    hide Apply, Logged, ForwardOk;
    if OwnStep(step) {
      NoneSpawned(s, step);
      OwnStepLogged(s, step, f);
    } else {
      OtherStepLogged(s, step, f);
    }
  }

  lemma StepInv(s: State, step: Step)
    requires Inv(s) && Enabled(s, step)
    ensures Inv(Apply(s, step))
  {
    hide Apply, Enabled, ForwardOk, CallOk, RemovalOk, Logged, OriginOk, AskedOk;
    var t := Apply(s, step);
    forall k
      ensures EntryOk(s, k) && EntryOk(t, k) && (k in s.reg ==> s.reg[k] < |s.fwds|)
    {
      assert EntryOk(s, k);
      StepEntryOk(s, step, k);
    }
    hide EntryOk;
    forall f | 0 <= f < |t.fwds|
      ensures ForwardOk(t.fwds[f]) && Logged(t, f) && OriginOk(t, f) && AskedOk(t, f)
    {
      StepForwardOk(s, step, f);
      StepLogged(s, step, f);
      StepOriginOk(s, step, f);
      StepAskedOk(s, step, f);
    }
    forall c | 0 <= c < |t.calls|
      ensures CallOk(t, t.calls[c])
    {
      StepCallOk(s, step, c);
    }
    forall r | 0 <= r < |t.removals|
      ensures RemovalOk(t, t.removals[r])
    {
      StepRemovalOk(s, step, r);
    }
    LogGrows(s, step);
    WrittenOk(s, step);
  }

  lemma WrittenOk(s: State, step: Step)
    requires Enabled(s, step)
    ensures |s.fwds| <= |Apply(s, step).fwds|
    ensures forall e :: e in Written(s, step) ==> e.f < |Apply(s, step).fwds|
  {
  }

  lemma OriginStays(s: State, step: Step, f: nat)
    requires Enabled(s, step) && f < |s.fwds|
    ensures f < |Apply(s, step).fwds| && Apply(s, step).fwds[f].origin == s.fwds[f].origin
  {
  }

  lemma HistoryStays(s: State, step: Step)
    requires Enabled(s, step)
    ensures |s.calls| <= |Apply(s, step).calls|
    ensures forall c :: 0 <= c < |s.calls| ==>
              var call, call' := s.calls[c], Apply(s, step).calls[c];
              call'.stopped == call.stopped && call'.kind == call.kind
                && (call.resync ==> call'.resync && call'.settled == call.settled)
  {
  }

  /** What writes a clean-up may clean. */
  lemma CleanerMayClean(s: State, step: Step, e: Event)
    requires Enabled(s, step) && e in Written(s, step) && !Setup(e)
    ensures e.f < |s.fwds| && (ForwardOk(s.fwds[e.f]) ==> MayClean(s.fwds[e.f]))
  {
  }

  lemma StepRebuilds(s: State, step: Step, i: int, j: int, c: int)
    requires Inv(s) && Enabled(s, step) && Rebuilds(Apply(s, step), i, j, c)
    ensures i < j || Rebuilds(s, i, j, c)
  {
    hide Apply, Enabled, EntryOk, RemovalOk, Logged, ForwardOk;
    LogGrows(s, step);
    HistoryStays(s, step);
    if j < |s.log| {
      var h := s.log[j].f;
      assert s.log[j] in s.log && OriginOk(s, h);
      OriginStays(s, step, h);
      assert CallOk(s, s.calls[c]);
      if i >= |s.log| {
        CleanerMayClean(s, step, Written(s, step)[i - |s.log|]);
        assert false;
      }
    }
  }

  lemma StepOrdered(s: State, step: Step)
    requires Inv(s) && Ordered(s) && Enabled(s, step)
    ensures Ordered(Apply(s, step))
  {
    hide Apply, Enabled, Inv, Rebuilds;
    forall i, j, c | Rebuilds(Apply(s, step), i, j, c)
      ensures i < j
    {
      StepRebuilds(s, step, i, j, c);
    }
  }

  /** The key that DeletePod drops without an identity check holds no forward that is still wanted. */
  predicate SafeDelete(s: State, r: nat) {
    r < |s.removals| &&
    var key := s.removals[r].key;
    key in s.reg && s.reg[key] < |s.fwds| ==> s.fwds[s.reg[key]].asked
  }

  predicate OwnsKey(s: State, f: int) {
    0 <= f < |s.fwds| && s.fwds[f].key in s.reg && s.reg[s.fwds[f].key] == f
  }

  lemma StepWanted(s: State, step: Step, f: int)
    requires Enabled(s, step) && (step.DeletePod? ==> SafeDelete(s, step.r))
    requires Wanted(s, f) ==> OwnsKey(s, f)
    requires Wanted(Apply(s, step), f)
    ensures OwnsKey(Apply(s, step), f)
  {
  }

  lemma StepOwned(s: State, step: Step)
    requires Owned(s) && Enabled(s, step) && (step.DeletePod? ==> SafeDelete(s, step.r))
    ensures Owned(Apply(s, step))
  {
    hide Apply, Enabled, Wanted, OwnsKey, SafeDelete;
    forall f | Wanted(Apply(s, step), f)
      ensures OwnsKey(Apply(s, step), f)
    {
      StepWanted(s, step, f);
    }
  }

  // ---------- Every run ----------

  lemma {:induction false} RunInv(steps: seq<Step>)
    requires After(steps).Some?
    ensures Inv(After(steps).value) && Ordered(After(steps).value)
  {
    hide Inv, Ordered, Apply, Enabled;
    if steps == [] {
      InitInv();
    } else {
      var front, last := steps[..|steps| - 1], steps[|steps| - 1];
      RunInv(front);
      StepInv(After(front).value, last);
      StepOrdered(After(front).value, last);
    }
  }

  lemma InitInv()
    ensures Inv(INIT) && Ordered(INIT) && Owned(INIT)
  {
  }

  /** The identity guard that removeOwnForward has and RemoveServicePod lacks: the key, if it is still there, is still
      the forward that was found. */
  predicate SameEntry(s: State, r: nat) {
    r < |s.removals| && (s.removals[r].key in s.reg ==> s.reg[s.removals[r].key] == s.removals[r].target)
  }

  lemma SameEntryIsSafe(s: State, r: nat)
    requires Inv(s) && Enabled(s, DeletePod(r)) && SameEntry(s, r)
    ensures SafeDelete(s, r)
  {
    assert RemovalOk(s, s.removals[r]);
  }

  /** The step makes a forward succeed in AddServicePod under the key. */
  predicate Registers(s: State, step: Step, key: string) {
    step.AddServicePod? && step.f < |s.fwds| && s.fwds[step.f].key == key && key !in s.reg
  }

  /** Step i of the run is the FindPod of removal r. */
  predicate Finds(steps: seq<Step>, i: int, r: nat) {
    0 <= i < |steps| && steps[i].FindPod? && After(steps[..i]).Some? && |After(steps[..i]).value.removals| == r
  }

  predicate RegistersAt(steps: seq<Step>, j: int, key: string) {
    0 <= j < |steps| && After(steps[..j]).Some? && Registers(After(steps[..j]).value, steps[j], key)
  }

  predicate Deletes(steps: seq<Step>, d: int, r: nat) {
    0 <= d < |steps| && steps[d] == DeletePod(r)
  }

  /** Between the FindPod and the DeletePod of any one removal, no forward registers under its key. */
  ghost predicate Undisturbed(steps: seq<Step>) {
    forall r, i, j, d :: Finds(steps, i, r) && i < j < d && RegistersAt(steps, j, steps[i].key) ==>
      !Deletes(steps, d, r)
  }

  lemma InPrefix(steps: seq<Step>, m: nat, i: int, r: nat, j: int, key: string, d: int)
    requires m <= |steps| && i < m && j < m && d < m
    ensures Finds(steps[..m], i, r) <==> Finds(steps, i, r)
    ensures RegistersAt(steps[..m], j, key) <==> RegistersAt(steps, j, key)
    ensures Deletes(steps[..m], d, r) <==> Deletes(steps, d, r)
  {
    hide After, Registers;
    assert 0 <= i ==> steps[..m][..i] == steps[..i];
    assert 0 <= j ==> steps[..m][..j] == steps[..j];
  }

  lemma PrefixUndisturbed(steps: seq<Step>, m: nat)
    requires m <= |steps| && Undisturbed(steps)
    ensures Undisturbed(steps[..m])
  {
    hide RegistersAt;
    var front := steps[..m];
    forall r, i, j, d | Finds(front, i, r) && i < j < d && RegistersAt(front, j, front[i].key)
      ensures !Deletes(front, d, r)
    {
      if d < m {
        InPrefix(steps, m, i, r, j, steps[i].key, d);
      }
    }
  }

  lemma StepSameEntry(s: State, step: Step, r: nat)
    requires Enabled(s, step) && r < |Apply(s, step).removals|
    requires r < |s.removals| ==> SameEntry(s, r) && !Registers(s, step, s.removals[r].key)
    ensures SameEntry(Apply(s, step), r)
    ensures r < |s.removals| ==> Apply(s, step).removals[r].key == s.removals[r].key
    ensures r >= |s.removals| ==> step.FindPod? && r == |s.removals| && Apply(s, step).removals[r].key == step.key
  {
  }

  /** A removal was found at some step of the run; if no forward registered under its key since, the guard holds. */
  lemma {:induction false} FoundAndKept(steps: seq<Step>, r: nat) returns (i: nat)
    requires After(steps).Some? && r < |After(steps).value.removals|
    ensures Finds(steps, i, r) && steps[i].key == After(steps).value.removals[r].key
    ensures (forall j :: i < j < |steps| ==> !RegistersAt(steps, j, steps[i].key)) ==> SameEntry(After(steps).value, r)
  {
    hide Apply, Enabled, SameEntry, Registers;
    var m := |steps| - 1;
    var front, before := steps[..m], After(steps[..m]).value;
    assert forall j :: 0 <= j < m ==> front[..j] == steps[..j] && front[j] == steps[j];
    if r < |before.removals| {
      i := FoundAndKept(front, r);
      assert Finds(steps, i, r);
      if forall j :: i < j < |steps| ==> !RegistersAt(steps, j, steps[i].key) {
        forall j | i < j < m
          ensures !RegistersAt(front, j, front[i].key)
        {
          assert !RegistersAt(steps, j, steps[i].key);
        }
        assert !RegistersAt(steps, m, steps[i].key);
        StepSameEntry(before, steps[m], r);
      }
      KeyStays(before, steps[m], r);
    } else {
      i := m;
      StepSameEntry(before, steps[m], r);
    }
  }

  lemma KeyStays(s: State, step: Step, r: nat)
    requires Enabled(s, step) && r < |s.removals|
    ensures r < |Apply(s, step).removals| && Apply(s, step).removals[r].key == s.removals[r].key
  {
  }

  /** In every interleaving in which no forward registers under the key of a RemoveServicePod between its look-up and
      its deletion, each live forward that no one has asked to stop is the one registered under its own key; so there is
      at most one such forward per key. */
  lemma {:induction false} LiveForwardsAreRegistered(steps: seq<Step>)
    requires After(steps).Some? && Undisturbed(steps)
    ensures Owned(After(steps).value)
    ensures var s := After(steps).value;
            forall f, g :: Wanted(s, f) && Wanted(s, g) && s.fwds[f].key == s.fwds[g].key ==> f == g
    ensures OpenOwned(After(steps).value)
  {
    OpenForwardsOwned(steps);
    hide Inv, Ordered, OpenOwned, Apply, Enabled, SafeDelete, Active, SameEntry, Undisturbed, Finds, RegistersAt;
    if steps == [] {
      InitInv();
    } else {
      var m := |steps| - 1;
      PrefixUndisturbed(steps, m);
      LiveForwardsAreRegistered(steps[..m]);
      if steps[m].DeletePod? {
        UndisturbedIsSafe(steps);
      }
      StepOwned(After(steps[..m]).value, steps[m]);
    }
  }

  lemma UndisturbedIsSafe(steps: seq<Step>)
    requires After(steps).Some? && Undisturbed(steps) && steps != [] && steps[|steps| - 1].DeletePod?
    ensures var m := |steps| - 1; After(steps[..m]).Some? && SafeDelete(After(steps[..m]).value, steps[m].r)
  {
    hide Inv, Ordered, Apply, SafeDelete, SameEntry, Finds, RegistersAt;
    hide After, Registers, Enabled;
    var m := |steps| - 1;
    LastStep(steps);
    var front, r := steps[..m], steps[m].r;
    DeletesFound(After(front).value, r);
    var i := FoundAndKept(front, r);
    FoundBefore(front, i, r);
    forall j | i < j < m
      ensures !RegistersAt(front, j, front[i].key)
    {
      InPrefix(steps, m, i, r, j, steps[i].key, i);
      assert Deletes(steps, m, r);
    }
    RunInv(front);
    SameEntryIsSafe(After(front).value, r);
  }

  lemma LastStep(steps: seq<Step>)
    requires After(steps).Some? && steps != []
    ensures var m := |steps| - 1; After(steps[..m]).Some? && Enabled(After(steps[..m]).value, steps[m])
  {
    hide Apply, Enabled;
  }

  lemma DeletesFound(s: State, r: nat)
    requires Enabled(s, DeletePod(r))
    ensures r < |s.removals|
  {
  }

  lemma FoundBefore(steps: seq<Step>, i: int, r: nat)
    ensures Finds(steps, i, r) ==> 0 <= i < |steps| && steps[i].FindPod?
  {
  }

  /** Registered or running, with both its channels open, and in no call's list of forwards to stop. */
  ghost predicate Open(s: State, f: int) {
    && 0 <= f < |s.fwds| && Active(s.fwds[f]) && !s.fwds[f].stopClosed && !s.fwds[f].doneClosed
    && forall c :: !ToStop(s, c, f)
  }

  ghost predicate OpenOwned(s: State) {
    forall f :: Open(s, f) ==> OwnsKey(s, f)
  }

  lemma OpenForwardsOwned(steps: seq<Step>)
    requires After(steps).Some?
    ensures Owned(After(steps).value) ==> OpenOwned(After(steps).value)
  {
    hide After, Inv, Ordered, Open, Wanted, OwnsKey;
    var s := After(steps).value;
    RunInv(steps);
    forall f | Open(s, f)
      ensures Wanted(s, f)
    {
      OpenIsWanted(s, f);
    }
  }

  /** An open forward is a wanted one, so whenever wanted forwards are registered, open ones are. */
  lemma OpenIsWanted(s: State, f: int)
    requires Inv(s) && Open(s, f)
    ensures Wanted(s, f)
  {
    assert ForwardOk(s.fwds[f]) && AskedOk(s, f);
  }

  /** An entry is never replaced, and it leaves the map only when its own forward exits, when a stopAllPortForwards
      clears the map, or when a RemoveServicePod of its key deletes it: an exit never unregisters a replacement. */
  lemma EntriesLeaveOnlyBy(s: State, step: Step, key: string)
    requires Inv(s) && Enabled(s, step) && key in s.reg
    ensures
      var t := Apply(s, step);
      key !in t.reg || t.reg[key] != s.reg[key] ==>
        && key !in t.reg
        && (step == RemoveOwn(s.reg[key]) || step.StopAll? || (step.DeletePod? && s.removals[step.r].key == key))
  {
  }

  /** The entry the deletion would drop, if any, has its stop or its done channel closed: two selects can tell. */
  predicate EntryClosed(s: State, key: string) {
    key in s.reg && s.reg[key] < |s.fwds| ==> s.fwds[s.reg[key]].stopClosed || s.fwds[s.reg[key]].doneClosed
  }

  /** The deletion at the end of RemoveServicePod keeps every open forward registered exactly when the forward now under
      the key, if any, has one of its channels closed. */
  lemma DeletePodKeepsOpenIff(s: State, r: nat)
    requires Inv(s) && OpenOwned(s) && Enabled(s, DeletePod(r))
    ensures OpenOwned(Apply(s, DeletePod(r))) <==> EntryClosed(s, s.removals[r].key)
  {
    var key, t := s.removals[r].key, Apply(s, DeletePod(r));
    assert EntryOk(s, key);
    hide Inv;
    assert forall c, f :: ToStop(t, c, f) <==> ToStop(s, c, f);
    if EntryClosed(s, key) {
      forall f | Open(t, f)
        ensures OwnsKey(t, f)
      {
        assert Open(s, f);
      }
    } else {
      var f := s.reg[key];
      RegisteredNotToStop(s, key);
      assert Open(t, f) && !OwnsKey(t, f);
    }
  }

  lemma RegisteredNotToStop(s: State, key: string)
    requires key in s.reg && EntryOk(s, key) && forall c :: 0 <= c < |s.calls| ==> CallOk(s, s.calls[c])
    ensures forall c :: !ToStop(s, c, s.reg[key])
  {
    var f := s.reg[key];
    forall c
      ensures !ToStop(s, c, f)
    {
      assert 0 <= c < |s.calls| ==> CallOk(s, s.calls[c]);
      assert 0 <= c < |s.calls| && f in s.calls[c].stopped ==> StoppedOk(s, s.calls[c], f);
    }
  }

  lemma Extend(steps: seq<Step>, s: State, step: Step) returns (steps': seq<Step>, t: State)
    requires After(steps) == Some(s) && Enabled(s, step)
    ensures steps' == steps + [step] && After(steps') == Some(t) && t == Apply(s, step)
  {
    hide Apply, Enabled;
    steps', t := steps + [step], Apply(s, step);
    assert steps'[..|steps|] == steps;
  }

  /** The hypothesis on runs is needed: from any run that is about to delete the entry it found, or the key without
      entry, a continuation registers a forward in between, and the deletion unregisters it. */
  lemma RemovalCanUnregister(run: seq<Step>, s: State, r: nat) returns (run': seq<Step>, t: State, f: nat)
    requires After(run) == Some(s) && Enabled(s, DeletePod(r)) && SameEntry(s, r)
    ensures run <= run' && After(run') == Some(t)
    ensures Wanted(t, f) && t.fwds[f].key == s.removals[r].key && t.fwds[f].key !in t.reg && !Owned(t)
  {
    hide After, Ordered;
    RunInv(run);
    var key, target := s.removals[r].key, s.removals[r].target;
    assert EntryOk(s, key) && ForwardOk(s.fwds[target]);
    hide Inv;
    run', t := run, s;
    if key in s.reg {
      run', t := Extend(run', t, RemoveOwn(target));
    }
    f := |s.fwds|;
    run', t := Extend(run', t, Spawn(key, None));
    run', t := Extend(run', t, AddServicePod(f));
    run', t := Extend(run', t, DeletePod(r));
  }

  lemma StoppedBeforeExit(key: string) returns (p: seq<Step>, s: State)
    ensures After(p) == Some(s) && Enabled(s, DeletePod(0)) && SameEntry(s, 0)
  {
    hide After;
    AfterNothing();
    p, s := Extend([], INIT, Spawn(key, None));
    p, s := Extend(p, s, AddServicePod(0));
    p, s := Extend(p, s, FindPod(key));
    p, s := Extend(p, s, StopPod(0));
    p, s := Extend(p, s, FailEarly(0));
  }

  /** Such a run from the start: a forward exits and is replaced between the wait and the deletion. */
  lemma RemoveServicePodCanUnregisterReplacement(key: string)
    ensures exists steps :: After(steps).Some? && !Owned(After(steps).value)
  {
    hide After, Enabled, SameEntry, Owned;
    var p, s := StoppedBeforeExit(key);
    var p', t, _ := RemovalCanUnregister(p, s, 0);
  }

  lemma AfterNothing()
    ensures After([]) == Some(INIT)
  {
  }

  /** Whenever DoneChan is closed on a forward whose AddHosts succeeded, its cleanup has finished: its hosts
      and its alias are gone. This holds however ForwardPorts returns. */
  lemma DoneMeansCleaned(steps: seq<Step>, f: nat)
    requires After(steps).Some? && f < |After(steps).value.fwds|
    ensures var s := After(steps).value;
            s.fwds[f].doneClosed && HostsAdded(f) in s.log ==>
              s.fwds[f].cleanup == Finished && HostsRemoved(f) in s.log && AliasRemoved(f) in s.log
  {
    RunInv(steps);
    assert Logged(After(steps).value, f);
  }

  // ---------- Cleaning before rebuilding ----------

  /** In every interleaving, for a call of any kind whose resync began once nothing it had stopped could still write a
      cleanup: every forward it stopped had its hosts and alias removed before any set-up of a forward its resync
      spawned, and no cleanup of such a forward comes later. */
  lemma SettledCleansBeforeRebuild(steps: seq<Step>, c: nat, j: nat, g: nat)
    requires After(steps).Some?
    requires var s := After(steps).value;
             && c < |s.calls| && s.calls[c].settled && g in s.calls[c].stopped
             && j < |s.log| && Setup(s.log[j]) && s.log[j].f < |s.fwds| && s.fwds[s.log[j].f].origin == Some(c)
    ensures var s := After(steps).value;
            && g < |s.fwds| && !MayClean(s.fwds[g])
            && (HostsAdded(g) in s.log ==> HostsRemoved(g) in s.log[..j] && AliasRemoved(g) in s.log[..j])
            && (forall i :: 0 <= i < |s.log| && (s.log[i] == HostsRemoved(g) || s.log[i] == AliasRemoved(g)) ==> i < j)
  {
    hide After;
    RunInv(steps);
    SettledOrder(After(steps).value, c, j, g);
  }

  lemma SettledOrder(s: State, c: nat, j: nat, g: nat)
    requires Inv(s) && Ordered(s)
    requires c < |s.calls| && s.calls[c].settled && g in s.calls[c].stopped
    requires j < |s.log| && Setup(s.log[j]) && s.log[j].f < |s.fwds| && s.fwds[s.log[j].f].origin == Some(c)
    ensures g < |s.fwds| && !MayClean(s.fwds[g])
    ensures forall i :: 0 <= i < |s.log| && (s.log[i] == HostsRemoved(g) || s.log[i] == AliasRemoved(g)) ==> i < j
    ensures HostsAdded(g) in s.log ==> HostsRemoved(g) in s.log[..j] && AliasRemoved(g) in s.log[..j]
  {
    assert CallOk(s, s.calls[c]) && StoppedOk(s, s.calls[c], g);
    assert ForwardOk(s.fwds[g]) && Logged(s, g);
    hide Inv, CallOk, StoppedOk;
    forall i | 0 <= i < |s.log| && (s.log[i] == HostsRemoved(g) || s.log[i] == AliasRemoved(g))
      ensures i < j
    {
      assert Rebuilds(s, i, j, c);
    }
    if HostsAdded(g) in s.log {
      var a :| 0 <= a < |s.log| && s.log[a] == HostsRemoved(g);
      var b :| 0 <= b < |s.log| && s.log[b] == AliasRemoved(g);
      assert s.log[..j][a] == HostsRemoved(g) && s.log[..j][b] == AliasRemoved(g);
    }
  }

  /** An UpdateService call whose waits did not time out is settled: every forward it stopped is done. */
  lemma UpdateCleansBeforeRebuild(steps: seq<Step>, c: nat, j: nat, g: nat)
    requires After(steps).Some?
    requires var s := After(steps).value;
             && c < |s.calls| && s.calls[c].kind.Update? && !s.calls[c].timedOut && g in s.calls[c].stopped
             && j < |s.log| && Setup(s.log[j]) && s.log[j].f < |s.fwds| && s.fwds[s.log[j].f].origin == Some(c)
    ensures var s := After(steps).value;
            && g < |s.fwds| && s.fwds[g].doneClosed
            && (HostsAdded(g) in s.log ==> HostsRemoved(g) in s.log[..j] && AliasRemoved(g) in s.log[..j])
            && (forall i :: 0 <= i < |s.log| && (s.log[i] == HostsRemoved(g) || s.log[i] == AliasRemoved(g)) ==> i < j)
  {
    hide After;
    var s := After(steps).value;
    RunInv(steps);
    assert CallOk(s, s.calls[c]) && OriginOk(s, s.log[j].f) && StoppedOk(s, s.calls[c], g);
    SettledCleansBeforeRebuild(steps, c, j, g);
  }

  /** If every DoneChan of the forwards a call stopped is closed, the call is settled. */
  lemma DoneMeansSettled(s: State, call: Call)
    ensures (forall f :: f in call.stopped && f < |s.fwds| ==> s.fwds[f].doneClosed) ==> Settled(s, call)
  {
  }

  /** In the log, every cleanup of what the call stopped comes before every set-up of what its resync spawned. */
  ghost predicate InOrder(s: State, c: int) {
    forall i, j :: Touches(s, i, j, c) ==> i < j
  }

  ghost predicate AlwaysInOrder(run: seq<Step>, c: int) {
    forall more :: After(run + more).Some? ==> InOrder(After(run + more).value, c)
  }

  /** For a call of any kind about to resync: in every continuation its cleanups come before its set-ups exactly when
      none of the forwards it stopped may still clean. A caller makes sure of it by waiting for every DoneChan. */
  lemma ResyncKeepsOrderIff(run: seq<Step>, s: State, c: nat)
    requires After(run) == Some(s) && Enabled(s, CallResync(c))
    ensures AlwaysInOrder(run + [CallResync(c)], c) <==> Settled(s, s.calls[c])
  {
    hide After, Apply, Touches, MayClean, Enabled;
    var run', t := Extend(run, s, CallResync(c));
    assert run' == run + [CallResync(c)];
    ResyncRecords(s, c);
    if Settled(s, s.calls[c]) {
      forall more | After(run' + more).Some?
        ensures InOrder(After(run' + more).value, c)
      {
        SettledStays(run', t, more, c);
        RunInv(run' + more);
        assert forall i, j :: Touches(After(run' + more).value, i, j, c) ==>
                 Rebuilds(After(run' + more).value, i, j, c);
      }
    } else {
      var f :| f in s.calls[c].stopped && f < |s.fwds| && MayClean(s.fwds[f]);
      var key := FreshKey(s.reg.Keys);
      var more, i, j, u := LateCleanup(run, s, c, f, key);
      assert Touches(u, i, j, c) && !InOrder(u, c);
    }
  }

  /** So it is enough to wait until every DoneChan of the forwards the call stopped is closed. */
  lemma DoneKeepsOrder(run: seq<Step>, s: State, c: nat)
    requires After(run) == Some(s) && Enabled(s, CallResync(c))
    requires forall f :: f in s.calls[c].stopped && f < |s.fwds| ==> s.fwds[f].doneClosed
    ensures AlwaysInOrder(run + [CallResync(c)], c)
  {
    hide After, AlwaysInOrder, Settled;
    DoneMeansSettled(s, s.calls[c]);
    ResyncKeepsOrderIff(run, s, c);
  }

  lemma ResyncRecords(s: State, c: nat)
    requires Enabled(s, CallResync(c))
    ensures var t := Apply(s, CallResync(c));
            c < |s.calls| && c < |t.calls| && t.calls[c].resync && t.calls[c].settled == Settled(s, s.calls[c])
  {
  }

  lemma {:induction false} SettledStays(run: seq<Step>, s: State, more: seq<Step>, c: nat)
    requires After(run) == Some(s) && c < |s.calls| && s.calls[c].resync && After(run + more).Some?
    ensures var t := After(run + more).value;
            c < |t.calls| && t.calls[c].resync && t.calls[c].settled == s.calls[c].settled
  {
    hide Apply, Enabled;
    if more == [] {
      assert run + more == run;
    } else {
      var m := |more| - 1;
      assert (run + more)[..|run + more| - 1] == run + more[..m] && (run + more)[|run + more| - 1] == more[m];
      SettledStays(run, s, more[..m], c);
      HistoryStays(After(run + more[..m]).value, more[m]);
    }
  }

  lemma {:induction false} Longest(keys: set<string>) returns (n: nat)
    ensures forall k :: k in keys ==> |k| <= n
    decreases keys
  {
    n := 0;
    if k :| k in keys {
      n := Longest(keys - {k});
      n := if |k| > n then |k| else n;
    }
  }

  lemma FreshKey(keys: set<string>) returns (key: string)
    ensures key !in keys
  {
    var n := Longest(keys);
    key := seq(n + 1, _ => 'x');
  }

  /** Event j of the log adds the hosts of a forward of the key, spawned by the resync of call c, which runs under that
      key; event i, later, cleans up forward f, which the call stopped. */
  predicate CleansUnder(t: State, i: int, j: int, c: int, f: nat, key: string) {
    && Touches(t, i, j, c) && i > j && t.log[i].f == f && t.log[j].HostsAdded?
    && t.fwds[t.log[j].f].key == key && t.fwds[t.log[j].f].phase.Running? && OwnsKey(t, t.log[j].f)
  }

  /** The converse: from any run in which the call is about to resync while a forward it stopped may still clean, and
      for any key without entry, a continuation registers a forward of that key and adds its hosts for the resync, and
      cleans up the old forward after that: its hosts if they were still there, else its alias. */
  lemma LateCleanup(run: seq<Step>, s: State, c: nat, f: nat, key: string)
    returns (more: seq<Step>, i: nat, j: nat, t: State)
    requires After(run) == Some(s) && Enabled(s, CallResync(c)) && key !in s.reg
    requires f in s.calls[c].stopped && f < |s.fwds| && MayClean(s.fwds[f])
    ensures After(run + [CallResync(c)] + more) == Some(t) && CleansUnder(t, i, j, c, f, key)
    ensures !HostsRemovedBy(s.fwds[f].cleanup) ==> t.log[i].HostsRemoved?
  {
    hide After;
    RunInv(run);
    assert CallOk(s, s.calls[c]) && StoppedOk(s, s.calls[c], f) && ForwardOk(s.fwds[f]);
    hide Inv, Ordered, CallOk, StoppedOk, ForwardOk;
    var p, q := Extend(run, s, CallResync(c));
    p, q := SpawnWithHosts(p, q, c, key);
    p, t := CleanNext(p, q, f);
    more := p[|run| + 1..];
    assert run + [CallResync(c)] + more == p;
    i, j := |t.log| - 1, |s.log| + 1;
  }

  /** A resync spawns a forward of a key without entry, and the forward gets as far as its hosts. */
  lemma SpawnWithHosts(run: seq<Step>, s: State, c: nat, key: string) returns (run': seq<Step>, t: State)
    requires After(run) == Some(s) && key !in s.reg && c < |s.calls| && s.calls[c].resync
    ensures After(run') == Some(t) && run <= run' && t.calls == s.calls
    ensures t.log == s.log + [AliasAdded(|s.fwds|), HostsAdded(|s.fwds|)]
    ensures t.fwds == s.fwds + [Forward(key, Some(c), Running, Waiting, false, false, false, false)]
    ensures t.reg == s.reg[key := |s.fwds|]
  {
    hide After;
    run', t := Extend(run, s, Spawn(key, Some(c)));
    run', t := Extend(run', t, AddServicePod(|s.fwds|));
    run', t := Extend(run', t, AddHosts(|s.fwds|));
  }

  lemma {:induction false} CleanNext(run: seq<Step>, s: State, f: nat) returns (run': seq<Step>, t: State)
    requires After(run) == Some(s) && f < |s.fwds| && ForwardOk(s.fwds[f])
    requires MayClean(s.fwds[f]) && s.fwds[f].stopClosed && !s.fwds[f].phase.Spawned? && !s.fwds[f].phase.Duplicate?
    ensures After(run') == Some(t) && run <= run' && s.log < t.log && t.calls == s.calls && |t.fwds| == |s.fwds|
    ensures t.reg == s.reg && forall g :: 0 <= g < |s.fwds| && g != f ==> t.fwds[g] == s.fwds[g]
    ensures !Setup(t.log[|t.log| - 1]) && t.log[|t.log| - 1].f == f
    ensures !HostsRemovedBy(s.fwds[f].cleanup) ==> t.log[|t.log| - 1].HostsRemoved?
    decreases match s.fwds[f].cleanup case NoCleanup => 2 case Waiting => 1 case _ => 0
  {
    hide After;
    match s.fwds[f].cleanup
    case NoCleanup =>
      run', t := Extend(run, s, AddHosts(f));
      run', t := CleanNext(run', t, f);
    case Waiting =>
      run', t := Extend(run, s, CleanupStops(f));
      run', t := CleanNext(run', t, f);
    case Stopping => run', t := Extend(run, s, CleanupHosts(f));
    case HostsGone => run', t := Extend(run, s, CleanupAlias(f));
  }

  lemma RunningWithHosts(key: string) returns (p: seq<Step>, s: State)
    ensures After(p) == Some(s)
    ensures s == State([Forward(key, None, Running, Waiting, false, false, false, false)], map[key := 0], [], [],
                       [AliasAdded(0), HostsAdded(0)])
  {
    hide After;
    AfterNothing();
    p, s := Extend([], INIT, Spawn(key, None));
    p, s := Extend(p, s, AddServicePod(0));
    p, s := Extend(p, s, AddHosts(0));
  }

  /** A forward with hosts, taken out of the map by a call of either kind and told to stop. */
  lemma ToldWithHosts(key: string, kind: Kind) returns (p: seq<Step>, s: State)
    ensures After(p) == Some(s)
    ensures s == State([Forward(key, None, Running, Waiting, true, true, false, true)], map[],
                       [Call(kind, {0}, {}, if kind.Update? then {0} else {}, false, false, false)], [],
                       [AliasAdded(0), HostsAdded(0)])
  {
    hide After;
    p, s := RunningWithHosts(key);
    assert s.reg[key] == 0 && s.reg.Values == {0};
    p, s := Extend(p, s, StopAll(kind));
    assert s.calls[0].toStop - {0} == {};
    p, s := Extend(p, s, CallStop(0, 0));
  }

  /** The call saw nothing done: it did not wait, or its wait timed out. */
  lemma StoppedWithHosts(key: string, kind: Kind) returns (p: seq<Step>, s: State)
    ensures After(p) == Some(s) && Enabled(s, CallResync(0)) && key !in s.reg
    ensures |s.calls| == 1 && s.calls[0].kind == kind && s.calls[0].stopped == {0}
            && s.calls[0].timedOut == kind.Update?
    ensures |s.fwds| == 1 && s.fwds[0].key == key && MayClean(s.fwds[0]) && !HostsRemovedBy(s.fwds[0].cleanup)
  {
    hide After;
    p, s := ToldWithHosts(key, kind);
    if kind.Update? {
      p, s := Extend(p, s, CallTimeout(0, 0));
    }
  }

  /** A run in which the hosts of a forward that a call of this kind stopped are removed after its replacement under the
      same key, registered and running, added its own. */
  ghost predicate CleansLate(kind: Kind, key: string) {
    exists steps, i, j, c, f: nat ::
      && After(steps).Some?
      && var s := After(steps).value;
         && CleansUnder(s, i, j, c, f, key) && s.log[i].HostsRemoved?
         && s.calls[c].kind == kind && (kind.Update? ==> s.calls[c].timedOut)
         && f < |s.fwds| && s.fwds[f].key == key
  }

  lemma FactsStay(s: State, step: Step)
    requires Enabled(s, step)
    ensures var t := Apply(s, step);
            && |s.calls| <= |t.calls| && |s.fwds| <= |t.fwds|
            && (forall f :: 0 <= f < |s.fwds| ==> t.fwds[f].key == s.fwds[f].key)
            && forall c :: 0 <= c < |s.calls| ==>
              t.calls[c].kind == s.calls[c].kind && (s.calls[c].timedOut ==> t.calls[c].timedOut)
  {
  }

  lemma {:induction false} CallsStay(run: seq<Step>, s: State, more: seq<Step>, c: nat)
    requires After(run) == Some(s) && c < |s.calls| && After(run + more).Some?
    ensures var t := After(run + more).value;
            && c < |t.calls| && t.calls[c].kind == s.calls[c].kind && (s.calls[c].timedOut ==> t.calls[c].timedOut)
            && |s.fwds| <= |t.fwds| && forall f :: 0 <= f < |s.fwds| ==> t.fwds[f].key == s.fwds[f].key
  {
    hide Apply, Enabled;
    if more == [] {
      assert run + more == run;
    } else {
      var m := |more| - 1;
      assert (run + more)[..|run + more| - 1] == run + more[..m] && (run + more)[|run + more| - 1] == more[m];
      CallsStay(run, s, more[..m], c);
      FactsStay(After(run + more[..m]).value, more[m]);
    }
  }

  lemma CanCleanLate(kind: Kind, key: string)
    ensures CleansLate(kind, key)
  {
    hide After, Apply, Enabled, CleansUnder, MayClean;
    var p, s := StoppedWithHosts(key, kind);
    var more, i, j, t := LateCleanup(p, s, 0, 0, key);
    assert p + [CallResync(0)] + more == p + ([CallResync(0)] + more);
    CallsStay(p, s, [CallResync(0)] + more, 0);
    CleansInRange(t, i, j, 0, 0, key);
  }

  lemma CleansInRange(t: State, i: int, j: int, c: int, f: nat, key: string)
    requires CleansUnder(t, i, j, c, f, key)
    ensures 0 <= i < |t.log| && 0 <= c < |t.calls|
  {
  }

  /** ForceReconnect does not wait: the old forward can remove its hosts after its replacement added the same ones. */
  lemma ForceReconnectCanCleanLate(key: string)
    ensures CleansLate(Force, key)
  {
    CanCleanLate(Force, key);
  }

  /** Nor does an UpdateService whose wait timed out. */
  lemma UpdateTimeoutCanCleanLate(key: string)
    ensures CleansLate(Update, key)
  {
    CanCleanLate(Update, key);
  }
}
