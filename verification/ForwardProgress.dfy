// That forwards, rebuilds and removals end: what the steps of ForwardProtocol make possible, beside what they keep.
module ForwardProgress {
  import opened Text
  import opened ForwardMap
  import opened ForwardProtocol

  /** A step of the forward's own goroutine after registration, or of its cleanup goroutine. */
  predicate ByItself(step: Step, f: nat) {
    || step == FailEarly(f) || step == AddHosts(f) || step == GiveUp(f) || step == ForwardPortsReturns(f)
    || step == CloseDone(f) || step == RemoveOwn(f)
    || step == CleanupStops(f) || step == CleanupHosts(f) || step == CleanupAlias(f) || step == CleanupFinishes(f)
  }

  /** How many steps of its own a forward may still take. */
  function Rank(f: Forward): nat {
    (match f.phase
     case Spawned => 10
     case Registered => 9
     case Running => 3
     case Draining => 2
     case Returned => 1
     case _ => 0) +
    (match f.cleanup
     case Waiting => 4
     case Stopping => 3
     case HostsGone => 2
     case AliasGone => 1
     case _ => 0)
  }

  /** Each step of its own brings a forward nearer to its end, and leaves everybody else alone. */
  lemma RankFalls(s: State, step: Step, f: nat)
    requires Enabled(s, step) && ByItself(step, f)
    ensures f < |s.fwds| && f < |Apply(s, step).fwds| && Rank(Apply(s, step).fwds[f]) < Rank(s.fwds[f])
    ensures var t := Apply(s, step);
            && t.calls == s.calls && t.removals == s.removals && |t.fwds| == |s.fwds|
            && forall g :: 0 <= g < |s.fwds| && g != f ==> t.fwds[g] == s.fwds[g]
  {
  }

  /** No other step moves it, once it is registered. */
  lemma RankStays(s: State, step: Step, f: nat)
    requires Enabled(s, step) && f < |s.fwds| && !ByItself(step, f) && step != AddServicePod(f)
    ensures f < |Apply(s, step).fwds| && Rank(Apply(s, step).fwds[f]) == Rank(s.fwds[f])
  {
    if OwnStep(step) || CleanupStep(step) {
      OthersMove(s, step, f);
    } else {
      OtherStepKeeps(s, step, f);
    }
  }

  lemma OthersMove(s: State, step: Step, f: nat)
    requires Enabled(s, step) && f < |s.fwds| && !ByItself(step, f) && step != AddServicePod(f)
    requires OwnStep(step) || CleanupStep(step)
    ensures f < |Apply(s, step).fwds| && Apply(s, step).fwds[f] == s.fwds[f]
  {
  }

  /** The step of its own that a forward which was told to stop takes next. */
  function NextOf(f: Forward, i: nat): Step {
    match f.cleanup
    case Waiting => CleanupStops(i)
    case Stopping => CleanupHosts(i)
    case HostsGone => CleanupAlias(i)
    case AliasGone => CleanupFinishes(i)
    case _ =>
      match f.phase
      case Registered => AddHosts(i)
      case Running => GiveUp(i)
      case Draining => CloseDone(i)
      case _ => RemoveOwn(i)
  }

  /** A live forward that was told to stop is never stuck. */
  lemma NotStuck(s: State, f: nat)
    requires f < |s.fwds| && ForwardOk(s.fwds[f]) && Active(s.fwds[f]) && s.fwds[f].stopOnce
    ensures ByItself(NextOf(s.fwds[f], f), f) && Enabled(s, NextOf(s.fwds[f], f))
    ensures var g := Apply(s, NextOf(s.fwds[f], f)).fwds[f];
            && (Active(g) || g.phase.Exited?) && g.stopOnce
            && (Cleans(s.fwds[f]) ==> Cleans(g))
  {
  }

  /** It has, or will have, a cleanup goroutine: it did not fail before its hosts were added. */
  predicate Cleans(f: Forward) {
    !f.cleanup.NoCleanup? || f.phase.Registered?
  }

  /** The forward is over: exited, its key not mapped to it, and unless it failed early its hosts and alias removed. */
  predicate Over(t: State, f: nat) {
    && f < |t.fwds| && t.fwds[f].phase.Exited? && !OwnsKey(t, f)
    && (HostsAdded(f) in t.log ==> HostsRemoved(f) in t.log && AliasRemoved(f) in t.log)
  }

  lemma ExitedIsOver(run: seq<Step>, t: State, f: nat)
    requires After(run) == Some(t) && f < |t.fwds| && t.fwds[f].phase.Exited?
    ensures Over(t, f) && (!t.fwds[f].cleanup.NoCleanup? ==> HostsAdded(f) in t.log)
  {
    hide After;
    RunInv(run);
    assert EntryOk(t, t.fwds[f].key) && ForwardOk(t.fwds[f]) && Logged(t, f);
  }

  /** From every reachable state a live forward that was told to stop can end by steps of its own alone: it exits, its
      key is not mapped to it, and if it has not failed before adding hosts, its hosts and its alias are removed. */
  lemma {:induction false} EndsByItself(run: seq<Step>, s: State, f: nat) returns (more: seq<Step>, t: State)
    requires After(run) == Some(s) && f < |s.fwds| && s.fwds[f].stopOnce
    requires Active(s.fwds[f]) || s.fwds[f].phase.Exited?
    ensures (forall step :: step in more ==> ByItself(step, f)) && After(run + more) == Some(t) && Over(t, f)
    ensures Cleans(s.fwds[f]) ==> HostsRemoved(f) in t.log && AliasRemoved(f) in t.log
    ensures t.calls == s.calls && t.removals == s.removals && |t.fwds| == |s.fwds|
    ensures forall g :: 0 <= g < |s.fwds| && g != f ==> t.fwds[g] == s.fwds[g]
    ensures t.fwds[f].doneClosed
    decreases Rank(s.fwds[f])
  {
    hide After, Apply, Enabled, NextOf, Inv, Ordered;
    RunInv(run);
    InvForwardOk(s, f);
    if s.fwds[f].phase.Exited? {
      more, t := [], s;
      assert run + more == run;
      ExitedIsOver(run, s, f);
    } else {
      var step := NextOf(s.fwds[f], f);
      NotStuck(s, f);
      RankFalls(s, step, f);
      var run', s' := Extend(run, s, step);
      more, t := EndsByItself(run', s', f);
      assert run' + more == run + ([step] + more);
      more := [step] + more;
    }
  }

  lemma InvForwardOk(s: State, f: nat)
    requires Inv(s) && f < |s.fwds|
    ensures ForwardOk(s.fwds[f]) && AskedOk(s, f)
  {
  }

  /** A forward whose pod never runs, whose dialer cannot be made or whose connection breaks stops itself, and so
      ends. */
  lemma GiveUpEnds(run: seq<Step>, s: State, f: nat) returns (more: seq<Step>, t: State)
    requires After(run) == Some(s) && Enabled(s, GiveUp(f))
    ensures more != [] && more[0] == GiveUp(f) && forall step :: step in more ==> ByItself(step, f)
    ensures After(run + more) == Some(t) && Over(t, f) && HostsRemoved(f) in t.log && AliasRemoved(f) in t.log
  {
    hide After, Inv, Ordered;
    RunInv(run);
    InvForwardOk(s, f);
    var run', s' := Extend(run, s, GiveUp(f));
    hide Apply, Enabled;
    more, t := EndsByItself(run', s', f);
    assert run' + more == run + ([GiveUp(f)] + more);
    more := [GiveUp(f)] + more;
  }

  /** Whoever is asked to stop can end too: after the Stop of the call that holds it in its list, if that is still to
      come, by steps of its own alone. */
  lemma AskedEnds(run: seq<Step>, s: State, f: nat) returns (more: seq<Step>, t: State)
    requires After(run) == Some(s) && f < |s.fwds| && Active(s.fwds[f]) && s.fwds[f].asked
    ensures forall step :: step in more ==> ByItself(step, f) || (step.CallStop? && step.f == f)
    ensures !s.fwds[f].stopOnce ==> more != [] && more[0].CallStop?
    ensures forall i :: 0 < i < |more| ==> ByItself(more[i], f)
    ensures After(run + more) == Some(t) && Over(t, f)
    ensures Cleans(s.fwds[f]) ==> HostsRemoved(f) in t.log && AliasRemoved(f) in t.log
  {
    hide After, Inv, Ordered;
    RunInv(run);
    InvForwardOk(s, f);
    if s.fwds[f].stopOnce {
      more, t := EndsByItself(run, s, f);
    } else {
      var c: nat :| ToStop(s, c, f);
      var run', s' := Extend(run, s, CallStop(c, f));
      hide Apply, Enabled;
      more, t := EndsByItself(run', s', f);
      assert run' + more == run + ([CallStop(c, f)] + more);
      more := [CallStop(c, f)] + more;
    }
  }

  /** When ForwardPorts returns without an error the forward does not stop itself: unless told to stop, it can take no
      further step of its own. */
  lemma ReturnWaitsForStop(s: State, f: nat, step: Step)
    requires Inv(s) && Enabled(s, ForwardPortsReturns(f)) && ByItself(step, f)
    requires !s.fwds[f].stopOnce
    ensures !Enabled(Apply(s, ForwardPortsReturns(f)), step)
  {
    InvForwardOk(s, f);
  }

  /** A draining forward can go on by itself exactly when its stop channel is closed. */
  lemma DrainingGoesOnIff(s: State, f: nat)
    requires Inv(s) && In(s, f, Draining)
    ensures (exists step :: ByItself(step, f) && Enabled(s, step)) <==> s.fwds[f].stopClosed
  {
    hide Inv;
    assert ForwardOk(s.fwds[f]) by {
      InvForwardOk(s, f);
    }
    if s.fwds[f].stopClosed {
      NotStuck(s, f);
    }
  }

  /** Each channel is closed at most once, and the stop channel never after the done channel. */
  lemma ChannelsCloseOnce(s: State, step: Step, f: nat)
    requires Enabled(s, step) && f < |s.fwds| && ForwardOk(s.fwds[f])
    ensures var was, now := s.fwds[f], Apply(s, step).fwds[f];
            && (was.stopClosed ==> now.stopClosed) && (was.doneClosed ==> now.doneClosed)
            && (was.doneClosed ==> now.stopClosed == was.stopClosed)
            && (step == FailEarly(f) || step == CloseDone(f) ==> !was.doneClosed && now.doneClosed)
  {
  }

  /** Whoever is told to stop has its stop channel closed, unless it is done already. */
  lemma StopCloses(s: State, step: Step, f: nat)
    requires Enabled(s, step) && f < |s.fwds| && ForwardOk(s.fwds[f])
    requires step == InformerStop(f) || (step.CallStop? && step.f == f)
             || (step.StopPod? && s.removals[step.r].target == f)
    ensures var now := Apply(s, step).fwds[f]; now.asked && now.stopOnce && (now.stopClosed || now.doneClosed)
  {
  }

  /** Nobody holds these up: a sync may spawn for a key without entry, a stop may come from outside, a rebuild or a
      removal of an entry may begin, and a spawned forward may reach AddServicePod. */
  lemma OthersMayAct(s: State, f: nat, key: string, kind: Kind)
    ensures Enabled(s, StopAll(kind)) && (key in s.reg ==> Enabled(s, FindPod(key)))
    ensures key !in s.reg ==> Enabled(s, Spawn(key, None))
    ensures f < |s.fwds| ==> Enabled(s, InformerStop(f))
    ensures f < |s.fwds| && s.fwds[f].phase.Spawned? ==>
              && Enabled(s, AddServicePod(f))
              && var t := Apply(s, AddServicePod(f));
                 if s.fwds[f].key in s.reg then t.fwds[f].phase.Duplicate? && t.reg == s.reg
                 else t.fwds[f].phase.Registered? && OwnsKey(t, f)
    ensures f < |s.fwds| && s.fwds[f].phase.Registered? ==> Enabled(s, FailEarly(f)) && Enabled(s, AddHosts(f))
    ensures f < |s.fwds| && s.fwds[f].phase.Running? ==> Enabled(s, GiveUp(f)) && Enabled(s, ForwardPortsReturns(f))
  {
  }

  // ---------- Rebuilds and removals ----------

  /** Every forward a call has yet to stop can be told to stop. */
  lemma {:induction false} CallStops(run: seq<Step>, s: State, c: nat) returns (run': seq<Step>, t: State)
    requires After(run) == Some(s) && c < |s.calls|
    ensures run <= run' && After(run') == Some(t) && c < |t.calls|
    ensures t.calls[c] == s.calls[c].(toStop := {})
    decreases s.calls[c].toStop
  {
    hide After, Ordered;
    RunInv(run);
    assert CallOk(s, s.calls[c]);
    if f: nat :| f in s.calls[c].toStop {
      assert StoppedOk(s, s.calls[c], f);
      hide Inv, CallOk, StoppedOk;
      run', t := Extend(run, s, CallStop(c, f));
      run', t := CallStops(run', t, c);
    } else {
      run', t := run, s;
    }
  }

  /** Then each of them can end, so that no wait has to time out. */
  lemma {:induction false} CallWaits(run: seq<Step>, s: State, c: nat) returns (run': seq<Step>, t: State)
    requires After(run) == Some(s) && c < |s.calls| && s.calls[c].toStop == {}
    ensures run <= run' && After(run') == Some(t) && c < |t.calls|
    ensures t.calls[c] == s.calls[c].(toWait := {})
    decreases s.calls[c].toWait
  {
    hide After, Ordered;
    RunInv(run);
    assert CallOk(s, s.calls[c]);
    if f: nat :| f in s.calls[c].toWait {
      assert StoppedOk(s, s.calls[c], f);
      hide Inv, CallOk, StoppedOk;
      var more;
      more, t := EndsByItself(run, s, f);
      run', t := Extend(run + more, t, CallWait(c, f));
      run', t := CallWaits(run', t, c);
    } else {
      run', t := run, s;
    }
  }

  /** From every reachable state an UpdateService or ForceReconnect call can get to its resync, and without a time-out
      if it has not had one; an UpdateService then resyncs with everything it stopped done. */
  lemma CallEnds(run: seq<Step>, s: State, c: nat) returns (run': seq<Step>, t: State)
    requires After(run) == Some(s) && c < |s.calls|
    ensures run <= run' && After(run') == Some(t) && c < |t.calls| && t.calls[c].resync
    ensures t.calls[c].timedOut == s.calls[c].timedOut && t.calls[c].stopped == s.calls[c].stopped
    ensures s.calls[c].kind.Update? && !s.calls[c].timedOut ==> t.calls[c].settled
  {
    hide After, Ordered;
    if s.calls[c].resync {
      run', t := run, s;
    } else {
      hide Apply, Enabled;
      run', t := CallStops(run, s, c);
      run', t := CallWaits(run', t, c);
      CanResync(t, c);
      var before := t;
      run', t := Extend(run', t, CallResync(c));
      ResyncSets(before, c);
    }
    RunInv(run');
    assert CallOk(t, t.calls[c]);
  }

  lemma CanResync(s: State, c: nat)
    requires c < |s.calls| && s.calls[c].toStop == {} && s.calls[c].toWait == {} && !s.calls[c].resync
    ensures Enabled(s, CallResync(c))
  {
  }

  lemma ResyncSets(s: State, c: nat)
    requires Enabled(s, CallResync(c))
    ensures c < |s.calls| && Apply(s, CallResync(c)).calls ==
            s.calls[c := s.calls[c].(resync := true, settled := Settled(s, s.calls[c]))]
  {
  }

  /** From every reachable state a RemoveServicePod that found an entry can get to its deletion: its key is gone. */
  lemma RemovalEnds(run: seq<Step>, s: State, r: nat) returns (run': seq<Step>, t: State)
    requires After(run) == Some(s) && r < |s.removals| && !s.removals[r].deleted
    ensures run <= run' && After(run') == Some(t) && r < |t.removals| && t.removals[r].deleted
    ensures s.removals[r].target < |t.fwds|
    ensures s.removals[r].key !in t.reg && t.fwds[s.removals[r].target].doneClosed
  {
    hide After, Ordered;
    RunInv(run);
    assert RemovalOk(s, s.removals[r]);
    run', t := run, s;
    if !s.removals[r].stopped {
      run', t := Extend(run', t, StopPod(r));
    }
    hide Inv;
    RunInv(run');
    assert RemovalOk(t, t.removals[r]) by {
      InvRemovalOk(t, r);
    }
    var more;
    more, t := EndsByItself(run', t, t.removals[r].target);
    run', t := Extend(run' + more, t, DeletePod(r));
  }

  lemma InvRemovalOk(s: State, r: nat)
    requires Inv(s) && r < |s.removals|
    ensures RemovalOk(s, s.removals[r])
  {
  }
}
