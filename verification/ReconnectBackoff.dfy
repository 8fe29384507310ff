// The reconnect backoff of ServiceFWD: scheduleReconnect, ResetReconnectBackoff and ForceReconnect
// (pkg/fwdservice/fwdservice.go), with durations in seconds.
module ReconnectBackoff {
  import opened Text

  const INITIAL_BACKOFF: nat := 1
  const MAX_BACKOFF: nat := 300

  datatype State = State(backoff: nat, reconnecting: bool, pending: nat, shutDown: bool)

  const START := State(0, false, 0, false)

  datatype Step =
    | Schedule   // scheduleReconnect
    | Finish     // a scheduled goroutine ends and clears the flag
    | Reset      // ResetReconnectBackoff
    | Force      // the locked part of ForceReconnect
    | ShutDown   // DoneChannel closes

  predicate Takes(st: State) {
    !st.shutDown && !st.reconnecting
  }

  function Wait(st: State): nat {
    if st.backoff == 0 then INITIAL_BACKOFF else st.backoff
  }

  predicate Enabled(st: State, step: Step) {
    step.Finish? ==> st.pending > 0
  }

  function Next(st: State, step: Step): State
    requires Enabled(st, step)
  {
    match step
    case Schedule =>
      if Takes(st) then State(Min(2 * Wait(st), MAX_BACKOFF), true, st.pending + 1, st.shutDown) else st
    case Finish => st.(reconnecting := false, pending := st.pending - 1)
    case Reset => st.(backoff := 0)
    case Force => st.(backoff := 0, reconnecting := false)
    case ShutDown => st.(shutDown := true)
  }

  /** The fields of ServiceFWD under reconnectMu. */
  class Reconnector {
    const autoReconnect: bool
    var reconnectBackoff: nat
    var reconnecting: bool
    var doneClosed: bool
    ghost var pending: nat   // goroutines between the schedule and their deferred clear

    ghost function St(): State
      reads this
    {
      State(reconnectBackoff, reconnecting, pending, doneClosed)
    }

    constructor (autoReconnect: bool)
      ensures this.autoReconnect == autoReconnect && St() == START
    {
      this.autoReconnect := autoReconnect;
      reconnectBackoff, reconnecting, doneClosed, pending := 0, false, false, 0;
    }

    method ScheduleReconnect() returns (scheduled: bool, wait: nat)
      modifies this
      ensures St() == if autoReconnect then Next(old(St()), Schedule) else old(St())
      ensures scheduled == (autoReconnect && Takes(old(St()))) && (scheduled ==> wait == Wait(old(St())))
    {
      if !autoReconnect || doneClosed || reconnecting {
        return false, 0;
      }
      reconnecting := true;
      var backoff := reconnectBackoff;
      if backoff == 0 {
        backoff := INITIAL_BACKOFF;
      }
      reconnectBackoff := backoff * 2;
      if reconnectBackoff > MAX_BACKOFF {
        reconnectBackoff := MAX_BACKOFF;
      }
      pending := pending + 1;
      return true, backoff;
    }

    method FinishReconnect()
      requires pending > 0
      modifies this
      ensures St() == Next(old(St()), Finish)
    {
      reconnecting := false;
      pending := pending - 1;
    }

    method ResetReconnectBackoff()
      modifies this
      ensures St() == Next(old(St()), Reset)
    {
      if reconnectBackoff != 0 {
        reconnectBackoff := 0;
      }
    }

    method ForceReconnect()
      modifies this
      ensures St() == Next(old(St()), Force)
    {
      reconnectBackoff := 0;
      reconnecting := false;
    }
  }

  // ---------- Every run ----------

  function After(steps: seq<Step>): State
    requires Run(steps)
    decreases |steps|, 1
  {
    if steps == [] then START else Next(After(steps[..|steps| - 1]), steps[|steps| - 1])
  }

  predicate Run(steps: seq<Step>)
    decreases |steps|, 0
  {
    steps == [] || (Run(steps[..|steps| - 1]) && Enabled(After(steps[..|steps| - 1]), steps[|steps| - 1]))
  }

  function Pow2(n: nat): (r: nat)
    ensures r >= 1
  {
    if n == 0 then 1 else 2 * Pow2(n - 1)
  }

  /** How many reconnects were scheduled since the backoff was last reset. */
  function Streak(steps: seq<Step>): nat
    requires Run(steps)
  {
    if steps == [] then 0
    else
      var front, last := steps[..|steps| - 1], steps[|steps| - 1];
      if last.Reset? || last.Force? then 0
      else if last.Schedule? && Takes(After(front)) then Streak(front) + 1
      else Streak(front)
  }

  function Forces(steps: seq<Step>): nat {
    if steps == [] then 0 else Forces(steps[..|steps| - 1]) + if steps[|steps| - 1].Force? then 1 else 0
  }

  lemma {:induction false} BackoffOfStreak(steps: seq<Step>)
    requires Run(steps)
    ensures After(steps).backoff == if Streak(steps) == 0 then 0 else Min(Pow2(Streak(steps)), MAX_BACKOFF)
  {
    if steps != [] {
      BackoffOfStreak(steps[..|steps| - 1]);
      assert Pow2(1) == 2;
    }
  }

  /** In every run the n-th reconnect in a row, from 0, waits min(2^n, 300) seconds. */
  lemma WaitDoublesToCap(steps: seq<Step>)
    requires Run(steps)
    ensures Wait(After(steps)) == Min(Pow2(Streak(steps)), 300)
  {
    BackoffOfStreak(steps);
    if Streak(steps) > 0 {
      assert Pow2(Streak(steps)) >= 2;
    }
  }

  /** After the shutdown nothing more is scheduled. */
  lemma {:induction false} NothingAfterShutDown(steps: seq<Step>, more: seq<Step>)
    requires Run(steps) && Run(steps + [ShutDown] + more)
    ensures var t := After(steps + [ShutDown] + more);
            t.shutDown && !Takes(t) && t.pending <= After(steps).pending
  {
    if more == [] {
      assert steps + [ShutDown] + more == steps + [ShutDown];
      Append(steps, ShutDown);
    } else {
      var m := |more| - 1;
      var all := steps + [ShutDown] + more;
      assert all[..|all| - 1] == steps + [ShutDown] + more[..m];
      NothingAfterShutDown(steps, more[..m]);
    }
  }

  /** In every run at most one reconnect is pending, plus one for each ForceReconnect. */
  lemma {:induction false} PendingBounded(steps: seq<Step>)
    requires Run(steps)
    ensures After(steps).pending <= Forces(steps) + if After(steps).reconnecting then 1 else 0
    ensures After(steps).pending <= Forces(steps) + 1
  {
    if steps != [] {
      PendingBounded(steps[..|steps| - 1]);
    }
  }

  /** The bound is reached: ForceReconnect clears the flag while an old timer is still running. */
  lemma {:induction false} BoundIsReached(k: nat) returns (steps: seq<Step>)
    ensures Run(steps) && Forces(steps) == k && After(steps) == State(2, true, k + 1, false)
  {
    if k == 0 {
      steps := [Schedule];
      assert steps[..0] == [];
    } else {
      var before := BoundIsReached(k - 1);
      var forced := before + [Force];
      assert forced[..|forced| - 1] == before;
      steps := forced + [Schedule];
      assert steps[..|steps| - 1] == forced;
    }
  }

  /** Every ForceReconnect comes when no reconnect is pending, or after the shutdown. */
  predicate CalmForces(steps: seq<Step>)
    requires Run(steps)
    decreases |steps|
  {
    steps == [] ||
    var front, last := steps[..|steps| - 1], steps[|steps| - 1];
    CalmForces(front) && (last.Force? ==> After(front).pending == 0 || After(front).shutDown)
  }

  /** Then reconnects are single-flight: at most one is pending, and before the shutdown the flag says which. */
  lemma {:induction false} SingleFlight(steps: seq<Step>)
    requires Run(steps) && CalmForces(steps)
    ensures After(steps).pending <= 1
    ensures !After(steps).shutDown ==> (After(steps).reconnecting <==> After(steps).pending == 1)
  {
    if steps != [] {
      SingleFlight(steps[..|steps| - 1]);
    }
  }

  /** At a ForceReconnect the condition is exact: without another one, no continuation has two pending reconnects
      exactly when none was pending, or one was and the service was shut down. */
  lemma SingleFlightIff(steps: seq<Step>)
    requires Run(steps)
    ensures (forall more :: Forces(more) == 0 && Run(steps + [Force] + more) ==>
             After(steps + [Force] + more).pending <= 1)
            <==> After(steps).pending == 0 || (After(steps).pending == 1 && After(steps).shutDown)
  {
    var s := After(steps);
    Append(steps, Force);
    var forced := steps + [Force];
    if s.pending == 0 || (s.pending == 1 && s.shutDown) {
      forall more | Forces(more) == 0 && Run(forced + more)
        ensures After(forced + more).pending <= 1
      {
        StaysSingle(forced, more);
      }
    } else if s.shutDown {
      assert Forces([]) == 0 && forced + [] == forced;
    } else {
      Append(forced, Schedule);
      assert Forces([Schedule]) == 0 by {
        assert [Schedule][..0] == [];
      }
    }
  }

  lemma Append(steps: seq<Step>, step: Step)
    requires Run(steps) && Enabled(After(steps), step)
    ensures Run(steps + [step]) && After(steps + [step]) == Next(After(steps), step)
  {
    assert (steps + [step])[..|steps|] == steps;
  }

  lemma {:induction false} StaysSingle(steps: seq<Step>, more: seq<Step>)
    requires Run(steps) && Run(steps + more) && Forces(more) == 0
    requires After(steps).pending <= 1
             && (!After(steps).shutDown ==> (After(steps).reconnecting <==> After(steps).pending == 1))
    ensures var t := After(steps + more);
            t.pending <= 1 && (!t.shutDown ==> (t.reconnecting <==> t.pending == 1))
  {
    if more == [] {
      assert steps + more == steps;
    } else {
      var m := |more| - 1;
      assert (steps + more)[..|steps + more| - 1] == steps + more[..m];
      StaysSingle(steps, more[..m]);
    }
  }
}
