// How the backoff counter and the delays of an endpoint actor develop over runs of failures.
module EndpointBackoff {
  import opened MachineInts
  import opened Wrappers
  import opened EndpointTypes
  import opened EndpointSpec
  import opened EndpointInvariant
  import opened EndpointBreaker

  // ---------------------------------------------------------------- what raises the counter

  // A cycle that meets a permanent connect failure, or connects and then loses a
  // reattachment while something is still tracked.
  ghost predicate CycleCounts(a: Actor, s: Script)
    requires Covers(a, s)
  {
    && a.tracked != map[]
    && match s.connect
       case Some(error) => !Classify(error).IsTransient()
       case None =>
         var (d, verdicts) := Reattached(a, s);
         IsTransientFailure in verdicts && d.tracked != map[]
  }

  ghost predicate RaisesCounter(a: Actor, step: Step)
    requires Enabled(a, step)
  {
    IsReconnect(step) && !a.Up() && CycleCounts(a.(outstanding := 0), step.script)
  }

  ghost function Failures(a: Actor, steps: seq<Step>): nat
    requires IsRun(a, steps)
    decreases |steps|
  {
    if steps == [] then 0
    else
      var n := |steps| - 1;
      Failures(a, steps[..n]) + if RaisesCounter(After(a, steps[..n]), steps[n]) then 1 else 0
  }

  // The transport is down all along a run.
  ghost predicate StaysDown(a: Actor, steps: seq<Step>)
    requires IsRun(a, steps)
    decreases |steps|
  {
    !After(a, steps).Up() && (steps == [] || StaysDown(a, steps[..|steps| - 1]))
  }

  lemma CycleRaises(a: Actor, s: Script)
    requires Retrying(a) && Covers(a, s) && !HandleReconnect(a, s).Up()
    ensures HandleReconnect(a, s).attempt == if CycleCounts(a, s) then a.NextAttempt() else a.attempt
  {
    if a.tracked != map[] {
      if s.connect.Some? {
        FailedConnectEnds(a, s);
      } else {
        ConnectedCycleEnds(a, s);
      }
    }
  }

  lemma RetryBegins(a: Actor)
    requires Inv(a) && a.outstanding > 0
    ensures a.outstanding == 1 && Retrying(a.(outstanding := 0)) && !a.Up()
  {
  }

  lemma ReconnectIsCycle(a: Actor, step: Step)
    requires Inv(a) && Enabled(a, step) && IsReconnect(step)
    ensures Retrying(a.(outstanding := 0)) && Covers(a.(outstanding := 0), step.script) && !a.Up()
    ensures Next(a, step) == HandleReconnect(a.(outstanding := 0), step.script)
  {
    RetryBegins(a);
    assert Covers(a, step.script);
    var b := a.(outstanding := 0);
    assert Handle(a, Reconnect, step.script) == HandleReconnect(b, step.script);
  }

  lemma ReconnectCounts(a: Actor, step: Step)
    requires Inv(a) && Enabled(a, step) && IsReconnect(step) && !Next(a, step).Up()
    ensures Next(a, step).attempt == if RaisesCounter(a, step) then a.NextAttempt() else a.attempt
  {
    ReconnectIsCycle(a, step);
    CycleRaises(a.(outstanding := 0), step.script);
  }

  // Along any run that stays down once a retry has been scheduled, whatever commands come in
  // between, the counter is raised by exactly one per counting failure, up to 2^32 - 1: a
  // connection attempt that fails transiently is not one.
  lemma {:induction false} CounterCountsFailures(a: Actor, steps: seq<Step>)
    requires Inv(a) && a.attempt >= 1 && IsRun(a, steps) && StaysDown(a, steps)
    ensures After(a, steps).attempt == SaturatingAdd(a.attempt, Failures(a, steps))
    ensures After(a, steps).cap == a.cap
    decreases |steps|
  {
    if steps != [] {
      var n := |steps| - 1;
      CounterCountsFailures(a, steps[..n]);
      RunKeeps(a, steps[..n]);
      var b := After(a, steps[..n]);
      NextKeeps(b, steps[n]);
      if IsReconnect(steps[n]) {
        ReconnectCounts(b, steps[n]);
      } else {
        InertStep(b, steps[n]);
      }
    }
  }

  // So the breaker opens exactly when the counting failures exceed the limit, which needs a
  // limit below 2^32 - 1.
  lemma BreakerOpensIffFailuresExceedLimit(a: Actor, steps: seq<Step>)
    requires Inv(a) && a.attempt >= 1 && IsRun(a, steps) && StaysDown(a, steps)
    ensures After(a, steps).BreakerOpen() <==> a.cap + 2 < U32_MAX && a.attempt + Failures(a, steps) > a.cap + 2
  {
    CounterCountsFailures(a, steps);
  }

  // ---------------------------------------------------------------- delays

  function DelaySum(log: seq<Effect>): nat {
    if log == [] then 0
    else DelaySum(log[..|log| - 1]) + (if log[|log| - 1].Scheduled? then log[|log| - 1].delaySecs else 0)
  }

  function ConnectsTried(log: seq<Effect>): nat {
    if log == [] then 0
    else ConnectsTried(log[..|log| - 1]) + (if log[|log| - 1].ConnectTried? then 1 else 0)
  }

  lemma LogAdds(log: seq<Effect>, e: Effect)
    ensures DelaySum(log + [e]) == DelaySum(log) + if e.Scheduled? then e.delaySecs else 0
    ensures ConnectsTried(log + [e]) == ConnectsTried(log) + if e.ConnectTried? then 1 else 0
  {
    assert (log + [e])[..|log|] == log;
  }

  lemma {:induction false} PassingAddsNothing(before: seq<Effect>, after: seq<Effect>)
    requires GrewInPassing(before, after)
    ensures DelaySum(after) == DelaySum(before) && ConnectsTried(after) == ConnectsTried(before)
    decreases |after|
  {
    if |after| == |before| {
      assert after == before;
    } else {
      var n := |after| - 1;
      assert before <= after[..n];
      PassingAddsNothing(before, after[..n]);
    }
  }

  function Min(a: nat, b: nat): nat { if a < b then a else b }

  lemma TwoLogged(log: seq<Effect>, e: Effect, f: Effect)
    requires !e.Scheduled? && !e.ConnectTried?
    ensures DelaySum(log + [e] + [f]) == DelaySum(log) + if f.Scheduled? then f.delaySecs else 0
    ensures ConnectsTried(log + [e] + [f]) == ConnectsTried(log) + if f.ConnectTried? then 1 else 0
  {
    LogAdds(log, e);
    LogAdds(log + [e], f);
  }

  lemma LossIsLogged(a: Actor)
    requires a.tracked != map[]
    ensures var b := HandleDisconnect(a);
            && b.log == a.log + [EmitEach(a.tracked.Keys, [Lost, Reconnecting(a.NextAttempt(), a.NextDelay())])]
                        + [if b.BreakerOpen() then EmitEach(a.tracked.Keys, [Blocked(DaemonDied)])
                           else Scheduled(a.NextDelay())]
            && b.attempt == a.NextAttempt() && b.tracked == a.tracked && !b.Up()
  {
  }

  lemma LosingTrackedSchedules(a: Actor)
    requires a.tracked != map[]
    ensures var b := HandleDisconnect(a);
            && ConnectsTried(b.log) == ConnectsTried(a.log)
            && DelaySum(b.log) == DelaySum(a.log) + (if b.BreakerOpen() then 0 else Min(a.NextAttempt(), a.cap))
            && b.attempt == a.NextAttempt() && b.tracked == a.tracked && !b.Up()
  {
    LossIsLogged(a);
    TwoLogged(a.log, EmitEach(a.tracked.Keys, [Lost, Reconnecting(a.NextAttempt(), a.NextDelay())]),
              if HandleDisconnect(a).BreakerOpen() then EmitEach(a.tracked.Keys, [Blocked(DaemonDied)])
              else Scheduled(a.NextDelay()));
  }

  lemma ConnectingLogs(a: Actor, s: Script)
    requires Retrying(a)
    ensures ConnectsTried(BeforeReattach(a, s).log) == ConnectsTried(a.log) + 1
    ensures DelaySum(BeforeReattach(a, s).log) == DelaySum(a.log)
  {
    var e := Emit(StatusChanged(s.primary, if a.local then Starting else Connecting));
    var f := Emit(StatusChanged(s.primary, Connected));
    assert BeforeReattach(a, s).log == a.log + [e] + [ConnectTried] + [f];
    TwoLogged(a.log, e, ConnectTried);
    LogAdds(a.log + [e] + [ConnectTried], f);
  }

  // What a failed reattachment does to the counter, the timer and the log.
  ghost predicate Lengthens(a: Actor, b: Actor) {
    && b.cap == a.cap && b.tracked != map[] && RaisedByOne(a, b)
    && ConnectsTried(b.log) == ConnectsTried(a.log) + 1
    && DelaySum(b.log) == DelaySum(a.log) + (if b.BreakerOpen() then 0 else Min(b.attempt, a.cap))
  }

  lemma FailedReattachIsLoss(a: Actor, s: Script)
    requires Retrying(a) && Covers(a, s) && CycleCounts(a, s) && s.connect.None?
    ensures var d := Reattached(a, s).0;
            HandleReconnect(a, s) == HandleDisconnect(d.(attempt := a.attempt)) && d.tracked != map[]
  {
  }

  lemma FailedReattachSchedules(a: Actor, s: Script)
    requires Retrying(a) && Covers(a, s) && CycleCounts(a, s) && s.connect.None?
    ensures Lengthens(a, HandleReconnect(a, s))
  {
    ConnectedCycleEnds(a, s);
    ConnectingLogs(a, s);
    ReattachedShrinks(a, s);
    var d := Reattached(a, s).0;
    PassingAddsNothing(BeforeReattach(a, s).log, d.log);
    FailedReattachIsLoss(a, s);
    LosingTrackedSchedules(d.(attempt := a.attempt));
  }

  // ---------------------------------------------------------------- nothing but failed reattachments

  ghost predicate FailsToReattach(a: Actor, step: Step)
    requires Enabled(a, step)
  {
    RaisesCounter(a, step) && step.script.connect.None?
  }

  // The daemon closes an established connection, and every reconnect after that connects
  // and fails to reattach.
  ghost predicate OnlyFailedReattaches(a: Actor, steps: seq<Step>)
    requires IsRun(a, steps)
    decreases |steps|
  {
    |steps| > 0 &&
    var n := |steps| - 1;
    if n == 0 then steps[0] == Closed
    else OnlyFailedReattaches(a, steps[..n]) && FailsToReattach(After(a, steps[..n]), steps[n])
  }

  // The sum of the first n delays: one second more each time, up to the cap.
  function Ramp(cap: nat, n: nat): nat {
    if n == 0 then 0 else Ramp(cap, n - 1) + Min(n, cap)
  }

  lemma {:induction false} RampInClosedForm(cap: nat, n: nat)
    ensures n <= cap ==> 2 * Ramp(cap, n) == n * (n + 1)
    ensures n >= cap ==> 2 * Ramp(cap, n) == cap * (cap + 1) + 2 * cap * (n - cap)
  {
    if n > 0 {
      RampInClosedForm(cap, n - 1);
      if n <= cap {
        assert n * (n + 1) == (n - 1) * n + 2 * n;
      } else {
        assert 2 * cap * (n - cap) == 2 * cap * (n - 1 - cap) + 2 * cap;
      }
    }
  }

  // The actor `reconnects` failed reattachments after it had lost its connection in `a`.
  ghost predicate Ramped(a: Actor, b: Actor, reconnects: nat) {
    && b.cap == a.cap && b.tracked != map[]
    && reconnects <= a.cap + 2 && b.attempt == reconnects + 1
    && (b.BreakerOpen() <==> reconnects == a.cap + 2) && (b.outstanding == 1 <==> reconnects < a.cap + 2)
    && ConnectsTried(b.log) == ConnectsTried(a.log) + reconnects
    && DelaySum(b.log) == DelaySum(a.log) + Ramp(a.cap, Min(reconnects + 1, a.cap + 2))
  }

  lemma FirstDelay(cap: nat)
    ensures Ramp(cap, 1) == Min(1, cap)
  {
    assert Ramp(cap, 0) == 0;
  }

  lemma LossStarts(a: Actor, b: Actor)
    requires a.cap + 3 <= U32_MAX && b.cap == a.cap && b.tracked != map[]
    requires b.attempt == 1 && b.outstanding == 1 && !b.BreakerOpen()
    requires ConnectsTried(b.log) == ConnectsTried(a.log)
    requires DelaySum(b.log) == DelaySum(a.log) + Min(1, a.cap)
    ensures Ramped(a, b, 0)
  {
    FirstDelay(a.cap);
    assert Min(1, a.cap + 2) == 1;
  }

  lemma LossIsRamped(a: Actor)
    requires Inv(a) && a.Up() && a.tracked != map[] && a.cap + 3 <= U32_MAX
    ensures Ramped(a, HandleDisconnect(a), 0)
  {
    LosingTrackedSchedules(a);
    LossStarts(a, HandleDisconnect(a));
  }

  lemma RampedLengthens(a: Actor, b: Actor, c: Actor, reconnects: nat)
    requires a.cap + 3 <= U32_MAX && Ramped(a, b, reconnects) && b.outstanding == 1 && Lengthens(b, c)
    ensures Ramped(a, c, reconnects + 1)
  {
  }

  // Such a run makes at most cap + 2 reconnects; the breaker is open exactly after the last.
  lemma {:induction false} FailedReattachesRamp(a: Actor, steps: seq<Step>)
    requires Inv(a) && a.Up() && a.tracked != map[] && a.cap + 3 <= U32_MAX
    requires IsRun(a, steps) && OnlyFailedReattaches(a, steps)
    ensures Ramped(a, After(a, steps), |steps| - 1)
    decreases |steps|
  {
    var n := |steps| - 1;
    if n == 0 {
      LossIsRamped(a);
    } else {
      FailedReattachesRamp(a, steps[..n]);
      RunKeeps(a, steps[..n]);
      var b := After(a, steps[..n]);
      FailedStepLengthens(b, steps[n]);
      RampedLengthens(a, b, After(a, steps), n - 1);
    }
  }

  lemma FailedStepLengthens(a: Actor, step: Step)
    requires Inv(a) && Enabled(a, step) && FailsToReattach(a, step)
    ensures a.outstanding == 1 && Lengthens(a, Next(a, step))
  {
    ReconnectIsCycle(a, step);
    FailedReattachSchedules(a.(outstanding := 0), step.script);
  }

  lemma RampAtLimit(cap: nat)
    ensures Ramp(cap, cap + 2) == cap * (cap + 1) / 2 + 2 * cap
  {
    RampInClosedForm(cap, cap + 2);
    assert 2 * Ramp(cap, cap + 2) == cap * (cap + 1) + 2 * (2 * cap);
  }

  // A new actor of cap `cap` gives up after this many seconds of waiting.
  function TotalDelay(cap: nat): (total: nat)
    ensures total == Ramp(cap, cap + 2)
  {
    RampAtLimit(cap);
    cap * (cap + 1) / 2 + 2 * cap
  }

  // A run of nothing but failed reattachments opens the breaker after exactly cap + 2
  // reconnects, and its delays then add up to cap (cap + 1) / 2 + 2 cap seconds.
  lemma FailedReattachesUntilBreaker(a: Actor, steps: seq<Step>)
    requires Inv(a) && a.Up() && a.tracked != map[] && a.cap + 3 <= U32_MAX
    requires IsRun(a, steps) && OnlyFailedReattaches(a, steps)
    ensures var b := After(a, steps);
            && (b.BreakerOpen() <==> ConnectsTried(b.log) - ConnectsTried(a.log) == a.cap + 2)
            && (b.BreakerOpen() ==> DelaySum(b.log) - DelaySum(a.log) == TotalDelay(a.cap))
            && (!b.BreakerOpen() ==> b.outstanding == 1)
  {
    FailedReattachesRamp(a, steps);
  }

  // ---------------------------------------------------------------- such runs exist

  const BROKEN_WRITE := Exchange(Some(Io), [], Fails(Io))

  // A Reconnect that connects to a daemon no request can be written to.
  ghost function DeafDaemon(a: Actor): Step
    requires a.tracked != map[]
  {
    var order := Listed(a.tracked.Keys);
    var primary :| primary in a.tracked;
    Do(Reconnect,
       Script(None, SILENCE, SILENCE, SILENCE, SILENCE, SILENCE, primary, order, seq(|order|, _ => BROKEN_WRITE)))
  }

  lemma {:induction false} BrokenWritesFail(a: Actor, bound: map<WorkspaceId, IdText>, order: seq<WorkspaceId>,
                                            xs: seq<Exchange>)
    requires !a.connection && a.reader && a.writer && |xs| == |order|
    requires forall w | w in order :: w in bound && bound[w].Parse().Some?
    requires forall i | 0 <= i < |xs| :: xs[i] == BROKEN_WRITE
    ensures var (b, verdicts) := ReattachAll(a, bound, order, xs);
            && SameTransport(a, b) && b.tracked == a.tracked
            && |verdicts| == |order| && (forall i | 0 <= i < |verdicts| :: verdicts[i] == IsTransientFailure)
    decreases |order|
  {
    if order != [] {
      var n := |order| - 1;
      BrokenWritesFail(a, bound, order[..n], xs[..n]);
      assert order[n] in order;
      var b := ReattachAll(a, bound, order[..n], xs[..n]).0;
      BrokenWriteFails(b, order[n], bound[order[n]]);
    }
  }

  lemma BrokenWriteFails(a: Actor, workspace: WorkspaceId, runtime: IdText)
    requires !a.connection && a.reader && a.writer && runtime.Parse().Some?
    ensures var (b, verdict) := ReattachOne(a, workspace, runtime, BROKEN_WRITE);
            verdict == IsTransientFailure && SameTransport(a, b) && b.tracked == a.tracked
  {
  }

  lemma DeafCycleCounts(a: Actor, s: Script)
    requires Retrying(a) && Covers(a, s) && a.tracked != map[] && s.connect.None? && s.order != []
    requires forall i | 0 <= i < |s.reattach| :: s.reattach[i] == BROKEN_WRITE
    ensures CycleCounts(a, s)
  {
    BrokenWritesFail(BeforeReattach(a, s), a.tracked, s.order, s.reattach);
    var verdicts := Reattached(a, s).1;
    assert verdicts[0] == IsTransientFailure;
  }

  lemma DeafDaemonIsEnabled(a: Actor)
    requires Inv(a) && a.outstanding == 1 && a.tracked != map[]
    ensures Enabled(a, DeafDaemon(a)) && DeafDaemon(a).script.order != []
  {
    var s := DeafDaemon(a).script;
    ListedEnumerates(a.tracked.Keys);
    assert forall w | w in s.order :: w in (set v | v in s.order);
    var w :| w in a.tracked;
    assert w in (set v | v in s.order);
  }

  lemma DeafDaemonFails(a: Actor)
    requires Inv(a) && a.outstanding == 1 && a.tracked != map[]
    requires Enabled(a, DeafDaemon(a)) && DeafDaemon(a).script.order != []
    ensures FailsToReattach(a, DeafDaemon(a))
  {
    ReconnectIsCycle(a, DeafDaemon(a));
    DeafCycleCounts(a.(outstanding := 0), DeafDaemon(a).script);
  }

  lemma {:induction false} RunGrows(a: Actor, steps: seq<Step>, step: Step)
    requires IsRun(a, steps) && Enabled(After(a, steps), step)
    ensures IsRun(a, steps + [step]) && After(a, steps + [step]) == Next(After(a, steps), step)
  {
    assert (steps + [step])[..|steps|] == steps;
  }

  // From every connection with something tracked there is such a run of each length up to
  // cap + 2 reconnects.
  lemma {:induction false} FailedReattachesHappen(a: Actor, reconnects: nat) returns (steps: seq<Step>)
    requires Inv(a) && a.reader && a.tracked != map[] && a.cap + 3 <= U32_MAX && reconnects <= a.cap + 2
    ensures IsRun(a, steps) && OnlyFailedReattaches(a, steps) && |steps| == reconnects + 1
    decreases reconnects
  {
    if reconnects == 0 {
      OneStep(a, Closed);
      steps := [Closed];
    } else {
      var shorter := FailedReattachesHappen(a, reconnects - 1);
      FailedReattachesRamp(a, shorter);
      RunKeeps(a, shorter);
      var b := After(a, shorter);
      DeafDaemonIsEnabled(b);
      DeafDaemonFails(b);
      RunGrows(a, shorter, DeafDaemon(b));
      steps := shorter + [DeafDaemon(b)];
      assert steps[..|steps| - 1] == shorter;
    }
  }

  // ---------------------------------------------------------------- nothing but failed connections

  // Every step is a Reconnect whose connection attempt fails transiently.
  predicate OnlyTransientConnectFailures(steps: seq<Step>) {
    forall step | step in steps ::
      IsReconnect(step) && step.script.connect.Some? && Classify(step.script.connect.value).IsTransient()
  }

  lemma FailedConnectIsLogged(a: Actor, s: Script)
    requires Retrying(a) && Covers(a, s) && a.tracked != map[]
    requires s.connect.Some? && Classify(s.connect.value).IsTransient()
    ensures HandleReconnect(a, s).log == a.log
              + [Emit(StatusChanged(s.primary, if a.local then Starting else Connecting))] + [ConnectTried]
              + [Emit(StatusChanged(s.primary, Lost))]
              + [Emit(StatusChanged(s.primary, Reconnecting(1, Min(1, a.cap))))]
              + [Scheduled(Min(1, a.cap))]
  {
  }

  lemma TransientConnectFailureSchedules(a: Actor, s: Script)
    requires Retrying(a) && Covers(a, s) && a.tracked != map[]
    requires s.connect.Some? && Classify(s.connect.value).IsTransient()
    ensures DelaySum(HandleReconnect(a, s).log) == DelaySum(a.log) + Min(1, a.cap)
  {
    FailedConnectIsLogged(a, s);
    FourLogged(a.log, Emit(StatusChanged(s.primary, if a.local then Starting else Connecting)),
               Emit(StatusChanged(s.primary, Lost)), Emit(StatusChanged(s.primary, Reconnecting(1, Min(1, a.cap)))),
               Min(1, a.cap));
  }

  lemma FourLogged(log: seq<Effect>, e: Effect, f: Effect, g: Effect, delay: nat)
    requires e.Emit? && f.Emit? && g.Emit?
    ensures DelaySum(log + [e] + [ConnectTried] + [f] + [g] + [Scheduled(delay)]) == DelaySum(log) + delay
  {
    var log2 := log + [e] + [ConnectTried];
    TwoLogged(log, e, ConnectTried);
    LogAdds(log2, f);
    TwoLogged(log2 + [f], g, Scheduled(delay));
  }

  // However often that happens, the counter does not move, every delay is the shortest
  // there is, and the breaker does not open.
  lemma {:induction false} TransientConnectFailuresNeverRamp(a: Actor, steps: seq<Step>)
    requires Inv(a) && a.outstanding == 1 && a.tracked != map[]
    requires IsRun(a, steps) && OnlyTransientConnectFailures(steps)
    ensures var b := After(a, steps);
            && b.cap == a.cap && b.attempt == a.attempt && b.outstanding == 1
            && b.tracked == a.tracked && !b.BreakerOpen()
            && DelaySum(b.log) == DelaySum(a.log) + |steps| * Min(1, a.cap)
    decreases |steps|
  {
    if steps != [] {
      var n := |steps| - 1;
      assert forall step | step in steps[..n] :: step in steps;
      TransientConnectFailuresNeverRamp(a, steps[..n]);
      RunKeeps(a, steps[..n]);
      assert steps[n] in steps;
      TransientConnectFailureStep(After(a, steps[..n]), steps[n]);
      assert (n + 1) * Min(1, a.cap) == n * Min(1, a.cap) + Min(1, a.cap);
    }
  }

  lemma TransientConnectFailureStep(a: Actor, step: Step)
    requires Inv(a) && Enabled(a, step) && a.tracked != map[] && OnlyTransientConnectFailures([step])
    ensures var b := Next(a, step);
            && b.cap == a.cap && b.attempt == a.attempt && b.outstanding == 1
            && b.tracked == a.tracked && !b.BreakerOpen()
            && DelaySum(b.log) == DelaySum(a.log) + Min(1, a.cap)
  {
    assert step in [step];
    ReconnectIsCycle(a, step);
    FailedConnectEnds(a.(outstanding := 0), step.script);
    TransientConnectFailureSchedules(a.(outstanding := 0), step.script);
  }
}
