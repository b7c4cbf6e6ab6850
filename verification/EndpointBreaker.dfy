// The backoff counter and the circuit breaker of an endpoint actor, over whole runs.
module EndpointBreaker {
  import opened Wrappers
  import opened EndpointTypes
  import opened EndpointSpec
  import opened EndpointInvariant
  import Ids = RequestIds

  predicate IsReconnect(step: Step) { step.Do? && step.command.Reconnect? }

  // ---------------------------------------------------------------- while a retry is pending

  // The transport is down and the counter is above zero.
  ghost predicate Pending(a: Actor) {
    !a.connection && !a.reader && !a.writer && a.attempt >= 1
  }

  // Neither a connection attempt nor a timer nor a message to the daemon, and nobody is told
  // to be blocked.
  predicate IsInert(e: Effect) {
    e.Emit? && !(e.event.StatusChanged? && e.event.status.Blocked?)
  }

  // Nothing but the tracked workspaces, the own id counter and the log differs, and the log
  // only by inert effects.
  ghost predicate Untouched(a: Actor, b: Actor) {
    && SameTransport(a, b) && a.heartbeat == b.heartbeat && a.wireIds == b.wireIds
    && a.log <= b.log
    && (forall i | |a.log| <= i < |b.log| :: IsInert(b.log[i]))
  }

  function ForgottenBy(step: Step): set<WorkspaceId> {
    if step.Do? && step.command.ForgetWorkspace? then {step.command.workspace} else {}
  }

  function Forgotten(steps: seq<Step>): set<WorkspaceId> {
    if steps == [] then {} else Forgotten(steps[..|steps| - 1]) + ForgottenBy(steps[|steps| - 1])
  }

  lemma AwaitingCommandIsInert(a: Actor, command: Command, s: Script)
    requires Pending(a)
    requires command.CreatePane? || command.SplitPane? || command.ClosePane? || EndsTracking(command)
    ensures Untouched(a, Handle(a, command, s)) && Handle(a, command, s).tracked == a.tracked
  {
    assert EnsureConnected(a, command.workspace, s.connect) == (a, Some(DaemonUnavailable));
  }

  lemma OtherCommandIsInert(a: Actor, command: Command, s: Script)
    requires Pending(a) && !command.Reconnect?
    requires !(command.CreatePane? || command.SplitPane? || command.ClosePane? || EndsTracking(command))
    ensures Untouched(a, Handle(a, command, s))
    ensures Handle(a, command, s).tracked == a.tracked - ForgottenBy(Do(command, s))
  {
    assert a.tracked - {} == a.tracked;
  }

  // For any sequence of steps other than Reconnect taken with the transport down and the
  // counter above zero: no connection is tried, no timer started, nothing sent, nobody
  // blocked; the counter stays, and exactly the forgotten workspaces are untracked.
  lemma {:induction false} InertWhilePending(a: Actor, steps: seq<Step>)
    requires Pending(a) && IsRun(a, steps)
    requires forall step | step in steps :: !IsReconnect(step)
    ensures Untouched(a, After(a, steps)) && Pending(After(a, steps))
    ensures After(a, steps).tracked == a.tracked - Forgotten(steps)
    decreases |steps|
  {
    if steps == [] {
      assert a.tracked - {} == a.tracked;
    } else {
      var n := |steps| - 1;
      InertWhilePending(a, steps[..n]);
      assert steps[n] in steps;
      var b := After(a, steps[..n]);
      InertStep(b, steps[n]);
      assert a.tracked - Forgotten(steps[..n]) - ForgottenBy(steps[n]) == a.tracked - Forgotten(steps);
    }
  }

  lemma InertStep(a: Actor, step: Step)
    requires Pending(a) && Enabled(a, step) && !IsReconnect(step)
    ensures Untouched(a, Next(a, step)) && Next(a, step).tracked == a.tracked - ForgottenBy(step)
  {
    var command := step.command;
    if command.CreatePane? || command.SplitPane? || command.ClosePane? || EndsTracking(command) {
      AwaitingCommandIsInert(a, command, step.script);
      assert a.tracked - {} == a.tracked;
    } else {
      OtherCommandIsInert(a, command, step.script);
    }
  }

  // ---------------------------------------------------------------- states without a way back

  // No retry is coming, or the one that is will find nothing to reconnect.
  ghost predicate Doomed(a: Actor) { Pending(a) && (a.outstanding == 0 || a.tracked == map[]) }

  ghost predicate StaysInert(a: Actor, b: Actor) {
    && a.log <= b.log
    && (forall i | |a.log| <= i < |b.log| :: IsInert(b.log[i]))
  }

  lemma {:induction false} DoomedForever(a: Actor, steps: seq<Step>)
    requires Doomed(a) && IsRun(a, steps)
    ensures Doomed(After(a, steps)) && StaysInert(a, After(a, steps))
    decreases |steps|
  {
    if steps != [] {
      var n := |steps| - 1;
      DoomedForever(a, steps[..n]);
      var b := After(a, steps[..n]);
      if IsReconnect(steps[n]) {
        assert Next(b, steps[n]) == b.(outstanding := b.outstanding - 1);
      } else {
        InertStep(b, steps[n]);
      }
    }
  }

  // Once opened, the breaker is final: no run that follows connects or schedules.
  lemma BreakerIsFinal(a: Actor, steps: seq<Step>)
    requires Inv(a) && a.BreakerOpen() && IsRun(a, steps)
    ensures !After(a, steps).Up() && StaysInert(a, After(a, steps))
  {
    DoomedForever(a, steps);
  }

  // A first connection attempt that fails transiently strands the actor: nothing is tracked
  // yet, so the retry it announces will not try to connect.
  lemma FirstFailureStrands(a: Actor, workspace: WorkspaceId, error: DaemonError)
    requires Inv(a) && !a.Up() && a.attempt == 0 && Classify(error).IsTransient()
    ensures var b := EnsureConnected(a, workspace, Some(error)).0;
            && Doomed(b) && b.outstanding == 1
            && Emit(StatusChanged(workspace, Reconnecting(1, if 1 < a.cap then 1 else a.cap))) in b.log
  {
    var delay := a.NextDelay();
    var b := EnsureConnected(a, workspace, Some(error)).0;
    assert b.log[|b.log| - 2] == Emit(StatusChanged(workspace, Reconnecting(1, delay)));
  }

  ghost function Listed(s: set<WorkspaceId>): seq<WorkspaceId> {
    if s == {} then [] else
      var x :| x in s;
      Listed(s - {x}) + [x]
  }

  lemma OneMoreEnumerates(order: seq<WorkspaceId>, keys: set<WorkspaceId>, x: WorkspaceId)
    requires Enumerates(order, keys) && x !in keys
    ensures Enumerates(order + [x], keys + {x})
  {
    forall w
      ensures w in order + [x] <==> w in keys + {x}
    {
      assert w in order <==> w in (set v | v in order);
    }
    assert forall i | 0 <= i < |order| :: order[i] in order;
  }

  lemma {:induction false} ListedEnumerates(s: set<WorkspaceId>)
    ensures Enumerates(Listed(s), s)
  {
    if s != {} {
      var rest := Listed(s)[..|Listed(s)| - 1];
      var x := Listed(s)[|Listed(s)| - 1];
      assert Listed(s) == rest + [x] && rest == Listed(s - {x}) && x in s;
      ListedEnumerates(s - {x});
      OneMoreEnumerates(rest, s - {x}, x);
      assert s - {x} + {x} == s;
    }
  }

  // A daemon that answers each of `n` attach requests, the first of which carries `first`.
  ghost function Attaching(first: nat, n: nat): (xs: seq<Exchange>)
    ensures |xs| == n
  {
    if n == 0 then []
    else Attaching(first, n - 1) +
         [Exchange(None, [Envelope(Ids.ActorId(first, n - 1), SnapshotReply(Snapshot(0, 0)))], Fails(Disconnected))]
  }

  lemma {:induction false} AttachingSettles(first: nat, n: nat)
    ensures forall i | 0 <= i < n :: Attaching(first, n)[i].Settles()
  {
    if n > 0 {
      AttachingSettles(first, n - 1);
    }
  }

  ghost predicate AllRecovered(a: Actor, b: Actor, verdicts: seq<Verdict>, n: nat) {
    && SameTransport(a, b) && b.tracked == a.tracked
    && b.nextId == Ids.ActorId(a.nextId, n)
    && (forall v | v in verdicts :: v == IsRecovered)
  }

  lemma OneMoreRecovered(a: Actor, b: Actor, c: Actor, verdicts: seq<Verdict>, n: nat)
    requires AllRecovered(a, b, verdicts, n)
    requires SameTransport(b, c) && c.tracked == b.tracked && c.nextId == Ids.ActorSuccessor(b.nextId)
    ensures AllRecovered(a, c, verdicts + [IsRecovered], n + 1)
  {
  }

  lemma {:induction false} AttachingRecoversAll(a: Actor, bound: map<WorkspaceId, IdText>, order: seq<WorkspaceId>)
    requires !a.connection && a.reader && a.writer
    requires forall w | w in order :: w in bound && bound[w].Parse().Some?
    ensures var (b, verdicts) := ReattachAll(a, bound, order, Attaching(a.nextId, |order|));
            AllRecovered(a, b, verdicts, |order|)
    decreases |order|
  {
    if order != [] {
      var n := |order| - 1;
      var xs := Attaching(a.nextId, n + 1);
      assert xs[..n] == Attaching(a.nextId, n);
      AttachingRecoversAll(a, bound, order[..n]);
      assert order[n] in order;
      var (b, verdicts) := ReattachAll(a, bound, order[..n], xs[..n]);
      AnswerRecovers(b, order[n], bound[order[n]], xs[n]);
      OneMoreRecovered(a, b, ReattachOne(b, order[n], bound[order[n]], xs[n]).0, verdicts, n);
    }
  }

  lemma AnswerRecovers(a: Actor, workspace: WorkspaceId, runtime: IdText, x: Exchange)
    requires !a.connection && a.reader && a.writer && runtime.Parse().Some?
    requires x == Exchange(None, [Envelope(a.nextId, SnapshotReply(Snapshot(0, 0)))], Fails(Disconnected))
    ensures var (b, verdict) := ReattachOne(a, workspace, runtime, x);
            && verdict == IsRecovered && b.tracked == a.tracked && b.nextId == Ids.ActorSuccessor(a.nextId)
            && SameTransport(a, b)
  {
  }

  // A state from which some run of the actor leads to a connection is exactly one that is
  // not doomed.
  lemma WayBackUnlessDoomed(a: Actor)
    requires Inv(a)
    ensures Doomed(a) <==> !exists steps :: IsRun(a, steps) && After(a, steps).Up()
  {
    if Doomed(a) {
      forall steps | IsRun(a, steps) ensures !After(a, steps).Up() {
        DoomedForever(a, steps);
      }
    } else {
      var steps := WayBack(a);
      assert IsRun(a, steps) && After(a, steps).Up();
    }
  }

  const SILENCE := Exchange(None, [], Fails(Disconnected))

  lemma WayBack(a: Actor) returns (steps: seq<Step>)
    requires Inv(a) && !Doomed(a)
    ensures IsRun(a, steps) && After(a, steps).Up() && After(a, steps).tracked == a.tracked
  {
    if a.Up() {
      steps := [];
    } else {
      var step := if a.attempt == 0 then FirstContact() else Recovery(a);
      if a.attempt == 0 {
        FirstContactConnects(a);
      } else {
        RecoveryReconnects(a);
      }
      OneStep(a, step);
      steps := [step];
    }
  }

  ghost function FirstContact(): Step {
    var x := Exchange(None, [Envelope(1, WorkspaceList(0))], Fails(Disconnected));
    Do(RefreshInventory, Script(None, x, SILENCE, SILENCE, SILENCE, SILENCE, "", [], []))
  }

  lemma FirstContactConnects(a: Actor)
    requires Inv(a) && !a.Up() && a.attempt == 0
    ensures var step := FirstContact();
            Enabled(a, step) && Next(a, step).Up() && Next(a, step).tracked == a.tracked
  {
    var step := FirstContact();
    var b := EnsureConnected(a, INVENTORY_WORKSPACE, None).0;
    var (c, reply) := UnsplitRequest(b, ListRequest, None, step.script.exchange);
    assert reply == Answered(Envelope(1, WorkspaceList(0)));
  }

  ghost function Recovery(a: Actor): Step
    requires a.tracked != map[]
  {
    var order := Listed(a.tracked.Keys);
    var primary :| primary in a.tracked;
    Do(Reconnect,
       Script(None, SILENCE, SILENCE, SILENCE, SILENCE, SILENCE, primary, order, Attaching(a.nextId, |order|)))
  }

  lemma RecoveryReconnects(a: Actor)
    requires Inv(a) && !a.Up() && a.outstanding == 1 && a.tracked != map[]
    ensures var step := Recovery(a);
            Enabled(a, step) && Next(a, step).Up() && Next(a, step).tracked == a.tracked
  {
    var s := Recovery(a).script;
    ListedEnumerates(a.tracked.Keys);
    AttachingSettles(a.nextId, |s.order|);
    assert forall w | w in s.order :: w in (set v | v in s.order);
    AllAnswerReconnects(a.(outstanding := 0), s);
  }

  lemma AllAnswerReconnects(a: Actor, s: Script)
    requires Retrying(a) && Covers(a, s) && a.tracked != map[]
    requires s.connect.None? && s.reattach == Attaching(a.nextId, |s.order|)
    ensures HandleReconnect(a, s).Up() && HandleReconnect(a, s).tracked == a.tracked
  {
    AttachingRecoversAll(BeforeReattach(a, s), a.tracked, s.order);
    ConnectedCycleEnds(a, s);
  }

  lemma OneStep(a: Actor, step: Step)
    requires Enabled(a, step)
    ensures IsRun(a, [step]) && After(a, [step]) == Next(a, step)
  {
    assert [step][..0] == [];
    assert IsRun(a, []);
  }
}
