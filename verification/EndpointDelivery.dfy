// Over every run of an endpoint actor: which of the daemon's messages reach the window, and
// which workspaces stay tracked.
module EndpointDelivery {
  import opened Wrappers
  import opened EndpointTypes
  import opened EndpointSpec
  import opened EndpointInvariant
  import opened EndpointReach
  import opened EndpointBackoff
  import opened EndpointHeartbeat
  import opened EndpointStream
  import opened EndpointAccounts
  import opened EndpointOpen
  import opened EndpointTraffic
  import opened EndpointReconnect
  import Ids = RequestIds

  // The messages a step hands on: one the loop takes, or those that arrive on a split
  // transport before the responses its requests await.
  function Hears(a: Actor, step: Step): seq<Effect> {
    match step
    case Do(command, s) => CommandHears(a, command, s)
    case Message(envelope, _) => if IsTaken(envelope.payload) then [Emit(WorkspaceMessage(envelope))] else []
    case _ => []
  }

  function CommandHears(a: Actor, command: Command, s: Script): seq<Effect> {
    match command
    case OpenWorkspace(_, _, _, _) => if Reaches(a, s) then OpeningOf(a, command, s).Heard() else []
    case RefreshInventory =>
      if Reaches(a, s) then HeardFor(a.writer, RequestId(Dialled(a)), false, s.exchange) else []
    case ResyncWorkspace(_, runtime) => HeardFor(a.writer && runtime.Parse().Some?, a.nextId, false, s.exchange)
    case Reconnect => if a.tracked != map[] && s.connect.None? then WalkHears(a.nextId, s.reattach) else []
    case _ =>
      HeardFor(IsAwaiting(command) && a.writer && IdsParse(command.runtime, command), a.nextId, EndsTracking(command),
               s.exchange)
  }

  // What is tracked after a step: nothing is lost but what the messages handed on say has
  // ended, what is forgotten, and what a detach or termination ended; and only an open that
  // succeeds binds anything.
  function Tracks(a: Actor, step: Step): map<WorkspaceId, IdText> {
    var survivors := Survivors(a.tracked, Hears(a, step));
    if !step.Do? then survivors
    else
      var command := step.command;
      match command
      case OpenWorkspace(w, _, _, _) =>
        var bound := if Reaches(a, step.script) then OpeningOf(a, command, step.script).Opened() else None;
        if bound.Some? then survivors[w := bound.value.0] else survivors
      case ForgetWorkspace(w) => survivors - {w}
      case DetachWorkspace(w, runtime) =>
        EndedIn(a, command, w, runtime, step.script, survivors)
      case TerminateWorkspace(w, runtime) =>
        EndedIn(a, command, w, runtime, step.script, survivors)
      case _ => survivors
  }

  function EndedIn(a: Actor, command: Command, workspace: WorkspaceId, runtime: IdText, s: Script,
                   survivors: map<WorkspaceId, IdText>): map<WorkspaceId, IdText>
  {
    if a.writer && runtime.Parse().Some?
    then TrackedAfter(command, workspace, ReplyTo(a.nextId, s.exchange), survivors)
    else survivors
  }

  // A step has handed these messages on, and left this tracked.
  ghost predicate Delivers(a: Actor, b: Actor, heard: seq<Effect>, tracked: map<WorkspaceId, IdText>) {
    && a.log <= b.log && In(b.log[|a.log|..], Messages) == heard
    && b.tracked == tracked
  }

  lemma NobodyEnds(tracked: map<WorkspaceId, IdText>)
    ensures Survivors(tracked, []) == tracked
  {
  }

  lemma AwaitingDelivers(a: Actor, command: Command, s: Script)
    requires Inv(a) && IsAwaiting(command)
    ensures Delivers(a, Handle(a, command, s), Hears(a, Do(command, s)), Tracks(a, Do(command, s)))
  {
    NobodyEnds(a.tracked);
    if a.writer && IdsParse(command.runtime, command) {
      AwaitingCommandFollowsReply(a, command, s);
    } else {
      UnaskedCommandTells(a, command, s);
    }
  }

  lemma OpenDelivers(a: Actor, command: Command, s: Script)
    requires Inv(a) && command.OpenWorkspace?
    ensures Delivers(a, Handle(a, command, s), Hears(a, Do(command, s)), Tracks(a, Do(command, s)))
  {
    NobodyEnds(a.tracked);
    if Reaches(a, s) {
      OpenFollowsReplies(a, command, s);
    } else {
      UnreachedOpenAsksNothing(a, command, s);
    }
  }

  lemma ReconnectDelivers(a: Actor, s: Script)
    requires Inv(a) && Enabled(a, Do(Reconnect, s))
    ensures Delivers(a, Handle(a, Reconnect, s), Hears(a, Do(Reconnect, s)), Tracks(a, Do(Reconnect, s)))
  {
    NobodyEnds(a.tracked);
    var b := a.(outstanding := 0);
    ReconnectIsCycle(a, Do(Reconnect, s));
    if a.tracked == map[] {
      assert a.log[|a.log|..] == [];
    } else if s.connect.None? {
      ReconnectFollowsReplies(b, s);
    } else {
      FailedReconnectTells(b, s);
    }
  }

  lemma OtherCommandDelivers(a: Actor, command: Command, s: Script)
    requires Inv(a) && !IsAwaiting(command) && !command.OpenWorkspace? && !command.Reconnect?
    ensures Delivers(a, Handle(a, command, s), Hears(a, Do(command, s)), Tracks(a, Do(command, s)))
  {
    NobodyEnds(a.tracked);
    assert a.log[|a.log|..] == [];
    match command
    case SendInput(_, _, _) => InputIsWrittenIffSplit(a, command, s);
    case ResizePane(_, _, _) => InputIsWrittenIffSplit(a, command, s);
    case RenameWorkspace(_, _) => NoticeIsWrittenIffSplit(a, command, s);
    case SetPaneNoPersist(_, _, _) => NoticeIsWrittenIffSplit(a, command, s);
    case RefreshInventory => RefreshLoadsTheAnswer(a, s);
    case ResyncWorkspace(_, _) => ResyncReportsTheAnswer(a, command, s);
    case ForgetWorkspace(_) =>
  }

  lemma MessageDelivers(a: Actor, envelope: Envelope, found: WorkspaceId)
    requires Enabled(a, Message(envelope, found))
    ensures var step := Message(envelope, found);
            Delivers(a, Next(a, step), Hears(a, step), Tracks(a, step))
  {
    var step := Message(envelope, found);
    var b := Next(a, step);
    LoopForwardsIff(a, envelope, found);
    var heard := b.log[|a.log|..];
    if IsTaken(envelope.payload) {
      assert heard == [Emit(WorkspaceMessage(envelope))];
      AllInOne(heard, Messages, Messages);
      OthersSurvive(a, b, heard);
    } else {
      assert forall e | e in heard :: ColumnOf(e) == Notices;
      AllInOne(heard, Messages, Notices);
      NobodyEnds(a.tracked);
    }
  }

  lemma PingAdds(a: Actor, b: Actor, id: nat, nonce: nat)
    requires b.log == a.log + [Pinged(id, nonce)]
    ensures Adds(a, b, [], [], [Pinged(id, nonce)])
  {
    AddsNotices(a, b, [Pinged(id, nonce)]);
  }

  lemma FailedPingAdds(a: Actor, b: Actor, id: nat, nonce: nat)
    requires b.log == a.log + [Pinged(id, nonce)] && b.tracked == a.tracked && b.cap == a.cap && b.attempt == a.attempt
    ensures var c := HandleDisconnect(b);
            && Adds(a, c, [], [], [Pinged(id, nonce)] + LossTells(a.attempt, a.tracked.Keys, a.cap))
            && c.tracked == a.tracked
  {
    PingAdds(a, b, id, nonce);
    LossAdds(b);
    AddsCompose(a, b, HandleDisconnect(b), [], [], [Pinged(id, nonce)],
                [], [], LossTells(a.attempt, a.tracked.Keys, a.cap));
  }

  // A tick on an established connection loses it or pings, with the nonce it then awaits; a
  // ping that cannot be written loses the connection as well.
  function TickTells(a: Actor, sendError: Option<DaemonError>): seq<Effect> {
    var nonce := if a.heartbeat.pending.Some? then a.heartbeat.pending.value else a.heartbeat.nextNonce;
    var loss := LossTells(a.attempt, a.tracked.Keys, a.cap);
    if a.heartbeat.pending.Some? && a.heartbeat.missed >= 7 then loss
    else [Pinged(Ids.Drawn(a.wireIds), nonce)] + if sendError.Some? then loss else []
  }

  lemma WrittenTickAdds(a: Actor, sendError: Option<DaemonError>)
    requires a.heartbeat.InRange() && a.writer && !(a.heartbeat.pending.Some? && a.heartbeat.missed >= 7)
    ensures var b := HandleTick(a, sendError);
            Adds(a, b, [], [], TickTells(a, sendError)) && b.tracked == a.tracked
  {
    var nonce := if a.heartbeat.pending.Some? then a.heartbeat.pending.value else a.heartbeat.nextNonce;
    var id := Ids.Drawn(a.wireIds);
    var b := a.(heartbeat := a.heartbeat.Ticked(), wireIds := Ids.Bumped(id)).Log(Pinged(id, nonce));
    TickPings(a, sendError);
    if sendError.Some? {
      FailedPingAdds(a, b, id, nonce);
    } else {
      PingAdds(a, b, id, nonce);
      assert [Pinged(id, nonce)] + [] == [Pinged(id, nonce)];
    }
  }

  lemma TickAdds(a: Actor, sendError: Option<DaemonError>)
    requires a.heartbeat.InRange() && a.writer
    ensures var b := HandleTick(a, sendError);
            Adds(a, b, [], [], TickTells(a, sendError)) && b.tracked == a.tracked
  {
    if a.heartbeat.pending.Some? && a.heartbeat.missed >= 7 {
      LossAdds(a.(heartbeat := a.heartbeat.Ticked()));
    } else {
      WrittenTickAdds(a, sendError);
    }
  }

  // Every step hands on exactly these messages, and tracks exactly these workspaces after it.
  lemma StepDelivers(a: Actor, step: Step)
    requires Inv(a) && Enabled(a, step)
    ensures Delivers(a, Next(a, step), Hears(a, step), Tracks(a, step))
  {
    match step
    case Do(command, s) =>
      if IsAwaiting(command) {
        AwaitingDelivers(a, command, s);
      } else if command.OpenWorkspace? {
        OpenDelivers(a, command, s);
      } else if command.Reconnect? {
        ReconnectDelivers(a, s);
      } else {
        OtherCommandDelivers(a, command, s);
      }
    case Message(envelope, found) => MessageDelivers(a, envelope, found);
    case Closed =>
      LossAdds(a);
      NobodyEnds(a.tracked);
    case Tick(sendError) =>
      TickAdds(a, sendError);
      NobodyEnds(a.tracked);
  }

  ghost function HeardIn(a: Actor, steps: seq<Step>): seq<Effect>
    requires IsRun(a, steps)
    decreases |steps|
  {
    if steps == [] then []
    else
      var n := |steps| - 1;
      HeardIn(a, steps[..n]) + Hears(After(a, steps[..n]), steps[n])
  }

  lemma HandedOn(start: seq<Effect>, before: seq<Effect>, after: seq<Effect>, heard: seq<Effect>, more: seq<Effect>)
    requires In(before, Messages) == In(start, Messages) + heard
    requires before <= after && In(after[|before|..], Messages) == more
    ensures In(after, Messages) == In(start, Messages) + (heard + more)
  {
    InSum(before, after[|before|..], Messages);
    assert after == before + after[|before|..];
  }

  lemma StepHandsOn(a: Actor, b: Actor, step: Step, heard: seq<Effect>)
    requires Inv(b) && Enabled(b, step) && In(b.log, Messages) == In(a.log, Messages) + heard
    ensures In(Next(b, step).log, Messages) == In(a.log, Messages) + (heard + Hears(b, step))
  {
    StepDelivers(b, step);
    HandedOn(a.log, b.log, Next(b, step).log, heard, Hears(b, step));
  }

  // Over every run the window is handed exactly the messages the loop took and those that
  // passed a waiting request, each once and in the order they arrived.
  lemma {:induction false} RunDelivers(a: Actor, steps: seq<Step>)
    requires Inv(a) && IsRun(a, steps)
    ensures In(After(a, steps).log, Messages) == In(a.log, Messages) + HeardIn(a, steps)
    decreases |steps|
  {
    if steps != [] {
      var n := |steps| - 1;
      RunDelivers(a, steps[..n]);
      RunKeeps(a, steps[..n]);
      StepHandsOn(a, After(a, steps[..n]), steps[n], HeardIn(a, steps[..n]));
    }
  }
}
