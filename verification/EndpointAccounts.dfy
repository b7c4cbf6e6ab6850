// What a step of an endpoint actor does to the outside, read off its log in three columns:
// the requests it writes, the messages it hands on, and everything else.
module EndpointAccounts {
  import opened Wrappers
  import opened EndpointTypes
  import opened EndpointSpec
  import opened EndpointInvariant
  import opened EndpointBackoff
  import opened EndpointStream
  import Ids = RequestIds

  // ---------------------------------------------------------------- columns

  datatype Column = Requests | Messages | Notices

  function ColumnOf(e: Effect): Column {
    if e.Requested? then Requests else if IsMessage(e) then Messages else Notices
  }

  function In(log: seq<Effect>, column: Column): seq<Effect> {
    if log == [] then []
    else
      var n := |log| - 1;
      In(log[..n], column) + if ColumnOf(log[n]) == column then [log[n]] else []
  }

  lemma InOneMore(log: seq<Effect>, e: Effect, column: Column)
    ensures In(log + [e], column) == In(log, column) + if ColumnOf(e) == column then [e] else []
  {
    assert (log + [e])[..|log|] == log;
  }

  lemma {:induction false} InSum(log: seq<Effect>, more: seq<Effect>, column: Column)
    ensures In(log + more, column) == In(log, column) + In(more, column)
    decreases |more|
  {
    if more == [] {
      assert log + more == log;
    } else {
      var n := |more| - 1;
      InSum(log, more[..n], column);
      InOneMore(log + more[..n], more[n], column);
      assert log + more == log + more[..n] + [more[n]];
    }
  }

  lemma {:induction false} AllInOne(log: seq<Effect>, column: Column, all: Column)
    requires forall e | e in log :: ColumnOf(e) == all
    ensures In(log, column) == if column == all then log else []
  {
    if log != [] {
      var n := |log| - 1;
      AllInOne(log[..n], column, all);
      assert log == log[..n] + [log[n]];
      assert log[n] in log;
    }
  }

  // What has been logged since, column by column.
  ghost predicate Adds(a: Actor, b: Actor, asked: seq<Effect>, heard: seq<Effect>, told: seq<Effect>) {
    && a.log <= b.log
    && In(b.log[|a.log|..], Requests) == asked
    && In(b.log[|a.log|..], Messages) == heard
    && In(b.log[|a.log|..], Notices) == told
  }

  lemma AddsCompose(a: Actor, b: Actor, c: Actor, asked: seq<Effect>, heard: seq<Effect>, told: seq<Effect>,
                    asked': seq<Effect>, heard': seq<Effect>, told': seq<Effect>)
    requires Adds(a, b, asked, heard, told) && Adds(b, c, asked', heard', told')
    ensures Adds(a, c, asked + asked', heard + heard', told + told')
  {
    var first, second := b.log[|a.log|..], c.log[|b.log|..];
    assert c.log[|a.log|..] == first + second;
    InSum(first, second, Requests);
    InSum(first, second, Messages);
    InSum(first, second, Notices);
  }

  lemma AddsNotices(a: Actor, b: Actor, told: seq<Effect>)
    requires b.log == a.log + told && forall e | e in told :: ColumnOf(e) == Notices
    ensures Adds(a, b, [], [], told)
  {
    assert b.log[|a.log|..] == told;
    AllInOne(told, Requests, Notices);
    AllInOne(told, Messages, Notices);
    AllInOne(told, Notices, Notices);
  }

  // ---------------------------------------------------------------- one request

  // The workspaces still tracked once these messages have been handed on.
  function Survivors(tracked: map<WorkspaceId, IdText>, heard: seq<Effect>): map<WorkspaceId, IdText> {
    map w | w in tracked && (forall m | m in heard :: !Ends(m, tracked[w])) :: tracked[w]
  }

  lemma SurvivorsCompose(tracked: map<WorkspaceId, IdText>, heard: seq<Effect>, more: seq<Effect>)
    ensures Survivors(Survivors(tracked, heard), more) == Survivors(tracked, heard + more)
  {
    forall w | w in tracked
      ensures w in Survivors(tracked, heard + more) <==> w in Survivors(Survivors(tracked, heard), more)
    {
      assert forall m :: m in heard + more <==> m in heard || m in more;
    }
  }

  // From a to b these requests were written, these messages handed on with what they
  // untrack, and nothing else was told.
  ghost predicate Talked(a: Actor, b: Actor, asked: seq<Effect>, heard: seq<Effect>) {
    && SameTransport(a, b) && Adds(a, b, asked, heard, [])
    && b.tracked == Survivors(a.tracked, heard)
  }

  // The id the next request will carry.
  function RequestId(a: Actor): nat {
    if a.connection then Ids.Drawn(a.wireIds) else a.nextId
  }

  // What is handed on while the request with this id waits: nothing before the split.
  function HeardFor(split: bool, id: nat, expectTerminated: bool, x: Exchange): seq<Effect> {
    if !split || x.sendError.Some? then [] else Forwards(x.inbound[..AwaitedAt(x.inbound, id)], expectTerminated)
  }

  lemma OthersSurvive(a: Actor, b: Actor, heard: seq<Effect>)
    requires b.log == a.log + heard && UntrackedByForwards(a, b)
    ensures b.tracked == Survivors(a.tracked, heard)
  {
    forall w | w in a.tracked
      ensures w in b.tracked <==> forall m | m in heard :: !Ends(m, a.tracked[w])
    {
      assert forall i | |a.log| <= i < |b.log| :: b.log[i] == heard[i - |a.log|];
      assert forall i | 0 <= i < |heard| :: heard[i] == b.log[|a.log| + i];
    }
  }

  lemma PassingTalks(a: Actor, b: Actor, passed: seq<Envelope>, expectTerminated: bool)
    requires PassedBy(a, b, passed, expectTerminated)
    ensures Talked(a, b, [], Forwards(passed, expectTerminated))
  {
    var heard := Forwards(passed, expectTerminated);
    ForwardsAreMessages(passed, expectTerminated);
    assert b.log[|a.log|..] == heard;
    AllInOne(heard, Requests, Messages);
    AllInOne(heard, Messages, Messages);
    AllInOne(heard, Notices, Messages);
    OthersSurvive(a, b, heard);
  }

  lemma AskingAdds(a: Actor, b: Actor, id: nat, kind: RequestKind, runtime: Option<Uuid>)
    requires b.log == a.log + [Requested(id, kind, runtime)] && SameTransport(a, b) && b.tracked == a.tracked
    ensures Talked(a, b, [Requested(id, kind, runtime)], [])
  {
    var asked := [Requested(id, kind, runtime)];
    assert b.log[|a.log|..] == asked;
    AllInOne(asked, Requests, Requests);
    AllInOne(asked, Messages, Requests);
    AllInOne(asked, Notices, Requests);
  }

  lemma TalkingGoesOn(a: Actor, b: Actor, c: Actor, asked: seq<Effect>, heard: seq<Effect>, asked': seq<Effect>,
                      heard': seq<Effect>)
    requires Talked(a, b, asked, heard) && Talked(b, c, asked', heard')
    ensures Talked(a, c, asked + asked', heard + heard')
  {
    AddsCompose(a, b, c, asked, heard, [], asked', heard', []);
    SurvivorsCompose(a.tracked, heard, heard');
  }

  // On a split transport.
  lemma SplitRequestTalks(a: Actor, kind: RequestKind, runtime: Option<Uuid>, expectTerminated: bool, x: Exchange)
    requires a.reader && a.writer && !a.connection
    ensures var (b, reply) := SendAndRead(a, kind, runtime, expectTerminated, x);
            var id := a.nextId;
            && reply == ReplyTo(id, x) && b.nextId == Ids.ActorSuccessor(id)
            && Talked(a, b, [Requested(id, kind, runtime)], HeardFor(true, id, expectTerminated, x))
  {
    var id := a.nextId;
    var c := a.(nextId := Ids.ActorSuccessor(id)).Log(Requested(id, kind, runtime));
    AskingAdds(a, c, id, kind, runtime);
    var (b, reply) := SendAndRead(a, kind, runtime, expectTerminated, x);
    if x.sendError.None? {
      ResponseConservesTheStream(c, id, expectTerminated, x.inbound, x.ending);
      PassingTalks(c, b, x.inbound[..AwaitedAt(x.inbound, id)], expectTerminated);
      TalkingGoesOn(a, c, b, [Requested(id, kind, runtime)], [], [], HeardFor(true, id, expectTerminated, x));
    }
  }

  // On either transport: the request carries the id its reply is awaited under, and the
  // next request the next id.
  lemma ActiveRequestTalks(a: Actor, kind: RequestKind, runtime: Option<Uuid>, x: Exchange)
    requires Inv(a) && a.Up()
    ensures var (b, reply) := ActiveRequest(a, kind, runtime, x);
            var id := RequestId(a);
            && reply == ReplyTo(id, x) && RequestId(b) == Ids.ActorSuccessor(id) && Inv(b)
            && Talked(a, b, [Requested(id, kind, runtime)], HeardFor(a.writer, id, false, x))
  {
    var (b, reply) := ActiveRequest(a, kind, runtime, x);
    ActiveRequestShrinks(a, kind, runtime, x);
    ShrinkingKeeps(a, b);
    if a.connection {
      UnsplitRequestSkipsTheRest(a, kind, runtime, x);
      AskingAdds(a, b, RequestId(a), kind, runtime);
    } else {
      SplitRequestTalks(a, kind, runtime, false, x);
    }
  }

  // ---------------------------------------------------------------- what failures tell

  // The delay before a first retry.
  function ShortestDelay(cap: nat): nat { Min(1, cap) }

  // The next retry, or the end of all retries.
  function RetryTells(attempt: nat, delay: nat, tracked: set<WorkspaceId>, cap: nat): Effect {
    if SaturatingAdd(attempt, 1) > SaturatingAdd(cap, 2) then EmitEach(tracked, [Blocked(DaemonDied)])
    else Scheduled(delay)
  }

  // A transport lost with these workspaces tracked, when this many attempts have failed before.
  function LossTells(attempt: nat, tracked: set<WorkspaceId>, cap: nat): seq<Effect> {
    var n := SaturatingAdd(attempt, 1);
    if tracked == {} then []
    else [EmitEach(tracked, [Lost, Reconnecting(n, Min(n, cap))]), RetryTells(attempt, Min(n, cap), tracked, cap)]
  }

  predicate NamesNoWorkspace(error: DaemonError) {
    (error.ProtocolError? && error.kind.WorkspaceNotFound?) || (error.ServerError? && error.code == 4)
  }

  function BlockedBy(workspace: WorkspaceId, operation: Operation, problem: Problem): seq<Effect> {
    [Emit(WorkspaceError(workspace, operation, problem)), Emit(StatusChanged(workspace, Blocked(problem)))]
  }

  // A request that failed on an established transport.
  function ErrorTells(workspace: WorkspaceId, operation: Operation, error: DaemonError, tracked: set<WorkspaceId>,
                      cap: nat): seq<Effect> {
    if NamesNoWorkspace(error) then [Emit(StatusChanged(workspace, SessionMissing))]
    else
      BlockedBy(workspace, operation, Classify(error))
      + if error.Io? || error.Disconnected? then LossTells(0, tracked, cap) else []
  }

  lemma LossLogs(a: Actor)
    ensures HandleDisconnect(a).log == a.log + LossTells(a.attempt, a.tracked.Keys, a.cap)
  {
    if a.tracked == map[] {
      assert a.log + [] == a.log;
    } else {
      LossIsLogged(a);
      var w :| w in a.tracked;
      assert w in a.tracked.Keys;
    }
  }

  lemma LossTracks(a: Actor)
    ensures HandleDisconnect(a).tracked == a.tracked
  {
  }

  lemma LossAdds(a: Actor)
    ensures var b := HandleDisconnect(a);
            Adds(a, b, [], [], LossTells(a.attempt, a.tracked.Keys, a.cap)) && b.tracked == a.tracked
  {
    LossLogs(a);
    LossTracks(a);
    AddsNotices(a, HandleDisconnect(a), LossTells(a.attempt, a.tracked.Keys, a.cap));
  }

  lemma EmitErrorAdds(a: Actor, workspace: WorkspaceId, operation: Operation, problem: Problem)
    ensures Adds(a, EmitError(a, workspace, operation, problem), [], [], BlockedBy(workspace, operation, problem))
  {
    var told := BlockedBy(workspace, operation, problem);
    assert EmitError(a, workspace, operation, problem).log == a.log + told;
    AddsNotices(a, EmitError(a, workspace, operation, problem), told);
  }

  lemma TellAdds(a: Actor, workspace: WorkspaceId, status: Status)
    ensures Adds(a, a.Tell(workspace, status), [], [], [Emit(StatusChanged(workspace, status))])
  {
    AddsNotices(a, a.Tell(workspace, status), [Emit(StatusChanged(workspace, status))]);
  }

  lemma LosingErrorAdds(a: Actor, b: Actor, told: seq<Effect>)
    requires Adds(a, b, [], [], told) && b.attempt == 0
    ensures Adds(a, HandleDisconnect(b), [], [], told + LossTells(0, b.tracked.Keys, b.cap))
  {
    LossAdds(b);
    AddsCompose(a, b, HandleDisconnect(b), [], [], told, [], [], LossTells(0, b.tracked.Keys, b.cap));
  }

  lemma ErrorAdds(a: Actor, workspace: WorkspaceId, operation: Operation, error: DaemonError)
    requires a.attempt == 0
    ensures Adds(a, CommandError(a, workspace, operation, error), [], [],
                 ErrorTells(workspace, operation, error, a.tracked.Keys, a.cap))
  {
    var told := BlockedBy(workspace, operation, Classify(error));
    var b := EmitError(a, workspace, operation, Classify(error));
    EmitErrorAdds(a, workspace, operation, Classify(error));
    if NamesNoWorkspace(error) {
      TellAdds(a, workspace, SessionMissing);
    } else if error.Io? || error.Disconnected? {
      LosingErrorAdds(a, b, told);
      assert CommandError(a, workspace, operation, error) == HandleDisconnect(b);
    } else {
      assert CommandError(a, workspace, operation, error) == b;
      assert ErrorTells(workspace, operation, error, a.tracked.Keys, a.cap) == told;
    }
  }

  // ---------------------------------------------------------------- connecting

  // The transport is there, or the attempt to connect is made and succeeds.
  predicate Reaches(a: Actor, s: Script) {
    a.Up() || (a.attempt == 0 && s.connect.None?)
  }

  // The state once there is a transport.
  function Dialled(a: Actor): Actor {
    if a.Up() then a else a.(connection := true, wireIds := 1)
  }

  function DialTells(a: Actor, workspace: WorkspaceId, connect: Option<DaemonError>): seq<Effect> {
    if a.Up() || a.attempt > 0 then []
    else
      [Emit(StatusChanged(workspace, if a.local then Starting else Connecting)), ConnectTried]
      + match connect
        case None => [Emit(StatusChanged(workspace, Connected))]
        case Some(error) =>
          if error == Io || error == Disconnected then
            [Emit(StatusChanged(workspace, Lost)),
             Emit(StatusChanged(workspace, Reconnecting(1, ShortestDelay(a.cap)))), Scheduled(ShortestDelay(a.cap))]
          else [Emit(StatusChanged(workspace, Blocked(Classify(error))))]
  }

  lemma DialLogs(a: Actor, workspace: WorkspaceId, connect: Option<DaemonError>)
    requires a.attempt <= a.Limit() + 1
    ensures EnsureConnected(a, workspace, connect).0.log == a.log + DialTells(a, workspace, connect)
  {
  }

  lemma DialEnds(a: Actor, workspace: WorkspaceId, s: Script)
    ensures var (b, problem) := EnsureConnected(a, workspace, s.connect);
            && (problem.None? <==> Reaches(a, s))
            && (problem.None? ==> b == Dialled(a).(log := b.log))
            && (problem.Some? ==> b == a.(attempt := b.attempt, outstanding := b.outstanding, log := b.log))
            && (problem.Some? && a.attempt > 0 ==> b == a && problem.value.IsTransient())
            && (problem.Some? && a.attempt == 0 ==> problem.value == Classify(s.connect.value))
  {
  }

  lemma DialIsNotices(a: Actor, workspace: WorkspaceId, connect: Option<DaemonError>)
    ensures forall e | e in DialTells(a, workspace, connect) :: ColumnOf(e) == Notices
  {
  }

  // Connecting is tried exactly when the transport is down and no retry is pending; what it
  // tells, and the state it leaves.
  lemma DiallingAdds(a: Actor, workspace: WorkspaceId, s: Script)
    requires a.attempt <= a.Limit() + 1
    ensures var (b, problem) := EnsureConnected(a, workspace, s.connect);
            && Adds(a, b, [], [], DialTells(a, workspace, s.connect))
            && (problem.None? <==> Reaches(a, s))
            && (problem.None? ==> b == Dialled(a).(log := b.log))
            && (problem.Some? ==> b == a.(attempt := b.attempt, outstanding := b.outstanding, log := b.log))
            && (problem.Some? && a.attempt > 0 ==> b == a && problem.value.IsTransient())
            && (problem.Some? && a.attempt == 0 ==> problem.value == Classify(s.connect.value))
  {
    DialLogs(a, workspace, s.connect);
    DialEnds(a, workspace, s);
    DialIsNotices(a, workspace, s.connect);
    var b := EnsureConnected(a, workspace, s.connect).0;
    AddsNotices(a, b, DialTells(a, workspace, s.connect));
  }
}
