// The invariant that the handlers of an endpoint actor keep together, over every run.
module EndpointInvariant {
  import opened MachineInts
  import opened Wrappers
  import opened EndpointTypes
  import opened EndpointSpec
  import Ids = RequestIds

  // Sizes of the machine integers, and runtime ids that parse.
  ghost predicate InRange(a: Actor) {
    && a.cap <= U32_MAX && a.attempt <= U32_MAX
    && a.heartbeat.InRange()
    && 0 < a.nextId < Ids.MODULUS && a.wireIds < Ids.MODULUS
    && (forall w | w in a.tracked :: a.tracked[w].Parse().Some?)
  }

  // How the shape of the transport, the counter and the tracked workspaces belong together.
  ghost predicate Coherent(a: Actor) {
    && (a.reader <==> a.writer)
    && !(a.connection && a.writer)
    && (a.Up() ==> a.attempt == 0)
    && a.outstanding <= 1
    && (a.outstanding == 1 ==> !a.Up() && 1 <= a.attempt <= a.Limit())
    && a.attempt <= a.Limit() + 1
    && (a.connection ==> a.tracked == map[])
    && (!a.Up() && a.tracked != map[] ==> a.outstanding == 1 || a.BreakerOpen())
  }

  ghost predicate Inv(a: Actor) { InRange(a) && Coherent(a) }

  // A later state of the same endpoint.
  ghost predicate Follows(a: Actor, b: Actor) {
    && Inv(b) && b.local == a.local && b.cap == a.cap
    && a.log <= b.log && (forall w | w in b.tracked :: WasBound(a, b, w))
  }

  predicate SameBeatOrCleared(a: Actor, b: Actor) {
    b.heartbeat == a.heartbeat || b.heartbeat == a.heartbeat.Cleared()
  }

  // A later state that no tick has led to.
  ghost predicate Keeps(a: Actor, b: Actor) { Follows(a, b) && SameBeatOrCleared(a, b) }

  // The workspace was bound like this before, or has been reported opened so since.
  ghost predicate WasBound(a: Actor, b: Actor, w: WorkspaceId)
    requires w in b.tracked
  {
    || (w in a.tracked && a.tracked[w] == b.tracked[w])
    || exists i :: |a.log| <= i < |b.log| && OpenedAs(b.log[i], w, b.tracked[w])
  }

  predicate OpenedAs(e: Effect, w: WorkspaceId, runtime: IdText) {
    e.Emit? && e.event.WorkspaceOpened? && e.event.workspace == w && e.event.runtime == runtime
  }

  // What a request may change: pushes untrack workspaces, pongs clear the heartbeat, ids
  // are drawn and effects logged.
  ghost predicate OnlyShrank(a: Actor, b: Actor) {
    && SameTransport(a, b)
    && SubMap(b.tracked, a.tracked)
    && GrewInPassing(a.log, b.log) && SameBeatOrCleared(a, b)
    && (InRange(a) ==> InRange(b))
  }

  predicate IsLoss(e: Effect) {
    e.Emit? && e.event.StatusChanged? && e.event.status.Lost?
  }

  // Only requests and events to the window were logged, and nobody was told of a loss.
  ghost predicate GrewInPassing(before: seq<Effect>, after: seq<Effect>) {
    && before <= after
    && (forall i | |before| <= i < |after| :: after[i].Requested? || (after[i].Emit? && !IsLoss(after[i])))
  }

  ghost predicate SameTransport(a: Actor, b: Actor) {
    && a.local == b.local && a.cap == b.cap
    && a.connection == b.connection && a.reader == b.reader && a.writer == b.writer
    && a.attempt == b.attempt && a.outstanding == b.outstanding
  }

  ghost predicate SubMap(m: map<WorkspaceId, IdText>, n: map<WorkspaceId, IdText>) {
    forall w | w in m :: w in n && m[w] == n[w]
  }

  lemma PassByShrinks(a: Actor, envelope: Envelope, expectTerminated: bool)
    ensures OnlyShrank(a, PassBy(a, envelope, expectTerminated))
  {
  }

  lemma ShrinkingComposes(a: Actor, b: Actor, c: Actor)
    requires OnlyShrank(a, b) && OnlyShrank(b, c)
    ensures OnlyShrank(a, c)
  {
  }

  lemma {:induction false} ReadResponseShrinks(a: Actor, id: nat, expectTerminated: bool, inbound: seq<Envelope>,
                                               ending: Ending)
    ensures OnlyShrank(a, ReadResponse(a, id, expectTerminated, inbound, ending).0)
    decreases |inbound|
  {
    if inbound != [] && inbound[0].requestId != id {
      var b := PassBy(a, inbound[0], expectTerminated);
      PassByShrinks(a, inbound[0], expectTerminated);
      ReadResponseShrinks(b, id, expectTerminated, inbound[1..], ending);
      ShrinkingComposes(a, b, ReadResponse(b, id, expectTerminated, inbound[1..], ending).0);
    }
  }

  lemma SendAndReadShrinks(a: Actor, kind: RequestKind, runtime: Option<Uuid>, expectTerminated: bool, x: Exchange)
    ensures OnlyShrank(a, SendAndRead(a, kind, runtime, expectTerminated, x).0)
  {
    var id := a.nextId;
    var c := a.(nextId := Ids.ActorSuccessor(id)).Log(Requested(id, kind, runtime));
    assert OnlyShrank(a, c);
    ReadResponseShrinks(c, id, expectTerminated, x.inbound, x.ending);
    ShrinkingComposes(a, c, ReadResponse(c, id, expectTerminated, x.inbound, x.ending).0);
  }

  lemma UnsplitRequestShrinks(a: Actor, kind: RequestKind, runtime: Option<Uuid>, x: Exchange)
    ensures OnlyShrank(a, UnsplitRequest(a, kind, runtime, x).0)
  {
    assert UnsplitRequest(a, kind, runtime, x).0
        == a.(wireIds := Ids.Bumped(Ids.Drawn(a.wireIds))).Log(Requested(Ids.Drawn(a.wireIds), kind, runtime));
  }

  lemma ActiveRequestShrinks(a: Actor, kind: RequestKind, runtime: Option<Uuid>, x: Exchange)
    ensures OnlyShrank(a, ActiveRequest(a, kind, runtime, x).0)
  {
    if a.connection {
      UnsplitRequestShrinks(a, kind, runtime, x);
    } else {
      SendAndReadShrinks(a, kind, runtime, false, x);
    }
  }

  // ---------------------------------------------------------------- losing and regaining the transport

  lemma ShrinkingKeeps(a: Actor, b: Actor)
    requires Inv(a) && a.Up() && OnlyShrank(a, b)
    ensures Keeps(a, b) && b.Up()
  {
    if b.connection {
      assert b.tracked.Keys == {};
    }
  }

  lemma KeepingComposes(a: Actor, b: Actor, c: Actor)
    requires Keeps(a, b) && Keeps(b, c)
    ensures Keeps(a, c)
  {
    forall w | w in c.tracked ensures WasBound(a, c, w) {
      assert WasBound(b, c, w);
      if w in b.tracked && b.tracked[w] == c.tracked[w] {
        assert WasBound(a, b, w);
        if !(w in a.tracked && a.tracked[w] == c.tracked[w]) {
          var i :| |a.log| <= i < |b.log| && OpenedAs(b.log[i], w, b.tracked[w]);
          assert c.log[i] == b.log[i];
        }
      }
    }
  }

  lemma DisconnectKeeps(a: Actor)
    requires InRange(a) && a.outstanding == 0 && !a.BreakerOpen()
    ensures Keeps(a, HandleDisconnect(a))
  {
  }

  lemma EmitErrorKeeps(a: Actor, workspace: WorkspaceId, operation: Operation, problem: Problem)
    requires Inv(a)
    ensures Keeps(a, EmitError(a, workspace, operation, problem))
  {
  }

  lemma CommandErrorKeeps(a: Actor, workspace: WorkspaceId, operation: Operation, error: DaemonError)
    requires Inv(a) && a.Up()
    ensures Keeps(a, CommandError(a, workspace, operation, error))
  {
    var problem := Classify(error);
    EmitErrorKeeps(a, workspace, operation, problem);
    var b := EmitError(a, workspace, operation, problem);
    assert b.outstanding == 0 && b.attempt == 0;
    DisconnectKeeps(b);
  }

  lemma EnsureConnectedKeeps(a: Actor, workspace: WorkspaceId, connect: Option<DaemonError>)
    requires Inv(a)
    ensures Keeps(a, EnsureConnected(a, workspace, connect).0)
  {
    if !a.Up() && a.attempt == 0 {
      assert a.outstanding == 0 && a.tracked == map[];
    }
  }

  // ---------------------------------------------------------------- commands

  // A resolution that did not end in a refusal has only shrunk the state; a refusal
  // leaves a coherent one.
  ghost predicate ResolvesWell(a: Actor, r: (Actor, Resolution)) {
    if r.1.Refused? then Keeps(a, r.0)
    else OnlyShrank(a, r.0) && (r.1.Resolved? ==> r.1.runtime.Parse().Some?)
  }

  lemma ResolvesAfterShrinking(a: Actor, b: Actor, r: (Actor, Resolution))
    requires Inv(a) && a.Up() && OnlyShrank(a, b) && ResolvesWell(b, r)
    ensures ResolvesWell(a, r)
  {
    ShrinkingKeeps(a, b);
    if r.1.Refused? {
      KeepingComposes(a, b, r.0);
    } else {
      ShrinkingComposes(a, b, r.0);
    }
  }

  lemma AttachNewResolves(a: Actor, workspace: WorkspaceId, uuid: Uuid, s: Script)
    requires Inv(a) && a.Up()
    ensures var (b, attached) := ActiveRequest(a, AttachRequest, Some(uuid), s.attachNew);
            match AttachOutcome(attached)
            case Elapsed => ResolvesWell(a, (b, TimedOut))
            case Failed(error) => ResolvesWell(a, (CommandError(b, workspace, OpOpenWorkspace, error), Refused))
            case Done(snapshot) => ResolvesWell(a, (b, Resolved(Canonical(uuid), snapshot)))
  {
    var (b, attached) := ActiveRequest(a, AttachRequest, Some(uuid), s.attachNew);
    ActiveRequestShrinks(a, AttachRequest, Some(uuid), s.attachNew);
    ShrinkingKeeps(a, b);
    match AttachOutcome(attached)
    case Failed(error) =>
      CommandErrorKeeps(b, workspace, OpOpenWorkspace, error);
      ResolvesAfterShrinking(a, b, (CommandError(b, workspace, OpOpenWorkspace, error), Refused));
    case _ =>
  }

  lemma CreateAndAttachResolves(a: Actor, workspace: WorkspaceId, s: Script)
    requires Inv(a) && a.Up()
    ensures ResolvesWell(a, CreateAndAttach(a, workspace, s))
  {
    var (b, created) := ActiveRequest(a, CreateRequest, None, s.create);
    ActiveRequestShrinks(a, CreateRequest, None, s.create);
    ShrinkingKeeps(a, b);
    match CreateOutcome(created)
    case Elapsed =>
    case Failed(error) =>
      CommandErrorKeeps(b, workspace, OpOpenWorkspace, error);
      ResolvesAfterShrinking(a, b, (CommandError(b, workspace, OpOpenWorkspace, error), Refused));
    case Done(uuid) =>
      AttachNewResolves(b, workspace, uuid, s);
      ResolvesAfterShrinking(a, b, CreateAndAttach(a, workspace, s));
  }

  lemma AttachExistingResolves(a: Actor, workspace: WorkspaceId, runtime: IdText, uuid: Uuid, s: Script)
    requires Inv(a) && a.Up() && runtime.Parse().Some?
    ensures ResolvesWell(a, AttachExisting(a, workspace, runtime, uuid, s))
  {
    var (b, attached) := ActiveRequest(a, AttachRequest, Some(uuid), s.attach);
    ActiveRequestShrinks(a, AttachRequest, Some(uuid), s.attach);
    ShrinkingKeeps(a, b);
    match AttachOutcome(attached)
    case Failed(error) =>
      CommandErrorKeeps(b, workspace, OpOpenWorkspace, error);
      CreateAndAttachResolves(b, workspace, s);
      assert Keeps(b, b.Tell(workspace, SessionMissing));
      ResolvesAfterShrinking(a, b, AttachExisting(a, workspace, runtime, uuid, s));
    case _ =>
  }

  lemma ResolveAndAttachResolves(a: Actor, workspace: WorkspaceId, existing: Option<IdText>, takeOver: bool, s: Script)
    requires Inv(a) && a.Up()
    ensures ResolvesWell(a, ResolveAndAttach(a, workspace, existing, takeOver, s))
  {
    if existing.None? || existing.value.Parse().None? {
      CreateAndAttachResolves(a, workspace, s);
    } else if !takeOver {
      AttachExistingResolves(a, workspace, existing.value, existing.value.Parse().value, s);
    } else {
      var uuid := existing.value.Parse().value;
      var (b, seized) := ActiveRequest(a, TakeoverRequest, Some(uuid), s.takeover);
      ActiveRequestShrinks(a, TakeoverRequest, Some(uuid), s.takeover);
      ShrinkingKeeps(a, b);
      match TakeoverOutcome(seized)
      case Elapsed =>
      case Failed(error) => CommandErrorKeeps(b, workspace, OpOpenWorkspace, error);
      case Done(_) =>
        var c := b.Log(Emit(WorkspaceTakenOver(workspace, existing.value)));
        assert OnlyShrank(b, c);
        ShrinkingComposes(a, b, c);
        ShrinkingKeeps(a, c);
        AttachExistingResolves(c, workspace, existing.value, uuid, s);
        var r := AttachExisting(c, workspace, existing.value, uuid, s);
        if !r.1.Refused? {
          ShrinkingComposes(a, c, r.0);
        }
    }
  }

  lemma HandshakeTimeoutKeeps(a: Actor, workspace: WorkspaceId)
    requires Inv(a) && a.Up()
    ensures Keeps(a, HandshakeTimeout(a, workspace))
  {
    assert a.outstanding == 0 && a.attempt == 0;
  }

  lemma FinishOpenKeeps(a: Actor, workspace: WorkspaceId, placeholder: Option<string>, runtime: IdText,
                        snapshot: Snapshot)
    requires Inv(a) && a.Up() && runtime.Parse().Some?
    ensures Keeps(a, FinishOpen(a, workspace, placeholder, runtime, snapshot))
  {
    var b := FinishOpen(a, workspace, placeholder, runtime, snapshot);
    assert OpenedAs(b.log[|a.log|], workspace, runtime);
  }

  lemma ConcludeOpenKeeps(a: Actor, b: Actor, workspace: WorkspaceId, placeholder: Option<string>,
                          resolution: Resolution)
    requires Inv(a) && a.Up() && ResolvesWell(a, (b, resolution))
    ensures Keeps(a, ConcludeOpen(b, workspace, placeholder, resolution))
  {
    if !resolution.Refused? {
      ShrinkingKeeps(a, b);
    }
    match resolution
    case TimedOut =>
      HandshakeTimeoutKeeps(b, workspace);
      KeepingComposes(a, b, HandshakeTimeout(b, workspace));
    case Refused =>
    case Resolved(runtime, snapshot) =>
      FinishOpenKeeps(b, workspace, placeholder, runtime, snapshot);
      KeepingComposes(a, b, FinishOpen(b, workspace, placeholder, runtime, snapshot));
  }

  lemma OpenKeeps(a: Actor, workspace: WorkspaceId, existing: Option<IdText>, placeholder: Option<string>,
                  takeOver: bool, s: Script)
    requires Inv(a)
    ensures Keeps(a, HandleOpen(a, workspace, existing, placeholder, takeOver, s))
  {
    var told := a.Tell(workspace, Connecting);
    assert Keeps(a, told);
    var (b, problem) := EnsureConnected(told, workspace, s.connect);
    EnsureConnectedKeeps(told, workspace, s.connect);
    KeepingComposes(a, told, b);
    var c := HandleOpen(a, workspace, existing, placeholder, takeOver, s);
    match problem
    case Some(p) =>
      EmitErrorKeeps(b, workspace, OpOpenWorkspace, p);
      KeepingComposes(a, b, EmitError(b, workspace, OpOpenWorkspace, p));
    case None =>
      var (d, resolution) := ResolveAndAttach(b, workspace, existing, takeOver, s);
      ResolveAndAttachResolves(b, workspace, existing, takeOver, s);
      ConcludeOpenKeeps(b, d, workspace, placeholder, resolution);
      KeepingComposes(a, b, c);
  }

  lemma {:induction false} EmitAllKeeps(a: Actor, events: seq<Event>)
    requires Inv(a)
    ensures Keeps(a, EmitAll(a, events))
    decreases |events|
  {
    if events != [] {
      var b := a.Log(Emit(events[0]));
      assert Inv(b);
      EmitAllKeeps(b, events[1..]);
    }
  }

  lemma FinishPaneCommandKeeps(a: Actor, command: Command, workspace: WorkspaceId, reply: Reply)
    requires Inv(a) && a.Up()
    ensures Keeps(a, FinishPaneCommand(a, command, workspace, reply))
  {
    match reply
    case Waiting =>
    case Broken(error) => CommandErrorKeeps(a, workspace, OperationOf(command), error);
    case Answered(envelope) =>
      match Accepted(command, envelope.payload)
      case None => CommandErrorKeeps(a, workspace, OperationOf(command), ReplyError(envelope.payload));
      case Some(events) =>
        var b := if EndsTracking(command) then a.(tracked := a.tracked - {workspace}) else a;
        assert OnlyShrank(a, b);
        ShrinkingKeeps(a, b);
        EmitAllKeeps(b, events);
  }

  lemma AwaitedKeeps(a: Actor, command: Command, workspace: WorkspaceId, runtime: Option<Uuid>, expectTerminated: bool,
                     x: Exchange)
    requires Inv(a) && a.Up()
    ensures var (b, reply) := SendAndRead(a, PaneRequest(OperationOf(command)), runtime, expectTerminated, x);
            Keeps(a, FinishPaneCommand(b, command, workspace, reply))
  {
    var (b, reply) := SendAndRead(a, PaneRequest(OperationOf(command)), runtime, expectTerminated, x);
    SendAndReadShrinks(a, PaneRequest(OperationOf(command)), runtime, expectTerminated, x);
    ShrinkingKeeps(a, b);
    FinishPaneCommandKeeps(b, command, workspace, reply);
  }

  lemma ReportKeeps(a: Actor, workspace: WorkspaceId, operation: Operation, problem: Problem)
    requires Inv(a)
    ensures Keeps(a, ReportUnlessTransient(a, workspace, operation, problem))
  {
    EmitErrorKeeps(a, workspace, operation, problem);
  }

  lemma PaneCommandKeeps(a: Actor, command: Command, workspace: WorkspaceId, runtime: IdText, s: Script)
    requires Inv(a)
    ensures Keeps(a, HandlePaneCommand(a, command, workspace, runtime, s))
  {
    var (b, problem) := EnsureConnected(a, workspace, s.connect);
    EnsureConnectedKeeps(a, workspace, s.connect);
    if problem.Some? {
      ReportKeeps(b, workspace, OperationOf(command), problem.value);
    } else if IdsParse(runtime, command) {
      AwaitedKeeps(b, command, workspace, runtime.Parse(), false, s.exchange);
    } else {
      assert Keeps(b, ParseError(b, workspace, OperationOf(command)));
    }
    KeepingComposes(a, b, HandlePaneCommand(a, command, workspace, runtime, s));
  }

  lemma EndingCommandKeeps(a: Actor, command: Command, workspace: WorkspaceId, runtime: IdText, s: Script)
    requires Inv(a)
    ensures Keeps(a, HandleEndingCommand(a, command, workspace, runtime, s))
  {
    if runtime.Parse().Some? {
      var (b, problem) := EnsureConnected(a, workspace, s.connect);
      EnsureConnectedKeeps(a, workspace, s.connect);
      if problem.Some? {
        ReportKeeps(b, workspace, OperationOf(command), problem.value);
      } else {
        AwaitedKeeps(b, command, workspace, runtime.Parse(), true, s.exchange);
      }
      KeepingComposes(a, b, HandleEndingCommand(a, command, workspace, runtime, s));
    }
  }

  lemma InputKeeps(a: Actor, command: Command, workspace: WorkspaceId, runtime: IdText, s: Script)
    requires Inv(a)
    ensures Keeps(a, HandleInput(a, command, workspace, runtime, s))
  {
    var b := a.Log(Notified(PaneRequest(OperationOf(command))));
    assert Inv(b);
    if a.writer && s.exchange.sendError.Some? {
      CommandErrorKeeps(b, workspace, OperationOf(command), s.exchange.sendError.value);
    }
  }

  lemma NoticeKeeps(a: Actor, command: Command, workspace: WorkspaceId, runtime: IdText, s: Script)
    requires Inv(a)
    ensures Keeps(a, HandleNotice(a, command, workspace, runtime, s))
  {
    EnsureConnectedKeeps(a, workspace, s.connect);
  }

  lemma ListedKeeps(a: Actor, s: Script)
    requires Inv(a) && a.Up()
    ensures var (b, reply) := if a.writer then SendAndRead(a, ListRequest, None, false, s.exchange)
                              else UnsplitRequest(a, ListRequest, None, s.exchange);
            match ListOutcome(reply)
            case Elapsed => Keeps(a, b)
            case Failed(error) => Keeps(a, CommandError(b, INVENTORY_WORKSPACE, OpRefreshInventory, error))
            case Done(content) => Keeps(a, b.Log(Emit(InventoryLoaded(content))))
  {
    SendAndReadShrinks(a, ListRequest, None, false, s.exchange);
    UnsplitRequestShrinks(a, ListRequest, None, s.exchange);
    var (b, reply) := if a.writer then SendAndRead(a, ListRequest, None, false, s.exchange)
                      else UnsplitRequest(a, ListRequest, None, s.exchange);
    ShrinkingKeeps(a, b);
    match ListOutcome(reply)
    case Elapsed =>
    case Failed(error) =>
      CommandErrorKeeps(b, INVENTORY_WORKSPACE, OpRefreshInventory, error);
      KeepingComposes(a, b, CommandError(b, INVENTORY_WORKSPACE, OpRefreshInventory, error));
    case Done(content) =>
      assert Keeps(b, b.Log(Emit(InventoryLoaded(content))));
      KeepingComposes(a, b, b.Log(Emit(InventoryLoaded(content))));
  }

  lemma RefreshKeeps(a: Actor, s: Script)
    requires Inv(a)
    ensures Keeps(a, HandleRefresh(a, s))
  {
    var (b, problem) := EnsureConnected(a, INVENTORY_WORKSPACE, s.connect);
    EnsureConnectedKeeps(a, INVENTORY_WORKSPACE, s.connect);
    if problem.Some? {
      ReportKeeps(b, INVENTORY_WORKSPACE, OpRefreshInventory, problem.value);
    } else {
      ListedKeeps(b, s);
    }
    KeepingComposes(a, b, HandleRefresh(a, s));
  }

  lemma ResyncKeeps(a: Actor, workspace: WorkspaceId, runtime: IdText, s: Script)
    requires Inv(a)
    ensures Keeps(a, HandleResync(a, workspace, runtime, s))
  {
    if a.writer {
      SendAndReadShrinks(a, ResyncRequest, runtime.Parse(), false, s.exchange);
      ShrinkingKeeps(a, SendAndRead(a, ResyncRequest, runtime.Parse(), false, s.exchange).0);
    }
  }

  lemma ForgetKeeps(a: Actor, workspace: WorkspaceId)
    requires Inv(a)
    ensures Keeps(a, a.(tracked := a.tracked - {workspace}))
  {
    assert a.tracked == map[] ==> a.tracked - {workspace} == map[];
  }

  // ---------------------------------------------------------------- one Reconnect cycle

  // A Reconnect has been taken off the queue: the transport is down, a retry was pending.
  ghost predicate Retrying(a: Actor) {
    && InRange(a)
    && !a.connection && !a.reader && !a.writer
    && a.outstanding == 0 && 1 <= a.attempt <= a.Limit()
  }

  ghost predicate Covers(a: Actor, s: Script) {
    && |s.reattach| == |s.order|
    && (forall w | w in s.order :: w in a.tracked)
  }

  lemma TwoEffectsShrink(a: Actor, e: Effect, f: Effect)
    requires e.Emit? && f.Emit? && !IsLoss(e) && !IsLoss(f)
    ensures OnlyShrank(a, a.Log(e).Log(f))
  {
  }

  lemma ReportShrinks(a: Actor, workspace: WorkspaceId, runtime: IdText, outcome: Outcome<Snapshot>)
    ensures OnlyShrank(a, ReportReattach(a, workspace, runtime, outcome))
  {
    match VerdictOf(outcome)
    case IsRecovered => TwoEffectsShrink(a, Emit(WorkspaceOpened(workspace, runtime, outcome.value)),
                                         Emit(StatusChanged(workspace, Recovered)));
    case IsBlocked(problem) => TwoEffectsShrink(a, Emit(WorkspaceError(workspace, OpOpenWorkspace, problem)),
                                                Emit(StatusChanged(workspace, Blocked(problem))));
    case _ =>
  }

  lemma ReattachOneShrinks(a: Actor, workspace: WorkspaceId, runtime: IdText, x: Exchange)
    ensures OnlyShrank(a, ReattachOne(a, workspace, runtime, x).0)
  {
    if runtime.Parse().Some? {
      var (b, reply) := ActiveRequest(a, AttachRequest, runtime.Parse(), x);
      ActiveRequestShrinks(a, AttachRequest, runtime.Parse(), x);
      ReportShrinks(b, workspace, runtime, AttachOutcome(reply));
      ShrinkingComposes(a, b, ReportReattach(b, workspace, runtime, AttachOutcome(reply)));
    }
  }

  lemma {:induction false} ReattachAllShrinks(a: Actor, bound: map<WorkspaceId, IdText>, order: seq<WorkspaceId>,
                                              xs: seq<Exchange>)
    requires |xs| == |order| && forall w | w in order :: w in bound
    ensures OnlyShrank(a, ReattachAll(a, bound, order, xs).0)
    decreases |order|
  {
    if order != [] {
      var n := |order| - 1;
      var b := ReattachAll(a, bound, order[..n], xs[..n]).0;
      ReattachAllShrinks(a, bound, order[..n], xs[..n]);
      ReattachOneShrinks(b, order[n], bound[order[n]], xs[n]);
      ShrinkingComposes(a, b, ReattachOne(b, order[n], bound[order[n]], xs[n]).0);
    }
  }

  // The state after the reattachments of a Reconnect that connected, and their verdicts.
  ghost function Reattached(a: Actor, s: Script): (Actor, seq<Verdict>)
    requires Covers(a, s)
  {
    ReattachAll(BeforeReattach(a, s), a.tracked, s.order, s.reattach)
  }

  // The counter after a failed cycle that raises it, and whether a retry follows.
  ghost predicate RaisedByOne(a: Actor, b: Actor) {
    && b.attempt == a.NextAttempt()
    && b.outstanding == (if a.NextAttempt() > a.Limit() then 0 else 1)
  }

  // A cycle that does not get a connection: a transient failure leaves the counter, any
  // other raises it.
  lemma FailedConnectEnds(a: Actor, s: Script)
    requires Retrying(a) && Covers(a, s) && a.tracked != map[] && s.connect.Some?
    ensures var b := HandleReconnect(a, s);
            && InRange(b) && b.local == a.local && b.cap == a.cap && a.log <= b.log && SameBeatOrCleared(a, b)
            && !b.connection && !b.reader && !b.writer && b.tracked == a.tracked
            && if Classify(s.connect.value).IsTransient() then b.attempt == a.attempt && b.outstanding == 1
               else RaisedByOne(a, b)
  {
  }

  lemma ReattachedShrinks(a: Actor, s: Script)
    requires Retrying(a) && Covers(a, s)
    ensures OnlyShrank(BeforeReattach(a, s), Reattached(a, s).0)
    ensures var c := BeforeReattach(a, s);
            && InRange(c) && c == a.(connection := false, reader := true, writer := true, wireIds := 1,
                                     heartbeat := a.heartbeat.Cleared(), log := c.log)
            && a.log <= c.log
  {
    ReattachAllShrinks(BeforeReattach(a, s), a.tracked, s.order, s.reattach);
  }

  // A cycle that gets one: without a transient reattachment failure it is stable; with one
  // it is lost again and the counter is raised, unless nothing is tracked any more.
  lemma ConnectedCycleEnds(a: Actor, s: Script)
    requires Retrying(a) && Covers(a, s) && a.tracked != map[] && s.connect.None?
    ensures var b := HandleReconnect(a, s);
            var (d, verdicts) := Reattached(a, s);
            && InRange(b) && b.local == a.local && b.cap == a.cap && a.log <= b.log && SameBeatOrCleared(a, b)
            && b.tracked == d.tracked && SubMap(b.tracked, a.tracked)
            && if IsTransientFailure !in verdicts then
                 !b.connection && b.reader && b.writer && b.attempt == 0 && b.outstanding == 0
               else
                 && !b.connection && !b.reader && !b.writer
                 && (if d.tracked == map[] then b.attempt == a.attempt && b.outstanding == 0 else RaisedByOne(a, b))
  {
    ReattachedShrinks(a, s);
    var (d, verdicts) := Reattached(a, s);
    assert a.log <= d.log;
    var e := d.(attempt := a.attempt);
    assert HandleReconnect(a, s) == if IsTransientFailure in verdicts then HandleDisconnect(e) else d.(attempt := 0);
  }

  lemma ReconnectKeeps(a: Actor, s: Script)
    requires Inv(a) && a.outstanding == 1 && Covers(a, s)
    ensures Keeps(a, HandleReconnect(a.(outstanding := 0), s))
  {
    if a.tracked != map[] {
      if s.connect.Some? {
        FailedConnectEnds(a.(outstanding := 0), s);
      } else {
        ConnectedCycleEnds(a.(outstanding := 0), s);
      }
    }
  }

  // ---------------------------------------------------------------- every step, every run

  lemma AwaitingCommandKeeps(a: Actor, command: Command, s: Script)
    requires Inv(a)
    requires command.CreatePane? || command.SplitPane? || command.ClosePane? || EndsTracking(command)
    ensures Keeps(a, Handle(a, command, s))
  {
    if EndsTracking(command) {
      EndingCommandKeeps(a, command, command.workspace, command.runtime, s);
    } else {
      PaneCommandKeeps(a, command, command.workspace, command.runtime, s);
    }
  }

  lemma NoticeCommandKeeps(a: Actor, command: Command, s: Script)
    requires Inv(a)
    requires command.SendInput? || command.ResizePane? || command.RenameWorkspace? || command.SetPaneNoPersist?
    ensures Keeps(a, Handle(a, command, s))
  {
    InputKeeps(a, command, command.workspace, command.runtime, s);
    NoticeKeeps(a, command, command.workspace, command.runtime, s);
  }

  lemma OwnCommandKeeps(a: Actor, command: Command, s: Script)
    requires Inv(a)
    requires command.Reconnect? ==> a.outstanding == 1 && Covers(a, s)
    requires command.Reconnect? || command.ForgetWorkspace? || command.RefreshInventory? || command.ResyncWorkspace?
    ensures Keeps(a, Handle(a, command, s))
  {
    match command
    case RefreshInventory => RefreshKeeps(a, s);
    case Reconnect => ReconnectKeeps(a, s);
    case ForgetWorkspace(w) => ForgetKeeps(a, w);
    case ResyncWorkspace(w, r) => ResyncKeeps(a, w, r, s);
  }

  lemma CommandKeeps(a: Actor, command: Command, s: Script)
    requires Inv(a) && Enabled(a, Do(command, s))
    ensures Keeps(a, Handle(a, command, s))
  {
    if command.OpenWorkspace? {
      OpenKeeps(a, command.workspace, command.existing, command.placeholder, command.takeOver, s);
    } else if command.SendInput? || command.ResizePane? || command.RenameWorkspace? || command.SetPaneNoPersist? {
      NoticeCommandKeeps(a, command, s);
    } else if command.CreatePane? || command.SplitPane? || command.ClosePane? || EndsTracking(command) {
      AwaitingCommandKeeps(a, command, s);
    } else {
      OwnCommandKeeps(a, command, s);
    }
  }

  lemma CommandKeepsInv(a: Actor, command: Command, s: Script)
    requires Inv(a) && Enabled(a, Do(command, s))
    ensures Inv(Handle(a, command, s))
  {
    CommandKeeps(a, command, s);
  }

  lemma MessageKeeps(a: Actor, envelope: Envelope, found: WorkspaceId)
    requires Inv(a) && a.reader
    ensures Keeps(a, HandleMessage(a, envelope, found))
  {
    var b := a.(heartbeat := a.heartbeat.Cleared());
    PassByShrinks(a, envelope, false);
    PassByShrinks(b, envelope, false);
    if envelope.payload.Pong? {
      ShrinkingKeeps(a, PassBy(a, envelope, false));
    } else {
      assert OnlyShrank(a, b);
      ShrinkingKeeps(a, b);
      ShrinkingKeeps(b, PassBy(b, envelope, false));
    }
  }

  lemma TickKeeps(a: Actor, sendError: Option<DaemonError>)
    requires Inv(a) && a.reader
    ensures Follows(a, HandleTick(a, sendError))
    ensures SameBeatOrCleared(a.(heartbeat := a.heartbeat.Ticked()), HandleTick(a, sendError))
  {
    var b := a.(heartbeat := a.heartbeat.Ticked());
    assert Inv(b);
    DisconnectKeeps(b);
    if a.heartbeat.TickAction().SendPing? {
      var id := Ids.Drawn(b.wireIds);
      DisconnectKeeps(b.(wireIds := Ids.Bumped(id)).Log(Pinged(id, a.heartbeat.TickAction().nonce)));
    }
  }

  // Every step keeps the invariant.
  lemma NextKeeps(a: Actor, step: Step)
    requires Inv(a) && Enabled(a, step)
    ensures Follows(a, Next(a, step))
    ensures !step.Tick? ==> SameBeatOrCleared(a, Next(a, step))
  {
    match step
    case Do(command, s) => CommandKeeps(a, command, s);
    case Message(envelope, found) => MessageKeeps(a, envelope, found);
    case Closed => DisconnectKeeps(a);
    case Tick(sendError) => TickKeeps(a, sendError);
  }

  lemma {:induction false} RunKeeps(a: Actor, steps: seq<Step>)
    requires Inv(a) && IsRun(a, steps)
    ensures Follows(a, After(a, steps))
    decreases |steps|
  {
    if steps != [] {
      var n := |steps| - 1;
      RunKeeps(a, steps[..n]);
      NextKeeps(After(a, steps[..n]), steps[n]);
    }
  }

  // ---------------------------------------------------------------- what the invariant says

  // Whatever has happened to a new actor: something tracked while the transport is down is
  // waiting for a retry unless the breaker has opened, there is never more than one retry,
  // and it always finds the transport down.
  lemma NothingTrackedIsAbandoned(local: bool, cap: nat, steps: seq<Step>)
    requires cap <= U32_MAX && IsRun(Fresh(local, cap), steps)
    ensures var a := After(Fresh(local, cap), steps);
            && (!a.Up() && a.tracked != map[] ==> a.outstanding == 1 || a.BreakerOpen())
            && a.outstanding <= 1 && (a.outstanding == 1 ==> !a.Up() && 1 <= a.attempt <= a.Limit())
            && (a.reader <==> a.writer) && !(a.connection && a.writer)
            && (a.Up() ==> a.attempt == 0)
            && (a.connection ==> a.tracked == map[])
            && a.attempt <= cap + 3
  {
    RunKeeps(Fresh(local, cap), steps);
  }

  // Whatever is tracked was reported to the window as opened, under the very runtime it is
  // tracked with.
  lemma TrackedWasReportedOpened(local: bool, cap: nat, steps: seq<Step>)
    requires cap <= U32_MAX && IsRun(Fresh(local, cap), steps)
    ensures var a := After(Fresh(local, cap), steps);
            forall w | w in a.tracked :: exists i :: 0 <= i < |a.log| && OpenedAs(a.log[i], w, a.tracked[w])
  {
    RunKeeps(Fresh(local, cap), steps);
    var a := After(Fresh(local, cap), steps);
    forall w | w in a.tracked ensures exists i :: 0 <= i < |a.log| && OpenedAs(a.log[i], w, a.tracked[w]) {
      assert WasBound(Fresh(local, cap), a, w);
    }
  }
}
