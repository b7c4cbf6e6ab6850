// Opening a workspace, from the replies of the daemon: which requests are made, which runtime
// is opened, and what the window is told.
module EndpointOpen {
  import opened Wrappers
  import opened EndpointTypes
  import opened EndpointSpec
  import opened EndpointInvariant
  import opened EndpointStream
  import opened EndpointAccounts
  import Ids = RequestIds

  // ---------------------------------------------------------------- what replies say

  predicate IsSnapshot(reply: Reply) { reply.Answered? && reply.envelope.payload.SnapshotReply? }

  predicate IsLostReply(reply: Reply) { reply.Broken? && (reply.error.Io? || reply.error.Disconnected?) }

  predicate IsSeized(reply: Reply) { reply.Answered? && reply.envelope.payload.TakeoverCompleted? }

  function CreatedAs(reply: Reply): Option<Uuid> {
    if reply.Answered? && reply.envelope.payload.WorkspaceCreated? then reply.envelope.payload.runtime else None
  }

  // An attachment that failed for no reason to be reported: another client's lease, a lost
  // transport or a missing session.
  predicate FallsBack(reply: Reply) {
    match reply
    case Waiting => false
    case Broken(error) =>
      !error.Io? && !error.Disconnected? && !error.AttachIsBlocked? && !NamesNoWorkspace(error)
    case Answered(envelope) =>
      && !envelope.payload.SnapshotReply? && !envelope.payload.AttachBlocked?
      && !(envelope.payload.ErrorReply? && envelope.payload.kind.WorkspaceNotFound?)
  }

  // The error in a reply that is not the answer asked for.
  function Refusal(kind: RequestKind, reply: Reply): DaemonError {
    match reply
    case Broken(error) => error
    case Answered(Envelope(_, ErrorReply(errorKind, message))) => ProtocolError(errorKind, message)
    case Answered(Envelope(_, AttachBlocked)) => if kind.AttachRequest? then AttachIsBlocked else UnexpectedMessage
    case Answered(Envelope(_, WorkspaceCreated(None))) =>
      if kind.CreateRequest? then BadFrame("invalid UUID") else UnexpectedMessage
    case _ => UnexpectedMessage
  }

  // An open on a transport whose next request carries the id `first`: the requests it can
  // make, each on condition of the replies to those before it.
  datatype Opening = Opening(first: nat, split: bool, existing: Option<IdText>, takeOver: bool, s: Script) {
    function Known(): Option<Uuid> { if existing.Some? then existing.value.Parse() else None }

    function Id(n: nat): nat { Ids.ActorId(first, n) }

    // The write lease is seized only of a known runtime, and only if that is asked for.
    predicate Seizes() { takeOver && Known().Some? }

    function Seizure(): Reply { ReplyTo(Id(0), s.takeover) }

    predicate Attaches() { Known().Some? && (Seizes() ==> IsSeized(Seizure())) }

    function AttachAt(): nat { if Seizes() then 1 else 0 }

    function Attachment(): Reply { ReplyTo(Id(AttachAt()), s.attach) }

    predicate Creates() { Known().None? || (Attaches() && FallsBack(Attachment())) }

    function CreateAt(): nat { if Known().Some? then AttachAt() + 1 else 0 }

    function Creation(): Reply { ReplyTo(Id(CreateAt()), s.create) }

    function Created(): Option<Uuid> { if Creates() then CreatedAs(Creation()) else None }

    function NewAttachment(): Reply { ReplyTo(Id(CreateAt() + 1), s.attachNew) }

    function Asked(): seq<Effect> {
      (if Seizes() then [Requested(Id(0), TakeoverRequest, Known())] else [])
      + (if Attaches() then [Requested(Id(AttachAt()), AttachRequest, Known())] else [])
      + AskedToCreate()
    }

    function AskedToCreate(): seq<Effect> {
      (if Creates() then [Requested(Id(CreateAt()), CreateRequest, None)] else [])
      + (if Created().Some? then [Requested(Id(CreateAt() + 1), AttachRequest, Created())] else [])
    }

    function Heard(): seq<Effect> {
      (if Seizes() then HeardFor(split, Id(0), false, s.takeover) else [])
      + (if Attaches() then HeardFor(split, Id(AttachAt()), false, s.attach) else [])
      + HeardCreating()
    }

    function HeardCreating(): seq<Effect> {
      (if Creates() then HeardFor(split, Id(CreateAt()), false, s.create) else [])
      + (if Created().Some? then HeardFor(split, Id(CreateAt() + 1), false, s.attachNew) else [])
    }

    // The runtime opened: the known one if its attachment is answered by a snapshot, else
    // the one the daemon has created, if its own is.
    function Opened(): Option<(IdText, Snapshot)> {
      if Attaches() && IsSnapshot(Attachment()) then Some((existing.value, Attachment().envelope.payload.snapshot))
      else if Created().Some? && IsSnapshot(NewAttachment()) then
        Some((Canonical(Created().value), NewAttachment().envelope.payload.snapshot))
      else None
    }

    // The runtime the last request asks to attach to.
    function Target(): IdText {
      if Created().Some? then Canonical(Created().value) else if existing.Some? then existing.value else Malformed("")
    }

    // The last request made, and its reply.
    function Last(): (RequestKind, Reply) {
      if Created().Some? then (AttachRequest, NewAttachment())
      else if Creates() then (CreateRequest, Creation())
      else if Attaches() then (AttachRequest, Attachment())
      else (TakeoverRequest, Seizure())
    }
  }

  lemma AttachAnswers(reply: Reply)
    ensures match AttachOutcome(reply)
            case Elapsed => reply.Waiting?
            case Done(snapshot) => IsSnapshot(reply) && snapshot == reply.envelope.payload.snapshot
            case Failed(error) => !reply.Waiting? && !IsSnapshot(reply) && error == Refusal(AttachRequest, reply)
  {
  }

  lemma CreateAnswers(reply: Reply)
    ensures match CreateOutcome(reply)
            case Elapsed => reply.Waiting?
            case Done(uuid) => CreatedAs(reply) == Some(uuid)
            case Failed(error) => !reply.Waiting? && CreatedAs(reply).None? && error == Refusal(CreateRequest, reply)
  {
  }

  lemma TakeoverAnswers(reply: Reply)
    ensures match TakeoverOutcome(reply)
            case Elapsed => reply.Waiting?
            case Done(_) => IsSeized(reply)
            case Failed(error) => !reply.Waiting? && !IsSeized(reply) && error == Refusal(TakeoverRequest, reply)
  {
  }

  // ---------------------------------------------------------------- how the requests end

  predicate Fits(resolution: Resolution, runtime: IdText, last: (RequestKind, Reply)) {
    match resolution
    case TimedOut => last.1.Waiting?
    case Refused => !last.1.Waiting? && !(last.0.AttachRequest? && IsSnapshot(last.1))
    case Resolved(r, snapshot) =>
      r == runtime && last.0.AttachRequest? && IsSnapshot(last.1) && snapshot == last.1.envelope.payload.snapshot
  }

  // The transport is dropped exactly if it was lost; otherwise it keeps its shape.
  predicate LosesIff(a: Actor, b: Actor, lost: bool) {
    if lost then !b.Up()
    else b.connection == a.connection && b.reader == a.reader && b.writer == a.writer
  }

  lemma LossDrops(a: Actor)
    ensures !HandleDisconnect(a).Up()
  {
  }

  lemma ErrorLosesIff(a: Actor, workspace: WorkspaceId, operation: Operation, error: DaemonError)
    ensures LosesIff(a, CommandError(a, workspace, operation, error), error.Io? || error.Disconnected?)
  {
    var b := EmitError(a, workspace, operation, Classify(error));
    if error.Io? || error.Disconnected? {
      assert CommandError(a, workspace, operation, error) == HandleDisconnect(b);
      LossDrops(b);
    } else if NamesNoWorkspace(error) {
      assert CommandError(a, workspace, operation, error) == a.Tell(workspace, SessionMissing);
    } else {
      assert CommandError(a, workspace, operation, error) == b;
    }
  }

  // A refusal has told its error, anything else nothing beyond `told`.
  ghost predicate Resolves(a: Actor, r: (Actor, Resolution), asked: seq<Effect>, heard: seq<Effect>, told: seq<Effect>,
                           workspace: WorkspaceId, last: (RequestKind, Reply)) {
    && r.0.tracked == Survivors(a.tracked, heard)
    && if r.1.Refused? then
         var error := Refusal(last.0, last.1);
         && Adds(a, r.0, asked, heard, told + ErrorTells(workspace, OpOpenWorkspace, error, r.0.tracked.Keys, a.cap))
         && LosesIff(a, r.0, IsLostReply(last.1))
       else SameTransport(a, r.0) && Adds(a, r.0, asked, heard, told)
  }

  lemma ErrorTracks(a: Actor, workspace: WorkspaceId, operation: Operation, error: DaemonError)
    ensures CommandError(a, workspace, operation, error).tracked == a.tracked
  {
    LossTracks(EmitError(a, workspace, operation, Classify(error)));
  }

  lemma RefusalTells(a: Actor, b: Actor, asked: seq<Effect>, heard: seq<Effect>, workspace: WorkspaceId,
                     last: (RequestKind, Reply))
    requires Talked(a, b, asked, heard) && b.attempt == 0
    ensures Resolves(a, (CommandError(b, workspace, OpOpenWorkspace, Refusal(last.0, last.1)), Refused), asked,
                     heard, [], workspace, last)
  {
    var error := Refusal(last.0, last.1);
    var c := CommandError(b, workspace, OpOpenWorkspace, error);
    ErrorAdds(b, workspace, OpOpenWorkspace, error);
    ErrorTracks(b, workspace, OpOpenWorkspace, error);
    ErrorLosesIff(b, workspace, OpOpenWorkspace, error);
    var told := ErrorTells(workspace, OpOpenWorkspace, error, b.tracked.Keys, b.cap);
    AddsCompose(a, b, c, asked, heard, [], [], [], told);
    assert asked + [] == asked && heard + [] == heard && [] + told == told;
  }

  lemma ResolvesLater(a: Actor, b: Actor, r: (Actor, Resolution), asked: seq<Effect>, heard: seq<Effect>,
                      told: seq<Effect>, asked': seq<Effect>, heard': seq<Effect>, workspace: WorkspaceId,
                      last: (RequestKind, Reply))
    requires SameTransport(a, b) && Adds(a, b, asked, heard, told) && b.tracked == Survivors(a.tracked, heard)
    requires Resolves(b, r, asked', heard', [], workspace, last)
    ensures Resolves(a, r, asked + asked', heard + heard', told, workspace, last)
  {
    SurvivorsCompose(a.tracked, heard, heard');
    var error := Refusal(last.0, last.1);
    var told' :=
      if r.1.Refused? then ErrorTells(workspace, OpOpenWorkspace, error, r.0.tracked.Keys, a.cap) else [];
    assert [] + told' == told' && told + [] == told;
    AddsCompose(a, b, r.0, asked, heard, told, asked', heard', told');
  }

  lemma NewRuntimeAttaches(a: Actor, workspace: WorkspaceId, uuid: Uuid, s: Script)
    requires Inv(a) && a.Up()
    ensures var (b, attached) := ActiveRequest(a, AttachRequest, Some(uuid), s.attachNew);
            var id := RequestId(a);
            var last := (AttachRequest, ReplyTo(id, s.attachNew));
            var asked, heard := [Requested(id, AttachRequest, Some(uuid))], HeardFor(a.writer, id, false, s.attachNew);
            var r := match AttachOutcome(attached)
                     case Elapsed => (b, TimedOut)
                     case Failed(error) => (CommandError(b, workspace, OpOpenWorkspace, error), Refused)
                     case Done(snapshot) => (b, Resolved(Canonical(uuid), snapshot));
            Resolves(a, r, asked, heard, [], workspace, last) && Fits(r.1, Canonical(uuid), last)
  {
    var (b, attached) := ActiveRequest(a, AttachRequest, Some(uuid), s.attachNew);
    var id := RequestId(a);
    ActiveRequestTalks(a, AttachRequest, Some(uuid), s.attachNew);
    AttachAnswers(attached);
    RefusalTells(a, b, [Requested(id, AttachRequest, Some(uuid))], HeardFor(a.writer, id, false, s.attachNew),
                 workspace, (AttachRequest, attached));
  }

  // The actor is about to make the n-th request of the opening.
  ghost predicate AtRequest(a: Actor, o: Opening, n: nat) {
    Inv(a) && a.Up() && RequestId(a) == o.Id(n) && a.writer == o.split
  }

  lemma CreateAndAttachFollows(a: Actor, o: Opening, workspace: WorkspaceId)
    requires o.Creates() && AtRequest(a, o, o.CreateAt())
    ensures var r := CreateAndAttach(a, workspace, o.s);
            && Resolves(a, r, o.AskedToCreate(), o.HeardCreating(), [], workspace, o.Last())
            && Fits(r.1, o.Target(), o.Last())
  {
    var (b, created) := ActiveRequest(a, CreateRequest, None, o.s.create);
    var id := RequestId(a);
    var asked, heard := [Requested(id, CreateRequest, None)], HeardFor(a.writer, id, false, o.s.create);
    ActiveRequestTalks(a, CreateRequest, None, o.s.create);
    CreateAnswers(created);
    if o.Created().Some? {
      var uuid := o.Created().value;
      NewRuntimeAttaches(b, workspace, uuid, o.s);
      ResolvesLater(a, b, CreateAndAttach(a, workspace, o.s), asked, heard, [],
                    [Requested(RequestId(b), AttachRequest, Some(uuid))],
                    HeardFor(b.writer, RequestId(b), false, o.s.attachNew), workspace, o.Last());
    } else {
      RefusalTells(a, b, asked, heard, workspace, o.Last());
      assert asked + [] == asked && heard + [] == heard;
    }
  }

  // A reply that ends the attempt to attach to a known runtime.
  function Concluded(b: Actor, workspace: WorkspaceId, runtime: IdText, reply: Reply): (Actor, Resolution) {
    if reply.Waiting? then (b, TimedOut)
    else if IsSnapshot(reply) then (b, Resolved(runtime, reply.envelope.payload.snapshot))
    else (CommandError(b, workspace, OpOpenWorkspace, Refusal(AttachRequest, reply)), Refused)
  }

  lemma AttachExistingConcludes(a: Actor, workspace: WorkspaceId, runtime: IdText, uuid: Uuid, s: Script)
    ensures var (b, reply) := ActiveRequest(a, AttachRequest, Some(uuid), s.attach);
            AttachExisting(a, workspace, runtime, uuid, s)
            == if FallsBack(reply) then CreateAndAttach(b, workspace, s) else Concluded(b, workspace, runtime, reply)
  {
    AttachAnswers(ActiveRequest(a, AttachRequest, Some(uuid), s.attach).1);
  }

  lemma ConclusionResolves(a: Actor, b: Actor, asked: seq<Effect>, heard: seq<Effect>, workspace: WorkspaceId,
                           runtime: IdText, reply: Reply)
    requires Talked(a, b, asked, heard) && b.attempt == 0
    ensures var r := Concluded(b, workspace, runtime, reply);
            && Resolves(a, r, asked, heard, [], workspace, (AttachRequest, reply))
            && Fits(r.1, runtime, (AttachRequest, reply))
  {
    RefusalTells(a, b, asked, heard, workspace, (AttachRequest, reply));
  }

  lemma AttachExistingFollows(a: Actor, o: Opening, workspace: WorkspaceId)
    requires o.Attaches() && AtRequest(a, o, o.AttachAt())
    ensures var r := AttachExisting(a, workspace, o.existing.value, o.Known().value, o.s);
            var asked := [Requested(o.Id(o.AttachAt()), AttachRequest, o.Known())] + o.AskedToCreate();
            var heard := HeardFor(o.split, o.Id(o.AttachAt()), false, o.s.attach) + o.HeardCreating();
            Resolves(a, r, asked, heard, [], workspace, o.Last()) && Fits(r.1, o.Target(), o.Last())
  {
    var (b, attached) := ActiveRequest(a, AttachRequest, o.Known(), o.s.attach);
    var id := RequestId(a);
    var asked, heard := [Requested(id, AttachRequest, o.Known())], HeardFor(a.writer, id, false, o.s.attach);
    ActiveRequestTalks(a, AttachRequest, o.Known(), o.s.attach);
    AttachExistingConcludes(a, workspace, o.existing.value, o.Known().value, o.s);
    if o.Creates() {
      CreateAndAttachFollows(b, o, workspace);
      ResolvesLater(a, b, CreateAndAttach(b, workspace, o.s), asked, heard, [], o.AskedToCreate(), o.HeardCreating(),
                    workspace, o.Last());
    } else {
      ConclusionResolves(a, b, asked, heard, workspace, o.existing.value, attached);
      assert o.AskedToCreate() == [] && o.HeardCreating() == [];
      assert asked + [] == asked && heard + [] == heard;
    }
  }

  // What a seized lease is reported as.
  function SeizureTells(o: Opening, workspace: WorkspaceId): seq<Effect> {
    if o.Seizes() && IsSeized(o.Seizure()) then [Emit(WorkspaceTakenOver(workspace, o.existing.value))] else []
  }

  lemma ResolveAndAttachFollows(a: Actor, o: Opening, workspace: WorkspaceId)
    requires AtRequest(a, o, 0)
    ensures var r := ResolveAndAttach(a, workspace, o.existing, o.takeOver, o.s);
            && Resolves(a, r, o.Asked(), o.Heard(), SeizureTells(o, workspace), workspace, o.Last())
            && Fits(r.1, o.Target(), o.Last())
  {
    if o.Known().None? {
      CreateAndAttachFollows(a, o, workspace);
      assert [] + [] + o.AskedToCreate() == o.AskedToCreate() && [] + [] + o.HeardCreating() == o.HeardCreating();
    } else if !o.takeOver {
      AttachExistingFollows(a, o, workspace);
      NothingFirst([Requested(o.Id(0), AttachRequest, o.Known())], o.AskedToCreate());
      NothingFirst(HeardFor(o.split, o.Id(0), false, o.s.attach), o.HeardCreating());
    } else {
      SeizingFollows(a, o, workspace);
    }
  }

  lemma NothingFirst(s: seq<Effect>, t: seq<Effect>)
    ensures [] + s + t == s + t
  {
  }

  lemma SeizingConcludes(a: Actor, o: Opening, workspace: WorkspaceId)
    requires o.Seizes()
    ensures var (b, reply) := ActiveRequest(a, TakeoverRequest, o.Known(), o.s.takeover);
            var runtime := o.existing.value;
            ResolveAndAttach(a, workspace, o.existing, o.takeOver, o.s)
            == if reply.Waiting? then (b, TimedOut)
               else if IsSeized(reply) then
                 AttachExisting(b.Log(Emit(WorkspaceTakenOver(workspace, runtime))), workspace, runtime,
                                o.Known().value, o.s)
               else (CommandError(b, workspace, OpOpenWorkspace, Refusal(TakeoverRequest, reply)), Refused)
  {
    TakeoverAnswers(ActiveRequest(a, TakeoverRequest, o.Known(), o.s.takeover).1);
  }

  lemma SeizedAsks(o: Opening)
    requires o.Seizes() && o.Attaches()
    ensures o.Asked() == [Requested(o.Id(0), TakeoverRequest, o.Known())]
                         + ([Requested(o.Id(1), AttachRequest, o.Known())] + o.AskedToCreate())
    ensures o.Heard() == HeardFor(o.split, o.Id(0), false, o.s.takeover)
                         + (HeardFor(o.split, o.Id(1), false, o.s.attach) + o.HeardCreating())
  {
  }

  lemma ReportedAtRequest(b: Actor, o: Opening, workspace: WorkspaceId)
    requires AtRequest(b, o, 1) && o.existing.Some?
    ensures AtRequest(b.Log(Emit(WorkspaceTakenOver(workspace, o.existing.value))), o, 1)
  {
  }

  lemma SeizedFollows(a: Actor, b: Actor, o: Opening, workspace: WorkspaceId, asked: seq<Effect>, heard: seq<Effect>)
    requires o.Seizes() && o.Attaches() && AtRequest(b, o, 1) && Talked(a, b, asked, heard)
    requires asked == [Requested(o.Id(0), TakeoverRequest, o.Known())]
    requires heard == HeardFor(o.split, o.Id(0), false, o.s.takeover)
    ensures var c := b.Log(Emit(WorkspaceTakenOver(workspace, o.existing.value)));
            var r := AttachExisting(c, workspace, o.existing.value, o.Known().value, o.s);
            && Resolves(a, r, o.Asked(), o.Heard(), SeizureTells(o, workspace), workspace, o.Last())
            && Fits(r.1, o.Target(), o.Last())
  {
    var c := b.Log(Emit(WorkspaceTakenOver(workspace, o.existing.value)));
    SeizureAdds(a, b, c, asked, heard, SeizureTells(o, workspace));
    ReportedAtRequest(b, o, workspace);
    AttachExistingFollows(c, o, workspace);
    ResolvesLater(a, c, AttachExisting(c, workspace, o.existing.value, o.Known().value, o.s), asked, heard,
                  SeizureTells(o, workspace), [Requested(o.Id(1), AttachRequest, o.Known())] + o.AskedToCreate(),
                  HeardFor(o.split, o.Id(1), false, o.s.attach) + o.HeardCreating(), workspace, o.Last());
    SeizedAsks(o);
  }

  lemma SeizingFollows(a: Actor, o: Opening, workspace: WorkspaceId)
    requires AtRequest(a, o, 0) && o.Seizes()
    ensures var r := ResolveAndAttach(a, workspace, o.existing, o.takeOver, o.s);
            && Resolves(a, r, o.Asked(), o.Heard(), SeizureTells(o, workspace), workspace, o.Last())
            && Fits(r.1, o.Target(), o.Last())
  {
    var (b, seized) := ActiveRequest(a, TakeoverRequest, o.Known(), o.s.takeover);
    var id := RequestId(a);
    var asked, heard := [Requested(id, TakeoverRequest, o.Known())], HeardFor(a.writer, id, false, o.s.takeover);
    ActiveRequestTalks(a, TakeoverRequest, o.Known(), o.s.takeover);
    SeizingConcludes(a, o, workspace);
    if o.Attaches() {
      SeizedFollows(a, b, o, workspace, asked, heard);
    } else {
      RefusalTells(a, b, asked, heard, workspace, o.Last());
      assert asked + [] + [] == asked && heard + [] + [] == heard;
    }
  }

  lemma SeizureAdds(a: Actor, b: Actor, c: Actor, asked: seq<Effect>, heard: seq<Effect>, told: seq<Effect>)
    requires Talked(a, b, asked, heard) && c == b.(log := b.log + told)
            && forall e | e in told :: ColumnOf(e) == Notices
    ensures SameTransport(a, c) && Adds(a, c, asked, heard, told) && c.tracked == Survivors(a.tracked, heard)
  {
    AddsNotices(b, c, told);
    AddsCompose(a, b, c, asked, heard, [], [], [], told);
    assert asked + [] == asked && heard + [] == heard && [] + told == told;
  }

  // ---------------------------------------------------------------- what the window is told in the end

  function TimeoutTells(workspace: WorkspaceId, cap: nat): seq<Effect> {
    [Emit(StatusChanged(workspace, Lost)), Emit(StatusChanged(workspace, Reconnecting(1, ShortestDelay(cap)))),
     Scheduled(ShortestDelay(cap))]
    + BlockedBy(workspace, OpOpenWorkspace, DaemonUnavailable)
  }

  // An opened workspace without panes gets a first one, if it has a terminal waiting for it.
  function OpenedTells(workspace: WorkspaceId, placeholder: Option<string>, runtime: IdText, snapshot: Snapshot):
    seq<Effect>
  {
    [Emit(WorkspaceOpened(workspace, runtime, snapshot)),
     if snapshot.panes == 0 && placeholder.Some? then SelfSent(CreatePane(workspace, runtime, placeholder.value))
     else Emit(StatusChanged(workspace, Connected))]
  }

  function EndTells(o: Opening, workspace: WorkspaceId, placeholder: Option<string>, tracked: set<WorkspaceId>,
                    cap: nat):
    seq<Effect>
  {
    if o.Opened().Some? then OpenedTells(workspace, placeholder, o.Opened().value.0, o.Opened().value.1)
    else if o.Last().1.Waiting? then TimeoutTells(workspace, cap)
    else ErrorTells(workspace, OpOpenWorkspace, Refusal(o.Last().0, o.Last().1), tracked, cap)
  }

  lemma LastOpens(o: Opening)
    ensures o.Opened() == if o.Last().0.AttachRequest? && IsSnapshot(o.Last().1)
                          then Some((o.Target(), o.Last().1.envelope.payload.snapshot)) else None
  {
  }

  lemma TimeoutAdds(a: Actor, workspace: WorkspaceId)
    requires a.attempt == 0
    ensures Adds(a, HandshakeTimeout(a, workspace), [], [], TimeoutTells(workspace, a.cap))
  {
    var told := TimeoutTells(workspace, a.cap);
    assert HandshakeTimeout(a, workspace).log == a.log + told;
    AddsNotices(a, HandshakeTimeout(a, workspace), told);
  }

  lemma FinishAdds(a: Actor, workspace: WorkspaceId, placeholder: Option<string>, runtime: IdText, snapshot: Snapshot)
    ensures Adds(a, FinishOpen(a, workspace, placeholder, runtime, snapshot), [], [],
                 OpenedTells(workspace, placeholder, runtime, snapshot))
  {
    var told := OpenedTells(workspace, placeholder, runtime, snapshot);
    assert FinishOpen(a, workspace, placeholder, runtime, snapshot).log == a.log + told;
    AddsNotices(a, FinishOpen(a, workspace, placeholder, runtime, snapshot), told);
  }

  // A resolution that is no refusal is told now.
  lemma ConclusionTells(a: Actor, resolution: Resolution, o: Opening, workspace: WorkspaceId,
                        placeholder: Option<string>)
    requires a.attempt == 0 && !resolution.Refused? && Fits(resolution, o.Target(), o.Last())
    ensures var b := ConcludeOpen(a, workspace, placeholder, resolution);
            && Adds(a, b, [], [], EndTells(o, workspace, placeholder, a.tracked.Keys, a.cap))
            && b.tracked == (if o.Opened().Some? then a.tracked[workspace := o.Opened().value.0] else a.tracked)
  {
    LastOpens(o);
    match resolution
    case TimedOut => TimeoutAdds(a, workspace);
    case Resolved(runtime, snapshot) => FinishAdds(a, workspace, placeholder, runtime, snapshot);
  }

  lemma ConclusionAdds(a: Actor, r: (Actor, Resolution), o: Opening, workspace: WorkspaceId,
                       placeholder: Option<string>)
    requires a.attempt == 0
    requires Resolves(a, r, o.Asked(), o.Heard(), SeizureTells(o, workspace), workspace, o.Last())
    requires Fits(r.1, o.Target(), o.Last())
    ensures var b := ConcludeOpen(r.0, workspace, placeholder, r.1);
            var survivors := Survivors(a.tracked, o.Heard());
            var told := SeizureTells(o, workspace) + EndTells(o, workspace, placeholder, survivors.Keys, a.cap);
            && Adds(a, b, o.Asked(), o.Heard(), told)
            && b.tracked == (if o.Opened().Some? then survivors[workspace := o.Opened().value.0] else survivors)
  {
    if r.1.Refused? {
      LastOpens(o);
    } else {
      ConclusionTells(r.0, r.1, o, workspace, placeholder);
      AddsCompose(a, r.0, ConcludeOpen(r.0, workspace, placeholder, r.1), o.Asked(), o.Heard(),
                  SeizureTells(o, workspace), [], [], EndTells(o, workspace, placeholder, r.0.tracked.Keys, a.cap));
      assert o.Asked() + [] == o.Asked() && o.Heard() + [] == o.Heard();
    }
  }

  // Once it is concluded, the transport is split, lost, or as it was.
  lemma ConclusionLosesIff(a: Actor, r: (Actor, Resolution), o: Opening, workspace: WorkspaceId,
                           placeholder: Option<string>)
    requires Resolves(a, r, o.Asked(), o.Heard(), SeizureTells(o, workspace), workspace, o.Last())
    requires Fits(r.1, o.Target(), o.Last()) && a.Up() && (a.connection ==> !a.writer)
    ensures var b := ConcludeOpen(r.0, workspace, placeholder, r.1);
            if o.Opened().Some? then b.writer && (a.connection ==> b.heartbeat.pending.None?)
            else LosesIff(a, b, o.Last().1.Waiting? || IsLostReply(o.Last().1))
  {
    LastOpens(o);
  }

  // ---------------------------------------------------------------- all opens

  // How the command opens from this state.
  function OpeningOf(a: Actor, command: Command, s: Script): Opening
    requires command.OpenWorkspace?
  {
    Opening(RequestId(Dialled(a)), a.writer, command.existing, command.takeOver, s)
  }

  lemma OpenDials(a: Actor, workspace: WorkspaceId, s: Script)
    requires Inv(a)
    ensures var (b, problem) := EnsureConnected(a.Tell(workspace, Connecting), workspace, s.connect);
            && Adds(a, b, [], [], [Emit(StatusChanged(workspace, Connecting))] + DialTells(a, workspace, s.connect))
            && (problem.None? <==> Reaches(a, s))
            && (problem.None? ==> Inv(b) && b == Dialled(a).(log := b.log))
            && (problem.Some? ==> b.tracked == a.tracked)
            && (problem.Some? ==> problem.value
                                  == if a.attempt > 0 then DaemonUnavailable else Classify(s.connect.value))
  {
    var told := a.Tell(workspace, Connecting);
    TellAdds(a, workspace, Connecting);
    DiallingAdds(told, workspace, s);
    EnsureConnectedKeeps(told, workspace, s.connect);
    AddsCompose(a, told, EnsureConnected(told, workspace, s.connect).0, [], [],
                [Emit(StatusChanged(workspace, Connecting))], [], [], DialTells(told, workspace, s.connect));
  }

  // Between a and b the command was handled as its replies say: these requests, with their
  // ids, these messages handed on, this told, and this tracked afterwards.
  ghost predicate Opens(a: Actor, b: Actor, command: Command, s: Script)
    requires command.OpenWorkspace?
  {
    var o := OpeningOf(a, command, s);
    var w := command.workspace;
    var survivors := Survivors(a.tracked, o.Heard());
    && Adds(a, b, o.Asked(), o.Heard(),
            [Emit(StatusChanged(w, Connecting))] + DialTells(a, w, s.connect)
            + (SeizureTells(o, w) + EndTells(o, w, command.placeholder, survivors.Keys, a.cap)))
    && b.tracked == (if o.Opened().Some? then survivors[w := o.Opened().value.0] else survivors)
  }

  // Whatever state an open finds, and whatever the daemon answers.
  lemma OpenFollowsReplies(a: Actor, command: Command, s: Script)
    requires Inv(a) && command.OpenWorkspace? && Reaches(a, s)
    ensures Opens(a, Handle(a, command, s), command, s)
  {
    var w := command.workspace;
    var o := OpeningOf(a, command, s);
    OpenDials(a, w, s);
    var b := EnsureConnected(a.Tell(w, Connecting), w, s.connect).0;
    ResolveAndAttachFollows(b, o, w);
    var r := ResolveAndAttach(b, w, o.existing, o.takeOver, s);
    ConclusionAdds(b, r, o, w, command.placeholder);
    var survivors := Survivors(a.tracked, o.Heard());
    var told := SeizureTells(o, w) + EndTells(o, w, command.placeholder, survivors.Keys, a.cap);
    AddsCompose(a, b, Handle(a, command, s), [], [],
                [Emit(StatusChanged(w, Connecting))] + DialTells(a, w, s.connect), o.Asked(), o.Heard(), told);
    assert [] + o.Asked() == o.Asked() && [] + o.Heard() == o.Heard();
  }

  lemma OpenLosesIff(a: Actor, command: Command, s: Script)
    requires Inv(a) && command.OpenWorkspace? && Reaches(a, s)
    ensures var b := Handle(a, command, s);
            var o := OpeningOf(a, command, s);
            if o.Opened().Some? then b.writer && (!a.writer ==> b.heartbeat.pending.None?)
            else LosesIff(Dialled(a), b, o.Last().1.Waiting? || IsLostReply(o.Last().1))
  {
    var w := command.workspace;
    var o := OpeningOf(a, command, s);
    OpenDials(a, w, s);
    var b := EnsureConnected(a.Tell(w, Connecting), w, s.connect).0;
    ResolveAndAttachFollows(b, o, w);
    ConclusionLosesIff(b, ResolveAndAttach(b, w, o.existing, o.takeOver, s), o, w, command.placeholder);
  }

  // Without a transport nothing is asked; a permanent failure to connect is an error.
  lemma UnreachedOpenAsksNothing(a: Actor, command: Command, s: Script)
    requires Inv(a) && command.OpenWorkspace? && !Reaches(a, s)
    ensures var b := Handle(a, command, s);
            var w := command.workspace;
            var permanent := a.attempt == 0 && s.connect.value != Io && s.connect.value != Disconnected;
            && Adds(a, b, [], [], [Emit(StatusChanged(w, Connecting))] + DialTells(a, w, s.connect)
                                  + if permanent then BlockedBy(w, OpOpenWorkspace, Classify(s.connect.value)) else [])
            && b.tracked == a.tracked
  {
    var w := command.workspace;
    OpenDials(a, w, s);
    var (b, problem) := EnsureConnected(a.Tell(w, Connecting), w, s.connect);
    var told := [Emit(StatusChanged(w, Connecting))] + DialTells(a, w, s.connect);
    if problem.value.IsTransient() {
      assert told + [] == told;
    } else {
      EmitErrorAdds(b, w, OpOpenWorkspace, problem.value);
      AddsCompose(a, b, EmitError(b, w, OpOpenWorkspace, problem.value), [], [], told, [], [],
                  BlockedBy(w, OpOpenWorkspace, problem.value));
    }
  }

  // ---------------------------------------------------------------- the lease and the runtime

  lemma {:induction false} InHolds(log: seq<Effect>, column: Column, e: Effect)
    ensures e in In(log, column) <==> e in log && ColumnOf(e) == column
  {
    if log != [] {
      var n := |log| - 1;
      InHolds(log[..n], column, e);
      assert log == log[..n] + [log[n]];
    }
  }

  lemma AddedIsLogged(a: Actor, b: Actor, asked: seq<Effect>, heard: seq<Effect>, told: seq<Effect>, e: Effect)
    requires Adds(a, b, asked, heard, told)
    ensures e in b.log[|a.log|..] <==> e in match ColumnOf(e)
                                            case Requests => asked
                                            case Messages => heard
                                            case Notices => told
  {
    InHolds(b.log[|a.log|..], ColumnOf(e), e);
  }

  // What an open on a transport has told, piece by piece.
  lemma OpenTold(a: Actor, b: Actor, command: Command, s: Script, e: Effect)
    requires command.OpenWorkspace? && Opens(a, b, command, s) && ColumnOf(e) == Notices
    ensures var o := OpeningOf(a, command, s);
            var w := command.workspace;
            e in b.log[|a.log|..]
            <==> || e in [Emit(StatusChanged(w, Connecting))] || e in DialTells(a, w, s.connect)
                 || e in SeizureTells(o, w)
                 || e in EndTells(o, w, command.placeholder, Survivors(a.tracked, o.Heard()).Keys, a.cap)
  {
    var o := OpeningOf(a, command, s);
    var w := command.workspace;
    var before := [Emit(StatusChanged(w, Connecting))] + DialTells(a, w, s.connect);
    var after := SeizureTells(o, w) + EndTells(o, w, command.placeholder, Survivors(a.tracked, o.Heard()).Keys, a.cap);
    AddedIsLogged(a, b, o.Asked(), o.Heard(), before + after, e);
  }

  lemma OpenAsked(a: Actor, b: Actor, command: Command, s: Script, e: Effect)
    requires command.OpenWorkspace? && Opens(a, b, command, s) && e.Requested?
    ensures e in b.log[|a.log|..] <==> e in OpeningOf(a, command, s).Asked()
  {
    InHolds(b.log[|a.log|..], Requests, e);
  }

  lemma OnlyTheFirstSeizes(o: Opening, id: nat, uuid: Option<Uuid>)
    ensures Requested(id, TakeoverRequest, uuid) in o.Asked() <==> o.Seizes() && id == o.first && uuid == o.Known()
    ensures o.Seizes() ==> o.Asked() != [] && o.Asked()[0] == Requested(o.first, TakeoverRequest, o.Known())
  {
    var seizing := if o.Seizes() then [Requested(o.Id(0), TakeoverRequest, o.Known())] else [];
    var attaching := if o.Attaches() then [Requested(o.Id(o.AttachAt()), AttachRequest, o.Known())] else [];
    assert o.Asked() == seizing + attaching + o.AskedToCreate();
    assert forall e | e in o.AskedToCreate() :: e.Requested? && !e.kind.TakeoverRequest?;
  }

  ghost predicate LeaseIsSeized(a: Actor, b: Actor, command: Command, id: nat, uuid: Option<Uuid>)
    requires command.OpenWorkspace? && a.log <= b.log
  {
    var known := if command.existing.Some? then command.existing.value.Parse() else None;
    var first := RequestId(Dialled(a));
    && (Requested(id, TakeoverRequest, uuid) in b.log[|a.log|..]
        <==> command.takeOver && known.Some? && id == first && uuid == known)
    && (command.takeOver && known.Some?
        ==> && In(b.log[|a.log|..], Requests) != []
            && In(b.log[|a.log|..], Requests)[0] == Requested(first, TakeoverRequest, known))
  }

  lemma OpensSeizes(a: Actor, b: Actor, command: Command, s: Script, id: nat, uuid: Option<Uuid>)
    requires command.OpenWorkspace? && Opens(a, b, command, s)
    ensures LeaseIsSeized(a, b, command, id, uuid)
  {
    OnlyTheFirstSeizes(OpeningOf(a, command, s), id, uuid);
    OpenAsked(a, b, command, s, Requested(id, TakeoverRequest, uuid));
  }

  // The write lease is seized exactly if that is asked for and the runtime is known, by the
  // first request of the open and by no other.
  lemma LeaseIsSeizedIff(a: Actor, command: Command, s: Script, id: nat, uuid: Option<Uuid>)
    requires Inv(a) && command.OpenWorkspace? && Reaches(a, s)
    ensures a.log <= Handle(a, command, s).log && LeaseIsSeized(a, Handle(a, command, s), command, id, uuid)
  {
    OpenFollowsReplies(a, command, s);
    OpensSeizes(a, Handle(a, command, s), command, s, id, uuid);
  }

  // The event has been told to the window since.
  ghost predicate Tells(a: Actor, b: Actor, event: Event) {
    a.log <= b.log && Emit(event) in b.log[|a.log|..]
  }

  lemma OnlyASeizureTakesOver(o: Opening, workspace: WorkspaceId, runtime: IdText, placeholder: Option<string>,
                              tracked: set<WorkspaceId>, cap: nat)
    ensures var e := Emit(WorkspaceTakenOver(workspace, runtime));
            && e !in EndTells(o, workspace, placeholder, tracked, cap)
            && (e in SeizureTells(o, workspace)
                <==> o.Seizes() && Some(runtime) == o.existing && IsSeized(o.Seizure()))
  {
  }

  lemma OpensTakesOver(a: Actor, b: Actor, command: Command, s: Script, runtime: IdText)
    requires command.OpenWorkspace? && Opens(a, b, command, s)
    ensures var o := OpeningOf(a, command, s);
            Tells(a, b, WorkspaceTakenOver(command.workspace, runtime))
            <==> o.Seizes() && Some(runtime) == command.existing && IsSeized(o.Seizure())
  {
    var o := OpeningOf(a, command, s);
    OpenTold(a, b, command, s, Emit(WorkspaceTakenOver(command.workspace, runtime)));
    OnlyASeizureTakesOver(o, command.workspace, runtime, command.placeholder, Survivors(a.tracked, o.Heard()).Keys,
                          a.cap);
  }

  lemma OnlyAnEndOpens(o: Opening, workspace: WorkspaceId, runtime: IdText, snapshot: Snapshot,
                       placeholder: Option<string>, tracked: set<WorkspaceId>, cap: nat)
    ensures var e := Emit(WorkspaceOpened(workspace, runtime, snapshot));
            && e !in SeizureTells(o, workspace)
            && (e in EndTells(o, workspace, placeholder, tracked, cap) <==> o.Opened() == Some((runtime, snapshot)))
  {
  }

  lemma OpensAs(a: Actor, b: Actor, command: Command, s: Script, runtime: IdText, snapshot: Snapshot)
    requires command.OpenWorkspace? && Opens(a, b, command, s)
    ensures var o := OpeningOf(a, command, s);
            Tells(a, b, WorkspaceOpened(command.workspace, runtime, snapshot))
            <==> o.Opened() == Some((runtime, snapshot))
  {
    var o := OpeningOf(a, command, s);
    OpenTold(a, b, command, s, Emit(WorkspaceOpened(command.workspace, runtime, snapshot)));
    OnlyAnEndOpens(o, command.workspace, runtime, snapshot, command.placeholder, Survivors(a.tracked, o.Heard()).Keys,
                   a.cap);
  }

  // A seizure is reported exactly if the response to its own request says it is complete.
  lemma SeizureIsReportedIff(a: Actor, command: Command, s: Script, runtime: IdText)
    requires Inv(a) && command.OpenWorkspace? && Reaches(a, s)
    ensures Tells(a, Handle(a, command, s), WorkspaceTakenOver(command.workspace, runtime))
            <==> && command.takeOver && command.existing == Some(runtime) && runtime.Parse().Some?
                 && IsSeized(ReplyTo(RequestId(Dialled(a)), s.takeover))
  {
    OpenFollowsReplies(a, command, s);
    OpensTakesOver(a, Handle(a, command, s), command, s, runtime);
  }

  // A runtime is reported opened exactly if it is the known one and its attachment is
  // answered by this snapshot, or the one that the daemon has created instead and its own is.
  lemma OpenedIff(a: Actor, command: Command, s: Script, runtime: IdText, snapshot: Snapshot)
    requires Inv(a) && command.OpenWorkspace? && Reaches(a, s)
    ensures var o := OpeningOf(a, command, s);
            Tells(a, Handle(a, command, s), WorkspaceOpened(command.workspace, runtime, snapshot))
            <==> || (&& o.Attaches() && Some(runtime) == command.existing
                     && o.Attachment().Answered? && o.Attachment().envelope.payload == SnapshotReply(snapshot))
                 || (&& o.Created().Some? && runtime == Canonical(o.Created().value)
                     && o.NewAttachment().Answered? && o.NewAttachment().envelope.payload == SnapshotReply(snapshot))
  {
    OpenFollowsReplies(a, command, s);
    OpensAs(a, Handle(a, command, s), command, s, runtime, snapshot);
  }
}
