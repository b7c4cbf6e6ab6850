// What happens to the messages that arrive while a request waits for its response, and how
// one Reconnect covers the tracked workspaces.
module EndpointStream {
  import opened Wrappers
  import opened EndpointTypes
  import opened EndpointSpec
  import opened EndpointInvariant
  import Ids = RequestIds

  // ---------------------------------------------------------------- waiting for a response

  // The position of the first envelope carrying the awaited id, or the length.
  function AwaitedAt(inbound: seq<Envelope>, id: nat): (k: nat)
    ensures k <= |inbound| && (k < |inbound| ==> inbound[k].requestId == id)
    ensures forall j | 0 <= j < k :: inbound[j].requestId != id
  {
    if inbound == [] || inbound[0].requestId == id then 0 else 1 + AwaitedAt(inbound[1..], id)
  }

  predicate IsForwarded(envelope: Envelope, expectTerminated: bool) {
    !envelope.payload.Pong? && !(envelope.payload.Terminated? && expectTerminated)
  }

  // The events that tell the window of the messages passed by, in order.
  function Forwards(passed: seq<Envelope>, expectTerminated: bool): seq<Effect> {
    if passed == [] then []
    else (if IsForwarded(passed[0], expectTerminated) then [Emit(WorkspaceMessage(passed[0]))] else [])
         + Forwards(passed[1..], expectTerminated)
  }

  // A termination of the runtime the workspace is bound to, under that very spelling.
  predicate Ends(e: Effect, runtime: IdText) {
    && e.Emit? && e.event.WorkspaceMessage? && e.event.message.payload.Terminated?
    && e.event.message.payload.runtime.Some? && runtime == Canonical(e.event.message.payload.runtime.value)
  }

  // Exactly the workspaces bound to a runtime whose termination was forwarded are untracked.
  ghost predicate UntrackedByForwards(a: Actor, b: Actor) {
    && a.log <= b.log && SubMap(b.tracked, a.tracked)
    && (forall w | w in a.tracked ::
          w in b.tracked <==> forall i | |a.log| <= i < |b.log| :: !Ends(b.log[i], a.tracked[w]))
  }

  predicate PongsPending(passed: seq<Envelope>, pending: Option<nat>) {
    exists i :: 0 <= i < |passed| && passed[i].payload.Pong? && pending == Some(passed[i].payload.nonce)
  }

  lemma UntrackingComposes(a: Actor, b: Actor, c: Actor)
    requires UntrackedByForwards(a, b) && UntrackedByForwards(b, c)
    ensures UntrackedByForwards(a, c)
  {
    assert forall i | |a.log| <= i < |b.log| :: c.log[i] == b.log[i];
  }

  // What passing these messages by has made of the actor.
  ghost predicate PassedBy(a: Actor, b: Actor, passed: seq<Envelope>, expectTerminated: bool) {
    && SameTransport(a, b) && b.nextId == a.nextId && b.wireIds == a.wireIds
    && b.log == a.log + Forwards(passed, expectTerminated)
    && UntrackedByForwards(a, b)
    && b.heartbeat == (if PongsPending(passed, a.heartbeat.pending) then a.heartbeat.Cleared() else a.heartbeat)
  }

  lemma OneForward(envelope: Envelope, expectTerminated: bool)
    ensures Forwards([envelope], expectTerminated)
            == if IsForwarded(envelope, expectTerminated) then [Emit(WorkspaceMessage(envelope))] else []
    ensures forall pending ::
              PongsPending([envelope], pending) <==> envelope.payload.Pong? && pending == Some(envelope.payload.nonce)
  {
    assert [envelope][0] == envelope && [envelope][1..] == [];
  }

  lemma OnePassesBy(a: Actor, envelope: Envelope, expectTerminated: bool)
    ensures PassedBy(a, PassBy(a, envelope, expectTerminated), [envelope], expectTerminated)
  {
    OneForward(envelope, expectTerminated);
    var b := PassBy(a, envelope, expectTerminated);
    if IsForwarded(envelope, expectTerminated) {
      DispatchUntracks(a, envelope);
    } else {
      assert b.log == a.log + [];
    }
  }

  lemma DispatchUntracks(a: Actor, envelope: Envelope)
    ensures UntrackedByForwards(a, DispatchPush(a, envelope))
  {
    var b := DispatchPush(a, envelope);
    assert b.log[|a.log|] == Emit(WorkspaceMessage(envelope));
  }

  lemma PassingByComposes(a: Actor, b: Actor, c: Actor, passed: seq<Envelope>, expectTerminated: bool)
    requires passed != []
    requires PassedBy(a, b, [passed[0]], expectTerminated) && PassedBy(b, c, passed[1..], expectTerminated)
    ensures PassedBy(a, c, passed, expectTerminated)
  {
    UntrackingComposes(a, b, c);
    HeadForwards(passed, expectTerminated);
    PongsOfTail(passed, a.heartbeat.pending);
    PongsOfTail(passed, None);
    var first, rest := Forwards([passed[0]], expectTerminated), Forwards(passed[1..], expectTerminated);
    assert a.log + first + rest == a.log + (first + rest);
  }

  // For any inbound sequence the answer is the first envelope that carries the awaited id;
  // those before it are forwarded exactly once, in order, but for pongs and, if one is
  // expected, terminations; a forwarded termination untracks exactly the workspaces bound
  // to that runtime; only a pong with the pending nonce clears the heartbeat; and nothing
  // else changes.
  lemma {:induction false} ResponseConservesTheStream(a: Actor, id: nat, expectTerminated: bool, inbound: seq<Envelope>,
                                                      ending: Ending)
    ensures var (b, reply) := ReadResponse(a, id, expectTerminated, inbound, ending);
            var k := AwaitedAt(inbound, id);
            && reply == (if k < |inbound| then Answered(inbound[k]) else AfterInbound(ending))
            && PassedBy(a, b, inbound[..k], expectTerminated)
    decreases |inbound|
  {
    var k := AwaitedAt(inbound, id);
    if k == 0 {
      assert a.log + [] == a.log;
    } else {
      var b := PassBy(a, inbound[0], expectTerminated);
      OnePassesBy(a, inbound[0], expectTerminated);
      ResponseConservesTheStream(b, id, expectTerminated, inbound[1..], ending);
      assert inbound[..k][1..] == inbound[1..][..k - 1];
      PassingByComposes(a, b, ReadResponse(a, id, expectTerminated, inbound, ending).0, inbound[..k], expectTerminated);
    }
  }

  lemma HeadForwards(passed: seq<Envelope>, expectTerminated: bool)
    requires passed != []
    ensures Forwards(passed, expectTerminated)
            == Forwards([passed[0]], expectTerminated) + Forwards(passed[1..], expectTerminated)
  {
    assert [passed[0]][1..] == [];
  }

  lemma PongsOfTail(passed: seq<Envelope>, pending: Option<nat>)
    requires passed != []
    ensures PongsPending(passed, pending) <==> PongsPending([passed[0]], pending) || PongsPending(passed[1..], pending)
    ensures !PongsPending(passed, None)
  {
    if PongsPending([passed[0]], pending) {
      assert passed[0].payload.Pong?;
    }
    if PongsPending(passed[1..], pending) {
      var i :| 0 <= i < |passed| - 1 && passed[1..][i].payload.Pong? && pending == Some(passed[1..][i].payload.nonce);
      assert passed[i + 1] == passed[1..][i];
    }
    if PongsPending(passed, pending) {
      var i :| 0 <= i < |passed| && passed[i].payload.Pong? && pending == Some(passed[i].payload.nonce);
      if i == 0 {
        assert [passed[0]][0] == passed[i];
      } else {
        assert passed[1..][i - 1] == passed[i];
      }
    }
  }

  // ---------------------------------------------------------------- the reply of one request

  // What a request with this id gets back, if its write succeeds: the first envelope that
  // carries the id, or else how the stream ends.
  function ReplyTo(id: nat, x: Exchange): Reply {
    var k := AwaitedAt(x.inbound, id);
    if x.sendError.Some? then Broken(x.sendError.value)
    else if k < |x.inbound| then Answered(x.inbound[k])
    else if x.ending.Fails? then Broken(x.ending.error)
    else Waiting
  }

  lemma {:induction false} OthersAreSkipped(inbound: seq<Envelope>, id: nat, ending: Ending)
    ensures var k := AwaitedAt(inbound, id);
            FirstWithId(inbound, id, ending) == if k < |inbound| then Answered(inbound[k]) else AfterInbound(ending)
  {
    if inbound != [] && inbound[0].requestId != id {
      OthersAreSkipped(inbound[1..], id, ending);
    }
  }

  // Before the split, too, the answer is the first envelope that carries the id drawn; what
  // comes before it is forwarded to nobody and leaves tracking and heartbeat alone.
  lemma UnsplitRequestSkipsTheRest(a: Actor, kind: RequestKind, runtime: Option<Uuid>, x: Exchange)
    ensures var (b, reply) := UnsplitRequest(a, kind, runtime, x);
            var id := Ids.Drawn(a.wireIds);
            && reply == ReplyTo(id, x)
            && b.log == a.log + [Requested(id, kind, runtime)]
            && b == a.(wireIds := b.wireIds, log := b.log)
            && Ids.Drawn(b.wireIds) == Ids.ActorSuccessor(id)
  {
    OthersAreSkipped(x.inbound, Ids.Drawn(a.wireIds), x.ending);
  }

  // ---------------------------------------------------------------- messages the loop takes

  predicate IsTaken(payload: Payload) { !payload.Pong? && !payload.StreamOverflow? }

  // A message the loop takes is forwarded exactly if it is neither a pong nor an overflow;
  // it untracks exactly the workspaces whose runtime it says has terminated, and changes
  // nothing else but the heartbeat.
  lemma LoopForwardsIff(a: Actor, envelope: Envelope, found: WorkspaceId)
    requires Enabled(a, Message(envelope, found))
    ensures var b := Next(a, Message(envelope, found));
            && (b.log == a.log + [Emit(WorkspaceMessage(envelope))] <==> IsTaken(envelope.payload))
            && (forall i | |a.log| <= i < |b.log| && IsMessage(b.log[i]) ::
                  i == |a.log| && b.log[i] == Emit(WorkspaceMessage(envelope)))
            && UntrackedByForwards(a, b)
            && b == a.(tracked := b.tracked, heartbeat := b.heartbeat, log := b.log)
  {
    var b := Next(a, Message(envelope, found));
    if IsTaken(envelope.payload) {
      DispatchUntracks(a.(heartbeat := a.heartbeat.Cleared()), envelope);
    } else {
      assert b.log == a.log || (|b.log| == |a.log| + 1 && b.log[|a.log|].SelfSent?);
      assert b.log != a.log ==> b.log[|a.log|] != Emit(WorkspaceMessage(envelope));
    }
  }

  // A workspace bound by another spelling of the uuid is never untracked by a termination.
  lemma OtherSpellingsStayTracked(a: Actor, id: nat, inbound: seq<Envelope>, ending: Ending, w: WorkspaceId)
    requires w in a.tracked && !a.tracked[w].Canonical?
    ensures w in ReadResponse(a, id, false, inbound, ending).0.tracked
  {
    ResponseConservesTheStream(a, id, false, inbound, ending);
  }

  // ---------------------------------------------------------------- overflowing streams

  // A resync has been asked for since.
  ghost predicate AskedToResync(a: Actor, b: Actor, w: WorkspaceId, runtime: IdText) {
    exists i :: |a.log| <= i < |b.log| && b.log[i] == SelfSent(ResyncWorkspace(w, runtime))
  }

  // An overflow that the loop takes is answered by asking for the resync of a workspace
  // bound to its runtime, exactly if its runtime id is well-formed and there is one.
  lemma OverflowIsAnsweredIffBound(a: Actor, envelope: Envelope, found: WorkspaceId)
    requires Enabled(a, Message(envelope, found)) && envelope.payload.StreamOverflow?
    ensures var b := Next(a, Message(envelope, found));
            var runtime := envelope.payload.runtime;
            && ((exists w, id :: AskedToResync(a, b, w, id))
                <==> runtime.Some? && exists w :: BoundTo(a, w, runtime.value))
            && (forall w, id | AskedToResync(a, b, w, id) ::
                  id == Canonical(runtime.value) && BoundTo(a, w, runtime.value))
  {
    var b := Next(a, Message(envelope, found));
    var runtime := envelope.payload.runtime;
    if runtime.Some? && BoundTo(a, found, runtime.value) {
      assert b.log[|a.log|] == SelfSent(ResyncWorkspace(found, Canonical(runtime.value)));
      assert AskedToResync(a, b, found, Canonical(runtime.value));
    }
  }

  // One that arrives while a request waits for its response is answered by nothing: it is
  // forwarded like any other message.
  lemma AwaitedOverflowIsNotAnswered(a: Actor, id: nat, expectTerminated: bool, inbound: seq<Envelope>, ending: Ending,
                                     k: nat)
    requires k < AwaitedAt(inbound, id) && inbound[k].payload.StreamOverflow?
    ensures var b := ReadResponse(a, id, expectTerminated, inbound, ending).0;
            && (forall w, runtime :: !AskedToResync(a, b, w, runtime))
            && exists i :: |a.log| <= i < |b.log| && b.log[i] == Emit(WorkspaceMessage(inbound[k]))
  {
    var passed := inbound[..AwaitedAt(inbound, id)];
    ResponseConservesTheStream(a, id, expectTerminated, inbound, ending);
    ForwardsAreMessages(passed, expectTerminated);
    var i := IsAmongForwards(passed, expectTerminated, k);
    var b := ReadResponse(a, id, expectTerminated, inbound, ending).0;
    assert b.log[|a.log| + i] == Emit(WorkspaceMessage(inbound[k]));
  }

  lemma {:induction false} IsAmongForwards(passed: seq<Envelope>, expectTerminated: bool, k: nat) returns (i: nat)
    requires k < |passed| && IsForwarded(passed[k], expectTerminated)
    ensures i < |Forwards(passed, expectTerminated)|
    ensures Forwards(passed, expectTerminated)[i] == Emit(WorkspaceMessage(passed[k]))
  {
    if k == 0 {
      i := 0;
    } else {
      i := IsAmongForwards(passed[1..], expectTerminated, k - 1);
      if IsForwarded(passed[0], expectTerminated) {
        i := i + 1;
      }
    }
  }

  // ---------------------------------------------------------------- one Reconnect covers every workspace

  // The runtimes that attachment was asked for, in order.
  function AttachesAsked(log: seq<Effect>): seq<Option<Uuid>> {
    if log == [] then []
    else
      var e := log[|log| - 1];
      AttachesAsked(log[..|log| - 1]) + (if e.Requested? && e.kind.AttachRequest? then [e.runtime] else [])
  }

  // The statuses a workspace was told by itself, in order.
  function ToldTo(log: seq<Effect>, w: WorkspaceId): seq<Status> {
    if log == [] then []
    else
      var e := log[|log| - 1];
      ToldTo(log[..|log| - 1], w)
      + (if e.Emit? && e.event.StatusChanged? && e.event.workspace == w then [e.event.status] else [])
  }

  lemma OneEffect(log: seq<Effect>, e: Effect, w: WorkspaceId)
    ensures AttachesAsked(log + [e])
            == AttachesAsked(log) + if e.Requested? && e.kind.AttachRequest? then [e.runtime] else []
    ensures ToldTo(log + [e], w)
            == ToldTo(log, w)
               + if e.Emit? && e.event.StatusChanged? && e.event.workspace == w then [e.event.status] else []
  {
    assert (log + [e])[..|log|] == log;
  }

  predicate IsMessage(e: Effect) { e.Emit? && e.event.WorkspaceMessage? }

  lemma {:induction false} ForwardsAreMessages(passed: seq<Envelope>, expectTerminated: bool)
    ensures forall i | 0 <= i < |Forwards(passed, expectTerminated)| :: IsMessage(Forwards(passed, expectTerminated)[i])
  {
    if passed != [] {
      ForwardsAreMessages(passed[1..], expectTerminated);
    }
  }

  lemma {:induction false} MessagesTellNothing(log: seq<Effect>, more: seq<Effect>, w: WorkspaceId)
    requires forall i | 0 <= i < |more| :: IsMessage(more[i])
    ensures AttachesAsked(log + more) == AttachesAsked(log) && ToldTo(log + more, w) == ToldTo(log, w)
    decreases |more|
  {
    if more == [] {
      assert log + more == log;
    } else {
      var n := |more| - 1;
      MessagesTellNothing(log, more[..n], w);
      OneEffect(log + more[..n], more[n], w);
      assert log + more == log + more[..n] + [more[n]];
    }
  }

  function StatusesOf(verdict: Verdict): seq<Status> {
    match verdict
    case IsRecovered => [Recovered]
    case IsMissing => [SessionMissing]
    case IsBlocked(problem) => [Blocked(problem)]
    case _ => []
  }

  // One workspace has been attempted: a single request for its runtime, one verdict, and
  // the status that goes with it.
  ghost predicate Attempted(a: Actor, b: Actor, w: WorkspaceId, runtime: IdText, verdict: Verdict) {
    && SameTransport(a, b) && UntrackedByForwards(a, b) && !verdict.IsSkipped?
    && AttachesAsked(b.log) == AttachesAsked(a.log) + [runtime.Parse()]
    && (forall v :: ToldTo(b.log, v) == ToldTo(a.log, v) + if v == w then StatusesOf(verdict) else [])
  }

  lemma LoggingUntracksNothing(a: Actor, e: Effect)
    requires !IsMessage(e)
    ensures UntrackedByForwards(a, a.Log(e))
  {
  }

  lemma AskingAsksOnce(a: Actor, runtime: Option<Uuid>, x: Exchange)
    requires a.reader && a.writer && x.Settles()
    ensures var (b, reply) := SendAndRead(a, AttachRequest, runtime, false, x);
            && SameTransport(a, b) && UntrackedByForwards(a, b) && !reply.Waiting?
            && AttachesAsked(b.log) == AttachesAsked(a.log) + [runtime]
            && (forall v :: ToldTo(b.log, v) == ToldTo(a.log, v))
  {
    var id := a.nextId;
    var request := Requested(id, AttachRequest, runtime);
    var c := a.(nextId := Ids.ActorSuccessor(id)).Log(request);
    LoggingUntracksNothing(a, request);
    assert UntrackedByForwards(a, c);
    forall v ensures AttachesAsked(c.log) == AttachesAsked(a.log) + [runtime] && ToldTo(c.log, v) == ToldTo(a.log, v) {
      OneEffect(a.log, request, v);
    }
    if x.sendError.None? {
      ReadingTellsNothing(c, id, x);
      UntrackingComposes(a, c, ReadResponse(c, id, false, x.inbound, x.ending).0);
    }
  }

  lemma ReadingTellsNothing(a: Actor, id: nat, x: Exchange)
    requires x.ending.Fails?
    ensures var (b, reply) := ReadResponse(a, id, false, x.inbound, x.ending);
            && SameTransport(a, b) && UntrackedByForwards(a, b) && !reply.Waiting?
            && AttachesAsked(b.log) == AttachesAsked(a.log)
            && (forall v :: ToldTo(b.log, v) == ToldTo(a.log, v))
  {
    ResponseConservesTheStream(a, id, false, x.inbound, x.ending);
    var passed := x.inbound[..AwaitedAt(x.inbound, id)];
    ForwardsAreMessages(passed, false);
    MessagesTellNothing(a.log, Forwards(passed, false), "");
    forall v ensures ToldTo(a.log + Forwards(passed, false), v) == ToldTo(a.log, v) {
      MessagesTellNothing(a.log, Forwards(passed, false), v);
    }
  }

  lemma ReportTells(a: Actor, w: WorkspaceId, runtime: IdText, outcome: Outcome<Snapshot>)
    requires !outcome.Elapsed?
    ensures var b := ReportReattach(a, w, runtime, outcome);
            var verdict := VerdictOf(outcome);
            && SameTransport(a, b) && UntrackedByForwards(a, b) && !verdict.IsSkipped?
            && AttachesAsked(b.log) == AttachesAsked(a.log)
            && (forall v :: ToldTo(b.log, v) == ToldTo(a.log, v) + if v == w then StatusesOf(verdict) else [])
  {
    match VerdictOf(outcome)
    case IsRecovered => PairTells(a, Emit(WorkspaceOpened(w, runtime, outcome.value)), w, Recovered);
    case IsMissing => LoggingTells(a, w, SessionMissing);
    case IsBlocked(problem) => PairTells(a, Emit(WorkspaceError(w, OpOpenWorkspace, problem)), w, Blocked(problem));
    case _ =>
  }

  lemma LoggingTells(a: Actor, w: WorkspaceId, status: Status)
    ensures var b := a.Tell(w, status);
            && SameTransport(a, b) && UntrackedByForwards(a, b) && AttachesAsked(b.log) == AttachesAsked(a.log)
            && (forall v :: ToldTo(b.log, v) == ToldTo(a.log, v) + if v == w then [status] else [])
  {
    var e := Emit(StatusChanged(w, status));
    LoggingUntracksNothing(a, e);
    OneEffect(a.log, e, w);
    forall v ensures ToldTo(a.log + [e], v) == ToldTo(a.log, v) + if v == w then [status] else [] {
      OneEffect(a.log, e, v);
    }
  }

  lemma PairTells(a: Actor, e: Effect, w: WorkspaceId, status: Status)
    requires e.Emit? && !e.event.StatusChanged? && !e.event.WorkspaceMessage?
    ensures var b := a.Log(e).Tell(w, status);
            && SameTransport(a, b) && UntrackedByForwards(a, b) && AttachesAsked(b.log) == AttachesAsked(a.log)
            && (forall v :: ToldTo(b.log, v) == ToldTo(a.log, v) + if v == w then [status] else [])
  {
    var c := a.Log(e);
    LoggingUntracksNothing(a, e);
    forall v ensures AttachesAsked(c.log) == AttachesAsked(a.log) && ToldTo(c.log, v) == ToldTo(a.log, v) {
      OneEffect(a.log, e, v);
    }
    LoggingTells(c, w, status);
    UntrackingComposes(a, c, c.Tell(w, status));
  }

  lemma ReattachOneAttempts(a: Actor, w: WorkspaceId, runtime: IdText, x: Exchange)
    requires !a.connection && a.reader && a.writer && runtime.Parse().Some? && x.Settles()
    ensures var (b, verdict) := ReattachOne(a, w, runtime, x);
            Attempted(a, b, w, runtime, verdict)
  {
    var (b, reply) := SendAndRead(a, AttachRequest, runtime.Parse(), false, x);
    AskingAsksOnce(a, runtime.Parse(), x);
    ReportTells(b, w, runtime, AttachOutcome(reply));
    UntrackingComposes(a, b, ReportReattach(b, w, runtime, AttachOutcome(reply)));
  }

  function BoundUuids(bound: map<WorkspaceId, IdText>, order: seq<WorkspaceId>): (uuids: seq<Option<Uuid>>)
    requires forall w | w in order :: w in bound
    ensures |uuids| == |order| && forall i | 0 <= i < |order| :: uuids[i] == bound[order[i]].Parse()
  {
    if order == [] then []
    else BoundUuids(bound, order[..|order| - 1]) + [bound[order[|order| - 1]].Parse()]
  }

  // Every workspace of `order` has been attempted once, in this order.
  ghost predicate Walked(a: Actor, b: Actor, bound: map<WorkspaceId, IdText>, order: seq<WorkspaceId>,
                         verdicts: seq<Verdict>)
    requires forall w | w in order :: w in bound
  {
    && |verdicts| == |order| && IsSkipped !in verdicts
    && SameTransport(a, b) && UntrackedByForwards(a, b)
    && AttachesAsked(b.log) == AttachesAsked(a.log) + BoundUuids(bound, order)
    && (forall i | 0 <= i < |order| :: ToldTo(b.log, order[i]) == ToldTo(a.log, order[i]) + StatusesOf(verdicts[i]))
    && (forall w | w !in order :: ToldTo(b.log, w) == ToldTo(a.log, w))
  }

  lemma WalkGoesOn(a: Actor, b: Actor, c: Actor, bound: map<WorkspaceId, IdText>, order: seq<WorkspaceId>,
                   verdicts: seq<Verdict>, verdict: Verdict)
    requires order != [] && Distinct(order) && forall w | w in order :: w in bound
    requires Walked(a, b, bound, order[..|order| - 1], verdicts)
    requires Attempted(b, c, order[|order| - 1], bound[order[|order| - 1]], verdict)
    ensures Walked(a, c, bound, order, verdicts + [verdict])
  {
    var n := |order| - 1;
    UntrackingComposes(a, b, c);
    forall i | 0 <= i <= n
      ensures ToldTo(c.log, order[i]) == ToldTo(a.log, order[i]) + StatusesOf((verdicts + [verdict])[i])
    {
      if i == n {
        assert order[n] !in order[..n];
      } else {
        assert order[i] == order[..n][i] && order[i] != order[n];
      }
    }
    assert AttachesAsked(a.log) + BoundUuids(bound, order[..n]) + [bound[order[n]].Parse()]
        == AttachesAsked(a.log) + BoundUuids(bound, order);
    forall w | w !in order ensures ToldTo(c.log, w) == ToldTo(a.log, w) {
      assert w !in order[..n] && w != order[n];
    }
  }

  lemma {:induction false} ReattachAllWalks(a: Actor, bound: map<WorkspaceId, IdText>, order: seq<WorkspaceId>,
                                            xs: seq<Exchange>)
    requires !a.connection && a.reader && a.writer && Distinct(order) && |xs| == |order|
    requires forall w | w in order :: w in bound && bound[w].Parse().Some?
    requires forall i | 0 <= i < |xs| :: xs[i].Settles()
    ensures var (b, verdicts) := ReattachAll(a, bound, order, xs);
            Walked(a, b, bound, order, verdicts)
    decreases |order|
  {
    if order != [] {
      var n := |order| - 1;
      var (b, verdicts) := ReattachAll(a, bound, order[..n], xs[..n]);
      ReattachAllWalks(a, bound, order[..n], xs[..n]);
      assert order[n] in order;
      var (c, verdict) := ReattachOne(b, order[n], bound[order[n]], xs[n]);
      ReattachOneAttempts(b, order[n], bound[order[n]], xs[n]);
      WalkGoesOn(a, b, c, bound, order, verdicts, verdict);
    }
  }

  // A Reconnect that gets a connection attempts every tracked workspace exactly once; each
  // is recovered, missing, blocked or has failed transiently, and is told so; one stays
  // tracked unless its termination arrived; and at most one new Reconnect is scheduled.
  lemma ReconnectCoversEveryWorkspace(a: Actor, s: Script)
    requires Retrying(a) && a.tracked != map[] && s.connect.None?
    requires Covers(a, s) && Enumerates(s.order, a.tracked.Keys)
    requires forall i | 0 <= i < |s.reattach| :: s.reattach[i].Settles()
    ensures var (d, verdicts) := Reattached(a, s);
            var b := HandleReconnect(a, s);
            && Walked(BeforeReattach(a, s), d, a.tracked, s.order, verdicts)
            && b.tracked == d.tracked && b.outstanding <= 1
            && (b.Up() <==> forall i | 0 <= i < |verdicts| :: !verdicts[i].IsTransientFailure?)
            && (b.Up() ==> b.attempt == 0 && b.outstanding == 0)
  {
    ReattachedShrinks(a, s);
    ReattachAllWalks(BeforeReattach(a, s), a.tracked, s.order, s.reattach);
    ConnectedCycleEnds(a, s);
  }
}
