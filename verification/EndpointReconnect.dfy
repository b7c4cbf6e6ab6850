// One Reconnect, from the replies of the daemon: what it asks, what it hands on, what it tells.
module EndpointReconnect {
  import opened Wrappers
  import opened EndpointTypes
  import opened EndpointSpec
  import opened EndpointInvariant
  import opened EndpointStream
  import opened EndpointAccounts
  import opened EndpointOpen
  import Ids = RequestIds

  // ---------------------------------------------------------------- one reattachment

  function ReattachTells(workspace: WorkspaceId, runtime: IdText, reply: Reply): seq<Effect> {
    if reply.Waiting? || IsLostReply(reply) then []
    else if IsSnapshot(reply) then
      [Emit(WorkspaceOpened(workspace, runtime, reply.envelope.payload.snapshot)),
       Emit(StatusChanged(workspace, Recovered))]
    else if NamesNoWorkspace(Refusal(AttachRequest, reply)) then [Emit(StatusChanged(workspace, SessionMissing))]
    else BlockedBy(workspace, OpOpenWorkspace, Classify(Refusal(AttachRequest, reply)))
  }

  predicate VerdictFits(verdict: Verdict, reply: Reply) {
    && (verdict.IsSkipped? <==> reply.Waiting?)
    && (verdict.IsRecovered? <==> IsSnapshot(reply))
    && (verdict.IsTransientFailure? <==> IsLostReply(reply))
    && (verdict.IsMissing?
        <==> !reply.Waiting? && !IsSnapshot(reply) && NamesNoWorkspace(Refusal(AttachRequest, reply)))
  }

  lemma ReportLogs(a: Actor, workspace: WorkspaceId, runtime: IdText, reply: Reply)
    ensures var b := ReportReattach(a, workspace, runtime, AttachOutcome(reply));
            b == a.(log := a.log + ReattachTells(workspace, runtime, reply))
    ensures VerdictFits(VerdictOf(AttachOutcome(reply)), reply)
  {
    AttachAnswers(reply);
    if reply.Waiting? || IsLostReply(reply) {
      assert a.log + [] == a.log;
    }
  }

  lemma ReportIsNotices(workspace: WorkspaceId, runtime: IdText, reply: Reply)
    ensures forall e | e in ReattachTells(workspace, runtime, reply) :: ColumnOf(e) == Notices
  {
  }

  lemma ReportAdds(a: Actor, workspace: WorkspaceId, runtime: IdText, reply: Reply)
    ensures var b := ReportReattach(a, workspace, runtime, AttachOutcome(reply));
            && Adds(a, b, [], [], ReattachTells(workspace, runtime, reply))
            && b == a.(log := b.log)
    ensures VerdictFits(VerdictOf(AttachOutcome(reply)), reply)
  {
    var b := ReportReattach(a, workspace, runtime, AttachOutcome(reply));
    ReportLogs(a, workspace, runtime, reply);
    ReportIsNotices(workspace, runtime, reply);
    AddsNotices(a, b, ReattachTells(workspace, runtime, reply));
  }

  lemma ReattachOneFollows(a: Actor, workspace: WorkspaceId, runtime: IdText, x: Exchange)
    requires !a.connection && a.reader && a.writer && runtime.Parse().Some?
    ensures var (b, verdict) := ReattachOne(a, workspace, runtime, x);
            var reply := ReplyTo(a.nextId, x);
            var heard := HeardFor(true, a.nextId, false, x);
            && SameTransport(a, b) && b.nextId == Ids.ActorSuccessor(a.nextId)
            && Adds(a, b, [Requested(a.nextId, AttachRequest, runtime.Parse())], heard,
                    ReattachTells(workspace, runtime, reply))
            && b.tracked == Survivors(a.tracked, heard) && VerdictFits(verdict, reply)
  {
    var (b, reply) := SendAndRead(a, AttachRequest, runtime.Parse(), false, x);
    SplitRequestTalks(a, AttachRequest, runtime.Parse(), false, x);
    ReportAdds(b, workspace, runtime, reply);
    var asked := [Requested(a.nextId, AttachRequest, runtime.Parse())];
    var heard := HeardFor(true, a.nextId, false, x);
    AddsCompose(a, b, ReportReattach(b, workspace, runtime, AttachOutcome(reply)), asked, heard, [], [], [],
                ReattachTells(workspace, runtime, reply));
    assert asked + [] == asked && heard + [] == heard;
  }

  // ---------------------------------------------------------------- the walk over the tracked workspaces

  // The i-th workspace's request carries the i-th id from `first`.
  function WalkAsks(first: nat, bound: map<WorkspaceId, IdText>, order: seq<WorkspaceId>): seq<Effect>
    requires forall w | w in order :: w in bound
  {
    if order == [] then []
    else
      var n := |order| - 1;
      WalkAsks(first, bound, order[..n]) + [Requested(Ids.ActorId(first, n), AttachRequest, bound[order[n]].Parse())]
  }

  function WalkHears(first: nat, xs: seq<Exchange>): seq<Effect> {
    if xs == [] then []
    else
      var n := |xs| - 1;
      WalkHears(first, xs[..n]) + HeardFor(true, Ids.ActorId(first, n), false, xs[n])
  }

  function WalkTells(first: nat, bound: map<WorkspaceId, IdText>, order: seq<WorkspaceId>, xs: seq<Exchange>):
    seq<Effect>
    requires |xs| == |order| && forall w | w in order :: w in bound
  {
    if order == [] then []
    else
      var n := |order| - 1;
      WalkTells(first, bound, order[..n], xs[..n])
      + ReattachTells(order[n], bound[order[n]], ReplyTo(Ids.ActorId(first, n), xs[n]))
  }

  // A reattachment met a lost transport.
  predicate MeetsLoss(first: nat, xs: seq<Exchange>) {
    exists i :: 0 <= i < |xs| && IsLostReply(ReplyTo(Ids.ActorId(first, i), xs[i]))
  }

  lemma MeetsLossOrLast(first: nat, xs: seq<Exchange>)
    requires xs != []
    ensures var n := |xs| - 1;
            MeetsLoss(first, xs) <==> MeetsLoss(first, xs[..n]) || IsLostReply(ReplyTo(Ids.ActorId(first, n), xs[n]))
  {
    var n := |xs| - 1;
    if MeetsLoss(first, xs[..n]) {
      var i :| 0 <= i < n && IsLostReply(ReplyTo(Ids.ActorId(first, i), xs[..n][i]));
      assert xs[i] == xs[..n][i];
    }
    if MeetsLoss(first, xs) {
      var i :| 0 <= i <= n && IsLostReply(ReplyTo(Ids.ActorId(first, i), xs[i]));
      assert i < n ==> xs[..n][i] == xs[i];
    }
  }

  ghost predicate WalkFollows(a: Actor, b: Actor, bound: map<WorkspaceId, IdText>, order: seq<WorkspaceId>,
                              xs: seq<Exchange>, verdicts: seq<Verdict>)
    requires |xs| == |order| && forall w | w in order :: w in bound
  {
    && SameTransport(a, b) && b.nextId == Ids.ActorId(a.nextId, |order|)
    && Adds(a, b, WalkAsks(a.nextId, bound, order), WalkHears(a.nextId, xs), WalkTells(a.nextId, bound, order, xs))
    && b.tracked == Survivors(a.tracked, WalkHears(a.nextId, xs))
    && |verdicts| == |order|
    && (forall i | 0 <= i < |verdicts| :: VerdictFits(verdicts[i], ReplyTo(Ids.ActorId(a.nextId, i), xs[i])))
  }

  // Every workspace is asked about once, and the verdict on it, and all it is told, is what
  // the reply to its own request says.
  lemma {:induction false} ReattachAllFollows(a: Actor, bound: map<WorkspaceId, IdText>, order: seq<WorkspaceId>,
                                              xs: seq<Exchange>)
    requires !a.connection && a.reader && a.writer && |xs| == |order|
    requires forall w | w in order :: w in bound && bound[w].Parse().Some?
    ensures var (b, verdicts) := ReattachAll(a, bound, order, xs);
            WalkFollows(a, b, bound, order, xs, verdicts)
    decreases |order|
  {
    if order == [] {
      AddsNotices(a, a, []);
      assert Survivors(a.tracked, []) == a.tracked;
    } else {
      var n := |order| - 1;
      var (b, verdicts) := ReattachAll(a, bound, order[..n], xs[..n]);
      ReattachAllFollows(a, bound, order[..n], xs[..n]);
      assert order[n] in order;
      var (c, verdict) := ReattachOne(b, order[n], bound[order[n]], xs[n]);
      ReattachOneFollows(b, order[n], bound[order[n]], xs[n]);
      WalkFollowsOn(a, b, c, bound, order, xs, verdicts, verdict);
    }
  }

  lemma VerdictsFitOn(first: nat, xs: seq<Exchange>, verdicts: seq<Verdict>, verdict: Verdict)
    requires xs != [] && |verdicts| == |xs| - 1
    requires forall i | 0 <= i < |verdicts| ::
               VerdictFits(verdicts[i], ReplyTo(Ids.ActorId(first, i), xs[..|xs| - 1][i]))
    requires VerdictFits(verdict, ReplyTo(Ids.ActorId(first, |xs| - 1), xs[|xs| - 1]))
    ensures forall i | 0 <= i < |xs| :: VerdictFits((verdicts + [verdict])[i], ReplyTo(Ids.ActorId(first, i), xs[i]))
  {
  }

  lemma WalkAddsOn(a: Actor, b: Actor, c: Actor, bound: map<WorkspaceId, IdText>, order: seq<WorkspaceId>,
                   xs: seq<Exchange>)
    requires order != [] && |xs| == |order| && forall w | w in order :: w in bound
    requires var n := |order| - 1;
             && Adds(a, b, WalkAsks(a.nextId, bound, order[..n]), WalkHears(a.nextId, xs[..n]),
                     WalkTells(a.nextId, bound, order[..n], xs[..n]))
             && b.nextId == Ids.ActorId(a.nextId, n)
             && Adds(b, c, [Requested(b.nextId, AttachRequest, bound[order[n]].Parse())],
                     HeardFor(true, b.nextId, false, xs[n]),
                     ReattachTells(order[n], bound[order[n]], ReplyTo(b.nextId, xs[n])))
    ensures Adds(a, c, WalkAsks(a.nextId, bound, order), WalkHears(a.nextId, xs), WalkTells(a.nextId, bound, order, xs))
  {
    var n := |order| - 1;
    AddsCompose(a, b, c, WalkAsks(a.nextId, bound, order[..n]), WalkHears(a.nextId, xs[..n]),
                WalkTells(a.nextId, bound, order[..n], xs[..n]),
                [Requested(b.nextId, AttachRequest, bound[order[n]].Parse())], HeardFor(true, b.nextId, false, xs[n]),
                ReattachTells(order[n], bound[order[n]], ReplyTo(b.nextId, xs[n])));
  }

  lemma WalkFollowsOn(a: Actor, b: Actor, c: Actor, bound: map<WorkspaceId, IdText>, order: seq<WorkspaceId>,
                      xs: seq<Exchange>, verdicts: seq<Verdict>, verdict: Verdict)
    requires order != [] && |xs| == |order| && forall w | w in order :: w in bound
    requires WalkFollows(a, b, bound, order[..|order| - 1], xs[..|order| - 1], verdicts)
    requires var n := |order| - 1;
             var reply := ReplyTo(b.nextId, xs[n]);
             var heard := HeardFor(true, b.nextId, false, xs[n]);
             && SameTransport(b, c) && c.nextId == Ids.ActorSuccessor(b.nextId)
             && Adds(b, c, [Requested(b.nextId, AttachRequest, bound[order[n]].Parse())], heard,
                     ReattachTells(order[n], bound[order[n]], reply))
             && c.tracked == Survivors(b.tracked, heard) && VerdictFits(verdict, reply)
    ensures WalkFollows(a, c, bound, order, xs, verdicts + [verdict])
  {
    var n := |order| - 1;
    SurvivorsCompose(a.tracked, WalkHears(a.nextId, xs[..n]), HeardFor(true, b.nextId, false, xs[n]));
    WalkAddsOn(a, b, c, bound, order, xs);
    VerdictsFitOn(a.nextId, xs, verdicts, verdict);
  }

  // ---------------------------------------------------------------- the whole cycle

  // A cycle that gets a connection.
  ghost predicate CycleFollows(a: Actor, b: Actor, s: Script)
    requires Covers(a, s)
  {
    var heard := WalkHears(a.nextId, s.reattach);
    var survivors := Survivors(a.tracked, heard);
    && Adds(a, b, WalkAsks(a.nextId, a.tracked, s.order), heard,
            DialTells(a.(attempt := 0), s.primary, None) + WalkTells(a.nextId, a.tracked, s.order, s.reattach)
            + if MeetsLoss(a.nextId, s.reattach) then LossTells(a.attempt, survivors.Keys, a.cap) else [])
    && b.tracked == survivors
    && (b.Up() <==> !MeetsLoss(a.nextId, s.reattach))
  }

  lemma CycleDials(a: Actor, s: Script)
    requires Retrying(a)
    ensures var b := BeforeReattach(a, s);
            && Adds(a, b, [], [], DialTells(a.(attempt := 0), s.primary, None))
            && b.tracked == a.tracked && b.nextId == a.nextId && b.cap == a.cap && b.attempt == a.attempt
            && !b.connection && b.reader && b.writer
  {
    var c := a.(attempt := 0);
    DiallingAdds(c, s.primary, s.(connect := None));
  }

  lemma CycleWalks(a: Actor, s: Script)
    requires Retrying(a) && Covers(a, s)
    ensures var (d, verdicts) := Reattached(a, s);
            && Adds(a, d, WalkAsks(a.nextId, a.tracked, s.order), WalkHears(a.nextId, s.reattach),
                    DialTells(a.(attempt := 0), s.primary, None)
                    + WalkTells(a.nextId, a.tracked, s.order, s.reattach))
            && d.tracked == Survivors(a.tracked, WalkHears(a.nextId, s.reattach))
            && (IsTransientFailure in verdicts <==> MeetsLoss(a.nextId, s.reattach))
            && d.cap == a.cap && d.Up()
  {
    var c := BeforeReattach(a, s);
    var (d, verdicts) := Reattached(a, s);
    CycleDials(a, s);
    ReattachAllFollows(c, a.tracked, s.order, s.reattach);
    AddsCompose(a, c, d, [], [], DialTells(a.(attempt := 0), s.primary, None), WalkAsks(a.nextId, a.tracked, s.order),
                WalkHears(a.nextId, s.reattach), WalkTells(a.nextId, a.tracked, s.order, s.reattach));
    assert [] + WalkAsks(a.nextId, a.tracked, s.order) == WalkAsks(a.nextId, a.tracked, s.order);
    assert [] + WalkHears(a.nextId, s.reattach) == WalkHears(a.nextId, s.reattach);
    VerdictsMeetLoss(a.nextId, s.reattach, verdicts);
  }

  lemma VerdictsMeetLoss(first: nat, xs: seq<Exchange>, verdicts: seq<Verdict>)
    requires |verdicts| == |xs|
    requires forall i | 0 <= i < |verdicts| :: VerdictFits(verdicts[i], ReplyTo(Ids.ActorId(first, i), xs[i]))
    ensures IsTransientFailure in verdicts <==> MeetsLoss(first, xs)
  {
    if MeetsLoss(first, xs) {
      var i :| 0 <= i < |xs| && IsLostReply(ReplyTo(Ids.ActorId(first, i), xs[i]));
      assert verdicts[i] == IsTransientFailure;
    }
  }

  lemma CycleEnds(a: Actor, s: Script)
    requires Retrying(a) && Covers(a, s) && a.tracked != map[] && s.connect.None?
    ensures var (d, verdicts) := Reattached(a, s);
            HandleReconnect(a, s)
            == if IsTransientFailure in verdicts then HandleDisconnect(d.(attempt := a.attempt)) else d.(attempt := 0)
  {
  }

  // A Reconnect that gets a connection asks about every tracked workspace once, with the
  // runtime it was bound to when the walk began, and tells each what its own reply says; the
  // connection is kept exactly if no reply was a lost transport.
  lemma ReconnectFollowsReplies(a: Actor, s: Script)
    requires Retrying(a) && Covers(a, s) && a.tracked != map[] && s.connect.None?
    ensures CycleFollows(a, HandleReconnect(a, s), s)
  {
    var (d, verdicts) := Reattached(a, s);
    CycleWalks(a, s);
    CycleEnds(a, s);
    var told := DialTells(a.(attempt := 0), s.primary, None) + WalkTells(a.nextId, a.tracked, s.order, s.reattach);
    if IsTransientFailure in verdicts {
      LostCycleAdds(a, d, WalkAsks(a.nextId, a.tracked, s.order), WalkHears(a.nextId, s.reattach), told);
    } else {
      assert told + [] == told;
    }
  }

  lemma LostCycleAdds(a: Actor, d: Actor, asked: seq<Effect>, heard: seq<Effect>, told: seq<Effect>)
    requires Adds(a, d, asked, heard, told) && d.cap == a.cap
    ensures var b := HandleDisconnect(d.(attempt := a.attempt));
            && Adds(a, b, asked, heard, told + LossTells(a.attempt, d.tracked.Keys, a.cap))
            && b.tracked == d.tracked && !b.Up()
  {
    var e := d.(attempt := a.attempt);
    LossAdds(e);
    AddsCompose(a, e, HandleDisconnect(e), asked, heard, told, [], [],
                LossTells(a.attempt, d.tracked.Keys, a.cap));
    assert asked + [] == asked && heard + [] == heard;
  }

  // One that does not get a connection asks nothing. A transient failure is retried as if it
  // were the first; any other raises the counter and is retried after the longest delay.
  lemma FailedReconnectTells(a: Actor, s: Script)
    requires Retrying(a) && Covers(a, s) && a.tracked != map[] && s.connect.Some?
    ensures var b := HandleReconnect(a, s);
            var told := DialTells(a.(attempt := 0), s.primary, s.connect);
            Adds(a, b, [], [], if s.connect.value == Io || s.connect.value == Disconnected then told
                               else told + [RetryTells(a.attempt, a.cap, a.tracked.Keys, a.cap)])
            && b.tracked == a.tracked
  {
    var c := a.(attempt := 0);
    var told := DialTells(c, s.primary, s.connect);
    var (d, problem) := EnsureConnected(c, s.primary, s.connect);
    DiallingAdds(c, s.primary, s);
    var e := d.(attempt := a.attempt);
    if !problem.value.IsTransient() {
      assert HandleReconnect(a, s) == ScheduleReconnect(e, a.cap);
      var retry := RetryTells(a.attempt, a.cap, a.tracked.Keys, a.cap);
      AddsNotices(e, ScheduleReconnect(e, a.cap), [retry]);
      AddsCompose(a, e, ScheduleReconnect(e, a.cap), [], [], told, [], [], [retry]);
    }
  }
}
