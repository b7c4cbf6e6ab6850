// When the heartbeat of an endpoint actor ends its connection, over whole runs.
module EndpointHeartbeat {
  import opened MachineInts
  import opened Wrappers
  import opened EndpointTypes
  import opened EndpointSpec
  import opened EndpointInvariant
  import H = Heartbeat
  import Ids = RequestIds

  // How many ticks a run ends with since a step last left no ping pending. Such a step is
  // the answer to the pending ping, another message the loop takes, a new connection or a
  // lost one.
  ghost function UnansweredTicks(a: Actor, steps: seq<Step>): nat
    requires IsRun(a, steps)
    decreases |steps|
  {
    if steps == [] || After(a, steps).heartbeat.pending.None? then 0
    else
      var n := |steps| - 1;
      UnansweredTicks(a, steps[..n]) + if steps[n].Tick? then 1 else 0
  }

  // A pending ping is cleared by a message the loop takes exactly if that is its answer or
  // no pong at all, by a closed connection always, and by a tick exactly if that loses the
  // transport.
  lemma PingIsClearedIff(a: Actor, step: Step)
    requires Inv(a) && Enabled(a, step) && !step.Do? && a.heartbeat.pending.Some?
    ensures Next(a, step).heartbeat.pending.None?
            <==> match step
                 case Message(envelope, _) =>
                   envelope.payload.Pong? ==> a.heartbeat.pending == Some(envelope.payload.nonce)
                 case Closed => true
                 case Tick(_) => !Next(a, step).Up()
  {
  }

  // The monitor of the actor counts exactly these.
  ghost predicate Counts(m: H.Monitor, ticks: nat) {
    && (m.pending.None? <==> ticks == 0)
    && m.missed == (if ticks == 0 then 0 else if ticks - 1 < U8_MAX then ticks - 1 else U8_MAX)
  }

  lemma BeatCounts(before: H.Monitor, after: H.Monitor, ticks: nat)
    requires Counts(before, ticks) && (after == before || after == before.Cleared())
    ensures Counts(after, if after.pending.None? then 0 else ticks)
  {
  }

  lemma TickCounts(before: H.Monitor, after: H.Monitor, ticks: nat)
    requires before.InRange() && Counts(before, ticks)
    requires after == before.Ticked() || after == before.Ticked().Cleared()
    ensures Counts(after, if after.pending.None? then 0 else ticks + 1)
  {
  }

  lemma {:induction false} ActorCountsTicks(a: Actor, steps: seq<Step>)
    requires Inv(a) && a.heartbeat == a.heartbeat.Cleared() && IsRun(a, steps)
    ensures Counts(After(a, steps).heartbeat, UnansweredTicks(a, steps))
    decreases |steps|
  {
    if steps != [] {
      var n := |steps| - 1;
      ActorCountsTicks(a, steps[..n]);
      RunKeeps(a, steps[..n]);
      var b := After(a, steps[..n]);
      StepBeats(b, steps[n]);
      if steps[n].Tick? {
        TickCounts(b.heartbeat, Next(b, steps[n]).heartbeat, UnansweredTicks(a, steps[..n]));
      } else {
        BeatCounts(b.heartbeat, Next(b, steps[n]).heartbeat, UnansweredTicks(a, steps[..n]));
      }
    }
  }

  lemma StepBeats(a: Actor, step: Step)
    requires Inv(a) && Enabled(a, step)
    ensures step.Tick? ==> a.heartbeat.InRange()
                           && SameBeatOrCleared(a.(heartbeat := a.heartbeat.Ticked()), Next(a, step))
    ensures !step.Tick? ==> SameBeatOrCleared(a, Next(a, step))
  {
    NextKeeps(a, step);
    if step.Tick? {
      TickKeeps(a, step.sendError);
    }
  }

  lemma TickEnds(a: Actor)
    requires Inv(a) && a.reader
    ensures !HandleTick(a, None).Up() <==> a.heartbeat.TickAction() == H.DeclareLost
  {
  }

  // Over every run of a new actor: a tick whose ping can be written ends the connection
  // exactly when it is at least the ninth since no ping was pending.
  lemma HeartbeatEndsConnectionIffNineTicks(local: bool, cap: nat, steps: seq<Step>)
    requires cap <= U32_MAX && IsRun(Fresh(local, cap), steps)
    requires Enabled(After(Fresh(local, cap), steps), Tick(None))
    ensures var a := After(Fresh(local, cap), steps);
            !Next(a, Tick(None)).Up() <==> UnansweredTicks(Fresh(local, cap), steps) >= H.HEARTBEAT_MISS_LIMIT
  {
    RunKeeps(Fresh(local, cap), steps);
    ActorCountsTicks(Fresh(local, cap), steps);
    TickEnds(After(Fresh(local, cap), steps));
  }

  // ---------------------------------------------------------------- answered pings

  // The ping a tick sends carries the nonce the tick leaves pending.
  lemma TickPings(a: Actor, sendError: Option<DaemonError>)
    requires a.heartbeat.InRange() && a.writer && !(a.heartbeat.pending.Some? && a.heartbeat.missed >= 7)
    ensures var nonce := if a.heartbeat.pending.Some? then a.heartbeat.pending.value else a.heartbeat.nextNonce;
            var id := Ids.Drawn(a.wireIds);
            var b := a.(heartbeat := a.heartbeat.Ticked(), wireIds := Ids.Bumped(id)).Log(Pinged(id, nonce));
            && b.heartbeat.pending == Some(nonce)
            && HandleTick(a, sendError) == if sendError.Some? then HandleDisconnect(b) else b
  {
  }

  // The nonces pinged since.
  ghost function NoncesPinged(a: Actor, b: Actor): set<nat>
    requires a.log <= b.log
  {
    set i | |a.log| <= i < |b.log| && b.log[i].Pinged? :: b.log[i].nonce
  }

  // The nonces the last tick of a run has pinged, but for those the loop has taken a pong of
  // since: read off the steps and the pings alone.
  ghost function Unanswered(a: Actor, steps: seq<Step>): set<nat>
    requires Inv(a) && IsRun(a, steps)
    decreases |steps|
  {
    if steps == [] then {}
    else
      var n := |steps| - 1;
      RunKeeps(a, steps[..n]);
      NextKeeps(After(a, steps[..n]), steps[n]);
      match steps[n]
      case Tick(_) => NoncesPinged(After(a, steps[..n]), After(a, steps))
      case Message(Envelope(_, Pong(nonce)), _) => Unanswered(a, steps[..n]) - {nonce}
      case _ => Unanswered(a, steps[..n])
  }

  lemma TickAwaitsItsPing(a: Actor, sendError: Option<DaemonError>)
    requires Inv(a) && a.reader
    ensures var b := HandleTick(a, sendError);
            && a.log <= b.log
            && (b.Up() ==> b.heartbeat.pending.Some? && NoncesPinged(a, b) == {b.heartbeat.pending.value})
            && (!b.Up() ==> b.heartbeat.pending.None?)
  {
    TickKeeps(a, sendError);
    var b := HandleTick(a, sendError);
    if b.Up() {
      TickPings(a, sendError);
      assert b.log[|a.log|].Pinged? && |b.log| == |a.log| + 1;
      assert b.log[|a.log|].nonce in NoncesPinged(a, b);
    }
  }

  // A pending ping is one the last tick has sent and the loop has taken no pong of.
  lemma {:induction false} PendingIsUnanswered(a: Actor, steps: seq<Step>)
    requires Inv(a) && a.heartbeat.pending.None? && IsRun(a, steps)
    ensures var pending := After(a, steps).heartbeat.pending;
            pending.Some? ==> pending.value in Unanswered(a, steps)
    decreases |steps|
  {
    if steps != [] {
      var n := |steps| - 1;
      PendingIsUnanswered(a, steps[..n]);
      RunKeeps(a, steps[..n]);
      var b := After(a, steps[..n]);
      NextKeeps(b, steps[n]);
      if steps[n].Tick? {
        TickAwaitsItsPing(b, steps[n].sendError);
      }
    }
  }

  // So a daemon that answers each ping before the next tick is never taken for lost: in
  // every run, a tick whose ping can be written keeps a connection whose last ping has been
  // answered.
  lemma AnsweredPingKeepsTheConnection(local: bool, cap: nat, steps: seq<Step>)
    requires cap <= U32_MAX && IsRun(Fresh(local, cap), steps)
    requires Enabled(After(Fresh(local, cap), steps), Tick(None))
    requires Unanswered(Fresh(local, cap), steps) == {}
    ensures Next(After(Fresh(local, cap), steps), Tick(None)).Up()
  {
    RunKeeps(Fresh(local, cap), steps);
    PendingIsUnanswered(Fresh(local, cap), steps);
    TickEnds(After(Fresh(local, cap), steps));
  }
}
