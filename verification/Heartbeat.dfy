// The heartbeat of an endpoint connection: pings, pongs, missed ticks and the deadline
// that spaces the ticks.
module Heartbeat {
  import opened MachineInts
  import opened Wrappers

  const HEARTBEAT_MISS_LIMIT: nat := 8
  // Milliseconds between two ticks.
  const HEARTBEAT_INTERVAL: nat := 2000

  function SaturatingAdd1(n: nat, max: nat): (r: nat)
    requires n <= max
    ensures r <= max
  {
    if n < max then n + 1 else max
  }

  datatype Action = SendPing(nonce: nat) | DeclareLost

  // The monitor as a value.
  datatype Monitor = Monitor(pending: Option<nat>, nextNonce: nat, missed: nat) {
    predicate InRange() { nextNonce <= U64_MAX && missed <= U8_MAX }

    function Cleared(): Monitor { this.(pending := None, missed := 0) }

    // A pong clears the outstanding ping only if it carries its nonce.
    function Ponged(nonce: nat): Monitor {
      if pending == Some(nonce) then Cleared() else this
    }

    function Ticked(): Monitor
      requires InRange()
    {
      if pending.Some? then this.(missed := SaturatingAdd1(missed, U8_MAX))
      else Monitor(Some(nextNonce), SaturatingAdd1(nextNonce, U64_MAX), 0)
    }

    // A ping carries the nonce that is pending once the tick is over.
    function TickAction(): (action: Action)
      requires InRange()
      ensures action.SendPing? ==> Ticked().pending == Some(action.nonce)
    {
      if pending.None? then SendPing(nextNonce)
      else if SaturatingAdd1(missed, U8_MAX) >= HEARTBEAT_MISS_LIMIT then DeclareLost
      else SendPing(pending.value)
    }
  }

  const FRESH_MONITOR := Monitor(None, 0, 0)

  class HeartbeatMonitor {
    var pendingNonce: Option<nat>
    var nextNonce: nat
    var missedTicks: nat

    ghost function State(): Monitor
      reads this
    {
      Monitor(pendingNonce, nextNonce, missedTicks)
    }

    constructor ()
      ensures State() == FRESH_MONITOR
    {
      pendingNonce, nextNonce, missedTicks := None, 0, 0;
    }

    method OnTick() returns (action: Action)
      requires State().InRange()
      modifies this
      ensures State() == old(State()).Ticked() && State().InRange()
      ensures action == old(State()).TickAction()
      ensures action.SendPing? ==> pendingNonce == Some(action.nonce)
    {
      match pendingNonce
      case Some(nonce) =>
        missedTicks := SaturatingAdd1(missedTicks, U8_MAX);
        if missedTicks >= HEARTBEAT_MISS_LIMIT {
          return DeclareLost;
        }
        return SendPing(nonce);
      case None =>
        var nonce := nextNonce;
        nextNonce := SaturatingAdd1(nextNonce, U64_MAX);
        pendingNonce := Some(nonce);
        missedTicks := 0;
        return SendPing(nonce);
    }

    method ObservePong(nonce: nat)
      modifies this
      ensures State() == old(State()).Ponged(nonce)
    {
      if pendingNonce == Some(nonce) {
        pendingNonce := None;
        missedTicks := 0;
      }
    }

    method Reset()
      modifies this
      ensures State() == old(State()).Cleared()
    {
      pendingNonce := None;
      missedTicks := 0;
    }
  }

  // ---------------------------------------------------------------- timed traces

  // What can touch the heartbeat, with the millisecond it happens at. `Inbound` is a
  // message taken by the main loop, `AwaitedInbound` one taken while a request waits for
  // its response: only the former counts as a sign of life. `Restart` is a new connection,
  // `Dropped` the loss of one, `PausePoll` a wake-up while reading is paused.
  datatype Event =
    | Tick(at: nat)
    | Pong(at: nat, nonce: nat)
    | Inbound(at: nat)
    | AwaitedInbound(at: nat)
    | Restart(at: nat)
    | Dropped(at: nat)
    | PausePoll(at: nat)

  datatype Timed = Timed(monitor: Monitor, deadline: nat)

  function Step(t: Timed, e: Event): (r: Timed)
    requires t.monitor.InRange()
    ensures r.monitor.InRange()
  {
    match e
    case Tick(at) => Timed(t.monitor.Ticked(), at + HEARTBEAT_INTERVAL)
    case Pong(_, nonce) => t.(monitor := t.monitor.Ponged(nonce))
    case Inbound(_) => t.(monitor := t.monitor.Cleared())
    case AwaitedInbound(_) => t
    case Restart(at) => Timed(t.monitor.Cleared(), at + HEARTBEAT_INTERVAL)
    case Dropped(_) => t.(monitor := t.monitor.Cleared())
    case PausePoll(at) => t.(deadline := at + HEARTBEAT_INTERVAL)
  }

  // The heartbeat after a trace that starts with a fresh monitor at time `born`.
  function After(born: nat, trace: seq<Event>): (t: Timed)
    ensures t.monitor.InRange()
  {
    if trace == [] then Timed(FRESH_MONITOR, born + HEARTBEAT_INTERVAL)
    else Step(After(born, trace[..|trace| - 1]), trace[|trace| - 1])
  }

  predicate Clears(t: Timed, e: Event) {
    match e
    case Inbound(_) => true
    case Restart(_) => true
    case Dropped(_) => true
    case Pong(_, nonce) => t.monitor.pending == Some(nonce)
    case _ => false
  }

  // How many ticks the trace ends with since the last clearing event.
  function TicksSinceClear(born: nat, trace: seq<Event>): nat {
    if trace == [] then 0
    else
      var prefix := trace[..|trace| - 1];
      var e := trace[|trace| - 1];
      if Clears(After(born, prefix), e) then 0
      else if e.Tick? then TicksSinceClear(born, prefix) + 1
      else TicksSinceClear(born, prefix)
  }

  // The monitor's whole state, read off the trace.
  lemma {:induction false} MonitorCountsTicks(born: nat, trace: seq<Event>)
    ensures var m := After(born, trace).monitor;
            var k := TicksSinceClear(born, trace);
            && (m.pending.None? <==> k == 0)
            && m.missed == if k == 0 then 0 else if k - 1 < U8_MAX then k - 1 else U8_MAX
  {
    if trace != [] {
      MonitorCountsTicks(born, trace[..|trace| - 1]);
    }
  }

  // A tick declares the connection lost exactly when it is at least the ninth since the
  // last clearing event; a stale pong, or a message read while a request was waiting, is
  // not one.
  lemma LostIffNineTicks(born: nat, trace: seq<Event>, at: nat)
    ensures After(born, trace).monitor.TickAction() == DeclareLost
            <==> TicksSinceClear(born, trace + [Tick(at)]) >= HEARTBEAT_MISS_LIMIT + 1
  {
    MonitorCountsTicks(born, trace);
    assert (trace + [Tick(at)])[..|trace|] == trace;
  }

  // ---------------------------------------------------------------- which pong clears

  lemma {:induction false} NoncesOnlyGrow(born: nat, trace: seq<Event>, i: nat)
    requires i <= |trace|
    ensures After(born, trace[..i]).monitor.nextNonce <= After(born, trace).monitor.nextNonce
    ensures var m := After(born, trace).monitor;
            m.pending.Some? && m.nextNonce < U64_MAX ==> m.pending.value < m.nextNonce
    decreases |trace|
  {
    if |trace| > 0 {
      var n := |trace| - 1;
      NoncesOnlyGrow(born, trace[..n], if i < n then i else n);
      if i <= n {
        assert trace[..n][..i] == trace[..i];
      } else {
        assert trace[..i] == trace;
      }
    }
  }

  // The nonce outstanding at a moment was handed out after every earlier moment without
  // an outstanding ping.
  lemma {:induction false} PendingIsLaterThanClear(born: nat, trace: seq<Event>, clear: nat)
    requires clear <= |trace| && After(born, trace[..clear]).monitor.pending.None?
    ensures var m := After(born, trace).monitor;
            m.pending.Some? ==> After(born, trace[..clear]).monitor.nextNonce <= m.pending.value
    decreases |trace|
  {
    assert trace[..|trace|] == trace;
    if clear < |trace| {
      var n := |trace| - 1;
      assert trace[..n][..clear] == trace[..clear];
      PendingIsLaterThanClear(born, trace[..n], clear);
      NoncesOnlyGrow(born, trace[..n], clear);
    }
  }

  // The answer to a ping that was outstanding before a clearing event does not clear the
  // ping outstanding now: until the nonce counter saturates, their nonces differ.
  lemma LatePongIsStale(born: nat, trace: seq<Event>, asked: nat, cleared: nat, nonce: nat)
    requires asked <= cleared <= |trace|
    requires After(born, trace[..asked]).monitor.pending == Some(nonce)
    requires After(born, trace[..cleared]).monitor.pending.None?
    requires After(born, trace).monitor.nextNonce < U64_MAX
    ensures After(born, trace).monitor.Ponged(nonce) == After(born, trace).monitor
  {
    assert trace[..cleared][..asked] == trace[..asked];
    NoncesOnlyGrow(born, trace[..asked], 0);
    NoncesOnlyGrow(born, trace[..cleared], asked);
    NoncesOnlyGrow(born, trace, cleared);
    PendingIsLaterThanClear(born, trace, cleared);
  }

  // ---------------------------------------------------------------- how long the daemon has

  // Events happen in time order, and a tick only once its deadline has passed.
  predicate Realistic(born: nat, trace: seq<Event>) {
    trace == [] ||
    var prefix := trace[..|trace| - 1];
    var e := trace[|trace| - 1];
    && Realistic(born, prefix)
    && Now(born, prefix) <= e.at
    && (e.Tick? ==> After(born, prefix).deadline <= e.at)
  }

  function Now(born: nat, trace: seq<Event>): nat {
    if trace == [] then born else trace[|trace| - 1].at
  }

  // When the ping that is outstanding after the trace was first sent.
  function FirstPingAt(born: nat, trace: seq<Event>): nat {
    if trace == [] then born
    else
      var prefix := trace[..|trace| - 1];
      var e := trace[|trace| - 1];
      if e.Tick? && TicksSinceClear(born, prefix) == 0 then e.at
      else FirstPingAt(born, prefix)
  }

  lemma {:induction false} DeadlineSpacesTicks(born: nat, trace: seq<Event>)
    requires Realistic(born, trace)
    ensures var t := After(born, trace);
            var k := TicksSinceClear(born, trace);
            && t.deadline <= Now(born, trace) + HEARTBEAT_INTERVAL
            && (k > 0 ==> t.deadline >= FirstPingAt(born, trace) + k * HEARTBEAT_INTERVAL)
  {
    if trace != [] {
      DeadlineSpacesTicks(born, trace[..|trace| - 1]);
    }
  }

  // A connection is never declared lost before the outstanding ping has gone unanswered
  // for sixteen seconds, however reading was paused in between.
  lemma LostOnlyAfterSixteenSeconds(born: nat, trace: seq<Event>, at: nat)
    requires Realistic(born, trace + [Tick(at)])
    requires After(born, trace).monitor.TickAction() == DeclareLost
    ensures at >= FirstPingAt(born, trace) + 16_000
  {
    assert (trace + [Tick(at)])[..|trace|] == trace;
    LostIffNineTicks(born, trace, at);
    DeadlineSpacesTicks(born, trace);
  }
}
