// Request identifiers: the shared atomic generator under every interleaving of its
// atomic steps, and the actor's own sequential counter.
module RequestIds {
  // 2^64: the number of values a 64 bit counter takes.
  const MODULUS: nat := 0x1_0000_0000_0000_0000

  // ---------------------------------------------------------------- the atomic counter

  // `fetch_add(1)` returns the old value and wraps.
  function Bumped(counter: nat): nat {
    (counter + 1) % MODULUS
  }

  // The generator, used by one thread at a time.
  class RequestIdGenerator {
    var next: nat

    constructor ()
      ensures next == 1
    {
      next := 1;
    }

    method FetchAdd() returns (old_: nat)
      modifies this
      ensures old_ == old(next) && next == Bumped(old(next))
    {
      old_ := next;
      next := Bumped(next);
    }

    method NextId() returns (id: nat)
      requires next < MODULUS
      modifies this
      ensures next < MODULUS
      ensures id == Drawn(old(next)) && next == Bumped(id) && id != 0
    {
      id := FetchAdd();
      if id == 0 {
        id := FetchAdd();
      }
    }
  }

  // The id one undisturbed call returns.
  function Drawn(counter: nat): nat {
    if counter == 0 then 1 else counter
  }

  // ---------------------------------------------------------------- interleaved threads

  // A thread inside `next_id` is either about to take its first atomic step or, having
  // drawn zero, its second. `issued` lists the ids returned, with the thread that got each.
  datatype Shared = Shared(counter: nat, retrying: set<nat>, issued: seq<(nat, nat)>)

  // One atomic step of `thread`.
  function AtomicStep(s: Shared, thread: nat): Shared {
    var drawn := s.counter;
    if thread in s.retrying then
      Shared(Bumped(s.counter), s.retrying - {thread}, s.issued + [(thread, drawn)])
    else if drawn == 0 then
      Shared(Bumped(s.counter), s.retrying + {thread}, s.issued)
    else
      Shared(Bumped(s.counter), s.retrying, s.issued + [(thread, drawn)])
  }

  // Any interleaving: `schedule[k]` is the thread that takes the k-th step.
  function RunThreads(start: nat, schedule: seq<nat>): Shared {
    if schedule == [] then Shared(start, {}, [])
    else AtomicStep(RunThreads(start, schedule[..|schedule| - 1]), schedule[|schedule| - 1])
  }

  // How many steps before the counter next reads `v`.
  function StepsTo(start: nat, v: nat): nat
    requires start < MODULUS
  {
    (v - start) % MODULUS
  }

  // What holds after k steps, k at most 2^64: every id issued was drawn at an earlier
  // step of its own, zero never is, and a thread retries only if zero has been drawn.
  ghost predicate Sound(start: nat, k: nat, s: Shared)
    requires start < MODULUS
  {
    && s.counter == (start + k) % MODULUS
    && (s.retrying != {} ==> StepsTo(start, 0) < k)
    && (forall i | 0 <= i < |s.issued| :: 0 < s.issued[i].1 < MODULUS && StepsTo(start, s.issued[i].1) < k)
    && (forall i, j | 0 <= i < j < |s.issued| :: s.issued[i].1 != s.issued[j].1)
  }

  lemma CounterReads(start: nat, k: nat)
    requires start < MODULUS && k < MODULUS
    ensures StepsTo(start, (start + k) % MODULUS) == k
    ensures Bumped((start + k) % MODULUS) == (start + k + 1) % MODULUS
  {
    if start + k < MODULUS {
      assert (start + k) % MODULUS == start + k;
    } else {
      assert (start + k) % MODULUS == start + k - MODULUS;
      assert (k - MODULUS) % MODULUS == k;
    }
  }

  lemma {:induction false} InterleavingIsSound(start: nat, schedule: seq<nat>)
    requires start < MODULUS && |schedule| <= MODULUS
    ensures Sound(start, |schedule|, RunThreads(start, schedule))
  {
    if schedule != [] {
      var k := |schedule| - 1;
      InterleavingIsSound(start, schedule[..k]);
      CounterReads(start, k);
    }
  }

  // However the threads interleave, and wherever the counter starts, within 2^64 atomic
  // steps every id returned is non-zero and no id is returned twice.
  lemma IdsAreUniqueUnderConcurrency(start: nat, schedule: seq<nat>)
    requires start < MODULUS && |schedule| <= MODULUS
    ensures var issued := RunThreads(start, schedule).issued;
            && (forall i | 0 <= i < |issued| :: issued[i].1 != 0)
            && (forall i, j | 0 <= i < j < |issued| :: issued[i].1 != issued[j].1)
  {
    InterleavingIsSound(start, schedule);
  }

  // The bound is exact: one thread taking one step more is handed its first id again.
  lemma {:induction false} StepsOfOneThread(k: nat)
    requires 0 < k <= MODULUS
    ensures var s := RunThreads(1, seq(k, _ => 0));
            && |s.issued| >= 1 && s.issued[0] == (0, 1)
            && s.counter == (1 + k) % MODULUS
            && (k < MODULUS ==> s.retrying == {})
  {
    var schedule := seq(k, _ => 0);
    assert schedule[..k - 1] == seq(k - 1, _ => 0);
    if k > 1 {
      StepsOfOneThread(k - 1);
    } else {
      assert RunThreads(1, schedule[..0]) == Shared(1, {}, []);
    }
  }

  lemma OneMoreStepRepeatsAnId()
    ensures exists schedule: seq<nat> ::
              && |schedule| == MODULUS + 1
              && var issued := RunThreads(1, schedule).issued;
                 exists i, j :: 0 <= i < j < |issued| && issued[i].1 == issued[j].1
  {
    var all := seq(MODULUS + 1, _ => 0);
    assert all[..MODULUS] == seq(MODULUS, _ => 0);
    assert seq(MODULUS, _ => 0)[..MODULUS - 1] == seq(MODULUS - 1, _ => 0);
    StepsOfOneThread(MODULUS - 1);
    StepsOfOneThread(MODULUS);
    var s := RunThreads(1, seq(MODULUS, _ => 0));
    var issued := RunThreads(1, all).issued;
    assert issued == s.issued + [(0, 1)];
    assert issued[0].1 == issued[|issued| - 1].1;
  }

  // ---------------------------------------------------------------- the actor's counter

  // The id the actor hands out after `id`: one more, wrapping past zero.
  function ActorSuccessor(id: nat): nat {
    var bumped := (id + 1) % MODULUS;
    if bumped == 0 then 1 else bumped
  }

  // The k-th id the actor hands out, counting from its first id.
  function ActorId(first: nat, k: nat): nat {
    if k == 0 then first else ActorSuccessor(ActorId(first, k - 1))
  }

  const PERIOD: nat := MODULUS - 1

  // On the ids 1 .. 2^64 - 1 the actor's step is an addition modulo that many ids.
  lemma ActorSuccessorCycles(x: nat)
    ensures ActorSuccessor(x % PERIOD + 1) == (x + 1) % PERIOD + 1
  {
    var r := x % PERIOD;
    if r + 1 < PERIOD {
      assert (x + 1) % PERIOD == r + 1;
    } else {
      assert (x + 1) % PERIOD == 0;
    }
  }

  lemma {:induction false} ActorIdInClosedForm(first: nat, k: nat)
    requires 0 < first < MODULUS
    ensures ActorId(first, k) == (first - 1 + k) % PERIOD + 1
  {
    if k == 0 {
      assert (first - 1) % PERIOD == first - 1;
    } else {
      var x := first - 1 + (k - 1);
      ActorIdInClosedForm(first, k - 1);
      assert ActorId(first, k) == ActorSuccessor(x % PERIOD + 1);
      ActorSuccessorCycles(x);
      assert first - 1 + k == x + 1;
    }
  }

  lemma SameResidue(a: nat, b: nat)
    ensures a % PERIOD == b % PERIOD <==> (a - b) % PERIOD == 0
  {
    var q := a / PERIOD - b / PERIOD;
    assert a - b == PERIOD * q + (a % PERIOD - b % PERIOD);
  }

  // The actor's ids are never zero, and two of them agree exactly when a whole number of
  // 2^64 - 1 requests lies between them.
  lemma ActorIdsRepeatWithPeriod(first: nat, i: nat, j: nat)
    requires 0 < first < MODULUS
    ensures 0 < ActorId(first, i) < MODULUS
    ensures ActorId(first, i) == ActorId(first, j) <==> (i - j) % PERIOD == 0
  {
    ActorIdInClosedForm(first, i);
    ActorIdInClosedForm(first, j);
    var a, b := first - 1 + i, first - 1 + j;
    SameResidue(a, b);
    assert a - b == i - j;
  }

  // ---------------------------------------------------------------- sequential use of the generator

  // The k-th id a generator returns when its calls do not overlap.
  function SequentialCounter(start: nat, k: nat): nat {
    if k == 0 then start else Bumped(Drawn(SequentialCounter(start, k - 1)))
  }

  function SequentialId(start: nat, k: nat): nat {
    Drawn(SequentialCounter(start, k))
  }

  // Used sequentially, the atomic generator and the actor's counter issue the same ids.
  lemma {:induction false} GeneratorAgreesWithActor(start: nat, k: nat)
    requires start < MODULUS
    ensures SequentialId(start, k) == ActorId(Drawn(start), k)
    ensures SequentialCounter(start, k) < MODULUS
  {
    if k > 0 {
      GeneratorAgreesWithActor(start, k - 1);
    }
  }

  // ---------------------------------------------------------------- client envelopes

  datatype Command =
    | TerminalInput | ResizePane | SetPaneTitle | SetPaneNoPersist | ReportClientSize | Shutdown
    | CorrelatedCommand(name: string)

  predicate IsFireAndForget(command: Command) {
    match command
    case CorrelatedCommand(_) => false
    case _ => true
  }

  method BuildClientEnvelope(idGen: RequestIdGenerator, command: Command) returns (requestId: nat)
    requires idGen.next < MODULUS
    modifies idGen
    ensures idGen.next < MODULUS
    ensures requestId == 0 <==> IsFireAndForget(command)
    ensures IsFireAndForget(command) ==> idGen.next == old(idGen.next)
    ensures !IsFireAndForget(command) ==> requestId == Drawn(old(idGen.next)) && idGen.next == Bumped(requestId)
  {
    if IsFireAndForget(command) {
      requestId := 0;
    } else {
      requestId := idGen.NextId();
    }
  }

  function CountCorrelated(commands: seq<Command>): nat {
    if commands == [] then 0
    else CountCorrelated(commands[..|commands| - 1]) + (if IsFireAndForget(commands[|commands| - 1]) then 0 else 1)
  }

  // The generator's counter after an envelope has been built for each command.
  function CounterAfter(start: nat, commands: seq<Command>): nat {
    if commands == [] then start
    else
      var counter := CounterAfter(start, commands[..|commands| - 1]);
      if IsFireAndForget(commands[|commands| - 1]) then counter else Bumped(Drawn(counter))
  }

  // Fire-and-forget envelopes take no id: whatever was sent before, a correlated command
  // is numbered by how many correlated commands preceded it, as the actor would number it.
  lemma {:induction false} CorrelatedIdsIgnoreFireAndForget(start: nat, commands: seq<Command>)
    requires start < MODULUS
    ensures CounterAfter(start, commands) == SequentialCounter(start, CountCorrelated(commands))
    ensures Drawn(CounterAfter(start, commands)) == ActorId(Drawn(start), CountCorrelated(commands))
  {
    if commands != [] {
      CorrelatedIdsIgnoreFireAndForget(start, commands[..|commands| - 1]);
    }
    GeneratorAgreesWithActor(start, CountCorrelated(commands));
  }
}
