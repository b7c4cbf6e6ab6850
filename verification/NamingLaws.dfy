// Who names a workspace: reconciling the client's name with the daemon's over runs of
// snapshots, renames and repairs.
module NamingLaws {
  import opened WindowSpec

  // ---------------------------------------------------------------- the client over snapshots

  function AdoptAll(ws: Workspace, snapshots: seq<Snapshot>): Workspace {
    if snapshots == [] then ws
    else AdoptSnapshotName(AdoptAll(ws, snapshots[..|snapshots| - 1]), snapshots[|snapshots| - 1]).0
  }

  // Over any snapshots the user-renamed mark never falls, and a name the user chose gives
  // way only to another name a user chose.
  lemma {:induction false} UserNamesYieldOnlyToUserNames(ws: Workspace, snapshots: seq<Snapshot>)
    requires ws.userRenamed
    ensures var after := AdoptAll(ws, snapshots);
            && after.userRenamed
            && (after.name == ws.name || exists s :: s in snapshots && s.userRenamed && s.name == after.name)
            && after == ws.(name := after.name)
  {
    if snapshots != [] {
      var n := |snapshots| - 1;
      UserNamesYieldOnlyToUserNames(ws, snapshots[..n]);
      assert forall s :: s in snapshots[..n] ==> s in snapshots;
      assert snapshots[n] in snapshots;
    }
  }

  // ---------------------------------------------------------------- the daemon

  // What the daemon records of a workspace's name.
  datatype Record = Record(name: string, userRenamed: bool) {
    // An explicit rename.
    function Renamed(newName: string): Record { Record(newName, true) }

    // A name derived from a working directory: a user's choice stands.
    function AutoNamed(newName: string): Record {
      if userRenamed || newName == "" then this else Record(newName, false)
    }

    function Says(snapshot: Snapshot): Snapshot {
      snapshot.(name := name, userRenamed := userRenamed)
    }
  }

  // ---------------------------------------------------------------- both sides

  // A client and a daemon with repairs and renames on their way from one to the other, in order.
  datatype System = System(client: Workspace, daemon: Record, repairs: seq<string>)

  datatype Move =
    | AutoName(name: string)       // the daemon's shell changed directory
    | RenameElsewhere(name: string) // another client's user renamed the workspace
    | RenameHere(name: string)     // this client's user did, and the daemon is sent the name
    | Attach(snapshot: Snapshot)   // this client reads the daemon's record
    | DeliverRepair                // the oldest repair reaches the daemon

  function MoveOnce(s: System, move: Move): System {
    match move
    case AutoName(name) => s.(daemon := s.daemon.AutoNamed(name))
    case RenameElsewhere(name) => s.(daemon := s.daemon.Renamed(name))
    case RenameHere(name) =>
      s.(client := s.client.(name := name, userRenamed := true),
         repairs := s.repairs + (if s.client.managed && s.client.runtimeId.Some? then [name] else []))
    case Attach(snapshot) =>
      var (client, repair) := AdoptSnapshotName(s.client, s.daemon.Says(snapshot));
      s.(client := client, repairs := s.repairs + (if repair.Some? then [repair.value.name] else []))
    case DeliverRepair =>
      if s.repairs == [] then s
      else s.(daemon := s.daemon.Renamed(s.repairs[0]), repairs := s.repairs[1..])
  }

  function Moves(s: System, moves: seq<Move>): System {
    if moves == [] then s
    else MoveOnce(Moves(s, moves[..|moves| - 1]), moves[|moves| - 1])
  }

  function NamesChosen(moves: seq<Move>): set<string> {
    set m | m in moves && (m.RenameElsewhere? || m.RenameHere?) :: m.name
  }

  // The names users have given so far: on this client, on the daemon, on their way, or elsewhere.
  predicate UserChosen(start: System, moves: seq<Move>, name: string) {
    || (start.client.userRenamed && name == start.client.name)
    || (start.daemon.userRenamed && name == start.daemon.name)
    || name in start.repairs
    || name in NamesChosen(moves)
  }

  // No mark has fallen, and every marked name, like every repair on its way, was chosen.
  predicate AllChosen(start: System, moves: seq<Move>, s: System) {
    && (start.client.userRenamed ==> s.client.userRenamed)
    && (start.daemon.userRenamed ==> s.daemon.userRenamed)
    && (s.client.userRenamed ==> UserChosen(start, moves, s.client.name))
    && (s.daemon.userRenamed ==> UserChosen(start, moves, s.daemon.name))
    && (forall r | r in s.repairs :: UserChosen(start, moves, r))
  }

  lemma AllChosenGrows(start: System, moves: seq<Move>, n: nat, s: System)
    requires n <= |moves| && AllChosen(start, moves[..n], s)
    ensures AllChosen(start, moves, s)
  {
    assert forall m | m in moves[..n] :: m in moves;
    assert NamesChosen(moves[..n]) <= NamesChosen(moves);
  }

  lemma MoveKeepsChosen(start: System, moves: seq<Move>, s: System, move: Move)
    requires AllChosen(start, moves, s) && move in moves
    ensures AllChosen(start, moves, MoveOnce(s, move))
  {
    assert forall r | r in MoveOnce(s, move).repairs ::
        r in s.repairs || (r == s.client.name && s.client.userRenamed) || (move.RenameHere? && r == move.name);
  }

  // Over any run of both sides, no mark falls and every marked name, like every repair on
  // its way, was chosen by some user.
  lemma {:induction false} MarkedNamesWereChosen(start: System, moves: seq<Move>)
    ensures AllChosen(start, moves, Moves(start, moves))
  {
    if moves != [] {
      var n := |moves| - 1;
      MarkedNamesWereChosen(start, moves[..n]);
      AllChosenGrows(start, moves, n, Moves(start, moves[..n]));
      MoveKeepsChosen(start, moves, Moves(start, moves[..n]), moves[n]);
    }
  }

  // Every repair on its way is delivered.
  function DeliverAll(s: System): System
    decreases |s.repairs|
  {
    if s.repairs == [] then s else DeliverAll(MoveOnce(s, DeliverRepair))
  }

  lemma {:induction false} DeliveryMarksTheDaemon(s: System)
    ensures var after := DeliverAll(s);
            && after.repairs == [] && after.client == s.client
            && (s.repairs != [] ==> after.daemon == Record(s.repairs[|s.repairs| - 1], true))
            && (s.repairs == [] ==> after == s)
    decreases |s.repairs|
  {
    if s.repairs != [] {
      DeliveryMarksTheDaemon(MoveOnce(s, DeliverRepair));
    }
  }

  // Both sides agree and no repair is on its way.
  predicate Settled(s: System) {
    && s.repairs == []
    && s.client.name == s.daemon.name && s.client.userRenamed == s.daemon.userRenamed
  }

  // Attaching, letting the repairs arrive, and attaching again.
  function AttachRepairAttach(s: System, first: Snapshot, second: Snapshot): System {
    MoveOnce(DeliverAll(MoveOnce(s, Attach(first))), Attach(second))
  }

  // Whether it settles, told from the state before it. A daemon with a name either is owed
  // a repair at the first attach, or must not be left with an empty name by the repairs
  // already on their way. A daemon without one is not read at the first attach: it must
  // agree already, or get a name, or an agreeing empty one, from the last repair.
  predicate WillSettle(s: System) {
    var last := if s.repairs == [] then "" else s.repairs[|s.repairs| - 1];
    if s.daemon.name != "" then
      (s.client.userRenamed && !s.daemon.userRenamed) || s.repairs == [] || last != ""
    else if s.repairs == [] then s.client.name == "" && s.client.userRenamed == s.daemon.userRenamed
    else last != "" || (s.client.name == "" && s.client.userRenamed)
  }

  // For a workspace bound to a runtime, from any state: both sides agree at the end, with
  // no repair left, exactly in these cases.
  lemma AttachRepairAttachConverges(s: System, first: Snapshot, second: Snapshot)
    requires s.client.runtimeId.Some?
    ensures Settled(AttachRepairAttach(s, first, second)) <==> WillSettle(s)
  {
    DeliveryMarksTheDaemon(MoveOnce(s, Attach(first)));
  }

  // A daemon record without a name is ignored, so an unnamed daemon is never repaired:
  // the client keeps a name the daemon does not have.
  lemma UnnamedDaemonIsNotRepaired(s: System, snapshot: Snapshot)
    requires s.daemon.name == ""
    ensures MoveOnce(s, Attach(snapshot)) == s
  {
    assert s.repairs + [] == s.repairs;
  }
}
