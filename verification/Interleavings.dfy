/** The main results about the running system: one client, a leader and any number of replicas on a
    network of FIFO channels, in every interleaving of their steps. */
module Interleavings {
  import opened Frames
  import opened Programs
  import opened Network
  import opened Lockstep
  import opened FileTable
  import opened Transfer
  import opened Codes
  import opened S = ServerPrograms
  import opened C = ClientPrograms
  import opened DialogueProofs
  import opened Sync
  import opened SyncDialogue
  import opened SyncTheorems
  import opened Sessions
  import opened Replicas
  import opened ReplicaRuns
  import opened Consistency

  type System = Net<Local, Store>

  /** The replicas' programs: the leader's, each on its own socket. */
  function ReplicaPrograms(st: Store, socket: int, sockets: seq<int>, turns: nat): (qs: seq<ServerProgram>)
    ensures |qs| == |sockets|
    ensures forall r :: 0 <= r < |sockets| ==> qs[r] == CommandLoop(RenameStore(st, socket, sockets[r]), sockets[r], turns)
  {
    seq(|sockets|, r requires 0 <= r < |sockets| => CommandLoop(RenameStore(st, socket, sockets[r]), sockets[r], turns))
  }

  ghost function NoFrames(): (m: imap<(nat, nat), Channel>)
    ensures forall i: nat, j: nat :: (i, j) in m && m[(i, j)] == Channel([], 0)
  {
    imap p: (nat, nat) | p.0 >= 0 :: Channel([], 0)
  }

  /** A client with a program, the leader and its replicas at the server's command read. */
  ghost function Started(c: ClientProgram, st: Store, socket: int, sockets: seq<int>, turns: nat): System {
    var qs := ReplicaPrograms(st, socket, sockets, turns);
    Net([ClientNode(c, 1), ServerNode(CommandLoop(st, socket, turns), 0, ReplicaNumbers(|qs|), Collecting([]))]
        + seq(|qs|, r requires 0 <= r < |qs| => ServerNode(qs[r], 1, [], Collecting([]))), NoFrames())
  }

  lemma StartedStands(c: ClientProgram, st: Store, socket: int, sockets: seq<int>, turns: nat)
    ensures Standing(Started(c, st, socket, sockets, turns), c, CommandLoop(st, socket, turns), Collecting([]),
      ReplicaPrograms(st, socket, sockets, turns))
    ensures AllCopied(Started(c, st, socket, sockets, turns), |sockets|)
  {
    hide CommandLoop, ReplicaNumbers;
    var net, qs := Started(c, st, socket, sockets, turns), ReplicaPrograms(st, socket, sockets, turns);
    forall r | 0 <= r < |qs| ensures ReplicaAt(net, r, qs[r]) {
    }
  }

  ghost function AnyStores(): (f: (Store, Store) -> bool)
    ensures forall s, t :: f(s, t)
  {
    (s, t) => true
  }

  lemma ReplicasAlike(st: Store, socket: int, sockets: seq<int>, turns: nat, n: nat)
    requires socket > 0 && forall b :: b in sockets ==> b > 0
    ensures AllAlike(n, CommandLoop(st, socket, turns), ReplicaPrograms(st, socket, sockets, turns), AnyStores())
  {
    hide CommandLoop, Alike;
    var qs := ReplicaPrograms(st, socket, sockets, turns);
    forall r | 0 <= r < |qs| ensures Alike(n, CommandLoop(st, socket, turns), qs[r], AnyStores()) {
      assert sockets[r] in sockets;
      CommandLoopAlike(n, st, turns, socket, sockets[r]);
      AlikeWeaken(n, CommandLoop(st, socket, turns), qs[r], Same(socket, sockets[r]), AnyStores());
    }
  }

  /** The end of a session: the client has halted, the leader and every replica are back at the
      command read, nobody can move, every replica has been sent exactly the client's frames and has had
      one frame consumed for each the client got, and its store is the leader's up to its own socket. */
  ghost predicate SessionEnd(end: System, me: Local, st: Store, socket: int, sockets: seq<int>, turns: nat) {
    exists phase: Phase :: phase.left == []
      && Standing(end, Halt(me), CommandLoop(st, socket, turns), phase, ReplicaPrograms(st, socket, sockets, turns))
      && AllCopied(end, |sockets|) && Stuck(end)
  }

  lemma RenamedPlain(st: Store, a: int, b: int)
    requires PlainTable(st.files)
    ensures PlainTable(RenameStore(st, a, b).files)
  {
    SameNamesPlain(st.files, RenameStore(st, a, b).files);
  }

  lemma ReplicaEnds(me: Local, st: Store, socket: int, b: int, cmds: seq<Command>, turns: nat, n: nat,
        c': ClientProgram, q: ServerProgram)
    requires PlainTable(st.files) && AllServed(me, st, socket, cmds) && TotalTurns(me, st, socket, cmds) <= turns
    requires Shakes(Session(me, cmds), CommandLoop(RenameStore(st, socket, b), b, turns), n, c', q) && c'.Halt?
    ensures q == CommandLoop(RenameStore(AfterAll(me, st, socket, cmds).1, socket, b), b, turns - TotalTurns(me, st, socket, cmds))
  {
    hide *;
    var rt := RenameStore(st, socket, b);
    RenamedPlain(st, socket, b);
    TablesStayEqual(me, st, cmds, socket, b);
    var m := SessionRuns(me, rt, b, cmds, turns);
    OneEnd(Session(me, cmds), CommandLoop(rt, b, turns), n, c', q,
      m, Halt(AfterAll(me, rt, b, cmds).0), CommandLoop(AfterAll(me, rt, b, cmds).1, b, turns - TotalTurns(me, rt, b,
        cmds)));
  }

  /** For every list of commands of one client and any number of replicas: every schedule of the
      system can be continued to the same end after the same total number of steps, so no
      interleaving deadlocks or runs for ever. There the client's and the leader's stores
      are what the commands make of them one after the other, and the replicas are in lock-step. */
  lemma EverySchedule(me: Local, st: Store, cmds: seq<Command>, socket: int, sockets: seq<int>, turns: nat)
      returns (end: System, total: nat)
    requires PlainTable(st.files) && AllServed(me, st, socket, cmds) && TotalTurns(me, st, socket, cmds) <= turns
    requires socket > 0 && forall b :: b in sockets ==> b > 0
    ensures SessionEnd(end, AfterAll(me, st, socket, cmds).0, AfterAll(me, st, socket, cmds).1, socket, sockets,
      turns - TotalTurns(me, st, socket, cmds))
    ensures AlwaysEnds(Started(Session(me, cmds), st, socket, sockets, turns), end, total)
  {
    hide *;
    var c, s, qs := Session(me, cmds), CommandLoop(st, socket, turns), ReplicaPrograms(st, socket, sockets, turns);
    var me', st', left := AfterAll(me, st, socket, cmds).0, AfterAll(me, st, socket, cmds).1, turns - TotalTurns(me,
      st, socket, cmds);
    var net := Started(c, st, socket, sockets, turns);
    StartedStands(c, st, socket, sockets, turns);
    var n := SessionRuns(me, st, socket, cmds, turns);
    ReplicasAlike(st, socket, sockets, turns, n + 1);
    AtCommandRead(me', st', socket, left);
    var ps, phase;
    end, total, ps, phase := LockStep(net, c, s, qs, n, Halt(me'), CommandLoop(st', socket, left), 1, AnyStores());
    forall r | 0 <= r < |sockets| ensures ps[r] == CommandLoop(RenameStore(st', socket, sockets[r]), sockets[r], left) {
      ReplicaEnds(me, st, socket, sockets[r], cmds, turns, n, Halt(me'), ps[r]);
    }
    assert ps == ReplicaPrograms(st', socket, sockets, left);
    EndIs(end, me', st', socket, sockets, left, phase);
  }

  lemma EndIs(end: System, me: Local, st: Store, socket: int, sockets: seq<int>, turns: nat, phase: Phase)
    requires Standing(end, Halt(me), CommandLoop(st, socket, turns), phase, ReplicaPrograms(st, socket, sockets, turns))
    requires phase.left == [] && AllCopied(end, |sockets|) && Stuck(end)
    ensures SessionEnd(end, me, st, socket, sockets, turns)
  {
    hide Standing, AllCopied, Stuck, CommandLoop;
  }

  lemma AtCommandRead(me: Local, st: Store, socket: int, turns: nat)
    ensures Quiet<Local, Store>(Halt(me), CommandLoop(st, socket, turns))
  {
  }

  /** Deadlock freedom, exactly: a session finishes, in every schedule and with any number of
      replicas, if and only if the server's disk has every file that the session asks for, by the time
      it asks. If not, every schedule ends with the client, the leader and the replicas all waiting. */
  lemma SessionFinishesIff(me: Local, st: Store, cmds: seq<Command>, socket: int, sockets: seq<int>, turns: nat)
      returns (end: System, total: nat, client: ClientProgram)
    requires PlainTable(st.files) && TotalTurns(me, st, socket, cmds) <= turns
    requires socket > 0 && forall b :: b in sockets ==> b > 0
    ensures AlwaysEnds(Started(Session(me, cmds), st, socket, sockets, turns), end, total)
    ensures end.Valid() && Stuck(end) && ClientIs(end, client)
    ensures client.Halt? <==> AllServed(me, st, socket, cmds)
  {
    hide *;
    var c, s, qs := Session(me, cmds), CommandLoop(st, socket, turns), ReplicaPrograms(st, socket, sockets, turns);
    if AllServed(me, st, socket, cmds) {
      end, total := EverySchedule(me, st, cmds, socket, sockets, turns);
      client := Halt(AfterAll(me, st, socket, cmds).0);
      EndHasClient(end, AfterAll(me, st, socket, cmds).0, AfterAll(me, st, socket, cmds).1, socket, sockets,
        turns - TotalTurns(me, st, socket, cmds));
    } else {
      StartedStands(c, st, socket, sockets, turns);
      var n, c', s' := SessionStops(me, st, socket, cmds, turns);
      ReplicasAlike(st, socket, sockets, turns, n + 1);
      end, total, client := LockStepStops(Started(c, st, socket, sockets, turns), c, s, qs, n, c', s', AnyStores());
    }
  }

  lemma EndHasClient(end: System, me: Local, st: Store, socket: int, sockets: seq<int>, turns: nat)
    requires SessionEnd(end, me, st, socket, sockets, turns)
    ensures end.Valid() && Stuck(end) && ClientIs(end, Halt(me))
  {
    hide Stuck, AllCopied, CommandLoop;
  }

  lemma OneCommand(me: Local, st: Store, socket: int, cmd: Command)
    requires Served(me, st, cmd)
    ensures AllServed(me, st, socket, [cmd]) && TotalTurns(me, st, socket, [cmd]) == Turns(me, st, cmd)
    ensures AfterAll(me, st, socket, [cmd]) == (ClientAfter(me, st, socket, cmd), ServerAfter(me, st, socket, cmd))
  {
    assert [cmd][1..] == [];
    hide ClientAfter, ServerAfter, Served, Turns;
    FirstCommand(me, st, socket, [cmd]);
    var me1, st1 := ClientAfter(me, st, socket, cmd), ServerAfter(me, st, socket, cmd);
    assert AllServed(me1, st1, socket, []) && TotalTurns(me1, st1, socket, []) == 0 && AfterAll(me1, st1, socket,
      []) == (me1, st1);
  }

  ghost predicate NewestOnBothSides(me: Local, st: Store, m: Local, v: Store, n: string)
    requires Consistent(st) && n in Union(me, st)
  {
    Has(v.files, n) && n in m.dir && n in v.disk && m.dir[n].content == v.disk[n] == Newest(me, st, n)
  }

  /** Exactly the names of the union are in the table, and each is on both sides with its newest content. */
  ghost predicate NewestEverywhere(me: Local, st: Store, m: Local, v: Store) {
    Consistent(st)
    && (forall n :: n in Union(me, st) ==> NewestOnBothSides(me, st, m, v, n))
    && (forall n :: Has(v.files, n) ==> n in Union(me, st))
  }

  /** One sync of the running system, replicas and all: every schedule ends, and with at most twenty names and equal
      files where ages are equal, client, leader and replicas then hold the same names with the newest contents. */
  lemma SyncInEverySchedule(me: Local, st: Store, listing: seq<string>, clock: string -> int,
      socket: int, sockets: seq<int>, turns: nat) returns (end: System, total: nat, m: Local, v: Store, left: nat)
    requires Syncable(me, st, listing, clock) && |Union(me, st)| <= MAXFILES && SameAgeSameFile(me, st)
    requires 1 + NewCount(SyncedClient(me, st, clock), listing) <= turns
    requires socket > 0 && forall b :: b in sockets ==> b > 0
    ensures AlwaysEnds(Started(Session(me, [Synchronise(listing, clock)]), st, socket, sockets, turns), end, total)
    ensures SessionEnd(end, m, v, socket, sockets, left)
    ensures NewestEverywhere(me, st, m, v)
  {
    hide *;
    var cmd := Synchronise(listing, clock);
    SyncLeaves(me, st, listing, clock, socket, turns);
    m, v, left := ClientAfter(me, st, socket, cmd), ServerAfter(me, st, socket, cmd), turns - Turns(me, st, cmd);
    OneCommand(me, st, socket, cmd);
    end, total := EverySchedule(me, st, [cmd], socket, sockets, turns);
  }

  lemma SyncLeaves(me: Local, st: Store, listing: seq<string>, clock: string -> int, socket: int, turns: nat)
    requires Syncable(me, st, listing, clock) && |Union(me, st)| <= MAXFILES && SameAgeSameFile(me, st)
    requires 1 + NewCount(SyncedClient(me, st, clock), listing) <= turns
    ensures var cmd := Synchronise(listing, clock);
      PlainTable(st.files) && Served(me, st, cmd) && Turns(me, st, cmd) <= turns
      && NewestEverywhere(me, st, ClientAfter(me, st, socket, cmd), ServerAfter(me, st, socket, cmd))
  {
    var m, v := SyncedClient(me, st, clock), SyncedServer(me, st, listing, clock);
    hide AfterRounds, AfterNew, NewCount, Outcome;
    ConsistentIsStocked(me, st);
    ConsistentIsPlain(st);
    forall n | n in Union(me, st) ensures NewestOnBothSides(me, st, m, v, n) {
      NewestWins(me, st, listing, clock, n);
    }
    forall n | Has(v.files, n) ensures n in Union(me, st) { NothingElse(me, st, listing, clock, n); }
  }

  lemma NothingElse(me: Local, st: Store, listing: seq<string>, clock: string -> int, n: string)
    requires Syncable(me, st, listing, clock) && Has(SyncedServer(me, st, listing, clock).files, n)
    ensures n in Union(me, st)
  {
    SyncOutcome(me, st, listing, clock, n);
    NamesAreFound(st.files, n);
  }
}
