/** What a session leaves on a replica: the leader's store, but for the session's socket. */
module ReplicaRuns {
  import opened Frames
  import opened Programs
  import opened FileTable
  import opened UserRecord
  import opened Transfer
  import opened Codes
  import opened S = ServerPrograms
  import opened C = ClientPrograms
  import opened Sync
  import opened SyncDialogue
  import opened Sessions
  import opened Replicas

  lemma RenamedRound(me: Local, st: Store, i: nat, clock: string -> int, a: int, b: int)
    requires i < MAXFILES && (Choose(me, st.files[i]) == CP_CLIENT_GET_FILE ==> st.files[i].name in st.disk)
    ensures ClientAfterRound(me, RenameStore(st, a, b), i, clock) == ClientAfterRound(me, st, i, clock)
    ensures ServerAfterRound(me, RenameStore(st, a, b), i) == RenameStore(ServerAfterRound(me, st, i), a, b)
  {
    var name := st.files[i].name;
    if Choose(me, st.files[i]) == CP_CLIENT_SEND_FILE { RenamedReceived(st, name, me.dir[name], a, b); }
  }

  lemma RenamedReceived(st: Store, name: string, file: LocalFile, a: int, b: int)
    ensures Received(RenameStore(st, a, b), name, file) == RenameStore(Received(st, name, file), a, b)
  {
    RenamedUploaded(st, Base(name), Delivered(file.content), file.mtime, Wrap(|file.content|), a, b);
  }

  lemma {:induction false} RenamedRounds(me: Local, st: Store, i: nat, count: nat, clock: string -> int, a: int, b: int)
    requires count <= MAXFILES
    ensures AfterRounds(me, RenameStore(st, a, b), i, count, clock).0 == AfterRounds(me, st, i, count, clock).0
    ensures AfterRounds(me, RenameStore(st, a, b), i, count, clock).1 == RenameStore(AfterRounds(me, st, i, count, clock).1, a, b)
    decreases count - i
  {
    hide ClientAfterRound, ServerAfterRound;
    if i < count && (Choose(me, st.files[i]) == CP_CLIENT_GET_FILE ==> st.files[i].name in st.disk) {
      RenamedRound(me, st, i, clock, a, b);
      RenamedRounds(ClientAfterRound(me, st, i, clock), ServerAfterRound(me, st, i), i + 1, count, clock, a, b);
    }
  }

  lemma {:induction false} RenamedNew(me: Local, st: Store, listing: seq<string>, a: int, b: int)
    ensures AfterNew(me, RenameStore(st, a, b), listing) == RenameStore(AfterNew(me, st, listing), a, b)
    decreases listing
  {
    hide Received, RenameStore;
    if listing != [] {
      if IsNew(me, listing[0]) {
        RenamedReceived(st, listing[0], me.dir[listing[0]], a, b);
        RenamedNew(me, Received(st, listing[0], me.dir[listing[0]]), listing[1..], a, b);
      } else {
        RenamedNew(me, st, listing[1..], a, b);
      }
    }
  }

  lemma RenamedSync(me: Local, st: Store, listing: seq<string>, clock: string -> int, a: int, b: int)
    ensures SyncedClient(me, RenameStore(st, a, b), clock) == SyncedClient(me, st, clock)
    ensures SyncedServer(me, RenameStore(st, a, b), listing, clock) == RenameStore(SyncedServer(me, st, listing, clock), a, b)
  {
    RenamedCount(st.files, a, b, MAXFILES);
    hide AfterRounds, AfterNew;
    RenamedRounds(Start(me), st, 0, Count(st.files), clock, a, b);
    RenamedNew(SyncedClient(me, st, clock), AfterFirstLoop(me, st, clock).1, listing, a, b);
  }

  /** A command does to the client what it would do with the replica serving it, and to the replica
      what it does to the leader. */
  lemma RenamedCommand(me: Local, st: Store, cmd: Command, a: int, b: int)
    ensures ClientAfter(me, RenameStore(st, a, b), b, cmd) == ClientAfter(me, st, a, cmd)
    ensures ServerAfter(me, RenameStore(st, a, b), b, cmd) == RenameStore(ServerAfter(me, st, a, cmd), a, b)
    ensures Turns(me, RenameStore(st, a, b), cmd) == Turns(me, st, cmd)
  {
    hide SyncedClient, SyncedServer, LockIn, UnlockIn, LockAnswer, UnlockAnswer, Uploaded, Remove, RenameTable;
    match cmd
    case Upload(path, file) =>
      if Sends(cmd) {
        RenamedUploaded(st, Base(path), Delivered(file.value.content), file.value.mtime, Wrap(|file.value.content|),
          a, b);
      }
    case Download(_) =>
    case Delete(path) => RenamedUpdates(st.files, Base(Base(path)), 0, 0, a, b);
    case LockIt(path) => RenamedLock(st.files, Base(path), a, b);
    case UnlockIt(path) => RenamedLock(st.files, Base(path), a, b);
    case Synchronise(listing, clock) => RenamedSync(me, st, listing, clock, a, b);
  }

  lemma RenamedStocked(me: Local, st: Store, a: int, b: int)
    ensures SyncStocked(me, RenameStore(st, a, b)) <==> SyncStocked(me, st)
  {
    RenamedTableCount(st, a, b);
  }

  /** Tables that start equal stay equal, with the lock queues equal up to the session's socket,
      over any list of commands. */
  lemma {:induction false} TablesStayEqual(me: Local, st: Store, cmds: seq<Command>, a: int, b: int)
    ensures AfterAll(me, RenameStore(st, a, b), b, cmds).0 == AfterAll(me, st, a, cmds).0
    ensures AfterAll(me, RenameStore(st, a, b), b, cmds).1 == RenameStore(AfterAll(me, st, a, cmds).1, a, b)
    ensures TotalTurns(me, RenameStore(st, a, b), b, cmds) == TotalTurns(me, st, a, cmds)
    ensures AllServed(me, RenameStore(st, a, b), b, cmds) <==> AllServed(me, st, a, cmds)
    decreases cmds
  {
    hide ClientAfter, ServerAfter, Turns, RenameTable, SyncStocked;
    if cmds != [] {
      RenamedCommand(me, st, cmds[0], a, b);
      RenamedStocked(me, st, a, b);
      TablesStayEqual(ClientAfter(me, st, a, cmds[0]), ServerAfter(me, st, a, cmds[0]), cmds[1..], a, b);
    }
  }
}
