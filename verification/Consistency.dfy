/** The server's table against its disk, over whole sessions: which commands keep them in agreement,
    and what comes of it when one does not. */
module Consistency {
  import opened Frames
  import opened Programs
  import opened FileTable
  import opened UserRecord
  import opened Transfer
  import opened Codes
  import opened S = ServerPrograms
  import opened C = ClientPrograms
  import opened Sync
  import opened SyncDialogue
  import opened Sessions

  /** `deleteFile` takes the file off the disk, but a table with no vacant slot keeps its entry. */
  ghost predicate LeavesEntry(st: Store, cmd: Command) {
    cmd.Delete? && Full(st.files) && Has(st.files, Base(cmd.path)) && Base(cmd.path) in st.disk
  }

  lemma {:induction false} RoundsKeepConsistent(me: Local, st: Store, i: nat, count: nat, clock: string -> int)
    requires Consistent(st) && i <= count == Count(st.files)
    ensures Consistent(AfterRounds(me, st, i, count, clock).1)
    decreases count - i
  {
    hide Consistent, PlainTable, ClientAfterRound, Received;
    if i < count && (Choose(me, st.files[i]) == CP_CLIENT_GET_FILE ==> st.files[i].name in st.disk) {
      ConsistentIsPlain(st);
      RoundKeepsStock(me, st, i, count, clock);
      NamedBelowCount(st, i);
      if Choose(me, st.files[i]) == CP_CLIENT_SEND_FILE { ReceivedConsistent(st, st.files[i].name, me.dir[st.files[i].name]); }
      RoundsKeepConsistent(ClientAfterRound(me, st, i, clock), ServerAfterRound(me, st, i), i + 1, count, clock);
    }
  }

  lemma {:induction false} NewKeepConsistent(me: Local, st: Store, listing: seq<string>)
    requires Consistent(st)
    ensures Consistent(AfterNew(me, st, listing))
    decreases listing
  {
    hide Consistent, Received;
    if listing != [] {
      if IsNew(me, listing[0]) {
        ReceivedConsistent(st, listing[0], me.dir[listing[0]]);
        NewKeepConsistent(me, Received(st, listing[0], me.dir[listing[0]]), listing[1..]);
      } else {
        NewKeepConsistent(me, st, listing[1..]);
      }
    }
  }

  lemma ConsistentIsPlain(st: Store)
    requires Consistent(st)
    ensures PlainTable(st.files)
  {
  }

  lemma LocksKeepConsistent(st: Store, u: Table)
    requires Consistent(st) && SameNames(st.files, u)
    ensures Consistent(st.(files := u))
  {
    NamesDecide(st.files, u, "");
    forall f | f in u && f.name != "" ensures PlainName(f.name) && f.name in st.disk {
      var j :| 0 <= j < MAXFILES && u[j] == f;
      assert st.files[j] in st.files;
    }
  }

  lemma DeleteKeepsConsistentIff(st: Store, name: string)
    requires Consistent(st) && '/' !in name
    ensures Consistent(Deleted(st, name)) <==> !(Full(st.files) && Has(st.files, name) && name in st.disk)
  {
    if name in st.disk {
      var t, u := st.files, Remove(st.files, name);
      RemoveKeepsPlain(t, name);
      forall f | f in u && f.name != "" && !(Full(t) && Has(t, name)) ensures f.name in st.disk && f.name != name {
        var j :| 0 <= j < MAXFILES && u[j] == f;
        assert t[j] in t;
        if Has(t, name) {
          RemoveForgets(t, name);
        } else if Find(t, name) < 0 {
          assert u == t;
        }
      }
      if Full(t) && Has(t, name) {
        assert u == t && t[Find(t, name)] in t;
      }
    }
  }

  lemma UploadIsReceived(st: Store, path: string, file: LocalFile)
    ensures Received(st, path, file) == Uploaded(st, Base(path), Delivered(file.content), file.mtime, Wrap(|file.content|))
  {
  }

  /** Every command keeps table and disk in agreement, except exactly a deletion that takes a file
      off the disk while the table is full. */
  lemma CommandKeepsConsistentIff(me: Local, st: Store, socket: int, cmd: Command)
    requires Consistent(st)
    ensures Consistent(ServerAfter(me, st, socket, cmd)) <==> !LeavesEntry(st, cmd)
  {
    hide Consistent, Find, AfterRounds, AfterNew, Deleted, Received, Uploaded;
    match cmd
    case Upload(path, file) =>
      if Sends(cmd) { ReceivedConsistent(st, path, file.value); UploadIsReceived(st, path, file.value); }
    case Download(_) =>
    case Delete(path) => DeleteKeepsConsistentIff(st, Base(path));
    case LockIt(path) => LocksKeepConsistent(st, LockIn(st.files, socket, Base(path)));
    case UnlockIt(path) => LocksKeepConsistent(st, UnlockIn(st.files, socket, Base(path)));
    case Synchronise(listing, clock) =>
      RoundsKeepConsistent(Start(me), st, 0, Count(st.files), clock);
      NewKeepConsistent(SyncedClient(me, st, clock), AfterFirstLoop(me, st, clock).1, listing);
  }

  lemma ConsistentIsStocked(me: Local, st: Store)
    requires Consistent(st)
    ensures SyncStocked(me, st)
  {
    forall j | 0 <= j < Count(st.files) ensures st.files[j].name in st.disk { NamedBelowCount(st, j); }
  }

  /** No download of a file that is not there, and no deletion from a full table. */
  ghost predicate Careful(me: Local, st: Store, socket: int, cmds: seq<Command>)
    decreases cmds
  {
    cmds == [] ||
    (&& !LeavesEntry(st, cmds[0])
     && (cmds[0].Download? && Sends(cmds[0]) ==> Base(cmds[0].path) in st.disk)
     && Careful(ClientAfter(me, st, socket, cmds[0]), ServerAfter(me, st, socket, cmds[0]), socket, cmds[1..]))
  }

  /** From a table that agrees with the disk, a careful session always has what it asks for, and
      leaves table and disk in agreement. */
  lemma {:induction false} CarefulIsServed(me: Local, st: Store, socket: int, cmds: seq<Command>)
    requires Consistent(st) && Careful(me, st, socket, cmds)
    ensures AllServed(me, st, socket, cmds) && Consistent(AfterAll(me, st, socket, cmds).1)
    decreases cmds
  {
    hide Consistent, ClientAfter, ServerAfter, LeavesEntry, SyncStocked;
    if cmds != [] {
      ConsistentIsStocked(me, st);
      CommandKeepsConsistentIff(me, st, socket, cmds[0]);
      CarefulIsServed(ClientAfter(me, st, socket, cmds[0]), ServerAfter(me, st, socket, cmds[0]), socket, cmds[1..]);
    }
  }

  /** A deletion from a full table makes the next sync ask for a file that is gone, unless the
      client's own copy is as new. By `SessionFinishesIff` the session then deadlocks. */
  lemma DeleteThenSyncIff(me: Local, st: Store, socket: int, path: string, listing: seq<string>, clock: string -> int)
    requires Consistent(st)
    ensures AllServed(me, st, socket, [Delete(path), Synchronise(listing, clock)]) <==>
      !(LeavesEntry(st, Delete(path)) && Choice(me.dir, Base(path), TimeOf(st, Base(path))) == CP_CLIENT_GET_FILE)
  {
    var name, cmds := Base(path), [Delete(path), Synchronise(listing, clock)];
    var v := ServerAfter(me, st, socket, cmds[0]);
    assert cmds[1..] == [Synchronise(listing, clock)] && cmds[1..][1..] == [];
    FirstCommand(me, st, socket, cmds);
    FirstCommand(me, v, socket, cmds[1..]);
    assert AllServed(me, st, socket, cmds) <==> SyncStocked(me, v);
    hide AllServed, Consistent;
    CommandKeepsConsistentIff(me, st, socket, cmds[0]);
    if LeavesEntry(st, cmds[0]) {
      KeptEntryAsked(me, st, name);
    } else {
      ConsistentIsStocked(me, v);
    }
  }

  lemma KeptEntryAsked(me: Local, st: Store, name: string)
    requires Consistent(st) && Full(st.files) && Has(st.files, name) && name in st.disk
    ensures SyncStocked(me, Deleted(st, name)) <==> Choice(me.dir, name, TimeOf(st, name)) != CP_CLIENT_GET_FILE
  {
    var v, k := Deleted(st, name), Find(st.files, name);
    assert '/' !in name by { assert st.files[k] in st.files; }
    assert v.files == st.files && Base(name) == name;
    CountIsPrefix(st.files, MAXFILES);
    forall j | 0 <= j < MAXFILES && j != k ensures st.files[j].name in v.disk {
      NamedBelowCount(st, j);
    }
    if SyncStocked(me, v) { assert Choose(me, v.files[k]) == Choice(me.dir, name, TimeOf(st, name)); }
  }
}
