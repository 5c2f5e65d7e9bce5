/** Whole sessions: any list of commands of one client against the server's command loop, and what
    becomes of it in every interleaving. */
module Sessions {
  import opened Frames
  import opened Programs
  import opened Network
  import opened Lockstep
  import opened FileTable
  import opened LockQueue
  import opened UserRecord
  import opened Transfer
  import opened Codes
  import opened S = ServerPrograms
  import opened C = ClientPrograms
  import opened DialogueProofs
  import opened Sync
  import opened SyncDialogue

  datatype Command =
    | Upload(path: string, file: Option<LocalFile>)
    | Download(path: string)
    | Delete(path: string)
    | LockIt(path: string)
    | UnlockIt(path: string)
    | Synchronise(listing: seq<string>, clock: string -> int)

  function Fetched(me: Local, path: string, got: Option<seq<byte>>): Local {
    if got.None? then me else me.(cwd := me.cwd[path := got.value])
  }

  function KeepDownload(me: Local, path: string, rest: seq<Command>): (f: Option<seq<byte>> -> ClientProgram)
    ensures forall got :: f(got) == Session(Fetched(me, path, got), rest)
    decreases rest, 2
  {
    got => Session(Fetched(me, path, got), rest)
  }

  function KeepLock(me: Local, rest: seq<Command>): (f: int -> ClientProgram)
    ensures forall r :: f(r) == Session(me.(locks := me.locks + [r]), rest)
    decreases rest, 2
  {
    r => Session(me.(locks := me.locks + [r]), rest)
  }

  function KeepSync(rest: seq<Command>): (f: Local -> ClientProgram)
    ensures forall me :: f(me) == Session(me, rest)
    decreases rest, 2
  {
    me => Session(me, rest)
  }

  /** The client works through its commands, each dialogue whole. */
  function Session(me: Local, cmds: seq<Command>): ClientProgram
    decreases cmds, 1
  {
    if cmds == [] then Halt(me)
    else
      var rest := cmds[1..];
      match cmds[0]
      case Upload(path, file) => C.SendFile(path, file, Session(me, rest))
      case Download(path) => GetFile(path, KeepDownload(me, path, rest))
      case Delete(path) => DeleteRemote(path, Session(me, rest))
      case LockIt(path) => C.Lock(path, KeepLock(me, rest))
      case UnlockIt(path) => C.Unlock(path, Session(me, rest))
      case Synchronise(listing, clock) => C.Sync(me, listing, clock, KeepSync(rest))
  }

  // ---- What a command does ----

  predicate Sends(cmd: Command) {
    match cmd
    case Upload(path, file) => !LongName(path) && file.Some?
    case Download(path) => !LongName(path)
    case _ => true
  }

  function ClientAfter(me: Local, st: Store, socket: int, cmd: Command): Local {
    match cmd
    case Download(path) =>
      if Sends(cmd) && Base(path) in st.disk then Fetched(me, path, Some(Delivered(st.disk[Base(path)]))) else me
    case LockIt(path) => me.(locks := me.locks + [LockResult(LockAnswer(st.files, socket, Base(path)))])
    case Synchronise(listing, clock) => SyncedClient(me, st, clock)
    case _ => me
  }

  function ServerAfter(me: Local, st: Store, socket: int, cmd: Command): Store {
    match cmd
    case Upload(path, file) =>
      if !Sends(cmd) then st
      else Uploaded(st, Base(path), Delivered(file.value.content), file.value.mtime, Wrap(|file.value.content|))
    case Download(path) => st
    case Delete(path) => Deleted(st, Base(path))
    case LockIt(path) => st.(files := LockIn(st.files, socket, Base(path)))
    case UnlockIt(path) => st.(files := UnlockIn(st.files, socket, Base(path)))
    case Synchronise(listing, clock) => SyncedServer(me, st, listing, clock)
  }

  /** How many commands the server reads for it. */
  function Turns(me: Local, st: Store, cmd: Command): nat {
    match cmd
    case Synchronise(listing, clock) => 1 + NewCount(SyncedClient(me, st, clock), listing)
    case _ => if Sends(cmd) then 1 else 0
  }

  /** The server's disk has the files that the command will ask for. */
  predicate Served(me: Local, st: Store, cmd: Command) {
    match cmd
    case Download(path) => Sends(cmd) ==> Base(path) in st.disk
    case Synchronise(_, _) => SyncStocked(me, st)
    case _ => true
  }

  lemma DeleteRuns(path: string, next: ClientProgram, st: Store, h: ServerProgram, k: Store -> ServerProgram)
    requires Answers(h, CP_CLIENT_DELETE_FILE, S.DeleteFile(st, k))
    ensures Shakes(DeleteRemote(path, next), h, 3, next, k(Deleted(st, Base(path))))
  {
    hide Deleted;
    var c0 := DeleteRemote(path, next);
    var c, s := Next(c0, h, 0, c0, h);
    c, s := Next(c0, h, 1, c, s);
    assert s.proceed(Text(Base(path))) == k(Deleted(st, AsText(Text(Base(path)))));
    c, s := Next(c0, h, 2, c, s);
  }

  lemma LockRuns(path: string, kc: int -> ClientProgram, st: Store, socket: int, h: ServerProgram,
        k: Store -> ServerProgram)
    requires Answers(h, CP_CLIENT_GET_FILE_LOCK, S.LockFile(st, socket, k))
    ensures Shakes(C.Lock(path, kc), h, 4, kc(LockResult(LockAnswer(st.files, socket, Base(path)))),
      k(st.(files := LockIn(st.files, socket, Base(path)))))
  {
    hide LockAnswer, LockIn;
    var c0 := C.Lock(path, kc);
    var c, s := Next(c0, h, 0, c0, h);
    c, s := Next(c0, h, 1, c, s);
    assert s.proceed(Text(Base(path))) == Tell(Num(LockAnswer(st.files, socket, AsText(Text(Base(path))))),
      k(st.(files := LockIn(st.files, socket, AsText(Text(Base(path)))))));
    c, s := Next(c0, h, 2, c, s);
    assert c.proceed(s.frame) == kc(LockResult(AsInt(s.frame)));
    c, s := Next(c0, h, 3, c, s);
  }

  lemma UnlockRuns(path: string, next: ClientProgram, st: Store, socket: int, h: ServerProgram,
        k: Store -> ServerProgram)
    requires Answers(h, CP_CLIENT_GET_FILE_UNLOCK, S.UnlockFile(st, socket, k))
    ensures Shakes(C.Unlock(path, next), h, 4, next, k(st.(files := UnlockIn(st.files, socket, Base(path)))))
  {
    hide UnlockAnswer, UnlockIn;
    var c0 := C.Unlock(path, next);
    var c, s := Next(c0, h, 0, c0, h);
    c, s := Next(c0, h, 1, c, s);
    assert s.proceed(Text(Base(path))) == Tell(Num(UnlockAnswer(st.files, socket, AsText(Text(Base(path))))),
      k(st.(files := UnlockIn(st.files, socket, AsText(Text(Base(path)))))));
    c, s := Next(c0, h, 2, c, s);
    c, s := Next(c0, h, 3, c, s);
  }

  /** The first command of a session runs to its end. */
  ghost predicate Completes(me: Local, st: Store, socket: int, cmds: seq<Command>, turns: nat, n: nat)
    requires cmds != [] && Turns(me, st, cmds[0]) <= turns
  {
    Shakes(Session(me, cmds), CommandLoop(st, socket, turns), n,
      Session(ClientAfter(me, st, socket, cmds[0]), cmds[1..]),
      CommandLoop(ServerAfter(me, st, socket, cmds[0]), socket, turns - Turns(me, st, cmds[0])))
  }

  lemma UploadCommand(me: Local, st: Store, socket: int, cmds: seq<Command>, turns: nat) returns (n: nat)
    requires cmds != [] && cmds[0].Upload? && Turns(me, st, cmds[0]) <= turns
    ensures Completes(me, st, socket, cmds, turns, n)
  {
    var next := Session(me, cmds[1..]);
    hide CommandLoop, Assign;
    if Sends(cmds[0]) {
      LoopAnswers(st, socket, turns, CP_CLIENT_SEND_FILE);
      hide C.SendFile, Uploaded;
      n := UploadRuns(cmds[0].path, cmds[0].file.value, next, st, CommandLoop(st, socket, turns), NextCommand(socket,
        turns));
    } else {
      n := 0;
      NothingSent(cmds[0].path, cmds[0].file, next);
    }
  }

  lemma DownloadCommand(me: Local, st: Store, socket: int, cmds: seq<Command>, turns: nat) returns (n: nat)
    requires cmds != [] && cmds[0].Download? && Served(me, st, cmds[0]) && Turns(me, st, cmds[0]) <= turns
    ensures Completes(me, st, socket, cmds, turns, n)
  {
    var path, rest := cmds[0].path, cmds[1..];
    hide CommandLoop, GetFile, Answers, GiveDownload, Shakes, Delivered;
    if Sends(cmds[0]) {
      LoopAnswers(st, socket, turns, CP_CLIENT_GET_FILE);
      n := DownloadRuns(path, KeepDownload(me, path, rest), st, CommandLoop(st, socket, turns), NextCommand(socket,
        turns));
    } else {
      n := 0;
      NothingAsked(path, KeepDownload(me, path, rest));
    }
  }

  lemma DeleteCommand(me: Local, st: Store, socket: int, cmds: seq<Command>, turns: nat) returns (n: nat)
    requires cmds != [] && cmds[0].Delete? && Turns(me, st, cmds[0]) <= turns
    ensures Completes(me, st, socket, cmds, turns, n)
  {
    hide CommandLoop, DeleteRemote, Deleted, Shakes, Answers, S.DeleteFile;
    LoopAnswers(st, socket, turns, CP_CLIENT_DELETE_FILE);
    DeleteRuns(cmds[0].path, Session(me, cmds[1..]), st, CommandLoop(st, socket, turns), NextCommand(socket, turns));
    n := 3;
  }

  lemma LockCommand(me: Local, st: Store, socket: int, cmds: seq<Command>, turns: nat) returns (n: nat)
    requires cmds != [] && cmds[0].LockIt? && Turns(me, st, cmds[0]) <= turns
    ensures Completes(me, st, socket, cmds, turns, n)
  {
    hide CommandLoop, C.Lock, LockIn, LockAnswer, Shakes, Answers, S.LockFile;
    LoopAnswers(st, socket, turns, CP_CLIENT_GET_FILE_LOCK);
    LockRuns(cmds[0].path, KeepLock(me, cmds[1..]), st, socket, CommandLoop(st, socket, turns), NextCommand(socket,
      turns));
    n := 4;
  }

  lemma UnlockCommand(me: Local, st: Store, socket: int, cmds: seq<Command>, turns: nat) returns (n: nat)
    requires cmds != [] && cmds[0].UnlockIt? && Turns(me, st, cmds[0]) <= turns
    ensures Completes(me, st, socket, cmds, turns, n)
  {
    hide CommandLoop, C.Unlock, UnlockIn, Shakes, Answers, S.UnlockFile;
    LoopAnswers(st, socket, turns, CP_CLIENT_GET_FILE_UNLOCK);
    UnlockRuns(cmds[0].path, Session(me, cmds[1..]), st, socket, CommandLoop(st, socket, turns), NextCommand(socket,
      turns));
    n := 4;
  }

  lemma SyncCommand(me: Local, st: Store, socket: int, cmds: seq<Command>, turns: nat) returns (n: nat)
    requires PlainTable(st.files) && cmds != [] && cmds[0].Synchronise?
    requires Served(me, st, cmds[0]) && Turns(me, st, cmds[0]) <= turns
    ensures Completes(me, st, socket, cmds, turns, n)
  {
    hide CommandLoop, C.Sync, PlainTable, SyncStocked;
    n := SyncRuns(me, cmds[0].listing, cmds[0].clock, KeepSync(cmds[1..]), st, socket, turns);
  }

  lemma CommandRuns(me: Local, st: Store, socket: int, cmds: seq<Command>, turns: nat) returns (n: nat)
    requires PlainTable(st.files) && cmds != [] && Served(me, st, cmds[0]) && Turns(me, st, cmds[0]) <= turns
    ensures Completes(me, st, socket, cmds, turns, n)
  {
    hide Completes, Served, Turns, PlainTable;
    match cmds[0]
    case Upload(_, _) => n := UploadCommand(me, st, socket, cmds, turns);
    case Download(_) => n := DownloadCommand(me, st, socket, cmds, turns);
    case Synchronise(_, _) => n := SyncCommand(me, st, socket, cmds, turns);
    case Delete(_) => n := DeleteCommand(me, st, socket, cmds, turns);
    case LockIt(_) => n := LockCommand(me, st, socket, cmds, turns);
    case UnlockIt(_) => n := UnlockCommand(me, st, socket, cmds, turns);
  }

  // ---- Sessions ----

  function TotalTurns(me: Local, st: Store, socket: int, cmds: seq<Command>): nat
    decreases cmds
  {
    if cmds == [] then 0
    else
      var me1, st1 := ClientAfter(me, st, socket, cmds[0]), ServerAfter(me, st, socket, cmds[0]);
      Turns(me, st, cmds[0]) + TotalTurns(me1, st1, socket, cmds[1..])
  }

  /** Both stores after all commands. */
  function AfterAll(me: Local, st: Store, socket: int, cmds: seq<Command>): (Local, Store)
    decreases cmds
  {
    if cmds == [] then (me, st)
    else AfterAll(ClientAfter(me, st, socket, cmds[0]), ServerAfter(me, st, socket, cmds[0]), socket, cmds[1..])
  }

  predicate AllServed(me: Local, st: Store, socket: int, cmds: seq<Command>)
    decreases cmds
  {
    cmds == [] ||
    (Served(me, st, cmds[0])
     && AllServed(ClientAfter(me, st, socket, cmds[0]), ServerAfter(me, st, socket, cmds[0]), socket, cmds[1..]))
  }

  lemma FirstCommand(me: Local, st: Store, socket: int, cmds: seq<Command>)
    requires cmds != []
    ensures var me1, st1 := ClientAfter(me, st, socket, cmds[0]), ServerAfter(me, st, socket, cmds[0]);
      && (AllServed(me, st, socket, cmds) <==> Served(me, st, cmds[0]) && AllServed(me1, st1, socket, cmds[1..]))
      && AfterAll(me, st, socket, cmds) == AfterAll(me1, st1, socket, cmds[1..])
      && TotalTurns(me, st, socket, cmds) == Turns(me, st, cmds[0]) + TotalTurns(me1, st1, socket, cmds[1..])
  {
  }

  lemma NoCommands(me: Local, st: Store, socket: int, turns: nat)
    ensures AllServed(me, st, socket, []) && TotalTurns(me, st, socket, []) == 0 && AfterAll(me, st, socket, []) == (me, st)
    ensures Shakes(Session(me, []), CommandLoop(st, socket, turns), 0, Halt(me), CommandLoop(st, socket, turns))
  {
  }

  /** The commands of a session, one after the other, each dialogue to its end. */
  lemma {:induction false} SessionRuns(me: Local, st: Store, socket: int, cmds: seq<Command>, turns: nat)
      returns (n: nat)
    requires PlainTable(st.files) && AllServed(me, st, socket, cmds) && TotalTurns(me, st, socket, cmds) <= turns
    ensures Shakes(Session(me, cmds), CommandLoop(st, socket, turns), n,
      Halt(AfterAll(me, st, socket, cmds).0),
      CommandLoop(AfterAll(me, st, socket, cmds).1, socket, turns - TotalTurns(me, st, socket, cmds)))
    decreases cmds
  {
    hide CommandLoop, Session, ClientAfter, ServerAfter, Served, Turns, Shakes, AllServed, AfterAll, TotalTurns,
      PlainTable;
    if cmds == [] {
      n := 0;
      NoCommands(me, st, socket, turns);
    } else {
      FirstCommand(me, st, socket, cmds);
      CommandKeepsPlain(me, st, socket, cmds[0]);
      var me1, st1, t := ClientAfter(me, st, socket, cmds[0]), ServerAfter(me, st, socket, cmds[0]), Turns(me, st,
        cmds[0]);
      var a := CommandRuns(me, st, socket, cmds, turns);
      assert Shakes(Session(me, cmds), CommandLoop(st, socket, turns), a, Session(me1, cmds[1..]), CommandLoop(st1,
        socket, turns - t));
      var b := SessionRuns(me1, st1, socket, cmds[1..], turns - t);
      n := Compose(Session(me, cmds), CommandLoop(st, socket, turns), a,
        Session(me1, cmds[1..]), CommandLoop(st1, socket, turns - t), b,
        Halt(AfterAll(me, st, socket, cmds).0),
        CommandLoop(AfterAll(me, st, socket, cmds).1, socket, turns - TotalTurns(me, st, socket, cmds)));
    }
  }

  // ---- What every command keeps ----

  lemma {:induction false} RoundsKeepPlain(me: Local, st: Store, i: nat, count: nat, clock: string -> int)
    requires PlainTable(st.files) && i <= count == Count(st.files)
    ensures PlainTable(AfterRounds(me, st, i, count, clock).1.files)
    decreases count - i
  {
    hide PlainTable, Choose, ClientAfterRound, ServerAfterRound;
    if i < count && (Choose(me, st.files[i]) == CP_CLIENT_GET_FILE ==> st.files[i].name in st.disk) {
      RoundKeepsStock(me, st, i, count, clock);
      RoundsKeepPlain(ClientAfterRound(me, st, i, clock), ServerAfterRound(me, st, i), i + 1, count, clock);
    }
  }

  lemma {:induction false} NewKeepPlain(me: Local, st: Store, listing: seq<string>)
    requires PlainTable(st.files)
    ensures PlainTable(AfterNew(me, st, listing).files)
    decreases listing
  {
    hide PlainTable, Received;
    if listing != [] {
      if IsNew(me, listing[0]) {
        ReceivedKeepsPlain(st, listing[0], me.dir[listing[0]]);
        NewKeepPlain(me, Received(st, listing[0], me.dir[listing[0]]), listing[1..]);
      } else {
        NewKeepPlain(me, st, listing[1..]);
      }
    }
  }

  lemma LocksKeepPlain(t: Table, s: int, path: string)
    requires PlainTable(t)
    ensures PlainTable(LockIn(t, s, path)) && PlainTable(UnlockIn(t, s, path))
  {
    hide Find;
    SameNamesPlain(t, LockIn(t, s, path));
    SameNamesPlain(t, UnlockIn(t, s, path));
  }

  lemma SameNamesPlain(t: Table, u: Table)
    requires PlainTable(t) && SameNames(t, u)
    ensures PlainTable(u)
  {
    NamesDecide(t, u, "");
    forall f | f in u && f.name != "" ensures PlainName(f.name) {
      var j :| 0 <= j < MAXFILES && u[j] == f;
      assert t[j] in t;
    }
  }

  lemma RemoveKeepsPlain(t: Table, name: string)
    requires PlainTable(t)
    ensures PlainTable(Remove(t, name))
  {
    RemoveKeepsShape(t, name);
    var u := Remove(t, name);
    forall f | f in u && f.name != "" ensures PlainName(f.name) {
      var j :| 0 <= j < MAXFILES && u[j] == f;
      assert t[j] in t;
    }
  }

  /** No command breaks the table: names stay distinct, compact and sendable. */
  lemma CommandKeepsPlain(me: Local, st: Store, socket: int, cmd: Command)
    requires PlainTable(st.files)
    ensures PlainTable(ServerAfter(me, st, socket, cmd).files)
  {
    hide LockIn, UnlockIn, Remove, AfterRounds, AfterNew;
    match cmd
    case Upload(path, file) =>
      if Sends(cmd) { ReceivedKeepsPlain(st, path, file.value); }
    case Download(_) =>
    case Delete(path) => RemoveKeepsPlain(st.files, Base(Base(path)));
    case LockIt(path) => LocksKeepPlain(st.files, socket, Base(path));
    case UnlockIt(path) => LocksKeepPlain(st.files, socket, Base(path));
    case Synchronise(listing, clock) =>
      RoundsKeepPlain(Start(me), st, 0, Count(st.files), clock);
      NewKeepPlain(SyncedClient(me, st, clock), AfterFirstLoop(me, st, clock).1, listing);
  }

  // ---- What goes wrong without ----

  lemma DownloadStops(me: Local, st: Store, socket: int, cmds: seq<Command>, turns: nat)
      returns (n: nat, c: ClientProgram, s: ServerProgram)
    requires cmds != [] && cmds[0].Download? && !Served(me, st, cmds[0]) && Turns(me, st, cmds[0]) <= turns
    ensures Shakes(Session(me, cmds), CommandLoop(st, socket, turns), n, c, s) && DeadEnd(c, s)
  {
    var path, rest := cmds[0].path, cmds[1..];
    LoopAnswers(st, socket, turns, CP_CLIENT_GET_FILE);
    assert Base(Base(path)) == Base(path);
    assert NextCommand(socket, turns)(st).Hear?;
    hide CommandLoop, GetFile;
    n := 4;
    c, s := DownloadStarts(path, KeepDownload(me, path, rest), st, CommandLoop(st, socket, turns),
      NextCommand(socket, turns));
  }

  lemma CommandStops(me: Local, st: Store, socket: int, cmds: seq<Command>, turns: nat)
      returns (n: nat, c: ClientProgram, s: ServerProgram)
    requires PlainTable(st.files) && cmds != [] && !Served(me, st, cmds[0]) && Turns(me, st, cmds[0]) <= turns
    ensures Shakes(Session(me, cmds), CommandLoop(st, socket, turns), n, c, s) && DeadEnd(c, s)
  {
    if cmds[0].Download? {
      n, c, s := DownloadStops(me, st, socket, cmds, turns);
    } else {
      hide CommandLoop, C.Sync, PlainTable, SyncStocked, DeadEnd, Shakes;
      n, c, s := SyncStops(me, cmds[0].listing, cmds[0].clock, KeepSync(cmds[1..]), st, socket, turns);
    }
  }

  /** A session that comes to a command whose files are missing gets stuck there. */
  lemma {:induction false} SessionStops(me: Local, st: Store, socket: int, cmds: seq<Command>, turns: nat)
      returns (n: nat, c: ClientProgram, s: ServerProgram)
    requires PlainTable(st.files) && !AllServed(me, st, socket, cmds) && TotalTurns(me, st, socket, cmds) <= turns
    ensures Shakes(Session(me, cmds), CommandLoop(st, socket, turns), n, c, s) && DeadEnd(c, s)
    decreases cmds
  {
    hide CommandLoop, Session, ClientAfter, ServerAfter, Served, Turns, Shakes, AllServed, AfterAll, TotalTurns,
      PlainTable, DeadEnd;
    NoCommands(me, st, socket, turns);
    FirstCommand(me, st, socket, cmds);
    if !Served(me, st, cmds[0]) {
      n, c, s := CommandStops(me, st, socket, cmds, turns);
    } else {
      CommandKeepsPlain(me, st, socket, cmds[0]);
      var me1, st1, t := ClientAfter(me, st, socket, cmds[0]), ServerAfter(me, st, socket, cmds[0]), Turns(me, st,
        cmds[0]);
      var a := CommandRuns(me, st, socket, cmds, turns);
      assert Shakes(Session(me, cmds), CommandLoop(st, socket, turns), a, Session(me1, cmds[1..]), CommandLoop(st1,
        socket, turns - t));
      var b;
      b, c, s := SessionStops(me1, st1, socket, cmds[1..], turns - t);
      n := Compose(Session(me, cmds), CommandLoop(st, socket, turns), a, Session(me1, cmds[1..]), CommandLoop(st1,
        socket, turns - t), b, c, s);
    }
  }

  lemma NothingSent(path: string, file: Option<LocalFile>, next: ClientProgram)
    requires LongName(path) || file.None?
    ensures C.SendFile(path, file, next) == next
  {
  }

  lemma NothingAsked(path: string, k: Option<seq<byte>> -> ClientProgram)
    requires LongName(path)
    ensures GetFile(path, k) == k(None)
  {
  }
}
