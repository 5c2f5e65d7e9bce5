/** What each command leaves behind, said of the files by name, of the queues and of the disk: the end of the running
    dialogue, in every schedule and with any replicas. */
module Outcomes {
  import opened Frames
  import opened Programs
  import opened Network
  import opened Lockstep
  import opened FileTable
  import opened LockQueue
  import opened Devices
  import opened UserRecord
  import opened Transfer
  import opened Codes
  import opened S = ServerPrograms
  import opened C = ClientPrograms
  import opened DialogueProofs
  import opened Sync
  import opened SyncDialogue
  import opened Sessions
  import opened Interleavings
  import LR = LockRuns
  import opened LockReplies

  /** Client and server come to the end of the command's dialogue, and this is where they stand. */
  ghost predicate DialogueEnds(me: Local, st: Store, socket: int, cmd: Command, turns: nat, m: Local, v: Store) {
    exists n: nat, left: nat ::
      Shakes(Session(me, [cmd]), CommandLoop(st, socket, turns), n, Halt(m), CommandLoop(v, socket, left))
  }

  ghost predicate SystemEnds(me: Local, st: Store, socket: int, sockets: seq<int>, cmd: Command, turns: nat, m: Local, v: Store) {
    exists end: System, total: nat, left: nat ::
      AlwaysEnds(Started(Session(me, [cmd]), st, socket, sockets, turns), end, total)
      && SessionEnd(end, m, v, socket, sockets, left)
  }

  /** The command leaves the client with `m` and the server with `v`: so the dialogue ends, and so does every schedule
      of a system with replicas on sockets of their own. */
  ghost predicate Leaves(me: Local, st: Store, socket: int, cmd: Command, turns: nat, m: Local, v: Store) {
    && DialogueEnds(me, st, socket, cmd, turns, m, v)
    && (PlainTable(st.files) && socket > 0 ==>
          forall sockets :: (forall b :: b in sockets ==> b > 0) ==> SystemEnds(me, st, socket, sockets, cmd, turns, m, v))
  }

  lemma DialogueRuns(me: Local, st: Store, socket: int, cmd: Command, turns: nat) returns (n: nat)
    requires !cmd.Synchronise? && Served(me, st, cmd) && Turns(me, st, cmd) <= turns
    ensures Completes(me, st, socket, [cmd], turns, n)
  {
    hide Completes;
    match cmd
    case Upload(_, _) => n := UploadCommand(me, st, socket, [cmd], turns);
    case Download(_) => n := DownloadCommand(me, st, socket, [cmd], turns);
    case Delete(_) => n := DeleteCommand(me, st, socket, [cmd], turns);
    case LockIt(_) => n := LockCommand(me, st, socket, [cmd], turns);
    case UnlockIt(_) => n := UnlockCommand(me, st, socket, [cmd], turns);
  }

  lemma CommandLeaves(me: Local, st: Store, socket: int, cmd: Command, turns: nat)
    requires !cmd.Synchronise? && Served(me, st, cmd) && Turns(me, st, cmd) <= turns
    ensures Leaves(me, st, socket, cmd, turns, ClientAfter(me, st, socket, cmd), ServerAfter(me, st, socket, cmd))
  {
    var m, v := ClientAfter(me, st, socket, cmd), ServerAfter(me, st, socket, cmd);
    var n := DialogueRuns(me, st, socket, cmd, turns);
    assert [cmd][1..] == [] && Session(m, []) == Halt(m);
    hide Served, ClientAfter, ServerAfter, Turns, PlainTable, Session, CommandLoop, Shakes;
    assert DialogueEnds(me, st, socket, cmd, turns, m, v);
    if PlainTable(st.files) && socket > 0 {
      OneCommand(me, st, socket, cmd);
      hide AllServed, TotalTurns, AfterAll, AlwaysEnds, SessionEnd, Started;
      forall sockets | forall b :: b in sockets ==> b > 0 ensures SystemEnds(me, st, socket, sockets, cmd, turns, m, v) {
        var end, total := EverySchedule(me, st, [cmd], socket, sockets, turns);
      }
    }
  }

  // ---- By name ----

  /** `path` is the name itself or ends in it after a slash. */
  predicate Leads(path: string, dir: string, name: string) {
    name != "" && '/' !in name && (path == name || path == dir + "/" + name)
  }

  lemma LeadsToBase(path: string, dir: string, name: string)
    requires Leads(path, dir, name)
    ensures Base(path) == name == Base(name)
  {
    BaseAfterSlash(dir, name);
  }

  lemma FullIsTwenty(t: Table)
    requires WellFormed(t)
    ensures Full(t) <==> |Entries(t)| == MAXFILES
    ensures |Entries(t)| <= MAXFILES
  {
    CountIsPrefix(t, |t|);
    CountIsMapSize(t);
  }

  /** Upload by any path: the file is on the server's disk under the last name of the path; it is in the table, with
      its time and size, unless it is new and twenty files are stored; nothing else changes. */
  lemma UploadLeaves(me: Local, st: Store, socket: int, turns: nat, path: string, dir: string, name: string, file: LocalFile)
      returns (v: Store)
    requires WellFormed(st.files) && turns > 0 && Leads(path, dir, name) && |name| <= 255 && |file.content| <= INT_MAX
    ensures Leaves(me, st, socket, Upload(path, Some(file)), turns, me, v)
    ensures v.disk == st.disk[name := file.content] && v.devices == st.devices
    ensures var e, e' := Entries(st.files), Entries(v.files);
      && (name in e' <==> name in e || |e| < 20)
      && (name in e' ==> e'[name].(lock := []) == FileInfo(name, file.mtime, |file.content|, []))
      && (name in e && name in e' ==> e'[name].lock == e[name].lock)
      && e' - {name} == e - {name}
  {
    var cmd := Upload(path, Some(file));
    LeadsToBase(path, dir, name);
    CommandLeaves(me, st, socket, cmd, turns);
    v := ServerAfter(me, st, socket, cmd);
    DeliveredIff(file.content);
    UploadedByName(st, name, file.content, file.mtime);
  }

  lemma UploadedByName(st: Store, name: string, content: seq<byte>, mtime: int)
    requires WellFormed(st.files) && name != "" && '/' !in name
    ensures var v := Uploaded(st, name, content, mtime, |content|);
      && v.disk == st.disk[name := content] && v.devices == st.devices
      && var e, e' := Entries(st.files), Entries(v.files);
      && (name in e' <==> name in e || |e| < MAXFILES)
      && (name in e' ==> e'[name].(lock := []) == FileInfo(name, mtime, |content|, []))
      && (name in e && name in e' ==> e'[name].lock == e[name].lock)
      && e' - {name} == e - {name}
  {
    AssignFailsWhenFull(st.files, name);
    if Assigns(st.files, name) {
      hide Assign, WellFormed, Entries, SlotFor;
      AssignRefinesInsert(st.files, name, mtime, |content|);
    }
  }

  /** Download by any path of a file on the disk: the client has its content, where it asked for it; the server is as
      it was. */
  lemma DownloadLeaves(me: Local, st: Store, socket: int, turns: nat, path: string, dir: string, name: string)
      returns (m: Local)
    requires turns > 0 && Leads(path, dir, name) && |name| <= 255 && name in st.disk && |st.disk[name]| <= INT_MAX
    ensures Leaves(me, st, socket, Download(path), turns, m, st)
    ensures path in m.cwd && m.cwd[path] == st.disk[name]
    ensures m.cwd - {path} == me.cwd - {path} && m.(cwd := me.cwd) == me
  {
    LeadsToBase(path, dir, name);
    CommandLeaves(me, st, socket, Download(path), turns);
    m := ClientAfter(me, st, socket, Download(path));
    DeliveredIff(st.disk[name]);
  }

  /** Delete by any path: a file that is on the disk is gone from it, and from the table if and only if that is not
      full; every other name keeps its record and its content. A file that is not there changes nothing. */
  lemma DeleteLeaves(me: Local, st: Store, socket: int, turns: nat, path: string, dir: string, name: string)
      returns (v: Store)
    requires WellFormed(st.files) && turns > 0 && Leads(path, dir, name)
    ensures Leaves(me, st, socket, Delete(path), turns, me, v)
    ensures name !in st.disk ==> v == st
    ensures name in st.disk ==>
      && v.disk == st.disk - {name} && v.devices == st.devices
      && Entries(v.files) == if |Entries(st.files)| == 20 then Entries(st.files) else Entries(st.files) - {name}
  {
    LeadsToBase(path, dir, name);
    CommandLeaves(me, st, socket, Delete(path), turns);
    v := ServerAfter(me, st, socket, Delete(path));
    RemovedByName(st.files, name);
  }

  lemma RemovedByName(t: Table, name: string)
    requires WellFormed(t) && name != ""
    ensures Entries(Remove(t, name)) == if |Entries(t)| == MAXFILES then Entries(t) else Entries(t) - {name}
  {
    hide Entries, Remove, Full, WellFormed;
    FullIsTwenty(t);
    RemoveRefinesIff(t, name);
  }

  // ---- Locks ----

  /** One record's queue is `q`, nothing else has changed. */
  ghost predicate OnlyQueue(st: Store, v: Store, name: string, q: seq<int>) {
    && v.disk == st.disk && v.devices == st.devices && name in Entries(st.files)
    && Entries(v.files) == Entries(st.files)[name := Entries(st.files)[name].(lock := q)]
  }

  lemma QueueSet(st: Store, name: string, q: seq<int>)
    requires WellFormed(st.files) && Has(st.files, name)
    ensures OnlyQueue(st, st.(files := WithLock(st.files, Find(st.files, name), q)), name, q)
  {
    hide Entries, Find, WellFormed, Has;
    var t := st.files;
    EntryAfterSet(t, name, q, name);
    var u := WithLock(t, Find(t, name), q);
    forall n ensures (n in Entries(u) <==> n in Entries(t))
      && (n in Entries(t) ==> Entries(u)[n] == if n == name then Entries(t)[name].(lock := q) else Entries(t)[n]) {
      EntryAfterSet(t, name, q, n);
    }
  }

  lemma EntryAfterSet(t: Table, name: string, q: seq<int>, n: string)
    requires WellFormed(t) && Has(t, name)
    ensures Find(t, name) >= 0 && name in Entries(t)
    ensures var u := WithLock(t, Find(t, name), q);
      (n in Entries(u) <==> n in Entries(t))
      && (n in Entries(t) ==> Entries(u)[n] == if n == name then Entries(t)[name].(lock := q) else Entries(t)[n])
  {
    hide Entries, FindFrom;
    var u := WithLock(t, Find(t, name), q);
    NamesAreFound(t, name);
    NamesDecide(t, u, n);
    NamesAreFound(t, n);
    NamesAreFound(u, n);
  }

  /** Asking for a lock: the client's `lockFile` gives `r`. The socket is queued, once; `r` is 0 if it heads the queue, or if
      the queue has just the length that is the success code, else `r` is the queue's length. Of an unknown
      file the client is told 0, and nobody is queued. */
  lemma LockLeaves(me: Local, st: Store, socket: int, turns: nat, path: string, dir: string, name: string)
      returns (v: Store, r: int)
    requires WellFormed(st.files) && turns > 0 && Leads(path, dir, name)
    ensures Leaves(me, st, socket, LockIt(path), turns, me.(locks := me.locks + [r]), v)
    ensures name !in Entries(st.files) ==> r == 0 && v == st
    ensures name in Entries(st.files) ==>
      var q := Entries(st.files)[name].lock;
      var q' := if socket in q then q else q + [socket];
      OnlyQueue(st, v, name, q') && r == if q'[0] == socket || |q'| == 30 then 0 else |q'|
  {
    LeadsToBase(path, dir, name);
    CommandLeaves(me, st, socket, LockIt(path), turns);
    v, r := ServerAfter(me, st, socket, LockIt(path)), LockResult(LockAnswer(st.files, socket, name));
    NamesAreFound(st.files, name);
    if Has(st.files, name) { QueueSet(st, name, Enqueue(Queue(st.files, name), socket)); }
  }

  /** Giving a lock up: the socket's last place in the queue goes, everybody else stays in order. */
  lemma UnlockLeaves(me: Local, st: Store, socket: int, turns: nat, path: string, dir: string, name: string)
      returns (v: Store, a: seq<int>, b: seq<int>)
    requires WellFormed(st.files) && turns > 0 && Leads(path, dir, name)
    ensures Leaves(me, st, socket, UnlockIt(path), turns, me, v)
    ensures name !in Entries(st.files) || socket !in Entries(st.files)[name].lock ==> v == st
    ensures name in Entries(st.files) && socket in Entries(st.files)[name].lock ==>
      Entries(st.files)[name].lock == a + [socket] + b && socket !in b && OnlyQueue(st, v, name, a + b)
  {
    LeadsToBase(path, dir, name);
    CommandLeaves(me, st, socket, UnlockIt(path), turns);
    v := ServerAfter(me, st, socket, UnlockIt(path));
    a, b := ReleasedByName(st, socket, name);
  }

  lemma ReleasedByName(st: Store, socket: int, name: string) returns (a: seq<int>, b: seq<int>)
    requires WellFormed(st.files) && name != "" && '/' !in name
    ensures var e, v := Entries(st.files), st.(files := UnlockIn(st.files, socket, name));
      && (name !in e || socket !in e[name].lock ==> v == st)
      && (name in e && socket in e[name].lock ==>
            e[name].lock == a + [socket] + b && socket !in b && OnlyQueue(st, v, name, a + b))
  {
    hide OnlyQueue, WellFormed, Find;
    NamesAreFound(st.files, name);
    a, b := [], [];
    if Has(st.files, name) {
      var q := Queue(st.files, name);
      var k := LastIndex(q, socket);
      if k >= 0 {
        a, b := q[..k], q[k + 1..];
        QueueSet(st, name, a + b);
      }
    }
  }

  /** While the queues are in order, what the client's `lockFile` returns is the truth: 0 for a file of the table says that
      the session heads its queue, any other number is the length of the queue it waits in, at most five. */
  lemma LockTellsTheTruth(me: Local, w: LR.World, disk: map<string, seq<byte>>, socket: int, turns: nat, name: string)
      returns (v: Store, r: int)
    requires Orderly(w) && socket in w.live && turns > 0 && LR.ProperName(name) && name in Entries(w.files)
    ensures Leaves(me, Store(w.files, w.devices, disk), socket, LockIt(name), turns, me.(locks := me.locks + [r]), v)
    ensures name in Entries(v.files)
    ensures var q := Entries(v.files)[name].lock;
      socket in q && |q| <= 5 && (r == 0 <==> q[0] == socket) && (r != 0 ==> r == |q|)
  {
    var st := Store(w.files, w.devices, disk);
    v, r := LockLeaves(me, st, socket, turns, name, "", name);
    hide Leaves;
    NamesAreFound(w.files, name);
    AnswerMeansGrant(w, socket, name);
  }
}
