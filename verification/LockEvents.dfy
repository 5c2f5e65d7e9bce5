/** The events of the lock runs as the command loops serve them: what a session writes for each, what it is told, and
    what that makes of the record its user's sessions share. */
module LockEvents {
  import opened Frames
  import opened Programs
  import opened FileTable
  import opened LockQueue
  import opened Devices
  import opened UserRecord
  import opened Transfer
  import opened Codes
  import opened S = ServerPrograms
  import opened LockRuns

  lemma Begins(p: ServerProgram)
    ensures Plays(p, [], [], p)
  {
  }

  // ---- The commands, one by one ----

  lemma EndPlays(st: Store, socket: int, turns: nat, f: Frame)
    requires turns > 0 && AsInt(f) == CP_CLIENT_END_CONNECTION
    ensures Plays(CommandLoop(st, socket, turns), [f], [], Halt(LoggedOut(st, socket)))
  {
    Begins(CommandLoop(st, socket, turns));
    PlaysHear(CommandLoop(st, socket, turns), [], [], CommandLoop(st, socket, turns), f);
  }

  /** The end of a session: its socket leaves the queue of every named file, the others stay in order, and if it stood in a
      slot then slot 0 is free. Nothing else changes, and the thread ends. */
  lemma EndHeard(st: Store, socket: int, turns: nat, f: Frame) returns (v: Store)
    requires turns > 0 && AsInt(f) == 8
    ensures Plays(CommandLoop(st, socket, turns), [f], [], Halt(v))
    ensures v.disk == st.disk
    ensures v.devices == if socket in st.devices then [-1] + st.devices[1..] else st.devices
    ensures forall i :: 0 <= i < MAXFILES ==>
      && v.files[i].(lock := []) == st.files[i].(lock := [])
      && (st.files[i].name == "" || socket !in st.files[i].lock ==> v.files[i] == st.files[i])
      && (st.files[i].name != "" && NoDuplicates(st.files[i].lock) ==> TakenOut(st.files[i].lock, socket, v.files[i].lock))
  {
    v := LoggedOut(st, socket);
    EndPlays(st, socket, turns, f);
    hide Plays, SkippingErase, NoDuplicates, TakenOut;
    forall i | 0 <= i < MAXFILES
      ensures v.files[i].(lock := []) == st.files[i].(lock := [])
      ensures st.files[i].name == "" || socket !in st.files[i].lock ==> v.files[i] == st.files[i]
      ensures st.files[i].name != "" && NoDuplicates(st.files[i].lock) ==> TakenOut(st.files[i].lock, socket, v.files[i].lock)
    {
      Cleaned(st.files[i].lock, socket);
    }
  }

  /** `r` is `q` without `s`, which stood in it once or not at all. */
  ghost predicate TakenOut(q: seq<int>, s: int, r: seq<int>) {
    (s !in q && r == q) || exists a, b :: q == a + [s] + b && r == a + b && s !in r
  }

  lemma Cleaned(q: seq<int>, s: int)
    ensures s !in q ==> SkippingErase(q, s) == q
    ensures NoDuplicates(q) ==> TakenOut(q, s, SkippingErase(q, s))
  {
    if s !in q {
      SkippingEraseCleansIff(q, s);
      WithoutAbsent(q, s);
    } else if NoDuplicates(q) {
      OneTakenOut(q, s);
    }
  }

  lemma OneTakenOut(q: seq<int>, s: int)
    requires NoDuplicates(q) && s in q
    ensures TakenOut(q, s, SkippingErase(q, s))
  {
    ReleaseIsWithout(q, s);
    var k := LastIndex(q, s);
    hide LastBelow, SkippingErase, NoDuplicates, Without;
    assert q == q[..k] + [s] + q[k + 1..];
    assert SkippingErase(q, s) == q[..k] + q[k + 1..];
  }

  /** An empty command, or any other that reads as 0: the thread says `CP_LOGIN_FAILED` and ends without logging out. */
  lemma NothingHeard(st: Store, socket: int, turns: nat, f: Frame)
    requires turns > 0 && AsInt(f) == 0
    ensures Plays(CommandLoop(st, socket, turns), [f], [Num(4)], Halt(st))
  {
    var p := CommandLoop(st, socket, turns);
    Begins(p);
    PlaysHear(p, [], [], p, f);
    PlaysTell(p, [f], [], p.proceed(f));
  }

  /** Any number that is no command is passed over. */
  lemma UnknownHeard(st: Store, socket: int, turns: nat, f: Frame)
    requires turns > 0 && AsInt(f) !in {0, 5, 8, 12, 18, 26, 28, 31}
    ensures Plays(CommandLoop(st, socket, turns), [f], [], CommandLoop(st, socket, turns - 1))
  {
    var p := CommandLoop(st, socket, turns);
    Begins(p);
    PlaysHear(p, [], [], p, f);
  }

  lemma LockHeard(st: Store, socket: int, turns: nat, name: string)
    requires turns > 0
    ensures Plays(CommandLoop(st, socket, turns), [Num(28), Text(name)], [Num(29), Num(LockAnswer(st.files, socket, name))],
      CommandLoop(st.(files := LockIn(st.files, socket, name)), socket, turns - 1))
  {
    hide LockAnswer, LockIn;
    var p, heard, said := CommandLoop(st, socket, turns), [Num(28)], [Num(29)];
    Begins(p);
    PlaysHear(p, [], [], p, Num(28));
    var q := p.proceed(Num(28));
    PlaysTell(p, heard, [], q);
    PlaysHear(p, heard, said, q.next, Text(name));
    PlaysTell(p, heard + [Text(name)], said, q.next.proceed(Text(name)));
  }

  /** Unlocking: the answer says whether the socket was queued for a file of the table. */
  lemma UnlockHeard(st: Store, socket: int, turns: nat, name: string)
    requires turns > 0 && ProperName(name)
    ensures var e := Entries(st.files);
      var answer := if name !in e then 0 else if socket in e[name].lock then 33 else 34;
      Plays(CommandLoop(st, socket, turns), [Num(31), Text(name)], [Num(32), Num(answer)],
        CommandLoop(st.(files := UnlockIn(st.files, socket, name)), socket, turns - 1))
  {
    NamesAreFound(st.files, name);
    hide UnlockIn, Find;
    var p, heard, said := CommandLoop(st, socket, turns), [Num(31)], [Num(32)];
    Begins(p);
    PlaysHear(p, [], [], p, Num(31));
    var q := p.proceed(Num(31));
    PlaysTell(p, heard, [], q);
    PlaysHear(p, heard, said, q.next, Text(name));
    PlaysTell(p, heard + [Text(name)], said, q.next.proceed(Text(name)));
  }

  lemma DeleteHeard(st: Store, socket: int, turns: nat, name: string)
    requires turns > 0
    ensures Plays(CommandLoop(st, socket, turns), [Num(26), Text(name)], [Num(27)],
      CommandLoop(Deleted(st, name), socket, turns - 1))
  {
    hide Deleted;
    var p, heard := CommandLoop(st, socket, turns), [Num(26)];
    Begins(p);
    PlaysHear(p, [], [], p, Num(26));
    var q := p.proceed(Num(26));
    PlaysTell(p, heard, [], q);
    PlaysHear(p, heard, [Num(27)], q.next, Text(name));
    assert q.next.proceed(Text(name)) == NextCommand(socket, turns)(Deleted(st, AsText(Text(name))));
  }

  // ---- Uploads ----

  function Acks(n: nat): (s: seq<Frame>)
    ensures |s| == n && forall i :: 0 <= i < n ==> s[i] == Num(CP_FILE_PART_RECEIVED)
  {
    seq(n, _ => Num(CP_FILE_PART_RECEIVED))
  }

  /** The loop over the parts, from any frames it may be sent. */
  lemma {:induction false} PartsHeard(p: ServerProgram, heard: seq<Frame>, said: seq<Frame>, size: int, parts: seq<Frame>,
        i: nat, k: seq<byte> -> ServerProgram)
    requires |parts| == RoundsMade(size) && i <= |parts|
    requires Plays(p, heard, said, ReceiveParts(size, 0, [], k))
    ensures |Assembled(size, parts, i)| == SentBefore(size, i)
    ensures Plays(p, heard + parts[..i], said + Acks(i), ReceiveParts(size, i, Assembled(size, parts, i), k))
  {
    hide Plays, ReceiveParts;
    if i == 0 {
      assert heard + parts[..0] == heard && said + Acks(0) == said;
    } else {
      PartsHeard(p, heard, said, size, parts, i - 1, k);
      OnePartHeard(p, heard + parts[..i - 1], said + Acks(i - 1), size, i - 1, Assembled(size, parts, i - 1), parts[i - 1], k);
      assert heard + parts[..i - 1] + [parts[i - 1]] == heard + parts[..i];
      assert said + Acks(i - 1) + [Num(CP_FILE_PART_RECEIVED)] == said + Acks(i);
    }
  }

  lemma OnePartHeard(p: ServerProgram, heard: seq<Frame>, said: seq<Frame>, size: int, i: nat, got: seq<byte>, part: Frame,
        k: seq<byte> -> ServerProgram)
    requires i < RoundsMade(size) && |got| == SentBefore(size, i) && Plays(p, heard, said, ReceiveParts(size, i, got, k))
    ensures var all := got + Bytes(part)[..Clamp(RoundSize(size, |got|))];
      |all| == SentBefore(size, i + 1)
      && Plays(p, heard + [part], said + [Num(CP_FILE_PART_RECEIVED)], ReceiveParts(size, i + 1, all, k))
  {
    ReceiveRound(size, i, got, k, part);
    hide Plays, ReceiveParts, Bytes, Clamp, Rounds, RoundSize, SentBefore;
    var q := ReceiveParts(size, i, got, k);
    PlaysHear(p, heard, said, q, part);
    PlaysTell(p, heard + [part], said, q.proceed(part));
  }

  /** An upload as far as the parts go, whatever the frames hold. */
  lemma UploadBegins(st: Store, socket: int, turns: nat, name: Frame, size: Frame, parts: seq<Frame>)
      returns (heard: seq<Frame>, said: seq<Frame>)
    requires turns > 0 && |parts| == RoundsMade(AsInt(size))
    ensures heard == [Num(5), name, size] + parts && said == [Num(6), Num(7)] + Acks(|parts|)
    ensures Plays(CommandLoop(st, socket, turns), heard, said,
      ReceiveEnd(st, AsText(name), AsInt(size), NextCommand(socket, turns), Assembled(AsInt(size), parts, |parts|)))
  {
    var p, path, n := CommandLoop(st, socket, turns), AsText(name), AsInt(size);
    var k := S.AfterParts(st, path, n, NextCommand(socket, turns));
    Begins(p);
    PlaysHear(p, [], [], p, Num(5));
    var q := p.proceed(Num(5));
    PlaysTell(p, [Num(5)], [], q);
    PlaysHear(p, [Num(5)], [Num(6)], q.next, name);
    q := q.next.proceed(name);
    PlaysHear(p, [Num(5), name], [Num(6)], q, size);
    assert [Num(5), name] + [size] == [Num(5), name, size];
    PlaysTell(p, [Num(5), name, size], [Num(6)], q.proceed(size));
    assert q.proceed(size).next == ReceiveParts(n, 0, [], k);
    PartsHeard(p, [Num(5), name, size], [Num(6), Num(7)], n, parts, |parts|, k);
    assert parts[..|parts|] == parts;
    ReceiveRoundsOver(n, |parts|, Assembled(n, parts, |parts|), k);
    heard, said := [Num(5), name, size] + parts, [Num(6), Num(7)] + Acks(|parts|);
  }

  /** An upload that is not completed: if anything but `CP_SEND_FILE_COMPLETE` follows the parts, the content stays on the
      disk and the table is as it was. */
  lemma UploadBroken(st: Store, socket: int, turns: nat, name: Frame, size: Frame, parts: seq<Frame>, end: Frame)
    requires turns > 0 && |parts| == RoundsMade(AsInt(size)) && AsInt(end) != CP_SEND_FILE_COMPLETE
    ensures var content := Assembled(AsInt(size), parts, |parts|);
      Plays(CommandLoop(st, socket, turns), [Num(5), name, size] + parts + [end], [Num(6), Num(7)] + Acks(|parts|),
        CommandLoop(Store(st.files, st.devices, st.disk[Base(AsText(name)) := content]), socket, turns - 1))
  {
    var heard, said := UploadBegins(st, socket, turns, name, size, parts);
    hide Plays, Assembled;
    var q := ReceiveEnd(st, AsText(name), AsInt(size), NextCommand(socket, turns), Assembled(AsInt(size), parts, |parts|));
    PlaysHear(CommandLoop(st, socket, turns), heard, said, q, end);
  }

  lemma UploadHeard(st: Store, socket: int, turns: nat, name: string, size: int, parts: seq<Frame>, mtime: int)
    requires turns > 0 && |parts| == RoundsMade(size)
    ensures var content := Assembled(size, parts, |parts|);
      Plays(CommandLoop(st, socket, turns), [Num(5), Text(name), Num(size)] + parts + [Num(9), Stamp(mtime)],
        [Num(6), Num(7)] + Acks(|parts|) + [Num(11)],
        CommandLoop(Uploaded(st, name, content, mtime, size), socket, turns - 1))
  {
    var p, k, content := CommandLoop(st, socket, turns), NextCommand(socket, turns), Assembled(size, parts, |parts|);
    var heard, said := UploadBegins(st, socket, turns, Text(name), Num(size), parts);
    hide Plays, Assembled, Uploaded;
    var q := ReceiveEnd(st, name, size, k, content);
    PlaysHear(p, heard, said, q, Num(9));
    q := q.proceed(Num(9));
    PlaysTell(p, heard + [Num(9)], said, q);
    PlaysHear(p, heard + [Num(9)], said + [Num(11)], q.next, Stamp(mtime));
    assert q.next.proceed(Stamp(mtime)) == k(Uploaded(st, name, content, AsTime(Stamp(mtime)), size));
    assert heard + [Num(9)] + [Stamp(mtime)] == [Num(5), Text(name), Num(size)] + parts + [Num(9), Stamp(mtime)];
  }

  // ---- Runs ----

  function Record(w: World, disk: map<string, seq<byte>>): Store {
    Store(w.files, w.devices, disk)
  }

  function At(st: Store, e: Event, turns: nat): ServerProgram {
    if e.LogIn? then S.LogIn(st, e.s, turns) else CommandLoop(st, e.s, turns)
  }

  /** Where the session's thread stands after the event: at its next command, or at its end. */
  function Then(st: Store, e: Event, v: Store, turns: nat): ServerProgram {
    if e.LogOut? || (e.LogIn? && !Admits(st.devices)) then Halt(v)
    else CommandLoop(v, e.s, if e.LogIn? || turns == 0 then turns else turns - 1)
  }

  function NamesAfter(names: set<string>, e: Event): set<string> {
    match e
    case Upload(_, name, _, _) => names + {name}
    case Delete(_, name) => names - {name}
    case _ => names
  }

  lemma LogInHeard(st: Store, socket: int, turns: nat, name: string) returns (v: Store)
    ensures v == st.(devices := v.devices) && (!Admits(st.devices) ==> v == st)
    ensures Admits(st.devices) <==> exists k :: 0 <= k < MAXCONNECTIONS && st.devices[k] <= 0
    ensures forall k :: 0 <= k < MAXCONNECTIONS && st.devices[k] <= 0 && (forall j :: 0 <= j < k ==> st.devices[j] > 0) ==>
      v.devices == st.devices[k := socket] == Occupy(st.devices, socket)
    ensures Plays(S.LogIn(st, socket, turns), [Text(name)], [Num(if Admits(st.devices) then 3 else 4)],
      Then(st, Event.LogIn(socket), v, turns))
  {
    v := if Admits(st.devices) then st.(devices := Occupy(st.devices, socket)) else st;
    assert Admits(st.devices) ==> v.devices == st.devices[FirstFree(st.devices, 0) := socket];
    var p := S.LogIn(st, socket, turns);
    Begins(p);
    PlaysHear(p, [], [], p, Text(name));
    PlaysTell(p, [Text(name)], [], p.proceed(Text(name)));
  }

  /** Each event of the runs is what the thread of its session does to the record on hearing the frames of one command, if
      the file of a deletion is on the disk. */
  lemma EventIsServed(w: World, e: Event, disk: map<string, seq<byte>>, turns: nat)
      returns (heard: seq<Frame>, said: seq<Frame>, v: Store)
    requires Enabled(w, e) && turns > 0 && (e.Delete? ==> e.name in disk)
    ensures Plays(At(Record(w, disk), e, turns), heard, said, Then(Record(w, disk), e, v, turns))
    ensures v == Record(Step(w, e), v.disk) && v.disk.Keys == NamesAfter(disk.Keys, e)
  {
    var st := Record(w, disk);
    hide Plays, CommandLoop, LockAnswer, LockIn, UnlockIn, UnlockAnswer, CleanIn, Vacate, Occupy, Assign, Remove, Assembled;
    match e
    case LogIn(s) =>
      v := LogInHeard(st, s, turns, "");
      heard, said := [Text("")], [Num(if Admits(st.devices) then 3 else 4)];
    case LogOut(s) =>
      EndPlays(st, s, turns, Num(CP_CLIENT_END_CONNECTION));
      heard, said, v := [Num(CP_CLIENT_END_CONNECTION)], [], LoggedOut(st, s);
    case Lock(s, name) =>
      LockHeard(st, s, turns, name);
      heard, said, v := [Num(28), Text(name)], [Num(29), Num(LockAnswer(st.files, s, name))],
        st.(files := LockIn(st.files, s, name));
    case Unlock(s, name) =>
      UnlockHeard(st, s, turns, name);
      var e := Entries(st.files);
      heard, said, v := [Num(31), Text(name)],
        [Num(32), Num(if name !in e then 0 else if s in e[name].lock then 33 else 34)], st.(files := UnlockIn(st.files, s, name));
    case Upload(s, name, mtime, size) =>
      var parts := seq(RoundsMade(size), _ => Text(""));
      UploadHeard(st, s, turns, name, size, parts, mtime);
      heard, said, v := [Num(5), Text(name), Num(size)] + parts + [Num(9), Stamp(mtime)],
        [Num(6), Num(7)] + Acks(|parts|) + [Num(11)], Uploaded(st, name, Assembled(size, parts, |parts|), mtime, size);
    case Delete(s, name) =>
      DeleteHeard(st, s, turns, name);
      heard, said, v := [Num(26), Text(name)], [Num(27)], Deleted(st, name);
  }

  /** Only files that are on the disk are deleted. */
  predicate DeletesStored(names: set<string>, es: seq<Event>)
    decreases es
  {
    es == [] || ((es[0].Delete? ==> es[0].name in names) && DeletesStored(NamesAfter(names, es[0]), es[1..]))
  }

  /** The threads of the sessions take the user's store from `st` to `end`, one dialogue after the other. */
  ghost predicate Serves(st: Store, es: seq<Event>, turns: nat, end: Store)
    decreases es
  {
    if es == [] then st == end
    else exists heard, said, v ::
      Plays(At(st, es[0], turns), heard, said, Then(st, es[0], v, turns)) && Serves(v, es[1..], turns, end)
  }

  /** Every run of the sessions is one of their threads, so what holds of the queues and slots in all runs holds of the
      server. */
  lemma {:induction false} RunIsServed(w: World, es: seq<Event>, disk: map<string, seq<byte>>, turns: nat) returns (end: Store)
    requires Possible(w, es) && DeletesStored(disk.Keys, es) && turns > 0
    ensures Serves(Record(w, disk), es, turns, end) && end == Record(Run(w, es), end.disk)
    decreases es
  {
    if es == [] {
      end := Record(w, disk);
    } else {
      var heard, said, v := EventIsServed(w, es[0], disk, turns);
      hide Plays, At, Then, Step, Enabled, NamesAfter;
      end := RunIsServed(Step(w, es[0]), es[1..], v.disk, turns);
    }
  }
}
