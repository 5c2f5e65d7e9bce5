/** The server's user records and the operations that update them in place. Every operation is
    proved against the functions of `FileTable`, `LockQueue`, `Devices` and `UserRecord`. */
module DropboxServer {
  import opened FileTable
  import opened LockQueue
  import opened Devices
  import opened UserRecord

  class ClientRecord {
    const userId: string
    const devices: array<int>
    const fileInfo: array<FileInfo>
    var loggedIn: bool

    ghost predicate Valid() {
      devices.Length == MAXCONNECTIONS && fileInfo.Length == MAXFILES
    }

    ghost function View(): Client
      requires Valid()
      reads devices, fileInfo
    {
      Client(devices[..], fileInfo[..])
    }

    constructor (userId: string, slots: Slots, files: Table, loggedIn: bool)
      ensures Valid() && fresh(devices) && fresh(fileInfo)
      ensures this.userId == userId && this.loggedIn == loggedIn && View() == Client(slots, files)
    {
      this.userId, this.loggedIn := userId, loggedIn;
      devices := new int[MAXCONNECTIONS](i requires 0 <= i < MAXCONNECTIONS => slots[i]);
      fileInfo := new FileInfo[MAXFILES](i requires 0 <= i < MAXFILES => files[i]);
      new;
      assert devices[..] == slots && fileInfo[..] == files;
    }

    /** `assignNewFile` on the record: a new file takes the first vacant slot, if there is one. */
    method FillSlot(found: int, fileName: string, mtime: int, size: int) returns (ok: bool)
      requires Valid() && found == Find(fileInfo[..], fileName)
      modifies fileInfo
      ensures ok <==> Assigns(old(fileInfo[..]), fileName)
      ensures fileInfo[..] == Assign(old(fileInfo[..]), fileName, mtime, size)
    {
      ghost var t: Table := fileInfo[..];
      var fileIndex := found;
      if fileIndex < 0 {
        var j, done := 0, false;
        while !done && j < MAXFILES
          invariant 0 <= j <= MAXFILES
          invariant !done ==> fileIndex < 0 && forall i :: 0 <= i < j ==> t[i].name != ""
          invariant done ==> fileIndex == Find(t, "") >= 0
        {
          if fileInfo[j].name == "" { fileIndex, done := j, true; }
          j := j + 1;
        }
      }
      assert fileIndex < 0 ==> forall i :: 0 <= i < |t| ==> t[i].name != "";
      assert fileIndex == SlotFor(t, fileName) || (fileIndex < 0 && SlotFor(t, fileName) < 0);
      if fileIndex >= 0 {
        fileInfo[fileIndex] := fileInfo[fileIndex].(name := Base(fileName), lastModified := mtime, size := size);
        return true;
      }
      return false;
    }

    /** The compaction loop of `deleteFile`: from the front to the first vacant slot. */
    method CloseHole(fileIndex: nat, ghost name: string)
      requires Valid() && fileIndex == Find(fileInfo[..], name)
      modifies fileInfo
      ensures fileInfo[..] == Remove(old(fileInfo[..]), name)
    {
      ghost var t: Table := fileInfo[..];
      var i := 0;
      while i < MAXFILES
        invariant 0 <= i <= MAXFILES && fileInfo[..] == t
        invariant forall j :: 0 <= j < i ==> t[j].name != ""
      {
        if fileInfo[i].name == "" {
          assert i == Find(t, "");
          if i == 0 {
          } else if i - 1 == 0 {
            fileInfo[i - 1] := fileInfo[i - 1].(name := "");
          } else if fileIndex < i - 1 {
            fileInfo[fileIndex] := fileInfo[i - 1];
            fileInfo[i - 1] := fileInfo[i - 1].(name := "");
          } else if fileIndex == i - 1 {
            fileInfo[i - 1] := fileInfo[i - 1].(name := "");
          }
          return;
        }
        i := i + 1;
      }
    }

    /** `lockFile` on the record found: append the socket unless it is there, answer by position. */
    method JoinQueue(fileIndex: nat, socket: int) returns (reply: int)
      requires Valid() && fileIndex < MAXFILES
      modifies fileInfo
      ensures fileInfo[..] == WithLock(old(fileInfo[..]), fileIndex, Enqueue(old(fileInfo[fileIndex].lock), socket))
      ensures reply == LockReply(Enqueue(old(fileInfo[fileIndex].lock), socket), socket)
    {
      var q := fileInfo[fileIndex].lock;
      var socketIndex := FindSocket(q, socket);
      if socketIndex < 0 { q := q + [socket]; }
      SetLock(fileIndex, q);
      if q[0] == socket { return LOCK_SUCCESS; }
      return |q|;
    }

    /** `unlockFile` on the record found: erase where the socket was seen last. */
    method LeaveQueue(fileIndex: nat, socket: int) returns (reply: int)
      requires Valid() && fileIndex < MAXFILES
      modifies fileInfo
      ensures fileInfo[..] == WithLock(old(fileInfo[..]), fileIndex, Release(old(fileInfo[fileIndex].lock), socket))
      ensures reply == if socket in old(fileInfo[fileIndex].lock) then UNLOCK_SUCCESS else UNLOCK_FAIL
    {
      var q := fileInfo[fileIndex].lock;
      var socketIndex := FindSocket(q, socket);
      if socketIndex >= 0 {
        SetLock(fileIndex, q[..socketIndex] + q[socketIndex + 1..]);
        return UNLOCK_SUCCESS;
      }
      SetLock(fileIndex, q);
      return UNLOCK_FAIL;
    }

    /** The queue is a field of the record in its slot. */
    method SetLock(fileIndex: nat, q: seq<int>)
      requires Valid() && fileIndex < MAXFILES
      modifies fileInfo
      ensures fileInfo[..] == WithLock(old(fileInfo[..]), fileIndex, q)
    {
      fileInfo[fileIndex] := fileInfo[fileIndex].(lock := q);
    }

    /** The inner loop of `logOutClient`: it erases at `k` and then steps on to `k + 1`. */
    method CleanQueue(j: nat, socket: int)
      requires Valid() && j < MAXFILES
      modifies fileInfo
      ensures fileInfo[..] == WithLock(old(fileInfo[..]), j, SkippingErase(old(fileInfo[j].lock), socket))
    {
      ghost var f, q0 := fileInfo[..], fileInfo[j].lock;
      var k := 0;
      while k < |fileInfo[j].lock|
        invariant 0 <= k && fileInfo[j] == f[j].(lock := fileInfo[j].lock)
        invariant forall i :: 0 <= i < MAXFILES && i != j ==> fileInfo[i] == f[i]
        invariant CleanedFrom(fileInfo[j].lock, k, socket) == SkippingErase(q0, socket)
        decreases |fileInfo[j].lock| - k
      {
        var q := fileInfo[j].lock;
        if q[k] == socket {
          fileInfo[j] := fileInfo[j].(lock := q[..k] + q[k + 1..]);
        }
        EraseStep(q, k, socket);
        k := k + 1;
      }
      ghost var q := fileInfo[j].lock;
      CleanedAtEnd(q, k, socket);
    }

    /** `logOutClient`'s loop over all slots; nameless slots are passed over. */
    method CleanQueues(socket: int)
      requires Valid()
      modifies fileInfo
      ensures fileInfo[..] == CleanIn(old(fileInfo[..]), socket)
    {
      ghost var t := fileInfo[..];
      for j := 0 to MAXFILES
        invariant forall i :: 0 <= i < j ==> fileInfo[i] == CleanSlot(t[i], socket)
        invariant forall i :: j <= i < MAXFILES ==> fileInfo[i] == t[i]
      {
        if fileInfo[j].name != "" {
          ghost var before := fileInfo[..];
          CleanQueue(j, socket);
          assert forall i :: 0 <= i < MAXFILES ==> fileInfo[i] == fileInfo[..][i] && (i != j ==> fileInfo[i] == before[i]);
        }
      }
    }

    /** `logInClient` for a known user: the first slot at or below zero gets the socket. */
    method TakeSlot(socket: int) returns (ok: bool)
      requires Valid()
      modifies devices, this`loggedIn
      ensures ok <==> Admits(old(devices[..]))
      ensures devices[..] == if ok then Occupy(old(devices[..]), socket) else old(devices[..])
      ensures loggedIn == (ok || old(loggedIn))
    {
      ghost var d := devices[..];
      var allUsed := true;
      for j := 0 to MAXCONNECTIONS
        invariant allUsed <==> forall i :: 0 <= i < j ==> d[i] > 0
      {
        if devices[j] <= 0 { allUsed := false; }
      }
      if allUsed { return false; }
      loggedIn := true;
      var j, placed := 0, false;
      while j < MAXCONNECTIONS && !placed
        invariant loggedIn && 0 <= j <= MAXCONNECTIONS
        invariant !placed ==> devices[..] == d && forall i :: 0 <= i < j ==> d[i] > 0
        invariant placed ==> devices[..] == Occupy(d, socket)
      {
        if devices[j] <= 0 {
          devices[j], placed := socket, true;
          assert j == FirstFree(d, 0);
        }
        j := j + 1;
      }
      return true;
    }

    /** `logOutClient`: for every slot that holds the socket, slot 0 is reset. */
    method LeaveSlot(socket: int)
      requires Valid() && socket > 0
      modifies devices
      ensures devices[..] == Vacate(old(devices[..]), socket)
    {
      ghost var d := devices[..];
      var j := 0;
      while j < MAXCONNECTIONS
        invariant 0 <= j <= MAXCONNECTIONS
        invariant devices[..] == if socket in d[..j] then d[0 := -1] else d
      {
        assert d[..j + 1] == d[..j] + [d[j]];
        if devices[j] == socket { devices[0] := -1; }
        j := j + 1;
      }
      assert d[..j] == d;
    }
  }

  /** The search loop of `lockFile` and `unlockFile`: it runs through the whole queue. */
  method FindSocket(q: seq<int>, socket: int) returns (socketIndex: int)
    ensures socketIndex == LastIndex(q, socket)
  {
    socketIndex := -1;
    for i := 0 to |q|
      invariant socketIndex == LastBelow(q, socket, i)
    {
      if q[i] == socket { socketIndex := i; }
    }
  }

  /** What the inner loop will have made of the queue when it stands at `k`. */
  ghost function CleanedFrom(q: seq<int>, k: nat, s: int): seq<int> {
    if k <= |q| then q[..k] + SkippingErase(q[k..], s) else q
  }

  lemma CleanedAtEnd(q: seq<int>, k: nat, s: int)
    requires |q| <= k
    ensures CleanedFrom(q, k, s) == q
  {
    if k == |q| { assert q[..k] == q && q[k..] == []; }
  }

  lemma EraseStep(q: seq<int>, k: nat, s: int)
    requires k < |q|
    ensures CleanedFrom(if q[k] == s then q[..k] + q[k + 1..] else q, k + 1, s) == CleanedFrom(q, k, s)
  {
    var r := q[k..];
    assert r[1..] == q[k + 1..];
    if q[k] != s {
      assert q[..k + 1] == q[..k] + [q[k]];
    } else if k + 1 < |q| {
      var p := q[..k] + q[k + 1..];
      assert p[k + 1..] == q[k + 2..] == r[2..];
      assert p[..k + 1] == q[..k] + [q[k + 1]];
      assert r[1..][..1] == [q[k + 1]];
    } else {
      assert SkippingErase(r, s) == [];
    }
  }

  /** A directory listing that fits the table; the code writes past its buffer on a longer one. */
  type Listing = f: seq<FileInfo> | |f| <= MAXFILES

  /** One directory found at start-up: its user, and its files as `getFileInfo` reads them. */
  datatype SyncDir = SyncDir(userId: string, files: Listing)

  /** What the recovery buffer holds once a directory has been read into it. The buffer is
      shared by all directories, so vacant slots keep the records of earlier ones. */
  function Refill(buffer: Table, files: Listing): Table {
    seq(MAXFILES, i requires 0 <= i < MAXFILES =>
      if i < |files| then buffer[i].(name := files[i].name, lastModified := files[i].lastModified, size := files[i].size)
      else buffer[i].(name := ""))
  }

  /** A directory of at most twenty files is recovered as the map it is, with nobody queued. */
  lemma RecoveredEntries(buffer: Table, files: Listing)
    requires DistinctNames(files)
    requires forall f :: f in files ==> f.name != "" && f.lock == []
    requires forall f :: f in buffer ==> f.lock == []
    ensures WellFormed(Refill(buffer, files))
    ensures forall f :: f in files ==> f.name in Entries(Refill(buffer, files)) && Entries(Refill(buffer, files))[f.name] == f
    ensures forall n :: n in Entries(Refill(buffer, files)) ==> Entries(Refill(buffer, files))[n] in files
  {
    var t := Refill(buffer, files);
    forall i | 0 <= i < |files| ensures t[i] == files[i] && files[i].name != "" {
      assert buffer[i] in buffer && files[i] in files;
    }
    assert WellFormed(t);
    forall f | f in files ensures f.name in Entries(t) && Entries(t)[f.name] == f {
      var i :| 0 <= i < |files| && files[i] == f;
      FoundAt(t, i);
    }
    forall n | n in Entries(t) ensures Entries(t)[n] in files {
      NamesAreFound(t, n);
      assert files[Find(t, n)] in files;
    }
  }

  class DropboxServer {
    var clients: seq<ClientRecord>

    ghost predicate Valid()
      reads this, clients
    {
      && (forall i :: 0 <= i < |clients| ==> clients[i].Valid())
      && (forall i, j :: 0 <= i < j < |clients| ==>
            clients[i].userId != clients[j].userId
            && clients[i].devices != clients[j].devices && clients[i].fileInfo != clients[j].fileInfo)
    }

    ghost predicate Known(userId: string)
      reads this, clients
    {
      exists c :: c in clients && c.userId == userId
    }

    constructor ()
      ensures Valid() && clients == []
    {
      clients := [];
    }

    lemma OnlyRecord(i: nat)
      requires Valid() && i < |clients|
      ensures Known(clients[i].userId)
      ensures forall c :: c in clients && c.userId == clients[i].userId ==> c == clients[i]
      ensures forall c :: c in clients && c.userId != clients[i].userId ==>
        c.fileInfo != clients[i].fileInfo && c.devices != clients[i].devices
    {
    }

    /** `push_back` of one record. */
    method AddRecord(userId: string, slots: Slots, files: Table, loggedIn: bool)
      requires Valid() && !Known(userId)
      modifies this
      ensures Valid() && |clients| == |old(clients)| + 1 && clients[..|old(clients)|] == old(clients)
      ensures clients[|old(clients)|].userId == userId && clients[|old(clients)|].View() == Client(slots, files)
      ensures clients[|old(clients)|].loggedIn == loggedIn
      ensures forall i :: 0 <= i < |old(clients)| ==> clients[i] == old(clients[i]) && clients[i].View() == old(clients[i].View())
    {
      var c := new ClientRecord(userId, slots, files, loggedIn);
      clients := clients + [c];
    }

    method FindUserIndex(userId: string) returns (index: int)
      requires Valid()
      ensures -1 <= index < |clients|
      ensures index >= 0 ==> clients[index].userId == userId
      ensures index < 0 <==> !Known(userId)
    {
      var i := 0;
      while i < |clients|
        invariant 0 <= i <= |clients|
        invariant forall j :: 0 <= j < i ==> clients[j].userId != userId
      {
        if clients[i].userId == userId { return i; }
        i := i + 1;
      }
      return -1;
    }

    method FindUserFile(userId: string, fileName: string) returns (index: int)
      requires Valid()
      ensures !Known(userId) ==> index == -1
      ensures forall c :: c in clients && c.userId == userId ==> index == Find(c.View().files, fileName)
    {
      var userIndex := FindUserIndex(userId);
      if userIndex < 0 { return -1; }
      ghost var t := clients[userIndex].View().files;
      var i := 0;
      while i < MAXFILES
        invariant 0 <= i <= MAXFILES
        invariant forall j :: 0 <= j < i ==> t[j].name != fileName
      {
        if clients[userIndex].fileInfo[i].name == fileName { return i; }
        i := i + 1;
      }
      return -1;
    }

    method CountUserFiles(userId: string) returns (count: int)
      requires Valid()
      ensures !Known(userId) ==> count == -1
      ensures forall c :: c in clients && c.userId == userId ==> count == Count(c.View().files)
    {
      var userIndex := FindUserIndex(userId);
      if userIndex < 0 { return -1; }
      count := 0;
      ghost var t := clients[userIndex].View().files;
      for i := 0 to MAXFILES
        invariant count == CountTo(t, i)
      {
        if clients[userIndex].fileInfo[i].name != "" { count := count + 1; }
      }
    }

    method AssignNewFile(fileName: string, mtime: int, size: int, userId: string) returns (ok: bool)
      requires Valid()
      modifies set c | c in clients :: c.fileInfo
      ensures Valid()
      ensures ok <==> exists c :: c in clients && c.userId == userId && Assigns(old(c.View()).files, fileName)
      ensures forall c :: c in clients ==>
        c.View() == if c.userId != userId then old(c.View())
                    else old(c.View()).(files := Assign(old(c.View()).files, fileName, mtime, size))
    {
      var userIndex := FindUserIndex(userId);
      var fileIndex := FindUserFile(userId, fileName);
      if userIndex < 0 { return false; }
      OnlyRecord(userIndex);
      ok := clients[userIndex].FillSlot(fileIndex, fileName, mtime, size);
    }

    /** The table part of `deleteFile`, once the file itself is gone from the disk. */
    method DeleteFile(userId: string, path: string)
      requires Valid()
      modifies set c | c in clients :: c.fileInfo
      ensures Valid()
      ensures forall c :: c in clients ==>
        c.View() == if c.userId != userId then old(c.View())
                    else old(c.View()).(files := Remove(old(c.View()).files, Base(path)))
    {
      var userIndex := FindUserIndex(userId);
      var fileIndex := FindUserFile(userId, Base(path));
      hide Remove, Find, Base;
      if userIndex < 0 { return; }
      OnlyRecord(userIndex);
      if fileIndex < 0 {
        RemoveAbsent(clients[userIndex].View().files, Base(path));
        return;
      }
      clients[userIndex].CloseHole(fileIndex, Base(path));
    }

    method LockFile(socket: int, userId: string, path: string) returns (reply: int)
      requires Valid()
      modifies set c | c in clients :: c.fileInfo
      ensures Valid()
      ensures !Known(userId) ==> reply == NO_SUCH_FILE
      ensures forall c :: c in clients && c.userId == userId ==> reply == LockAnswer(old(c.View()).files, socket, path)
      ensures forall c :: c in clients ==>
        c.View() == if c.userId != userId then old(c.View())
                    else old(c.View()).(files := LockIn(old(c.View()).files, socket, path))
    {
      var userIndex := FindUserIndex(userId);
      var fileIndex := FindUserFile(userId, Base(path));
      if userIndex < 0 || fileIndex < 0 { return NO_SUCH_FILE; }
      OnlyRecord(userIndex);
      reply := clients[userIndex].JoinQueue(fileIndex, socket);
    }

    method UnlockFile(socket: int, userId: string, path: string) returns (reply: int)
      requires Valid()
      modifies set c | c in clients :: c.fileInfo
      ensures Valid()
      ensures !Known(userId) ==> reply == NO_SUCH_FILE
      ensures forall c :: c in clients && c.userId == userId ==> reply == UnlockAnswer(old(c.View()).files, socket, path)
      ensures forall c :: c in clients ==>
        c.View() == if c.userId != userId then old(c.View())
                    else old(c.View()).(files := UnlockIn(old(c.View()).files, socket, path))
    {
      var userIndex := FindUserIndex(userId);
      var fileIndex := FindUserFile(userId, Base(path));
      if userIndex < 0 || fileIndex < 0 { return NO_SUCH_FILE; }
      OnlyRecord(userIndex);
      reply := clients[userIndex].LeaveQueue(fileIndex, socket);
    }

    /** A known user is admitted while some slot is free; an unknown one becomes a new record. */
    method LogInClient(socket: int, userId: string) returns (ok: bool)
      requires Valid()
      modifies this, clients, set c | c in clients :: c.devices
      ensures Valid()
      ensures ok <==> !old(Known(userId)) || exists c :: c in old(clients) && c.userId == userId && Admits(old(c.View()).devices)
      ensures forall c :: c in old(clients) ==>
        c.View() == if c.userId == userId && ok then old(c.View()).(devices := Occupy(old(c.View()).devices, socket))
                    else old(c.View())
      ensures forall c :: c in old(clients) ==> c.loggedIn == (old(c.loggedIn) || (c.userId == userId && ok))
      ensures old(Known(userId)) ==> clients == old(clients)
      ensures !old(Known(userId)) ==>
        |clients| == |old(clients)| + 1 && clients[..|old(clients)|] == old(clients)
        && var c := clients[|old(clients)|];
          c.userId == userId && c.loggedIn && c.View() == Client([socket, -1, -1, -1, -1], Nameless())
    {
      var i := FindUserIndex(userId);
      if i >= 0 {
        ok := clients[i].TakeSlot(socket);
      } else {
        AddRecord(userId, [socket, -1, -1, -1, -1], Nameless(), true);
        ok := true;
      }
    }

    /** The user is known: only a session that logged in logs out. */
    method LogOutClient(socket: int, userId: string)
      requires Valid() && Known(userId) && socket > 0
      modifies (set c | c in clients :: c.devices), set c | c in clients :: c.fileInfo
      ensures Valid()
      ensures forall c :: c in clients ==>
        c.View() == if c.userId == userId
                    then Client(Vacate(old(c.View()).devices, socket), CleanIn(old(c.View()).files, socket))
                    else old(c.View())
    {
      var userIndex := FindUserIndex(userId);
      clients[userIndex].CleanQueues(socket);
      clients[userIndex].LeaveSlot(socket);
    }

    /** Start-up: one record per directory, in directory order, filled through one shared buffer.
        The device slots the code never sets hold whatever was there. */
    method RecoverData(dirs: seq<SyncDir>, buffer: Table, garbage: Slots)
      requires Valid() && clients == []
      requires forall i, j :: 0 <= i < j < |dirs| ==> dirs[i].userId != dirs[j].userId
      modifies this
      ensures Valid() && |clients| == |dirs|
      ensures forall i :: 0 <= i < |dirs| ==>
        clients[i].userId == dirs[i].userId
        && clients[i].View() == Recovered(buffer, dirs, garbage, i)
    {
      var current := buffer;
      for n := 0 to |dirs|
        invariant Valid() && |clients| == n && current == Refills(buffer, dirs, n)
        invariant forall i :: 0 <= i < n ==> clients[i].userId == dirs[i].userId
        invariant forall i :: 0 <= i < n ==>
          clients[i].View() == Recovered(buffer, dirs, garbage, i)
      {
        current := RecoverDir(current, dirs[n].files);
        assert !Known(dirs[n].userId);
        AddRecord(dirs[n].userId, [-1, -1] + garbage[2..], current, false);
      }
    }
  }

  function Nameless(): Table {
    seq(MAXFILES, _ => VACANT)
  }

  /** The buffer after the first `n` directories. */
  function Refills(buffer: Table, dirs: seq<SyncDir>, n: nat): Table
    requires n <= |dirs|
  {
    if n == 0 then buffer else Refill(Refills(buffer, dirs, n - 1), dirs[n - 1].files)
  }

  /** The record recovered from directory `i`: two slots are set free, the others never set. */
  function Recovered(buffer: Table, dirs: seq<SyncDir>, garbage: Slots, i: nat): Client
    requires i < |dirs|
  {
    Client([-1, -1] + garbage[2..], Refills(buffer, dirs, i + 1))
  }

  lemma {:induction false} RefillsUnlocked(buffer: Table, dirs: seq<SyncDir>, n: nat)
    requires n <= |dirs| && forall f :: f in buffer ==> f.lock == []
    ensures forall f :: f in Refills(buffer, dirs, n) ==> f.lock == []
  {
    if n > 0 {
      RefillsUnlocked(buffer, dirs, n - 1);
      var b, t := Refills(buffer, dirs, n - 1), Refills(buffer, dirs, n);
      forall f | f in t ensures f.lock == [] {
        var i :| 0 <= i < MAXFILES && t[i] == f;
        assert b[i] in b && f.lock == b[i].lock;
      }
    }
  }

  ghost predicate ListsFiles(files: Listing) {
    DistinctNames(files) && forall f :: f in files ==> f.name != "" && f.lock == []
  }

  /** Every user is recovered with exactly the files of their own directory, nobody queued for them, and two free slots,
      although all directories are read through the one buffer. */
  lemma RecoveredAsStored(buffer: Table, dirs: seq<SyncDir>, garbage: Slots, i: nat)
    requires i < |dirs| && (forall d :: d in dirs ==> ListsFiles(d.files)) && forall f :: f in buffer ==> f.lock == []
    ensures var r := Recovered(buffer, dirs, garbage, i);
      && WellFormed(r.files) && r.devices[0] == r.devices[1] == -1
      && (forall f :: f in dirs[i].files ==> f.name in Entries(r.files) && Entries(r.files)[f.name] == f)
      && (forall n :: n in Entries(r.files) ==> Entries(r.files)[n] in dirs[i].files)
  {
    RefillsUnlocked(buffer, dirs, i);
    assert ListsFiles(dirs[i].files);
    hide Entries, Refill, WellFormed;
    RecoveredEntries(Refills(buffer, dirs, i), dirs[i].files);
  }

  /** Names are cleared first, then the directory's files are read into the slots from the front. */
  method RecoverDir(buffer: Table, files: Listing) returns (t: Table)
    ensures t == Refill(buffer, files)
  {
    t := buffer;
    for i := 0 to MAXFILES
      invariant forall j :: 0 <= j < MAXFILES ==> t[j] == if j < i then buffer[j].(name := "") else buffer[j]
    {
      t := t[i := t[i].(name := "")];
    }
    for n := 0 to |files|
      invariant forall j :: 0 <= j < n ==> t[j] == Refill(buffer, files)[j]
      invariant forall j :: n <= j < MAXFILES ==> t[j] == buffer[j].(name := "")
    {
      t := t[n := t[n].(name := files[n].name, lastModified := files[n].lastModified, size := files[n].size)];
    }
  }
}
