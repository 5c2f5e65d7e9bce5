/** The server's handlers as they run, each on its end of a connection and held to its program: it hears and
    writes exactly what the program does, for whatever the other side sends, and leaves the store that the
    program goes on with. Nothing it does to the table, the queues or the slots is more than `Integrity` allows. */
module Handlers {
  import opened Frames
  import opened Programs
  import opened FileTable
  import opened UserRecord
  import opened Devices
  import opened Transfer
  import opened Connections
  import opened Codes
  import opened ServerPrograms
  import opened Integrity

  class ServerSession {
    const socket: int
    const line: Connection<Store>
    var files: Table
    var devices: Slots
    var disk: map<string, seq<byte>>

    ghost function Contents(): Store
      reads this
    {
      Store(files, devices, disk)
    }

    constructor (socket: int, files: Table, devices: Slots, disk: map<string, seq<byte>>, input: seq<Frame>,
          ghost turns: nat)
      ensures Contents() == Store(files, devices, disk) && this.socket == socket && fresh(line)
      ensures line.Valid() && line.input == input == line.unread && line.heard == line.written == []
      ensures line.start == line.program == ServerPrograms.LogIn(Contents(), socket, turns)
    {
      this.socket, this.files, this.devices, this.disk := socket, files, devices, disk;
      line := new Connection(ServerPrograms.LogIn(Store(files, devices, disk), socket, turns), input);
    }

    /** The last part of `receive_file`, the size being known. */
    method TakeFile(path: string, size: int, ghost k: Store -> ServerProgram)
      requires line.Valid() && line.program == ReceiveParts(size, 0, [], AfterParts(Contents(), path, size, k))
      modifies line, `files, `disk
      ensures line.Valid() && line.program == k(Contents()) && line.Extends(old(line.heard), old(line.written))
      ensures Keeps(old(Contents()), Contents(), socket)
    {
      hide Connection<Store>.Valid, ReceiveParts, Assign, AsInt, AsTime, Base, Keeps;
      ghost var st := Contents();
      var content := line.ReceiveContent(size, AfterParts(st, path, size, k));
      disk := disk[Base(path) := content];
      assert Contents() == Written(st, path, content);
      KeepsDisk(st, disk, socket);
      var f := line.Receive();
      if AsInt(f) != CP_SEND_FILE_COMPLETE { return; }
      line.Write(Num(CP_SEND_FILE_COMPLETE_ACK));
      f := line.Receive();
      files := Assign(files, path, AsTime(f), size);
      assert Contents() == Uploaded(st, path, content, AsTime(f), size);
      KeepsUploaded(st, path, content, AsTime(f), size, socket);
    }

    /** `receive_file`. */
    method ReceiveFile(path: string, ghost k: Store -> ServerProgram)
      requires line.Valid() && line.program == ServerPrograms.ReceiveFile(Contents(), path, k)
      modifies line, `files, `disk
      ensures line.Valid() && line.program == k(Contents()) && line.Extends(old(line.heard), old(line.written))
      ensures Keeps(old(Contents()), Contents(), socket)
    {
      hide Connection<Store>.Valid, ReceiveParts, ReceiveEnd, AsInt, Keeps;
      var f := line.Receive();
      line.Write(Num(CP_CLIENT_SEND_FILE_SIZE_ACK));
      TakeFile(path, AsInt(f), k);
    }

    /** `send_file`. */
    method SendFile(path: string, ghost k: Store -> ServerProgram)
      requires line.Valid() && line.program == ServerPrograms.SendFile(Contents(), path, k)
      modifies line
      ensures line.Valid() && line.program == k(Contents()) && line.Extends(old(line.heard), old(line.written))
    {
      hide Connection<Store>.Valid;
      line.Write(Num(CP_CLIENT_GET_FILE_EXISTS));
      if Base(path) !in disk { return; }
      var content := disk[Base(path)];
      line.Write(Num(Wrap(|content|)));
      var f := line.Receive();
      if AsInt(f) != CP_CLIENT_GET_FILE_SIZE_ACK { return; }
      ghost var st := Contents();
      line.SendContent(content, Tell(Num(CP_SEND_FILE_COMPLETE), Expect(CP_SEND_FILE_COMPLETE_ACK, k(st), k(st))));
      line.Write(Num(CP_SEND_FILE_COMPLETE));
      f := line.Receive();
    }

    /** `CP_CLIENT_SEND_FILE` has been read. */
    method TakeUpload(ghost k: Store -> ServerProgram)
      requires line.Valid() && line.program == ServerPrograms.TakeUpload(Contents(), k)
      modifies line, `files, `disk
      ensures line.Valid() && line.program == k(Contents()) && line.Extends(old(line.heard), old(line.written))
      ensures Keeps(old(Contents()), Contents(), socket)
    {
      hide Connection<Store>.Valid, Keeps;
      line.Write(Num(CP_CLIENT_SEND_FILE_ACK));
      var name := line.Receive();
      ReceiveFile(AsText(name), k);
    }

    method GiveDownload(ghost k: Store -> ServerProgram)
      requires line.Valid() && line.program == ServerPrograms.GiveDownload(Contents(), k)
      modifies line
      ensures line.Valid() && line.program == k(Contents()) && line.Extends(old(line.heard), old(line.written))
    {
      hide Connection<Store>.Valid;
      line.Write(Num(CP_CLIENT_GET_FILE_ACK));
      var name := line.Receive();
      SendFile(AsText(name), k);
    }

    /** The end of a round of `sync_server`: do what the client answers. */
    method FollowAnswer(i: nat, count: nat, ghost k: Store -> ServerProgram)
      requires i < count <= MAXFILES && line.Valid() && line.program == RoundAnswer(Contents(), i, count, k)
      modifies line, `files, `disk
      ensures line.program == SyncRounds(Contents(), i + 1, count, k)
      ensures line.Valid() && line.Extends(old(line.heard), old(line.written))
      ensures Keeps(old(Contents()), Contents(), socket)
    {
      AnswerHeard(Contents(), i, count, k);
      KeepsSelf(Contents(), socket);
      hide SyncRounds, RoundAnswer, ServerPrograms.TakeUpload, ServerPrograms.GiveDownload, AsInt;
      hide Connection<Store>.Valid, Keeps;
      var f := line.Receive();
      if AsInt(f) == CP_CLIENT_SEND_FILE {
        TakeUpload(NextRound(i, count, k));
      } else if AsInt(f) == CP_CLIENT_GET_FILE {
        GiveDownload(NextRound(i, count, k));
      }
    }

    /** The beginning of a round of `sync_server`: an entry is offered, by name and time. Without the acknowledgement of its
        name the sync is over. */
    method OfferEntry(i: nat, count: nat, ghost k: Store -> ServerProgram) returns (more: bool)
      requires i < count <= MAXFILES && line.Valid() && line.program == SyncRounds(Contents(), i, count, k)
      modifies line
      ensures line.program == if more then RoundAnswer(Contents(), i, count, k) else k(Contents())
      ensures line.Valid() && line.Extends(old(line.heard), old(line.written))
    {
      RoundHead(Contents(), i, count, k);
      hide SyncRounds, RoundAnswer, AsInt, Connection<Store>.Valid;
      line.Write(Text(files[i].name));
      var f := line.Receive();
      if AsInt(f) != CP_CLIENT_GET_FILE_ACK { return false; }
      line.Write(Stamp(files[i].lastModified));
      return true;
    }

    /** One round of `sync_server`; `more` says whether the loop goes on. */
    method SyncRound(i: nat, count: nat, ghost k: Store -> ServerProgram) returns (more: bool)
      requires i < count <= MAXFILES && line.Valid() && line.program == SyncRounds(Contents(), i, count, k)
      modifies line, `files, `disk
      ensures line.program == if more then SyncRounds(Contents(), i + 1, count, k) else k(Contents())
      ensures line.Valid() && line.Extends(old(line.heard), old(line.written))
      ensures Keeps(old(Contents()), Contents(), socket)
    {
      hide SyncRounds, RoundAnswer, Connection<Store>.Valid, Keeps;
      KeepsSelf(Contents(), socket);
      more := OfferEntry(i, count, k);
      if more { FollowAnswer(i, count, k); }
    }

    /** `sync_server`. */
    method SyncServer(ghost k: Store -> ServerProgram)
      requires line.Valid() && line.program == ServerPrograms.SyncServer(Contents(), k)
      modifies line, `files, `disk
      ensures line.Valid() && line.program == k(Contents()) && line.Extends(old(line.heard), old(line.written))
      ensures Keeps(old(Contents()), Contents(), socket)
    {
      hide Connection<Store>.Valid, Keeps;
      KeepsSelf(Contents(), socket);
      var numberOfFiles := Count(files);
      line.Write(Num(numberOfFiles));
      var f := line.Receive();
      if AsInt(f) != CP_CLIENT_NUMBER_OF_FILES_ACK { return; }
      var i, more := 0, true;
      while i < numberOfFiles
        invariant 0 <= i <= numberOfFiles <= MAXFILES && more
        invariant line.Valid() && line.program == SyncRounds(Contents(), i, numberOfFiles, k)
        invariant line.Extends(old(line.heard), old(line.written)) && Keeps(old(Contents()), Contents(), socket)
      {
        ghost var before := Contents();
        more := SyncRound(i, numberOfFiles, k);
        KeepsOn(old(Contents()), before, Contents(), socket);
        if !more { return; }
        i := i + 1;
      }
    }

    /** `deleteFile`. */
    method DeleteFile(ghost k: Store -> ServerProgram)
      requires line.Valid() && line.program == ServerPrograms.DeleteFile(Contents(), k)
      modifies line, `files, `disk
      ensures line.Valid() && line.program == k(Contents()) && line.Extends(old(line.heard), old(line.written))
      ensures Keeps(old(Contents()), Contents(), socket)
    {
      hide Connection<Store>.Valid, Keeps;
      line.Write(Num(CP_CLIENT_DELETE_FILE_ACK));
      var f := line.Receive();
      var path := AsText(f);
      if path in disk {
        files := Remove(files, Base(path));
        disk := disk - {path};
      }
      assert Contents() == Deleted(old(Contents()), path);
      KeepsDeleted(old(Contents()), path, socket);
    }

    /** `lockFile`. */
    method LockFile(ghost k: Store -> ServerProgram)
      requires line.Valid() && line.program == ServerPrograms.LockFile(Contents(), socket, k)
      modifies line, `files
      ensures line.Valid() && line.program == k(Contents()) && line.Extends(old(line.heard), old(line.written))
      ensures Keeps(old(Contents()), Contents(), socket)
    {
      hide Connection<Store>.Valid, Keeps;
      line.Write(Num(CP_CLIENT_GET_FILE_LOCK_ACK));
      var f := line.Receive();
      KeepsLocks(Contents(), AsText(f), socket);
      var reply := LockAnswer(files, socket, AsText(f));
      files := LockIn(files, socket, AsText(f));
      line.Write(Num(reply));
    }

    /** `unlockFile`. */
    method UnlockFile(ghost k: Store -> ServerProgram)
      requires line.Valid() && line.program == ServerPrograms.UnlockFile(Contents(), socket, k)
      modifies line, `files
      ensures line.Valid() && line.program == k(Contents()) && line.Extends(old(line.heard), old(line.written))
      ensures Keeps(old(Contents()), Contents(), socket)
    {
      hide Connection<Store>.Valid, Keeps;
      line.Write(Num(CP_CLIENT_GET_FILE_UNLOCK_ACK));
      var f := line.Receive();
      KeepsLocks(Contents(), AsText(f), socket);
      var reply := UnlockAnswer(files, socket, AsText(f));
      files := UnlockIn(files, socket, AsText(f));
      line.Write(Num(reply));
    }

    /** The `switch` of `handleConnectionThread`, the command having been read; `done` says that the thread ends. */
    method Serve(command: int, ghost loop: Store -> ServerProgram) returns (done: bool)
      requires line.Valid() && line.program == Dispatch(Contents(), socket, command, loop)
      modifies this, line
      ensures line.program == if done then Halt(Contents()) else loop(Contents())
      ensures line.Valid() && line.Extends(old(line.heard), old(line.written))
      ensures Keeps(old(Contents()), Contents(), socket)
    {
      hide Connection<Store>.Valid, ServerPrograms.TakeUpload, ServerPrograms.GiveDownload, ServerPrograms.SyncServer;
      hide ServerPrograms.DeleteFile, ServerPrograms.LockFile, ServerPrograms.UnlockFile, CleanIn, Vacate, Keeps;
      KeepsSelf(Contents(), socket);
      done := false;
      if command == CP_CLIENT_END_CONNECTION {
        LogOut();
        done := true;
      } else if command == CP_CLIENT_SEND_FILE {
        TakeUpload(loop);
      } else if command == CP_CLIENT_GET_FILE {
        GiveDownload(loop);
      } else if command == CP_SYNC_CLIENT {
        SyncServer(loop);
      } else if command == CP_CLIENT_DELETE_FILE {
        DeleteFile(loop);
      } else if command == CP_CLIENT_GET_FILE_LOCK {
        LockFile(loop);
      } else if command == CP_CLIENT_GET_FILE_UNLOCK {
        UnlockFile(loop);
      } else if command == 0 {
        line.Write(Num(CP_LOGIN_FAILED));
        done := true;
      }
    }

    method LogOut()
      modifies `files, `devices
      ensures Contents() == LoggedOut(old(Contents()), socket)
      ensures Keeps(old(Contents()), Contents(), socket)
    {
      hide Keeps, CleanIn, Vacate;
      KeepsLoggedOut(Contents(), socket);
      files, devices := CleanIn(files, socket), Vacate(devices, socket);
    }

    /** The loop of `handleConnectionThread`, on everything the other side sends. It ends with the session,
        or logs the session out when the connection is closed where a command was expected. */
    method HandleConnection(ghost turns: nat) returns (ghost left: nat, ghost last: Store)
      requires line.Valid() && line.program == CommandLoop(Contents(), socket, turns) && |line.unread| <= turns
      modifies this, line
      ensures line.Valid() && line.Extends(old(line.heard), old(line.written))
      ensures line.program == Halt(Contents())
        || (line.unread == [] && line.program == CommandLoop(last, socket, left) && Contents() == LoggedOut(last, socket))
      ensures Keeps(old(Contents()), Contents(), socket)
    {
      hide Dispatch, CleanIn, Vacate, Plays, Reads, Keeps;
      left, last := turns, Contents();
      KeepsSelf(Contents(), socket);
      while line.unread != []
        invariant line.Valid() && line.program == CommandLoop(Contents(), socket, left) && |line.unread| <= left
        invariant line.Extends(old(line.heard), old(line.written)) && Keeps(old(Contents()), Contents(), socket)
        decreases |line.unread|
      {
        ghost var before, unread := Contents(), line.unread;
        var f := line.Receive();
        assert |line.unread| < |unread|;
        var done := Serve(AsInt(f), NextCommand(socket, left));
        KeepsOn(old(Contents()), before, Contents(), socket);
        if done { return; }
        left := left - 1;
      }
      last := Contents();
      LogOut();
      KeepsOn(old(Contents()), last, Contents(), socket);
    }

    /** `handleConnectionThread`, for the user whose record this is. A connection that is closed before the user's name has
        come is not logged in. */
    method HandleConnectionThread(ghost turns: nat) returns (admitted: bool, ghost left: nat, ghost last: Store)
      requires line.Valid() && line.program == ServerPrograms.LogIn(Contents(), socket, turns) && |line.unread| <= turns
      modifies this, line
      ensures line.Valid() && line.Extends(old(line.heard), old(line.written))
      ensures admitted <==> old(line.unread) != [] && Admits(old(devices))
      ensures !admitted ==> Contents() == old(Contents())
      ensures !admitted ==>
        line.program == if old(line.unread) == [] then ServerPrograms.LogIn(Contents(), socket, turns) else Halt(Contents())
      ensures admitted ==>
        (line.program == Halt(Contents())
         || (line.unread == [] && line.program == CommandLoop(last, socket, left) && Contents() == LoggedOut(last, socket)))
        && Keeps(old(Contents()).(devices := Occupy(old(devices), socket)), Contents(), socket)
    {
      hide CommandLoop, CleanIn, Vacate, Plays, Reads, Keeps;
      left, last, admitted := turns, Contents(), false;
      if line.unread == [] { return; }
      var f := line.Receive();
      if Admits(devices) {
        admitted, devices := true, Occupy(devices, socket);
        line.Write(Num(CP_LOGIN_SUCCESSFUL));
        left, last := HandleConnection(turns);
      } else {
        line.Write(Num(CP_LOGIN_FAILED));
      }
    }
  }
}
