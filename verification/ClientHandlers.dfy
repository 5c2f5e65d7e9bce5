/** The client's commands as they run, held to their programs in the same way. */
module ClientHandlers {
  import opened Frames
  import opened Programs
  import opened FileTable
  import opened LockQueue
  import opened Transfer
  import opened Connections
  import opened Codes
  import opened S = ServerPrograms
  import opened C = ClientPrograms

  class ClientSession {
    const line: Connection<Local>
    var dir: map<string, LocalFile>
    var cwd: map<string, seq<byte>>
    var offered: seq<string>
    var answers: seq<int>
    var locks: seq<int>

    ghost function Contents(): Local
      reads this
    {
      Local(dir, cwd, offered, answers, locks)
    }

    constructor (dir: map<string, LocalFile>, cwd: map<string, seq<byte>>, input: seq<Frame>, ghost p: ClientProgram)
      ensures Contents() == Local(dir, cwd, [], [], []) && fresh(line)
      ensures line.Valid() && line.input == input == line.unread && line.start == line.program == p
    {
      this.dir, this.cwd, offered, answers, locks := dir, cwd, [], [], [];
      line := new Connection(p, input);
    }

    /** The last part of `send_file`, the size being acknowledged. */
    method SendBody(file: LocalFile, ghost next: ClientProgram)
      requires line.Valid()
      requires line.program == SendParts(file.content, Wrap(|file.content|), 0, Tell(Num(CP_SEND_FILE_COMPLETE),
        AwaitCode(CP_SEND_FILE_COMPLETE_ACK, Tell(Stamp(file.mtime), next), next)))
      modifies line
      ensures line.Valid() && line.program == next && line.Extends(old(line.heard), old(line.written))
    {
      hide Connection<Local>.Valid, SendParts, Wrap, AsInt;
      line.SendContent(file.content, Tell(Num(CP_SEND_FILE_COMPLETE),
        AwaitCode(CP_SEND_FILE_COMPLETE_ACK, Tell(Stamp(file.mtime), next), next)));
      line.Write(Num(CP_SEND_FILE_COMPLETE));
      var f := line.Receive();
      if AsInt(f) != CP_SEND_FILE_COMPLETE_ACK { return; }
      line.Write(Stamp(file.mtime));
    }

    /** `send_file`. */
    method SendFile(path: string, file: Option<LocalFile>, ghost next: ClientProgram)
      requires line.Valid() && line.program == C.SendFile(path, file, next)
      modifies line
      ensures line.Valid() && line.program == next && line.Extends(old(line.heard), old(line.written))
    {
      hide Connection<Local>.Valid, SendParts, Wrap, Base, AsInt;
      if LongName(path) || file.None? { return; }
      line.Write(Num(CP_CLIENT_SEND_FILE));
      var f := line.Receive();
      if AsInt(f) != CP_CLIENT_SEND_FILE_ACK { return; }
      line.Write(Text(Base(path)));
      line.Write(Num(Wrap(|file.value.content|)));
      f := line.Receive();
      if AsInt(f) != CP_CLIENT_SEND_FILE_SIZE_ACK { return; }
      SendBody(file.value, next);
    }

    /** The last part of `get_file`, the size being known. */
    method TakeFile(size: int, ghost k: Option<seq<byte>> -> ClientProgram) returns (content: seq<byte>)
      requires line.Valid() && line.program == ReceiveParts(size, 0, [], C.AfterParts(k))
      modifies line
      ensures line.Valid() && line.program == k(Some(content)) && line.Extends(old(line.heard), old(line.written))
    {
      hide Connection<Local>.Valid, ReceiveParts;
      content := line.ReceiveContent(size, C.AfterParts(k));
      var f := line.Receive();
      if AsInt(f) != CP_SEND_FILE_COMPLETE { return; }
      line.Write(Num(CP_SEND_FILE_COMPLETE_ACK));
    }

    /** `get_file`: what arrives, if the dialogue gets as far as the file. */
    method GetFile(path: string, ghost k: Option<seq<byte>> -> ClientProgram) returns (got: Option<seq<byte>>)
      requires line.Valid() && line.program == C.GetFile(path, k)
      modifies line
      ensures line.Valid() && line.program == k(got) && line.Extends(old(line.heard), old(line.written))
    {
      hide Connection<Local>.Valid, ReceiveParts, GetEnd, Base, AsInt;
      got := None;
      if LongName(path) { return; }
      line.Write(Num(CP_CLIENT_GET_FILE));
      var f := line.Receive();
      if AsInt(f) != CP_CLIENT_GET_FILE_ACK { return; }
      line.Write(Text(Base(path)));
      f := line.Receive();
      if AsInt(f) != CP_CLIENT_GET_FILE_EXISTS { return; }
      f := line.Receive();
      line.Write(Num(CP_CLIENT_GET_FILE_SIZE_ACK));
      var content := TakeFile(AsInt(f), k);
      got := Some(content);
    }

    /** The answer to one offer; `clock` says when a download is written. */
    method AnswerOffer(name: string, mtime: int, left: int, clock: string -> int, ghost k: Local -> ClientProgram)
      requires left > 0 && line.Valid() && line.program == OnOffer(Contents(), name, mtime, left, clock, k)
      modifies line, `dir, `offered, `answers
      ensures line.program == C.SyncRounds(Contents(), left - 1, clock, k)
      ensures line.Valid() && line.Extends(old(line.heard), old(line.written))
    {
      hide C.SyncRounds, C.GetFile, C.SendFile;
      hide Connection<Local>.Valid;
      ghost var me := Contents();
      var choice := Choice(dir, name, mtime);
      offered, answers := offered + [name], answers + [choice];
      ghost var it := Contents();
      assert it == Answered(me.(offered := me.offered + [name]), choice);
      if choice == CP_CLIENT_GET_FILE {
        var got := GetFile(name, AfterDownload(it, name, left, clock, k));
        if got.Some? { dir := dir[name := LocalFile(got.value, clock(name))]; }
        assert Contents() == Downloaded(it, name, got, clock(name));
      } else if choice == CP_CLIENT_SEND_FILE {
        SendFile(name, Some(dir[name]), C.SyncRounds(it, left - 1, clock, k));
      } else {
        line.Write(Num(CP_SYNC_FILE_OK));
      }
    }

    /** One round of the first loop of `sync_client`. */
    method SyncRound(left: int, clock: string -> int, ghost k: Local -> ClientProgram)
      requires left > 0 && line.Valid() && line.program == C.SyncRounds(Contents(), left, clock, k)
      modifies line, `dir, `offered, `answers
      ensures line.program == C.SyncRounds(Contents(), left - 1, clock, k)
      ensures line.Valid() && line.Extends(old(line.heard), old(line.written))
    {
      hide C.SyncRounds, OnOffer, AsText, AsTime;
      hide Connection<Local>.Valid;
      ghost var me := Contents();
      RoundHeard(me, left, clock, k, BLANK, BLANK);
      var name := line.Receive();
      RoundHeard(me, left, clock, k, name, BLANK);
      line.Write(Num(CP_CLIENT_GET_FILE_ACK));
      var mtime := line.Receive();
      RoundHeard(me, left, clock, k, name, mtime);
      AnswerOffer(AsText(name), AsTime(mtime), left, clock, k);
    }

    /** The first loop of `sync_client`: every offer is answered. */
    method AnswerOffers(count: int, clock: string -> int, ghost k: Local -> ClientProgram)
      requires line.Valid() && line.program == C.SyncRounds(Contents(), count, clock, k)
      modifies line, `dir, `offered, `answers
      ensures line.Valid() && line.program == k(Contents()) && line.Extends(old(line.heard), old(line.written))
    {
      hide Connection<Local>.Valid;
      var left := count;
      while left > 0
        invariant line.Valid() && line.program == C.SyncRounds(Contents(), left, clock, k)
        invariant line.Extends(old(line.heard), old(line.written))
      {
        SyncRound(left, clock, k);
        left := left - 1;
      }
    }

    /** The second loop: what was not offered is uploaded, in the order of the listing. */
    method UploadOthers(listing: seq<string>, ghost k: Local -> ClientProgram)
      requires line.Valid() && line.program == UploadNew(Contents(), listing, k)
      modifies line
      ensures line.Valid() && line.program == k(Contents()) && line.Extends(old(line.heard), old(line.written))
    {
      hide C.SendFile;
      hide Connection<Local>.Valid;
      var j := 0;
      assert listing[0..] == listing;
      while j < |listing|
        invariant 0 <= j <= |listing|
        invariant line.Valid() && line.program == UploadNew(Contents(), listing[j..], k)
        invariant line.Extends(old(line.heard), old(line.written))
      {
        var name := listing[j];
        assert listing[j..][0] == name && listing[j..][1..] == listing[j + 1..];
        if Visible(name) && name !in offered {
          SendFile(name, FileIn(dir, name), UploadNew(Contents(), listing[j + 1..], k));
        }
        j := j + 1;
      }
    }

    /** `sync_client`. */
    method SyncClient(listing: seq<string>, clock: string -> int, ghost k: Local -> ClientProgram)
      requires line.Valid() && line.program == C.Sync(Contents(), listing, clock, k)
      modifies line, `dir, `offered, `answers
      ensures line.Valid() && line.program == k(Contents()) && line.Extends(old(line.heard), old(line.written))
    {
      hide C.SyncRounds, UploadNew;
      hide Connection<Local>.Valid;
      line.Write(Num(CP_SYNC_CLIENT));
      var f := line.Receive();
      line.Write(Num(CP_CLIENT_NUMBER_OF_FILES_ACK));
      offered, answers := [], [];
      AnswerOffers(AsInt(f), clock, ThenUploadNew(listing, k));
      UploadOthers(listing, k);
    }

    /** `delete_file`. */
    method DeleteFile(path: string, ghost next: ClientProgram)
      requires line.Valid() && line.program == DeleteRemote(path, next)
      modifies line
      ensures line.Valid() && line.program == next && line.Extends(old(line.heard), old(line.written))
    {
      hide Connection<Local>.Valid;
      line.Write(Num(CP_CLIENT_DELETE_FILE));
      var f := line.Receive();
      if AsInt(f) != CP_CLIENT_DELETE_FILE_ACK { return; }
      line.Write(Text(Base(path)));
    }

    /** `unlockFile`. */
    method UnlockFile(path: string, ghost next: ClientProgram)
      requires line.Valid() && line.program == C.Unlock(path, next)
      modifies line
      ensures line.Valid() && line.program == next && line.Extends(old(line.heard), old(line.written))
    {
      hide Connection<Local>.Valid;
      line.Write(Num(CP_CLIENT_GET_FILE_UNLOCK));
      var f := line.Receive();
      if AsInt(f) != CP_CLIENT_GET_FILE_UNLOCK_ACK { return; }
      line.Write(Text(Base(path)));
      f := line.Receive();
    }

    /** `lockFile`: 0 for the lock, else the number received, or -1. */
    method LockFile(path: string, ghost k: int -> ClientProgram) returns (r: int)
      requires line.Valid() && line.program == C.Lock(path, k)
      modifies line
      ensures line.Valid() && line.program == k(r) && line.Extends(old(line.heard), old(line.written))
    {
      hide Connection<Local>.Valid;
      line.Write(Num(CP_CLIENT_GET_FILE_LOCK));
      var f := line.Receive();
      if AsInt(f) != CP_CLIENT_GET_FILE_LOCK_ACK { return -1; }
      line.Write(Text(Base(path)));
      f := line.Receive();
      return LockResult(AsInt(f));
    }
  }

  lemma RoundHeard(me: Local, left: int, clock: string -> int, k: Local -> ClientProgram, offer: Frame, time: Frame)
    requires left > 0
    ensures var p := C.SyncRounds(me, left, clock, k);
      p.Hear? && var p1 := p.proceed(offer);
      p1.Tell? && p1.frame == Num(CP_CLIENT_GET_FILE_ACK) && p1.next.Hear?
      && p1.next.proceed(time) == OnOffer(me, AsText(offer), AsTime(time), left, clock, k)
  {
  }
}
