/** The client's side: each command of the user, the watcher or the periodic sync as a program. */
module ClientPrograms {
  import opened Frames
  import opened Programs
  import opened FileTable
  import opened LockQueue
  import opened Transfer
  import opened Codes
  import opened ServerPrograms

  datatype LocalFile = LocalFile(content: seq<byte>, mtime: int)

  /** The client's sync directory and its working directory, and a record of the dialogue: the
      names offered and the answers given in the latest sync, and the results of lock requests. */
  datatype Local = Local(
    dir: map<string, LocalFile>, cwd: map<string, seq<byte>>,
    offered: seq<string>, answers: seq<int>, locks: seq<int>)

  type ClientProgram = Program<Local>

  function Await(next: Frame -> ClientProgram): ClientProgram {
    Hear(_ => None, next)
  }

  /** Reads on if the code is the expected one, gives the command up if not. */
  function AwaitCode(code: int, ok: ClientProgram, bad: ClientProgram): ClientProgram {
    Await(f => if AsInt(f) == code then ok else bad)
  }

  predicate LongName(path: string) {
    |Base(path)| > FRAME_SIZE - 1
  }

  /** `send_file`. A file that cannot be opened, or has too long a name, sends nothing at all. */
  function SendFile(path: string, file: Option<LocalFile>, next: ClientProgram): ClientProgram {
    if LongName(path) || file.None? then next
    else
      var content := file.value.content;
      Tell(Num(CP_CLIENT_SEND_FILE), AwaitCode(CP_CLIENT_SEND_FILE_ACK,
        Tell(Text(Base(path)), Tell(Num(Wrap(|content|)), AwaitCode(CP_CLIENT_SEND_FILE_SIZE_ACK,
          SendParts(content, Wrap(|content|), 0,
            Tell(Num(CP_SEND_FILE_COMPLETE), AwaitCode(CP_SEND_FILE_COMPLETE_ACK,
              Tell(Stamp(file.value.mtime), next), next))),
          next))),
        next))
  }

  /** The end of `get_file`, all parts being there. */
  function GetEnd(k: Option<seq<byte>> -> ClientProgram, content: seq<byte>): ClientProgram {
    AwaitCode(CP_SEND_FILE_COMPLETE, Tell(Num(CP_SEND_FILE_COMPLETE_ACK), k(Some(content))), k(Some(content)))
  }

  function AfterParts(k: Option<seq<byte>> -> ClientProgram): (f: seq<byte> -> ClientProgram)
    ensures forall content :: f(content) == GetEnd(k, content)
  {
    content => GetEnd(k, content)
  }

  /** `get_file`: the file's content, or nothing if the dialogue broke off before the file was made. */
  function GetFile(path: string, k: Option<seq<byte>> -> ClientProgram): ClientProgram {
    if LongName(path) then k(None)
    else
      Tell(Num(CP_CLIENT_GET_FILE), AwaitCode(CP_CLIENT_GET_FILE_ACK,
        Tell(Text(Base(path)), AwaitCode(CP_CLIENT_GET_FILE_EXISTS,
          Await(size => Tell(Num(CP_CLIENT_GET_FILE_SIZE_ACK), ReceiveParts(AsInt(size), 0, [], AfterParts(k)))),
          k(None))),
        k(None)))
  }

  function DeleteRemote(path: string, next: ClientProgram): ClientProgram {
    Tell(Num(CP_CLIENT_DELETE_FILE), AwaitCode(CP_CLIENT_DELETE_FILE_ACK, Tell(Text(Base(path)), next), next))
  }

  function Lock(path: string, k: int -> ClientProgram): ClientProgram {
    Tell(Num(CP_CLIENT_GET_FILE_LOCK), AwaitCode(CP_CLIENT_GET_FILE_LOCK_ACK,
      Tell(Text(Base(path)), Await(reply => k(LockResult(AsInt(reply))))), k(-1)))
  }

  function Unlock(path: string, next: ClientProgram): ClientProgram {
    Tell(Num(CP_CLIENT_GET_FILE_UNLOCK), AwaitCode(CP_CLIENT_GET_FILE_UNLOCK_ACK,
      Tell(Text(Base(path)), Await(_ => next)), next))
  }

  /** The client once a file offered in a sync has been downloaded; the copy is as old as the
      moment it was written, not as the server's file. */
  function Downloaded(me: Local, name: string, got: Option<seq<byte>>, now: int): Local {
    if got.None? then me else me.(dir := me.dir[name := LocalFile(got.value, now)])
  }

  function Answered(me: Local, answer: int): Local {
    me.(answers := me.answers + [answer])
  }

  /** The answer to one offered file: download what is missing or newer there, upload what is
      newer here, and say so when the times agree. */
  function Choice(dir: map<string, LocalFile>, name: string, mtime: int): int {
    if name !in dir || dir[name].mtime < mtime then CP_CLIENT_GET_FILE
    else if dir[name].mtime > mtime then CP_CLIENT_SEND_FILE
    else CP_SYNC_FILE_OK
  }

  /** The loop of `sync_client` over the offered files. `clock` says when each download is written. */
  function SyncRounds(me: Local, left: int, clock: string -> int, k: Local -> ClientProgram): ClientProgram
    decreases left, 2
  {
    if left <= 0 then k(me)
    else
      Await(offer => Tell(Num(CP_CLIENT_GET_FILE_ACK), Await(time => OnOffer(me, AsText(offer), AsTime(time), left, clock, k))))
  }

  /** One offer, by name and time. */
  function OnOffer(me: Local, name: string, mtime: int, left: int, clock: string -> int,
        k: Local -> ClientProgram): ClientProgram
    requires left > 0
    decreases left, 1
  {
    var choice := Choice(me.dir, name, mtime);
    var it := Answered(me.(offered := me.offered + [name]), choice);
    if choice == CP_CLIENT_GET_FILE then GetFile(name, AfterDownload(it, name, left, clock, k))
    else if choice == CP_CLIENT_SEND_FILE then SendFile(name, Some(me.dir[name]), SyncRounds(it, left - 1, clock, k))
    else Tell(Num(CP_SYNC_FILE_OK), SyncRounds(it, left - 1, clock, k))
  }

  function AfterDownload(me: Local, name: string, left: int, clock: string -> int, k: Local -> ClientProgram)
    : (f: Option<seq<byte>> -> ClientProgram)
    requires left > 0
    ensures forall got :: f(got) == SyncRounds(Downloaded(me, name, got, clock(name)), left - 1, clock, k)
    decreases left, 0
  {
    got => SyncRounds(Downloaded(me, name, got, clock(name)), left - 1, clock, k)
  }

  predicate Visible(name: string) {
    name != "" && name[0] != '.' && name[|name| - 1] != '~'
  }

  function FileIn(dir: map<string, LocalFile>, name: string): Option<LocalFile> {
    if name in dir then Some(dir[name]) else None
  }

  /** The second loop of `sync_client`: visible files that were not offered are uploaded, in the
      order the directory lists them. */
  function UploadNew(me: Local, listing: seq<string>, k: Local -> ClientProgram): ClientProgram {
    if listing == [] then k(me)
    else if !Visible(listing[0]) || listing[0] in me.offered then UploadNew(me, listing[1..], k)
    else SendFile(listing[0], FileIn(me.dir, listing[0]), UploadNew(me, listing[1..], k))
  }

  function ThenUploadNew(listing: seq<string>, k: Local -> ClientProgram): (f: Local -> ClientProgram)
    ensures forall me :: f(me) == UploadNew(me, listing, k)
  {
    me => UploadNew(me, listing, k)
  }

  function Sync(me: Local, listing: seq<string>, clock: string -> int, k: Local -> ClientProgram): ClientProgram {
    Tell(Num(CP_SYNC_CLIENT), Await(count => Tell(Num(CP_CLIENT_NUMBER_OF_FILES_ACK),
      SyncRounds(me.(offered := [], answers := []), AsInt(count), clock, ThenUploadNew(listing, k)))))
  }
}
