/** The server's side of one session with one user, as a program over its connection. */
module ServerPrograms {
  import opened Frames
  import opened Programs
  import opened FileTable
  import opened UserRecord
  import opened Devices
  import opened Transfer
  import opened Codes

  /** What the server keeps for the user: the table, the device slots and the directory on disk. */
  datatype Store = Store(files: Table, devices: Slots, disk: map<string, seq<byte>>)

  type ServerProgram = Program<Store>

  /** A read whose frame goes to the replicas as it came. */
  function Read(next: Frame -> ServerProgram): ServerProgram {
    Hear(f => Some(f), next)
  }

  /** A read that must give `code`; the code is passed on only when it does. */
  function Expect(code: int, ok: ServerProgram, bad: ServerProgram): ServerProgram {
    Hear(f => if AsInt(f) == code then Some(Num(code)) else None, f => if AsInt(f) == code then ok else bad)
  }

  /** The string a program reads from a frame. Dates and file parts are never read as one. */
  function AsText(f: Frame): string {
    match f
    case Text(s) => s
    case Num(n) => Printed(n)
    case _ => ""
  }

  function AsTime(f: Frame): int {
    if f.Stamp? then f.t else 0
  }

  function Written(st: Store, path: string, content: seq<byte>): Store {
    st.(disk := st.disk[Base(path) := content])
  }

  /** The store once an upload is complete; a full table leaves the file on disk only. */
  function Uploaded(st: Store, path: string, content: seq<byte>, mtime: int, size: int): Store {
    Written(st, path, content).(files := Assign(st.files, path, mtime, size))
  }

  function ReceiveTime(st: Store, path: string, size: int, k: Store -> ServerProgram,
        content: seq<byte>): ServerProgram {
    Read(mtime => k(Uploaded(st, path, content, AsTime(mtime), size)))
  }

  /** The end of `receive_file`, all parts being there. */
  function ReceiveEnd(st: Store, path: string, size: int, k: Store -> ServerProgram,
        content: seq<byte>): ServerProgram {
    Expect(CP_SEND_FILE_COMPLETE,
      Tell(Num(CP_SEND_FILE_COMPLETE_ACK), ReceiveTime(st, path, size, k, content)),
      k(Written(st, path, content)))
  }

  function AfterParts(st: Store, path: string, size: int, k: Store -> ServerProgram): (f: seq<byte> -> ServerProgram)
    ensures forall content :: f(content) == ReceiveEnd(st, path, size, k, content)
  {
    content => ReceiveEnd(st, path, size, k, content)
  }

  /** `receive_file`, the name being known. */
  function ReceiveFile(st: Store, path: string, k: Store -> ServerProgram): ServerProgram {
    Read(size => Tell(Num(CP_CLIENT_SEND_FILE_SIZE_ACK),
      ReceiveParts(AsInt(size), 0, [], AfterParts(st, path, AsInt(size), k))))
  }

  /** `CP_CLIENT_SEND_FILE` has been read, in the command loop or in a sync round. */
  function TakeUpload(st: Store, k: Store -> ServerProgram): ServerProgram {
    Tell(Num(CP_CLIENT_SEND_FILE_ACK), Read(name => ReceiveFile(st, AsText(name), k)))
  }

  /** `send_file`, the name being known. A missing file is announced as existing all the same. */
  function SendFile(st: Store, path: string, k: Store -> ServerProgram): ServerProgram {
    Tell(Num(CP_CLIENT_GET_FILE_EXISTS),
      if Base(path) !in st.disk then k(st)
      else
        var content := st.disk[Base(path)];
        Tell(Num(Wrap(|content|)),
          Expect(CP_CLIENT_GET_FILE_SIZE_ACK,
            SendParts(content, Wrap(|content|), 0,
              Tell(Num(CP_SEND_FILE_COMPLETE), Expect(CP_SEND_FILE_COMPLETE_ACK, k(st), k(st)))),
            k(st))))
  }

  function GiveDownload(st: Store, k: Store -> ServerProgram): ServerProgram {
    Tell(Num(CP_CLIENT_GET_FILE_ACK), Read(name => SendFile(st, AsText(name), k)))
  }

  /** `deleteFile` after the name is read: nothing happens unless the file can be removed from disk. */
  function Deleted(st: Store, path: string): Store {
    if path !in st.disk then st
    else st.(files := Remove(st.files, Base(path)), disk := st.disk - {path})
  }

  function DeleteFile(st: Store, k: Store -> ServerProgram): ServerProgram {
    Tell(Num(CP_CLIENT_DELETE_FILE_ACK), Read(name => k(Deleted(st, AsText(name)))))
  }

  function LockFile(st: Store, socket: int, k: Store -> ServerProgram): ServerProgram {
    Tell(Num(CP_CLIENT_GET_FILE_LOCK_ACK), Read(name => AnswerLock(st, socket, AsText(name), k)))
  }

  function AnswerLock(st: Store, socket: int, path: string, k: Store -> ServerProgram): ServerProgram {
    Tell(Num(LockAnswer(st.files, socket, path)), k(st.(files := LockIn(st.files, socket, path))))
  }

  function UnlockFile(st: Store, socket: int, k: Store -> ServerProgram): ServerProgram {
    Tell(Num(CP_CLIENT_GET_FILE_UNLOCK_ACK), Read(name => AnswerUnlock(st, socket, AsText(name), k)))
  }

  function AnswerUnlock(st: Store, socket: int, path: string, k: Store -> ServerProgram): ServerProgram {
    Tell(Num(UnlockAnswer(st.files, socket, path)), k(st.(files := UnlockIn(st.files, socket, path))))
  }

  /** The rounds of `sync_server` from index `i` on: entry `i` of the table as it is by then. */
  function SyncRounds(st: Store, i: nat, count: nat, k: Store -> ServerProgram): ServerProgram
    requires count <= MAXFILES
    decreases count - i, 2
  {
    if i >= count then k(st)
    else
      Tell(Text(st.files[i].name),
        Expect(CP_CLIENT_GET_FILE_ACK, Tell(Stamp(st.files[i].lastModified), RoundAnswer(st, i, count, k)), k(st)))
  }

  function RoundAnswer(st: Store, i: nat, count: nat, k: Store -> ServerProgram): ServerProgram
    requires i < count <= MAXFILES
    decreases count - i, 1
  {
    Read(answer =>
      if AsInt(answer) == CP_CLIENT_SEND_FILE then TakeUpload(st, NextRound(i, count, k))
      else if AsInt(answer) == CP_CLIENT_GET_FILE then GiveDownload(st, NextRound(i, count, k))
      else SyncRounds(st, i + 1, count, k))
  }

  function NextRound(i: nat, count: nat, k: Store -> ServerProgram): (f: Store -> ServerProgram)
    requires i < count <= MAXFILES
    ensures forall s :: f(s) == SyncRounds(s, i + 1, count, k)
    decreases count - i, 0
  {
    s => SyncRounds(s, i + 1, count, k)
  }

  lemma RoundHead(st: Store, i: nat, count: nat, k: Store -> ServerProgram)
    requires i < count <= MAXFILES
    ensures SyncRounds(st, i, count, k) == Tell(Text(st.files[i].name),
      Expect(CP_CLIENT_GET_FILE_ACK, Tell(Stamp(st.files[i].lastModified), RoundAnswer(st, i, count, k)), k(st)))
  {
  }

  lemma AnswerHeard(st: Store, i: nat, count: nat, k: Store -> ServerProgram)
    requires i < count <= MAXFILES
    ensures RoundAnswer(st, i, count, k).Hear? && forall f :: RoundAnswer(st, i, count, k).forward(f) == Some(f)
    ensures forall f :: (RoundAnswer(st, i, count, k).proceed(f) ==
      if AsInt(f) == CP_CLIENT_SEND_FILE then TakeUpload(st, NextRound(i, count, k))
      else if AsInt(f) == CP_CLIENT_GET_FILE then GiveDownload(st, NextRound(i, count, k))
      else SyncRounds(st, i + 1, count, k))
  {
  }

  function SyncServer(st: Store, k: Store -> ServerProgram): ServerProgram {
    Tell(Num(Count(st.files)), Expect(CP_CLIENT_NUMBER_OF_FILES_ACK, SyncRounds(st, 0, Count(st.files), k), k(st)))
  }

  function LoggedOut(st: Store, socket: int): Store {
    st.(files := CleanIn(st.files, socket), devices := Vacate(st.devices, socket))
  }

  /** What the command loop does with a command. */
  function Dispatch(st: Store, socket: int, command: int, loop: Store -> ServerProgram): ServerProgram {
    if command == CP_CLIENT_END_CONNECTION then Halt(LoggedOut(st, socket))
    else if command == CP_CLIENT_SEND_FILE then TakeUpload(st, loop)
    else if command == CP_CLIENT_GET_FILE then GiveDownload(st, loop)
    else if command == CP_SYNC_CLIENT then SyncServer(st, loop)
    else if command == CP_CLIENT_DELETE_FILE then DeleteFile(st, loop)
    else if command == CP_CLIENT_GET_FILE_LOCK then LockFile(st, socket, loop)
    else if command == CP_CLIENT_GET_FILE_UNLOCK then UnlockFile(st, socket, loop)
    else if command == 0 then Tell(Num(CP_LOGIN_FAILED), Halt(st))
    else loop(st)
  }

  /** The command loop, unrolled for `turns` commands and then once more at its read. */
  function CommandLoop(st: Store, socket: int, turns: nat): ServerProgram
    decreases turns, 1
  {
    Read(command =>
      if turns == 0 then Halt(st) else Dispatch(st, socket, AsInt(command), NextCommand(socket, turns)))
  }

  function NextCommand(socket: int, turns: nat): (f: Store -> ServerProgram)
    requires turns > 0
    ensures forall s :: f(s) == CommandLoop(s, socket, turns - 1)
    decreases turns, 0
  {
    s => CommandLoop(s, socket, turns - 1)
  }

  /** The start of `handleConnectionThread`, for the user whose store this is. */
  function LogIn(st: Store, socket: int, turns: nat): ServerProgram {
    Read(_ =>
      if Admits(st.devices) then
        Tell(Num(CP_LOGIN_SUCCESSFUL), CommandLoop(st.(devices := Occupy(st.devices, socket)), socket, turns))
      else Tell(Num(CP_LOGIN_FAILED), Halt(st)))
  }
}
