# Verification of the Dropbox clone

A Dafny model of a small file-synchronisation system: servers that keep one file table per user, a
client that mirrors a directory, a leader server that copies its dialogue to replicas, and a proxy
that finds another server when one is lost. The model follows the code's branches, constants and error
replies; where the code departs from what it seems to intend, the code is kept, a concrete run shows
the failure, and the exact condition for the intended property is proved.

## How the model is built

The parts, in the order in which they use each other:

- `FileTable.dfy`, `LockQueue.dfy`, `Devices.dfy`, `UserRecord.dfy`: the 20-slot table with its compaction, the lock
  queue of a file, the device slots, as functions on values.
- `DropboxServer.dfy`: the records and operations of the server as classes over arrays, with the loops
  of the code, each proved equal to those functions. `recoverData`'s shared buffer is part of it.
- `LockRuns.dfy`, `LockReplies.dfy`, `LockFaults.dfy`: any interleaving of logins, logouts, locks, unlocks, uploads
  and deletions of one user's sessions; what holds in all runs, and runs in which it goes wrong.
- `Frames.dfy`, `Programs.dfy`, `Network.dfy`: frames and the decimal text of integers; programs as the frames they
  send and wait for; nodes on reliable FIFO channels that step in any order. A leader node forwards what it reads to
  its replicas and reads one frame from each for every frame it writes to the client.
- `Lockstep.dfy`: the theorem about such networks, for any two programs.
- `Transfer.dfy`, `Codes.dfy`, `ServerPrograms.dfy`, `ClientPrograms.dfy`, `DialogueProofs.dfy`: the chunk loops and every
  command of the protocol as a pair of programs, and what each dialogue leaves on both sides.
- `Connections.dfy`, `Handlers.dfy`, `ClientHandlers.dfy`: the same handlers as they run, with their loops, fields and
  early returns, on one end of a connection. Whatever frames the other side sends, and wherever it closes the
  connection, a handler comes to its end having written exactly what its program says to what it heard, and leaves the
  store that the program goes on with. A read on a closed connection finds the zeroed buffer, as it does where
  `SSL_read` returns 0.
- `Integrity.dfy`: what no frames whatever can do to a user's record; every handler is held to it.
- `LockEvents.dfy`: the events of the lock runs as the command loop serves them, frame by frame, so that what holds in all
  runs holds of the server.
- `Breakdowns.dfy`: what each side is left with when a dialogue breaks off.
- `Sync.dfy`, `SyncTheorems.dfy`, `SyncDialogue.dfy`: the reconciliation loop as a change of the two stores, the
  properties of that change, and the proof that the dialogue does exactly it.
- `Sessions.dfy`, `Consistency.dfy`: whole lists of commands, and table against disk.
- `Outcomes.dfy`: what each command leaves behind, said of files by name, of queues and of the disk, at the end of its
  dialogue and of every schedule with replicas.
- `Replicas.dfy`, `ReplicaRuns.dfy`, `Interleavings.dfy`: the replicas, and the main results about the running
  system.
- `Succession.dfy`, `Leaders.dfy`, `Proxy.dfy`, `Threads.dfy`: leader succession on one server and among all of them, the
  proxy's two threads, the client's threads and their mutex.

Times are integers (one per second); directories are maps from names to contents. A file's size is the `int` the code
computes, so a length past 2^31 - 1 wraps as it does there. The result of every connection
attempt, read or write that can fail is a parameter. A command loop is unrolled for as many commands as one
wishes (`turns`).

## Where code and intention part

- A full table (20 files) never loses an entry: `deleteFile` looks for the first vacant slot and finds none
  (Server/dropboxServer.cpp:933-957). The file leaves the disk, the entry stays, the next sync offers it, and a
  client that asks for it waits for ever, because `send_file` announces a missing file as existing
  (Server/dropboxServer.cpp:300-317): `Consistency.DeleteThenSyncIff`, `Interleavings.SessionFinishesIff`.
- Deleting a locked file takes the lock away from its holder, and two sessions can then hold one file:
  `LockFaults.TwoHoldersAfterDelete`.
- Deleting any other file leaves the last record's queue in the vacated slot, where `logOutClient` does not look
  (Server/dropboxServer.cpp:740, 945-949), and the next new file takes it over. Even if no locked or awaited file is ever
  deleted, queues then fill with dead sockets without bound, and a waiting session can be told 30, the success code:
  `LockReplies.DeletionHauntsIff`, `LockFaults.QueuesGrowForever`, `LockFaults.FalseGrant`.
- For a file that is not in the table `lockFile` answers 0, which the client returns as it returns the success code
  (Server/dropboxServer.cpp:1098-1110, Client/dropboxClient.cpp:820-826): `LockReplies.LockKeepsBeliefIff`.
- `logOutClient` frees slot 0, not the slot of the socket (Server/dropboxServer.cpp:757-758). A logout gives nothing back
  when slot 0 is free already or the socket has lost its slot, and each such logout costs the user one session for
  good: `LockRuns.Capacity`, `LockRuns.RefusedIff`, `LockFaults.RefusedWithFour`.
- A client's logout is forwarded to the replicas, each of which counts it as the loss of the leader
  (Server/dropboxServer.cpp:501-503, 525-528, 1371-1374): `Leaders.LogOutMakesTwoLeadersIff`.
- The proxy's threads share the server connection without a lock, so a client frame can be written before the
  replayed login: `Proxy.FrameBeforeLogin`. A successful connection to the last listed server is treated as a
  failure: `Proxy.KeptIff`.
- `_myPosition` is read before it is ever set (Server/dropboxServer.cpp:1487-1500); `Succession.ServerPlace.Start` needs
  the leftover value not to be 1.
- `assignNewFile` searches by the name as sent but stores its base name; with a directory part this can
  store a name twice: `FileTable.AssignKeepsShapeIff`. The clients send base names only.
- The watcher thread is never started by `main` (Client/mainClient.cpp:50); it is modelled all the same.

## Model

| member | source | states |
|---|---|---|
| FileTable.FindFrom | Server/dropboxServer.cpp:876-883 | the search gives the first slot with the name, or -1 when there is none |
| FileTable.NamesAreFound | Server/dropboxServer.cpp:865-884 | a name is in the map a table stands for exactly when a search finds it, and maps to the record found |
| FileTable.FoundAt | Server/dropboxServer.cpp:865-884 | with distinct names every named slot is the one a search for its name ends at |
| FileTable.PrefixNamed | Server/dropboxServer.cpp:55-84 | in a compact table the named slots are exactly those below the file count, which is what lets `sync_server` index a prefix |
| FileTable.CountIsMapSize | Server/dropboxServer.cpp:774-791 | `countUserFiles` is the number of names of the map |
| FileTable.AssignFailsWhenFull | Server/dropboxServer.cpp:635-665 | insertion fails exactly when the name is new and twenty files are stored |
| FileTable.AssignKeepsShape | Server/dropboxServer.cpp:619-666 | inserting or updating keeps names distinct and in a prefix |
| FileTable.AssignRefinesInsert | Server/dropboxServer.cpp:619-666 | `assignNewFile` is insert-or-update on the map from names to records; an old record keeps its queue |
| FileTable.AssignKeepsShapeIff | Server/dropboxServer.cpp:628-651 | with any path as sent, the table stays well formed if and only if the path has no directory part, or nothing is stored, or its base name is not there yet |
| FileTable.BaseAfterSlash | Client/dropboxClient.cpp:283 | the base name of a path is the name after its last slash, whatever the directories are |
| FileTable.RemoveKeepsShape | Server/dropboxServer.cpp:933-957 | swap-with-last deletion keeps names distinct and in a prefix |
| FileTable.RemoveLeavesOthers | Server/dropboxServer.cpp:945-953 | every other name is found where it was, or in the hole if it was last, with its whole record |
| FileTable.RemoveRefines | Server/dropboxServer.cpp:933-957 | with a vacant slot, deletion is removal from the map |
| FileTable.RemoveRefinesIff | Server/dropboxServer.cpp:933-957 | deletion is removal exactly when the name is absent or the table is not full; a full table is left as it was; survivors keep lock holder, queue and metadata |
| FileTable.FullStaysFull | Server/dropboxServer.cpp:635-665 | a full table stays full, with the same names, under uploads and deletions |
| LockQueue.SkippingEraseCleansIff | Server/dropboxServer.cpp:742-748 | the loop that erases at k and steps on removes every occurrence if and only if the socket never stands twice in a row, and then keeps everybody else in order |
| LockQueue.ReleaseIsWithout | Server/dropboxServer.cpp:1207-1215 | without duplicates, unlocking and logging out both remove exactly that socket |
| LockQueue.HeadStays | Server/dropboxServer.cpp:1119-1132 | the lock holder stays at the head when somebody else joins, unlocks or logs out |
| LockQueue.AheadAfterLeaving | Server/dropboxServer.cpp:1207-1215 | a departure takes exactly that socket out of those ahead of a waiting one |
| LockQueue.AheadAfterEnqueue | Server/dropboxServer.cpp:1112-1123 | nobody who asks gets in front of a waiting session, and asking again changes nothing |
| LockQueue.DistinctFits | Server/dropboxServer.cpp:1112-1123 | a queue of live sessions without duplicates is no longer than the number of sessions |
| Devices.FirstFree | Server/dropboxServer.cpp:697-703 | the slot a new session gets is the first free one |
| Devices.FreeSlotsMove | Server/dropboxServer.cpp:692-709 | a login is admitted exactly when a slot is free and then uses up one; a logout gives back at most one |
| UserRecord.NamesDecide | Server/dropboxServer.cpp:865-884 | only the names decide where searches end and whether a table is well formed |
| DropboxServer.ClientRecord.FillSlot | Server/dropboxServer.cpp:635-665 | the loop for the first empty slot and the update make the array the specified table, and report failure exactly when there is no slot |
| DropboxServer.ClientRecord.CloseHole | Server/dropboxServer.cpp:933-957 | the compaction loop makes the array the specified table in each of its branches |
| DropboxServer.ClientRecord.JoinQueue | Server/dropboxServer.cpp:1112-1155 | appends the socket unless it is queued and answers 30 to the head, the queue's length to others |
| DropboxServer.ClientRecord.LeaveQueue | Server/dropboxServer.cpp:1207-1239 | erases the last occurrence and answers whether there was one |
| DropboxServer.ClientRecord.CleanQueue | Server/dropboxServer.cpp:742-748 | the erase-while-iterating loop, on the queue in its slot, ends with the specified queue |
| DropboxServer.ClientRecord.CleanQueues | Server/dropboxServer.cpp:739-750 | exactly the named slots are cleaned |
| DropboxServer.ClientRecord.TakeSlot | Server/dropboxServer.cpp:676-709 | admits while a slot is free, takes the first one and marks the user logged in |
| DropboxServer.ClientRecord.LeaveSlot | Server/dropboxServer.cpp:751-765 | whichever slot holds the socket, slot 0 is freed |
| DropboxServer.FindSocket | Server/dropboxServer.cpp:1113-1118 | the search runs through the queue and gives the last occurrence |
| DropboxServer.RecoveredEntries | Server/dropboxServer.cpp:836-855 | a directory of at most twenty files is recovered as exactly the map it is |
| DropboxServer.RecoverDir | Server/dropboxServer.cpp:836-852 | clearing the names and reading the files gives the refilled buffer |
| DropboxServer.RecoveredAsStored | Server/dropboxServer.cpp:809-862 | every user is recovered with exactly the files of their own directory, nobody queued, although one buffer serves all |
| DropboxServer.DropboxServer.FindUserIndex | Server/dropboxServer.cpp:794-806 | the index of the user's record, or -1 exactly for unknown users |
| DropboxServer.DropboxServer.FindUserFile | Server/dropboxServer.cpp:865-884 | the file's first slot in that user's table, or -1 |
| DropboxServer.DropboxServer.CountUserFiles | Server/dropboxServer.cpp:774-791 | the number of named slots of that user, -1 for an unknown one |
| DropboxServer.DropboxServer.AssignNewFile | Server/dropboxServer.cpp:619-666 | the user's table becomes the specified one, no other record changes, failure is exact |
| DropboxServer.DropboxServer.DeleteFile | Server/dropboxServer.cpp:920-958 | the user's table becomes the specified one, no other record changes |
| DropboxServer.DropboxServer.LockFile | Server/dropboxServer.cpp:1093-1157 | queue and answer as specified, for unknown users and files too; no other record changes |
| DropboxServer.DropboxServer.UnlockFile | Server/dropboxServer.cpp:1188-1242 | queue and answer as specified; no other record changes |
| DropboxServer.DropboxServer.LogInClient | Server/dropboxServer.cpp:669-725 | a known user is admitted while a slot is free, an unknown one gets a new empty record; who is let in is marked logged in |
| DropboxServer.DropboxServer.LogOutClient | Server/dropboxServer.cpp:728-771 | queues cleaned and slot 0 freed, for that user only |
| DropboxServer.DropboxServer.RecoverData | Server/dropboxServer.cpp:809-862 | one record per directory, each refilled through the one shared buffer, three device slots left unset |
| LockRuns.StepKeepsSound | Server/dropboxServer.cpp:1112-1123 | every operation keeps tables well formed and queues free of duplicates |
| LockRuns.StepQueue | Server/dropboxServer.cpp:1066-1242 | each operation acts on each remaining file's queue as specified and on no other; moving, overwriting or adding records leaves queues alone |
| LockRuns.LogOutCleans | Server/dropboxServer.cpp:739-750 | in every reachable state logout leaves no trace of the socket in a named file's queue and keeps the others' order |
| LockRuns.PositionFalls | Client/dropboxClient.cpp:568-599 | the measure of the retry loop: a predecessor's departure lowers the position by exactly one, a retry or anything else leaves those ahead as they are |
| LockRuns.FifoWaiting | Server/dropboxServer.cpp:1112-1147 | over any run, those ahead of a waiting session are those ahead at its start, in order, less the ones who left |
| LockRuns.RetryGrantedIff | Client/dropboxClient.cpp:568-599 | the next retry is granted if and only if everybody who was ahead has unlocked or logged out |
| LockRuns.MutualExclusion | Server/dropboxServer.cpp:1131-1143 | over all runs that delete no granted lock, at most one live session holds a file, and it heads the queue |
| LockRuns.DeleteKeepsHeadsIff | Server/dropboxServer.cpp:933-957 | a deletion keeps every grant at the head of its queue if and only if it deletes no granted file |
| LockRuns.StepGrantsIff | Server/dropboxServer.cpp:1112-1215 | exactly who is granted what after an event: whom it grants something, and all before but the one who gives up |
| LockRuns.HolderKeepsLock | Server/dropboxServer.cpp:945-953 | over any run a holder keeps its lock until it unlocks or logs out, and heads the queue whatever other files are deleted |
| LockRuns.SessionBound | Server/dropboxServer.cpp:676-765 | free slots and live sessions together never exceed five, although logout frees slot 0 |
| LockRuns.Capacity | Server/dropboxServer.cpp:751-765 | free slots, live sessions and the logouts that gave nothing back add up to the same number in every run |
| LockRuns.RefusedIff | Server/dropboxServer.cpp:680-708 | a login is refused exactly when the live sessions and the slots lost make five |
| LockReplies.AnswerMeansGrant | Server/dropboxServer.cpp:1131-1146 | while only live sessions are queued a queue has at most five entries, and both the answer 30 and the returned 0 mean a grant and nothing else |
| LockReplies.DeleteKeepsUnambiguousIff | Server/dropboxServer.cpp:945-953 | the invariant behind the answers, vacant slots with nobody queued included, survives a deletion if and only if it takes no grant and vacates a slot with nobody queued |
| LockReplies.AnswersSurviveDelete | Server/dropboxServer.cpp:933-957 | right after any deletion that takes no grant the answers still mean what they say and queues have at most five entries |
| LockReplies.DeletionHauntsIff | Server/dropboxServer.cpp:739-750 | some later run with clean deletions puts a dead socket into a file's queue if and only if the slot vacated by the deletion had somebody queued |
| LockReplies.BehindTheDead | Server/dropboxServer.cpp:1131-1146 | nobody behind a dead socket is granted the file until that number unlocks it or logs out |
| LockReplies.LockKeepsBeliefIff | Client/dropboxClient.cpp:820-826 | a request keeps belief and grant the same if and only if the file is in the table |
| LockReplies.ClientsBelieveTheTruth | Client/dropboxClient.cpp:820-826 | over all runs with clean deletions no queue exceeds five and nobody waiting for a file is answered 30; if locks are asked for on files of the table, those whose `lockFile` returned 0 are exactly those granted, one per file |
| LockFaults.TwoHoldersAfterDelete | Server/dropboxServer.cpp:945-953 | a run in which a locked file is deleted and uploaded again and two live sessions hold it |
| LockFaults.QueuesGrowForever | Server/dropboxServer.cpp:739-750 | deleting only files that nobody holds or waits for, a file can come to queue any number of dead sockets |
| LockFaults.FalseGrant | Client/dropboxClient.cpp:820-826 | in such a run the only live session has twenty-nine sockets ahead, is answered 30 and takes it for the lock |
| LockFaults.RefusedWithFour | Server/dropboxServer.cpp:751-765 | a run after which a login is refused with four sessions live |
| LockFaults.FullForever | Server/dropboxServer.cpp:933-957 | once full, no run ever changes the names of a table |
| Frames.IntegerFraming | Util/dropboxUtil.cpp:24-52 | `atoi` reads back every integer that `sendInteger` prints |
| Frames.DigitsRead | Util/dropboxUtil.cpp:28-47 | the decimal digits of a number, with anything but a digit after them, read back as the number |
| Programs.OnePlay | Server/dropboxServer.cpp:496-613 | what a program hears decides what it has said and where it stands |
| Connections.Connection.Receive | Util/dropboxUtil.cpp:41-47 | a read gives the next frame, or the zeroed buffer once the other side has closed |
| Lockstep.ForwardToAll | Server/dropboxServer.cpp:501-504 | what the leader reads is written to every replica once, in list order |
| Lockstep.CollectFromAll | Server/dropboxServer.cpp:534-537 | for a frame written to the client one frame is read from every replica |
| Lockstep.LockStep | Server/dropboxServer.cpp:62-187 | for any programs: in every schedule the replicas receive exactly the client's frames, one of their frames is consumed per frame to the client, and all end as the exchange without replicas says |
| Lockstep.LockStepStops | Server/dropboxServer.cpp:300-317 | when client and leader lose each other, every schedule ends in the deadlock |
| Lockstep.StuckOnlyAtTheEnd | Server/dropboxServer.cpp:429-616 | the only state in which nobody can move is that end |
| Transfer.Wrap | Client/dropboxClient.cpp:268-271 | a length assigned to an `int`: itself up to 2^31 - 1, wrapped beyond |
| Transfer.RoundsCover | Client/dropboxClient.cpp:304-318 | every round carries 1 to 256 bytes, all but the last are full, and after the last the size is reached |
| Transfer.RoundsSum | Client/dropboxClient.cpp:304-318 | the round sizes add up to the file's size |
| Transfer.PartsGoUp | Server/dropboxServer.cpp:226-250 | upload direction: both loops make the same number of rounds and the server is left with the file |
| Transfer.PartsGoDown | Client/dropboxClient.cpp:395-410 | download direction: the same |
| Transfer.DeliveredIff | Client/dropboxClient.cpp:268-318 | what arrives is the file if and only if its length is an `int` |
| Connections.Connection.SendContent | Client/dropboxClient.cpp:304-318 | the sending loop, of either side, writes exactly the padded parts and reads one frame for each |
| Connections.Connection.ReceiveContent | Server/dropboxServer.cpp:226-250 | the receiving loop, of either side, keeps exactly the file bytes of each frame it hears |
| Transfer.PartsAssemble | Client/dropboxClient.cpp:395-410 | round trip: assembling the parts of a file gives the file |
| DialogueProofs.UploadRuns | Client/dropboxClient.cpp:248-338 | the upload dialogue runs to its end and leaves the server with the file under its base name, its time and its size |
| DialogueProofs.DownloadRuns | Client/dropboxClient.cpp:341-422 | the download dialogue of a file on disk runs to its end and leaves the client with it, the server as it was |
| DialogueProofs.DownloadStarts | Server/dropboxServer.cpp:297-317 | every download is announced; after that the server goes on as if done when the file is missing |
| Handlers.ServerSession.ReceiveFile | Server/dropboxServer.cpp:190-287 | for any frames, `receive_file` says what its program says to them and leaves the store the program goes on with |
| Handlers.ServerSession.SendFile | Server/dropboxServer.cpp:290-410 | the same of `send_file`, a missing file included |
| Handlers.ServerSession.SyncServer | Server/dropboxServer.cpp:55-187 | the same of the loop of `sync_server`, with the uploads and downloads inside it |
| Handlers.ServerSession.DeleteFile | Server/dropboxServer.cpp:887-960 | the same; nothing changes unless the file can be removed from disk |
| Handlers.ServerSession.LockFile | Server/dropboxServer.cpp:1066-1158 | the same: the socket is queued, then the answer is sent |
| Handlers.ServerSession.UnlockFile | Server/dropboxServer.cpp:1161-1242 | the same |
| Handlers.ServerSession.Serve | Server/dropboxServer.cpp:524-611 | every command is handed to its handler, and the thread ends exactly on the end of the session and on an empty command |
| Handlers.ServerSession.HandleConnection | Server/dropboxServer.cpp:496-613 | on everything a client may send, the command loop says what its program says, and ends with the session, or logs it out where the connection closes at a command; whatever came, named slots are still in front, queues free of duplicates, nobody else has entered or left a queue, and no slot but the first is touched |
| Handlers.ServerSession.HandleConnectionThread | Server/dropboxServer.cpp:443-616 | the whole thread, on any frames: admitted exactly with a name and a free slot, then as above |
| Integrity.AssignIndexable | Server/dropboxServer.cpp:628-651 | whatever path is uploaded, named slots stay in front and hold base names |
| Integrity.RemoveIndexable | Server/dropboxServer.cpp:933-957 | the same of whatever is deleted |
| Integrity.OwnSocketOnly | Server/dropboxServer.cpp:1112-1215 | locking and unlocking move nobody else in a queue |
| Integrity.ErasesOnlyIt | Server/dropboxServer.cpp:742-748 | logging out takes nobody else out, even of a queue with duplicates |
| LockEvents.EndHeard | Server/dropboxServer.cpp:525-528 | on the end message the thread ends with the socket gone from every named file's queue, the others in order, slot 0 free if it stood in a slot, and all else unchanged |
| LockEvents.NothingHeard | Server/dropboxServer.cpp:595-607 | on an empty command it says `CP_LOGIN_FAILED` and ends without logging out |
| LockEvents.UnknownHeard | Server/dropboxServer.cpp:608-611 | any other number is passed over |
| LockEvents.UnlockHeard | Server/dropboxServer.cpp:1188-1239 | the answer to an unlock is 33 exactly if the socket was queued, 34 if not, 0 for an unknown file |
| LockEvents.UploadBroken | Server/dropboxServer.cpp:252-256 | an upload that is not completed leaves its content on disk and the table as it was, whatever the frames |
| LockEvents.LogInHeard | Server/dropboxServer.cpp:461-492 | a login is answered by whether a slot is free, and takes the first free one |
| LockEvents.EventIsServed | Server/dropboxServer.cpp:524-611 | each event of the lock runs is what the session's thread does to the record on hearing one command |
| LockEvents.RunIsServed | Server/dropboxServer.cpp:429-616 | so every run of events is a run of the threads |
| Breakdowns.NotAcknowledged | Client/dropboxClient.cpp:275-279 | a command of the client's that is not acknowledged is given up at once, with -1 from `lockFile` |
| Breakdowns.NotAnnounced | Client/dropboxClient.cpp:372-375 | no file is made unless it is announced, none sent unless its size is acknowledged |
| Breakdowns.EndNotConfirmed | Client/dropboxClient.cpp:412-416 | a download whose end is not confirmed keeps what has arrived |
| Breakdowns.SyncNotAcknowledged | Server/dropboxServer.cpp:70-73 | a sync whose count is not acknowledged is over, with the store as it was |
| Breakdowns.NameNotAcknowledged | Server/dropboxServer.cpp:95-98 | the same of any entry's name |
| Breakdowns.OtherAnswer | Server/dropboxServer.cpp:180-184 | any other answer than an upload or a download moves on to the next entry |
| Breakdowns.SizeNotAcknowledged | Server/dropboxServer.cpp:317-341 | a download whose size is not acknowledged, or whose file is missing, is over after exactly these frames |
| ClientHandlers.ClientSession.SendFile | Client/dropboxClient.cpp:248-338 | for any frames, the client's `send_file` says what its program says to them, nothing for a file it cannot send |
| ClientHandlers.ClientSession.GetFile | Client/dropboxClient.cpp:341-422 | the same of `get_file`, which gives what arrived |
| ClientHandlers.ClientSession.AnswerOffer | Client/dropboxClient.cpp:150-179 | one offer is answered by age, with a download, an upload or `CP_SYNC_FILE_OK`, and a download is stored with its time |
| ClientHandlers.ClientSession.SyncClient | Client/dropboxClient.cpp:95-209 | both loops of `sync_client`, for any frames of the server's, leave directory and dialogue as the program says |
| ClientHandlers.ClientSession.LockFile | Client/dropboxClient.cpp:793-827 | the same of `lockFile`, which gives 0 for the success code, else the number received |
| Sync.UploadInPlace | Server/dropboxServer.cpp:627-658 | an upload of an advertised file overwrites its own slot |
| Sync.RoundStep | Client/dropboxClient.cpp:127-180 | one round does what newest-wins says of the stores before the sync and touches nothing else |
| Sync.FirstLoopDone | Server/dropboxServer.cpp:79-186 | the first loop goes through the table as it was, every entry once |
| Sync.NewArrive | Client/dropboxClient.cpp:182-208 | the second loop brings exactly the new visible files to the server |
| SyncTheorems.SyncOutcome | Client/dropboxClient.cpp:127-208 | what one sync does to every single name, on both sides |
| SyncTheorems.SyncConvergesIff | Client/dropboxClient.cpp:127-208 | both sides end the same if and only if there are at most twenty names in all and files of equal age are equal |
| SyncTheorems.NewestWins | Client/dropboxClient.cpp:161-178 | then every name has the content of the strictly newer side, or of the only one that had it |
| SyncTheorems.HiddenStayHome | Client/dropboxClient.cpp:186-206 | of the other files exactly those go to the server whose name neither begins with a dot nor ends in a tilde |
| SyncTheorems.OfferedOnce | Server/dropboxServer.cpp:79-114 | for any client every entry is offered exactly once, in table order |
| SyncTheorems.FirstSync | Client/dropboxClient.cpp:376-411 | after one sync nobody is behind if and only if the client's clock was not, and the client is ahead only of what it downloaded |
| SyncTheorems.SecondSync | Client/dropboxClient.cpp:161-178 | the next sync downloads nothing and uploads exactly what is ahead |
| SyncTheorems.SettledSync | Client/dropboxClient.cpp:173-178 | a settled pair answers `CP_SYNC_FILE_OK` to every offer and changes nothing |
| SyncTheorems.Stabilises | Client/dropboxClient.cpp:127-208 | the second sync only re-uploads what the first downloaded; the third and all later ones find everything in order |
| SyncTheorems.SyncKeepsReady | Server/dropboxServer.cpp:271-284 | a sync leaves stores fit for the next one |
| SyncDialogue.RoundRuns | Server/dropboxServer.cpp:80-186 | one round of the dialogue, whichever answer, is one step of the model |
| SyncDialogue.PossibleIffStocked | Server/dropboxServer.cpp:300-317 | all rounds can be gone through if and only if what the client will ask for is on disk beforehand |
| SyncDialogue.RoundsStop | Server/dropboxServer.cpp:300-317 | otherwise the dialogue comes to a dead end, where the client takes the next offer for a size or waits |
| SyncDialogue.SyncRuns | Client/dropboxClient.cpp:95-209 | a whole sync against the command loop leaves exactly what the model says |
| Sessions.LockRuns | Client/dropboxClient.cpp:793-827 | the lock dialogue ends with the server's answer read as a grant or a number |
| Sessions.CommandKeepsPlain | Server/dropboxServer.cpp:524-611 | no command breaks the shape of the table |
| Sessions.SessionRuns | Server/dropboxServer.cpp:496-613 | any list of commands that is served runs to its end, client halted, server back at its command read |
| Sessions.SessionStops | Server/dropboxServer.cpp:300-317 | a list that comes to a command whose files are missing gets stuck there |
| Outcomes.UploadLeaves | Client/dropboxClient.cpp:248-338 | an upload by any path leaves the file on disk under the last name of the path, and in the table with its time and size unless it is new and twenty are stored; nothing else changes |
| Outcomes.DownloadLeaves | Client/dropboxClient.cpp:341-422 | a download by any path leaves the client with the content where it asked for it, and the server as it was |
| Outcomes.DeleteLeaves | Server/dropboxServer.cpp:914-957 | a deletion by any path takes the name off the disk, and out of the table if and only if fewer than twenty files are stored; every other name keeps record and content |
| Outcomes.LockLeaves | Client/dropboxClient.cpp:793-827 | the socket is queued once; `lockFile` gives 0 to the head, or if the queue is thirty long, or for an unknown file, else the length of the queue |
| Outcomes.UnlockLeaves | Server/dropboxServer.cpp:1206-1215 | the socket's last place in the queue goes, the others stay in order, nothing else changes |
| Outcomes.LockTellsTheTruth | Client/dropboxClient.cpp:820-826 | while the queues are in order, 0 for a file of the table says that the session heads its queue, any other number is the length, at most five, of the queue it waits in |
| Consistency.CommandKeepsConsistentIff | Server/dropboxServer.cpp:914-957 | every command keeps table and disk in agreement, except exactly a deletion from a full table |
| Consistency.CarefulIsServed | Server/dropboxServer.cpp:496-613 | a session that avoids that, and downloads only what is there, always has what it asks for |
| Consistency.DeleteThenSyncIff | Server/dropboxServer.cpp:933-957 | after a deletion the next sync can be served unless the table was full and the client asks for the file |
| Replicas.CommandLoopAlike | Server/dropboxServer.cpp:429-616 | a replica answers any frames as the leader does, and its store stays the leader's up to the session's socket |
| Replicas.RenamedErase | Server/dropboxServer.cpp:742-748 | logout cleans a queue the same way whatever the socket's number |
| ReplicaRuns.RenamedCommand | Server/dropboxServer.cpp:524-611 | a command does to the replica what it does to the leader |
| ReplicaRuns.TablesStayEqual | Server/dropboxServer.cpp:496-613 | tables that start equal stay equal over any commands, queues up to the session's socket |
| Interleavings.EverySchedule | Server/dropboxServer.cpp:496-613 | for any served commands and any number of replicas, every schedule comes to the one end: client done, channels empty, leader and replicas at the command read, replicas in lock-step |
| Interleavings.SessionFinishesIff | Server/dropboxServer.cpp:290-317 | a session finishes in every schedule if and only if every file it asks for is on disk when it asks; otherwise every schedule deadlocks |
| Interleavings.SyncInEverySchedule | Client/dropboxClient.cpp:95-209 | a sync of the running system ends with the newest contents on both sides, in every schedule and with any replicas |
| Succession.StandsOnceThere | Server/dropboxServer.cpp:1487-1505 | a server listed once gets its own place |
| Succession.StartsAlone | Server/dropboxServer.cpp:1490-1499 | only the first server of the list starts as leader |
| Succession.OneLinkEach | Server/dropboxServer.cpp:1464-1485 | taking over makes one link per other server, in list order, flagged by success |
| Succession.FlagsOnlyFall | Server/dropboxServer.cpp:1511-1513 | over any handler steps a link is live exactly if it was and nothing on it failed |
| Succession.ServerPlace.GetServerListPosition | Server/dropboxServer.cpp:1487-1505 | the last matching entry wins and leadership is taken when the position passes 1 |
| Succession.ServerPlace.ConnectToServers | Server/dropboxServer.cpp:1464-1485 | a leader appends the specified links, a follower nothing |
| Succession.ServerPlace.CloseConnection | Server/dropboxServer.cpp:1367-1382 | a follower moves up, possibly taking over; position and offset keep adding up to the place |
| Succession.ServerPlace.Tee | Server/dropboxServer.cpp:501-504 | one pass over the links turns exactly the failing live ones off |
| Succession.ServerPlace.Start | Server/dropboxServer.cpp:1355-1360 | a server listed once starts at its place, the first as leader with its links |
| Leaders.AtMostOneLeader | Server/dropboxServer.cpp:1362-1376 | over any crashes and delays all followers count the same k losses and any live leader stood at place k + 1 |
| Leaders.SomebodyLeadsIff | Server/dropboxServer.cpp:1362-1376 | once all losses are noticed, somebody leads if and only if the server whose turn it is is up |
| Leaders.ExactlyOneLeader | Server/dropboxServer.cpp:1362-1376 | if servers crash in list order, each when leading, the first one left leads alone |
| Leaders.CloseMakesLeaderIff | Server/dropboxServer.cpp:1371-1376 | a close without a loss makes a leader exactly of a follower at position 2 |
| Leaders.LogOutMakesTwoLeadersIff | Server/dropboxServer.cpp:501-528 | a client's logout passed on to the followers makes a second leader exactly if the next in line is up |
| Proxy.AtMostOnceInOrder | Client/clientProxy.cpp:134-155 | in any interleaving with any losses the client's frames are delivered in order over all sessions, none twice |
| Proxy.DeliveredIff | Client/clientProxy.cpp:136-150 | exactly which frames get through: all that were read from the client but the one in hand and those whose write failed |
| Proxy.OneLoginReply | Client/clientProxy.cpp:361-370 | the client sees at most one login reply, and that first |
| Proxy.ShownExactly | Client/clientProxy.cpp:171-186 | the client is shown the first login reply and then every frame read from a server, in order and once, up to the one in hand or the first that could not be written |
| Proxy.EndsIff | Client/clientProxy.cpp:137-143 | the proxy ends exactly when the client cannot be read or written or no listed server is left; a thread is gone only once `_error` is set |
| Proxy.TestsObeyed | Client/clientProxy.cpp:152-154 | with `_error` set a thread is gone two moves after its test; with no server connected the client is not read |
| Proxy.BeginsIff | Client/clientProxy.cpp:336-359 | an accepted session began with the login if and only if the client's thread wrote nothing to it between its opening and the login |
| Proxy.LoginComesFirstIff | Client/clientProxy.cpp:336-359 | over any run, all accepted sessions began with the login if and only if no accepted one had such a write |
| Proxy.FrameBeforeLogin | Client/clientProxy.cpp:146-149 | a run in which a frame of the client's goes out between the handshake and the login, and the session is accepted |
| Proxy.ConnectsAlone | Client/clientProxy.cpp:288-390 | undisturbed, the thread's steps through `connect_server` have the specified effect |
| Proxy.ReconnectsAlone | Client/clientProxy.cpp:187-206 | so have its steps through the whole search for another server |
| Proxy.ServerLostAlone | Client/clientProxy.cpp:146-149 | a lost server is sent the end message and marked down, by either thread |
| Proxy.ClientLostAlone | Client/clientProxy.cpp:137-143 | a lost client closes both sides and ends the thread, either one |
| Proxy.KeptIff | Client/clientProxy.cpp:188-206 | after a loss the proxy goes on if and only if some server but the last of the list accepts it |
| Proxy.ClientProxy.CloseServerConnection | Client/clientProxy.cpp:227-236 | sends the end message on the current connection and marks it down |
| Proxy.ClientProxy.ConnectServer | Client/clientProxy.cpp:288-390 | every early return leaves the fields as specified; success exactly when accepted |
| Proxy.ClientProxy.Reconnect | Client/clientProxy.cpp:188-206 | the cursor loop leaves the specified state, giving up included |
| Threads.HandleOpened | Client/dropboxClient.cpp:565-599 | the retry loop for an opened file takes the specified path |
| Threads.ThreadDisciplined | Client/dropboxClient.cpp:565-648 | every turn of every thread takes and gives the mutex in turn, holds it through whole dialogues, touches the connection only then and never sleeps with it |
| Threads.TurnCarries | Client/dropboxClient.cpp:565-625 | what a turn puts on the connection is its dialogues, whole, in order and nothing else |
| Threads.OnceForEachTry | Client/dropboxClient.cpp:568-599 | the watcher takes the mutex once for every try, so between two tries others can have it |
| Threads.TakenAsOftenAsGiven | Client/dropboxClient.cpp:865-873 | every thread releases the mutex exactly as often as it takes it |
| Threads.DialoguesAreWhole | Client/mainClient.cpp:54-87 | in any interleaving the connection carries whole dialogues and at most the beginning of one more, each thread's own in its order, all of them in the end, and somebody can always move until then |

## Left out

- OpenSSL, sockets, DNS, certificates and `ifconfig`: a connection is a FIFO of whole 256-byte frames. Failures are
  modelled in the succession, the proxy and the handlers, not inside the network of `Interleavings`.
- The real file system, inotify and permissions: directories are maps; `fopen` of an existing name succeeds, and the temporary
  truncation of a file during its transfer is not seen.
- `strftime`, `strptime`, `mktime`: times are integers with an exact conversion, and equal strings mean equal times.
- C strings: user ids and times fit their buffers and hold no NUL. Names may have up to 255 characters here, as the clients
  allow; the code's table has room for 19, so of longer names the results say what a wider field would give; the extension field is left out; `memcpy` over
  a record with a vector in it is a copy of the value.
- Handlers.ServerSession.ReceiveFile: reads and writes that fail with an error are not modelled, only connections that close;
  a frame of another kind than the code reads at that point counts as empty text, zero bytes or time 0.
- ClientHandlers.ClientSession.GetFile: the `fclose(NULL)` after an unexpected acknowledgement is not modelled; the
  command is given up.
- ClientHandlers.ClientSession.AnswerOffer: an offer read from a closed connection has an empty name, for which the code
  would look at the directory itself; here it is a missing file.
- Handlers.ServerSession.HandleConnection: `CP_LIST_SERVER` and `CP_FIND_LEADER` count as unknown commands; the retry
  counter for failing reads is left out.
- Lockstep.LockStep: one client session per leader and replicas that stay up; the replicas' one connection shared by several
  clients and the shared iterator are not modelled.
- LockRuns.MutualExclusion: lock runs leave out `case 0`, which closes a session without logging it out, and requests
  whose name is empty or has a slash, which the clients never send.
- LockFaults.QueuesGrowForever: a new session may have any number that no live session of the user has; in the running
  server other users' connections decide which descriptors are free.
- Interleavings.EverySchedule: a session begins and ends at the command read; login and logout are in `LockEvents` but not in the
  list of commands, because what a logout makes of the replicas is the subject of `Leaders`.
- LockEvents.EventIsServed: one dialogue of a user's sessions after the other; dialogues of several sessions are not cut into
  each other.
- Handlers.ServerSession.HandleConnectionThread: the name read at login is taken to be that of the user whose record this is.
- Sync theorems: file lengths are at most 2^31 - 1, names are non-empty and without slash.
- Leaders.AtMostOneLeader: each follower notices each leader's crash once; other closes are `Leaders.CloseMakesLeaderIff`.
- Proxy.AtMostOnceInOrder: a failed write delivers nothing; frames lost on a loss are not resent, as in the code.
- Threads.DialoguesAreWhole: a dialogue is a number of reads and writes; what it says is in `ClientPrograms.dfy`.
- `_clientStructMutex`: operations on the records are atomic steps of the runs.
- `list_client`, `list_server`, `readComand`, printing, `getCPMessage`: user interface and look-ups.
- `Client/mainClient2.cpp`: not built.
