/** The sync dialogue, frame by frame: the two loops of `sync_client` against `sync_server` and
    the command loop leave exactly what `Sync` says. */
module SyncDialogue {
  import opened Frames
  import opened Programs
  import opened FileTable
  import opened Transfer
  import opened Codes
  import opened S = ServerPrograms
  import opened C = ClientPrograms
  import opened DialogueProofs
  import opened Sync

  /** What the server does once it reads the answer to entry `i`. */
  ghost predicate RoundServer(h: ServerProgram, st: Store, i: nat, count: nat, k: Store -> ServerProgram)
    requires i < count <= MAXFILES
  {
    && Answers(h, CP_CLIENT_SEND_FILE, TakeUpload(st, NextRound(i, count, k)))
    && Answers(h, CP_CLIENT_GET_FILE, GiveDownload(st, NextRound(i, count, k)))
    && Answers(h, CP_SYNC_FILE_OK, S.SyncRounds(st, i + 1, count, k))
  }

  lemma Compose(c0: ClientProgram, s0: ServerProgram, a: nat, c1: ClientProgram, s1: ServerProgram, b: nat,
                c2: ClientProgram, s2: ServerProgram) returns (n: nat)
    requires Shakes(c0, s0, a, c1, s1) && Shakes(c1, s1, b, c2, s2)
    ensures n == a + b && Shakes(c0, s0, n, c2, s2)
  {
    n := a + b;
    ShakesOn(c0, s0, a, c1, s1, b, c2, s2);
  }

  lemma RoundStarts(me: Local, st: Store, i: nat, count: nat, clock: string -> int, kc: Local -> ClientProgram,
        ks: Store -> ServerProgram)
      returns (h: ServerProgram)
    requires i < count <= MAXFILES
    ensures RoundServer(h, st, i, count, ks)
    ensures Shakes(C.SyncRounds(me, count - i, clock, kc), S.SyncRounds(st, i, count, ks), 3,
      OnOffer(me, st.files[i].name, st.files[i].lastModified, count - i, clock, kc), h)
  {
    var c0, s0 := C.SyncRounds(me, count - i, clock, kc), S.SyncRounds(st, i, count, ks);
    var c, s := Next(c0, s0, 0, c0, s0);
    c, s := Next(c0, s0, 1, c, s);
    c, h := Next(c0, s0, 2, c, s);
    AnswerRead(st, i, count, ks);
  }

  lemma AnswerRead(st: Store, i: nat, count: nat, ks: Store -> ServerProgram)
    requires i < count <= MAXFILES
    ensures RoundServer(RoundAnswer(st, i, count, ks), st, i, count, ks)
  {
  }

  /** The rest of a round, whichever of the three answers the client gives. */
  lemma RoundEnds(me: Local, st: Store, i: nat, count: nat, clock: string -> int, kc: Local -> ClientProgram,
        ks: Store -> ServerProgram,
                  h: ServerProgram) returns (n: nat)
    requires i < count <= MAXFILES && PlainName(st.files[i].name) && RoundServer(h, st, i, count, ks)
    requires Choose(me, st.files[i]) == CP_CLIENT_GET_FILE ==> st.files[i].name in st.disk
    ensures Shakes(OnOffer(me, st.files[i].name, st.files[i].lastModified, count - i, clock, kc), h, n,
      C.SyncRounds(ClientAfterRound(me, st, i, clock), count - i - 1, clock, kc),
      S.SyncRounds(ServerAfterRound(me, st, i), i + 1, count, ks))
  {
    hide C.SyncRounds, S.SyncRounds;
    var name := st.files[i].name;
    var choice := Choice(me.dir, name, st.files[i].lastModified);
    var it := Answered(me.(offered := me.offered + [name]), choice);
    if choice == CP_CLIENT_GET_FILE {
      n := DownloadRuns(name, AfterDownload(it, name, count - i, clock, kc), st, h, NextRound(i, count, ks));
    } else if choice == CP_CLIENT_SEND_FILE {
      n := UploadRuns(name, me.dir[name], C.SyncRounds(it, count - i - 1, clock, kc), st, h, NextRound(i, count, ks));
    } else {
      n := 1;
      assert Shakes(C.SyncRounds(it, count - i - 1, clock, kc), S.SyncRounds(st, i + 1, count, ks), 0,
        C.SyncRounds(it, count - i - 1, clock, kc), S.SyncRounds(st, i + 1, count, ks));
    }
  }

  /** One round of the sync loop. */
  lemma RoundRuns(me: Local, st: Store, i: nat, count: nat, clock: string -> int, kc: Local -> ClientProgram,
        ks: Store -> ServerProgram)
      returns (n: nat)
    requires i < count <= MAXFILES && PlainName(st.files[i].name)
    requires Choose(me, st.files[i]) == CP_CLIENT_GET_FILE ==> st.files[i].name in st.disk
    ensures Shakes(C.SyncRounds(me, count - i, clock, kc), S.SyncRounds(st, i, count, ks), n,
      C.SyncRounds(ClientAfterRound(me, st, i, clock), count - i - 1, clock, kc),
      S.SyncRounds(ServerAfterRound(me, st, i), i + 1, count, ks))
  {
    hide Shakes, C.SyncRounds, S.SyncRounds, ClientAfterRound, ServerAfterRound, OnOffer, RoundServer, Choose;
    var h := RoundStarts(me, st, i, count, clock, kc, ks);
    var m := RoundEnds(me, st, i, count, clock, kc, ks, h);
    n := Compose(C.SyncRounds(me, count - i, clock, kc), S.SyncRounds(st, i, count, ks), 3,
      OnOffer(me, st.files[i].name, st.files[i].lastModified, count - i, clock, kc), h, m,
      C.SyncRounds(ClientAfterRound(me, st, i, clock), count - i - 1, clock, kc),
      S.SyncRounds(ServerAfterRound(me, st, i), i + 1, count, ks));
  }

  /** Every offered name can be sent, and every file the client asks for is on disk. */
  predicate RoundsPossible(me: Local, st: Store, i: nat, count: nat, clock: string -> int)
    requires count <= MAXFILES
    decreases count - i
  {
    i >= count ||
    (&& PlainName(st.files[i].name)
     && (Choose(me, st.files[i]) == CP_CLIENT_GET_FILE ==> st.files[i].name in st.disk)
     && RoundsPossible(ClientAfterRound(me, st, i, clock), ServerAfterRound(me, st, i), i + 1, count, clock))
  }

  /** All rounds can be gone through if and only if what the client will ask for is on disk before
      the first of them. */
  lemma {:induction false} PossibleIffStocked(me: Local, st: Store, i: nat, count: nat, clock: string -> int)
    requires PlainTable(st.files) && i <= count == Count(st.files)
    ensures RoundsPossible(me, st, i, count, clock) <==> Stocked(me, st, i, count)
    decreases count - i
  {
    if i < count {
      PrefixNamed(st.files, i);
      assert st.files[i] in st.files;
      if Choose(me, st.files[i]) == CP_CLIENT_GET_FILE ==> st.files[i].name in st.disk {
        RoundKeepsStock(me, st, i, count, clock);
        PossibleIffStocked(ClientAfterRound(me, st, i, clock), ServerAfterRound(me, st, i), i + 1, count, clock);
      }
    }
  }

  lemma RoundsUnfold(me: Local, st: Store, i: nat, count: nat, clock: string -> int)
    requires i < count <= MAXFILES && RoundsPossible(me, st, i, count, clock)
    ensures var me1, st1 := ClientAfterRound(me, st, i, clock), ServerAfterRound(me, st, i);
      PlainName(st.files[i].name) && RoundsPossible(me1, st1, i + 1, count, clock)
      && (Choose(me, st.files[i]) == CP_CLIENT_GET_FILE ==> st.files[i].name in st.disk)
      && AfterRounds(me, st, i, count, clock) == AfterRounds(me1, st1, i + 1, count, clock)
  {
  }

  lemma NoRoundsLeft(me: Local, st: Store, count: nat, clock: string -> int, kc: Local -> ClientProgram,
        ks: Store -> ServerProgram)
    requires count <= MAXFILES
    ensures Shakes(C.SyncRounds(me, 0, clock, kc), S.SyncRounds(st, count, count, ks), 0,
      kc(AfterRounds(me, st, count, count, clock).0), ks(AfterRounds(me, st, count, count, clock).1))
  {
  }

  /** All rounds, from entry `i` on. */
  lemma {:induction false} RoundsRun(me: Local, st: Store, i: nat, count: nat, clock: string -> int,
                                     kc: Local -> ClientProgram, ks: Store -> ServerProgram) returns (n: nat)
    requires i <= count <= MAXFILES && RoundsPossible(me, st, i, count, clock)
    ensures Shakes(C.SyncRounds(me, count - i, clock, kc), S.SyncRounds(st, i, count, ks), n,
      kc(AfterRounds(me, st, i, count, clock).0), ks(AfterRounds(me, st, i, count, clock).1))
    decreases count - i
  {
    hide *;
    if i == count {
      NoRoundsLeft(me, st, count, clock, kc, ks);
      n := 0;
    } else {
      RoundsUnfold(me, st, i, count, clock);
      var a := RoundRuns(me, st, i, count, clock, kc, ks);
      var me1, st1 := ClientAfterRound(me, st, i, clock), ServerAfterRound(me, st, i);
      var b := RoundsRun(me1, st1, i + 1, count, clock, kc, ks);
      n := Compose(C.SyncRounds(me, count - i, clock, kc), S.SyncRounds(st, i, count, ks), a,
        C.SyncRounds(me1, count - i - 1, clock, kc), S.SyncRounds(st1, i + 1, count, ks), b,
        kc(AfterRounds(me1, st1, i + 1, count, clock).0), ks(AfterRounds(me1, st1, i + 1, count, clock).1));
    }
  }

  function DownloadContinues(me: Local, f: FileInfo, left: int, clock: string -> int, kc: Local -> ClientProgram)
    : (k: Option<seq<byte>> -> ClientProgram)
    requires left > 0
    ensures Choice(me.dir, f.name, f.lastModified) == CP_CLIENT_GET_FILE ==>
      GetFile(f.name, k) == OnOffer(me, f.name, f.lastModified, left, clock, kc)
  {
    AfterDownload(Answered(me.(offered := me.offered + [f.name]), CP_CLIENT_GET_FILE), f.name, left, clock, kc)
  }

  lemma RoundAsks(me: Local, st: Store, i: nat, count: nat, clock: string -> int, kc: Local -> ClientProgram,
        ks: Store -> ServerProgram)
      returns (c: ClientProgram)
    requires i < count <= MAXFILES && PlainName(st.files[i].name)
    requires Choose(me, st.files[i]) == CP_CLIENT_GET_FILE && st.files[i].name !in st.disk
    ensures Shakes(C.SyncRounds(me, count - i, clock, kc), S.SyncRounds(st, i, count, ks), 7, c, S.SyncRounds(st, i + 1, count, ks))
    ensures c.Hear? && forall f :: c.proceed(f) == AwaitSize(DownloadContinues(me, st.files[i], count - i, clock, kc)).proceed(f)
  {
    hide Shakes, C.SyncRounds, S.SyncRounds, OnOffer, GetFile, AwaitSize;
    var f, next := st.files[i], NextRound(i, count, ks);
    var k := DownloadContinues(me, f, count - i, clock, kc);
    var h := RoundStarts(me, st, i, count, clock, kc, ks);
    var s;
    c, s := DownloadStarts(f.name, k, st, h, next);
    var n := Compose(C.SyncRounds(me, count - i, clock, kc), S.SyncRounds(st, i, count, ks), 3, GetFile(f.name, k),
      h, 4, c, s);
  }

  /** The client has asked for a file that is not there. The server says it exists and goes on as if
      it had sent it: the client takes the next offer for the size, or nothing comes at all. */
  lemma RoundStops(me: Local, st: Store, i: nat, count: nat, clock: string -> int, kc: Local -> ClientProgram,
        ks: Store -> ServerProgram)
      returns (n: nat, c: ClientProgram, s: ServerProgram)
    requires i < count <= MAXFILES && PlainName(st.files[i].name) && ks(st).Hear?
    requires Choose(me, st.files[i]) == CP_CLIENT_GET_FILE && st.files[i].name !in st.disk
    ensures Shakes(C.SyncRounds(me, count - i, clock, kc), S.SyncRounds(st, i, count, ks), n, c, s) && DeadEnd(c, s)
  {
    hide C.SyncRounds, S.SyncRounds, AwaitSize, Shakes, DownloadContinues;
    var c0, s0, k := C.SyncRounds(me, count - i, clock, kc), S.SyncRounds(st, i, count, ks), DownloadContinues(me,
      st.files[i], count - i, clock, kc);
    c := RoundAsks(me, st, i, count, clock, kc, ks);
    s := S.SyncRounds(st, i + 1, count, ks);
    n := 7;
    if i + 1 < count {
      NotTheSize(k, Text(st.files[i + 1].name), st, i + 1, count, ks);
      c, s := Next(c0, s0, n, c, s);
      n := n + 1;
    } else {
      NoRounds(st, i + 1, count, ks);
    }
  }

  lemma NoRounds(st: Store, i: nat, count: nat, ks: Store -> ServerProgram)
    requires i >= count && count <= MAXFILES
    ensures S.SyncRounds(st, i, count, ks) == ks(st)
  {
  }

  lemma NotTheSize(k: Option<seq<byte>> -> ClientProgram, f: Frame, st: Store, i: nat, count: nat,
        ks: Store -> ServerProgram)
    requires i < count <= MAXFILES && ks(st).Hear?
    ensures var s := S.SyncRounds(st, i, count, ks);
      s.Tell? && s.frame == Text(st.files[i].name) && DeadEnd(AwaitSize(k).proceed(f), s.next)
  {
  }

  lemma {:induction false} RoundsStop(me: Local, st: Store, i: nat, count: nat, clock: string -> int,
                                      kc: Local -> ClientProgram, ks: Store -> ServerProgram)
      returns (n: nat, c: ClientProgram, s: ServerProgram)
    requires PlainTable(st.files) && i <= count == Count(st.files) && !Stocked(me, st, i, count)
    requires forall st' :: ks(st').Hear?
    ensures Shakes(C.SyncRounds(me, count - i, clock, kc), S.SyncRounds(st, i, count, ks), n, c, s) && DeadEnd(c, s)
    decreases count - i
  {
    hide Shakes, C.SyncRounds, S.SyncRounds, DeadEnd, Choose, ClientAfterRound, ServerAfterRound, Count;
    PlainAt(st, i);
    if Choose(me, st.files[i]) == CP_CLIENT_GET_FILE && st.files[i].name !in st.disk {
      n, c, s := RoundStops(me, st, i, count, clock, kc, ks);
    } else {
      RoundKeepsStock(me, st, i, count, clock);
      var me1, st1 := ClientAfterRound(me, st, i, clock), ServerAfterRound(me, st, i);
      var a := RoundRuns(me, st, i, count, clock, kc, ks);
      var b;
      b, c, s := RoundsStop(me1, st1, i + 1, count, clock, kc, ks);
      n := Compose(C.SyncRounds(me, count - i, clock, kc), S.SyncRounds(st, i, count, ks), a,
        C.SyncRounds(me1, count - i - 1, clock, kc), S.SyncRounds(st1, i + 1, count, ks), b, c, s);
    }
  }

  lemma PlainAt(st: Store, i: nat)
    requires PlainTable(st.files) && i < Count(st.files)
    ensures PlainName(st.files[i].name)
  {
    PrefixNamed(st.files, i);
    assert st.files[i] in st.files;
  }

  lemma LoopAnswers(st: Store, socket: int, turns: nat, code: int)
    requires turns > 0
    ensures Answers(CommandLoop(st, socket, turns), code, Dispatch(st, socket, code, NextCommand(socket, turns)))
  {
  }

  lemma NewOne(me: Local, st: Store, listing: seq<string>, socket: int, turns: nat, kc: Local -> ClientProgram)
      returns (n: nat)
    requires turns > 0 && listing != [] && IsNew(me, listing[0])
    ensures Shakes(UploadNew(me, listing, kc), CommandLoop(st, socket, turns), n, UploadNew(me, listing[1..], kc),
      CommandLoop(Received(st, listing[0], me.dir[listing[0]]), socket, turns - 1))
  {
    var name, rest := listing[0], listing[1..];
    LoopAnswers(st, socket, turns, CP_CLIENT_SEND_FILE);
    n := UploadRuns(name, me.dir[name], UploadNew(me, rest, kc), st, CommandLoop(st, socket, turns),
      NextCommand(socket, turns));
  }

  lemma NewUnfold(me: Local, st: Store, listing: seq<string>)
    requires listing != [] && IsNew(me, listing[0])
    ensures NewCount(me, listing) == 1 + NewCount(me, listing[1..])
    ensures AfterNew(me, st, listing) == AfterNew(me, Received(st, listing[0], me.dir[listing[0]]), listing[1..])
  {
  }

  lemma NewSkip(me: Local, st: Store, listing: seq<string>, kc: Local -> ClientProgram)
    requires listing != [] && !IsNew(me, listing[0])
    ensures UploadNew(me, listing, kc) == UploadNew(me, listing[1..], kc)
    ensures AfterNew(me, st, listing) == AfterNew(me, st, listing[1..])
  {
  }

  lemma NothingListed(me: Local, st: Store, socket: int, turns: nat, kc: Local -> ClientProgram)
    ensures Shakes(UploadNew(me, [], kc), CommandLoop(st, socket, turns), 0, kc(me), CommandLoop(AfterNew(me, st, []), socket, turns))
  {
  }

  /** The uploads of the second loop are commands of their own. */
  lemma {:induction false} NewRun(me: Local, st: Store, listing: seq<string>, socket: int, turns: nat,
        kc: Local -> ClientProgram)
      returns (n: nat)
    requires NewCount(me, listing) <= turns
    ensures Shakes(UploadNew(me, listing, kc), CommandLoop(st, socket, turns), n,
      kc(me), CommandLoop(AfterNew(me, st, listing), socket, turns - NewCount(me, listing)))
    decreases listing
  {
    hide Shakes, CommandLoop, UploadNew, Received, AfterNew;
    if listing == [] {
      NothingListed(me, st, socket, turns, kc);
      n := 0;
    } else if IsNew(me, listing[0]) {
      NewUnfold(me, st, listing);
      var rest, v := listing[1..], Received(st, listing[0], me.dir[listing[0]]);
      var a := NewOne(me, st, listing, socket, turns, kc);
      var b := NewRun(me, v, rest, socket, turns - 1, kc);
      n := Compose(UploadNew(me, listing, kc), CommandLoop(st, socket, turns), a,
        UploadNew(me, rest, kc), CommandLoop(v, socket, turns - 1), b,
        kc(me), CommandLoop(AfterNew(me, v, rest), socket, turns - 1 - NewCount(me, rest)));
    } else {
      NewSkip(me, st, listing, kc);
      n := NewRun(me, st, listing[1..], socket, turns, kc);
    }
  }

  lemma SyncStarts(me: Local, listing: seq<string>, clock: string -> int, kc: Local -> ClientProgram, st: Store,
        socket: int, turns: nat)
    requires turns > 0
    ensures Shakes(C.Sync(me, listing, clock, kc), CommandLoop(st, socket, turns), 3,
      C.SyncRounds(Start(me), Count(st.files), clock, ThenUploadNew(listing, kc)),
      S.SyncRounds(st, 0, Count(st.files), NextCommand(socket, turns)))
  {
    var c0, s0 := C.Sync(me, listing, clock, kc), CommandLoop(st, socket, turns);
    LoopAnswers(st, socket, turns, CP_SYNC_CLIENT);
    var c, s := Next(c0, s0, 0, c0, s0);
    c, s := Next(c0, s0, 1, c, s);
    c, s := Next(c0, s0, 2, c, s);
  }

  /** The client lacks nothing it will ask for in a sync. */
  predicate SyncStocked(me: Local, st: Store) {
    Stocked(me, st, 0, Count(st.files))
  }

  lemma SyncPossible(me: Local, st: Store, clock: string -> int)
    requires PlainTable(st.files) && SyncStocked(me, st)
    ensures RoundsPossible(Start(me), st, 0, Count(st.files), clock)
  {
    assert Stocked(Start(me), st, 0, Count(st.files));
    PossibleIffStocked(Start(me), st, 0, Count(st.files), clock);
  }

  lemma FirstLoopRuns(me: Local, listing: seq<string>, clock: string -> int, kc: Local -> ClientProgram, st: Store,
        socket: int, turns: nat)
      returns (n: nat)
    requires PlainTable(st.files) && SyncStocked(me, st) && turns > 0
    ensures var (m, s) := AfterFirstLoop(me, st, clock);
      Shakes(C.Sync(me, listing, clock, kc), CommandLoop(st, socket, turns), n,
        UploadNew(m, listing, kc), CommandLoop(s, socket, turns - 1))
  {
    var then_, loop, count := ThenUploadNew(listing, kc), NextCommand(socket, turns), Count(st.files);
    var (m, s) := AfterFirstLoop(me, st, clock);
    SyncStarts(me, listing, clock, kc, st, socket, turns);
    SyncPossible(me, st, clock);
    hide Shakes, CommandLoop, UploadNew, C.Sync, C.SyncRounds, S.SyncRounds, AfterRounds, RoundsPossible, PlainTable,
      SyncStocked, Start;
    var a := RoundsRun(Start(me), st, 0, count, clock, then_, loop);
    n := Compose(C.Sync(me, listing, clock, kc), CommandLoop(st, socket, turns), 3,
      C.SyncRounds(Start(me), count, clock, then_), S.SyncRounds(st, 0, count, loop), a, then_(m), loop(s));
  }

  /** A whole sync against the command loop. */
  lemma SyncRuns(me: Local, listing: seq<string>, clock: string -> int, kc: Local -> ClientProgram, st: Store,
        socket: int, turns: nat)
      returns (n: nat)
    requires PlainTable(st.files) && SyncStocked(me, st) && 1 + NewCount(SyncedClient(me, st, clock), listing) <= turns
    ensures Shakes(C.Sync(me, listing, clock, kc), CommandLoop(st, socket, turns), n,
      kc(SyncedClient(me, st, clock)),
      CommandLoop(SyncedServer(me, st, listing, clock), socket, turns - 1 - NewCount(SyncedClient(me, st, clock), listing)))
  {
    hide Shakes, CommandLoop, UploadNew, PlainTable, SyncStocked, C.Sync, NewCount, AfterNew;
    var (m, s) := AfterFirstLoop(me, st, clock);
    var a := FirstLoopRuns(me, listing, clock, kc, st, socket, turns);
    var b := NewRun(m, s, listing, socket, turns - 1, kc);
    n := Compose(C.Sync(me, listing, clock, kc), CommandLoop(st, socket, turns), a,
      UploadNew(m, listing, kc), CommandLoop(s, socket, turns - 1), b,
      kc(m), CommandLoop(AfterNew(m, s, listing), socket, turns - 1 - NewCount(m, listing)));
  }

  lemma StopFacts(me: Local, st: Store, socket: int, turns: nat)
    requires turns > 0 && !SyncStocked(me, st)
    ensures !Stocked(Start(me), st, 0, Count(st.files))
    ensures forall v :: NextCommand(socket, turns)(v).Hear?
  {
  }

  /** A sync in which the client asks for a file that is not on disk never ends. */
  lemma SyncStops(me: Local, listing: seq<string>, clock: string -> int, kc: Local -> ClientProgram, st: Store,
        socket: int, turns: nat)
      returns (n: nat, c: ClientProgram, s: ServerProgram)
    requires PlainTable(st.files) && !SyncStocked(me, st) && turns > 0
    ensures Shakes(C.Sync(me, listing, clock, kc), CommandLoop(st, socket, turns), n, c, s) && DeadEnd(c, s)
  {
    var then_, loop, count := ThenUploadNew(listing, kc), NextCommand(socket, turns), Count(st.files);
    StopFacts(me, st, socket, turns);
    hide *;
    SyncStarts(me, listing, clock, kc, st, socket, turns);
    var a;
    a, c, s := RoundsStop(Start(me), st, 0, count, clock, then_, loop);
    n := Compose(C.Sync(me, listing, clock, kc), CommandLoop(st, socket, turns), 3,
      C.SyncRounds(Start(me), count, clock, then_), S.SyncRounds(st, 0, count, loop), a, c, s);
  }
}
