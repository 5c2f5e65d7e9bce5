/** Dialogues that break off: what each side is left with when the other sends something else than it should. */
module Breakdowns {
  import opened Frames
  import opened Programs
  import opened FileTable
  import opened Transfer
  import opened Codes
  import opened S = ServerPrograms
  import opened C = ClientPrograms
  import opened LockEvents

  // ---- The client ----

  lemma SaysThenHears<T>(p: Program<T>, f: Frame)
    requires p.Tell? && p.next.Hear?
    ensures Plays(p, [f], [p.frame], p.next.proceed(f))
  {
    assert Plays(p, [], [], p);
    PlaysTell(p, [], [], p);
    PlaysHear(p, [], [p.frame], p.next, f);
  }

  /** A command whose code is not acknowledged is given up at once: nothing more is said, nothing is uploaded, deleted or
      unlocked, no file is made, and `lockFile` returns -1. */
  lemma NotAcknowledged(path: string, file: LocalFile, f: Frame, next: ClientProgram, kf: Option<seq<byte>> -> ClientProgram,
        kl: int -> ClientProgram)
    ensures !LongName(path) && AsInt(f) != 6 ==> Plays(C.SendFile(path, Some(file), next), [f], [Num(5)], next)
    ensures !LongName(path) && AsInt(f) != 19 ==> Plays(GetFile(path, kf), [f], [Num(18)], kf(None))
    ensures AsInt(f) != 27 ==> Plays(DeleteRemote(path, next), [f], [Num(26)], next)
    ensures AsInt(f) != 29 ==> Plays(C.Lock(path, kl), [f], [Num(28)], kl(-1))
    ensures AsInt(f) != 32 ==> Plays(C.Unlock(path, next), [f], [Num(31)], next)
  {
    hide Base, SendParts, ReceiveParts, Wrap, AsInt;
    if !LongName(path) {
      SaysThenHears(C.SendFile(path, Some(file), next), f);
      SaysThenHears(GetFile(path, kf), f);
    }
    SaysThenHears(DeleteRemote(path, next), f);
    SaysThenHears(C.Lock(path, kl), f);
    SaysThenHears(C.Unlock(path, next), f);
  }

  /** A file that is not announced is not made; nothing is sent without an acknowledgement of its size. */
  lemma NotAnnounced(path: string, file: LocalFile, ack: Frame, f: Frame, next: ClientProgram,
        kf: Option<seq<byte>> -> ClientProgram)
    requires !LongName(path)
    ensures AsInt(ack) == 19 && AsInt(f) != 21 ==>
      Plays(GetFile(path, kf), [ack, f], [Num(18), Text(Base(path))], kf(None))
    ensures AsInt(ack) == 6 && AsInt(f) != 7 ==>
      Plays(C.SendFile(path, Some(file), next), [ack, f], [Num(5), Text(Base(path)), Num(Wrap(|file.content|))], next)
  {
    hide Base, SendParts, ReceiveParts, Wrap, AsInt;
    if AsInt(ack) == 19 {
      var p := GetFile(path, kf);
      SaysThenHears(p, ack);
      PlaysTell(p, [ack], [Num(18)], p.next.proceed(ack));
      PlaysHear(p, [ack], [Num(18), Text(Base(path))], p.next.proceed(ack).next, f);
    }
    if AsInt(ack) == 6 {
      var p := C.SendFile(path, Some(file), next);
      SaysThenHears(p, ack);
      var q := p.next.proceed(ack);
      PlaysTell(p, [ack], [Num(5)], q);
      PlaysTell(p, [ack], [Num(5), Text(Base(path))], q.next);
      assert [Num(5), Text(Base(path))] + [Num(Wrap(|file.content|))] == [Num(5), Text(Base(path)), Num(Wrap(|file.content|))];
      PlaysHear(p, [ack], [Num(5), Text(Base(path)), Num(Wrap(|file.content|))], q.next.next, f);
    }
  }

  /** A download whose end is not confirmed keeps what has arrived, and says no more. */
  lemma EndNotConfirmed(content: seq<byte>, f: Frame, k: Option<seq<byte>> -> ClientProgram)
    requires AsInt(f) != 9
    ensures Plays(C.AfterParts(k)(content), [f], [], k(Some(content)))
  {
    var p := C.AfterParts(k)(content);
    assert Plays(p, [], [], p);
    PlaysHear(p, [], [], p, f);
  }

  // ---- The server ----

  /** A sync whose file count is not acknowledged is over: the store is as it was and the next command is read. */
  lemma SyncNotAcknowledged(st: Store, socket: int, turns: nat, f: Frame)
    requires turns > 0 && AsInt(f) != 38
    ensures Plays(CommandLoop(st, socket, turns), [Num(12), f], [Num(Count(st.files))], CommandLoop(st, socket, turns - 1))
  {
    var p := CommandLoop(st, socket, turns);
    hide Count, S.SyncRounds;
    Begins(p);
    PlaysHear(p, [], [], p, Num(12));
    var q := p.proceed(Num(12));
    PlaysTell(p, [Num(12)], [], q);
    PlaysHear(p, [Num(12)], [Num(Count(st.files))], q.next, f);
  }

  /** The same of the name of any entry offered in a sync. */
  lemma NameNotAcknowledged(st: Store, i: nat, count: nat, k: Store -> ServerProgram, f: Frame)
    requires i < count <= MAXFILES && AsInt(f) != 19
    ensures Plays(S.SyncRounds(st, i, count, k), [f], [Text(st.files[i].name)], k(st))
  {
    RoundHead(st, i, count, k);
    hide S.SyncRounds;
    SaysThenHears(S.SyncRounds(st, i, count, k), f);
  }

  /** An answer that is neither an upload nor a download moves on to the next entry. */
  lemma OtherAnswer(st: Store, i: nat, count: nat, k: Store -> ServerProgram, f: Frame)
    requires i < count <= MAXFILES && AsInt(f) != 5 && AsInt(f) != 18
    ensures Plays(RoundAnswer(st, i, count, k), [f], [], S.SyncRounds(st, i + 1, count, k))
  {
    AnswerHeard(st, i, count, k);
    var p := RoundAnswer(st, i, count, k);
    hide S.SyncRounds, RoundAnswer;
    assert Plays(p, [], [], p);
    PlaysHear(p, [], [], p, f);
  }

  /** A download whose size is not acknowledged is over; so is any download of a file that is not there, once announced. */
  lemma SizeNotAcknowledged(st: Store, socket: int, turns: nat, name: string, f: Frame)
    requires turns > 0
    ensures Base(name) in st.disk && AsInt(f) != 20 ==>
      Plays(CommandLoop(st, socket, turns), [Num(18), Text(name), f], [Num(19), Num(21), Num(Wrap(|st.disk[Base(name)]|))],
        CommandLoop(st, socket, turns - 1))
    ensures Base(name) !in st.disk ==>
      Plays(CommandLoop(st, socket, turns), [Num(18), Text(name)], [Num(19), Num(21)], CommandLoop(st, socket, turns - 1))
  {
    var p := CommandLoop(st, socket, turns);
    hide Base, SendParts, Wrap;
    Begins(p);
    PlaysHear(p, [], [], p, Num(18));
    var q := p.proceed(Num(18));
    PlaysTell(p, [Num(18)], [], q);
    PlaysHear(p, [Num(18)], [Num(19)], q.next, Text(name));
    q := q.next.proceed(Text(name));
    PlaysTell(p, [Num(18), Text(name)], [Num(19)], q);
    if Base(name) in st.disk {
      var size := Num(Wrap(|st.disk[Base(name)]|));
      PlaysTell(p, [Num(18), Text(name)], [Num(19), Num(21)], q.next);
      assert [Num(19), Num(21)] + [size] == [Num(19), Num(21), size];
      PlaysHear(p, [Num(18), Text(name)], [Num(19), Num(21), size], q.next.next, f);
      assert [Num(18), Text(name)] + [f] == [Num(18), Text(name), f];
    }
  }
}
