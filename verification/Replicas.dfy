/** A replica runs the server's program on a connection of its own, so its queues and device slots
    hold another socket. Apart from that it answers every frame as the leader does. */
module Replicas {
  import opened Frames
  import opened Programs
  import opened FileTable
  import opened LockQueue
  import opened Devices
  import opened UserRecord
  import opened Transfer
  import opened Codes
  import opened ServerPrograms

  // ---- Renaming the session's socket ----

  /** The two sockets exchanged; every other number stays. */
  function Swap(x: int, a: int, b: int): int {
    if x == a then b else if x == b then a else x
  }

  function RenameAll(q: seq<int>, a: int, b: int): (r: seq<int>)
    ensures |r| == |q| && forall i :: 0 <= i < |q| ==> r[i] == Swap(q[i], a, b)
  {
    seq(|q|, i requires 0 <= i < |q| => Swap(q[i], a, b))
  }

  function RenameFile(f: FileInfo, a: int, b: int): FileInfo {
    f.(lock := RenameAll(f.lock, a, b))
  }

  function RenameTable(t: Table, a: int, b: int): (u: Table)
    ensures forall i :: 0 <= i < MAXFILES ==> u[i] == RenameFile(t[i], a, b)
  {
    seq(MAXFILES, i requires 0 <= i < MAXFILES => RenameFile(t[i], a, b))
  }

  /** Equal but for the lock queues and device slots, and those equal up to the renaming. */
  function RenameStore(st: Store, a: int, b: int): Store {
    Store(RenameTable(st.files, a, b), RenameAll(st.devices, a, b), st.disk)
  }

  lemma RenamedMember(q: seq<int>, a: int, b: int)
    ensures b in RenameAll(q, a, b) <==> a in q
  {
    var r := RenameAll(q, a, b);
    if a in q {
      var i :| 0 <= i < |q| && q[i] == a;
      assert r[i] == b;
    }
    if b in r {
      var i :| 0 <= i < |r| && r[i] == b;
      assert q[i] == a;
    }
  }

  lemma {:induction false} RenamedLast(q: seq<int>, a: int, b: int, n: nat)
    requires n <= |q|
    ensures LastBelow(RenameAll(q, a, b), b, n) == LastBelow(q, a, n)
  {
    if n > 0 { RenamedLast(q, a, b, n - 1); }
  }

  lemma RenamedJoin(p: seq<int>, q: seq<int>, a: int, b: int)
    ensures RenameAll(p + q, a, b) == RenameAll(p, a, b) + RenameAll(q, a, b)
  {
  }

  lemma RenamedCut(q: seq<int>, i: nat, j: nat, a: int, b: int)
    requires i <= j <= |q|
    ensures RenameAll(q, a, b)[i..j] == RenameAll(q[i..j], a, b)
  {
  }

  lemma RenamedOne(x: int, a: int, b: int)
    ensures RenameAll([x], a, b) == [Swap(x, a, b)]
  {
  }

  lemma RenamedEnqueue(q: seq<int>, a: int, b: int)
    ensures Enqueue(RenameAll(q, a, b), b) == RenameAll(Enqueue(q, a), a, b)
    ensures LockReply(Enqueue(RenameAll(q, a, b), b), b) == LockReply(Enqueue(q, a), a)
  {
    RenamedMember(q, a, b);
    RenamedJoin(q, [a], a, b);
    RenamedOne(a, a, b);
    assert RenameAll(Enqueue(q, a), a, b)[0] == Swap(Enqueue(q, a)[0], a, b);
  }

  lemma RenamedRelease(q: seq<int>, a: int, b: int)
    ensures Release(RenameAll(q, a, b), b) == RenameAll(Release(q, a), a, b)
  {
    RenamedLast(q, a, b, |q|);
    var k := LastIndex(q, a);
    if k >= 0 {
      RenamedCut(q, 0, k, a, b);
      RenamedCut(q, k + 1, |q|, a, b);
      RenamedJoin(q[..k], q[k + 1..], a, b);
      hide LastIndex;
      assert q[0..k] == q[..k] && RenameAll(q, a, b)[0..k] == RenameAll(q, a, b)[..k];
      assert q[k + 1..|q|] == q[k + 1..] && RenameAll(q, a, b)[k + 1..|q|] == RenameAll(q, a, b)[k + 1..];
    }
  }

  lemma {:induction false} RenamedErase(q: seq<int>, a: int, b: int)
    ensures SkippingErase(RenameAll(q, a, b), b) == RenameAll(SkippingErase(q, a), a, b)
  {
    var r := RenameAll(q, a, b);
    if q == [] {
    } else if q[0] != a {
      RenamedErase(q[1..], a, b);
      RenamedCut(q, 1, |q|, a, b);
      RenamedOne(q[0], a, b);
      RenamedJoin([q[0]], SkippingErase(q[1..], a), a, b);
      assert r[1..|q|] == r[1..] && q[1..|q|] == q[1..];
    } else if |q| == 1 {
      assert q == [a] && r == [b];
      EraseOnly(a);
      EraseOnly(b);
    } else {
      RenamedErase(q[2..], a, b);
      RenamedCut(q, 2, |q|, a, b);
      RenamedOne(q[1], a, b);
      RenamedJoin([q[1]], SkippingErase(q[2..], a), a, b);
      assert r[2..|q|] == r[2..] && q[2..|q|] == q[2..];
      assert r[1..][..1] == [r[1]] && q[1..][..1] == [q[1]];
    }
  }

  lemma RenamedFind(t: Table, name: string, a: int, b: int)
    ensures Find(RenameTable(t, a, b), name) == Find(t, name)
  {
    NamesDecide(t, RenameTable(t, a, b), name);
  }

  lemma {:induction false} RenamedCount(t: Table, a: int, b: int, n: nat)
    requires n <= MAXFILES
    ensures CountTo(RenameTable(t, a, b), n) == CountTo(t, n)
  {
    if n > 0 { RenamedCount(t, a, b, n - 1); }
  }

  lemma RenamedLock(t: Table, path: string, a: int, b: int)
    ensures LockIn(RenameTable(t, a, b), b, path) == RenameTable(LockIn(t, a, path), a, b)
    ensures LockAnswer(RenameTable(t, a, b), b, path) == LockAnswer(t, a, path)
    ensures UnlockIn(RenameTable(t, a, b), b, path) == RenameTable(UnlockIn(t, a, path), a, b)
    ensures UnlockAnswer(RenameTable(t, a, b), b, path) == UnlockAnswer(t, a, path)
  {
    var k := Find(t, Base(path));
    RenamedFind(t, Base(path), a, b);
    if k >= 0 {
      hide Enqueue, Release, LockReply;
      RenamedEnqueue(t[k].lock, a, b);
      RenamedRelease(t[k].lock, a, b);
      RenamedMember(t[k].lock, a, b);
    }
  }

  lemma RenamedUpdates(t: Table, path: string, mtime: int, size: int, a: int, b: int)
    ensures Assign(RenameTable(t, a, b), path, mtime, size) == RenameTable(Assign(t, path, mtime, size), a, b)
    ensures Remove(RenameTable(t, a, b), path) == RenameTable(Remove(t, path), a, b)
  {
    RenamedFind(t, path, a, b);
    RenamedFind(t, "", a, b);
  }

  lemma RenamedLogOut(st: Store, a: int, b: int)
    requires a > 0 && b > 0
    ensures LoggedOut(RenameStore(st, a, b), b) == RenameStore(LoggedOut(st, a), a, b)
  {
    RenamedMember(st.devices, a, b);
    forall i | 0 <= i < MAXFILES
      ensures CleanSlot(RenameFile(st.files[i], a, b), b) == RenameFile(CleanSlot(st.files[i], a), a, b) {
      RenamedErase(st.files[i].lock, a, b);
    }
  }

  // ---- Alike, piece by piece ----

  /** The continuations are alike on stores that correspond. */
  ghost predicate Following(n: nat, k: Store -> ServerProgram, l: Store -> ServerProgram, a: int, b: int) {
    forall m: nat, st :: m <= n ==> Alike(m, k(st), l(RenameStore(st, a, b)), Same(a, b))
  }

  ghost function Same(a: int, b: int): (Store, Store) -> bool {
    (s, t) => t == RenameStore(s, a, b)
  }

  lemma {:induction false} SendPartsAlike(n: nat, content: seq<byte>, size: int, i: nat, p: ServerProgram,
        q: ServerProgram, same: (Store, Store) -> bool)
    requires forall m: nat :: m <= n ==> Alike(m, p, q, same)
    ensures Alike(n, SendParts(content, size, i, p), SendParts(content, size, i, q), same)
    decreases Rounds(size) - i
  {
    if i < Rounds(size) && n >= 2 { SendPartsAlike(n - 2, content, size, i + 1, p, q, same); }
  }

  lemma {:induction false} ReceivePartsAlike(n: nat, size: int, i: nat, got: seq<byte>,
      k: seq<byte> -> ServerProgram, l: seq<byte> -> ServerProgram, same: (Store, Store) -> bool)
    requires forall m: nat, c :: m <= n ==> Alike(m, k(c), l(c), same)
    ensures Alike(n, ReceiveParts(size, i, got, k), ReceiveParts(size, i, got, l), same)
    decreases Rounds(size) - i
  {
    if i < Rounds(size) && n >= 2 {
      forall f ensures Alike(n - 1, ReceiveParts(size, i, got, k).proceed(f), ReceiveParts(size, i, got, l).proceed(f), same) {
        ReceivePartsAlike(n - 2, size, i + 1, got + Bytes(f)[..Clamp(RoundSize(size, |got|))], k, l, same);
      }
    }
  }

  lemma TellAlike(n: nat, f: Frame, p: ServerProgram, q: ServerProgram, same: (Store, Store) -> bool)
    requires n > 0 ==> Alike(n - 1, p, q, same)
    ensures Alike(n, Tell(f, p), Tell(f, q), same)
  {
  }

  lemma ExpectAlike(n: nat, code: int, p: ServerProgram, p': ServerProgram, q: ServerProgram, q': ServerProgram,
        same: (Store, Store) -> bool)
    requires n > 0 ==> Alike(n - 1, p, q, same) && Alike(n - 1, p', q', same)
    ensures Alike(n, Expect(code, p, p'), Expect(code, q, q'), same)
  {
  }

  lemma NoStepsAlike(p: ServerProgram, q: ServerProgram, same: (Store, Store) -> bool)
    ensures Alike(0, p, q, same)
  {
  }

  lemma FollowingAt(n: nat, m: nat, k: Store -> ServerProgram, l: Store -> ServerProgram, a: int, b: int, st: Store)
    requires Following(n, k, l, a, b) && m <= n
    ensures Alike(m, k(st), l(RenameStore(st, a, b)), Same(a, b)) && Following(m, k, l, a, b)
  {
  }

  lemma ReadAlike(n: nat, p: ServerProgram, q: ServerProgram, same: (Store, Store) -> bool)
    requires p.Hear? && q.Hear? && forall f :: q.forward(f) == p.forward(f)
    requires n > 0 ==> forall f :: Alike(n - 1, p.proceed(f), q.proceed(f), same)
    ensures Alike(n, p, q, same)
  {
  }

  lemma RenamedUploaded(st: Store, path: string, content: seq<byte>, mtime: int, size: int, a: int, b: int)
    ensures Uploaded(RenameStore(st, a, b), path, content, mtime, size) == RenameStore(Uploaded(st, path, content, mtime, size), a, b)
  {
    hide Assign;
    RenamedUpdates(st.files, path, mtime, size, a, b);
  }

  lemma ReceiveTimeAlike(n: nat, st: Store, path: string, size: int, content: seq<byte>,
      k: Store -> ServerProgram, l: Store -> ServerProgram, a: int, b: int)
    requires Following(n, k, l, a, b)
    ensures Alike(n, ReceiveTime(st, path, size, k, content), ReceiveTime(RenameStore(st, a, b), path, size, l, content), Same(a, b))
  {
    hide Uploaded, RenameStore, Alike, Following;
    var p, q := ReceiveTime(st, path, size, k, content), ReceiveTime(RenameStore(st, a, b), path, size, l, content);
    if n > 0 {
      forall f ensures Alike(n - 1, p.proceed(f), q.proceed(f), Same(a, b)) {
        RenamedUploaded(st, path, content, AsTime(f), size, a, b);
        FollowingAt(n, n - 1, k, l, a, b, Uploaded(st, path, content, AsTime(f), size));
      }
    }
    ReadAlike(n, p, q, Same(a, b));
  }

  lemma ReceiveEndAlike(n: nat, st: Store, path: string, size: int, content: seq<byte>,
      k: Store -> ServerProgram, l: Store -> ServerProgram, a: int, b: int)
    requires Following(n, k, l, a, b)
    ensures Alike(n, ReceiveEnd(st, path, size, k, content), ReceiveEnd(RenameStore(st, a, b), path, size, l, content), Same(a, b))
  {
    hide Following, ReceiveTime, Alike, RenameAll, RenameTable, Expect;
    var rt := RenameStore(st, a, b);
    var p, q := ReceiveTime(st, path, size, k, content), ReceiveTime(rt, path, size, l, content);
    if n > 0 {
      if n > 1 {
        FollowingAt(n, n - 2, k, l, a, b, st);
        ReceiveTimeAlike(n - 2, st, path, size, content, k, l, a, b);
      }
      TellAlike(n - 1, Num(CP_SEND_FILE_COMPLETE_ACK), p, q, Same(a, b));
      FollowingAt(n, n - 1, k, l, a, b, Written(st, path, content));
    }
    ExpectAlike(n, CP_SEND_FILE_COMPLETE, Tell(Num(CP_SEND_FILE_COMPLETE_ACK), p), k(Written(st, path, content)),
      Tell(Num(CP_SEND_FILE_COMPLETE_ACK), q), l(Written(rt, path, content)), Same(a, b));
  }

  lemma ReceiveFileAlike(n: nat, st: Store, path: string, k: Store -> ServerProgram, l: Store -> ServerProgram,
        a: int, b: int)
    requires Following(n, k, l, a, b)
    ensures Alike(n, ReceiveFile(st, path, k), ReceiveFile(RenameStore(st, a, b), path, l), Same(a, b))
  {
    hide Following, ReceiveEnd, ReceiveParts, RenameStore, Uploaded, Written;
    var rt := RenameStore(st, a, b);
    if n > 1 {
      forall f ensures Alike(n - 1, ReceiveFile(st, path, k).proceed(f), ReceiveFile(rt, path, l).proceed(f), Same(a, b)) {
        var kp, lp := AfterParts(st, path, AsInt(f), k), AfterParts(rt, path, AsInt(f), l);
        forall m: nat, c | m <= n - 2 ensures Alike(m, kp(c), lp(c), Same(a, b)) {
          FollowingAt(n, m, k, l, a, b, st);
          ReceiveEndAlike(m, st, path, AsInt(f), c, k, l, a, b);
        }
        ReceivePartsAlike(n - 2, AsInt(f), 0, [], kp, lp, Same(a, b));
      }
    }
  }

  lemma TakeUploadAlike(n: nat, st: Store, k: Store -> ServerProgram, l: Store -> ServerProgram, a: int, b: int)
    requires Following(n, k, l, a, b)
    ensures Alike(n, TakeUpload(st, k), TakeUpload(RenameStore(st, a, b), l), Same(a, b))
  {
    if n > 2 {
      var p, q := TakeUpload(st, k).next, TakeUpload(RenameStore(st, a, b), l).next;
      forall f ensures Alike(n - 2, p.proceed(f), q.proceed(f), Same(a, b)) {
        FollowingAt(n, n - 2, k, l, a, b, st);
        ReceiveFileAlike(n - 2, st, AsText(f), k, l, a, b);
      }
    }
  }

  lemma SendFileAlike(n: nat, st: Store, path: string, k: Store -> ServerProgram, l: Store -> ServerProgram, a: int,
        b: int)
    requires Following(n, k, l, a, b)
    ensures Alike(n, SendFile(st, path, k), SendFile(RenameStore(st, a, b), path, l), Same(a, b))
  {
    hide Following, SendParts, RenameAll, RenameTable;
    var rt := RenameStore(st, a, b);
    forall m: nat | m <= n ensures Alike(m, k(st), l(rt), Same(a, b)) { FollowingAt(n, m, k, l, a, b, st); }
    if Base(path) in st.disk {
      var content := st.disk[Base(path)];
      var p := Tell(Num(CP_SEND_FILE_COMPLETE), Expect(CP_SEND_FILE_COMPLETE_ACK, k(st), k(st)));
      var q := Tell(Num(CP_SEND_FILE_COMPLETE), Expect(CP_SEND_FILE_COMPLETE_ACK, l(rt), l(rt)));
      forall m: nat | m <= n ensures Alike(m, p, q, Same(a, b)) {
        if m > 0 {
          ExpectAlike(m - 1, CP_SEND_FILE_COMPLETE_ACK, k(st), k(st), l(rt), l(rt), Same(a, b));
          TellAlike(m, Num(CP_SEND_FILE_COMPLETE), p.next, q.next, Same(a, b));
        }
      }
      SendFilePartsAlike(n, st, path, k, l, p, q, a, b);
    }
  }

  lemma SendFilePartsAlike(n: nat, st: Store, path: string, k: Store -> ServerProgram, l: Store -> ServerProgram,
      p: ServerProgram, q: ServerProgram, a: int, b: int)
    requires Base(path) in st.disk
    requires p == Tell(Num(CP_SEND_FILE_COMPLETE), Expect(CP_SEND_FILE_COMPLETE_ACK, k(st), k(st)))
    requires var rt := RenameStore(st, a, b);
      q == Tell(Num(CP_SEND_FILE_COMPLETE), Expect(CP_SEND_FILE_COMPLETE_ACK, l(rt), l(rt)))
    requires forall m: nat :: m <= n ==> Alike(m, p, q, Same(a, b)) && Alike(m, k(st), l(RenameStore(st, a, b)), Same(a, b))
    ensures Alike(n, SendFile(st, path, k), SendFile(RenameStore(st, a, b), path, l), Same(a, b))
  {
    hide Alike, SendParts, Rounds, Wrap, RenameAll, RenameTable, Expect;
    var rt, content := RenameStore(st, a, b), st.disk[Base(path)];
    var size := Wrap(|content|);
    var p', q' := SendParts(content, size, 0, p), SendParts(content, size, 0, q);
    if n >= 3 { SendPartsAlike(n - 3, content, size, 0, p, q, Same(a, b)); }
    if n >= 2 { ExpectAlike(n - 2, CP_CLIENT_GET_FILE_SIZE_ACK, p', k(st), q', l(rt), Same(a, b)); }
    var e, e' := Expect(CP_CLIENT_GET_FILE_SIZE_ACK, p', k(st)), Expect(CP_CLIENT_GET_FILE_SIZE_ACK, q', l(rt));
    if n >= 1 { TellAlike(n - 1, Num(size), e, e', Same(a, b)); }
    TellAlike(n, Num(CP_CLIENT_GET_FILE_EXISTS), Tell(Num(size), e), Tell(Num(size), e'), Same(a, b));
  }

  lemma GiveDownloadAlike(n: nat, st: Store, k: Store -> ServerProgram, l: Store -> ServerProgram, a: int, b: int)
    requires Following(n, k, l, a, b)
    ensures Alike(n, GiveDownload(st, k), GiveDownload(RenameStore(st, a, b), l), Same(a, b))
  {
    if n > 2 {
      var p, q := GiveDownload(st, k).next, GiveDownload(RenameStore(st, a, b), l).next;
      forall f ensures Alike(n - 2, p.proceed(f), q.proceed(f), Same(a, b)) {
        FollowingAt(n, n - 2, k, l, a, b, st);
        SendFileAlike(n - 2, st, AsText(f), k, l, a, b);
      }
    }
  }

  lemma DeleteFileAlike(n: nat, st: Store, k: Store -> ServerProgram, l: Store -> ServerProgram, a: int, b: int)
    requires Following(n, k, l, a, b)
    ensures Alike(n, DeleteFile(st, k), DeleteFile(RenameStore(st, a, b), l), Same(a, b))
  {
    var rt := RenameStore(st, a, b);
    var p, q := DeleteFile(st, k), DeleteFile(rt, l);
    if n > 1 {
      forall f ensures Alike(n - 2, p.next.proceed(f), q.next.proceed(f), Same(a, b)) {
        RenamedUpdates(st.files, Base(AsText(f)), 0, 0, a, b);
        assert Deleted(rt, AsText(f)) == RenameStore(Deleted(st, AsText(f)), a, b);
        FollowingAt(n, n - 2, k, l, a, b, Deleted(st, AsText(f)));
      }
    }
    if n > 0 { ReadAlike(n - 1, p.next, q.next, Same(a, b)); }
    TellAlike(n, p.frame, p.next, q.next, Same(a, b));
  }

  lemma RenamedLocked(st: Store, path: string, a: int, b: int)
    ensures var rt := RenameStore(st, a, b);
      RenameStore(st.(files := LockIn(st.files, a, path)), a, b) == rt.(files := LockIn(rt.files, b, path))
      && LockAnswer(rt.files, b, path) == LockAnswer(st.files, a, path)
  {
    hide LockIn, LockAnswer;
    RenamedLock(st.files, path, a, b);
  }

  lemma AnswerLockAlike(n: nat, st: Store, path: string, k: Store -> ServerProgram, l: Store -> ServerProgram,
        a: int, b: int)
    requires Following(n, k, l, a, b)
    ensures Alike(n, AnswerLock(st, a, path, k), AnswerLock(RenameStore(st, a, b), b, path, l), Same(a, b))
  {
    hide Alike, Following, LockIn, LockAnswer, RenameStore;
    RenamedLocked(st, path, a, b);
    var after := st.(files := LockIn(st.files, a, path));
    if n > 0 { FollowingAt(n, n - 1, k, l, a, b, after); }
    TellAlike(n, Num(LockAnswer(st.files, a, path)), k(after), l(RenameStore(after, a, b)), Same(a, b));
  }

  lemma LockFileAlike(n: nat, st: Store, k: Store -> ServerProgram, l: Store -> ServerProgram, a: int, b: int)
    requires Following(n, k, l, a, b)
    ensures Alike(n, LockFile(st, a, k), LockFile(RenameStore(st, a, b), b, l), Same(a, b))
  {
    hide Alike, Following, AnswerLock, RenameStore;
    var p, q := LockFile(st, a, k), LockFile(RenameStore(st, a, b), b, l);
    if n > 1 {
      forall f ensures Alike(n - 2, p.next.proceed(f), q.next.proceed(f), Same(a, b)) {
        FollowingAt(n, n - 2, k, l, a, b, st);
        AnswerLockAlike(n - 2, st, AsText(f), k, l, a, b);
      }
    }
    if n > 0 { ReadAlike(n - 1, p.next, q.next, Same(a, b)); }
    TellAlike(n, p.frame, p.next, q.next, Same(a, b));
  }

  lemma RenamedUnlocked(st: Store, path: string, a: int, b: int)
    ensures var rt := RenameStore(st, a, b);
      RenameStore(st.(files := UnlockIn(st.files, a, path)), a, b) == rt.(files := UnlockIn(rt.files, b, path))
      && UnlockAnswer(rt.files, b, path) == UnlockAnswer(st.files, a, path)
  {
    hide UnlockIn, UnlockAnswer;
    RenamedLock(st.files, path, a, b);
  }

  lemma AnswerUnlockAlike(n: nat, st: Store, path: string, k: Store -> ServerProgram, l: Store -> ServerProgram,
        a: int, b: int)
    requires Following(n, k, l, a, b)
    ensures Alike(n, AnswerUnlock(st, a, path, k), AnswerUnlock(RenameStore(st, a, b), b, path, l), Same(a, b))
  {
    hide Alike, Following, UnlockIn, UnlockAnswer, RenameStore;
    RenamedUnlocked(st, path, a, b);
    var after := st.(files := UnlockIn(st.files, a, path));
    if n > 0 { FollowingAt(n, n - 1, k, l, a, b, after); }
    TellAlike(n, Num(UnlockAnswer(st.files, a, path)), k(after), l(RenameStore(after, a, b)), Same(a, b));
  }

  lemma UnlockFileAlike(n: nat, st: Store, k: Store -> ServerProgram, l: Store -> ServerProgram, a: int, b: int)
    requires Following(n, k, l, a, b)
    ensures Alike(n, UnlockFile(st, a, k), UnlockFile(RenameStore(st, a, b), b, l), Same(a, b))
  {
    hide Alike, Following, AnswerUnlock, RenameStore;
    var p, q := UnlockFile(st, a, k), UnlockFile(RenameStore(st, a, b), b, l);
    if n > 1 {
      forall f ensures Alike(n - 2, p.next.proceed(f), q.next.proceed(f), Same(a, b)) {
        FollowingAt(n, n - 2, k, l, a, b, st);
        AnswerUnlockAlike(n - 2, st, AsText(f), k, l, a, b);
      }
    }
    if n > 0 { ReadAlike(n - 1, p.next, q.next, Same(a, b)); }
    TellAlike(n, p.frame, p.next, q.next, Same(a, b));
  }

  // ---- Sync and the command loop ----

  lemma RoundsOverAlike(n: nat, st: Store, i: nat, count: nat, k: Store -> ServerProgram, l: Store -> ServerProgram,
        a: int, b: int)
    requires count <= MAXFILES && i >= count && Following(n, k, l, a, b)
    ensures Alike(n, SyncRounds(st, i, count, k), SyncRounds(RenameStore(st, a, b), i, count, l), Same(a, b))
  {
    FollowingAt(n, n, k, l, a, b, st);
  }

  lemma {:induction false} SyncRoundsAlike(n: nat, st: Store, i: nat, count: nat, k: Store -> ServerProgram,
        l: Store -> ServerProgram, a: int, b: int)
    requires count <= MAXFILES && Following(n, k, l, a, b)
    ensures Alike(n, SyncRounds(st, i, count, k), SyncRounds(RenameStore(st, a, b), i, count, l), Same(a, b))
    decreases count - i, n, 1
  {
    hide *;
    if i >= count {
      RoundsOverAlike(n, st, i, count, k, l, a, b);
    } else {
      var p, q := RoundAnswer(st, i, count, k), RoundAnswer(RenameStore(st, a, b), i, count, l);
      NoStepsAlike(p, q, Same(a, b));
      if n > 3 {
        FollowingAt(n, n - 4, k, l, a, b, st);
        NextRoundsFollow(n - 4, i, count, k, l, a, b);
        RoundAnswerAlike(n - 4, st, i, count, k, l, a, b);
      }
      RoundHeadAlike(n, st, i, count, k, l, p, q, a, b);
    }
  }

  lemma {:induction false} NextRoundsFollow(n: nat, i: nat, count: nat, k: Store -> ServerProgram,
        l: Store -> ServerProgram, a: int, b: int)
    requires i < count <= MAXFILES && Following(n, k, l, a, b)
    ensures Following(n, NextRound(i, count, k), NextRound(i, count, l), a, b)
    decreases count - i - 1, n, 2
  {
    hide Alike, SyncRounds, RenameStore;
    forall m: nat, s | m <= n
      ensures Alike(m, NextRound(i, count, k)(s), NextRound(i, count, l)(RenameStore(s, a, b)), Same(a, b)) {
      FollowingAt(n, m, k, l, a, b, s);
      SyncRoundsAlike(m, s, i + 1, count, k, l, a, b);
    }
  }

  lemma RoundAnswerAlike(n: nat, st: Store, i: nat, count: nat, k: Store -> ServerProgram, l: Store -> ServerProgram,
        a: int, b: int)
    requires i < count <= MAXFILES && Following(n, NextRound(i, count, k), NextRound(i, count, l), a, b)
    ensures Alike(n + 1, RoundAnswer(st, i, count, k), RoundAnswer(RenameStore(st, a, b), i, count, l), Same(a, b))
  {
    hide Alike, Following, TakeUpload, GiveDownload, RenameStore, RoundAnswer, SyncRounds;
    AnswerHeard(st, i, count, k);
    AnswerHeard(RenameStore(st, a, b), i, count, l);
    var rt := RenameStore(st, a, b);
    var p, q := RoundAnswer(st, i, count, k), RoundAnswer(rt, i, count, l);
    forall f ensures Alike(n, p.proceed(f), q.proceed(f), Same(a, b)) {
      TakeUploadAlike(n, st, NextRound(i, count, k), NextRound(i, count, l), a, b);
      GiveDownloadAlike(n, st, NextRound(i, count, k), NextRound(i, count, l), a, b);
      FollowingAt(n, n, NextRound(i, count, k), NextRound(i, count, l), a, b, st);
    }
    ReadAlike(n + 1, p, q, Same(a, b));
  }

  lemma RoundHeadAlike(n: nat, st: Store, i: nat, count: nat, k: Store -> ServerProgram, l: Store -> ServerProgram,
      p: ServerProgram, q: ServerProgram, a: int, b: int)
    requires i < count <= MAXFILES && Following(n, k, l, a, b)
    requires p == RoundAnswer(st, i, count, k) && q == RoundAnswer(RenameStore(st, a, b), i, count, l)
    requires n > 2 ==> Alike(n - 3, p, q, Same(a, b))
    ensures Alike(n, SyncRounds(st, i, count, k), SyncRounds(RenameStore(st, a, b), i, count, l), Same(a, b))
  {
    hide *;
    var rt, f := RenameStore(st, a, b), st.files[i];
    RoundHead(st, i, count, k);
    RoundHead(rt, i, count, l);
    RenamedEntry(st, i, a, b);
    var head, head' := Tell(Stamp(f.lastModified), p), Tell(Stamp(f.lastModified), q);
    var body, body' := Expect(CP_CLIENT_GET_FILE_ACK, head, k(st)), Expect(CP_CLIENT_GET_FILE_ACK, head', l(rt));
    if n > 1 {
      FollowingAt(n, n - 2, k, l, a, b, st);
      TellAlike(n - 2, Stamp(f.lastModified), p, q, Same(a, b));
    }
    if n > 0 { ExpectAlike(n - 1, CP_CLIENT_GET_FILE_ACK, head, k(st), head', l(rt), Same(a, b)); }
    TellAlike(n, Text(f.name), body, body', Same(a, b));
  }

  lemma RenamedEntry(st: Store, i: nat, a: int, b: int)
    requires i < MAXFILES
    ensures RenameStore(st, a, b).files[i].name == st.files[i].name
    ensures RenameStore(st, a, b).files[i].lastModified == st.files[i].lastModified
  {
  }

  lemma RenamedTableCount(st: Store, a: int, b: int)
    ensures Count(RenameStore(st, a, b).files) == Count(st.files)
  {
    RenamedCount(st.files, a, b, MAXFILES);
  }

  lemma SyncServerAlike(n: nat, st: Store, k: Store -> ServerProgram, l: Store -> ServerProgram, a: int, b: int)
    requires Following(n, k, l, a, b)
    ensures Alike(n, SyncServer(st, k), SyncServer(RenameStore(st, a, b), l), Same(a, b))
  {
    hide Alike, Following, Count, RenameStore, SyncRounds, Expect;
    var rt, count := RenameStore(st, a, b), Count(st.files);
    RenamedTableCount(st, a, b);
    var p, q := SyncRounds(st, 0, count, k), SyncRounds(rt, 0, count, l);
    if n > 1 {
      FollowingAt(n, n - 2, k, l, a, b, st);
      SyncRoundsAlike(n - 2, st, 0, count, k, l, a, b);
    }
    if n > 0 { ExpectAlike(n - 1, CP_CLIENT_NUMBER_OF_FILES_ACK, p, k(st), q, l(rt), Same(a, b)); }
    TellAlike(n, Num(count), Expect(CP_CLIENT_NUMBER_OF_FILES_ACK, p, k(st)), Expect(CP_CLIENT_NUMBER_OF_FILES_ACK,
      q, l(rt)), Same(a, b));
  }

  lemma HaltAlike(n: nat, s: Store, a: int, b: int)
    ensures Alike(n, Halt(s), Halt(RenameStore(s, a, b)), Same(a, b))
  {
  }

  lemma DispatchAlike(n: nat, st: Store, command: int, k: Store -> ServerProgram, l: Store -> ServerProgram, a: int,
        b: int)
    requires Following(n, k, l, a, b) && a > 0 && b > 0
    ensures Alike(n, Dispatch(st, a, command, k), Dispatch(RenameStore(st, a, b), b, command, l), Same(a, b))
  {
    hide Alike, Following, TakeUpload, GiveDownload, SyncServer, DeleteFile, LockFile, UnlockFile, RenameStore, LoggedOut;
    var rt := RenameStore(st, a, b);
    if command == CP_CLIENT_END_CONNECTION {
      RenamedLogOut(st, a, b);
      HaltAlike(n, LoggedOut(st, a), a, b);
    } else if command == 0 {
      if n > 0 { HaltAlike(n - 1, st, a, b); }
      TellAlike(n, Num(CP_LOGIN_FAILED), Halt(st), Halt(rt), Same(a, b));
    } else {
      TakeUploadAlike(n, st, k, l, a, b);
      GiveDownloadAlike(n, st, k, l, a, b);
      SyncServerAlike(n, st, k, l, a, b);
      DeleteFileAlike(n, st, k, l, a, b);
      LockFileAlike(n, st, k, l, a, b);
      UnlockFileAlike(n, st, k, l, a, b);
      FollowingAt(n, n, k, l, a, b, st);
    }
  }

  /** A replica's command loop, on a store equal up to the renaming of the session's socket, does
      what the leader's does: for any frames it is sent it sends back the same frames, and the stores
      stay equal up to the renaming. */
  lemma {:induction false} CommandLoopAlike(n: nat, st: Store, turns: nat, a: int, b: int)
    requires a > 0 && b > 0
    ensures Alike(n, CommandLoop(st, a, turns), CommandLoop(RenameStore(st, a, b), b, turns), Same(a, b))
    decreases turns, 1
  {
    hide Alike, Following, Dispatch, RenameStore;
    var rt := RenameStore(st, a, b);
    var p, q := CommandLoop(st, a, turns), CommandLoop(rt, b, turns);
    if n > 0 {
      forall f ensures Alike(n - 1, p.proceed(f), q.proceed(f), Same(a, b)) {
        if turns == 0 {
          HaltAlike(n - 1, st, a, b);
        } else {
          NextCommandsFollow(n - 1, turns, a, b);
          DispatchAlike(n - 1, st, AsInt(f), NextCommand(a, turns), NextCommand(b, turns), a, b);
        }
      }
    }
    ReadAlike(n, p, q, Same(a, b));
  }

  lemma {:induction false} NextCommandsFollow(n: nat, turns: nat, a: int, b: int)
    requires a > 0 && b > 0 && turns > 0
    ensures Following(n, NextCommand(a, turns), NextCommand(b, turns), a, b)
    decreases turns, 0
  {
    hide Alike, CommandLoop;
    forall m: nat, s | m <= n
      ensures Alike(m, NextCommand(a, turns)(s), NextCommand(b, turns)(RenameStore(s, a, b)), Same(a, b)) {
      CommandLoopAlike(m, s, turns - 1, a, b);
    }
  }
}
