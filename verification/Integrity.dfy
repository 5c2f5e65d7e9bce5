/** What no session can do to its user's record, whatever frames it sends. */
module Integrity {
  import opened Frames
  import opened FileTable
  import opened LockQueue
  import opened Devices
  import opened UserRecord
  import opened LockRuns
  import opened ServerPrograms

  /** The shape that `sync_server` relies on: named slots come first, and no name has a directory part. */
  ghost predicate Indexable(t: Table) {
    Compact(t) && forall i :: 0 <= i < MAXFILES ==> '/' !in t[i].name
  }

  /** The queue is, but for one socket, one of those in the table. */
  ghost predicate WasQueue(t: Table, q: seq<int>, socket: int) {
    exists i :: 0 <= i < MAXFILES && Without(t[i].lock, socket) == Without(q, socket)
  }

  /** From `st` to `v` the table has stayed indexable and its queues free of duplicates, nobody but `socket` has entered or
      left a queue, and of the device slots only the first has changed, by a logout. */
  ghost predicate Keeps(st: Store, v: Store, socket: int) {
    && (Indexable(st.files) ==> Indexable(v.files))
    && (QueuesDistinct(st.files) ==> QueuesDistinct(v.files))
    && (forall i :: 0 <= i < MAXFILES ==> WasQueue(st.files, v.files[i].lock, socket))
    && (v.devices == st.devices || (socket in st.devices && v.devices == st.devices[0 := -1]))
  }

  lemma KeepsSelf(st: Store, socket: int)
    ensures Keeps(st, st, socket)
  {
  }

  lemma KeepsOn(a: Store, b: Store, c: Store, socket: int)
    requires Keeps(a, b, socket) && Keeps(b, c, socket)
    ensures Keeps(a, c, socket)
  {
    hide Without, Indexable;
    forall i | 0 <= i < MAXFILES ensures WasQueue(a.files, c.files[i].lock, socket) {
      assert WasQueue(b.files, c.files[i].lock, socket);
      var j :| 0 <= j < MAXFILES && Without(b.files[j].lock, socket) == Without(c.files[i].lock, socket);
      assert WasQueue(a.files, b.files[j].lock, socket);
    }
  }

  lemma KeepsDisk(st: Store, disk: map<string, seq<byte>>, socket: int)
    ensures Keeps(st, st.(disk := disk), socket)
  {
  }

  lemma AssignIndexable(t: Table, path: string, mtime: int, size: int)
    requires Indexable(t)
    ensures Indexable(Assign(t, path, mtime, size))
  {
    var k, u := SlotFor(t, path), Assign(t, path, mtime, size);
    if k >= 0 {
      assert forall i :: 0 <= i < MAXFILES && i != k ==> u[i] == t[i];
      assert Find(t, path) >= 0 ==> u[k].name == t[k].name;
    }
  }

  lemma KeepsUploaded(st: Store, path: string, content: seq<byte>, mtime: int, size: int, socket: int)
    ensures Keeps(st, Uploaded(st, path, content, mtime, size), socket)
  {
    hide Without, Indexable, QueuesDistinct;
    var u := Assign(st.files, path, mtime, size);
    if Indexable(st.files) { AssignIndexable(st.files, path, mtime, size); }
    if QueuesDistinct(st.files) { AssignKeepsQueues(st.files, path, mtime, size); }
    assert forall i :: 0 <= i < MAXFILES ==> u[i].lock == st.files[i].lock;
  }

  lemma RemoveIndexable(t: Table, name: string)
    requires Indexable(t)
    ensures Indexable(Remove(t, name))
  {
    var k, v, u := Find(t, name), Find(t, ""), Remove(t, name);
    if u != t {
      assert forall i :: 0 <= i < MAXFILES ==> (t[i].name != "" <==> i < v);
      assert forall i :: 0 <= i < MAXFILES ==> (u[i].name != "" <==> i < v - 1);
    }
  }

  lemma RemoveKeepsLocks(t: Table, name: string, socket: int)
    ensures forall i :: 0 <= i < MAXFILES ==> WasQueue(t, Remove(t, name)[i].lock, socket)
  {
    var u := Remove(t, name);
    assert u != t ==> Find(t, "") > 0;
    forall i | 0 <= i < MAXFILES ensures exists j :: 0 <= j < MAXFILES && u[i].lock == t[j].lock {
      assert u[i].lock == t[i].lock || (u != t && u[i].lock == t[Find(t, "") - 1].lock);
    }
    hide Remove, Without;
  }

  lemma KeepsDeleted(st: Store, path: string, socket: int)
    ensures Keeps(st, Deleted(st, path), socket)
  {
    var t, name := st.files, Base(path);
    if Indexable(t) { RemoveIndexable(t, name); }
    if QueuesDistinct(t) { RemoveKeepsQueues(t, name); }
    RemoveKeepsLocks(t, name, socket);
    hide Remove, Without, Indexable, QueuesDistinct, WasQueue;
    KeepsSelf(st, socket);
  }

  /** Changing one queue by the session's own socket. */
  lemma KeepsQueue(st: Store, k: nat, q: seq<int>, socket: int)
    requires k < MAXFILES && Without(st.files[k].lock, socket) == Without(q, socket)
    requires NoDuplicates(st.files[k].lock) ==> NoDuplicates(q)
    ensures Keeps(st, st.(files := WithLock(st.files, k, q)), socket)
  {
    hide Without, NoDuplicates;
    var t, u := st.files, WithLock(st.files, k, q);
    forall i | 0 <= i < MAXFILES ensures WasQueue(t, u[i].lock, socket) {
      assert u[i].lock == if i == k then q else t[i].lock;
    }
    if QueuesDistinct(t) {
      forall f | f in u ensures NoDuplicates(f.lock) {
        var i :| 0 <= i < MAXFILES && u[i] == f;
        assert t[i] in t;
      }
    }
  }

  lemma OwnSocketOnly(q: seq<int>, socket: int)
    ensures Without(Enqueue(q, socket), socket) == Without(q, socket)
    ensures Without(Release(q, socket), socket) == Without(q, socket)
    ensures NoDuplicates(q) ==> NoDuplicates(Enqueue(q, socket)) && NoDuplicates(Release(q, socket))
  {
    assert Without([socket], socket) == [] by { assert [socket][1..] == []; }
    WithoutSplit(q, [socket], socket);
    if NoDuplicates(q) { ReleaseKeepsDistinct(q, socket); }
    var k := LastIndex(q, socket);
    if k >= 0 {
      assert q == q[..k] + ([socket] + q[k + 1..]);
      WithoutSplit(q[..k], [socket] + q[k + 1..], socket);
      WithoutSplit([socket], q[k + 1..], socket);
      WithoutSplit(q[..k], q[k + 1..], socket);
    }
  }

  lemma KeepsLocks(st: Store, path: string, socket: int)
    ensures Keeps(st, st.(files := LockIn(st.files, socket, path)), socket)
    ensures Keeps(st, st.(files := UnlockIn(st.files, socket, path)), socket)
  {
    hide Enqueue, Release, Keeps;
    var k := Find(st.files, Base(path));
    KeepsSelf(st, socket);
    if k >= 0 {
      OwnSocketOnly(st.files[k].lock, socket);
      KeepsQueue(st, k, Enqueue(st.files[k].lock, socket), socket);
      KeepsQueue(st, k, Release(st.files[k].lock, socket), socket);
    }
  }

  /** The loop of `logOutClient` takes nobody else out, even of a queue with duplicates. */
  lemma {:induction false} ErasesOnlyIt(q: seq<int>, s: int)
    ensures Without(SkippingErase(q, s), s) == Without(q, s)
  {
    if q == [] {
    } else if q[0] != s {
      ErasesOnlyIt(q[1..], s);
      assert ([q[0]] + SkippingErase(q[1..], s))[1..] == SkippingErase(q[1..], s);
    } else if |q| == 1 {
      assert SkippingErase(q, s) == [];
    } else {
      ErasesOnlyIt(q[2..], s);
      assert q[1..][..1] == [q[1]] && q[1..][1..] == q[2..];
      assert ([q[1]] + SkippingErase(q[2..], s))[1..] == SkippingErase(q[2..], s);
    }
  }

  lemma KeepsLoggedOut(st: Store, socket: int)
    ensures Keeps(st, LoggedOut(st, socket), socket)
  {
    hide Without, SkippingErase, QueuesDistinct;
    var t, u := st.files, CleanIn(st.files, socket);
    forall i | 0 <= i < MAXFILES ensures WasQueue(t, u[i].lock, socket) { ErasesOnlyIt(t[i].lock, socket); }
    if QueuesDistinct(t) { CleanedDistinct(t, socket); }
  }

  lemma CleanedDistinct(t: Table, socket: int)
    requires QueuesDistinct(t)
    ensures QueuesDistinct(CleanIn(t, socket))
  {
    hide SkippingErase, Without;
    var u := CleanIn(t, socket);
    forall f | f in u ensures NoDuplicates(f.lock) {
      var i :| 0 <= i < MAXFILES && u[i] == f;
      assert t[i] in t;
      ReleaseIsWithout(t[i].lock, socket);
      WithoutKeepsDistinct(t[i].lock, socket);
    }
  }
}
