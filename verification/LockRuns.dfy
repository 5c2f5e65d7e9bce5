/** Runs of one user's sessions against the server: logging in and out, locking, unlocking,
    uploading and deleting, interleaved in any order. */
module LockRuns {
  import opened FileTable
  import opened LockQueue
  import opened Devices
  import opened UserRecord

  /** The user's record together with what the sessions know: which sockets are live, which
      requests the server granted, and for which ones the client's `lockFile` returned 0, which it takes for the lock.
      A session gives a grant up by unlocking the file or by logging out. */
  datatype World = World(
    files: Table, devices: Slots, live: set<int>,
    granted: set<(int, string)>, believed: set<(int, string)>)

  datatype Event =
    | LogIn(s: int)
    | LogOut(s: int)
    | Lock(s: int, name: string)
    | Unlock(s: int, name: string)
    | Upload(s: int, name: string, mtime: int, size: int)
    | Delete(s: int, name: string)

  predicate ProperName(name: string) {
    name != "" && '/' !in name
  }

  /** A new session has a socket no live session has; every other event comes from a live session. */
  predicate Enabled(w: World, e: Event) {
    && (if e.LogIn? then e.s > 0 && e.s !in w.live else e.s in w.live)
    && (e.Lock? || e.Unlock? || e.Upload? || e.Delete? ==> ProperName(e.name))
  }

  function Step(w: World, e: Event): World {
    match e
    case LogIn(s) =>
      if Admits(w.devices) then w.(devices := Occupy(w.devices, s), live := w.live + {s}) else w
    case LogOut(s) =>
      World(CleanIn(w.files, s), Vacate(w.devices, s), w.live - {s}, GivenUpBy(w.granted, s), GivenUpBy(w.believed, s))
    case Lock(s, name) =>
      w.(files := LockIn(w.files, s, name),
         granted := if Grants(w.files, s, name) then w.granted + {(s, name)} else w.granted,
         believed := if LockResult(LockAnswer(w.files, s, name)) == 0 then w.believed + {(s, name)} else w.believed)
    case Unlock(s, name) =>
      w.(files := UnlockIn(w.files, s, name), granted := w.granted - {(s, name)}, believed := w.believed - {(s, name)})
    case Upload(s, name, mtime, size) =>
      w.(files := Assign(w.files, name, mtime, size))
    case Delete(s, name) =>
      w.(files := Remove(w.files, name))
  }

  function GivenUpBy(grants: set<(int, string)>, s: int): set<(int, string)> {
    set g | g in grants && g.0 != s
  }

  function Run(w: World, es: seq<Event>): World
    decreases es
  {
    if es == [] then w else Run(Step(w, es[0]), es[1..])
  }

  predicate Possible(w: World, es: seq<Event>)
    decreases es
  {
    es == [] || (Enabled(w, es[0]) && Possible(Step(w, es[0]), es[1..]))
  }

  /** Before anyone logs in: a well-formed table with nobody queued, whatever the device slots hold. */
  ghost predicate Initial(w: World) {
    && WellFormed(w.files) && (forall f :: f in w.files ==> f.lock == [])
    && w.live == {} && w.granted == {} && w.believed == {}
  }

  // ---- What every step does to the queues ----

  ghost predicate Sound(w: World) {
    WellFormed(w.files) && QueuesDistinct(w.files)
  }

  /** The effect of an event on the queue of the file `name`. */
  function Effect(e: Event, name: string, q: seq<int>): seq<int> {
    match e
    case Lock(s, n) => if n == name then Enqueue(q, s) else q
    case Unlock(s, n) => if n == name then Without(q, s) else q
    case LogOut(s) => Without(q, s)
    case _ => q
  }

  /** The event takes `name` out of the table: a deletion, unless the table is full. */
  ghost predicate Drops(w: World, e: Event, name: string) {
    e.Delete? && e.name == name && !Full(w.files)
  }

  lemma SetLockKeepsSound(t: Table, k: nat, q: seq<int>)
    requires WellFormed(t) && QueuesDistinct(t) && k < |t| && NoDuplicates(q)
    ensures var u := WithLock(t, k, q); WellFormed(u) && QueuesDistinct(u) && SameNames(t, u)
  {
    var u := WithLock(t, k, q);
    NamesDecide(t, u, "");
    forall f | f in u ensures NoDuplicates(f.lock) {
      var i :| 0 <= i < |u| && u[i] == f;
      assert i != k ==> f in t;
    }
  }

  lemma CleanKeepsSound(t: Table, s: int)
    requires WellFormed(t) && QueuesDistinct(t)
    ensures var u := CleanIn(t, s); WellFormed(u) && QueuesDistinct(u) && SameNames(t, u)
  {
    var u := CleanIn(t, s);
    NamesDecide(t, u, "");
    forall f | f in u ensures NoDuplicates(f.lock) {
      var i :| 0 <= i < |u| && u[i] == f;
      assert t[i] in t;
      ReleaseIsWithout(t[i].lock, s);
      WithoutKeepsDistinct(t[i].lock, s);
    }
  }

  lemma ReleaseKeepsDistinct(q: seq<int>, s: int)
    requires NoDuplicates(q)
    ensures NoDuplicates(Release(q, s))
  {
    ReleaseIsWithout(q, s);
    WithoutKeepsDistinct(q, s);
  }

  lemma AssignKeepsQueues(t: Table, name: string, mtime: int, size: int)
    requires QueuesDistinct(t)
    ensures QueuesDistinct(Assign(t, name, mtime, size))
  {
    var u := Assign(t, name, mtime, size);
    forall f | f in u ensures NoDuplicates(f.lock) {
      var i :| 0 <= i < |u| && u[i] == f;
      assert f.lock == t[i].lock && t[i] in t;
    }
  }

  lemma RemoveKeepsQueues(t: Table, name: string)
    requires QueuesDistinct(t)
    ensures QueuesDistinct(Remove(t, name))
  {
    var u, v := Remove(t, name), Find(t, "");
    forall f | f in u ensures NoDuplicates(f.lock) {
      var i :| 0 <= i < |u| && u[i] == f;
      assert f.lock == t[i].lock || (u != t && f.lock == t[v - 1].lock);
      assert forall j :: 0 <= j < |t| ==> t[j] in t;
    }
  }

  /** No queue ever holds a socket twice: `lockFile` looks before it appends. */
  lemma StepKeepsSound(w: World, e: Event)
    requires Sound(w) && Enabled(w, e)
    ensures Sound(Step(w, e))
  {
    match e
    case LogIn(s) =>
    case LogOut(s) => CleanKeepsSound(w.files, s);
    case Lock(s, name) =>
      var k := Find(w.files, name);
      if k >= 0 {
        assert w.files[k] in w.files;
        SetLockKeepsSound(w.files, k, Enqueue(w.files[k].lock, s));
      }
    case Unlock(s, name) =>
      var k := Find(w.files, name);
      if k >= 0 {
        assert w.files[k] in w.files;
        ReleaseKeepsDistinct(w.files[k].lock, s);
        SetLockKeepsSound(w.files, k, Release(w.files[k].lock, s));
      }
    case Upload(s, name, mtime, size) =>
      AssignKeepsShape(w.files, name, mtime, size);
      AssignKeepsQueues(w.files, name, mtime, size);
    case Delete(s, name) =>
      RemoveKeepsShape(w.files, name);
      RemoveKeepsQueues(w.files, name);
  }

  lemma SetLockQueue(t: Table, k: nat, q: seq<int>, name: string)
    requires WellFormed(t) && k < |t| && t[k].name != "" && Has(t, name)
    ensures Has(WithLock(t, k, q), name)
    ensures Queue(WithLock(t, k, q), name) == if t[k].name == name then q else Queue(t, name)
  {
    NamesDecide(t, WithLock(t, k, q), name);
    FoundAt(t, k);
  }

  lemma LocksQueue(t: Table, s: int, n: string, name: string)
    requires WellFormed(t) && QueuesDistinct(t) && Has(t, name) && ProperName(n)
    ensures Has(LockIn(t, s, n), name)
    ensures Queue(LockIn(t, s, n), name) == Effect(Lock(s, n), name, Queue(t, name))
    ensures Has(UnlockIn(t, s, n), name)
    ensures Queue(UnlockIn(t, s, n), name) == Effect(Unlock(s, n), name, Queue(t, name))
  {
    hide Enqueue, Release, Without;
    var k := Find(t, n);
    assert t[Find(t, name)] in t;
    ReleaseIsWithout(Queue(t, name), s);
    if k >= 0 {
      SetLockQueue(t, k, Enqueue(t[k].lock, s), name);
      SetLockQueue(t, k, Release(t[k].lock, s), name);
    }
  }

  lemma LogOutQueue(t: Table, s: int, name: string)
    requires WellFormed(t) && QueuesDistinct(t) && Has(t, name)
    ensures Has(CleanIn(t, s), name) && Queue(CleanIn(t, s), name) == Without(Queue(t, name), s)
  {
    assert t[Find(t, name)] in t && t[Find(t, name)].name == name;
    hide Find, Without, SkippingErase;
    CleanKeepsSound(t, s);
    NamesDecide(t, CleanIn(t, s), name);
    ReleaseIsWithout(Queue(t, name), s);
  }

  lemma UploadQueue(t: Table, n: string, mtime: int, size: int, name: string)
    requires WellFormed(t) && Has(t, name) && ProperName(n)
    ensures Has(Assign(t, n, mtime, size), name) && Queue(Assign(t, n, mtime, size), name) == Queue(t, name)
  {
    if Assigns(t, n) {
      if n == name { AssignFindsItself(t, n, mtime, size); } else { AssignLeavesOthers(t, n, mtime, size, name); }
    }
  }

  lemma DeleteQueue(t: Table, n: string, name: string)
    requires WellFormed(t) && Has(t, name) && ProperName(n) && (n != name || Full(t))
    ensures Has(Remove(t, n), name) && Queue(Remove(t, n), name) == Queue(t, name)
  {
    if n != name && Has(t, n) && !Full(t) { RemoveLeavesOthers(t, n, name); }
  }

  /** Every event acts on every file still in the table as `Effect` says, and on nothing else:
      moving a record into a hole, overwriting it or adding another leaves its queue alone. */
  lemma StepQueue(w: World, e: Event, name: string)
    requires Sound(w) && Enabled(w, e) && Has(w.files, name) && !Drops(w, e, name)
    ensures Has(Step(w, e).files, name)
    ensures Queue(Step(w, e).files, name) == Effect(e, name, Queue(w.files, name))
  {
    hide Has, Queue, WellFormed, QueuesDistinct, Assign, Remove, LockIn, UnlockIn, CleanIn, Full;
    match e
    case LogIn(s) =>
    case LogOut(s) => LogOutQueue(w.files, s, name);
    case Lock(s, n) => LocksQueue(w.files, s, n, name);
    case Unlock(s, n) => LocksQueue(w.files, s, n, name);
    case Upload(s, n, mtime, size) => UploadQueue(w.files, n, mtime, size, name);
    case Delete(s, n) => DeleteQueue(w.files, n, name);
  }

  lemma {:induction false} RunKeepsSound(w: World, es: seq<Event>)
    requires Sound(w) && Possible(w, es)
    ensures Sound(Run(w, es))
    decreases es
  {
    if es != [] {
      StepKeepsSound(w, es[0]);
      RunKeepsSound(Step(w, es[0]), es[1..]);
    }
  }

  lemma InitialIsSound(w: World)
    requires Initial(w)
    ensures Sound(w)
  {
  }

  // ---- Logging out ----

  /** In every reachable state, logging out leaves no trace of the socket in any named file's
      queue and keeps everybody else in order, although the loop erases while it steps on. */
  lemma LogOutCleans(w: World, es: seq<Event>, s: int, name: string)
    requires Initial(w) && Possible(w, es) && s in Run(w, es).live && Has(Run(w, es).files, name)
    ensures var before, after := Run(w, es), Step(Run(w, es), LogOut(s));
      && Has(after.files, name)
      && s !in Queue(after.files, name)
      && Queue(after.files, name) == Without(Queue(before.files, name), s)
  {
    InitialIsSound(w);
    RunKeepsSound(w, es);
    StepQueue(Run(w, es), LogOut(s), name);
  }

  // ---- FIFO service ----

  /** Throughout the run, `s` neither unlocks `name` nor logs out, and `name` stays in the table. */
  ghost predicate KeepsWaiting(w: World, es: seq<Event>, s: int, name: string)
    decreases es
  {
    es == [] ||
    (&& es[0] != Unlock(s, name) && es[0] != LogOut(s) && !Drops(w, es[0], name)
     && KeepsWaiting(Step(w, es[0]), es[1..], s, name))
  }

  function Leaves(e: Event, name: string): set<int> {
    match e
    case Unlock(x, n) => if n == name then {x} else {}
    case LogOut(x) => {x}
    case _ => {}
  }

  /** Who unlocked `name` or logged out during the run. */
  function Departed(es: seq<Event>, name: string): set<int> {
    if es == [] then {} else Departed(es[1..], name) + Leaves(es[0], name)
  }

  /** The members of a queue that are not in `gone`, in order. */
  function Remaining(a: seq<int>, gone: set<int>): seq<int> {
    if a == [] then []
    else (if a[0] in gone then [] else [a[0]]) + Remaining(a[1..], gone)
  }

  lemma {:induction false} RemainingWithout(a: seq<int>, x: int, gone: set<int>)
    ensures Remaining(Without(a, x), gone) == Remaining(a, gone + {x})
  {
    if a != [] {
      RemainingWithout(a[1..], x, gone);
      if a[0] != x { assert Without(a, x)[1..] == Without(a[1..], x); }
    }
  }

  lemma {:induction false} RemainingEmptyIff(a: seq<int>, gone: set<int>)
    ensures Remaining(a, {}) == a
    ensures Remaining(a, gone) == [] <==> forall x :: x in a ==> x in gone
  {
    if a != [] {
      RemainingEmptyIff(a[1..], gone);
      assert forall x :: x in a <==> x == a[0] || x in a[1..];
    }
  }

  lemma StepAhead(w: World, e: Event, s: int, name: string)
    requires Sound(w) && Enabled(w, e) && Has(w.files, name) && s in Queue(w.files, name)
    requires e != Unlock(s, name) && e != LogOut(s) && !Drops(w, e, name)
    ensures Has(Step(w, e).files, name) && s in Queue(Step(w, e).files, name)
    ensures forall gone :: Remaining(Ahead(Queue(Step(w, e).files, name), s), gone)
                        == Remaining(Ahead(Queue(w.files, name), s), gone + Leaves(e, name))
  {
    StepQueue(w, e, name);
    var q, v := Queue(w.files, name), Step(w, e);
    forall gone ensures s in Queue(v.files, name)
      && Remaining(Ahead(Queue(v.files, name), s), gone) == Remaining(Ahead(q, s), gone + Leaves(e, name))
    {
      if Leaves(e, name) == {} {
        assert gone + {} == gone;
        if e.Lock? { AheadAfterEnqueue(q, s, e.s); }
      } else {
        assert Leaves(e, name) == {e.s};
        AheadAfterLeaving(q, s, e.s);
        RemainingWithout(Ahead(q, s), e.s, gone);
      }
    }
  }

  /** The position as the measure of the retry loop: a retry, like anything else that is not the departure of a
      predecessor, leaves those ahead as they are, and each departure of a predecessor takes exactly one off. */
  lemma PositionFalls(w: World, e: Event, s: int, name: string)
    requires Sound(w) && Enabled(w, e) && Has(w.files, name) && s in Queue(w.files, name)
    requires e != Unlock(s, name) && e != LogOut(s) && !Drops(w, e, name)
    ensures Has(Step(w, e).files, name) && s in Queue(Step(w, e).files, name)
    ensures var a, b := Ahead(Queue(w.files, name), s), Ahead(Queue(Step(w, e).files, name), s);
      if Leaves(e, name) != {} && e.s in a then |b| == |a| - 1 else b == a
  {
    StepQueue(w, e, name);
    var q := Queue(w.files, name);
    assert w.files[Find(w.files, name)] in w.files;
    AheadDistinct(q, s);
    hide Step, Find, Ahead, Without;
    if Leaves(e, name) == {} {
      if e.Lock? { AheadAfterEnqueue(q, s, e.s); }
    } else {
      AheadAfterLeaving(q, s, e.s);
      WithoutOne(Ahead(q, s), e.s);
      if e.s !in Ahead(q, s) { WithoutAbsent(Ahead(q, s), e.s); }
    }
  }

  /** FIFO waiting, over any run: while `s` waits, those ahead of it are those who were ahead at
      the start, in their order, less the ones who unlocked or logged out. Retrying changes
      nothing, nobody gets in front, and each departure of a predecessor moves `s` up by one. */
  lemma {:induction false} FifoWaiting(w: World, es: seq<Event>, s: int, name: string)
    requires Sound(w) && Possible(w, es) && KeepsWaiting(w, es, s, name)
    requires Has(w.files, name) && s in Queue(w.files, name)
    ensures Has(Run(w, es).files, name) && s in Queue(Run(w, es).files, name)
    ensures Ahead(Queue(Run(w, es).files, name), s) == Remaining(Ahead(Queue(w.files, name), s), Departed(es, name))
    decreases es
  {
    RemainingEmptyIff(Ahead(Queue(w.files, name), s), {});
    if es != [] {
      StepAhead(w, es[0], s, name);
      StepKeepsSound(w, es[0]);
      FifoWaiting(Step(w, es[0]), es[1..], s, name);
    }
  }

  /** The next retry is granted exactly when everyone who was ahead has left. */
  lemma RetryGrantedIff(w: World, es: seq<Event>, s: int, name: string)
    requires Sound(w) && Possible(w, es) && KeepsWaiting(w, es, s, name) && ProperName(name)
    requires Has(w.files, name) && s in Queue(w.files, name)
    ensures Grants(Run(w, es).files, s, name) <==>
      forall x :: x in Ahead(Queue(w.files, name), s) ==> x in Departed(es, name)
  {
    FifoWaiting(w, es, s, name);
    RemainingEmptyIff(Ahead(Queue(w.files, name), s), Departed(es, name));
    HeadIffNobodyAhead(Queue(Run(w, es).files, name), s);
  }

  // ---- Mutual exclusion ----

  ghost predicate GrantsAreHeads(w: World) {
    forall s, n :: (s, n) in w.granted ==>
      s in w.live && ProperName(n) && Has(w.files, n) && |Queue(w.files, n)| > 0 && Queue(w.files, n)[0] == s
  }

  ghost predicate Locked(w: World, name: string) {
    exists s :: (s, name) in w.granted
  }

  /** A deletion that takes nobody's granted lock away. */
  ghost predicate DeletesNoGrant(w: World, e: Event) {
    e.Delete? ==> !Has(w.files, e.name) || Full(w.files) || !Locked(w, e.name)
  }

  lemma StepKeepsHeads(w: World, e: Event)
    requires Sound(w) && Enabled(w, e) && GrantsAreHeads(w) && DeletesNoGrant(w, e)
    ensures GrantsAreHeads(Step(w, e))
  {
    hide Find, WellFormed, Assign, Remove, UnlockIn, CleanIn, Vacate, Occupy, SkippingErase;
    var v := Step(w, e);
    forall s, n | (s, n) in v.granted
      ensures s in v.live && ProperName(n) && Has(v.files, n) && |Queue(v.files, n)| > 0 && Queue(v.files, n)[0] == s
    {
      if (s, n) in w.granted {
        StepQueue(w, e, n);
        var q := Queue(w.files, n);
        if e.s != s {
          HeadStays(q, s, e.s);
          assert w.files[Find(w.files, n)] in w.files;
          ReleaseIsWithout(q, e.s);
        }
      } else {
        assert e == Lock(s, n) && Grants(w.files, s, n);
        StepQueue(w, e, n);
      }
    }
  }

  ghost predicate NoGrantDeleted(w: World, es: seq<Event>)
    decreases es
  {
    es == [] || (DeletesNoGrant(w, es[0]) && NoGrantDeleted(Step(w, es[0]), es[1..]))
  }

  lemma {:induction false} RunKeepsHeads(w: World, es: seq<Event>)
    requires Sound(w) && Possible(w, es) && GrantsAreHeads(w) && NoGrantDeleted(w, es)
    ensures GrantsAreHeads(Run(w, es))
    decreases es
  {
    if es != [] {
      StepKeepsSound(w, es[0]);
      StepKeepsHeads(w, es[0]);
      RunKeepsHeads(Step(w, es[0]), es[1..]);
    }
  }

  /** Mutual exclusion over all runs in which no granted lock is deleted under its holder:
      one live session at most holds a file, and it heads the queue. */
  lemma MutualExclusion(w: World, es: seq<Event>, s1: int, s2: int, name: string)
    requires Initial(w) && Possible(w, es) && NoGrantDeleted(w, es)
    requires (s1, name) in Run(w, es).granted && (s2, name) in Run(w, es).granted
    ensures s1 == s2 && s1 in Run(w, es).live
    ensures Has(Run(w, es).files, name) && |Queue(Run(w, es).files, name)| > 0 && Queue(Run(w, es).files, name)[0] == s1
  {
    InitialIsSound(w);
    RunKeepsHeads(w, es);
  }

  /** Who is granted what after an event: those it grants something to, and all before it but the one who gives up. */
  lemma StepGrantsIff(w: World, e: Event, s: int, name: string)
    ensures (s, name) in Step(w, e).granted <==>
      (e == Lock(s, name) && Grants(w.files, s, name)) || ((s, name) in w.granted && e != Unlock(s, name) && e != LogOut(s))
  {
    hide Grants, LockAnswer, LockIn, UnlockIn, CleanIn, Vacate, Occupy, Admits, Assign, Remove;
  }

  /** A granted lock is kept, over any run, until its holder unlocks the file or logs out; and while nobody's granted file is
      deleted the holder heads the queue all along, whatever other files are deleted. */
  lemma {:induction false} HolderKeepsLock(w: World, es: seq<Event>, s: int, name: string)
    requires Possible(w, es) && (s, name) in w.granted && forall e :: e in es ==> e != Unlock(s, name) && e != LogOut(s)
    ensures (s, name) in Run(w, es).granted
    ensures Sound(w) && GrantsAreHeads(w) && NoGrantDeleted(w, es) ==>
      var t := Run(w, es).files; Has(t, name) && |Queue(t, name)| > 0 && Queue(t, name)[0] == s
    decreases es
  {
    if es != [] {
      assert es[0] in es && forall e :: e in es[1..] ==> e in es;
      StepGrantsIff(w, es[0], s, name);
      if Sound(w) && GrantsAreHeads(w) && NoGrantDeleted(w, es) {
        StepKeepsSound(w, es[0]);
        StepKeepsHeads(w, es[0]);
      }
      hide Step, Enabled, Sound, GrantsAreHeads, DeletesNoGrant;
      HolderKeepsLock(Step(w, es[0]), es[1..], s, name);
    }
  }

  /** The guard is exact: a deletion keeps the invariant if and only if it deletes no grant. */
  lemma DeleteKeepsHeadsIff(w: World, s: int, name: string)
    requires Sound(w) && GrantsAreHeads(w) && Enabled(w, Delete(s, name))
    ensures GrantsAreHeads(Step(w, Delete(s, name))) <==> DeletesNoGrant(w, Delete(s, name))
  {
    var e := Delete(s, name);
    if DeletesNoGrant(w, e) {
      StepKeepsHeads(w, e);
    } else {
      RemoveForgets(w.files, name);
      var h :| (h, name) in w.granted;
      assert (h, name) in Step(w, e).granted;
    }
  }

  // ---- The session bound ----

  ghost predicate SessionsFit(w: World) {
    Free(w.devices) + |w.live| <= MAXCONNECTIONS
  }

  lemma StepKeepsSessions(w: World, e: Event)
    requires SessionsFit(w) && Enabled(w, e)
    ensures SessionsFit(Step(w, e))
  {
    match e
    case LogIn(s) => FreeSlotsMove(w.devices, s);
    case LogOut(s) =>
      FreeAfterUpdate(w.devices, 0, -1, |w.devices|);
      assert |w.live - {s}| == |w.live| - 1;
    case _ =>
  }

  /** In every run, free device slots and live sessions together never exceed five, although
      logging out always frees slot 0. */
  lemma {:induction false} SessionBound(w: World, es: seq<Event>)
    requires SessionsFit(w) && Possible(w, es)
    ensures SessionsFit(Run(w, es)) && |Run(w, es).live| <= MAXCONNECTIONS
    decreases es
  {
    if es != [] {
      StepKeepsSessions(w, es[0]);
      SessionBound(Step(w, es[0]), es[1..]);
    }
  }

  /** A logout that gives no slot back: its socket has lost its slot to somebody else, or slot 0 is free already. */
  predicate Leaks(w: World, e: Event) {
    e.LogOut? && !(e.s in w.devices && w.devices[0] > 0)
  }

  function Lost(w: World, es: seq<Event>): nat
    decreases es
  {
    if es == [] then 0 else (if Leaks(w, es[0]) then 1 else 0) + Lost(Step(w, es[0]), es[1..])
  }

  lemma StepCapacity(w: World, e: Event)
    requires Enabled(w, e)
    ensures Free(Step(w, e).devices) + |Step(w, e).live| + (if Leaks(w, e) then 1 else 0) == Free(w.devices) + |w.live|
  {
    hide Find, Assign, Remove, LockIn, UnlockIn, CleanIn, LockAnswer, Grants;
    match e
    case LogIn(s) => FreeSlotsMove(w.devices, s);
    case LogOut(s) =>
      FreeAfterUpdate(w.devices, 0, -1, |w.devices|);
      assert |w.live - {s}| == |w.live| - 1;
    case _ =>
  }

  /** Conservation of capacity: each such logout costs the user one session for good. */
  lemma {:induction false} Capacity(w: World, es: seq<Event>)
    requires Possible(w, es)
    ensures Free(Run(w, es).devices) + |Run(w, es).live| + Lost(w, es) == Free(w.devices) + |w.live|
    decreases es
  {
    if es != [] {
      StepCapacity(w, es[0]);
      hide Step, Free, Leaks;
      Capacity(Step(w, es[0]), es[1..]);
    }
  }

  /** So a login is refused, exactly, when the live sessions and the slots lost make five. */
  lemma RefusedIff(w: World, es: seq<Event>)
    requires Possible(w, es) && w.live == {} && Free(w.devices) == MAXCONNECTIONS
    ensures !Admits(Run(w, es).devices) <==> |Run(w, es).live| + Lost(w, es) == MAXCONNECTIONS
  {
    Capacity(w, es);
    FreeSlotsMove(Run(w, es).devices, 1);
  }
}
