/** What a session can conclude from the number `lockFile` answers. The waiting answer is the
    length of the queue, and the client takes the value 30 for a grant, so the answers are
    unambiguous only while queues stay short. */
module LockReplies {
  import opened FileTable
  import opened LockQueue
  import opened Devices
  import opened UserRecord
  import opened LockRuns

  /** Named slots queue live sessions only, vacant slots queue nobody. */
  ghost predicate SlotsLive(t: Table, live: set<int>) {
    forall i :: 0 <= i < |t| ==>
      if t[i].name == "" then t[i].lock == [] else forall x :: x in t[i].lock ==> x in live
  }

  /** The queues are in order: grants are heads, and nobody is queued but live sessions. */
  ghost predicate Orderly(w: World) {
    Sound(w) && GrantsAreHeads(w) && SessionsFit(w) && SlotsLive(w.files, w.live)
  }

  /** The queues are in order, and the sessions that take an answer for the lock are those that were granted it. */
  ghost predicate Unambiguous(w: World) {
    Orderly(w) && w.believed == w.granted
  }

  /** A lock is asked for on a file of the table. For any other the server answers 0, which the client returns. */
  ghost predicate AsksKnown(w: World, e: Event) {
    e.Lock? ==> Has(w.files, e.name)
  }

  /** A deletion that takes no grant away and moves nobody's queue: the last record, whose slot
      is vacated with its queue in it, has nobody queued. */
  ghost predicate CleanDelete(w: World, e: Event) {
    e.Delete? ==>
      !Has(w.files, e.name) || Full(w.files)
      || (!Locked(w, e.name) && (Find(w.files, "") > 0 ==> w.files[Find(w.files, "") - 1].lock == []))
  }

  lemma InitialIsUnambiguous(w: World)
    requires Initial(w)
    ensures Unambiguous(w)
  {
    assert forall i :: 0 <= i < |w.files| ==> w.files[i] in w.files;
  }

  /** While queues hold live sessions only, a queue has at most five entries, so the answer 30
      is given to the head of the queue and to nobody else, and `lockFile` returns 0 for nothing else. */
  lemma AnswerMeansGrant(w: World, s: int, name: string)
    requires Orderly(w) && s in w.live && Has(w.files, name) && ProperName(name)
    ensures |Enqueue(Queue(w.files, name), s)| <= MAXCONNECTIONS
    ensures LockAnswer(w.files, s, name) == LOCK_SUCCESS <==> Grants(w.files, s, name)
    ensures LockResult(LockAnswer(w.files, s, name)) == 0 <==> Grants(w.files, s, name)
  {
    assert w.files[Find(w.files, name)] in w.files;
    EnqueueKeepsDistinct(Queue(w.files, name), s);
    DistinctFits(Enqueue(Queue(w.files, name), s), w.live);
  }

  lemma LogOutSlotsLive(w: World, s: int)
    requires Orderly(w)
    ensures SlotsLive(CleanIn(w.files, s), w.live - {s})
  {
    hide SkippingErase, Find;
    var t, u := w.files, CleanIn(w.files, s);
    forall i | 0 <= i < |u| && u[i].name != "" ensures forall x :: x in u[i].lock ==> x in w.live && x != s {
      assert t[i] in t;
      ReleaseIsWithout(t[i].lock, s);
    }
  }

  lemma StepKeepsSlotsLive(w: World, e: Event)
    requires Orderly(w) && Enabled(w, e) && CleanDelete(w, e)
    ensures SlotsLive(Step(w, e).files, Step(w, e).live)
  {
    var t, u := w.files, Step(w, e).files;
    match e
    case LogIn(s) =>
    case LogOut(s) =>
      LogOutSlotsLive(w, s);
    case Lock(s, name) =>
    case Unlock(s, name) =>
      var k := Find(t, name);
      if k >= 0 {
        assert t[k] in t;
        ReleaseIsWithout(t[k].lock, s);
      }
    case Upload(s, name, mtime, size) =>
      var k := SlotFor(t, name);
      assert k >= 0 ==> u[k].lock == t[k].lock;
    case Delete(s, name) =>
      if Has(t, name) && !Full(t) { RemoveAt(t, name); }
  }

  lemma StepKeepsOrderly(w: World, e: Event)
    requires Orderly(w) && Enabled(w, e) && CleanDelete(w, e)
    ensures Orderly(Step(w, e))
  {
    StepKeepsSound(w, e);
    StepKeepsHeads(w, e);
    StepKeepsSessions(w, e);
    StepKeepsSlotsLive(w, e);
  }

  lemma StepKeepsUnambiguous(w: World, e: Event)
    requires Unambiguous(w) && Enabled(w, e) && CleanDelete(w, e) && AsksKnown(w, e)
    ensures Unambiguous(Step(w, e))
  {
    StepKeepsOrderly(w, e);
    if e.Lock? { AnswerMeansGrant(w, e.s, e.name); }
  }

  /** What a request does to belief, exactly: it stays true if and only if the file is in the table. */
  lemma LockKeepsBeliefIff(w: World, s: int, name: string)
    requires Unambiguous(w) && Enabled(w, Lock(s, name))
    ensures Step(w, Lock(s, name)).believed == Step(w, Lock(s, name)).granted <==> Has(w.files, name)
  {
    var v := Step(w, Lock(s, name));
    if Has(w.files, name) {
      AnswerMeansGrant(w, s, name);
    } else {
      assert (s, name) !in w.granted;
      assert (s, name) in v.believed;
    }
  }

  /** What a deletion does to the invariant. */
  lemma DeleteKeepsUnambiguousIff(w: World, s: int, name: string)
    requires Unambiguous(w) && Enabled(w, Delete(s, name))
    ensures Unambiguous(Step(w, Delete(s, name))) <==> CleanDelete(w, Delete(s, name))
  {
    var e := Delete(s, name);
    if CleanDelete(w, e) {
      StepKeepsUnambiguous(w, e);
    } else if DeletesNoGrant(w, e) {
      RemoveAt(w.files, name);
      assert !SlotsLive(Step(w, e).files, w.live);
    } else {
      DeleteKeepsHeadsIff(w, s, name);
    }
  }

  ghost predicate CleanlyDeleted(w: World, es: seq<Event>)
    decreases es
  {
    es == [] || (CleanDelete(w, es[0]) && CleanlyDeleted(Step(w, es[0]), es[1..]))
  }

  ghost predicate OnlyKnown(w: World, es: seq<Event>)
    decreases es
  {
    es == [] || (AsksKnown(w, es[0]) && OnlyKnown(Step(w, es[0]), es[1..]))
  }

  lemma {:induction false} RunKeepsOrderly(w: World, es: seq<Event>)
    requires Orderly(w) && Possible(w, es) && CleanlyDeleted(w, es)
    ensures Orderly(Run(w, es))
    ensures Unambiguous(w) && OnlyKnown(w, es) ==> Unambiguous(Run(w, es))
    decreases es
  {
    if es != [] {
      hide Orderly, CleanDelete, AsksKnown, Enabled, Step;
      StepKeepsOrderly(w, es[0]);
      if Unambiguous(w) && AsksKnown(w, es[0]) { StepKeepsUnambiguous(w, es[0]); }
      RunKeepsOrderly(Step(w, es[0]), es[1..]);
    }
  }

  /** Over all runs with clean deletions no queue exceeds five sockets, and a session waiting for a file is never
      answered 30. If locks are asked for on files of the table only, what the clients believe is true: those whose
      `lockFile` returned 0 are exactly those the server granted, one per file at most. */
  lemma ClientsBelieveTheTruth(w: World, es: seq<Event>, s1: int, s2: int, name: string)
    requires Initial(w) && Possible(w, es) && CleanlyDeleted(w, es)
    ensures var v := Run(w, es);
      && (OnlyKnown(w, es) ==> v.believed == v.granted)
      && ((s1, name) in v.granted && (s2, name) in v.granted ==> s1 == s2 && s1 in v.live)
      && (Has(v.files, name) ==> |Queue(v.files, name)| <= MAXCONNECTIONS)
      && (Has(v.files, name) && ProperName(name) && s1 in v.live ==>
            (LockAnswer(v.files, s1, name) == LOCK_SUCCESS <==> Grants(v.files, s1, name)))
  {
    InitialIsUnambiguous(w);
    RunKeepsOrderly(w, es);
    var v := Run(w, es);
    if Has(v.files, name) {
      assert v.files[Find(v.files, name)] in v.files;
      DistinctFits(Queue(v.files, name), v.live);
      if ProperName(name) && s1 in v.live { AnswerMeansGrant(v, s1, name); }
    }
  }

  /** A deletion that takes no grant does no harm at once: belief and grant still agree, queues still have at
      most five entries with whoever asks next, and 30 is still the answer to a grant. */
  lemma AnswersSurviveDelete(w: World, s: int, name: string, t: int, n: string)
    requires Unambiguous(w) && Enabled(w, Delete(s, name)) && DeletesNoGrant(w, Delete(s, name))
    ensures var v := Step(w, Delete(s, name));
      v.believed == v.granted && GrantsAreHeads(v)
      && (t in v.live && Has(v.files, n) && ProperName(n) ==>
            |Enqueue(Queue(v.files, n), t)| <= MAXCONNECTIONS
            && (LockAnswer(v.files, t, n) == LOCK_SUCCESS <==> Grants(v.files, t, n)))
  {
    var e := Delete(s, name);
    var v := Step(w, e);
    StepKeepsSound(w, e);
    StepKeepsHeads(w, e);
    if t in v.live && Has(v.files, n) && ProperName(n) {
      DeletedNamesWereThere(w, s, name, n);
      StepQueue(w, e, n);
      AnswerMeansGrant(w, t, n);
      hide Step, Find, Remove, WellFormed;
    }
  }

  lemma DeletedNamesWereThere(w: World, s: int, name: string, n: string)
    requires Sound(w) && Enabled(w, Delete(s, name)) && Has(Step(w, Delete(s, name)).files, n)
    ensures Has(w.files, n) && !Drops(w, Delete(s, name), n)
  {
    var t, u := w.files, Remove(w.files, name);
    if Has(t, name) && !Full(t) {
      RemoveForgets(t, name);
      if n != name { RemoveLeavesOthers(t, name, n); }
    } else {
      RemoveUnchanged(t, name);
    }
  }

  lemma RemoveUnchanged(t: Table, name: string)
    requires name != "" && (!Has(t, name) || Full(t))
    ensures Remove(t, name) == t
  {
  }

  // ---- The harm it does later ----

  /** Some file queues a socket that no session has any more. */
  ghost predicate DeadQueued(w: World) {
    exists i, x :: 0 <= i < |w.files| && w.files[i].name != "" && x in w.files[i].lock && x !in w.live
  }

  /** A run of events, with clean deletions, that puts a dead socket into a file's queue. */
  ghost predicate Haunts(w: World, es: seq<Event>) {
    Possible(w, es) && CleanlyDeleted(w, es) && DeadQueued(Run(w, es))
  }

  /** Slot 0, the one every logout frees, is free or held by a live session. */
  ghost predicate FirstSlotLive(w: World) {
    w.devices[0] <= 0 || w.devices[0] in w.live
  }

  lemma {:induction false} RunKeepsFirstSlot(w: World, es: seq<Event>)
    requires FirstSlotLive(w) && Possible(w, es)
    ensures FirstSlotLive(Run(w, es))
    decreases es
  {
    if es != [] {
      StepKeepsFirstSlot(w, es[0]);
      RunKeepsFirstSlot(Step(w, es[0]), es[1..]);
    }
  }

  lemma StepKeepsFirstSlot(w: World, e: Event)
    requires FirstSlotLive(w) && Enabled(w, e)
    ensures FirstSlotLive(Step(w, e))
  {
    hide Find, Assign, Remove, LockIn, UnlockIn, CleanIn, LockAnswer, Grants;
    match e
    case LogIn(s) => if Admits(w.devices) { assert FirstFree(w.devices, 0) >= 0; }
    case _ =>
  }

  lemma OrderlyIsNotHaunted(v: World, es: seq<Event>)
    requires Orderly(v) && Possible(v, es) && CleanlyDeleted(v, es)
    ensures !DeadQueued(Run(v, es))
  {
    RunKeepsOrderly(v, es);
  }

  /** The vacated slot, after the deletion, still queues a live session. */
  lemma VacatedQueue(w: World, s: int, name: string) returns (x: int)
    requires Orderly(w) && Enabled(w, Delete(s, name))
    requires DeletesNoGrant(w, Delete(s, name)) && !CleanDelete(w, Delete(s, name))
    ensures var v := Step(w, Delete(s, name));
      0 <= Find(v.files, "") && x in v.files[Find(v.files, "")].lock && x in v.live
      && Find(v.files, name) < 0 && WellFormed(v.files)
  {
    var t, last := w.files, Find(w.files, "") - 1;
    RemoveAt(t, name);
    RemoveForgets(t, name);
    RemoveKeepsShape(t, name);
    assert Find(t, "") > 0 && t[last].lock != [];
    var u := Remove(t, name);
    CountIsPrefix(t, |t|);
    assert forall i :: 0 <= i < last ==> u[i].name != "";
    assert Find(u, "") == last;
    x := t[last].lock[0];
    PrefixNamed(t, last);
  }

  /** Once that session has logged out, any upload of a new name by somebody else takes the slot and its queue. */
  lemma LogOutThenUpload(v: World, x: int, y: int, name: string)
    requires WellFormed(v.files) && ProperName(name) && Find(v.files, name) < 0
    requires 0 <= Find(v.files, "") && x in v.files[Find(v.files, "")].lock
    requires x !in v.live && y in v.live
    ensures Enabled(v, Upload(y, name, 0, 0)) && DeadQueued(Step(v, Upload(y, name, 0, 0)))
  {
    var k, u := Find(v.files, ""), Step(v, Upload(y, name, 0, 0));
    assert u.files[k].name == name && x in u.files[k].lock && x !in u.live;
  }

  lemma AfterLogOut(v: World, x: int, name: string)
    requires x in v.live && WellFormed(v.files) && Find(v.files, name) < 0
    requires 0 <= Find(v.files, "") && x in v.files[Find(v.files, "")].lock
    ensures var u := Step(v, LogOut(x));
      x !in u.live && u.live == v.live - {x} && WellFormed(u.files) && Find(u.files, name) < 0
      && Find(u.files, "") == Find(v.files, "") && x in u.files[Find(u.files, "")].lock
      && (FirstSlotLive(v) && (forall z :: z in v.live ==> z == x) ==> Admits(u.devices))
  {
    var u := Step(v, LogOut(x));
    NamesDecide(v.files, u.files, name);
    NamesDecide(v.files, u.files, "");
    if FirstSlotLive(v) && (forall z :: z in v.live ==> z == x) { assert u.devices[0] <= 0; }
  }

  lemma UncleanHaunts(w: World, s: int, name: string) returns (es: seq<Event>)
    requires Orderly(w) && FirstSlotLive(w) && Enabled(w, Delete(s, name))
    requires DeletesNoGrant(w, Delete(s, name)) && !CleanDelete(w, Delete(s, name))
    ensures Haunts(Step(w, Delete(s, name)), es)
  {
    var v := Step(w, Delete(s, name));
    var x := VacatedQueue(w, s, name);
    assert FirstSlotLive(v) by { StepKeepsFirstSlot(w, Delete(s, name)); }
    AfterLogOut(v, x, name);
    var u := Step(v, LogOut(x));
    hide Find, WellFormed, Remove, CleanIn, Vacate, CleanDelete, DeadQueued;
    if y :| y in v.live && y != x {
      LogOutThenUpload(u, x, y, name);
      es := [LogOut(x), Upload(y, name, 0, 0)];
      TwoEvents(v, LogOut(x), Upload(y, name, 0, 0));
    } else {
      assert forall z :: z in v.live ==> z == x;
      var y := if x == 1 then 2 else 1;
      var z := Step(u, LogIn(y));
      LogOutThenUpload(z, x, y, name);
      es := [LogOut(x), LogIn(y), Upload(y, name, 0, 0)];
      ThreeEvents(v, LogOut(x), LogIn(y), Upload(y, name, 0, 0));
    }
  }

  lemma TwoEvents(w: World, e: Event, f: Event)
    requires Enabled(w, e) && !e.Delete? && Enabled(Step(w, e), f) && !f.Delete?
    ensures Possible(w, [e, f]) && CleanlyDeleted(w, [e, f]) && Run(w, [e, f]) == Step(Step(w, e), f)
  {
    hide Enabled, Step;
    var v := Step(w, e);
    var u := Step(v, f);
    assert [e, f][1..] == [f] && [f][1..] == [];
    assert Possible(u, []) && CleanlyDeleted(u, []) && Run(u, []) == u;
    assert Possible(v, [f]) && CleanlyDeleted(v, [f]) && Run(v, [f]) == u;
  }

  lemma ThreeEvents(w: World, e: Event, f: Event, g: Event)
    requires Enabled(w, e) && !e.Delete? && Enabled(Step(w, e), f) && !f.Delete?
    requires Enabled(Step(Step(w, e), f), g) && !g.Delete?
    ensures Possible(w, [e, f, g]) && CleanlyDeleted(w, [e, f, g]) && Run(w, [e, f, g]) == Step(Step(Step(w, e), f), g)
  {
    hide Enabled, Step;
    assert [e, f, g][1..] == [f, g];
    TwoEvents(Step(w, e), f, g);
  }

  /** What a deletion that takes no grant may lead to, exactly: from any state that a run with clean deletions
      reaches, some further run with clean deletions puts a dead socket into a file's queue if and only if the slot that
      the deletion vacates has somebody queued. Nobody behind that socket is ever served while it stands there. */
  lemma DeletionHauntsIff(w0: World, es0: seq<Event>, s: int, name: string)
    requires Initial(w0) && w0.devices[0] <= 0 && Possible(w0, es0) && CleanlyDeleted(w0, es0)
    requires Enabled(Run(w0, es0), Delete(s, name)) && DeletesNoGrant(Run(w0, es0), Delete(s, name))
    ensures (exists es :: Haunts(Step(Run(w0, es0), Delete(s, name)), es)) <==> !CleanDelete(Run(w0, es0), Delete(s, name))
  {
    InitialIsUnambiguous(w0);
    RunKeepsOrderly(w0, es0);
    RunKeepsFirstSlot(w0, es0);
    var w, e := Run(w0, es0), Delete(s, name);
    var v := Step(w, e);
    hide Orderly, CleanDelete, Step, DeadQueued, FirstSlotLive, Initial, DeletesNoGrant;
    if CleanDelete(w, e) {
      StepKeepsOrderly(w, e);
      forall es ensures !Haunts(v, es) {
        if Possible(v, es) && CleanlyDeleted(v, es) { OrderlyIsNotHaunted(v, es); }
      }
    } else {
      var es := UncleanHaunts(w, s, name);
      assert Haunts(v, es);
    }
  }

  /** A session queued behind a dead socket is not granted the file, whatever else happens, until somebody with
      that number unlocks it or logs out. */
  lemma BehindTheDead(w: World, es: seq<Event>, s: int, dead: int, name: string)
    requires Sound(w) && Possible(w, es) && KeepsWaiting(w, es, s, name) && ProperName(name)
    requires Has(w.files, name) && s in Queue(w.files, name) && dead in Ahead(Queue(w.files, name), s)
    requires dead !in Departed(es, name)
    ensures !Grants(Run(w, es).files, s, name)
  {
    RetryGrantedIff(w, es, s, name);
  }
}
