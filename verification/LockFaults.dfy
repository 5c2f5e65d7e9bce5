/** Runs in which the lock queues go wrong, and tables that are full. */
module LockFaults {
  import opened FileTable
  import opened LockQueue
  import opened Devices
  import opened UserRecord
  import opened LockRuns
  import opened LockReplies

  function Row(fs: seq<FileInfo>): Table
    requires |fs| <= MAXFILES
  {
    fs + seq(MAXFILES - |fs|, _ => VACANT)
  }

  function EmptyWorld(): World {
    World(Row([]), [-1, -1, -1, -1, -1], {}, {}, {})
  }

  lemma RunAppend(w: World, a: seq<Event>, b: seq<Event>)
    requires Possible(w, a) && Possible(Run(w, a), b)
    ensures Possible(w, a + b) && Run(w, a + b) == Run(Run(w, a), b)
    decreases a
  {
    if a == [] {
      assert a + b == b;
    } else {
      RunAppend(Step(w, a[0]), a[1..], b);
      assert (a + b)[0] == a[0] && (a + b)[1..] == a[1..] + b;
    }
  }

  lemma RunOne(w: World, e: Event)
    requires Enabled(w, e)
    ensures Possible(w, [e]) && Run(w, [e]) == Step(w, e)
  {
    assert [e][1..] == [];
    assert Possible(Step(w, e), []);
    assert Run(Step(w, e), []) == Step(w, e);
  }

  lemma Then(w: World, es: seq<Event>, v: World, e: Event)
    requires Possible(w, es) && Run(w, es) == v && Enabled(v, e)
    ensures Possible(w, es + [e]) && Run(w, es + [e]) == Step(v, e)
  {
    RunOne(v, e);
    RunAppend(w, es, [e]);
  }

  lemma FindInRow(fs: seq<FileInfo>, name: string)
    requires |fs| < MAXFILES && forall i :: 0 <= i < |fs| ==> fs[i].name != ""
    ensures Find(Row(fs), "") == |fs|
    ensures name != "" && (forall i :: 0 <= i < |fs| ==> fs[i].name != name) ==> Find(Row(fs), name) < 0
  {
    var t := Row(fs);
    assert t[|fs|] == VACANT;
    if Find(t, name) >= 0 { assert t[Find(t, name)].name == name; }
  }

  function TwoSessions(fs: seq<FileInfo>, grants: set<(int, string)>): World
    requires |fs| <= MAXFILES
  {
    World(Row(fs), [4, 5, -1, -1, -1], {4, 5}, grants, grants)
  }

  lemma TwoSessionsLogIn() returns (es: seq<Event>)
    ensures Possible(EmptyWorld(), es) && Run(EmptyWorld(), es) == TwoSessions([], {})
  {
    var w0 := EmptyWorld();
    assert FirstFree(w0.devices, 0) == 0;
    RunOne(w0, LogIn(4));
    var w1 := Step(w0, LogIn(4));
    assert FirstFree(w1.devices, 0) == 1;
    Then(w0, [LogIn(4)], w1, LogIn(5));
    es := [LogIn(4)] + [LogIn(5)];
  }

  /** Uploading a new name appends a record with an empty queue. */
  lemma UploadAppends(es: seq<Event>, fs: seq<FileInfo>, g: set<(int, string)>, name: string) returns (more: seq<Event>)
    requires Possible(EmptyWorld(), es) && |fs| < MAXFILES && Run(EmptyWorld(), es) == TwoSessions(fs, g)
    requires ProperName(name) && forall i :: 0 <= i < |fs| ==> fs[i].name != "" && fs[i].name != name
    ensures Possible(EmptyWorld(), more)
    ensures Run(EmptyWorld(), more) == TwoSessions(fs + [FileInfo(name, 0, 0, [])], g)
  {
    var w := TwoSessions(fs, g);
    FindInRow(fs, name);
    Then(EmptyWorld(), es, w, Upload(4, name, 0, 0));
    more := es + [Upload(4, name, 0, 0)];
    assert Step(w, Upload(4, name, 0, 0)).files == Row(fs + [FileInfo(name, 0, 0, [])]);
  }

  /** A locked file can be deleted by any session and uploaded again; its queue is then gone,
      and two live sessions hold the same file. */
  lemma TwoHoldersAfterDelete() returns (es: seq<Event>)
    ensures Possible(EmptyWorld(), es)
    ensures var v := Run(EmptyWorld(), es); (4, "a") in v.granted && (5, "a") in v.granted && v.live == {4, 5}
  {
    var a, b := FileInfo("a", 0, 0, []), FileInfo("b", 0, 0, []);
    es := TwoSessionsLogIn();
    es := UploadAppends(es, [], {}, "a");
    es := UploadAppends(es, [a], {}, "b");
    es := LockAndDelete(es, a, b);
    es := UploadAppends(es, [b], {(4, "a")}, "a");
    var w := TwoSessions([b] + [a], {(4, "a")});
    assert w.files[0].name == "b" && w.files[1] == a;
    assert Find(w.files, "a") == 1;
    Then(EmptyWorld(), es, w, Lock(5, "a"));
    es := es + [Lock(5, "a")];
  }

  lemma LockAndDelete(es: seq<Event>, a: FileInfo, b: FileInfo) returns (more: seq<Event>)
    requires a == FileInfo("a", 0, 0, []) && b == FileInfo("b", 0, 0, [])
    requires Possible(EmptyWorld(), es) && Run(EmptyWorld(), es) == TwoSessions([a] + [b], {})
    ensures Possible(EmptyWorld(), more) && Run(EmptyWorld(), more) == TwoSessions([b], {(4, "a")})
  {
    var w4 := TwoSessions([a] + [b], {});
    assert w4.files[0] == a && Find(w4.files, "a") == 0;
    Then(EmptyWorld(), es, w4, Lock(4, "a"));
    var w5 := Step(w4, Lock(4, "a"));
    var locked := [a.(lock := [4]), b];
    assert Enqueue([], 4) == [4];
    assert w5 == TwoSessions(locked, {(4, "a")}) by {
      assert w5.files == Row(locked);
    }
    FindInRow(locked, "");
    assert w5.files[0].name == "a" && Find(w5.files, "a") == 0;
    more := es + [Lock(4, "a")];
    Then(EmptyWorld(), more, w5, Delete(5, "a"));
    more := more + [Delete(5, "a")];
    assert Remove(w5.files, "a") == Row([b]);
  }

  // ---- Queues that grow for ever ----

  /** Only files that nobody has locked or waits for are deleted. */
  ghost predicate IdleDelete(w: World, e: Event) {
    e.Delete? && Has(w.files, e.name) ==> Queue(w.files, e.name) == []
  }

  ghost predicate IdleDeletes(w: World, es: seq<Event>)
    decreases es
  {
    es == [] || (IdleDelete(w, es[0]) && IdleDeletes(Step(w, es[0]), es[1..]))
  }

  /** The run leads from the empty table to `v`, deleting idle files only. */
  ghost predicate Reaches(es: seq<Event>, v: World) {
    Possible(EmptyWorld(), es) && IdleDeletes(EmptyWorld(), es) && Run(EmptyWorld(), es) == v
  }

  lemma {:induction false} IdleSnoc(w: World, es: seq<Event>, e: Event)
    requires Possible(w, es) && IdleDeletes(w, es) && Enabled(Run(w, es), e) && IdleDelete(Run(w, es), e)
    ensures Possible(w, es + [e]) && IdleDeletes(w, es + [e]) && Run(w, es + [e]) == Step(Run(w, es), e)
    decreases es
  {
    hide Step, Enabled, IdleDelete;
    if es == [] {
      assert [] + [e] == [e] && [e][1..] == [];
      var v := Step(w, e);
      assert Possible(v, []) && IdleDeletes(v, []) && Run(v, []) == v;
    } else {
      assert (es + [e])[0] == es[0] && (es + [e])[1..] == es[1..] + [e];
      IdleSnoc(Step(w, es[0]), es[1..], e);
    }
  }

  lemma Goes(es: seq<Event>, v: World, e: Event) returns (more: seq<Event>)
    requires Reaches(es, v) && Enabled(v, e) && IdleDelete(v, e)
    ensures Reaches(more, Step(v, e))
  {
    hide Step, Enabled, IdleDelete, EmptyWorld;
    IdleSnoc(EmptyWorld(), es, e);
    more := es + [e];
  }

  /** Nobody is logged in. */
  function Idle(t: Table): World {
    World(t, [-1, -1, -1, -1, -1], {}, {}, {})
  }

  /** One session is, and has no grant. */
  function Alone(t: Table, s: int): World {
    World(t, [s, -1, -1, -1, -1], {s}, {}, {})
  }

  lemma Comes(es: seq<Event>, t: Table, s: int) returns (more: seq<Event>)
    requires Reaches(es, Idle(t)) && s > 0
    ensures Reaches(more, Alone(t, s))
  {
    hide Reaches;
    more := Goes(es, Idle(t), LogIn(s));
    assert FirstFree(Idle(t).devices, 0) == 0;
    assert Step(Idle(t), LogIn(s)) == Alone(t, s);
  }

  /** A session logs out; what it was granted, or believed, goes with it. */
  lemma Leaves(es: seq<Event>, t: Table, s: int, granted: set<(int, string)>, believed: set<(int, string)>)
      returns (more: seq<Event>)
    requires Reaches(es, Alone(t, s).(granted := granted, believed := believed))
    requires (forall g :: g in granted ==> g.0 == s) && (forall g :: g in believed ==> g.0 == s)
    ensures Reaches(more, Idle(CleanIn(t, s)))
  {
    hide Reaches, CleanIn;
    var w := Alone(t, s).(granted := granted, believed := believed);
    more := Goes(es, w, LogOut(s));
    assert w.devices[0] == s;
    assert Step(w, LogOut(s)) == Idle(CleanIn(t, s));
  }

  function Two(f: FileInfo, g: FileInfo): (t: Table)
    ensures t[0] == f && t[1] == g && forall i :: 2 <= i < MAXFILES ==> t[i] == VACANT
  {
    Row([f, g])
  }

  lemma FindTwo(f: FileInfo, g: FileInfo)
    requires f.name != "" && f.name != g.name
    ensures Find(Two(f, g), f.name) == 0
    ensures g.name != "" ==> Find(Two(f, g), g.name) == 1 && Find(Two(f, g), "") == 2
    ensures g.name == "" ==> Find(Two(f, g), "") == 1
    ensures forall n :: n != "" && n != f.name && n != g.name ==> Find(Two(f, g), n) < 0
  {
    var t := Two(f, g);
    assert t[0].name == f.name && t[1].name == g.name && t[2].name == "";
    forall n | n != "" && n != f.name && n != g.name ensures Find(t, n) < 0 {
      assert forall i :: 0 <= i < MAXFILES ==> t[i].name != n;
    }
  }

  lemma CleanTwo(f: FileInfo, g: FileInfo, s: int)
    ensures CleanIn(Two(f, g), s) == Two(CleanSlot(f, s), CleanSlot(g, s))
  {
    hide SkippingErase;
    assert CleanSlot(VACANT, s) == VACANT;
  }

  lemma {:induction false} NothingErased(q: seq<int>, s: int)
    requires s !in q
    ensures SkippingErase(q, s) == q
  {
    if q != [] { NothingErased(q[1..], s); }
  }

  /** Sockets 4, 5, 6 and so on. */
  function Upto(n: nat): (q: seq<int>)
    ensures |q| == n && forall i :: 0 <= i < n ==> q[i] == i + 4
  {
    seq(n, i => i + 4)
  }

  function File(name: string, q: seq<int>): FileInfo {
    FileInfo(name, 0, 0, q)
  }

  /** Nobody is logged in; `x` is idle and `y` queues `n` dead sockets. */
  function Piled(n: nat, x: string, y: string): World {
    Idle(Two(File(x, []), File(y, Upto(n))))
  }

  /** The next session queues up for `y`. */
  function Queued(n: nat, x: string, y: string): World {
    Alone(Two(File(x, []), File(y, Upto(n + 1))), n + 4).(
      granted := if n == 0 then {(4, y)} else {},
      believed := if n == 0 || n + 1 == LOCK_SUCCESS then {(n + 4, y)} else {})
  }

  lemma QueuesUp(es: seq<Event>, n: nat, x: string, y: string) returns (more: seq<Event>)
    requires Reaches(es, Piled(n, x, y)) && ProperName(x) && ProperName(y) && x != y
    ensures Reaches(more, Queued(n, x, y))
  {
    var f, g, s := File(x, []), File(y, Upto(n)), n + 4;
    var t := Two(f, g);
    more := Comes(es, t, s);
    FindTwo(f, g);
    assert s !in Upto(n) && Upto(n) + [s] == Upto(n + 1);
    more := Goes(more, Alone(t, s), Lock(s, y));
    assert LockIn(t, s, y) == Two(f, File(y, Upto(n + 1)));
    assert Enqueue(Upto(n), s)[0] == s <==> n == 0;
    hide Reaches, LockIn, Two;
    assert Step(Alone(t, s), Lock(s, y)) == Queued(n, x, y);
  }

  /** `x` is deleted: `y` moves into its slot and leaves its queue behind in the vacated one. */
  lemma DeletesFirst(es: seq<Event>, n: nat, x: string, y: string) returns (more: seq<Event>)
    requires Reaches(es, Queued(n, x, y)) && ProperName(x) && ProperName(y) && x != y
    ensures Reaches(more, Idle(Two(File(y, Upto(n)), File("", Upto(n + 1)))))
  {
    var f, g, s, w := File(x, []), File(y, Upto(n + 1)), n + 4, Queued(n, x, y);
    FindTwo(f, g);
    more := Goes(es, w, Delete(s, x));
    var t := Two(g, File("", Upto(n + 1)));
    assert Remove(w.files, x) == t;
    assert Step(w, Delete(s, x)) == Alone(t, s).(granted := w.granted, believed := w.believed);
    more := Leaves(more, t, s, w.granted, w.believed);
    CleanTwo(g, File("", Upto(n + 1)), s);
    LastErased(n);
  }

  lemma LastErased(n: nat)
    ensures SkippingErase(Upto(n + 1), n + 4) == Upto(n)
  {
    ReleaseIsWithout(Upto(n + 1), n + 4);
    assert Upto(n + 1) == Upto(n) + [n + 4];
    WithoutSplit(Upto(n), [n + 4], n + 4);
    WithoutAbsent(Upto(n), n + 4);
    assert [n + 4][1..] == [] && Without([n + 4], n + 4) == [];
  }

  /** The dead sockets from number `m` on. */
  function From(m: nat, n: nat): (q: seq<int>)
    requires m <= n
    ensures |q| == n - m && forall i :: 0 <= i < n - m ==> q[i] == m + i + 4
  {
    Upto(n)[m..]
  }

  /** Sessions that happen to get the dead sockets' numbers come and go. Each logout cleans the named file; nothing
      cleans the vacated slot. */
  lemma {:induction false} ComeAndGo(es: seq<Event>, m: nat, n: nat, y: string) returns (more: seq<Event>)
    requires m <= n && y != "" && Reaches(es, Idle(Two(File(y, From(m, n)), File("", Upto(n + 1)))))
    ensures Reaches(more, Idle(Two(File(y, []), File("", Upto(n + 1)))))
    decreases n - m
  {
    if m == n {
      assert From(m, n) == [];
      more := es;
    } else {
      var f, g := File(y, From(m, n)), File("", Upto(n + 1));
      more := Comes(es, Two(f, g), m + 4);
      more := Leaves(more, Two(f, g), m + 4, {}, {});
      CleanTwo(f, g, m + 4);
      FirstErased(m, n);
      more := ComeAndGo(more, m + 1, n, y);
    }
  }

  lemma FirstErased(m: nat, n: nat)
    requires m < n
    ensures SkippingErase(From(m, n), m + 4) == From(m + 1, n)
  {
    var q := From(m, n);
    ReleaseIsWithout(q, m + 4);
    assert q == [m + 4] + From(m + 1, n);
    WithoutSplit([m + 4], From(m + 1, n), m + 4);
    WithoutAbsent(From(m + 1, n), m + 4);
    assert [m + 4][1..] == [] && Without([m + 4], m + 4) == [];
  }

  /** A session that is in no queue uploads a new file and leaves; the file takes over the vacated slot's queue. */
  lemma UploadsSecond(es: seq<Event>, f: FileInfo, q: seq<int>, x: string, u: int) returns (more: seq<Event>)
    requires Reaches(es, Idle(Two(f, File("", q)))) && ProperName(x) && f.name != "" && f.name != x
    requires u > 0 && u !in q && u !in f.lock
    ensures Reaches(more, Idle(Two(f, File(x, q))))
  {
    var g, h := File("", q), File(x, q);
    more := Comes(es, Two(f, g), u);
    FindTwo(f, g);
    more := Goes(more, Alone(Two(f, g), u), Upload(u, x, 0, 0));
    assert Assign(Two(f, g), x, 0, 0) == Two(f, h);
    assert Step(Alone(Two(f, g), u), Upload(u, x, 0, 0)) == Alone(Two(f, h), u).(granted := {}, believed := {});
    more := Leaves(more, Two(f, h), u, {}, {});
    CleanTwo(f, h, u);
    NothingErased(f.lock, u);
    NothingErased(q, u);
  }

  lemma FirstFile(x: string) returns (es: seq<Event>)
    requires ProperName(x)
    ensures Reaches(es, Idle(Two(File(x, []), File("", []))))
  {
    var t0, t1 := Row([]), Two(File(x, []), File("", []));
    NothingYet(x);
    es := Comes([], t0, 4);
    es := Goes(es, Alone(t0, 4), Upload(4, x, 0, 0));
    hide Reaches, Find;
    assert Step(Alone(t0, 4), Upload(4, x, 0, 0)) == Alone(t1, 4).(granted := {}, believed := {});
    es := Leaves(es, t1, 4, {}, {});
    CleanTwo(File(x, []), File("", []), 4);
    NothingErased([], 4);
  }

  lemma NothingYet(x: string)
    requires ProperName(x)
    ensures Reaches([], Idle(Row([]))) && Assign(Row([]), x, 0, 0) == Two(File(x, []), File("", []))
  {
    var t := Row([]);
    assert forall i :: 0 <= i < MAXFILES ==> t[i] == VACANT;
    assert Find(t, x) < 0 && Find(t, "") == 0;
  }

  lemma FirstTwoFiles(x: string, y: string) returns (es: seq<Event>)
    requires ProperName(x) && ProperName(y) && x != y
    ensures Reaches(es, Piled(0, x, y))
  {
    hide Reaches;
    es := FirstFile(x);
    es := UploadsSecond(es, File(x, []), [], y, 4);
    assert Upto(0) == [];
  }

  /** Deleting idle files only, queues still grow without bound. The descriptors are those of a server with other
      users' connections, which hold or release the numbers in between. */
  lemma {:induction false} QueuesGrowForever(n: nat, x: string, y: string) returns (es: seq<Event>)
    requires ProperName(x) && ProperName(y) && x != y
    ensures Reaches(es, Piled(n, x, y))
  {
    if n == 0 {
      es := FirstTwoFiles(x, y);
    } else {
      es := QueuesGrowForever(n - 1, y, x);
      es := QueuesUp(es, n - 1, y, x);
      es := DeletesFirst(es, n - 1, y, x);
      assert From(0, n - 1) == Upto(n - 1);
      es := ComeAndGo(es, 0, n - 1, x);
      es := UploadsSecond(es, File(x, []), Upto(n), y, n + 4);
    }
  }

  /** So a session can be told 30 although twenty-nine sockets are ahead of it, and believes it holds a file that the
      server never granted it, in a run that never deletes a locked file. */
  lemma FalseGrant() returns (es: seq<Event>)
    ensures Possible(EmptyWorld(), es) && IdleDeletes(EmptyWorld(), es)
    ensures var v := Run(EmptyWorld(), es);
      (33, "b") in v.believed && v.granted == {} && v.live == {33}
      && Has(v.files, "b") && |Queue(v.files, "b")| == 30 && |Ahead(Queue(v.files, "b"), 33)| == 29
  {
    es := QueuesGrowForever(29, "a", "b");
    es := QueuesUp(es, 29, "a", "b");
    FindTwo(File("a", []), File("b", Upto(30)));
    assert Upto(30) == Upto(29) + [33] + [];
    AheadSplit(Upto(29), 33, []);
  }

  // ---- Slots that are lost ----

  function Sessions(devices: Slots, live: set<int>): World {
    World(Row([]), devices, live, {}, {})
  }

  lemma LogsIn(es: seq<Event>, d: Slots, live: set<int>, s: int, k: nat, d': Slots, live': set<int>)
      returns (more: seq<Event>)
    requires Possible(EmptyWorld(), es) && Run(EmptyWorld(), es) == Sessions(d, live) && s > 0 && s !in live
    requires k < MAXCONNECTIONS && d[k] <= 0 && (forall i :: 0 <= i < k ==> d[i] > 0) && d' == d[k := s]
    requires live' == live + {s}
    ensures Possible(EmptyWorld(), more) && Run(EmptyWorld(), more) == Sessions(d', live')
  {
    hide Row;
    assert FirstFree(d, 0) == k;
    Then(EmptyWorld(), es, Sessions(d, live), LogIn(s));
    more := es + [LogIn(s)];
  }

  lemma LogsOut(es: seq<Event>, d: Slots, live: set<int>, s: int, d': Slots, live': set<int>)
      returns (more: seq<Event>)
    requires Possible(EmptyWorld(), es) && Run(EmptyWorld(), es) == Sessions(d, live) && s in live && s in d
    requires d' == d[0 := -1] && live' == live - {s}
    ensures Possible(EmptyWorld(), more) && Run(EmptyWorld(), more) == Sessions(d', live')
  {
    Then(EmptyWorld(), es, Sessions(d, live), LogOut(s));
    more := es + [LogOut(s)];
    assert CleanIn(Row([]), s) == Row([]);
  }

  /** Two sessions log out one after the other; from then on the fifth login is refused with four sessions live. */
  lemma RefusedWithFour() returns (es: seq<Event>)
    ensures Possible(EmptyWorld(), es)
    ensures var v := Run(EmptyWorld(), es); |v.live| == 4 && !Admits(v.devices)
  {
    NothingRun();
    hide Run, Possible, EmptyWorld, Sessions;
    es := LogsIn([], [-1, -1, -1, -1, -1], {}, 4, 0, [4, -1, -1, -1, -1], {4});
    es := LogsIn(es, [4, -1, -1, -1, -1], {4}, 5, 1, [4, 5, -1, -1, -1], {4, 5});
    es := LogsOut(es, [4, 5, -1, -1, -1], {4, 5}, 4, [-1, 5, -1, -1, -1], {5});
    es := LogsOut(es, [-1, 5, -1, -1, -1], {5}, 5, [-1, 5, -1, -1, -1], {});
    es := LogsIn(es, [-1, 5, -1, -1, -1], {}, 6, 0, [6, 5, -1, -1, -1], {6});
    es := LogsIn(es, [6, 5, -1, -1, -1], {6}, 7, 2, [6, 5, 7, -1, -1], {6, 7});
    es := LogsIn(es, [6, 5, 7, -1, -1], {6, 7}, 8, 3, [6, 5, 7, 8, -1], {6, 7, 8});
    es := LogsIn(es, [6, 5, 7, 8, -1], {6, 7, 8}, 9, 4, [6, 5, 7, 8, 9], {6, 7, 8, 9});
    FourLive();
  }

  lemma NothingRun()
    ensures Possible(EmptyWorld(), []) && Run(EmptyWorld(), []) == Sessions([-1, -1, -1, -1, -1], {})
  {
  }

  lemma FourLive()
    ensures var v := Sessions([6, 5, 7, 8, 9], {6, 7, 8, 9}); |v.live| == 4 && !Admits(v.devices)
  {
  }

  // ---- A full table ----

  /** Once the table is full, no run ever changes which names it holds. */
  lemma {:induction false} FullForever(w: World, es: seq<Event>)
    requires Sound(w) && Full(w.files) && Possible(w, es)
    ensures Full(Run(w, es).files) && Names(Run(w, es).files) == Names(w.files)
    decreases es
  {
    if es != [] {
      var e := es[0];
      var v := Step(w, e);
      StepKeepsSound(w, e);
      StepStaysFull(w, e);
      hide Step, Full, Names, Sound;
      FullForever(v, es[1..]);
    }
  }

  lemma StepStaysFull(w: World, e: Event)
    requires Sound(w) && Full(w.files) && Enabled(w, e)
    ensures Full(Step(w, e).files) && Names(Step(w, e).files) == Names(w.files)
  {
    hide Names, Enqueue, Release, SkippingErase;
    var v := Step(w, e);
    if e.Upload? {
      FullStaysFull(w.files, e.name, e.mtime, e.size);
    } else if e.Delete? {
      FullStaysFull(w.files, e.name, 0, 0);
    } else {
      SameNamesSameSet(w.files, v.files);
    }
  }

  lemma SameNamesSameSet(t: Table, u: Table)
    requires SameNames(t, u)
    ensures Names(t) == Names(u) && (Full(t) ==> Full(u))
  {
    NamesDecide(t, u, "");
    NamesDecide(u, t, "");
    forall n ensures n in Names(t) <==> n in Names(u) {
      NamesAreFound(t, n);
      NamesAreFound(u, n);
      NamesDecide(t, u, n);
    }
  }
}
