/** The client's threads share one connection and one mutex: the user's commands, the periodic sync and the
    file watcher. In any interleaving the connection carries whole dialogues, one after the other. */
module Threads {

  /** One run of a command on the connection: `length` reads and writes. */
  datatype Dialogue = Dialogue(command: string, file: string, length: nat)

  /** What a thread does: `lockSocket`, `unlockSocket`, the `k`-th read or write of a dialogue, a pause, or
      something else that involves neither mutex nor connection. */
  datatype Act = Take | Give | Io(d: Dialogue, k: nat) | Sleep | Local

  function Whole(d: Dialogue): (acts: seq<Act>)
    ensures |acts| == d.length && forall k :: 0 <= k < d.length ==> acts[k] == Io(d, k)
  {
    seq(d.length, k requires 0 <= k < d.length => Io(d, k))
  }

  // ---- The paths of the threads ----

  /** The user's commands (`main`). Listing the client's directory needs no connection. */
  datatype UserCommand =
    | Upload(d: Dialogue)
    | Download(d: Dialogue)
    | ListServer(d: Dialogue)
    | ListClient
    | GetSyncDir(d: Dialogue)
    | Exit(d: Dialogue)

  function UserPath(c: UserCommand): seq<Act> {
    match c
    case ListClient => [Local]
    case _ => [Take] + Whole(c.d) + [Give]
  }

  /** A turn of the periodic sync: sleep, then synchronise. */
  function SyncPath(d: Dialogue): seq<Act> {
    [Sleep, Take] + Whole(d) + [Give]
  }

  /** One try for the lock of an opened file: the dialogue, whether it was granted, and whether the file still
      exists when it was not. */
  datatype Try = Try(d: Dialogue, granted: bool, exists_: bool)

  predicate Final(t: Try) {
    t.granted || !t.exists_
  }

  /** The tries of one opening: it goes on until the lock is granted or the file is gone. */
  type Tries = t: seq<Try> | t != [] && Final(t[|t| - 1]) witness [Try(Dialogue("", "", 0), true, true)]

  /** What the watcher does when a file was opened: it tries until the lock is granted or the file is gone,
      and lets the mutex go between the tries. It holds the mutex on entry. */
  function TryPath(tries: Tries): seq<Act> {
    if tries[0].granted then Whole(tries[0].d) + [Local, Give]
    else if !tries[0].exists_ then Whole(tries[0].d) + [Give, Local]
    else Whole(tries[0].d) + [Give, Local, Local, Sleep, Take] + TryPath(tries[1..])
  }

  datatype FileEvent =
    | Ignored
    | Opened(tries: Tries)
    | WrittenAndClosed(send: Dialogue, unlock: Dialogue)
    | Closed(unlock: Dialogue)
    | Created(send: Dialogue)
    | Deleted(delete: Dialogue)

  function WatcherPath(e: FileEvent): seq<Act> {
    match e
    case Ignored => [Local]
    case Opened(tries) => [Take] + TryPath(tries)
    case WrittenAndClosed(send, unlock) => [Take] + (Whole(send) + Whole(unlock)) + [Give]
    case Closed(unlock) => [Take] + Whole(unlock) + [Give]
    case Created(send) => [Take] + Whole(send) + [Give]
    case Deleted(delete) => [Take] + Whole(delete) + [Give]
  }

  /** The watcher's loop for an opened file, as it runs. */
  method HandleOpened(tries: Tries) returns (acts: seq<Act>)
    ensures acts == WatcherPath(Opened(tries))
  {
    var done, i := false, 0;
    acts := [Take];
    while !done
      invariant 0 <= i <= |tries|
      invariant !done ==> i < |tries| && acts + TryPath(tries[i..]) == [Take] + TryPath(tries)
      invariant done ==> acts == [Take] + TryPath(tries)
      decreases !done, |tries| - i
    {
      var t := tries[i];
      assert tries[i..][0] == t && tries[i..][1..] == tries[i + 1..];
      acts := acts + Whole(t.d);
      if t.granted {
        acts := acts + [Local, Give];
        done := true;
      } else {
        acts := acts + [Give, Local];
        if t.exists_ {
          acts := acts + [Local, Sleep, Take];
          i := i + 1;
        } else {
          done := true;
        }
      }
    }
  }

  // ---- Discipline ----

  /** A thread's standing: whether it holds the mutex, and the dialogue it is in, if any. */
  datatype Standing = Standing(holds: bool, inside: bool, d: Dialogue, k: nat)

  const NO_DIALOGUE := Dialogue("", "", 0)
  const OUTSIDE: Standing := Standing(false, false, NO_DIALOGUE, 0)

  predicate Allowed(s: Standing, a: Act) {
    match a
    case Take => !s.holds && !s.inside
    case Give => s.holds && !s.inside
    case Io(d, k) => s.holds && k < d.length && if s.inside then s.d == d && s.k == k else k == 0
    case Sleep => !s.holds && !s.inside
    case Local => !s.inside
  }

  function After(s: Standing, a: Act): Standing {
    match a
    case Take => s.(holds := true)
    case Give => s.(holds := false)
    case Io(d, k) =>
      if k + 1 < d.length then s.(inside := true, d := d, k := k + 1)
      else s.(inside := false, d := NO_DIALOGUE, k := 0)
    case Sleep => s
    case Local => s
  }

  /** From `s` on, the path takes and gives the mutex in turn, touches the connection only while it holds it, goes
      through every dialogue from its first frame to its last, never sleeps with the mutex in hand, and ends at `t`. */
  ghost predicate Disciplined(s: Standing, path: seq<Act>, t: Standing)
    decreases path
  {
    if path == [] then s == t
    else Allowed(s, path[0]) && Disciplined(After(s, path[0]), path[1..], t)
  }

  lemma {:induction false} DisciplinedAppend(s: Standing, a: seq<Act>, t: Standing, b: seq<Act>, u: Standing)
    requires Disciplined(s, a, t) && Disciplined(t, b, u)
    ensures Disciplined(s, a + b, u)
    decreases a
  {
    if a == [] {
      assert a + b == b;
    } else {
      assert (a + b)[0] == a[0] && (a + b)[1..] == a[1..] + b;
      DisciplinedAppend(After(s, a[0]), a[1..], t, b, u);
    }
  }

  const HOLDING: Standing := Standing(true, false, NO_DIALOGUE, 0)

  lemma {:induction false} WholeFrom(d: Dialogue, k: nat)
    requires k < d.length
    ensures Disciplined(if k == 0 then HOLDING else Standing(true, true, d, k), Whole(d)[k..], HOLDING)
    decreases d.length - k
  {
    var path := Whole(d)[k..];
    assert path[0] == Io(d, k) && path[1..] == Whole(d)[k + 1..];
    if k + 1 < d.length { WholeFrom(d, k + 1); }
  }

  lemma WholeDisciplined(d: Dialogue)
    ensures Disciplined(HOLDING, Whole(d), HOLDING)
  {
    if d.length > 0 {
      WholeFrom(d, 0);
      assert Whole(d)[0..] == Whole(d);
    }
  }

  lemma SectionDisciplined(body: seq<Act>)
    requires Disciplined(HOLDING, body, HOLDING)
    ensures Disciplined(OUTSIDE, [Take] + body + [Give], OUTSIDE)
  {
    assert [Take][1..] == [] && [Give][1..] == [];
    assert Disciplined(OUTSIDE, [Take], HOLDING) && Disciplined(HOLDING, [Give], OUTSIDE);
    DisciplinedAppend(OUTSIDE, [Take], HOLDING, body, HOLDING);
    DisciplinedAppend(OUTSIDE, [Take] + body, HOLDING, [Give], OUTSIDE);
  }

  lemma UserDisciplined(c: UserCommand)
    ensures Disciplined(OUTSIDE, UserPath(c), OUTSIDE)
  {
    if c.ListClient? {
      assert [Local][1..] == [];
    } else {
      WholeDisciplined(c.d);
      SectionDisciplined(Whole(c.d));
    }
  }

  lemma SyncDisciplined(d: Dialogue)
    ensures Disciplined(OUTSIDE, SyncPath(d), OUTSIDE)
  {
    WholeDisciplined(d);
    SectionDisciplined(Whole(d));
    assert SyncPath(d)[1..] == [Take] + Whole(d) + [Give];
  }

  lemma {:induction false} TriesDisciplined(tries: Tries)
    ensures Disciplined(HOLDING, TryPath(tries), OUTSIDE)
    decreases tries
  {
    var t := tries[0];
    WholeDisciplined(t.d);
    EndsDisciplined();
    if t.granted {
      DisciplinedAppend(HOLDING, Whole(t.d), HOLDING, [Local, Give], OUTSIDE);
    } else if !t.exists_ {
      DisciplinedAppend(HOLDING, Whole(t.d), HOLDING, [Give, Local], OUTSIDE);
    } else {
      TriesDisciplined(tries[1..]);
      DisciplinedAppend(HOLDING, Whole(t.d), HOLDING, [Give, Local, Local, Sleep, Take], HOLDING);
      DisciplinedAppend(HOLDING, Whole(t.d) + [Give, Local, Local, Sleep, Take], HOLDING, TryPath(tries[1..]), OUTSIDE);
    }
  }

  lemma EndsDisciplined()
    ensures Disciplined(HOLDING, [Local, Give], OUTSIDE) && Disciplined(HOLDING, [Give, Local], OUTSIDE)
    ensures Disciplined(HOLDING, [Give, Local, Local, Sleep, Take], HOLDING)
  {
    assert [Local, Give][1..] == [Give] && [Give][1..] == [] && [Give, Local][1..] == [Local] && [Local][1..] == [];
    assert [Give, Local, Local, Sleep, Take][1..] == [Local, Local, Sleep, Take];
    assert [Local, Local, Sleep, Take][1..] == [Local, Sleep, Take] && [Local, Sleep, Take][1..] == [Sleep, Take];
    assert [Sleep, Take][1..] == [Take] && [Take][1..] == [];
    assert Disciplined(OUTSIDE, [Take], HOLDING);
    assert Disciplined(OUTSIDE, [Sleep, Take], HOLDING);
    assert Disciplined(OUTSIDE, [Local, Sleep, Take], HOLDING);
    assert Disciplined(OUTSIDE, [Local, Local, Sleep, Take], HOLDING);
  }

  lemma WatcherDisciplined(e: FileEvent)
    ensures Disciplined(OUTSIDE, WatcherPath(e), OUTSIDE)
  {
    match e
    case Ignored => assert [Local][1..] == [];
    case Opened(tries) =>
      TriesDisciplined(tries);
      assert WatcherPath(e)[1..] == TryPath(tries);
    case WrittenAndClosed(send, unlock) =>
      WholeDisciplined(send);
      WholeDisciplined(unlock);
      DisciplinedAppend(HOLDING, Whole(send), HOLDING, Whole(unlock), HOLDING);
      SectionDisciplined(Whole(send) + Whole(unlock));
    case Closed(d) =>
      WholeDisciplined(d);
      SectionDisciplined(Whole(d));
    case Created(d) =>
      WholeDisciplined(d);
      SectionDisciplined(Whole(d));
    case Deleted(d) =>
      WholeDisciplined(d);
      SectionDisciplined(Whole(d));
  }

  /** What a thread does in one turn of its loop: a user's command, a sync, a file event. */
  datatype Turn = User(c: UserCommand) | Sync(d: Dialogue) | Watcher(e: FileEvent)

  function TurnPath(t: Turn): seq<Act> {
    match t
    case User(c) => UserPath(c)
    case Sync(d) => SyncPath(d)
    case Watcher(e) => WatcherPath(e)
  }

  function ThreadPath(turns: seq<Turn>): seq<Act> {
    if turns == [] then [] else TurnPath(turns[0]) + ThreadPath(turns[1..])
  }

  lemma {:induction false} ThreadDisciplined(turns: seq<Turn>)
    ensures Disciplined(OUTSIDE, ThreadPath(turns), OUTSIDE)
  {
    if turns != [] {
      var t := turns[0];
      ThreadDisciplined(turns[1..]);
      match t {
        case User(c) => UserDisciplined(c);
        case Sync(d) => SyncDisciplined(d);
        case Watcher(e) => WatcherDisciplined(e);
      }
      DisciplinedAppend(OUTSIDE, TurnPath(t), OUTSIDE, ThreadPath(turns[1..]), OUTSIDE);
    }
  }

  // ---- What the turns carry ----

  function AllOf(ds: seq<Dialogue>): seq<Act> {
    if ds == [] then [] else AllOf(ds[..|ds| - 1]) + Whole(ds[|ds| - 1])
  }

  /** The reads and writes among the acts. */
  function Ios(path: seq<Act>): seq<Act> {
    if path == [] then [] else (if path[0].Io? then [path[0]] else []) + Ios(path[1..])
  }

  /** One dialogue for each try, the last for the one that was granted or found the file gone. */
  function TriesDialogues(tries: Tries): seq<Dialogue> {
    [tries[0].d] + if Final(tries[0]) then [] else TriesDialogues(tries[1..])
  }

  /** The dialogues of a turn, in order. A file that was written and closed is sent before it is unlocked. */
  function DialoguesOf(t: Turn): seq<Dialogue> {
    match t
    case User(ListClient) => []
    case User(c) => [c.d]
    case Sync(d) => [d]
    case Watcher(Ignored) => []
    case Watcher(Opened(tries)) => TriesDialogues(tries)
    case Watcher(WrittenAndClosed(send, unlock)) => [send, unlock]
    case Watcher(Closed(unlock)) => [unlock]
    case Watcher(Created(send)) => [send]
    case Watcher(Deleted(delete)) => [delete]
  }

  function ThreadDialogues(turns: seq<Turn>): seq<Dialogue> {
    if turns == [] then [] else DialoguesOf(turns[0]) + ThreadDialogues(turns[1..])
  }

  lemma {:induction false} IosAppend(a: seq<Act>, b: seq<Act>)
    ensures Ios(a + b) == Ios(a) + Ios(b)
  {
    if a == [] {
      assert a + b == b;
    } else {
      assert (a + b)[0] == a[0] && (a + b)[1..] == a[1..] + b;
      IosAppend(a[1..], b);
    }
  }

  lemma {:induction false} IosOnly(path: seq<Act>)
    ensures (forall i :: 0 <= i < |path| ==> path[i].Io?) ==> Ios(path) == path
    ensures (forall i :: 0 <= i < |path| ==> !path[i].Io?) ==> Ios(path) == []
  {
    if path != [] {
      IosOnly(path[1..]);
      assert forall i :: 0 <= i < |path| - 1 ==> path[1..][i] == path[i + 1];
    }
  }

  lemma {:induction false} AllOfAppend(a: seq<Dialogue>, b: seq<Dialogue>)
    ensures AllOf(a + b) == AllOf(a) + AllOf(b)
  {
    if b == [] {
      assert a + b == a;
    } else {
      assert (a + b)[..|a + b| - 1] == a + b[..|b| - 1];
      AllOfAppend(a, b[..|b| - 1]);
    }
  }

  lemma AllOfOne(d: Dialogue)
    ensures AllOf([d]) == Whole(d)
  {
    assert [d][..0] == [];
  }

  /** A piece of a path that is one dialogue and then acts that are none. */
  lemma OneCarried(before: seq<Act>, d: Dialogue, after: seq<Act>)
    requires forall i :: 0 <= i < |before| ==> !before[i].Io?
    ensures Ios(before + Whole(d) + after) == AllOf([d]) + Ios(after)
    ensures (forall i :: 0 <= i < |after| ==> !after[i].Io?) ==> Ios(after) == []
  {
    IosAppend(before + Whole(d), after);
    IosAppend(before, Whole(d));
    IosOnly(before);
    IosOnly(Whole(d));
    IosOnly(after);
    AllOfOne(d);
  }

  lemma {:induction false} TriesCarry(tries: Tries)
    ensures Ios(TryPath(tries)) == AllOf(TriesDialogues(tries))
    decreases tries
  {
    var d := tries[0].d;
    if Final(tries[0]) {
      LastTry(tries);
    } else {
      TriesCarry(tries[1..]);
      TryAgain(d, TryPath(tries[1..]), TriesDialogues(tries[1..]));
      hide Ios, AllOf, Whole;
      assert TryPath(tries) == Whole(d) + ([Give, Local, Local, Sleep, Take] + TryPath(tries[1..]));
    }
  }

  lemma {:induction false} LastTry(tries: Tries)
    requires Final(tries[0])
    ensures Ios(TryPath(tries)) == AllOf(TriesDialogues(tries))
  {
    var d, end := tries[0].d, if tries[0].granted then [Local, Give] else [Give, Local];
    OneCarried([], d, end);
    hide Ios, AllOf, Whole;
    assert TryPath(tries) == [] + Whole(d) + end;
    assert TriesDialogues(tries) == [d];
  }

  lemma TryAgain(d: Dialogue, rest: seq<Act>, ds: seq<Dialogue>)
    requires Ios(rest) == AllOf(ds)
    ensures Ios(Whole(d) + ([Give, Local, Local, Sleep, Take] + rest)) == AllOf([d] + ds)
  {
    hide Ios, AllOf, Whole;
    var pause := [Give, Local, Local, Sleep, Take];
    OneCarried([], d, pause + rest);
    assert [] + Whole(d) + (pause + rest) == Whole(d) + (pause + rest);
    IosAppend(pause, rest);
    IosOnly(pause);
    AllOfAppend([d], ds);
  }

  lemma SentThenUnlocked(send: Dialogue, unlock: Dialogue)
    ensures Ios([Take] + (Whole(send) + Whole(unlock)) + [Give]) == AllOf([send, unlock])
  {
    hide Ios, AllOf, Whole;
    OneCarried([Take], send, Whole(unlock) + [Give]);
    OneCarried([], unlock, [Give]);
    AllOfAppend([send], [unlock]);
    assert [Take] + (Whole(send) + Whole(unlock)) + [Give] == [Take] + Whole(send) + (Whole(unlock) + [Give]);
    assert [] + Whole(unlock) + [Give] == Whole(unlock) + [Give] && [send] + [unlock] == [send, unlock];
  }

  /** What a turn puts on the connection is its dialogues, whole and in order, and nothing else. */
  lemma TurnCarries(t: Turn)
    ensures Ios(TurnPath(t)) == AllOf(DialoguesOf(t))
  {
    assert AllOf([]) == [];
    hide Ios, AllOf, Whole, TryPath;
    match t
    case User(c) => if c.ListClient? { IosOnly([Local]); } else { SectionCarries(c.d); }
    case Sync(d) => SyncCarries(d);
    case Watcher(Ignored) => IosOnly([Local]);
    case Watcher(Opened(tries)) => OpenedCarries(tries);
    case Watcher(WrittenAndClosed(send, unlock)) => SentThenUnlocked(send, unlock);
    case Watcher(Closed(d)) => SectionCarries(d);
    case Watcher(Created(d)) => SectionCarries(d);
    case Watcher(Deleted(d)) => SectionCarries(d);
  }

  lemma {:induction false} OpenedCarries(tries: Tries)
    ensures Ios([Take] + TryPath(tries)) == AllOf(TriesDialogues(tries))
  {
    TriesCarry(tries);
    IosAppend([Take], TryPath(tries));
    IosOnly([Take]);
  }

  lemma SyncCarries(d: Dialogue)
    ensures Ios([Sleep, Take] + Whole(d) + [Give]) == AllOf([d])
  {
    OneCarried([Sleep, Take], d, [Give]);
  }

  lemma SectionCarries(d: Dialogue)
    ensures Ios([Take] + Whole(d) + [Give]) == AllOf([d])
  {
    OneCarried([Take], d, [Give]);
  }

  lemma {:induction false} ThreadCarries(turns: seq<Turn>)
    ensures Ios(ThreadPath(turns)) == AllOf(ThreadDialogues(turns))
  {
    if turns != [] {
      TurnCarries(turns[0]);
      ThreadCarries(turns[1..]);
      IosAppend(TurnPath(turns[0]), ThreadPath(turns[1..]));
      AllOfAppend(DialoguesOf(turns[0]), ThreadDialogues(turns[1..]));
    }
  }

  function Times(a: Act, path: seq<Act>): nat {
    if path == [] then 0 else (if path[0] == a then 1 else 0) + Times(a, path[1..])
  }

  lemma {:induction false} BalanceFrom(s: Standing, path: seq<Act>, t: Standing)
    requires Disciplined(s, path, t)
    ensures Times(Take, path) + (if s.holds then 1 else 0) == Times(Give, path) + if t.holds then 1 else 0
    decreases path
  {
    if path != [] { BalanceFrom(After(s, path[0]), path[1..], t); }
  }

  lemma {:induction false} TimesAppend(a: Act, p: seq<Act>, q: seq<Act>)
    ensures Times(a, p + q) == Times(a, p) + Times(a, q)
  {
    if p == [] {
      assert p + q == q;
    } else {
      assert (p + q)[0] == p[0] && (p + q)[1..] == p[1..] + q;
      TimesAppend(a, p[1..], q);
    }
  }

  lemma {:induction false} NotInIos(path: seq<Act>)
    requires forall i :: 0 <= i < |path| ==> path[i].Io?
    ensures Times(Take, path) == 0
  {
    if path != [] { NotInIos(path[1..]); }
  }

  /** The watcher takes the mutex once for every try: between two tries others can have it. */
  lemma {:induction false} OnceForEachTry(tries: Tries)
    ensures Times(Take, [Take] + TryPath(tries)) == |TriesDialogues(tries)|
    decreases tries
  {
    var d := tries[0].d;
    NotInIos(Whole(d));
    TakesAtEnds();
    TimesAppend(Take, [Take], TryPath(tries));
    if tries[0].granted {
      TimesAppend(Take, Whole(d), [Local, Give]);
    } else if !tries[0].exists_ {
      TimesAppend(Take, Whole(d), [Give, Local]);
    } else {
      var pause, rest := [Give, Local, Local, Sleep], [Take] + TryPath(tries[1..]);
      OnceForEachTry(tries[1..]);
      TimesAppend(Take, pause, rest);
      TimesAppend(Take, Whole(d), pause + rest);
      assert TryPath(tries) == Whole(d) + (pause + rest);
    }
  }

  lemma TakesAtEnds()
    ensures Times(Take, [Take]) == 1 && Times(Take, [Local, Give]) == Times(Take, [Give, Local]) == 0
    ensures Times(Take, [Give, Local, Local, Sleep]) == 0
  {
    assert [Take][1..] == [] && [Local, Give][1..] == [Give] && [Give, Local][1..] == [Local];
    assert [Give][1..] == [] && [Local][1..] == [] && [Give, Local, Local, Sleep][1..] == [Local, Local, Sleep];
    assert [Local, Local, Sleep][1..] == [Local, Sleep] && [Local, Sleep][1..] == [Sleep] && [Sleep][1..] == [];
    assert Times(Take, [Sleep]) == 0 && Times(Take, [Local, Sleep]) == 0 && Times(Take, [Local, Local, Sleep]) == 0;
  }

  /** Every thread gives the mutex back exactly as often as it takes it. */
  lemma TakenAsOftenAsGiven(turns: seq<Turn>)
    ensures Times(Take, ThreadPath(turns)) == Times(Give, ThreadPath(turns))
  {
    ThreadDisciplined(turns);
    BalanceFrom(OUTSIDE, ThreadPath(turns), OUTSIDE);
  }

  // ---- All threads ----

  /** What each thread has left to do and how it stands; who holds the mutex, or -1; what has been read and
      written on the connection so far. */
  datatype Client = Client(left: seq<seq<Act>>, standing: seq<Standing>, owner: int, trace: seq<Act>)

  predicate Enabled(c: Client, i: nat)
    requires |c.standing| == |c.left|
  {
    i < |c.left| && c.left[i] != [] && (c.left[i][0] == Take ==> c.owner == -1)
  }

  function Step(c: Client, i: nat): (n: Client)
    requires |c.standing| == |c.left| && Enabled(c, i)
    ensures |n.standing| == |n.left| == |c.left|
  {
    var a := c.left[i][0];
    Client(c.left[i := c.left[i][1..]], c.standing[i := After(c.standing[i], a)],
      if a == Take then i else if a == Give then -1 else c.owner,
      if a.Io? then c.trace + [a] else c.trace)
  }

  ghost predicate Runs(c: Client, schedule: seq<nat>, end: Client)
    requires |c.standing| == |c.left|
    decreases schedule
  {
    if schedule == [] then c == end
    else Enabled(c, schedule[0]) && Runs(Step(c, schedule[0]), schedule[1..], end)
  }

  function Begin(threads: seq<seq<Act>>): Client {
    Client(threads, seq(|threads|, _ => OUTSIDE), -1, [])
  }

  /** The part of the current dialogue that is done, if somebody is in one. */
  function Current(c: Client): seq<Act>
    requires |c.standing| == |c.left|
  {
    if 0 <= c.owner < |c.left| && c.standing[c.owner].inside && c.standing[c.owner].k <= c.standing[c.owner].d.length
    then Whole(c.standing[c.owner].d)[..c.standing[c.owner].k] else []
  }

  ghost predicate StandsWell(c: Client, i: nat)
    requires i < |c.left| == |c.standing|
  {
    var s := c.standing[i];
    && Disciplined(s, c.left[i], OUTSIDE)
    && (s.holds <==> c.owner == i) && (s.inside ==> s.holds)
    && (if s.inside then 0 < s.k < s.d.length else s.d == NO_DIALOGUE && s.k == 0)
  }

  /** `ds` are the dialogues so far: the trace is those, whole, and then the part of the one going on. */
  ghost predicate InOrder(c: Client, ds: seq<Dialogue>) {
    && |c.standing| == |c.left| && -1 <= c.owner < |c.left|
    && (forall i :: 0 <= i < |c.left| ==> StandsWell(c, i))
    && c.trace == AllOf(ds) + Current(c)
  }

  lemma StepKeepsStanding(c: Client, i: nat)
    requires |c.standing| == |c.left| && -1 <= c.owner < |c.left| && Enabled(c, i)
    requires forall j :: 0 <= j < |c.left| ==> StandsWell(c, j)
    ensures forall j :: 0 <= j < |c.left| ==> StandsWell(Step(c, i), j)
  {
    assert StandsWell(c, i);
    var n := Step(c, i);
    forall j | 0 <= j < |n.left| ensures StandsWell(n, j) { assert StandsWell(c, j); }
  }

  /** The act ends a dialogue. */
  predicate Ends(a: Act) {
    a.Io? && a.k + 1 == a.d.length
  }

  lemma StepKeepsInOrder(c: Client, i: nat, ds: seq<Dialogue>) returns (more: seq<Dialogue>)
    requires InOrder(c, ds) && Enabled(c, i)
    ensures InOrder(Step(c, i), more)
    ensures more == ds + if Ends(c.left[i][0]) then [c.left[i][0].d] else []
  {
    assert StandsWell(c, i);
    StepKeepsStanding(c, i);
    var a, s := c.left[i][0], c.standing[i];
    assert Allowed(s, a);
    hide Disciplined;
    more := ds;
    if a.Io? {
      if !s.inside { assert Current(c) == []; }
      assert Whole(a.d)[..a.k] + [a] == Whole(a.d)[..a.k + 1];
      if a.k + 1 == a.d.length {
        more := ds + [a.d];
        assert more[..|ds|] == ds && Whole(a.d)[..a.k + 1] == Whole(a.d);
      }
    }
  }

  /** The dialogues of thread `i`, `who` telling whose each one was. */
  function Of(i: nat, ds: seq<Dialogue>, who: seq<nat>): seq<Dialogue>
    requires |who| == |ds|
  {
    if ds == [] then []
    else Of(i, ds[..|ds| - 1], who[..|who| - 1]) + if who[|who| - 1] == i then [ds[|ds| - 1]] else []
  }

  /** What thread `i` has of the dialogue going on. */
  function Begun(c: Client, i: nat): seq<Act>
    requires |c.standing| == |c.left|
  {
    if c.owner == i then Current(c) else []
  }

  /** Of thread `i`, everything that its path has for the connection is done or still to come. */
  ghost predicate Accounted(c: Client, i: nat, ds: seq<Dialogue>, who: seq<nat>, path: seq<Act>)
    requires i < |c.left| == |c.standing| && |who| == |ds|
  {
    Ios(path) == AllOf(Of(i, ds, who)) + Begun(c, i) + Ios(c.left[i])
  }

  ghost predicate AllAccounted(c: Client, ds: seq<Dialogue>, who: seq<nat>, paths: seq<seq<Act>>) {
    && InOrder(c, ds) && |who| == |ds| && |paths| == |c.left|
    && forall i :: 0 <= i < |c.left| ==> Accounted(c, i, ds, who, paths[i])
  }

  /** A dialogue that has ended is on the account of its thread and on no other's. */
  lemma OneMore(i: nat, j: nat, ds: seq<Dialogue>, who: seq<nat>, d: Dialogue)
    requires |who| == |ds|
    ensures Of(j, ds + [d], who + [i]) == Of(j, ds, who) + if i == j then [d] else []
    ensures AllOf(Of(i, ds + [d], who + [i])) == AllOf(Of(i, ds, who)) + Whole(d)
  {
    assert (ds + [d])[..|ds|] == ds && (who + [i])[..|who|] == who;
    AllOfAppend(Of(i, ds, who), [d]);
    AllOfOne(d);
  }

  /** The thread that moves: what it does comes off its path and onto its account. */
  lemma MoverBegun(c: Client, i: nat, ds: seq<Dialogue>)
    requires InOrder(c, ds) && Enabled(c, i)
    ensures var a := c.left[i][0];
      && (!a.Io? ==> Begun(c, i) == Begun(Step(c, i), i) == [])
      && (a.Io? ==> a.k < a.d.length && Begun(c, i) == Whole(a.d)[..a.k])
      && (a.Io? ==> Begun(Step(c, i), i) == if Ends(a) then [] else Whole(a.d)[..a.k + 1])
  {
    assert StandsWell(c, i);
    assert Allowed(c.standing[i], c.left[i][0]);
    hide Disciplined, InOrder, AllOf;
  }

  lemma MoverAccounted(c: Client, i: nat, ds: seq<Dialogue>, who: seq<nat>, path: seq<Act>)
    requires InOrder(c, ds) && Enabled(c, i) && |who| == |ds| && Accounted(c, i, ds, who, path)
    ensures var a := c.left[i][0];
      Accounted(Step(c, i), i, if Ends(a) then ds + [a.d] else ds, if Ends(a) then who + [i] else who, path)
  {
    MoverBegun(c, i, ds);
    var a, rest, done := c.left[i][0], Ios(c.left[i][1..]), AllOf(Of(i, ds, who));
    assert Ios(c.left[i]) == (if a.Io? then [a] else []) + rest && Ios(Step(c, i).left[i]) == rest;
    if Ends(a) { OneMore(i, i, ds, who, a.d); }
    hide Step, Ios, AllOf, Of, Current, InOrder, Enabled, Begun, Whole;
    Onwards(done, Begun(c, i), a, rest);
  }

  /** What moving on does to the account `done`, what is begun, and what is left. */
  lemma Onwards(done: seq<Act>, begun: seq<Act>, a: Act, rest: seq<Act>)
    requires a.Io? ==> a.k < a.d.length && begun == Whole(a.d)[..a.k]
    ensures !a.Io? ==> done + begun + ([] + rest) == done + begun + rest
    ensures a.Io? && !Ends(a) ==> done + begun + ([a] + rest) == done + Whole(a.d)[..a.k + 1] + rest
    ensures Ends(a) ==> done + begun + ([a] + rest) == done + Whole(a.d) + [] + rest
  {
    if !a.Io? {
      assert [] + rest == rest;
    } else if Ends(a) {
      LastOn(done, a.d, a.k, rest);
    } else {
      OneOn(done, a.d, a.k, rest);
    }
  }

  lemma OneOn(done: seq<Act>, d: Dialogue, k: nat, rest: seq<Act>)
    requires k < d.length
    ensures done + Whole(d)[..k] + ([Io(d, k)] + rest) == done + Whole(d)[..k + 1] + rest
  {
    assert Whole(d)[..k] + [Io(d, k)] == Whole(d)[..k + 1];
  }

  lemma LastOn(done: seq<Act>, d: Dialogue, k: nat, rest: seq<Act>)
    requires k + 1 == d.length
    ensures done + Whole(d)[..k] + ([Io(d, k)] + rest) == done + Whole(d) + [] + rest
  {
    OneOn(done, d, k, rest);
    assert Whole(d)[..k + 1] == Whole(d);
  }

  lemma OtherAccounted(c: Client, i: nat, j: nat, ds: seq<Dialogue>, who: seq<nat>, path: seq<Act>)
    requires InOrder(c, ds) && Enabled(c, i) && |who| == |ds| && j != i && j < |c.left| && Accounted(c, j, ds, who, path)
    ensures var a := c.left[i][0];
      Accounted(Step(c, i), j, if Ends(a) then ds + [a.d] else ds, if Ends(a) then who + [i] else who, path)
  {
    OtherUntouched(c, i, j, ds);
    var a := c.left[i][0];
    if Ends(a) { OneMore(i, j, ds, who, a.d); }
    hide Step, Begun, AllOf, Of, Ios, Enabled, InOrder, Whole;
    assert Of(j, ds, who) + [] == Of(j, ds, who);
  }

  lemma OtherUntouched(c: Client, i: nat, j: nat, ds: seq<Dialogue>)
    requires InOrder(c, ds) && Enabled(c, i) && j != i && j < |c.left|
    ensures var n := Step(c, i); n.left[j] == c.left[j] && Begun(n, j) == Begun(c, j)
  {
    assert StandsWell(c, i) && StandsWell(c, j);
    assert Allowed(c.standing[i], c.left[i][0]);
    hide Disciplined, InOrder, AllOf, Whole;
  }

  lemma {:induction false} RunKeepsInOrder(c: Client, schedule: seq<nat>, end: Client, ds: seq<Dialogue>, who: seq<nat>,
        paths: seq<seq<Act>>)
      returns (more: seq<Dialogue>, whose: seq<nat>)
    requires AllAccounted(c, ds, who, paths) && Runs(c, schedule, end)
    ensures AllAccounted(end, more, whose, paths)
    decreases schedule
  {
    if schedule == [] {
      more, whose := ds, who;
    } else {
      var i, n := schedule[0], Step(c, schedule[0]);
      more := StepKeepsInOrder(c, i, ds);
      whose := if Ends(c.left[i][0]) then who + [i] else who;
      assert !Ends(c.left[i][0]) ==> more == ds;
      hide InOrder, Accounted, Step;
      forall j | 0 <= j < |n.left| ensures Accounted(n, j, more, whose, paths[j]) {
        if j == i { MoverAccounted(c, i, ds, who, paths[i]); } else { OtherAccounted(c, i, j, ds, who, paths[j]); }
      }
      more, whose := RunKeepsInOrder(n, schedule[1..], end, more, whose, paths);
    }
  }

  /** The paths of any number of threads, each going through any turns. */
  function Paths(threads: seq<seq<Turn>>): (paths: seq<seq<Act>>)
    ensures |paths| == |threads| && forall i :: 0 <= i < |threads| ==> paths[i] == ThreadPath(threads[i])
  {
    seq(|threads|, i requires 0 <= i < |threads| => ThreadPath(threads[i]))
  }

  /** Atomicity and order: for any threads, any turns of theirs and any interleaving, what the connection carries is a series
      of whole dialogues and then the beginning of at most one more, whose thread holds the mutex. Those of each
      thread are the first of its own, in its order, and when all threads are done they are all of them. Unless all threads are
      done, one of them can move. */
  lemma DialoguesAreWhole(threads: seq<seq<Turn>>, schedule: seq<nat>, end: Client) returns (ds: seq<Dialogue>, who: seq<nat>)
    requires Runs(Begin(Paths(threads)), schedule, end)
    ensures |end.standing| == |end.left| == |threads| && |who| == |ds|
    ensures end.trace == AllOf(ds) + Current(end)
    ensures forall i :: 0 <= i < |threads| ==> AllOf(Of(i, ds, who)) <= AllOf(ThreadDialogues(threads[i]))
    ensures (forall i :: 0 <= i < |end.left| ==> end.left[i] == []) ==>
      end.trace == AllOf(ds) && forall i :: 0 <= i < |threads| ==> AllOf(Of(i, ds, who)) == AllOf(ThreadDialogues(threads[i]))
    ensures (forall i :: 0 <= i < |end.left| ==> end.left[i] == []) || exists i: nat :: Enabled(end, i)
  {
    var c := Begin(Paths(threads));
    forall i | 0 <= i < |c.left| ensures StandsWell(c, i) && Accounted(c, i, [], [], Paths(threads)[i]) {
      ThreadDisciplined(threads[i]);
    }
    ds, who := RunKeepsInOrder(c, schedule, end, [], [], Paths(threads));
    forall i | 0 <= i < |threads|
      ensures AllOf(Of(i, ds, who)) <= AllOf(ThreadDialogues(threads[i]))
      ensures end.left[i] == [] ==> AllOf(Of(i, ds, who)) == AllOf(ThreadDialogues(threads[i]))
    {
      ThreadCarries(threads[i]);
      assert Accounted(end, i, ds, who, Paths(threads)[i]) && StandsWell(end, i);
    }
    if end.owner >= 0 {
      assert StandsWell(end, end.owner);
      assert Enabled(end, end.owner);
    } else if i :| 0 <= i < |end.left| && end.left[i] != [] {
      assert Enabled(end, i);
    }
  }
}
