/** One synchronisation as a change of the two stores, and what it makes of them: newest wins. */
module Sync {
  import opened Frames
  import opened FileTable
  import opened Devices
  import opened Transfer
  import opened Codes
  import opened S = ServerPrograms
  import opened C = ClientPrograms

  // ---- The stores ----

  /** A name as directories hold them, short enough to be sent. */
  predicate PlainName(name: string) {
    name != "" && '/' !in name && |name| <= FRAME_SIZE - 1
  }

  /** Well formed, and every name in it can be sent. */
  ghost predicate PlainTable(t: Table) {
    WellFormed(t) && forall f :: f in t && f.name != "" ==> PlainName(f.name)
  }

  /** Table and disk agree: the table is well formed and every name in it is a file on the disk. */
  ghost predicate Consistent(st: Store) {
    && WellFormed(st.files)
    && forall f :: f in st.files && f.name != "" ==> PlainName(f.name) && f.name in st.disk
  }

  /** Lengths are `int`s, on both sides. */
  ghost predicate Fit(me: Local, st: Store) {
    && (forall n :: n in me.dir ==> |me.dir[n].content| <= INT_MAX)
    && (forall n :: n in st.disk ==> |st.disk[n]| <= INT_MAX)
  }

  // ---- One sync ----

  function Choose(me: Local, f: FileInfo): int {
    Choice(me.dir, f.name, f.lastModified)
  }

  function ClientAfterRound(me: Local, st: Store, i: nat, clock: string -> int): Local
    requires i < MAXFILES && (Choose(me, st.files[i]) == CP_CLIENT_GET_FILE ==> st.files[i].name in st.disk)
  {
    var name := st.files[i].name;
    var it := Answered(me.(offered := me.offered + [name]), Choose(me, st.files[i]));
    if Choose(me, st.files[i]) == CP_CLIENT_GET_FILE then Downloaded(it, name, Some(Delivered(st.disk[name])), clock(name))
    else it
  }

  function Received(st: Store, name: string, file: LocalFile): Store {
    Uploaded(st, Base(name), Delivered(file.content), file.mtime, Wrap(|file.content|))
  }

  function ServerAfterRound(me: Local, st: Store, i: nat): Store
    requires i < MAXFILES
  {
    var name := st.files[i].name;
    if Choose(me, st.files[i]) == CP_CLIENT_SEND_FILE then Received(st, name, me.dir[name]) else st
  }

  /** The stores after the rounds from `i` on. A round whose file is missing on disk never ends;
      `Consistent` excludes it. */
  function AfterRounds(me: Local, st: Store, i: nat, count: nat, clock: string -> int): (Local, Store)
    requires count <= MAXFILES
    decreases count - i
  {
    if i >= count || (Choose(me, st.files[i]) == CP_CLIENT_GET_FILE && st.files[i].name !in st.disk) then (me, st)
    else AfterRounds(ClientAfterRound(me, st, i, clock), ServerAfterRound(me, st, i), i + 1, count, clock)
  }

  /** The file a listed name is uploaded from, if it is uploaded at all. */
  predicate IsNew(me: Local, name: string) {
    Visible(name) && name !in me.offered && name in me.dir && !LongName(name)
  }

  function AfterNew(me: Local, st: Store, listing: seq<string>): Store
    decreases listing
  {
    if listing == [] then st
    else AfterNew(me, if IsNew(me, listing[0]) then Received(st, listing[0], me.dir[listing[0]]) else st, listing[1..])
  }

  /** How many upload commands the second loop sends. */
  function NewCount(me: Local, listing: seq<string>): nat {
    if listing == [] then 0 else (if IsNew(me, listing[0]) then 1 else 0) + NewCount(me, listing[1..])
  }

  function Start(me: Local): Local {
    me.(offered := [], answers := [])
  }

  function AfterFirstLoop(me: Local, st: Store, clock: string -> int): (Local, Store) {
    AfterRounds(Start(me), st, 0, Count(st.files), clock)
  }

  function SyncedClient(me: Local, st: Store, clock: string -> int): Local {
    AfterFirstLoop(me, st, clock).0
  }

  function SyncedServer(me: Local, st: Store, listing: seq<string>, clock: string -> int): Store {
    AfterNew(SyncedClient(me, st, clock), AfterFirstLoop(me, st, clock).1, listing)
  }

  // ---- The first loop ----

  /** The stores `me`, `st` after `i` rounds that began with `me0`, `st0`: what each finished round
      did, and that the rest is untouched. */
  ghost predicate Progress(me0: Local, st0: Store, i: nat, clock: string -> int, me: Local, st: Store) {
    && i <= MAXFILES
    && (forall j :: 0 <= j < i ==> RoundDone(me0, st0, j, clock, me, st))
    && (forall j :: i <= j < MAXFILES ==> st.files[j] == st0.files[j])
    && (forall n :: (forall j :: 0 <= j < i ==> st0.files[j].name != n) ==> SameHere(me0, me, n) && SameThere(st0, st, n))
    && me.offered == seq(i, j requires 0 <= j < i => st0.files[j].name)
    && me.answers == seq(i, j requires 0 <= j < i => Choose(me0, st0.files[j]))
    && me.cwd == me0.cwd && me.locks == me0.locks && st.devices == st0.devices
  }

  ghost predicate SameHere(me0: Local, me: Local, n: string) {
    FileIn(me.dir, n) == FileIn(me0.dir, n)
  }

  ghost predicate SameThere(st0: Store, st: Store, n: string) {
    (n in st.disk <==> n in st0.disk) && (n in st.disk ==> st.disk[n] == st0.disk[n])
  }

  /** Newest wins: what round `j` leaves on both sides, in terms of what it found. */
  ghost predicate RoundDone(me0: Local, st0: Store, j: nat, clock: string -> int, me: Local, st: Store)
    requires j < MAXFILES
  {
    var f, n := st0.files[j], st0.files[j].name;
    if Choose(me0, f) == CP_CLIENT_GET_FILE then
      n in st0.disk && FileIn(me.dir, n) == Some(LocalFile(st0.disk[n], clock(n))) && SameThere(st0, st, n) && st.files[j] == f
    else if Choose(me0, f) == CP_CLIENT_SEND_FILE then
      n in me0.dir && SameHere(me0, me, n) && n in st.disk && st.disk[n] == me0.dir[n].content
      && st.files[j] == f.(lastModified := me0.dir[n].mtime, size := |me0.dir[n].content|)
    else
      n in me0.dir && SameHere(me0, me, n) && SameThere(st0, st, n) && st.files[j] == f
  }

  ghost predicate Ready(me: Local, st: Store) {
    Consistent(st) && Fit(me, st)
  }

  lemma NamedBelowCount(st: Store, i: nat)
    requires Consistent(st) && i < Count(st.files)
    ensures PlainName(st.files[i].name) && st.files[i].name in st.disk
  {
    PrefixNamed(st.files, i);
    assert st.files[i] in st.files;
  }

  /** An upload of a file the table has goes to its own slot and stays there. */
  lemma UploadInPlace(st: Store, i: nat, file: LocalFile)
    requires PlainTable(st.files) && i < MAXFILES && st.files[i].name != ""
    ensures var f, content := st.files[i], file.content;
      Received(st, f.name, file) == st.(disk := st.disk[f.name := Delivered(content)],
        files := st.files[i := f.(lastModified := file.mtime, size := Wrap(|content|))])
  {
    assert st.files[i] in st.files;
    FoundAt(st.files, i);
  }

  lemma ReceivedInPlace(st: Store, i: nat, file: LocalFile)
    requires Consistent(st) && i < MAXFILES && st.files[i].name != "" && |file.content| <= INT_MAX
    ensures var v := Received(st, st.files[i].name, file);
      v == st.(disk := st.disk[st.files[i].name := file.content],
               files := st.files[i := st.files[i].(lastModified := file.mtime, size := |file.content|)])
  {
    UploadInPlace(st, i, file);
    DeliveredIff(file.content);
  }

  lemma ReceivedKeepsPlain(st: Store, name: string, file: LocalFile)
    requires PlainTable(st.files) && !LongName(name)
    ensures PlainTable(Received(st, name, file).files)
  {
    var v := Received(st, name, file);
    AssignKeepsShape(st.files, Base(name), file.mtime, Wrap(|file.content|));
    forall f | f in v.files && f.name != "" ensures PlainName(f.name) {
      var j :| 0 <= j < MAXFILES && v.files[j] == f;
      assert st.files[j] in st.files;
    }
  }

  /** Whatever the client asks for, of the entries from `i` on, is on the server's disk. */
  predicate Stocked(me: Local, st: Store, i: nat, count: nat)
    requires count <= MAXFILES
  {
    forall j :: i <= j < count && Choose(me, st.files[j]) == CP_CLIENT_GET_FILE ==> st.files[j].name in st.disk
  }

  /** A round neither supplies nor loses what the later ones need. */
  lemma RoundKeepsStock(me: Local, st: Store, i: nat, count: nat, clock: string -> int)
    requires PlainTable(st.files) && i < count == Count(st.files)
    requires Choose(me, st.files[i]) == CP_CLIENT_GET_FILE ==> st.files[i].name in st.disk
    ensures var it, v := ClientAfterRound(me, st, i, clock), ServerAfterRound(me, st, i);
      PlainTable(v.files) && Count(v.files) == count && (Stocked(it, v, i + 1, count) <==> Stocked(me, st, i + 1, count))
  {
    PrefixNamed(st.files, i);
    var name, it, v := st.files[i].name, ClientAfterRound(me, st, i, clock), ServerAfterRound(me, st, i);
    if Choose(me, st.files[i]) == CP_CLIENT_SEND_FILE {
      assert st.files[i] in st.files;
      UploadInPlace(st, i, me.dir[name]);
      ReceivedKeepsPlain(st, name, me.dir[name]);
      SameNamesSameCount(st.files, v.files, MAXFILES);
    }
    forall j | i < j < count ensures v.files[j] == st.files[j] && st.files[j].name != name
      && Choose(it, v.files[j]) == Choose(me, st.files[j]) && (st.files[j].name in v.disk <==> st.files[j].name in st.disk) {
    }
  }

  lemma SameNamesConsistent(st0: Store, st: Store)
    requires Consistent(st0) && forall j :: 0 <= j < MAXFILES ==> st.files[j].name == st0.files[j].name
    requires forall n :: n in st0.disk ==> n in st.disk
    ensures Consistent(st) && Count(st.files) == Count(st0.files)
  {
    forall f | f in st.files && f.name != "" ensures PlainName(f.name) && f.name in st.disk {
      var j :| 0 <= j < MAXFILES && st.files[j] == f;
      assert st0.files[j] in st0.files;
    }
    SameNamesSameCount(st0.files, st.files, MAXFILES);
  }

  lemma {:induction false} SameNamesSameCount(t: Table, u: Table, n: nat)
    requires n <= MAXFILES && forall j :: 0 <= j < MAXFILES ==> t[j].name == u[j].name
    ensures CountTo(t, n) == CountTo(u, n)
  {
    if n > 0 { SameNamesSameCount(t, u, n - 1); }
  }

  lemma ProgressKeepsConsistent(me0: Local, st0: Store, i: nat, clock: string -> int, me: Local, st: Store)
    requires Consistent(st0) && Progress(me0, st0, i, clock, me, st)
    ensures Consistent(st) && Count(st.files) == Count(st0.files)
    ensures forall j :: 0 <= j < MAXFILES ==> st.files[j].name == st0.files[j].name && st.files[j].lock == st0.files[j].lock
  {
    forall j | 0 <= j < MAXFILES ensures st.files[j].name == st0.files[j].name && st.files[j].lock == st0.files[j].lock {
      if j < i { assert RoundDone(me0, st0, j, clock, me, st); }
    }
    forall n | n in st0.disk ensures n in st.disk {
      if j :| 0 <= j < i && st0.files[j].name == n {
        assert RoundDone(me0, st0, j, clock, me, st);
      } else {
        assert SameThere(st0, st, n);
      }
    }
    SameNamesConsistent(st0, st);
  }

  /** The next round sees its file exactly as it was before the sync. */
  lemma NextUntouched(me0: Local, st0: Store, i: nat, clock: string -> int, me: Local, st: Store)
    requires Consistent(st0) && Progress(me0, st0, i, clock, me, st) && i < Count(st0.files)
    ensures st.files[i] == st0.files[i] && PlainName(st0.files[i].name)
    ensures SameHere(me0, me, st0.files[i].name) && SameThere(st0, st, st0.files[i].name)
    ensures st.files[i].name in st.disk && Choose(me, st.files[i]) == Choose(me0, st0.files[i])
  {
    NamedBelowCount(st0, i);
    assert forall j :: 0 <= j < i ==> st0.files[j].name != st0.files[i].name;
  }

  /** What round `i` does to the stores `me`, `st`, and that it does nothing else. */
  ghost predicate RoundMade(me0: Local, st0: Store, i: nat, clock: string -> int, me: Local, st: Store, it: Local, v: Store)
    requires i < MAXFILES
  {
    var name := st0.files[i].name;
    && RoundDone(me0, st0, i, clock, it, v)
    && (forall n :: n != name ==> SameHere(me, it, n) && SameThere(st, v, n))
    && (forall j :: 0 <= j < MAXFILES && j != i ==> v.files[j] == st.files[j])
    && it.offered == me.offered + [name] && it.answers == me.answers + [Choose(me0, st0.files[i])]
    && it.cwd == me.cwd && it.locks == me.locks && v.devices == st.devices
  }

  lemma RoundEffect(me0: Local, st0: Store, i: nat, clock: string -> int, me: Local, st: Store)
    requires Ready(me0, st0) && Consistent(st) && i < Count(st0.files) && st.files[i] == st0.files[i]
    requires PlainName(st0.files[i].name)
    requires SameHere(me0, me, st0.files[i].name) && SameThere(st0, st, st0.files[i].name)
    requires st.files[i].name in st.disk && Choose(me, st.files[i]) == Choose(me0, st0.files[i])
    ensures RoundMade(me0, st0, i, clock, me, st, ClientAfterRound(me, st, i, clock), ServerAfterRound(me, st, i))
  {
    var name := st0.files[i].name;
    DeliveredIff(st.disk[name]);
    if Choose(me, st.files[i]) == CP_CLIENT_SEND_FILE { ReceivedInPlace(st, i, me.dir[name]); }
  }

  /** What one round leaves of the rounds before it. */
  lemma DoneStaysDone(me0: Local, st0: Store, j: nat, clock: string -> int, me: Local, st: Store, it: Local, v: Store)
    requires j < MAXFILES && RoundDone(me0, st0, j, clock, me, st)
    requires SameHere(me, it, st0.files[j].name) && SameThere(st, v, st0.files[j].name) && v.files[j] == st.files[j]
    ensures RoundDone(me0, st0, j, clock, it, v)
  {
  }

  lemma EarlierRoundsStay(me0: Local, st0: Store, i: nat, clock: string -> int, me: Local, st: Store, it: Local, v: Store, j: nat)
    requires Consistent(st0) && i < Count(st0.files) && Progress(me0, st0, i, clock, me, st)
    requires RoundMade(me0, st0, i, clock, me, st, it, v) && j < i
    ensures RoundDone(me0, st0, j, clock, it, v)
  {
    NamedBelowCount(st0, i);
    assert st0.files[j].name != st0.files[i].name;
    hide Consistent, Count;
    assert RoundDone(me0, st0, j, clock, me, st);
    hide RoundDone;
    DoneStaysDone(me0, st0, j, clock, me, st, it, v);
  }

  lemma OthersStay(me0: Local, st0: Store, i: nat, clock: string -> int, me: Local, st: Store, it: Local, v: Store, n: string)
    requires i < MAXFILES && Progress(me0, st0, i, clock, me, st) && RoundMade(me0, st0, i, clock, me, st, it, v)
    requires forall j :: 0 <= j < i + 1 ==> st0.files[j].name != n
    ensures SameHere(me0, it, n) && SameThere(st0, v, n)
  {
    hide RoundDone;
    assert st0.files[i].name != n;
    assert SameHere(me0, me, n) && SameThere(st0, st, n) && SameHere(me, it, n) && SameThere(st, v, n);
  }

  lemma RoundStep(me0: Local, st0: Store, i: nat, clock: string -> int, me: Local, st: Store)
    requires Ready(me0, st0) && Progress(me0, st0, i, clock, me, st) && i < Count(st0.files)
    requires st.files[i].name in st.disk
    ensures Progress(me0, st0, i + 1, clock, ClientAfterRound(me, st, i, clock), ServerAfterRound(me, st, i))
  {
    NextUntouched(me0, st0, i, clock, me, st);
    ProgressKeepsConsistent(me0, st0, i, clock, me, st);
    RoundEffect(me0, st0, i, clock, me, st);
    var it, v := ClientAfterRound(me, st, i, clock), ServerAfterRound(me, st, i);
    hide Consistent, ClientAfterRound, ServerAfterRound, Choose, Count, RoundDone, SameHere, SameThere;
    forall j | 0 <= j < i ensures RoundDone(me0, st0, j, clock, it, v) {
      EarlierRoundsStay(me0, st0, i, clock, me, st, it, v, j);
    }
    forall n | forall j :: 0 <= j < i + 1 ==> st0.files[j].name != n ensures SameHere(me0, it, n) && SameThere(st0, v, n) {
      OthersStay(me0, st0, i, clock, me, st, it, v, n);
    }
  }

  lemma {:induction false} RoundsProgress(me0: Local, st0: Store, i: nat, clock: string -> int, me: Local, st: Store)
    requires Ready(me0, st0) && Progress(me0, st0, i, clock, me, st) && i <= Count(st0.files)
    ensures var (m, s) := AfterRounds(me, st, i, Count(st0.files), clock);
      Progress(me0, st0, Count(st0.files), clock, m, s)
    decreases Count(st0.files) - i
  {
    if i < Count(st0.files) {
      NextUntouched(me0, st0, i, clock, me, st);
      RoundStep(me0, st0, i, clock, me, st);
      RoundsProgress(me0, st0, i + 1, clock, ClientAfterRound(me, st, i, clock), ServerAfterRound(me, st, i));
    }
  }

  /** The first loop runs through the table as it was: every entry is offered exactly once, in
      order, and each round does what newest-wins says of the stores before the sync. */
  lemma FirstLoopDone(me: Local, st: Store, clock: string -> int)
    requires Ready(me, st)
    ensures var (m, s) := AfterFirstLoop(me, st, clock); Progress(Start(me), st, Count(st.files), clock, m, s)
  {
    assert Progress(Start(me), st, 0, clock, Start(me), st);
    RoundsProgress(Start(me), st, 0, clock, Start(me), st);
  }

  // ---- The second loop ----

  ghost predicate PlainDir(me: Local) {
    forall n :: n in me.dir ==> PlainName(n)
  }

  ghost predicate ListsOnce(listing: seq<string>) {
    forall i, j :: 0 <= i < j < |listing| ==> listing[i] != listing[j]
  }

  ghost function TimeOf(st: Store, n: string): int
    requires Has(st.files, n)
  {
    st.files[Find(st.files, n)].lastModified
  }

  /** Nothing on the server changed for `n`. */
  ghost predicate SameRecord(st: Store, v: Store, n: string) {
    SameThere(st, v, n) && (Has(v.files, n) <==> Has(st.files, n))
    && (Has(st.files, n) ==> Has(v.files, n) && TimeOf(v, n) == TimeOf(st, n))
  }

  /** The server has the client's file `n`: on disk in any case, in the table if there was room. */
  ghost predicate Arrived(me: Local, v: Store, n: string) {
    n in me.dir && n in v.disk && v.disk[n] == me.dir[n].content && (Has(v.files, n) ==> TimeOf(v, n) == me.dir[n].mtime)
  }

  /** Uploading one new file. */
  lemma OneArrives(me: Local, st: Store, name: string)
    requires Consistent(st) && name in me.dir && PlainName(name) && !Has(st.files, name) && |me.dir[name].content| <= INT_MAX
    ensures var v := Received(st, name, me.dir[name]);
      Consistent(v) && Arrived(me, v, name) && v.devices == st.devices
      && (Has(v.files, name) <==> !Full(st.files))
      && (forall n :: n != name ==> SameRecord(st, v, n))
  {
    var file := me.dir[name];
    var v := Received(st, name, file);
    DeliveredIff(file.content);
    AssignKeepsShape(st.files, name, file.mtime, Wrap(|file.content|));
    if Assigns(st.files, name) {
      AssignFindsItself(st.files, name, file.mtime, Wrap(|file.content|));
      forall n | n != name && n != "" ensures Find(v.files, n) == Find(st.files, n)
        && (Find(st.files, n) >= 0 ==> v.files[Find(st.files, n)] == st.files[Find(st.files, n)]) {
        AssignLeavesOthers(st.files, name, file.mtime, Wrap(|file.content|), n);
      }
    }
    ReceivedConsistent(st, name, file);
  }

  lemma ReceivedConsistent(st: Store, name: string, file: LocalFile)
    requires Consistent(st) && !LongName(name)
    ensures Consistent(Received(st, name, file))
  {
    var v := Received(st, name, file);
    ReceivedKeepsPlain(st, name, file);
    forall f | f in v.files && f.name != "" ensures PlainName(f.name) && f.name in v.disk {
      var j :| 0 <= j < MAXFILES && v.files[j] == f;
      assert st.files[j] in st.files;
    }
  }

  /** What the second loop does: exactly the new files of the listing arrive, everything else stays. */
  lemma {:induction false} NewArrive(me: Local, st: Store, listing: seq<string>)
    requires Consistent(st) && PlainDir(me) && ListsOnce(listing)
    requires forall n :: n in me.dir ==> |me.dir[n].content| <= INT_MAX
    requires forall n :: n in listing && IsNew(me, n) ==> !Has(st.files, n)
    ensures var v := AfterNew(me, st, listing);
      Consistent(v) && v.devices == st.devices
      && (forall n :: if n in listing && IsNew(me, n) then Arrived(me, v, n) else SameRecord(st, v, n))
      && (Count(st.files) + NewCount(me, listing) <= MAXFILES ==>
            forall n :: n in listing && IsNew(me, n) ==> Has(v.files, n))
    decreases listing
  {
    if listing != [] {
      var name, rest := listing[0], listing[1..];
      assert name !in rest;
      assert forall n :: n in listing <==> n == name || n in rest;
      if IsNew(me, name) {
        OneArrives(me, st, name);
        CountGrows(st.files, name, me.dir[name].mtime, Wrap(|me.dir[name].content|));
        var mid := Received(st, name, me.dir[name]);
        NewArrive(me, mid, rest);
        var v := AfterNew(me, mid, rest);
        assert SameRecord(mid, v, name);
        forall n ensures if n in listing && IsNew(me, n) then Arrived(me, v, n) else SameRecord(st, v, n) {
          assert n != name ==> SameRecord(st, mid, n);
          assert (n in rest && IsNew(me, n)) || SameRecord(mid, v, n);
        }
      } else {
        NewArrive(me, st, rest);
      }
    }
  }

  lemma CountGrows(t: Table, name: string, mtime: int, size: int)
    requires WellFormed(t) && PlainName(name) && !Has(t, name)
    ensures Count(Assign(t, name, mtime, size)) == Count(t) + if Full(t) then 0 else 1
    ensures Full(t) <==> Count(t) == MAXFILES
  {
    CountIsPrefix(t, |t|);
    var v, u := Find(t, ""), Assign(t, name, mtime, size);
    AssignKeepsShape(t, name, mtime, size);
    if !Full(t) {
      CountIsPrefix(u, |u|);
      assert u[v].name == name;
      assert forall i :: 0 <= i < |t| && i != v ==> u[i] == t[i];
      assert forall i :: 0 <= i < v ==> u[i].name != "";
      PrefixNamed(t, v);
      assert v + 1 < |t| ==> t[v + 1].name == "";
    }
  }
}
