/** What synchronisation promises: both sides end up the same, and repeated syncs settle. */
module SyncTheorems {
  import opened Frames
  import opened FileTable
  import opened Transfer
  import opened Codes
  import opened S = ServerPrograms
  import opened C = ClientPrograms
  import opened Sync

  /** The directory listing the second loop reads: every file of the directory once, in some order. */
  ghost predicate Lists(listing: seq<string>, me: Local) {
    ListsOnce(listing) && forall n :: n in listing <==> n in me.dir
  }

  ghost predicate Syncable(me: Local, st: Store, listing: seq<string>, clock: string -> int) {
    Ready(me, st) && PlainDir(me) && Lists(listing, SyncedClient(me, st, clock))
  }

  /** What a sync does to the file `n`, in terms of the stores before it. */
  ghost predicate Outcome(me: Local, st: Store, clock: string -> int, m: Local, v: Store, n: string) {
    if Has(st.files, n) then
      Has(v.files, n) && n in m.dir && n in v.disk && n in st.disk
      && var choice := Choice(me.dir, n, TimeOf(st, n));
        if choice == CP_CLIENT_GET_FILE then
          m.dir[n] == LocalFile(st.disk[n], clock(n)) && v.disk[n] == st.disk[n] && TimeOf(v, n) == TimeOf(st, n)
        else
          n in me.dir && m.dir[n] == me.dir[n]
          && (if choice == CP_CLIENT_SEND_FILE then v.disk[n] == me.dir[n].content && TimeOf(v, n) == me.dir[n].mtime
              else v.disk[n] == st.disk[n] && TimeOf(v, n) == TimeOf(st, n))
    else if n in me.dir && Visible(n) then
      Arrived(m, v, n) && m.dir[n] == me.dir[n]
    else
      SameHere(me, m, n) && SameRecord(st, v, n)
  }

  lemma OfferedAreTheNames(me0: Local, st0: Store, clock: string -> int, me: Local, st: Store, n: string)
    requires Consistent(st0) && Progress(me0, st0, Count(st0.files), clock, me, st)
    ensures n in me.offered <==> Has(st0.files, n)
  {
    var count := Count(st0.files);
    assert forall j :: 0 <= j < count ==> me.offered[j] == st0.files[j].name;
    if n in me.offered {
      var j :| 0 <= j < count && me.offered[j] == n;
      PrefixNamed(st0.files, j);
      FoundAt(st0.files, j);
    }
    if Has(st0.files, n) {
      PrefixNamed(st0.files, Find(st0.files, n));
      assert me.offered[Find(st0.files, n)] == n;
    }
  }

  /** After the first loop: offered files as decided, others untouched. */
  lemma AfterFirst(me: Local, st: Store, clock: string -> int, n: string)
    requires Ready(me, st) && PlainDir(me)
    ensures var (m, s) := AfterFirstLoop(me, st, clock);
      Consistent(s) && Count(s.files) == Count(st.files) && s.devices == st.devices
      && (n in m.offered <==> Has(st.files, n)) && (Has(s.files, n) <==> Has(st.files, n))
      && (if Has(st.files, n) then Outcome(me, st, clock, m, s, n) else SameHere(me, m, n) && SameRecord(st, s, n))
      && (n in m.dir ==> PlainName(n) && |m.dir[n].content| <= INT_MAX)
      && (n in s.disk ==> |s.disk[n]| <= INT_MAX)
  {
    FirstLoopDone(me, st, clock);
    var (m, s) := AfterFirstLoop(me, st, clock);
    ProgressKeepsConsistent(Start(me), st, Count(st.files), clock, m, s);
    OfferedAreTheNames(Start(me), st, clock, m, s, n);
    var j := Find(st.files, n);
    SameNamesFind(st.files, s.files, n);
    if Has(st.files, n) {
      PrefixNamed(st.files, j);
      NamedBelowCount(st, j);
      assert RoundDone(Start(me), st, j, clock, m, s);
    } else {
      assert forall i :: 0 <= i < Count(st.files) ==> st.files[i].name != n by {
        forall i | 0 <= i < Count(st.files) ensures st.files[i].name != n { NamedBelowCount(st, i); }
      }
      assert SameHere(Start(me), m, n) && SameThere(st, s, n);
    }
  }

  lemma SameNamesFind(t: Table, u: Table, n: string)
    requires forall j :: 0 <= j < MAXFILES ==> u[j].name == t[j].name
    ensures Find(t, n) == Find(u, n)
  {
    if Find(t, n) >= 0 { assert u[Find(t, n)].name == n; }
    if Find(u, n) >= 0 { assert t[Find(u, n)].name == n; }
  }

  ghost function VisibleNames(me: Local): set<string> {
    set n | n in me.dir && Visible(n)
  }

  /** All names a sync is about: the table's and the client's visible files. */
  ghost function Union(me: Local, st: Store): set<string> {
    Names(st.files) + VisibleNames(me)
  }

  lemma {:induction false} NewCountIsSize(me: Local, listing: seq<string>)
    requires ListsOnce(listing)
    ensures NewCount(me, listing) == |set n | n in listing && IsNew(me, n)|
  {
    if listing != [] {
      var name, rest := listing[0], listing[1..];
      NewCountIsSize(me, rest);
      var all, some := set n | n in listing && IsNew(me, n), set n | n in rest && IsNew(me, n);
      assert name !in rest;
      assert all == if IsNew(me, name) then some + {name} else some;
    } else {
      assert (set n | n in listing && IsNew(me, n)) == {};
    }
  }

  /** The second loop uploads the visible files the table did not have. */
  lemma IsNewIff(me: Local, st: Store, listing: seq<string>, clock: string -> int, n: string)
    requires Syncable(me, st, listing, clock)
    ensures n in listing && IsNew(SyncedClient(me, st, clock), n) <==> n in VisibleNames(me) && n !in Names(st.files)
  {
    AfterFirst(me, st, clock, n);
    NamesAreFound(st.files, n);
    assert Base(n) == n || '/' in n;
  }

  /** The files to upload are those of the union that the table does not have. */
  lemma RoomIff(me: Local, st: Store, listing: seq<string>, clock: string -> int)
    requires Syncable(me, st, listing, clock)
    ensures Count(st.files) + NewCount(SyncedClient(me, st, clock), listing) == |Union(me, st)|
  {
    var m := SyncedClient(me, st, clock);
    NewCountIsSize(m, listing);
    var uploads := set n | n in listing && IsNew(m, n);
    forall n ensures n in uploads <==> n in VisibleNames(me) && n !in Names(st.files) {
      IsNewIff(me, st, listing, clock, n);
    }
    SizeOfUnion(st.files, VisibleNames(me), uploads);
  }

  lemma SizeOfUnion(t: Table, visible: set<string>, uploads: set<string>)
    requires WellFormed(t) && forall n :: n in uploads <==> n in visible && n !in Names(t)
    ensures Count(t) + |uploads| == |Names(t) + visible|
  {
    CountIsMapSize(t);
    assert Names(t) + visible == Names(t) + uploads;
    assert |Names(t)| == |Entries(t).Keys|;
    assert |Names(t) + uploads| == |Names(t)| + |uploads|;
  }

  /** One sync, file by file. */
  lemma SyncOutcome(me: Local, st: Store, listing: seq<string>, clock: string -> int, n: string)
    requires Syncable(me, st, listing, clock)
    ensures var m, v := SyncedClient(me, st, clock), SyncedServer(me, st, listing, clock);
      Outcome(me, st, clock, m, v, n) && Consistent(v)
      && (|Union(me, st)| <= MAXFILES && n in me.dir && Visible(n) ==> Has(v.files, n))
  {
    var (m, s) := AfterFirstLoop(me, st, clock);
    forall x ensures (x in m.offered <==> Has(st.files, x)) && (Has(s.files, x) <==> Has(st.files, x))
      && (x in m.dir ==> PlainName(x) && |m.dir[x].content| <= INT_MAX) && Consistent(s) && Count(s.files) == Count(st.files)
    {
      AfterFirst(me, st, clock, x);
    }
    NewArrive(m, s, listing);
    AfterFirst(me, st, clock, n);
    RoomIff(me, st, listing, clock);
  }

  // ---- Convergence ----

  /** Both sides hold the same names with the same contents; the client's hidden and temporary
      files are nobody's business unless the table has them. */
  ghost predicate Agree(me: Local, st: Store) {
    forall n ::
      (Has(st.files, n) ==> n in me.dir && n in st.disk && me.dir[n].content == st.disk[n])
      && (n in me.dir && Visible(n) ==> Has(st.files, n))
  }

  /** Files of the same age on both sides are the same file. */
  ghost predicate SameAgeSameFile(me: Local, st: Store) {
    forall n :: n in me.dir && Has(st.files, n) && me.dir[n].mtime == TimeOf(st, n) ==>
      n in st.disk && me.dir[n].content == st.disk[n]
  }

  /** The content that should win: the only one, or the newer one. */
  ghost function Newest(me: Local, st: Store, n: string): seq<byte>
    requires Consistent(st) && n in Union(me, st)
  {
    if Has(st.files, n) && (n !in me.dir || me.dir[n].mtime < TimeOf(st, n)) && n in st.disk then st.disk[n]
    else if n in me.dir then me.dir[n].content
    else []
  }

  lemma SmallSet(t: Table)
    requires WellFormed(t)
    ensures |Names(t)| <= MAXFILES
  {
    CountIsMapSize(t);
    assert |Names(t)| == |Entries(t).Keys|;
  }

  /** Sync convergence, exactly: a sync ends with both sides the same if and only if there are at most
      twenty names in all and files of equal age are equal. Past twenty the table cannot hold the
      names; files of equal age are never exchanged. */
  lemma SyncConvergesIff(me: Local, st: Store, listing: seq<string>, clock: string -> int)
    requires Syncable(me, st, listing, clock)
    ensures Agree(SyncedClient(me, st, clock), SyncedServer(me, st, listing, clock))
      <==> |Union(me, st)| <= MAXFILES && SameAgeSameFile(me, st)
  {
    hide AfterRounds, AfterNew, Find, CountTo;
    var m, v := SyncedClient(me, st, clock), SyncedServer(me, st, listing, clock);
    if |Union(me, st)| <= MAXFILES && SameAgeSameFile(me, st) {
      forall n ensures (Has(v.files, n) ==> n in m.dir && n in v.disk && m.dir[n].content == v.disk[n])
        && (n in m.dir && Visible(n) ==> Has(v.files, n)) {
        SyncOutcome(me, st, listing, clock, n);
      }
    }
    if Agree(m, v) {
      AgreeNeedsRoom(me, st, listing, clock);
      forall n | n in me.dir && Has(st.files, n) && me.dir[n].mtime == TimeOf(st, n)
        ensures n in st.disk && me.dir[n].content == st.disk[n] {
        SyncOutcome(me, st, listing, clock, n);
      }
    }
  }

  lemma AgreeNeedsRoom(me: Local, st: Store, listing: seq<string>, clock: string -> int)
    requires Syncable(me, st, listing, clock)
    requires Agree(SyncedClient(me, st, clock), SyncedServer(me, st, listing, clock))
    ensures |Union(me, st)| <= MAXFILES
  {
    var v := SyncedServer(me, st, listing, clock);
    forall n | n in Union(me, st) ensures n in Names(v.files) {
      SyncOutcome(me, st, listing, clock, n);
      NamesAreFound(st.files, n);
      NamesAreFound(v.files, n);
    }
    SyncOutcome(me, st, listing, clock, "");
    SmallSet(v.files);
    Subset(Union(me, st), Names(v.files));
  }

  lemma {:induction false} Subset(a: set<string>, b: set<string>)
    requires a <= b
    ensures |a| <= |b|
  {
    if a != {} {
      var x :| x in a;
      Subset(a - {x}, b - {x});
    }
  }

  /** Newest wins: after a converging sync, every name of the union is on both sides with the
      content of the strictly newer side, or of the only side that had it. */
  lemma NewestWins(me: Local, st: Store, listing: seq<string>, clock: string -> int, n: string)
    requires Syncable(me, st, listing, clock) && |Union(me, st)| <= MAXFILES && SameAgeSameFile(me, st)
    requires n in Union(me, st)
    ensures var m, v := SyncedClient(me, st, clock), SyncedServer(me, st, listing, clock);
      n in m.dir && n in v.disk && Has(v.files, n)
      && m.dir[n].content == v.disk[n] == Newest(me, st, n)
  {
    hide AfterRounds, AfterNew, Find, CountTo;
    NamesAreFound(st.files, n);
    SyncOutcome(me, st, listing, clock, n);
  }

  /** Which of the client's other files go to the server: those whose name neither begins with a dot nor ends in a tilde. Of a
      hidden or temporary file the server learns nothing. */
  lemma HiddenStayHome(me: Local, st: Store, listing: seq<string>, clock: string -> int, n: string)
    requires Syncable(me, st, listing, clock) && n in me.dir && !Has(st.files, n)
    ensures var v := SyncedServer(me, st, listing, clock);
      n != ""
      && (n[0] == '.' || n[|n| - 1] == '~' ==> SameRecord(st, v, n))
      && (n[0] != '.' && n[|n| - 1] != '~' ==> n in v.disk && v.disk[n] == me.dir[n].content)
      && (n[0] != '.' && n[|n| - 1] != '~' && |Union(me, st)| <= MAXFILES ==>
            Has(v.files, n) && TimeOf(v, n) == me.dir[n].mtime)
  {
    hide AfterRounds, AfterNew, Find, CountTo;
    SyncOutcome(me, st, listing, clock, n);
  }

  /** Every entry of the table is offered exactly once, in table order, and answered by age. */
  lemma OfferedOnce(me: Local, st: Store, clock: string -> int)
    requires Ready(me, st)
    ensures var m := SyncedClient(me, st, clock);
      |m.offered| == |m.answers| == Count(st.files)
      && forall i :: 0 <= i < Count(st.files) ==>
           m.offered[i] == st.files[i].name && m.answers[i] == Choice(me.dir, st.files[i].name, st.files[i].lastModified)
  {
    FirstLoopDone(me, st, clock);
  }

  // ---- Stabilisation ----

  /** What the sync answered for `n`. */
  ghost function AnswerFor(me: Local, st: Store, n: string): int
    requires Has(st.files, n)
  {
    Choice(me.dir, n, TimeOf(st, n))
  }

  /** Nobody's copy is behind, and the visible files are all in the table. */
  ghost predicate NothingBehind(me: Local, st: Store) {
    forall n ::
      (Has(st.files, n) ==> n in me.dir && me.dir[n].mtime >= TimeOf(st, n))
      && (n in me.dir && Visible(n) ==> Has(st.files, n))
  }

  ghost predicate Settled(me: Local, st: Store) {
    NothingBehind(me, st) && forall n :: Has(st.files, n) ==> me.dir[n].mtime == TimeOf(st, n)
  }

  /** The client's clock is not behind the times the server has recorded for what it downloads. */
  ghost predicate ClockAhead(me: Local, st: Store, clock: string -> int) {
    forall n :: Has(st.files, n) && AnswerFor(me, st, n) == CP_CLIENT_GET_FILE ==> clock(n) >= TimeOf(st, n)
  }

  /** After the first sync the client is ahead or level everywhere, exactly when its clock was not
      behind (and there was room). A download is stamped with the time it was written, so the client
      can be ahead only of what it downloaded. */
  lemma FirstSync(me: Local, st: Store, listing: seq<string>, clock: string -> int)
    requires Syncable(me, st, listing, clock) && |Union(me, st)| <= MAXFILES
    ensures var m, v := SyncedClient(me, st, clock), SyncedServer(me, st, listing, clock);
      (NothingBehind(m, v) <==> ClockAhead(me, st, clock))
      && (forall n :: Has(v.files, n) && n in m.dir && m.dir[n].mtime > TimeOf(v, n) ==>
            Has(st.files, n) && AnswerFor(me, st, n) == CP_CLIENT_GET_FILE)
  {
    hide AfterRounds, AfterNew, Find, CountTo;
    var m, v := SyncedClient(me, st, clock), SyncedServer(me, st, listing, clock);
    forall n ensures Outcome(me, st, clock, m, v, n) && (n in me.dir && Visible(n) ==> Has(v.files, n)) {
      SyncOutcome(me, st, listing, clock, n);
    }
    if ClockAhead(me, st, clock) {
      forall n ensures Has(v.files, n) ==> n in m.dir && m.dir[n].mtime >= TimeOf(v, n)
        ensures n in m.dir && Visible(n) ==> Has(v.files, n) {
        assert Outcome(me, st, clock, m, v, n);
      }
    } else {
      var n :| Has(st.files, n) && AnswerFor(me, st, n) == CP_CLIENT_GET_FILE && clock(n) < TimeOf(st, n);
      assert Outcome(me, st, clock, m, v, n);
    }
    forall n | Has(v.files, n) && n in m.dir && m.dir[n].mtime > TimeOf(v, n)
      ensures Has(st.files, n) && AnswerFor(me, st, n) == CP_CLIENT_GET_FILE {
      assert Outcome(me, st, clock, m, v, n);
    }
  }

  lemma UnionWhenListed(me: Local, st: Store)
    requires Consistent(st) && forall n :: n in me.dir && Visible(n) ==> Has(st.files, n)
    ensures |Union(me, st)| <= MAXFILES
  {
    forall n | n in VisibleNames(me) ensures n in Names(st.files) { NamesAreFound(st.files, n); }
    assert Union(me, st) == Names(st.files);
    SmallSet(st.files);
  }

  /** From a state where nothing is behind, a sync downloads nothing, re-uploads exactly what is
      ahead, leaves the client's files alone, and settles. */
  lemma SecondSync(me: Local, st: Store, listing: seq<string>, clock: string -> int)
    requires Syncable(me, st, listing, clock) && NothingBehind(me, st)
    ensures var m, v := SyncedClient(me, st, clock), SyncedServer(me, st, listing, clock);
      Settled(m, v)
      && (forall n :: Has(st.files, n) ==>
            AnswerFor(me, st, n) == if me.dir[n].mtime > TimeOf(st, n) then CP_CLIENT_SEND_FILE else CP_SYNC_FILE_OK)
      && (forall n :: SameHere(me, m, n))
  {
    UnionWhenListed(me, st);
    var m, v := SyncedClient(me, st, clock), SyncedServer(me, st, listing, clock);
    forall n ensures Outcome(me, st, clock, m, v, n) {
      SyncOutcome(me, st, listing, clock, n);
    }
    forall n ensures (Has(v.files, n) ==> n in m.dir && m.dir[n].mtime == TimeOf(v, n)) && (n in m.dir && Visible(n) ==> Has(v.files, n))
      && SameHere(me, m, n) {
      assert Outcome(me, st, clock, m, v, n);
    }
  }

  /** Once settled, every sync answers that every file is in order, uploads nothing, and changes
      neither side. */
  lemma SettledSync(me: Local, st: Store, listing: seq<string>, clock: string -> int)
    requires Syncable(me, st, listing, clock) && Settled(me, st)
    ensures var m, v := SyncedClient(me, st, clock), SyncedServer(me, st, listing, clock);
      (forall i :: 0 <= i < |m.answers| ==> m.answers[i] == CP_SYNC_FILE_OK) && |m.answers| == Count(st.files)
      && NewCount(m, listing) == 0 && v == st && m.dir == me.dir && Settled(m, v)
  {
    var (m, s) := AfterFirstLoop(me, st, clock);
    OfferedOnce(me, st, clock);
    FirstLoopDone(me, st, clock);
    forall i | 0 <= i < Count(st.files) ensures Choose(Start(me), st.files[i]) == CP_SYNC_FILE_OK {
      NamedBelowCount(st, i);
      FoundAt(st.files, i);
    }
    forall n | n in listing ensures !IsNew(m, n) {
      IsNewIff(me, st, listing, clock, n);
      NamesAreFound(st.files, n);
    }
    NothingNew(m, s, listing);
    SettledRounds(me, st, clock);
  }

  lemma {:induction false} NothingNew(m: Local, s: Store, listing: seq<string>)
    requires forall n :: n in listing ==> !IsNew(m, n)
    ensures AfterNew(m, s, listing) == s && NewCount(m, listing) == 0
    decreases listing
  {
    if listing != [] { NothingNew(m, s, listing[1..]); }
  }

  lemma SettledRounds(me: Local, st: Store, clock: string -> int)
    requires Ready(me, st) && forall i :: 0 <= i < Count(st.files) ==> Choose(Start(me), st.files[i]) == CP_SYNC_FILE_OK
    ensures var (m, s) := AfterFirstLoop(me, st, clock); m.dir == me.dir && s == st
  {
    SettledFrom(me, Start(me), st, 0, clock);
  }

  lemma {:induction false} SettledFrom(me: Local, m: Local, st: Store, i: nat, clock: string -> int)
    requires i <= Count(st.files) && m.dir == me.dir
    requires forall j :: 0 <= j < Count(st.files) ==> Choose(me, st.files[j]) == CP_SYNC_FILE_OK
    ensures var (r, s) := AfterRounds(m, st, i, Count(st.files), clock); r.dir == me.dir && s == st
    decreases Count(st.files) - i
  {
    if i < Count(st.files) { SettledFrom(me, ClientAfterRound(m, st, i, clock), st, i + 1, clock); }
  }

  /** The stores a sync leaves are again fit for the next one. */
  lemma SyncKeepsReady(me: Local, st: Store, listing: seq<string>, clock: string -> int)
    requires Syncable(me, st, listing, clock)
    ensures Ready(SyncedClient(me, st, clock), SyncedServer(me, st, listing, clock)) && PlainDir(SyncedClient(me, st, clock))
  {
    var (m, s) := AfterFirstLoop(me, st, clock);
    var v := SyncedServer(me, st, listing, clock);
    forall n ensures (n in m.dir ==> PlainName(n) && |m.dir[n].content| <= INT_MAX) && (n in v.disk ==> |v.disk[n]| <= INT_MAX) {
      AfterFirst(me, st, clock, n);
      SyncOutcome(me, st, listing, clock, n);
    }
    SyncOutcome(me, st, listing, clock, "");
  }

  /** A series of syncs, each with its own directory listing and clock, and no edits in between. */
  ghost function SyncMany(me: Local, st: Store, turns: seq<(seq<string>, string -> int)>): (Local, Store)
    decreases turns
  {
    if turns == [] then (me, st)
    else SyncMany(SyncedClient(me, st, turns[0].1), SyncedServer(me, st, turns[0].0, turns[0].1), turns[1..])
  }

  ghost predicate ListsEachTime(me: Local, st: Store, turns: seq<(seq<string>, string -> int)>)
    decreases turns
  {
    turns == [] ||
    (Lists(turns[0].0, SyncedClient(me, st, turns[0].1))
     && ListsEachTime(SyncedClient(me, st, turns[0].1), SyncedServer(me, st, turns[0].0, turns[0].1), turns[1..]))
  }

  lemma {:induction false} StaysSettled(me: Local, st: Store, turns: seq<(seq<string>, string -> int)>)
    requires Ready(me, st) && PlainDir(me) && Settled(me, st) && ListsEachTime(me, st, turns)
    ensures var (m, v) := SyncMany(me, st, turns); v == st && m.dir == me.dir && Settled(m, v) && Ready(m, v) && PlainDir(m)
    decreases turns
  {
    if turns != [] {
      var m, v := SyncedClient(me, st, turns[0].1), SyncedServer(me, st, turns[0].0, turns[0].1);
      SettledSync(me, st, turns[0].0, turns[0].1);
      SyncKeepsReady(me, st, turns[0].0, turns[0].1);
      StaysSettled(m, v, turns[1..]);
    }
  }

  /** Stabilisation: with room for every name, a client clock that is not behind, and no edits from
      outside, the second sync only re-uploads what the first one downloaded, and the third and
      every later sync answers every offer with `CP_SYNC_FILE_OK`, uploads nothing and changes nothing. */
  lemma Stabilises(me: Local, st: Store, first: (seq<string>, string -> int), second: (seq<string>, string -> int),
                   more: seq<(seq<string>, string -> int)>, last: (seq<string>, string -> int))
    requires Syncable(me, st, first.0, first.1) && |Union(me, st)| <= MAXFILES && ClockAhead(me, st, first.1)
    requires ListsEachTime(me, st, [first, second])
    requires var (m2, v2) := SyncMany(me, st, [first, second]); ListsEachTime(m2, v2, more)
    requires var (m2, v2) := SyncMany(me, st, [first, second]); var (m, v) := SyncMany(m2, v2, more);
      Lists(last.0, SyncedClient(m, v, last.1))
    ensures var m1, v1 := SyncedClient(me, st, first.1), SyncedServer(me, st, first.0, first.1);
      forall n :: Has(v1.files, n) && AnswerFor(m1, v1, n) != CP_SYNC_FILE_OK ==>
        AnswerFor(m1, v1, n) == CP_CLIENT_SEND_FILE && Has(st.files, n) && AnswerFor(me, st, n) == CP_CLIENT_GET_FILE
    ensures var (m2, v2) := SyncMany(me, st, [first, second]); var (m, v) := SyncMany(m2, v2, more);
      var it := SyncedClient(m, v, last.1);
      v == v2 && m.dir == m2.dir
      && |it.answers| == Count(v.files) && (forall i :: 0 <= i < |it.answers| ==> it.answers[i] == CP_SYNC_FILE_OK)
      && NewCount(it, last.0) == 0 && SyncedServer(m, v, last.0, last.1) == v && it.dir == m.dir
  {
    var m1, v1 := SyncedClient(me, st, first.1), SyncedServer(me, st, first.0, first.1);
    var m2, v2 := SyncedClient(m1, v1, second.1), SyncedServer(m1, v1, second.0, second.1);
    TwoTurns(me, st, first, second);
    FirstSync(me, st, first.0, first.1);
    SyncKeepsReady(me, st, first.0, first.1);
    SecondSync(m1, v1, second.0, second.1);
    SyncKeepsReady(m1, v1, second.0, second.1);
    StaysSettled(m2, v2, more);
    var (m, v) := SyncMany(m2, v2, more);
    SettledSync(m, v, last.0, last.1);
  }

  lemma TwoTurns(me: Local, st: Store, first: (seq<string>, string -> int), second: (seq<string>, string -> int))
    ensures var m1, v1 := SyncedClient(me, st, first.1), SyncedServer(me, st, first.0, first.1);
      SyncMany(me, st, [first, second]) == (SyncedClient(m1, v1, second.1), SyncedServer(m1, v1, second.0, second.1))
      && (ListsEachTime(me, st, [first, second]) ==> Lists(second.0, SyncedClient(m1, v1, second.1)))
  {
    var m1, v1 := SyncedClient(me, st, first.1), SyncedServer(me, st, first.0, first.1);
    assert [first, second][1..] == [second] && [second][1..] == [];
    assert SyncMany(m1, v1, [second]) == SyncMany(SyncedClient(m1, v1, second.1), SyncedServer(m1, v1, second.0,
      second.1), []);
    assert ListsEachTime(m1, v1, [second]) ==> Lists(second.0, SyncedClient(m1, v1, second.1));
  }
}
