/** The file table of one user: the 20 slots of `file_info`, searched from the front,
    filled at the first nameless slot, and compacted on deletion by moving the last
    record into the hole. A slot without a name is vacant, but it keeps its old record,
    lock queue included. */
module FileTable {

  const MAXFILES: nat := 20

  datatype FileInfo = FileInfo(name: string, lastModified: int, size: int, lock: seq<int>)

  const VACANT: FileInfo := FileInfo("", 0, 0, [])

  type Table = t: seq<FileInfo> | |t| == MAXFILES witness seq(MAXFILES, _ => VACANT)

  // ---- Searching ----

  /** The first slot from `i` on whose name is `name`, or -1. The empty name finds a vacant slot. */
  function FindFrom(t: seq<FileInfo>, name: string, i: nat): (k: int)
    requires i <= |t|
    ensures -1 <= k < |t|
    ensures k >= 0 ==> i <= k && t[k].name == name && forall j :: i <= j < k ==> t[j].name != name
    ensures k < 0 ==> forall j :: i <= j < |t| ==> t[j].name != name
    decreases |t| - i
  {
    if i == |t| then -1
    else if t[i].name == name then i
    else FindFrom(t, name, i + 1)
  }

  function Find(t: seq<FileInfo>, name: string): (k: int)
    ensures -1 <= k < |t|
  {
    FindFrom(t, name, 0)
  }

  /** The number of slots below `n` that hold a name. */
  function CountTo(t: seq<FileInfo>, n: nat): (c: nat)
    requires n <= |t|
    ensures c <= n
  {
    if n == 0 then 0
    else CountTo(t, n - 1) + if t[n - 1].name != "" then 1 else 0
  }

  function Count(t: seq<FileInfo>): (c: nat)
    ensures c <= |t|
  {
    CountTo(t, |t|)
  }

  // ---- Shape ----

  /** No vacant slot comes before a named one. */
  ghost predicate Compact(t: seq<FileInfo>) {
    forall i, j :: 0 <= i < j < |t| && t[j].name != "" ==> t[i].name != ""
  }

  ghost predicate DistinctNames(t: seq<FileInfo>) {
    forall i, j :: 0 <= i < j < |t| && t[i].name != "" ==> t[i].name != t[j].name
  }

  ghost predicate WellFormed(t: seq<FileInfo>) {
    Compact(t) && DistinctNames(t)
  }

  // ---- The map a table stands for ----

  ghost predicate Has(t: seq<FileInfo>, name: string) {
    name != "" && Find(t, name) >= 0
  }

  ghost function Names(t: seq<FileInfo>): set<string> {
    set f | f in t && f.name != "" :: f.name
  }

  /** Name to record, the record being the one a search would find. */
  ghost function Entries(t: seq<FileInfo>): map<string, FileInfo> {
    map n | n in Names(t) && Find(t, n) >= 0 :: t[Find(t, n)]
  }

  lemma NamesAreFound(t: seq<FileInfo>, name: string)
    ensures name in Names(t) <==> Has(t, name)
    ensures name in Entries(t) <==> Has(t, name)
    ensures Has(t, name) ==> Entries(t)[name] == t[Find(t, name)]
  {
    var k := Find(t, name);
    if k >= 0 { assert t[k] in t; }
  }

  /** In a table with distinct names, a slot is the one a search for its name finds. */
  lemma FoundAt(t: seq<FileInfo>, k: nat)
    requires DistinctNames(t) && k < |t| && t[k].name != ""
    ensures Find(t, t[k].name) == k && Has(t, t[k].name)
    ensures t[k].name in Entries(t) && Entries(t)[t[k].name] == t[k]
  {
    NamesAreFound(t, t[k].name);
  }

  /** A compact table is a named prefix: the first vacant slot is the number of files. */
  lemma {:induction false} CountIsPrefix(t: seq<FileInfo>, n: nat)
    requires Compact(t) && n <= |t|
    ensures var v := Find(t, ""); CountTo(t, n) == if v < 0 || n <= v then n else v
  {
    if n > 0 { CountIsPrefix(t, n - 1); }
  }

  lemma PrefixNamed(t: seq<FileInfo>, i: nat)
    requires Compact(t) && i < |t|
    ensures t[i].name != "" <==> i < Count(t)
  {
    CountIsPrefix(t, |t|);
  }

  /** `countUserFiles` is the size of the map. */
  lemma {:induction false} CountIsMapSize(t: seq<FileInfo>)
    requires WellFormed(t)
    ensures |Entries(t)| == Count(t)
    ensures Entries(t).Keys == Names(t)
  {
    PrefixMapSize(t, |t|);
    forall n ensures n in Entries(t) <==> n in Names(t) { NamesAreFound(t, n); }
    assert Entries(t).Keys == NamesBelow(t, |t|) by {
      forall n ensures n in Names(t) <==> n in NamesBelow(t, |t|) {
        if n in Names(t) { NamesAreFound(t, n); }
      }
    }
    assert |Entries(t)| == |Entries(t).Keys|;
  }

  ghost function NamesBelow(t: seq<FileInfo>, n: nat): set<string>
    requires n <= |t|
  {
    set i | 0 <= i < n && t[i].name != "" :: t[i].name
  }

  lemma NamesOneMore(t: seq<FileInfo>, n: nat)
    requires DistinctNames(t) && n < |t|
    ensures t[n].name != "" ==> NamesBelow(t, n + 1) == NamesBelow(t, n) + {t[n].name} && t[n].name !in NamesBelow(t, n)
    ensures t[n].name == "" ==> NamesBelow(t, n + 1) == NamesBelow(t, n)
  {
  }

  lemma NoNames(t: seq<FileInfo>)
    ensures |NamesBelow(t, 0)| == CountTo(t, 0) == 0
  {
    assert NamesBelow(t, 0) == {};
  }

  lemma CountOneMore(t: seq<FileInfo>, n: nat)
    requires n < |t|
    ensures CountTo(t, n + 1) == CountTo(t, n) + if t[n].name != "" then 1 else 0
  {
  }

  lemma {:induction false} PrefixMapSize(t: seq<FileInfo>, n: nat)
    requires DistinctNames(t) && n <= |t|
    ensures |NamesBelow(t, n)| == CountTo(t, n)
  {
    hide *;
    if n == 0 {
      NoNames(t);
    } else {
      PrefixMapSize(t, n - 1);
      NamesOneMore(t, n - 1);
      CountOneMore(t, n - 1);
      if t[n - 1].name != "" { OneMore(NamesBelow(t, n - 1), t[n - 1].name); }
    }
  }

  lemma OneMore(names: set<string>, n: string)
    requires n !in names
    ensures |names + {n}| == |names| + 1
  {
  }

  // ---- assignNewFile ----

  /** What follows the last slash of a path. */
  function Base(path: string): (b: string)
    ensures '/' !in b
    ensures '/' !in path ==> b == path
  {
    if path == "" then ""
    else if '/' in path then Base(path[1..])
    else path
  }

  /** The name at the end of a path is its base name, whatever the directories before it are. */
  lemma {:induction false} BaseAfterSlash(dir: string, name: string)
    requires '/' !in name
    ensures Base(dir + "/" + name) == name
    decreases dir
  {
    var path := dir + "/" + name;
    assert path[|dir|] == '/';
    if dir == "" {
      assert path[1..] == name;
    } else {
      assert path[1..] == dir[1..] + "/" + name;
      BaseAfterSlash(dir[1..], name);
    }
  }

  /** The slot `assignNewFile` writes: the file's own, else the first vacant one, else none. */
  function SlotFor(t: seq<FileInfo>, fileName: string): (k: int)
    ensures -1 <= k < |t|
  {
    var k := Find(t, fileName);
    if k >= 0 then k else Find(t, "")
  }

  /** `assignNewFile`: the slot is looked up by the name as sent but stores its base name;
      the slot's lock queue is left as it was. */
  function Assign(t: Table, fileName: string, mtime: int, size: int): Table {
    var k := SlotFor(t, fileName);
    if k < 0 then t else t[k := t[k].(name := Base(fileName), lastModified := mtime, size := size)]
  }

  predicate Assigns(t: Table, fileName: string) {
    SlotFor(t, fileName) >= 0
  }

  /** Insertion fails exactly when the name is new and the table is full. */
  lemma AssignFailsWhenFull(t: Table, fileName: string)
    requires WellFormed(t) && fileName != ""
    ensures Assigns(t, fileName) <==> fileName in Entries(t) || |Entries(t)| < MAXFILES
  {
    NamesAreFound(t, fileName);
    CountIsPrefix(t, |t|);
    CountIsMapSize(t);
  }

  lemma AssignKeepsShape(t: Table, name: string, mtime: int, size: int)
    requires WellFormed(t) && '/' !in name
    ensures WellFormed(Assign(t, name, mtime, size))
  {
    var k := SlotFor(t, name);
    var u := Assign(t, name, mtime, size);
    if k >= 0 {
      assert u[k].name == name;
      assert forall i :: 0 <= i < |t| && i != k ==> u[i] == t[i];
      assert forall i :: 0 <= i < |t| && i != k && name != "" ==> t[i].name != name by {
        if Find(t, name) >= 0 { assert t[k].name == name; }
      }
      assert forall i :: 0 <= i < k ==> t[i].name != "" || name == "";
    }
  }

  /** Any other name is found as before. */
  lemma AssignLeavesOthers(t: Table, name: string, mtime: int, size: int, n: string)
    requires WellFormed(t) && name != "" && '/' !in name && Assigns(t, name) && n != name && n != ""
    ensures Find(Assign(t, name, mtime, size), n) == Find(t, n)
    ensures Find(t, n) >= 0 ==> Assign(t, name, mtime, size)[Find(t, n)] == t[Find(t, n)]
  {
    var u := Assign(t, name, mtime, size);
    AssignKeepsShape(t, name, mtime, size);
    var i := Find(t, n);
    if i >= 0 {
      assert u[i] == t[i];
      FoundAt(u, i);
    } else {
      forall j | 0 <= j < |t| ensures u[j].name != n {
        assert u[j].name == name || u[j].name == t[j].name;
      }
    }
  }

  lemma AssignFindsItself(t: Table, name: string, mtime: int, size: int)
    requires WellFormed(t) && name != "" && '/' !in name && Assigns(t, name)
    ensures Find(Assign(t, name, mtime, size), name) == SlotFor(t, name)
  {
    AssignKeepsShape(t, name, mtime, size);
    FoundAt(Assign(t, name, mtime, size), SlotFor(t, name));
  }

  lemma EntryAfterAssign(t: Table, name: string, mtime: int, size: int, n: string)
    requires WellFormed(t) && name != "" && '/' !in name && Assigns(t, name)
    ensures var u := Assign(t, name, mtime, size);
      var queue := if name in Entries(t) then Entries(t)[name].lock else t[Find(t, "")].lock;
      (n in Entries(u) <==> n == name || n in Entries(t))
      && (n in Entries(u) ==> Entries(u)[n] == if n == name then FileInfo(name, mtime, size, queue) else Entries(t)[n])
  {
    NamesAreFound(t, n);
    NamesAreFound(Assign(t, name, mtime, size), n);
    if n == name {
      AssignFindsItself(t, name, mtime, size);
    } else if n != "" {
      AssignLeavesOthers(t, name, mtime, size, n);
    }
  }

  /** With a plain name, `assignNewFile` is insertion or update in the map; a new record starts
      with the queue the vacant slot kept, an old one keeps its own. */
  lemma AssignRefinesInsert(t: Table, name: string, mtime: int, size: int)
    requires WellFormed(t) && name != "" && '/' !in name && Assigns(t, name)
    ensures var queue := if name in Entries(t) then Entries(t)[name].lock else t[Find(t, "")].lock;
      Entries(Assign(t, name, mtime, size)) == Entries(t)[name := FileInfo(name, mtime, size, queue)]
  {
    hide Entries, Assign, Find, WellFormed;
    var u := Assign(t, name, mtime, size);
    forall n ensures (n in Entries(u) <==> n == name || n in Entries(t))
      && (n != name && n in Entries(t) ==> Entries(u)[n] == Entries(t)[n]) {
      EntryAfterAssign(t, name, mtime, size, n);
    }
    EntryAfterAssign(t, name, mtime, size, name);
  }

  /** A name with a directory part breaks distinctness exactly when its base name is already
      there, there is room, and the base name is not empty: the search uses the whole path. */
  lemma AssignKeepsShapeIff(t: Table, fileName: string, mtime: int, size: int)
    requires WellFormed(t) && forall f :: f in t ==> '/' !in f.name
    ensures WellFormed(Assign(t, fileName, mtime, size)) <==>
      '/' !in fileName || !Assigns(t, fileName) || Base(fileName) !in Entries(t)
  {
    var k := SlotFor(t, fileName);
    var u := Assign(t, fileName, mtime, size);
    NamesAreFound(t, Base(fileName));
    if k >= 0 {
      assert u[k].name == Base(fileName);
      assert forall i :: 0 <= i < |t| && i != k ==> u[i] == t[i];
      if '/' in fileName {
        assert k == Find(t, "") by { assert forall i :: 0 <= i < |t| ==> t[i] in t; }
        if Has(t, Base(fileName)) {
          var b := Find(t, Base(fileName));
          assert u[b].name == u[k].name != "";
          assert b != k;
          assert !DistinctNames(u);
        } else {
          assert forall i :: 0 <= i < |t| && t[i].name != "" ==> t[i].name != Base(fileName) by {
            forall i | 0 <= i < |t| && t[i].name == Base(fileName) ensures t[i].name == "" {}
          }
        }
      }
    }
  }

  // ---- deleteFile ----

  /** `deleteFile`'s table update: nothing happens unless there is a vacant slot to stop at;
      the last record moves into the hole and its old slot loses only its name. With a single
      record it is that record's name that goes. */
  function Remove(t: Table, name: string): Table {
    var k, v := Find(t, name), Find(t, "");
    if k < 0 || v <= 0 || (v > 1 && k >= v) then t
    else t[(if v == 1 then 0 else k) := t[v - 1]][v - 1 := t[v - 1].(name := "")]
  }

  lemma RemoveAbsent(t: Table, name: string)
    requires Find(t, name) < 0
    ensures Remove(t, name) == t
  {
  }

  /** The table is full: every slot has a name. */
  ghost predicate Full(t: seq<FileInfo>) {
    Find(t, "") < 0
  }

  /** What deletion does slot by slot: the hole gets the last record, the last slot loses its name. */
  lemma RemoveAt(t: Table, name: string)
    requires WellFormed(t) && Has(t, name) && !Full(t)
    ensures var k, v, u := Find(t, name), Find(t, ""), Remove(t, name);
      0 <= k < v <= |t| && u[v - 1].name == "" && u[v - 1].lock == t[v - 1].lock
      && (k < v - 1 ==> u[k] == t[v - 1])
      && (forall i :: 0 <= i < |t| && i != k && i != v - 1 ==> u[i] == t[i])
  {
    PrefixNamed(t, Find(t, name));
    CountIsPrefix(t, |t|);
  }

  lemma RemoveKeepsShape(t: Table, name: string)
    requires WellFormed(t)
    ensures WellFormed(Remove(t, name))
  {
    if name == "" && Find(t, "") == 1 {
      assert forall i :: 0 <= i < |t| ==> Remove(t, name)[i].name == "";
    } else if Has(t, name) && !Full(t) {
      RemoveAt(t, name);
      var k, v, u := Find(t, name), Find(t, ""), Remove(t, name);
      RemovedShape(t, u, k, v);
    }
  }

  lemma RemovedShape(t: Table, u: Table, k: nat, v: nat)
    requires WellFormed(t) && k < v <= |t|
    requires forall i :: v <= i < |t| ==> t[i].name == ""
    requires forall i :: 0 <= i < v ==> t[i].name != ""
    requires u[v - 1].name == "" && (k < v - 1 ==> u[k] == t[v - 1])
    requires forall i :: 0 <= i < |t| && i != k && i != v - 1 ==> u[i] == t[i]
    ensures WellFormed(u)
  {
    assert forall i :: v - 1 <= i < |u| ==> u[i].name == "";
    assert forall i :: 0 <= i < v - 1 && i != k ==> u[i].name == t[i].name;
  }

  /** Any other name is found where it was, or in the hole when it was the last record. */
  lemma RemoveLeavesOthers(t: Table, name: string, n: string)
    requires WellFormed(t) && Has(t, name) && !Full(t) && n != name && n != ""
    ensures var i, v := Find(t, n), Find(t, "");
      Find(Remove(t, name), n) == if i == v - 1 then Find(t, name) else i
    ensures Find(t, n) >= 0 ==> Find(Remove(t, name), n) >= 0 && Remove(t, name)[Find(Remove(t, name), n)] == t[Find(t, n)]
  {
    RemoveAt(t, name);
    RemoveKeepsShape(t, name);
    var k, v, u := Find(t, name), Find(t, ""), Remove(t, name);
    var i := Find(t, n);
    if i >= 0 {
      FoundAt(u, if i == v - 1 then k else i);
    } else {
      forall j | 0 <= j < |t| ensures u[j].name != n {
        assert u[j].name == "" || u[j].name == t[if j == k then v - 1 else j].name;
      }
    }
  }

  lemma RemoveForgets(t: Table, name: string)
    requires WellFormed(t) && Has(t, name) && !Full(t)
    ensures Find(Remove(t, name), name) < 0
  {
    RemoveAt(t, name);
    var k, v, u := Find(t, name), Find(t, ""), Remove(t, name);
    forall j | 0 <= j < |t| ensures u[j].name != name {
      assert u[j].name == "" || u[j].name == t[if j == k then v - 1 else j].name;
    }
  }

  lemma EntryAfterRemove(t: Table, name: string, n: string)
    requires WellFormed(t) && Has(t, name) && !Full(t)
    ensures var u := Remove(t, name);
      (n in Entries(u) <==> n != name && n in Entries(t)) && (n in Entries(u) ==> Entries(u)[n] == Entries(t)[n])
  {
    NamesAreFound(t, n);
    NamesAreFound(Remove(t, name), n);
    if n == name {
      RemoveForgets(t, name);
    } else if n != "" {
      RemoveLeavesOthers(t, name, n);
    }
  }

  lemma RemoveRefines(t: Table, name: string)
    requires WellFormed(t) && Has(t, name) && !Full(t)
    ensures Entries(Remove(t, name)) == Entries(t) - {name}
  {
    hide Entries, Remove, Has, Full, WellFormed;
    forall n ensures (n in Entries(Remove(t, name)) <==> n != name && n in Entries(t))
      && (n in Entries(Remove(t, name)) ==> Entries(Remove(t, name))[n] == Entries(t)[n]) {
      EntryAfterRemove(t, name, n);
    }
  }

  /** Deletion is removal from the map exactly when the name is absent or some slot is vacant:
      a full table keeps the deleted name. Every surviving name keeps its whole record,
      lock queue included. */
  lemma RemoveRefinesIff(t: Table, name: string)
    requires WellFormed(t) && name != ""
    ensures Entries(Remove(t, name)) == Entries(t) - {name} <==> name !in Entries(t) || !Full(t)
    ensures Full(t) ==> Remove(t, name) == t
  {
    NamesAreFound(t, name);
    if name !in Entries(t) {
      assert Entries(t) - {name} == Entries(t);
    } else if Full(t) {
      assert name !in Entries(t) - {name};
    } else {
      RemoveRefines(t, name);
    }
  }

  /** A full table never loses a name again, whatever is uploaded or deleted. */
  lemma FullStaysFull(t: Table, name: string, mtime: int, size: int)
    requires WellFormed(t) && Full(t) && name != "" && '/' !in name
    ensures Full(Remove(t, name)) && Names(Remove(t, name)) == Names(t)
    ensures Full(Assign(t, name, mtime, size)) && Names(Assign(t, name, mtime, size)) == Names(t)
  {
    var u := Assign(t, name, mtime, size);
    forall n ensures n in Names(u) <==> n in Names(t) {
      NamesAreFound(t, n);
      NamesAreFound(u, n);
      if n in Names(t) { assert u[Find(t, n)].name == n; }
      if n in Names(u) { assert t[Find(u, n)].name == n; }
    }
    forall i | 0 <= i < |u| ensures u[i].name != "" {}
  }
}
