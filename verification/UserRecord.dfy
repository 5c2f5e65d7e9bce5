/** What the server does to the record of one user: its file table with the lock queues,
    and its device slots. */
module UserRecord {
  import opened FileTable
  import opened LockQueue
  import opened Devices

  const UNLOCK_SUCCESS: int := 33
  const UNLOCK_FAIL: int := 34
  const NO_SUCH_FILE: int := 0

  datatype Client = Client(devices: Slots, files: Table)

  function WithLock(t: Table, k: nat, q: seq<int>): Table
    requires k < |t|
  {
    t[k := t[k].(lock := q)]
  }

  /** The table after `lockFile`. */
  function LockIn(t: Table, s: int, path: string): Table {
    var k := Find(t, Base(path));
    if k < 0 then t else WithLock(t, k, Enqueue(t[k].lock, s))
  }

  /** The number `lockFile` sends back. */
  function LockAnswer(t: Table, s: int, path: string): int {
    var k := Find(t, Base(path));
    if k < 0 then NO_SUCH_FILE else LockReply(Enqueue(t[k].lock, s), s)
  }

  /** `lockFile` takes its success branch. */
  predicate Grants(t: Table, s: int, path: string) {
    var k := Find(t, Base(path));
    k >= 0 && Enqueue(t[k].lock, s)[0] == s
  }

  function UnlockIn(t: Table, s: int, path: string): Table {
    var k := Find(t, Base(path));
    if k < 0 then t else WithLock(t, k, Release(t[k].lock, s))
  }

  function UnlockAnswer(t: Table, s: int, path: string): int {
    var k := Find(t, Base(path));
    if k < 0 then NO_SUCH_FILE else if s in t[k].lock then UNLOCK_SUCCESS else UNLOCK_FAIL
  }

  /** `logOutClient` visits the queues of named slots only. */
  function CleanSlot(f: FileInfo, s: int): FileInfo {
    if f.name == "" then f else f.(lock := SkippingErase(f.lock, s))
  }

  function CleanIn(t: Table, s: int): Table {
    seq(|t|, i requires 0 <= i < |t| => CleanSlot(t[i], s))
  }

  // ---- Queues by name ----

  ghost function Queue(t: Table, name: string): seq<int>
    requires Has(t, name)
  {
    t[Find(t, name)].lock
  }

  ghost predicate SameNames(t: Table, u: Table) {
    forall i :: 0 <= i < |t| ==> t[i].name == u[i].name
  }

  /** Only the names decide where a search ends and whether a table is well formed. */
  lemma NamesDecide(t: Table, u: Table, name: string)
    requires SameNames(t, u)
    ensures Find(t, name) == Find(u, name)
    ensures WellFormed(t) ==> WellFormed(u)
  {
    if Find(t, name) >= 0 { assert u[Find(t, name)].name == name; }
    if Find(u, name) >= 0 { assert t[Find(u, name)].name == name; }
  }

  ghost predicate QueuesDistinct(t: Table) {
    forall f :: f in t ==> NoDuplicates(f.lock)
  }
}
