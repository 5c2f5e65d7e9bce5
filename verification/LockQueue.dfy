/** The lock queue of one file: the sockets that asked for it, in the order they asked.
    The head holds the lock. */
module LockQueue {

  /** `CP_CLIENT_GET_FILE_LOCK_SUCCESS`. */
  const LOCK_SUCCESS: int := 30

  ghost predicate NoDuplicates(q: seq<int>) {
    forall i, j :: 0 <= i < j < |q| ==> q[i] != q[j]
  }

  /** The queue without one socket, the others in their order. */
  function Without(q: seq<int>, s: int): (r: seq<int>)
    ensures s !in r
    ensures forall x :: x in r <==> x in q && x != s
  {
    if q == [] then []
    else if q[0] == s then Without(q[1..], s)
    else [q[0]] + Without(q[1..], s)
  }

  function Enqueue(q: seq<int>, s: int): seq<int> {
    if s in q then q else q + [s]
  }

  /** What `lockFile` answers once the socket is queued: the success code to the head, the
      length of the queue to everyone else. */
  function LockReply(q: seq<int>, s: int): int
    requires s in q
  {
    if q[0] == s then LOCK_SUCCESS else |q|
  }

  /** The value the client's `lockFile` returns: 0 for the success code, else the number received. The watcher
      takes 0 for the lock. */
  function LockResult(reply: int): int {
    if reply == LOCK_SUCCESS then 0 else reply
  }

  /** Where `s` was last seen among the first `n`, or -1. */
  function LastBelow(q: seq<int>, s: int, n: nat): (k: int)
    requires n <= |q|
    ensures -1 <= k < n
    ensures k >= 0 ==> q[k] == s
    ensures forall j :: k < j < n ==> q[j] != s
  {
    if n == 0 then -1 else if q[n - 1] == s then n - 1 else LastBelow(q, s, n - 1)
  }

  function LastIndex(q: seq<int>, s: int): (k: int)
    ensures -1 <= k < |q|
    ensures k < 0 <==> s !in q
  {
    LastBelow(q, s, |q|)
  }

  /** `unlockFile`: one occurrence leaves, the last one. */
  function Release(q: seq<int>, s: int): seq<int> {
    var k := LastIndex(q, s);
    if k < 0 then q else q[..k] + q[k + 1..]
  }

  /** `logOutClient`'s loop over one queue. It erases at the index it is looking at and then
      steps on, so whatever followed an erased socket is never looked at. */
  function SkippingErase(q: seq<int>, s: int): seq<int> {
    if q == [] then []
    else if q[0] == s then q[1..][..if |q| > 1 then 1 else 0] + SkippingErase(q[if |q| > 1 then 2 else 1..], s)
    else [q[0]] + SkippingErase(q[1..], s)
  }

  lemma EraseOnly(s: int)
    ensures SkippingErase([s], s) == []
  {
    assert [s][1..] == [];
    assert SkippingErase([s][1..], s) == [];
  }

  ghost predicate NeverTwiceInARow(q: seq<int>, s: int) {
    forall i :: 0 <= i < |q| - 1 ==> !(q[i] == s && q[i + 1] == s)
  }

  lemma NeverTwiceInTail(q: seq<int>, n: nat, s: int)
    requires n <= |q|
    requires forall i :: 0 <= i < n && i + 1 < |q| ==> !(q[i] == s && q[i + 1] == s)
    ensures NeverTwiceInARow(q, s) <==> NeverTwiceInARow(q[n..], s)
  {
    var tail := q[n..];
    if NeverTwiceInARow(tail, s) {
      forall i | 0 <= i < |q| - 1 ensures !(q[i] == s && q[i + 1] == s) {
        if i >= n { assert tail[i - n] == q[i] && tail[i - n + 1] == q[i + 1]; }
      }
    } else {
      var i :| 0 <= i < |tail| - 1 && tail[i] == s && tail[i + 1] == s;
      assert q[n + i] == s && q[n + i + 1] == s;
    }
  }

  lemma ErasesAndSkips(q: seq<int>, s: int)
    requires |q| >= 2 && q[0] == s
    ensures SkippingErase(q, s) == [q[1]] + SkippingErase(q[2..], s)
    ensures q[1] != s ==> Without(q, s) == [q[1]] + Without(q[2..], s)
  {
    assert q[1..][..1] == [q[1]] && q[1..][1..] == q[2..];
  }

  lemma KeepsFirst(q: seq<int>, s: int)
    requires q != [] && q[0] != s
    ensures SkippingErase(q, s) == [q[0]] + SkippingErase(q[1..], s)
    ensures Without(q, s) == [q[0]] + Without(q[1..], s)
  {
  }

  /** The loop removes every occurrence exactly when the socket never stands twice in a row. */
  lemma {:induction false} SkippingEraseCleansIff(q: seq<int>, s: int)
    ensures s !in SkippingErase(q, s) <==> NeverTwiceInARow(q, s)
    ensures NeverTwiceInARow(q, s) ==> SkippingErase(q, s) == Without(q, s)
  {
    if q == [] {
    } else if q[0] != s {
      KeepsFirst(q, s);
      SkippingEraseCleansIff(q[1..], s);
      NeverTwiceInTail(q, 1, s);
      hide SkippingErase, Without, NeverTwiceInARow;
    } else if |q| == 1 {
      assert q == [s];
      EraseOnly(s);
      WithoutOnly(s);
    } else {
      ErasesAndSkips(q, s);
      if q[1] == s {
        assert !NeverTwiceInARow(q, s);
        hide SkippingErase, Without;
      } else {
        SkippingEraseCleansIff(q[2..], s);
        NeverTwiceInTail(q, 2, s);
        hide SkippingErase, Without, NeverTwiceInARow;
      }
    }
  }

  lemma EnqueueKeepsDistinct(q: seq<int>, s: int)
    requires NoDuplicates(q)
    ensures NoDuplicates(Enqueue(q, s))
  {
  }

  lemma {:induction false} WithoutKeepsDistinct(q: seq<int>, s: int)
    requires NoDuplicates(q)
    ensures NoDuplicates(Without(q, s)) && |Without(q, s)| <= |q|
  {
    if q != [] {
      WithoutKeepsDistinct(q[1..], s);
      assert forall x :: x in Without(q[1..], s) ==> x in q[1..];
      assert q[0] !in q[1..];
    }
  }

  lemma {:induction false} WithoutAbsent(q: seq<int>, s: int)
    requires s !in q
    ensures Without(q, s) == q
  {
    if q != [] { WithoutAbsent(q[1..], s); }
  }

  lemma {:induction false} WithoutSplit(a: seq<int>, b: seq<int>, s: int)
    ensures Without(a + b, s) == Without(a, s) + Without(b, s)
  {
    if a == [] {
      assert a + b == b;
    } else {
      WithoutSplit(a[1..], b, s);
      assert (a + b)[1..] == a[1..] + b && (a + b)[0] == a[0];
    }
  }

  /** In a queue without duplicates, unlocking and logging out both take the one socket out. */
  lemma ReleaseIsWithout(q: seq<int>, s: int)
    requires NoDuplicates(q)
    ensures Release(q, s) == Without(q, s) == SkippingErase(q, s)
  {
    SkippingEraseCleansIff(q, s);
    var k := LastIndex(q, s);
    if k < 0 {
      WithoutAbsent(q, s);
    } else {
      AloneInIt(q, k);
      OneWithout(q[..k], s, q[k + 1..]);
    }
  }

  lemma AloneInIt(q: seq<int>, k: nat)
    requires NoDuplicates(q) && k < |q|
    ensures q[k] !in q[..k] && q[k] !in q[k + 1..] && q == q[..k] + ([q[k]] + q[k + 1..])
  {
  }

  lemma OneWithout(a: seq<int>, s: int, b: seq<int>)
    requires s !in a && s !in b
    ensures Without(a + ([s] + b), s) == a + b
  {
    WithoutAbsent(a, s);
    WithoutAbsent(b, s);
    WithoutOnly(s);
    hide Without;
    WithoutSplit(a, [s] + b, s);
    WithoutSplit([s], b, s);
    assert [] + b == b;
  }

  lemma WithoutOnly(s: int)
    ensures Without([s], s) == []
  {
    assert [s][1..] == [];
  }

  /** The head stays the head when somebody else enters or leaves. */
  lemma HeadStays(q: seq<int>, h: int, s: int)
    requires |q| > 0 && q[0] == h && h != s
    ensures |Enqueue(q, s)| > 0 && Enqueue(q, s)[0] == h
    ensures |Release(q, s)| > 0 && Release(q, s)[0] == h
    ensures |SkippingErase(q, s)| > 0 && SkippingErase(q, s)[0] == h
  {
  }

  // ---- Waiting ----

  /** The sockets in front of `s`. */
  function Ahead(q: seq<int>, s: int): (a: seq<int>)
    ensures s !in a
    ensures forall x :: x in a ==> x in q
  {
    if q == [] || q[0] == s then [] else [q[0]] + Ahead(q[1..], s)
  }

  lemma {:induction false} AheadSplit(a: seq<int>, s: int, b: seq<int>)
    requires s !in a
    ensures Ahead(a + [s] + b, s) == a
  {
    if a == [] {
      assert a + [s] + b == [s] + b;
    } else {
      assert (a + [s] + b)[1..] == a[1..] + [s] + b;
      AheadSplit(a[1..], s, b);
    }
  }

  lemma {:induction false} SplitAtAhead(q: seq<int>, s: int) returns (b: seq<int>)
    requires s in q
    ensures q == Ahead(q, s) + [s] + b
  {
    if q[0] == s {
      b := q[1..];
      assert q == [] + [s] + b;
    } else {
      b := SplitAtAhead(q[1..], s);
      assert q == [q[0]] + (Ahead(q[1..], s) + [s] + b);
    }
  }

  /** Somebody else leaving takes exactly that socket out of those ahead; nobody can push in. */
  lemma AheadAfterLeaving(q: seq<int>, s: int, x: int)
    requires s in q && x != s
    ensures s in Without(q, x) && Ahead(Without(q, x), s) == Without(Ahead(q, s), x)
  {
    hide Ahead;
    assert Without([s], x) == [s] by { assert [s][1..] == []; }
    hide Without;
    var b := SplitAtAhead(q, s);
    var a := Ahead(q, s);
    WithoutSplit(a + [s], b, x);
    WithoutSplit(a, [s], x);
    assert Without(q, x) == Without(a, x) + [s] + Without(b, x);
    AheadSplit(Without(a, x), s, Without(b, x));
  }

  lemma AheadAfterEnqueue(q: seq<int>, s: int, x: int)
    requires s in q
    ensures s in Enqueue(q, x) && Ahead(Enqueue(q, x), s) == Ahead(q, s)
  {
    if x !in q {
      var b := SplitAtAhead(q, s);
      assert q + [x] == Ahead(q, s) + [s] + (b + [x]);
      AheadSplit(Ahead(q, s), s, b + [x]);
    }
  }

  lemma {:induction false} WithoutOne(q: seq<int>, x: int)
    requires NoDuplicates(q)
    ensures |Without(q, x)| == |q| - if x in q then 1 else 0
  {
    if q != [] {
      WithoutOne(q[1..], x);
      assert q[0] !in q[1..];
      assert x in q <==> x == q[0] || x in q[1..];
    }
  }

  lemma AheadDistinct(q: seq<int>, s: int)
    requires s in q && NoDuplicates(q)
    ensures NoDuplicates(Ahead(q, s))
  {
    var b := SplitAtAhead(q, s);
    assert q[..|Ahead(q, s)|] == Ahead(q, s);
  }

  lemma HeadIffNobodyAhead(q: seq<int>, s: int)
    requires s in q
    ensures q[0] == s <==> Ahead(q, s) == []
  {
  }

  // ---- Size ----

  /** A queue without duplicates is no longer than any set its sockets come from. */
  lemma {:induction false} DistinctFits(q: seq<int>, live: set<int>)
    requires NoDuplicates(q) && forall x :: x in q ==> x in live
    ensures |q| <= |live|
  {
    if q != [] {
      var rest := q[1..];
      assert forall x :: x in rest ==> x in live - {q[0]};
      DistinctFits(rest, live - {q[0]});
    }
  }
}
