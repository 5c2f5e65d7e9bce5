/** The five device slots of one user. A slot at or below zero is free. */
module Devices {

  const MAXCONNECTIONS: nat := 5

  type Slots = d: seq<int> | |d| == MAXCONNECTIONS witness [-1, -1, -1, -1, -1]

  function FreeBelow(d: seq<int>, n: nat): (c: nat)
    requires n <= |d|
    ensures c <= n
  {
    if n == 0 then 0 else FreeBelow(d, n - 1) + if d[n - 1] <= 0 then 1 else 0
  }

  function Free(d: seq<int>): nat {
    FreeBelow(d, |d|)
  }

  function FirstFree(d: seq<int>, i: nat): (k: int)
    requires i <= |d|
    ensures k < 0 <==> forall j :: i <= j < |d| ==> d[j] > 0
    ensures k >= 0 ==> i <= k < |d| && d[k] <= 0 && forall j :: i <= j < k ==> d[j] > 0
    decreases |d| - i
  {
    if i == |d| then -1 else if d[i] <= 0 then i else FirstFree(d, i + 1)
  }

  predicate Admits(d: Slots) {
    FirstFree(d, 0) >= 0
  }

  /** `logInClient` for a known user: the first free slot gets the socket. */
  function Occupy(d: Slots, s: int): Slots
    requires Admits(d)
  {
    d[FirstFree(d, 0) := s]
  }

  /** `logOutClient`: wherever the socket is found, it is slot 0 that is freed. */
  function Vacate(d: Slots, s: int): Slots {
    if s in d then d[0 := -1] else d
  }

  lemma {:induction false} FreeAfterUpdate(d: seq<int>, k: nat, x: int, n: nat)
    requires k < |d| && n <= |d|
    ensures FreeBelow(d[k := x], n) - FreeBelow(d, n)
         == if k >= n then 0 else (if x <= 0 then 1 else 0) - (if d[k] <= 0 then 1 else 0)
  {
    if n > 0 { FreeAfterUpdate(d, k, x, n - 1); }
  }

  /** Logging in uses up one free slot, logging out gives back at most one. */
  lemma FreeSlotsMove(d: Slots, s: int)
    requires s > 0
    ensures Admits(d) ==> Free(Occupy(d, s)) == Free(d) - 1
    ensures Free(d) <= Free(Vacate(d, s)) <= Free(d) + 1
    ensures Admits(d) <==> Free(d) > 0
  {
    if Admits(d) { FreeAfterUpdate(d, FirstFree(d, 0), s, |d|); }
    FreeAfterUpdate(d, 0, -1, |d|);
    AllTaken(d, |d|);
  }

  lemma {:induction false} AllTaken(d: seq<int>, n: nat)
    requires n <= |d|
    ensures FreeBelow(d, n) == 0 <==> forall j :: 0 <= j < n ==> d[j] > 0
  {
    if n > 0 { AllTaken(d, n - 1); }
  }
}
