/** Runs of all the servers: leaders crash, the others notice in their own time. */
module Leaders {
  import opened Succession

  /** A server of the list: up or down, its place, and the lost connections it has yet to notice. */
  datatype Member = Member(up: bool, place: Place, unseen: nat)

  /** `lost` is the number of leaders that have crashed. Member `i` was number `i + 1` of the list. */
  datatype Group = Group(members: seq<Member>, lost: nat)

  function AtStart(n: nat): (g: Group)
    ensures |g.members| == n && g.lost == 0
    ensures forall i :: 0 <= i < n ==> g.members[i] == Member(true, Place(i + 1, 0, i == 0), 0)
  {
    Group(seq(n, i => Member(true, Place(i + 1, 0, i == 0), 0)), 0)
  }

  /** A crash; a follower handling the loss of its leader; and a follower closing its connection
      for another reason, as when the leader passes a client's `CP_CLIENT_END_CONNECTION` on to it. */
  datatype Event = Crash(i: nat) | Notice(i: nat) | Close(i: nat)

  predicate IsLeader(g: Group, i: nat) {
    i < |g.members| && g.members[i].up && g.members[i].place.leads
  }

  predicate Follows(g: Group, i: nat) {
    i < |g.members| && g.members[i].up && !g.members[i].place.leads
  }

  predicate Enabled(g: Group, e: Event) {
    match e
    case Crash(i) => i < |g.members| && g.members[i].up
    case Notice(i) => Follows(g, i) && g.members[i].unseen > 0
    case Close(i) => Follows(g, i)
  }

  function AfterCrash(m: Member, itself: bool, leader: bool): Member {
    if itself then m.(up := false)
    else if leader && m.up && !m.place.leads then m.(unseen := m.unseen + 1)
    else m
  }

  function Step(g: Group, e: Event): (h: Group)
    requires Enabled(g, e)
    ensures |h.members| == |g.members|
  {
    match e
    case Crash(i) =>
      Group(seq(|g.members|, j requires 0 <= j < |g.members| => AfterCrash(g.members[j], j == i, IsLeader(g, i))),
        g.lost + if IsLeader(g, i) then 1 else 0)
    case Notice(i) =>
      g.(members := g.members[i := g.members[i].(place := Closed(g.members[i].place), unseen := g.members[i].unseen - 1)])
    case Close(i) =>
      g.(members := g.members[i := g.members[i].(place := Closed(g.members[i].place))])
  }

  predicate Possible(g: Group, es: seq<Event>)
    decreases |es|
  {
    es == [] || (Enabled(g, es[0]) && Possible(Step(g, es[0]), es[1..]))
  }

  function Run(g: Group, es: seq<Event>): Group
    requires Possible(g, es)
    decreases |es|
  {
    if es == [] then g else Run(Step(g, es[0]), es[1..])
  }

  /** No follower closes its connection but for the loss of a leader. */
  predicate OnlyLosses(es: seq<Event>) {
    forall e :: e in es ==> !e.Close?
  }

  /** A live server's position and offset add up to its place, and it leads exactly at position 1. A
      live follower has counted, or is yet to notice, exactly the leaders that crashed; they were the
      first of the list. */
  ghost predicate MemberCounts(g: Group, i: nat)
    requires i < |g.members|
  {
    var p := g.members[i].place;
    && (i < g.lost ==> !g.members[i].up)
    && (g.members[i].up ==> p.position + p.offset == i + 1 && p.position >= 1 && (p.leads <==> p.position == 1))
    && (Follows(g, i) ==> p.offset + g.members[i].unseen == g.lost)
    && (IsLeader(g, i) ==> i == g.lost)
  }

  ghost predicate Counted(g: Group) {
    forall i :: 0 <= i < |g.members| ==> MemberCounts(g, i)
  }

  lemma StepKeepsCounted(g: Group, e: Event)
    requires Counted(g) && Enabled(g, e) && !e.Close?
    ensures Counted(Step(g, e))
  {
    var h := Step(g, e);
    assert MemberCounts(g, e.i);
    forall i | 0 <= i < |h.members| ensures MemberCounts(h, i) {
      assert MemberCounts(g, i);
    }
  }

  lemma {:induction false} RunKeepsCounted(g: Group, es: seq<Event>)
    requires Counted(g) && Possible(g, es) && OnlyLosses(es)
    ensures Counted(Run(g, es)) && |Run(g, es).members| == |g.members|
    decreases |es|
  {
    if es != [] {
      assert es[0] in es;
      StepKeepsCounted(g, es[0]);
      assert forall e :: e in es[1..] ==> e in es;
      RunKeepsCounted(Step(g, es[0]), es[1..]);
    }
  }

  /** Safety over every run of crashes, in any order, each noticed by each follower whenever it likes:
      every live follower has counted or is yet to count the same `k` losses, and any live leader is the server that stood at
      place `k + 1`. So there are never two. */
  lemma AtMostOneLeader(n: nat, es: seq<Event>, i: nat, j: nat)
    requires Possible(AtStart(n), es) && OnlyLosses(es)
    ensures var g := Run(AtStart(n), es);
      (Follows(g, i) ==> g.members[i].place.offset + g.members[i].unseen == g.lost)
      && (IsLeader(g, i) ==> i == g.lost)
      && (IsLeader(g, i) && IsLeader(g, j) ==> i == j)
  {
    RunKeepsCounted(AtStart(n), es);
    var g := Run(AtStart(n), es);
    assert i < n ==> MemberCounts(g, i);
    assert j < n ==> MemberCounts(g, j);
  }

  ghost predicate AllNoticed(g: Group) {
    forall i: nat :: Follows(g, i) ==> g.members[i].unseen == 0
  }

  /** Once everybody has noticed everything, somebody leads exactly if the server whose turn it is
      is up: a server that crashed before its turn is waited for for ever. */
  lemma SomebodyLeadsIff(n: nat, es: seq<Event>)
    requires Possible(AtStart(n), es) && OnlyLosses(es) && AllNoticed(Run(AtStart(n), es))
    ensures var g := Run(AtStart(n), es);
      |g.members| == n && ((exists i: nat :: IsLeader(g, i)) <==> g.lost < n && g.members[g.lost].up)
  {
    var g := Run(AtStart(n), es);
    RunKeepsCounted(AtStart(n), es);
    if g.lost < n && g.members[g.lost].up {
      assert MemberCounts(g, g.lost);
      assert Follows(g, g.lost) || IsLeader(g, g.lost);
      assert IsLeader(g, g.lost);
    }
    if i: nat :| IsLeader(g, i) { assert MemberCounts(g, i); }
  }

  /** Every crash is the leader's. */
  predicate LeadersCrash(g: Group, es: seq<Event>)
    requires Possible(g, es)
    decreases |es|
  {
    es == [] || ((es[0].Crash? ==> IsLeader(g, es[0].i)) && LeadersCrash(Step(g, es[0]), es[1..]))
  }

  lemma {:induction false} OnlyLeadersDown(g: Group, es: seq<Event>)
    requires Counted(g) && Possible(g, es) && OnlyLosses(es) && LeadersCrash(g, es)
    requires forall i :: 0 <= i < |g.members| ==> (g.members[i].up <==> i >= g.lost)
    ensures var h := Run(g, es); |h.members| == |g.members| && forall i :: 0 <= i < |h.members| ==> (h.members[i].up <==> i >= h.lost)
    decreases |es|
  {
    if es != [] {
      assert es[0] in es;
      assert MemberCounts(g, es[0].i);
      StepKeepsCounted(g, es[0]);
      assert forall e :: e in es[1..] ==> e in es;
      OnlyLeadersDown(Step(g, es[0]), es[1..]);
    }
  }

  /** If the servers crash in list order, each when it leads, the first one left leads once the
      losses are noticed, alone. */
  lemma ExactlyOneLeader(n: nat, es: seq<Event>)
    requires Possible(AtStart(n), es) && OnlyLosses(es) && LeadersCrash(AtStart(n), es)
    requires AllNoticed(Run(AtStart(n), es)) && Run(AtStart(n), es).lost < n
    ensures var g := Run(AtStart(n), es); forall i: nat :: IsLeader(g, i) <==> i == g.lost
  {
    var g := Run(AtStart(n), es);
    RunKeepsCounted(AtStart(n), es);
    OnlyLeadersDown(AtStart(n), es);
    SomebodyLeadsIff(n, es);
    var l: nat :| IsLeader(g, l);
    assert MemberCounts(g, l);
    forall i: nat ensures IsLeader(g, i) <==> i == g.lost {
      if IsLeader(g, i) { assert MemberCounts(g, i); }
    }
  }

  // ---- What a client's logout does ----

  /** A follower that closes its connection without a loss leads at once exactly if it was next in
      line by its own count; the leader knows nothing of it. */
  lemma CloseMakesLeaderIff(g: Group, i: nat)
    requires Counted(g) && Follows(g, i)
    ensures IsLeader(Step(g, Close(i)), i) <==> g.members[i].place.position == 2
    ensures forall j :: j != i ==> (IsLeader(Step(g, Close(i)), j) <==> IsLeader(g, j))
  {
  }

  /** The followers from `i` on, each of which closes when it reads the `CP_CLIENT_END_CONNECTION` that the
      leader passes on to it. */
  function Closes(g: Group, i: nat): (es: seq<Event>)
    decreases |g.members| - i
  {
    if i >= |g.members| then [] else (if Follows(g, i) then [Close(i)] else []) + Closes(g, i + 1)
  }

  /** The members from `i` on have closed, the others are as in `g`. */
  ghost predicate ClosedFrom(g: Group, h: Group, i: nat) {
    |h.members| == |g.members| && h.lost == g.lost
    && forall j :: 0 <= j < |g.members| ==>
         h.members[j] == if j >= i && Follows(g, j) then g.members[j].(place := Closed(g.members[j].place)) else g.members[j]
  }

  lemma {:induction false} ClosesAll(g: Group, h: Group, i: nat)
    requires i <= |g.members| == |h.members| && h.lost == g.lost
    requires forall j :: i <= j < |g.members| ==> h.members[j] == g.members[j]
    ensures Possible(h, Closes(g, i)) && ClosedFrom(h, Run(h, Closes(g, i)), i)
    decreases |g.members| - i
  {
    if i < |g.members| {
      if Follows(g, i) {
        var k := Step(h, Close(i));
        ClosesAll(g, k, i + 1);
        assert Closes(g, i)[0] == Close(i) && Closes(g, i)[1..] == Closes(g, i + 1);
      } else {
        ClosesAll(g, h, i + 1);
        assert Closes(g, i) == Closes(g, i + 1);
      }
    }
  }

  /** The end of any client's session makes a second leader, exactly if the server next in line is up. */
  lemma LogOutMakesTwoLeadersIff(g: Group, l: nat)
    requires Counted(g) && AllNoticed(g) && IsLeader(g, l)
    ensures Possible(g, Closes(g, 0))
    ensures forall i: nat :: IsLeader(Run(g, Closes(g, 0)), i) <==> i == l || (i == l + 1 && Follows(g, i))
  {
    ClosesAll(g, g, 0);
    assert MemberCounts(g, l);
    forall i: nat ensures IsLeader(Run(g, Closes(g, 0)), i) <==> i == l || (i == l + 1 && Follows(g, i)) {
      if i < |g.members| { assert MemberCounts(g, i); }
    }
  }
}
