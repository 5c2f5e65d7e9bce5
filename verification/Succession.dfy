/** Who leads: every server counts the leaders it has lost, and the first of the list left leads. */
module Succession {

  type HostPort = (string, int)

  /** A connection of the leader to another server; `live` is the flag that the tee looks at. */
  datatype Link = Link(to: HostPort, live: bool)

  /** What a server knows of its place. */
  datatype Place = Place(position: int, offset: int, leads: bool)

  /** `closeConnection`, on any server. */
  function Closed(p: Place): Place {
    if p.leads then p else Place(p.position - 1, p.offset + 1, p.position - 1 == 1)
  }

  /** Where `me` last stands in the list, counted from one; `before` if it does not. */
  function LastPosition(list: seq<HostPort>, me: HostPort, before: int): int
    decreases |list|
  {
    if list == [] then before
    else if list[|list| - 1] == me then |list|
    else LastPosition(list[..|list| - 1], me, before)
  }

  /** After some entry among the first `m`, the position held is 1. */
  ghost predicate PassesFirst(list: seq<HostPort>, m: nat, me: HostPort, before: int)
    requires m <= |list|
  {
    exists n :: 0 < n <= m && LastPosition(list[..n], me, before) == 1
  }

  ghost predicate StandsOnce(list: seq<HostPort>, me: HostPort, at: nat) {
    at < |list| && list[at] == me && forall i :: 0 <= i < |list| && i != at ==> list[i] != me
  }

  lemma {:induction false} StandsOnceThere(list: seq<HostPort>, me: HostPort, at: nat, before: int)
    requires StandsOnce(list, me, at)
    ensures LastPosition(list, me, before) == at + 1
  {
    if at != |list| - 1 {
      StandsOnceThere(list[..|list| - 1], me, at, before);
    }
  }

  /** What a server that takes over is to have: a link to every listed server but itself, in list
      order, live where the connection succeeded. */
  function LinksTo(list: seq<HostPort>, n: nat, own: int, reached: seq<bool>): (links: seq<Link>)
    requires n <= |list| == |reached|
  {
    if n == 0 then []
    else LinksTo(list, n - 1, own, reached) + if own == n then [] else [Link(list[n - 1], reached[n - 1])]
  }

  /** Exactly one link per other server, in list order, flagged as the connection went. */
  lemma {:induction false} OneLinkEach(list: seq<HostPort>, n: nat, own: int, reached: seq<bool>)
    requires n <= |list| == |reached| && own >= 1
    ensures var links := LinksTo(list, n, own, reached);
      |links| == (if own <= n then n - 1 else n)
      && forall k :: 0 <= k < |links| ==>
           links[k] == Link(list[if k < own - 1 then k else k + 1], reached[if k < own - 1 then k else k + 1])
  {
    if n > 0 { OneLinkEach(list, n - 1, own, reached); }
  }

  ghost predicate LinksEveryOther(list: seq<HostPort>, at: nat, links: seq<Link>) {
    && at < |list| && |links| == |list| - 1
    && forall k :: 0 <= k < |links| ==> links[k].to == list[if k < at then k else k + 1]
  }

  function TeeStep(links: seq<Link>, ok: seq<bool>): (r: seq<Link>)
    requires |ok| == |links|
    ensures |r| == |links|
  {
    seq(|links|, i requires 0 <= i < |links| => links[i].(live := links[i].live && ok[i]))
  }

  ghost function TeeSteps(links: seq<Link>, steps: seq<seq<bool>>): (r: seq<Link>)
    requires forall ok :: ok in steps ==> |ok| == |links|
    ensures |r| == |links|
    decreases |steps|
  {
    if steps == [] then links else TeeStep(TeeSteps(links, steps[..|steps| - 1]), steps[|steps| - 1])
  }

  /** Whatever the handlers go through, the list keeps its servers, and a link whose flag once was 0
      stays at 0: it is live exactly if it was from the start and no step on it failed. */
  lemma {:induction false} FlagsOnlyFall(links: seq<Link>, steps: seq<seq<bool>>, k: nat)
    requires k < |links| && forall ok :: ok in steps ==> |ok| == |links|
    ensures TeeSteps(links, steps)[k] == links[k].(live := links[k].live && forall ok :: ok in steps ==> ok[k])
    decreases |steps|
  {
    if steps != [] {
      FlagsOnlyFall(links, steps[..|steps| - 1], k);
      assert steps == steps[..|steps| - 1] + [steps[|steps| - 1]];
      assert forall ok :: ok in steps <==> ok in steps[..|steps| - 1] || ok == steps[|steps| - 1];
    }
  }

  /** The part of a server that takes part in the succession. */
  class ServerPlace {
    const serverList: seq<HostPort>
    const myHostPort: HostPort
    var myPosition: int
    var offset: int
    var imLeader: bool
    var socketsList: seq<Link>

    ghost function Contents(): Place
      reads this
    {
      Place(myPosition, offset, imLeader)
    }

    /** Position and offset always add up to the server's place in the list; a follower has no links, and a
        leader exactly one to each other listed server, in list order. */
    ghost predicate Valid(at: nat)
      reads this
    {
      && StandsOnce(serverList, myHostPort, at)
      && myPosition + offset == at + 1 && myPosition >= 1 && offset >= 0
      && (imLeader <==> myPosition == 1)
      && (!imLeader ==> socketsList == [])
      && (imLeader ==> LinksEveryOther(serverList, at, socketsList))
    }

    constructor (list: seq<HostPort>, me: HostPort, garbage: int)
      ensures serverList == list && myHostPort == me && socketsList == []
      ensures Contents() == Place(garbage, 0, false)
    {
      serverList, myHostPort := list, me;
      myPosition, offset, imLeader, socketsList := garbage, 0, false, [];
    }

    /** `get_serverListPosition`. The position is not set before the loop: a leftover value of 1 would
        make any server a leader. */
    method GetServerListPosition()
      modifies `myPosition, `imLeader
      ensures myPosition == LastPosition(serverList, myHostPort, old(myPosition))
      ensures imLeader == (old(imLeader) || PassesFirst(serverList, |serverList|, myHostPort, old(myPosition)))
    {
      var i := 1;
      while i <= |serverList|
        invariant 1 <= i <= |serverList| + 1
        invariant myPosition == LastPosition(serverList[..i - 1], myHostPort, old(myPosition))
        invariant imLeader == (old(imLeader) || PassesFirst(serverList, i - 1, myHostPort, old(myPosition)))
      {
        assert serverList[..i][..i - 1] == serverList[..i - 1];
        if myHostPort == serverList[i - 1] { myPosition := i; }
        if myPosition == 1 { imLeader := true; }
        i := i + 1;
      }
      assert serverList[..|serverList|] == serverList;
    }

    method ElectNewLeader()
      modifies `imLeader
      ensures imLeader == (old(imLeader) || myPosition == 1)
    {
      if myPosition == 1 { imLeader := true; }
    }

    /** `connectToServers`; `reached[i]` says whether connecting to server `i` of the list succeeds. */
    method ConnectToServers(reached: seq<bool>)
      requires |reached| == |serverList|
      modifies `socketsList
      ensures socketsList == old(socketsList)
        + if imLeader then LinksTo(serverList, |serverList|, myPosition + offset, reached) else []
    {
      var i := 1;
      if imLeader {
        while i <= |serverList|
          invariant 1 <= i <= |serverList| + 1
          invariant socketsList == old(socketsList) + LinksTo(serverList, i - 1, myPosition + offset, reached)
        {
          if myPosition + offset != i {
            if reached[i - 1] {
              socketsList := socketsList + [Link(serverList[i - 1], true)];
            } else {
              socketsList := socketsList + [Link(serverList[i - 1], false)];
            }
          }
          i := i + 1;
        }
      }
    }

    /** `closeConnection`. */
    method CloseConnection(reached: seq<bool>)
      requires |reached| == |serverList|
      modifies `myPosition, `offset, `imLeader, `socketsList
      ensures Contents() == Closed(old(Contents()))
      ensures socketsList == old(socketsList)
        + if !old(imLeader) && imLeader then LinksTo(serverList, |serverList|, old(myPosition) + old(offset), reached) else []
      ensures forall at :: old(Valid(at)) ==> Valid(at)
    {
      if !imLeader {
        myPosition := myPosition - 1;
        offset := offset + 1;
        ElectNewLeader();
        if imLeader {
          if myPosition + offset >= 1 { OneLinkEach(serverList, |serverList|, myPosition + offset, reached); }
          ConnectToServers(reached);
        }
      }
    }

    /** One pass over the links, as every handler makes it after a read or a write; `ok[i]` says whether the
        call on link `i` would succeed. */
    method Tee(ok: seq<bool>)
      requires |ok| == |socketsList|
      modifies `socketsList
      ensures socketsList == TeeStep(old(socketsList), ok)
      ensures forall at :: old(Valid(at)) ==> Valid(at)
    {
      var i := 0;
      while i < |socketsList|
        invariant 0 <= i <= |socketsList| == |ok|
        invariant |socketsList| == |old(socketsList)|
        invariant forall j :: 0 <= j < |socketsList| ==>
          socketsList[j] == if j < i then TeeStep(old(socketsList), ok)[j] else old(socketsList)[j]
      {
        if socketsList[i].live {
          if !ok[i] { socketsList := socketsList[i := socketsList[i].(live := false)]; }
        }
        i := i + 1;
      }
      assert socketsList == TeeStep(old(socketsList), ok);
    }

    /** A server that stands once in the list starts out knowing its place. */
    method Start(reached: seq<bool>, ghost at: nat)
      requires StandsOnce(serverList, myHostPort, at) && |reached| == |serverList|
      requires myPosition != 1 && offset == 0 && !imLeader && socketsList == []
      modifies this
      ensures Valid(at) && offset == 0
      ensures socketsList == if at == 0 then LinksTo(serverList, |serverList|, 1, reached) else []
    {
      StandsOnceThere(serverList, myHostPort, at, myPosition);
      StartsAlone(serverList, myHostPort, at, myPosition);
      GetServerListPosition();
      ConnectToServers(reached);
      OneLinkEach(serverList, |serverList|, 1, reached);
    }
  }

  /** The search passes through position 1 only if the server is the first of the list. */
  lemma StartsAlone(list: seq<HostPort>, me: HostPort, at: nat, garbage: int)
    requires StandsOnce(list, me, at) && garbage != 1
    ensures PassesFirst(list, |list|, me, garbage) <==> at == 0
  {
    forall n | 0 < n <= |list|
      ensures LastPosition(list[..n], me, garbage) == if n <= at then garbage else at + 1
    {
      if n <= at { Absent(list[..n], me, garbage); } else { StandsOnceThere(list[..n], me, at, garbage); }
    }
    assert at == 0 ==> LastPosition(list[..1], me, garbage) == 1;
  }

  lemma {:induction false} Absent(list: seq<HostPort>, me: HostPort, before: int)
    requires me !in list
    ensures LastPosition(list, me, before) == before
  {
    if list != [] { Absent(list[..|list| - 1], me, before); }
  }
}
