/** Programs at the nodes of a network of reliable FIFO channels, stepping in any order. A leader
    node runs the server's program and after every frame deals with its replicas: what it read
    it writes to each, and for every frame it wrote it reads one from each. */
module Network {
  import opened Frames
  import opened Programs

  datatype Phase = Forwarding(frame: Frame, left: seq<nat>) | Collecting(left: seq<nat>)

  datatype Node<C, S> =
    | ClientNode(client: Program<C>, peer: nat)
    | ServerNode(server: Program<S>, peer: nat, replicas: seq<nat>, phase: Phase)

  datatype Action<C, S> =
    | Idle
    | Send(to: nat, frame: Frame, after: Node<C, S>)
    | Receive(from: nat, on: Frame -> Node<C, S>)

  function Act<C, S>(n: Node<C, S>): Action<C, S> {
    match n
    case ClientNode(p, peer) =>
      (match p
       case Halt(_) => Idle
       case Tell(f, next) => Send(peer, f, ClientNode(next, peer))
       case Hear(_, k) => Receive(peer, f => ClientNode(k(f), peer)))
    case ServerNode(p, peer, reps, phase) =>
      if phase.left != [] then
        var rest := phase.left[1..];
        match phase
        case Forwarding(f, left) => Send(left[0], f, n.(phase := Forwarding(f, rest)))
        case Collecting(left) => Receive(left[0], _ => n.(phase := Collecting(rest)))
      else
        match p
        case Halt(_) => Idle
        case Tell(f, next) => Send(peer, f, ServerNode(next, peer, reps, Collecting(reps)))
        case Hear(forward, k) => Receive(peer, f => ServerNode(k(f), peer, reps,
          if forward(f).Some? && reps != [] then Forwarding(forward(f).value, reps) else Collecting([])))
  }

  /** All frames ever written to a channel, and how many of them have been read. */
  datatype Channel = Channel(log: seq<Frame>, read: nat)

  /** The channel from node `i` to node `j` is `channels[(i, j)]`. */
  datatype Net<C, S> = Net(nodes: seq<Node<C, S>>, channels: imap<(nat, nat), Channel>) {
    ghost predicate Valid() {
      forall i: nat, j: nat :: (i, j) in channels && channels[(i, j)].read <= |channels[(i, j)].log|
    }
  }

  /** The channel a node's next step is on. */
  function On<C, S>(i: nat, a: Action<C, S>): (nat, nat)
    requires !a.Idle?
  {
    if a.Send? then (i, a.to) else (a.from, i)
  }

  predicate Blocked<C, S>(a: Action<C, S>, c: Channel) {
    a.Idle? || (a.Receive? && c.read >= |c.log|)
  }

  function NodeAfter<C, S>(a: Action<C, S>, c: Channel): Node<C, S>
    requires !Blocked(a, c)
  {
    if a.Send? then a.after else a.on(c.log[c.read])
  }

  function ChannelAfter<C, S>(a: Action<C, S>, c: Channel): Channel
    requires !Blocked(a, c)
  {
    if a.Send? then Channel(c.log + [a.frame], c.read) else Channel(c.log, c.read + 1)
  }

  /** Node `i` takes its next step, or cannot. */
  ghost function Step<C, S>(net: Net<C, S>, i: nat): Option<Net<C, S>>
    requires net.Valid()
  {
    if i >= |net.nodes| || Act(net.nodes[i]).Idle? then None
    else
      var a := Act(net.nodes[i]);
      var c := net.channels[On(i, a)];
      if Blocked(a, c) then None
      else Some(Net(net.nodes[i := NodeAfter(a, c)], net.channels[On(i, a) := ChannelAfter(a, c)]))
  }

  lemma StepValid<C, S>(net: Net<C, S>, i: nat)
    requires net.Valid() && Step(net, i).Some?
    ensures Step(net, i).value.Valid()
  {
  }

  /** A schedule: which node steps next, and next, and so on. */
  ghost predicate Runs<C, S>(net: Net<C, S>, schedule: seq<nat>, end: Net<C, S>)
    requires net.Valid()
    decreases schedule
  {
    if schedule == [] then net == end
    else Step(net, schedule[0]).Some? && (StepValid(net, schedule[0]); Runs(Step(net, schedule[0]).value, schedule[1..], end))
  }

  ghost predicate Stuck<C, S>(net: Net<C, S>)
    requires net.Valid()
  {
    forall i: nat :: Step(net, i).None?
  }

  lemma RunsFirst<C, S>(net: Net<C, S>, a: seq<nat>, end: Net<C, S>)
    requires net.Valid() && a != [] && Runs(net, a, end)
    ensures Step(net, a[0]).Some? && Step(net, a[0]).value.Valid() && Runs(Step(net, a[0]).value, a[1..], end)
  {
    StepValid(net, a[0]);
  }

  lemma RunsCons<C, S>(net: Net<C, S>, i: nat, rest: seq<nat>, end: Net<C, S>)
    requires net.Valid() && Step(net, i).Some? && Step(net, i).value.Valid() && Runs(Step(net, i).value, rest, end)
    ensures Runs(net, [i] + rest, end)
  {
    hide Step;
    assert ([i] + rest)[1..] == rest;
  }

  lemma {:induction false} RunsOn<C, S>(net: Net<C, S>, a: seq<nat>, mid: Net<C, S>, b: seq<nat>, end: Net<C, S>)
    requires net.Valid() && Runs(net, a, mid) && mid.Valid() && Runs(mid, b, end)
    ensures Runs(net, a + b, end)
    decreases a
  {
    hide *;
    if a == [] {
      RunsNothing(net, mid);
      assert a + b == b;
    } else {
      RunsFirst(net, a, mid);
      RunsOn(Step(net, a[0]).value, a[1..], mid, b, end);
      RunsCons(net, a[0], a[1..] + b, end);
      assert a + b == [a[0]] + (a[1..] + b);
    }
  }

  lemma RunsNothing<C, S>(net: Net<C, S>, end: Net<C, S>)
    requires net.Valid() && Runs(net, [], end)
    ensures net == end
  {
  }

  // ---- The order of steps does not matter ----

  /** Steps of two different nodes commute: a channel has one writer and one reader. */
  lemma Diamond<C, S>(net: Net<C, S>, i: nat, j: nat)
    requires net.Valid() && i != j && Step(net, i).Some? && Step(net, j).Some?
    requires Step(net, i).value.Valid() && Step(net, j).value.Valid()
    ensures Step(Step(net, i).value, j).Some?
    ensures Step(Step(net, j).value, i) == Step(Step(net, i).value, j)
  {
    var a, b := Act(net.nodes[i]), Act(net.nodes[j]);
    var u, v := Step(net, i).value, Step(net, j).value;
    assert Act(u.nodes[j]) == b && Act(v.nodes[i]) == a;
    var x, y := On(i, a), On(j, b);
    if x != y {
      assert u.channels[y] == net.channels[y] && v.channels[x] == net.channels[x];
      Commute(net.channels, x, ChannelAfter(a, net.channels[x]), y, ChannelAfter(b, net.channels[y]));
    } else {
      assert a.Send? != b.Send?;
      var c := net.channels[x];
      assert c.read < |c.log|;
      assert u.channels[x] == ChannelAfter(a, c) && v.channels[x] == ChannelAfter(b, c);
      assert ChannelAfter(b, ChannelAfter(a, c)) == ChannelAfter(a, ChannelAfter(b, c));
      Overwrite(net.channels, x, ChannelAfter(a, c), ChannelAfter(b, ChannelAfter(a, c)));
      Overwrite(net.channels, x, ChannelAfter(b, c), ChannelAfter(b, ChannelAfter(a, c)));
    }
    SwapNodes(net.nodes, i, NodeAfter(a, net.channels[x]), j, NodeAfter(b, net.channels[y]));
  }

  lemma Commute(m: imap<(nat, nat), Channel>, x: (nat, nat), c: Channel, y: (nat, nat), d: Channel)
    requires x != y
    ensures m[x := c][y := d] == m[y := d][x := c]
  {
  }

  lemma Overwrite(m: imap<(nat, nat), Channel>, x: (nat, nat), c: Channel, d: Channel)
    ensures m[x := c][x := d] == m[x := d]
  {
  }

  lemma SwapNodes<T>(s: seq<T>, i: nat, a: T, j: nat, b: T)
    requires i < |s| && j < |s| && i != j
    ensures s[i := a][j := b] == s[j := b][i := a]
  {
  }

  /** If some schedule ends in a state where nobody can move, every schedule can be continued to
      that same end, and all of them take the same number of steps. So nothing can deadlock
      elsewhere, nothing runs for ever, and the results do not depend on the interleaving. */
  lemma {:induction false} EveryScheduleEnds<C, S>(net: Net<C, S>, a: seq<nat>, end: Net<C, S>, b: seq<nat>,
        u: Net<C, S>)
      returns (rest: seq<nat>)
    requires net.Valid() && Runs(net, a, end) && end.Valid() && Stuck(end) && Runs(net, b, u)
    ensures u.Valid() && Runs(u, rest, end) && |b| + |rest| == |a|
    decreases b
  {
    if b == [] {
      rest := a;
    } else {
      StepValid(net, b[0]);
      var v := Step(net, b[0]).value;
      var more := AfterAnyStep(net, a, end, b[0]);
      rest := EveryScheduleEnds(v, more, end, b[1..], u);
    }
  }

  /** Any first step leaves a way to the end that is one step shorter. */
  lemma {:induction false} AfterAnyStep<C, S>(net: Net<C, S>, a: seq<nat>, end: Net<C, S>, i: nat)
      returns (rest: seq<nat>)
    requires net.Valid() && Runs(net, a, end) && end.Valid() && Stuck(end) && Step(net, i).Some?
    ensures Step(net, i).value.Valid() && Runs(Step(net, i).value, rest, end) && |rest| + 1 == |a|
    decreases a
  {
    StepValid(net, i);
    assert a != [];
    StepValid(net, a[0]);
    var u, v := Step(net, a[0]).value, Step(net, i).value;
    if a[0] == i {
      rest := a[1..];
    } else {
      Diamond(net, a[0], i);
      var tail := AfterAnyStep(u, a[1..], end, i);
      rest := [a[0]] + tail;
      assert rest[1..] == tail;
    }
  }
}
