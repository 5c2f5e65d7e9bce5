/** A leader and its replicas stay in lock-step: whatever two programs can exchange frame by frame,
    the leader's program exchanges with the client in every interleaving, while each replica
    receives the client's frames and gives one frame back for each the client gets. */
module Lockstep {
  import opened Frames
  import opened Programs
  import opened Network

  function ReplicaNumbers(m: nat): (ids: seq<nat>)
    ensures |ids| == m && forall r :: 0 <= r < m ==> ids[r] == r + 2
  {
    seq(m, r => r + 2)
  }

  ghost predicate Drained<C, S>(net: Net<C, S>)
    requires net.Valid()
  {
    forall i: nat, j: nat :: net.channels[(i, j)].read == |net.channels[(i, j)].log|
  }

  /** Node 0 is the client, node 1 the leader, the rest are replicas; the leader still has the
      replicas in `left` to deal with; nothing is in transit. */
  ghost predicate Standing<C, S>(net: Net<C, S>, c: Program<C>, s: Program<S>, phase: Phase, qs: seq<Program<S>>) {
    && net.Valid() && Drained(net)
    && |net.nodes| == 2 + |qs|
    && net.nodes[0] == ClientNode(c, 1)
    && net.nodes[1] == ServerNode(s, 0, ReplicaNumbers(|qs|), phase)
    && forall r :: 0 <= r < |qs| ==> ReplicaAt(net, r, qs[r])
  }

  ghost predicate ReplicaAt<C, S>(net: Net<C, S>, r: nat, q: Program<S>) {
    r + 2 < |net.nodes| && net.nodes[r + 2] == ServerNode(q, 1, [], Collecting([]))
  }

  ghost function Log<C, S>(net: Net<C, S>, i: nat, j: nat): seq<Frame>
    requires net.Valid()
  {
    net.channels[(i, j)].log
  }

  /** All that replica `r` has been sent. */
  ghost function Sent<C, S>(net: Net<C, S>, r: nat): seq<Frame>
    requires net.Valid()
  {
    Log(net, 1, r + 2)
  }

  /** All that replica `r` has sent back. */
  ghost function Returned<C, S>(net: Net<C, S>, r: nat): seq<Frame>
    requires net.Valid()
  {
    Log(net, r + 2, 1)
  }

  /** Every replica has been sent the client's frames and has sent back what the client got. */
  ghost predicate AllCopied<C, S>(net: Net<C, S>, m: nat)
    requires net.Valid()
  {
    forall r :: 0 <= r < m ==> Sent(net, r) == Log(net, 0, 1) && Returned(net, r) == Log(net, 1, 0)
  }

  /** One frame from node `i` to node `j` over an empty channel: written, then read. */
  lemma Pass<C, S>(net: Net<C, S>, i: nat, j: nat) returns (v: Net<C, S>)
    requires net.Valid() && Drained(net) && i != j && i < |net.nodes| && j < |net.nodes|
    requires Act(net.nodes[i]).Send? && Act(net.nodes[i]).to == j
    requires Act(net.nodes[j]).Receive? && Act(net.nodes[j]).from == i
    ensures v.Valid() && Drained(v) && Runs(net, [i, j], v)
    ensures v.nodes == net.nodes[i := Act(net.nodes[i]).after][j := Act(net.nodes[j]).on(Act(net.nodes[i]).frame)]
    ensures Log(v, i, j) == Log(net, i, j) + [Act(net.nodes[i]).frame]
    ensures forall a: nat, b: nat :: (a, b) != (i, j) ==> v.channels[(a, b)] == net.channels[(a, b)]
  {
    var a, b := Act(net.nodes[i]), Act(net.nodes[j]);
    var ch := net.channels[(i, j)];
    StepValid(net, i);
    var u := Step(net, i).value;
    assert Act(u.nodes[j]) == b && u.channels[(i, j)] == Channel(ch.log + [a.frame], ch.read);
    StepValid(u, j);
    v := Step(u, j).value;
    assert (ch.log + [a.frame])[ch.read] == a.frame;
    assert [i, j][1..] == [j] && [j][1..] == [];
    assert Runs(v, [], v);
    assert Runs(u, [j], v);
  }

  /** What one exchange with replica `k` leaves alone. */
  ghost predicate OnlyReplica<C, S>(net: Net<C, S>, v: Net<C, S>, m: nat, k: nat)
    requires net.Valid() && v.Valid()
  {
    && Log(v, 0, 1) == Log(net, 0, 1) && Log(v, 1, 0) == Log(net, 1, 0)
    && forall r :: 0 <= r < m && r != k ==> Sent(v, r) == Sent(net, r) && Returned(v, r) == Returned(net, r)
  }

  lemma ForwardOne<C, S>(net: Net<C, S>, c: Program<C>, s: Program<S>, f: Frame, qs: seq<Program<S>>, k: nat)
      returns (u: Net<C, S>)
    requires k < |qs| && Standing(net, c, s, Forwarding(f, ReplicaNumbers(|qs|)[k..]), qs) && qs[k].Hear?
    ensures Standing(u, c, s, Forwarding(f, ReplicaNumbers(|qs|)[k + 1..]), qs[k := qs[k].proceed(f)])
    ensures Runs(net, [1, k + 2], u) && OnlyReplica(net, u, |qs|, k)
    ensures Sent(u, k) == Sent(net, k) + [f] && Returned(u, k) == Returned(net, k)
  {
    assert ReplicaAt(net, k, qs[k]);
    u := Pass(net, 1, k + 2);
    var us := qs[k := qs[k].proceed(f)];
    assert ReplicaNumbers(|qs|)[k..][1..] == ReplicaNumbers(|qs|)[k + 1..];
    hide Runs, Act, ReplicaNumbers, Step;
    forall r | 0 <= r < |us| ensures ReplicaAt(u, r, us[r]) { assert ReplicaAt(net, r, qs[r]); }
  }

  /** The leader hands the frame it read to the replicas from number `k` on. */
  lemma {:induction false} ForwardToAll<C, S>(net: Net<C, S>, c: Program<C>, s: Program<S>, f: Frame,
        qs: seq<Program<S>>, k: nat)
      returns (v: Net<C, S>, sched: seq<nat>, ps: seq<Program<S>>)
    requires k <= |qs| && Standing(net, c, s, Forwarding(f, ReplicaNumbers(|qs|)[k..]), qs)
    requires forall r :: k <= r < |qs| ==> qs[r].Hear?
    ensures |ps| == |qs| && Standing(v, c, s, Forwarding(f, []), ps) && Runs(net, sched, v)
    ensures forall r :: 0 <= r < |qs| ==> ps[r] == if r < k then qs[r] else qs[r].proceed(f)
    ensures Log(v, 0, 1) == Log(net, 0, 1) && Log(v, 1, 0) == Log(net, 1, 0)
    ensures forall r :: 0 <= r < |qs| ==> Returned(v, r) == Returned(net, r)
    ensures forall r :: 0 <= r < |qs| ==> Sent(v, r) == if r < k then Sent(net, r) else Sent(net, r) + [f]
    decreases |qs| - k
  {
    if k == |qs| {
      v, sched, ps := net, [], qs;
    } else {
      var u := ForwardOne(net, c, s, f, qs, k);
      assert net.Valid() && u.Valid();
      hide Runs, ReplicaNumbers, Standing, Log;
      var rest;
      v, rest, ps := ForwardToAll(u, c, s, f, qs[k := qs[k].proceed(f)], k + 1);
      RunsOn(net, [1, k + 2], u, rest, v);
      sched := [1, k + 2] + rest;
    }
  }

  lemma CollectOne<C, S>(net: Net<C, S>, c: Program<C>, s: Program<S>, f: Frame, qs: seq<Program<S>>, k: nat)
      returns (u: Net<C, S>)
    requires k < |qs| && Standing(net, c, s, Collecting(ReplicaNumbers(|qs|)[k..]), qs) && qs[k].Tell? && qs[k].frame == f
    ensures Standing(u, c, s, Collecting(ReplicaNumbers(|qs|)[k + 1..]), qs[k := qs[k].next])
    ensures Runs(net, [k + 2, 1], u) && OnlyReplica(net, u, |qs|, k)
    ensures Sent(u, k) == Sent(net, k) && Returned(u, k) == Returned(net, k) + [f]
  {
    assert ReplicaAt(net, k, qs[k]);
    u := Pass(net, k + 2, 1);
    var us := qs[k := qs[k].next];
    assert ReplicaNumbers(|qs|)[k..][1..] == ReplicaNumbers(|qs|)[k + 1..];
    hide Runs, Act, ReplicaNumbers, Step;
    forall r | 0 <= r < |us| ensures ReplicaAt(u, r, us[r]) { assert ReplicaAt(net, r, qs[r]); }
  }

  /** The leader takes one frame from each replica from number `k` on. */
  lemma {:induction false} CollectFromAll<C, S>(net: Net<C, S>, c: Program<C>, s: Program<S>, f: Frame,
        qs: seq<Program<S>>, k: nat)
      returns (v: Net<C, S>, sched: seq<nat>, ps: seq<Program<S>>)
    requires k <= |qs| && Standing(net, c, s, Collecting(ReplicaNumbers(|qs|)[k..]), qs)
    requires forall r :: k <= r < |qs| ==> qs[r].Tell? && qs[r].frame == f
    ensures |ps| == |qs| && Standing(v, c, s, Collecting([]), ps) && Runs(net, sched, v)
    ensures forall r :: 0 <= r < |qs| ==> ps[r] == if r < k then qs[r] else qs[r].next
    ensures Log(v, 0, 1) == Log(net, 0, 1) && Log(v, 1, 0) == Log(net, 1, 0)
    ensures forall r :: 0 <= r < |qs| ==> Sent(v, r) == Sent(net, r)
    ensures forall r :: 0 <= r < |qs| ==> Returned(v, r) == if r < k then Returned(net, r) else Returned(net, r) + [f]
    decreases |qs| - k
  {
    if k == |qs| {
      v, sched, ps := net, [], qs;
    } else {
      var u := CollectOne(net, c, s, f, qs, k);
      assert net.Valid() && u.Valid();
      hide Runs, ReplicaNumbers, Standing, Log;
      var rest;
      v, rest, ps := CollectFromAll(u, c, s, f, qs[k := qs[k].next], k + 1);
      RunsOn(net, [k + 2, 1], u, rest, v);
      sched := [k + 2, 1] + rest;
    }
  }

  ghost predicate AllAlike<S(!new)>(n: nat, s: Program<S>, qs: seq<Program<S>>, same: (S, S) -> bool) {
    forall r :: 0 <= r < |qs| ==> Alike(n, s, qs[r], same)
  }

  /** The client's frame reaches the leader, and from there every replica. */
  lemma ExchangeUp<C, S(!new)>(net: Net<C, S>, c: Program<C>, s: Program<S>, phase: Phase, qs: seq<Program<S>>)
      returns (v: Net<C, S>, sched: seq<nat>, phase': Phase, ps: seq<Program<S>>)
    requires Standing(net, c, s, phase, qs) && phase.left == [] && AllCopied(net, |qs|)
    requires c.Tell? && s.Hear? && s.forward(c.frame) == Some(c.frame) && forall r :: 0 <= r < |qs| ==> qs[r].Hear?
    ensures phase'.left == [] && |ps| == |qs| && Standing(v, c.next, s.proceed(c.frame), phase', ps)
    ensures AllCopied(v, |qs|) && Runs(net, sched, v)
    ensures forall r :: 0 <= r < |qs| ==> ps[r] == qs[r].proceed(c.frame)
  {
    var f := c.frame;
    var u := Pass(net, 0, 1);
    assert ReplicaNumbers(|qs|)[0..] == ReplicaNumbers(|qs|);
    forall r | 0 <= r < |qs| ensures ReplicaAt(u, r, qs[r]) { assert ReplicaAt(net, r, qs[r]); }
    if qs == [] {
      v, ps, sched, phase' := u, [], [0, 1], Collecting([]);
    } else {
      var rest;
      v, rest, ps := ForwardToAll(u, c.next, s.proceed(f), f, qs, 0);
      RunsOn(net, [0, 1], u, rest, v);
      sched, phase' := [0, 1] + rest, Forwarding(f, []);
    }
    forall r | 0 <= r < |qs| ensures Sent(v, r) == Log(v, 0, 1) && Returned(v, r) == Log(v, 1, 0) {
      assert Sent(u, r) == Sent(net, r) && Returned(u, r) == Returned(net, r);
    }
  }

  /** The leader's frame reaches the client, and the leader takes the same one from every replica. */
  lemma ExchangeDown<C, S(!new)>(net: Net<C, S>, c: Program<C>, s: Program<S>, phase: Phase, qs: seq<Program<S>>)
      returns (v: Net<C, S>, sched: seq<nat>, phase': Phase, ps: seq<Program<S>>)
    requires Standing(net, c, s, phase, qs) && phase.left == [] && AllCopied(net, |qs|)
    requires c.Hear? && s.Tell? && forall r :: 0 <= r < |qs| ==> qs[r].Tell? && qs[r].frame == s.frame
    ensures phase'.left == [] && |ps| == |qs| && Standing(v, c.proceed(s.frame), s.next, phase', ps)
    ensures AllCopied(v, |qs|) && Runs(net, sched, v)
    ensures forall r :: 0 <= r < |qs| ==> ps[r] == qs[r].next
  {
    var f := s.frame;
    var u := Pass(net, 1, 0);
    assert ReplicaNumbers(|qs|)[0..] == ReplicaNumbers(|qs|);
    forall r | 0 <= r < |qs| ensures ReplicaAt(u, r, qs[r]) { assert ReplicaAt(net, r, qs[r]); }
    var rest;
    v, rest, ps := CollectFromAll(u, c.proceed(f), s.next, f, qs, 0);
    RunsOn(net, [1, 0], u, rest, v);
    sched, phase' := [1, 0] + rest, Collecting([]);
    forall r | 0 <= r < |qs| ensures Sent(v, r) == Log(v, 0, 1) && Returned(v, r) == Log(v, 1, 0) {
      assert Sent(u, r) == Sent(net, r) && Returned(u, r) == Returned(net, r);
    }
  }

  /** One exchange between client and leader is some schedule of the network, replicas included. */
  lemma Exchange<C, S(!new)>(net: Net<C, S>, c: Program<C>, s: Program<S>, phase: Phase, qs: seq<Program<S>>, n: nat,
        same: (S, S) -> bool)
      returns (v: Net<C, S>, sched: seq<nat>, phase': Phase, ps: seq<Program<S>>)
    requires Standing(net, c, s, phase, qs) && phase.left == [] && AllCopied(net, |qs|)
    requires Shake(c, s).Some? && n > 0 && AllAlike(n, s, qs, same)
    ensures phase'.left == [] && |ps| == |qs| && Standing(v, Shake(c, s).value.0, Shake(c, s).value.1, phase', ps)
    ensures AllCopied(v, |qs|) && Runs(net, sched, v) && AllAlike(n - 1, Shake(c, s).value.1, ps, same)
    ensures forall r :: 0 <= r < |qs| ==> Shake(c, qs[r]) == Some((Shake(c, s).value.0, ps[r]))
  {
    assert forall r :: 0 <= r < |qs| ==> Alike(n, s, qs[r], same);
    if c.Tell? {
      v, sched, phase', ps := ExchangeUp(net, c, s, phase, qs);
    } else {
      v, sched, phase', ps := ExchangeDown(net, c, s, phase, qs);
    }
  }

  lemma {:induction false} Exchanges<C, S(!new)>(net: Net<C, S>, c: Program<C>, s: Program<S>, phase: Phase,
        qs: seq<Program<S>>,
      n: nat, c': Program<C>, s': Program<S>, extra: nat, same: (S, S) -> bool)
      returns (v: Net<C, S>, sched: seq<nat>, phase': Phase, ps: seq<Program<S>>)
    requires Standing(net, c, s, phase, qs) && phase.left == [] && AllCopied(net, |qs|)
    requires Shakes(c, s, n, c', s') && AllAlike(n + extra, s, qs, same)
    ensures phase'.left == [] && |ps| == |qs| && Standing(v, c', s', phase', ps) && AllCopied(v, |qs|)
    ensures AllAlike(extra, s', ps, same) && Runs(net, sched, v)
    ensures forall r :: 0 <= r < |qs| ==> Shakes(c, qs[r], n, c', ps[r])
    decreases n
  {
    if n == 0 {
      assert Runs(net, [], net);
      v, sched, phase', ps := net, [], phase, qs;
    } else {
      var (d, t) := Shake(c, s).value;
      hide Runs, Standing, AllCopied, AllAlike, Shake;
      var u, first, mid, us := Exchange(net, c, s, phase, qs, n + extra, same);
      var rest;
      v, rest, phase', ps := Exchanges(u, d, t, mid, us, n - 1, c', s', extra, same);
      RunsOn(net, first, u, rest, v);
      sched := first + rest;
    }
  }

  lemma QuietIsStuck<C, S(!new)>(net: Net<C, S>, c: Program<C>, s: Program<S>, phase: Phase, qs: seq<Program<S>>)
    requires Standing(net, c, s, phase, qs) && phase.left == [] && Quiet(c, s)
    requires forall r :: 0 <= r < |qs| ==> !qs[r].Tell?
    ensures Stuck(net)
  {
    forall i: nat ensures Step(net, i).None? {
      if 2 <= i < |net.nodes| {
        assert ReplicaAt(net, i - 2, qs[i - 2]);
        assert net.nodes[i] == ServerNode(qs[i - 2], 1, [], Collecting([]));
      }
    }
  }

  /** In exactly `steps` more steps the network can come to `end`. */
  ghost predicate Finishes<C, S>(u: Net<C, S>, end: Net<C, S>, steps: int)
    requires u.Valid()
  {
    exists rest :: |rest| == steps && Runs(u, rest, end)
  }

  /** Every schedule can be continued to `end`, and takes `total` steps to get there. */
  ghost predicate AlwaysEnds<C(!new), S(!new)>(net: Net<C, S>, end: Net<C, S>, total: nat) {
    net.Valid() && forall sched, u :: Runs(net, sched, u) ==> u.Valid() && Finishes(u, end, total - |sched|)
  }

  /** One schedule that ends where nobody can move decides for all. */
  lemma OneScheduleDecides<C(!new), S(!new)>(net: Net<C, S>, sched: seq<nat>, end: Net<C, S>)
    requires net.Valid() && Runs(net, sched, end) && end.Valid() && Stuck(end)
    ensures AlwaysEnds(net, end, |sched|)
  {
    forall other, u | Runs(net, other, u) ensures u.Valid() && Finishes(u, end, |sched| - |other|) {
      var rest := EveryScheduleEnds(net, sched, end, other, u);
      assert Runs(u, rest, end);
    }
  }

  /** Lock-step in every interleaving. If the client's and the server's program exchange `n` frames
      and then neither has anything to say, then in a network with any number of replicas that
      run a program like the leader's, every schedule can be continued to one and the same end, in
      the same total number of steps; nobody can move there, nothing is in transit, the
      client and the leader are where the exchange left them, each replica is alike the leader and
      where an exchange with the client would have left it, has received exactly the frames the client
      sent, and has had one frame consumed for each frame sent to the client. */
  lemma LockStep<C(!new), S(!new)>(net: Net<C, S>, c: Program<C>, s: Program<S>, qs: seq<Program<S>>,
      n: nat, c': Program<C>, s': Program<S>, extra: nat, same: (S, S) -> bool)
      returns (end: Net<C, S>, total: nat, ps: seq<Program<S>>, phase: Phase)
    requires Standing(net, c, s, Collecting([]), qs) && AllCopied(net, |qs|)
    requires Shakes(c, s, n, c', s') && Quiet(c', s') && extra > 0 && AllAlike(n + extra, s, qs, same)
    ensures phase.left == [] && |ps| == |qs| && Standing(end, c', s', phase, ps) && AllCopied(end, |qs|)
    ensures AllAlike(extra, s', ps, same) && Stuck(end)
    ensures forall r :: 0 <= r < |qs| ==> Shakes(c, qs[r], n, c', ps[r])
    ensures AlwaysEnds(net, end, total)
  {
    var sched;
    end, sched, phase, ps := Exchanges(net, c, s, Collecting([]), qs, n, c', s', extra, same);
    total := |sched|;
    forall r | 0 <= r < |ps| ensures !ps[r].Tell? { assert Alike(extra, s', ps[r], same); }
    QuietIsStuck(end, c', s', phase, ps);
    OneScheduleDecides(net, sched, end);
  }

  ghost predicate ClientIs<C, S>(net: Net<C, S>, c: Program<C>) {
    net.nodes != [] && net.nodes[0] == ClientNode(c, 1)
  }

  /** When client and leader lose each other, every schedule ends in that deadlock: the client, the
      leader and the replicas all wait. */
  lemma LockStepStops<C(!new), S(!new)>(net: Net<C, S>, c: Program<C>, s: Program<S>, qs: seq<Program<S>>,
      n: nat, c': Program<C>, s': Program<S>, same: (S, S) -> bool)
      returns (end: Net<C, S>, total: nat, waiting: Program<C>)
    requires Standing(net, c, s, Collecting([]), qs) && AllCopied(net, |qs|)
    requires Shakes(c, s, n, c', s') && DeadEnd(c', s') && AllAlike(n + 1, s, qs, same)
    ensures AlwaysEnds(net, end, total) && end.Valid() && Stuck(end) && ClientIs(end, waiting) && waiting.Hear?
  {
    var sched, phase, ps;
    end, sched, phase, ps := Exchanges(net, c, s, Collecting([]), qs, n, c', s', 1, same);
    waiting := c';
    forall r | 0 <= r < |ps| ensures ps[r].Hear? { assert Alike(1, s', ps[r], same); }
    if c'.Hear? {
      QuietIsStuck(end, c', s', phase, ps);
    } else {
      var v := Pass(end, 0, 1);
      forall r | 0 <= r < |ps| ensures ReplicaAt(v, r, ps[r]) { assert ReplicaAt(end, r, ps[r]); }
      QuietIsStuck(v, c'.next, s'.proceed(c'.frame), Collecting([]), ps);
      RunsOn(net, sched, end, [0, 1], v);
      sched := sched + [0, 1];
      end, waiting := v, c'.next;
    }
    OneScheduleDecides(net, sched, end);
    total := |sched|;
  }

  /** So a state in which nobody can move is the end, and it is reached after `total` steps. */
  lemma StuckOnlyAtTheEnd<C, S>(u: Net<C, S>, end: Net<C, S>, steps: int)
    requires u.Valid() && Finishes(u, end, steps) && Stuck(u)
    ensures u == end && steps == 0
  {
    var rest :| |rest| == steps && Runs(u, rest, end);
  }
}
