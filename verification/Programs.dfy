/** A program as the frames it sends and waits for, one connection wide. */
module Programs {
  import opened Frames

  /** `Tell` writes a frame. `Hear` blocks on a read; `forward` is what a leader passes on to its
      replicas of the frame it read, if anything. `Halt` is the end. */
  datatype Program<S> =
    | Halt(result: S)
    | Tell(frame: Frame, next: Program<S>)
    | Hear(forward: Frame -> Option<Frame>, proceed: Frame -> Program<S>)

  /** A client and a server program exchange one frame. The frame is one the leader passes on
      unchanged; a program that gets what it expects always does. */
  ghost function Shake<C, S>(c: Program<C>, s: Program<S>): Option<(Program<C>, Program<S>)> {
    if c.Tell? && s.Hear? && s.forward(c.frame) == Some(c.frame) then Some((c.next, s.proceed(c.frame)))
    else if c.Hear? && s.Tell? then Some((c.proceed(s.frame), s.next))
    else None
  }

  ghost predicate Shakes<C, S>(c: Program<C>, s: Program<S>, n: nat, c': Program<C>, s': Program<S>)
    decreases n
  {
    if n == 0 then c == c' && s == s'
    else Shake(c, s).Some? && var (d, t) := Shake(c, s).value; Shakes(d, t, n - 1, c', s')
  }

  lemma {:induction false} ShakesOn<C, S>(c: Program<C>, s: Program<S>, n: nat, d: Program<C>, t: Program<S>,
                                          m: nat, c': Program<C>, s': Program<S>)
    requires Shakes(c, s, n, d, t) && Shakes(d, t, m, c', s')
    ensures Shakes(c, s, n + m, c', s')
    decreases n
  {
    if n > 0 {
      var (x, y) := Shake(c, s).value;
      ShakesOn(x, y, n - 1, d, t, m, c', s');
    }
  }

  /** Neither side can move once the channels are empty: each has halted or waits to read. */
  ghost predicate Quiet<C, S>(c: Program<C>, s: Program<S>) {
    !c.Tell? && !s.Tell?
  }

  /** The two programs have lost each other: both wait for the other, at once or after one more
      frame, which the server does not expect and passes on to nobody. */
  ghost predicate DeadEnd<C, S>(c: Program<C>, s: Program<S>) {
    || (c.Hear? && s.Hear?)
    || (c.Tell? && c.next.Hear? && s.Hear? && s.forward(c.frame) == None && s.proceed(c.frame).Hear?)
  }

  /** On its own, `p` comes to `q` when it hears the frames `heard`, one at each read, and says `said`. */
  ghost predicate Plays<S>(p: Program<S>, heard: seq<Frame>, said: seq<Frame>, q: Program<S>)
    decreases |heard| + |said|
  {
    match p
    case Halt(_) => heard == [] && said == [] && p == q
    case Tell(f, next) =>
      (heard == [] && said == [] && p == q) || (said != [] && said[0] == f && Plays(next, heard, said[1..], q))
    case Hear(_, k) =>
      (heard == [] && said == [] && p == q) || (heard != [] && Plays(k(heard[0]), heard[1..], said, q))
  }

  lemma {:induction false} PlaysTell<S>(p: Program<S>, heard: seq<Frame>, said: seq<Frame>, q: Program<S>)
    requires Plays(p, heard, said, q) && q.Tell?
    ensures Plays(p, heard, said + [q.frame], q.next)
    decreases |heard| + |said|
  {
    if heard == [] && said == [] && p == q {
      assert (said + [q.frame])[1..] == [];
      assert Plays(q.next, [], [], q.next);
    } else if p.Tell? {
      assert (said + [q.frame])[1..] == said[1..] + [q.frame];
      PlaysTell(p.next, heard, said[1..], q);
    } else {
      PlaysTell(p.proceed(heard[0]), heard[1..], said, q);
    }
  }

  lemma {:induction false} PlaysHear<S>(p: Program<S>, heard: seq<Frame>, said: seq<Frame>, q: Program<S>, f: Frame)
    requires Plays(p, heard, said, q) && q.Hear?
    ensures Plays(p, heard + [f], said, q.proceed(f))
    decreases |heard| + |said|
  {
    if heard == [] && said == [] && p == q {
      assert heard + [f] == [f] && [f][1..] == [];
      assert Plays(q.proceed(f), [], [], q.proceed(f));
    } else if p.Tell? {
      PlaysHear(p.next, heard, said[1..], q, f);
    } else {
      assert (heard + [f])[1..] == heard[1..] + [f];
      PlaysHear(p.proceed(heard[0]), heard[1..], said, q, f);
    }
  }

  /** What a program hears decides what it has said, and where it stands, by its next read or its end. */
  lemma {:induction false} OnePlay<S>(p: Program<S>, heard: seq<Frame>, said: seq<Frame>, q: Program<S>,
                                      said': seq<Frame>, q': Program<S>)
    requires Plays(p, heard, said, q) && !q.Tell? && Plays(p, heard, said', q') && !q'.Tell?
    ensures said == said' && q == q'
    decreases |heard| + |said|
  {
    match p
    case Halt(_) =>
    case Tell(_, next) =>
      OnePlay(next, heard, said[1..], q, said'[1..], q');
      assert said == [said[0]] + said[1..] && said' == [said'[0]] + said'[1..];
    case Hear(_, k) =>
      if heard != [] { OnePlay(k(heard[0]), heard[1..], said, q, said', q'); }
  }

  /** For `n` steps the two programs send the same frames, answer every frame alike and would pass
      the same frames on; results correspond by `same`. */
  ghost predicate Alike<S(!new)>(n: nat, p: Program<S>, q: Program<S>, same: (S, S) -> bool) {
    n == 0 ||
    match p
    case Halt(a) => q.Halt? && same(a, q.result)
    case Tell(f, next) => q.Tell? && q.frame == f && Alike(n - 1, next, q.next, same)
    case Hear(forward, k) => q.Hear? && forall f :: q.forward(f) == forward(f) && Alike(n - 1, k(f), q.proceed(f), same)
  }

  /** The end of an exchange with a client that halts is determined. */
  lemma {:induction false} OneEnd<C, S>(c: Program<C>, s: Program<S>, n: nat, c1: Program<C>, s1: Program<S>,
                                        m: nat, c2: Program<C>, s2: Program<S>)
    requires Shakes(c, s, n, c1, s1) && c1.Halt? && Shakes(c, s, m, c2, s2) && c2.Halt?
    ensures n == m && c1 == c2 && s1 == s2
    decreases n
  {
    if n > 0 && m > 0 {
      var (d, t) := Shake(c, s).value;
      OneEnd(d, t, n - 1, c1, s1, m - 1, c2, s2);
    }
  }

  lemma {:induction false} AlikeWeaken<S(!new)>(n: nat, p: Program<S>, q: Program<S>, same: (S, S) -> bool,
        weaker: (S, S) -> bool)
    requires Alike(n, p, q, same) && forall x, y :: same(x, y) ==> weaker(x, y)
    ensures Alike(n, p, q, weaker)
  {
    if n > 0 {
      match p
      case Halt(a) =>
      case Tell(f, next) => AlikeWeaken(n - 1, next, q.next, same, weaker);
      case Hear(_, k) =>
        forall f ensures Alike(n - 1, k(f), q.proceed(f), weaker) {
          AlikeWeaken(n - 1, k(f), q.proceed(f), same, weaker);
        }
    }
  }
}
