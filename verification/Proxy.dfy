/** The proxy between one client and whichever server is up: two relay threads, a cursor over the
    server list, and the login replayed on every new connection. */
module Proxy {

  /** What a server session is sent: the replayed login, the client's frame number `index`, or the proxy's
      own `CP_CLIENT_END_CONNECTION`. */
  datatype Wire = Login | FromClient(index: nat) | End

  datatype Session = Session(log: seq<Wire>, accepted: bool)

  /** What the client is sent: the reply to its login, or frame number `index` of those read from servers. */
  datatype Shown = LoginReply | Relayed(index: nat)

  /** The fields both threads use. `sessions` are all connections ever opened; `_sslServer` is the last. */
  datatype Shared = Shared(
    serverUp: bool, clientUp: bool, error: bool, firstLogin: bool, cursor: nat,
    sessions: seq<Session>, shown: seq<Shown>)

  /** A write on `_sslServer`. */
  function Write(sh: Shared, w: Wire, ok: bool): (r: Shared)
    ensures r == sh.(sessions := r.sessions) && |r.sessions| == |sh.sessions|
    ensures !ok ==> r == sh
  {
    if !ok || sh.sessions == [] then sh
    else
      var last := |sh.sessions| - 1;
      sh.(sessions := sh.sessions[last := sh.sessions[last].(log := sh.sessions[last].log + [w])])
  }

  function Open(sh: Shared): (r: Shared)
    ensures r == sh.(sessions := r.sessions) && |r.sessions| == |sh.sessions| + 1
  {
    sh.(sessions := sh.sessions + [Session([], false)])
  }

  function Accept(sh: Shared): (r: Shared)
    ensures r == sh.(serverUp := true, sessions := r.sessions) && |r.sessions| == |sh.sessions|
  {
    if sh.sessions == [] then sh.(serverUp := true)
    else
      var last := |sh.sessions| - 1;
      sh.(serverUp := true, sessions := sh.sessions[last := sh.sessions[last].(accepted := true)])
  }

  // ---- The threads ----

  /** Where `handle_clientConnection` is, between two accesses to a socket or a shared field. */
  datatype ClientPc =
    | CTest | CRead | CWrite(index: nat) | CSayEnd(dying: bool) | CDown(dying: bool) | CKill | CErr | CExit

  /** Where `handle_serverConnection` and the `connect_server` inside it are. */
  datatype ServerPc =
    | STest | SRead | SRelay(index: nat) | SSayEnd(dying: bool) | SDown(dying: bool) | SKill | SErr | SExit
    | SReset | SLoop | SConnect | SShake | SLogin | SReply | SPass(good: bool) | SAccept(good: bool) | SNext | SAfter

  /** `taken` counts the frames read from the client, `received` those read from servers. */
  datatype World = World(sh: Shared, taken: nat, received: nat, client: ClientPc, server: ServerPc)

  /** A thread moves; `ok` says whether the call it makes succeeds, `good` whether a login reply it
      reads is `CP_LOGIN_SUCCESSFUL`. */
  datatype Event = ClientMoves(ok: bool) | ServerMoves(ok: bool, good: bool)

  function ClientStep(w: World, ok: bool): World {
    match w.client
    case CTest => w.(client := if w.sh.serverUp && w.sh.clientUp then CRead else CErr)
    case CRead => if ok then w.(client := CWrite(w.taken), taken := w.taken + 1) else w.(client := CSayEnd(true))
    case CWrite(i) => w.(sh := Write(w.sh, FromClient(i), ok), client := if ok then CErr else CSayEnd(false))
    case CSayEnd(dying) => w.(sh := Write(w.sh, End, ok), client := CDown(dying))
    case CDown(dying) => w.(sh := w.sh.(serverUp := false), client := if dying then CKill else CErr)
    case CKill => w.(sh := w.sh.(clientUp := false, error := true), client := CExit)
    case CErr => w.(client := if w.sh.error then CExit else CTest)
    case CExit => w
  }

  /** `n` is the length of the server list. */
  function ServerStep(n: nat, w: World, ok: bool, good: bool): World {
    match w.server
    case STest =>
      w.(server := if w.sh.serverUp && w.sh.clientUp then SRead else if w.sh.clientUp then SReset else SErr)
    case SRead => if ok then w.(server := SRelay(w.received), received := w.received + 1) else w.(server := SSayEnd(false))
    case SRelay(i) =>
      if ok then w.(sh := w.sh.(shown := w.sh.shown + [Relayed(i)]), server := SErr) else w.(server := SSayEnd(true))
    case SSayEnd(dying) => w.(sh := Write(w.sh, End, ok), server := SDown(dying))
    case SDown(dying) => w.(sh := w.sh.(serverUp := false), server := if dying then SKill else SErr)
    case SKill => w.(sh := w.sh.(clientUp := false, error := true), server := SExit)
    case SErr => w.(server := if w.sh.error then SExit else STest)
    case SExit => w
    case SReset => w.(sh := w.sh.(cursor := 0), server := SLoop)
    case SLoop => w.(server := if w.sh.cursor < n && !w.sh.serverUp then SConnect else SAfter)
    case SConnect => if ok then w.(sh := Open(w.sh), server := SShake) else w.(server := SNext)
    case SShake => w.(server := if ok then SLogin else SNext)
    case SLogin => w.(sh := Write(w.sh, Login, ok), server := if ok then SReply else SNext)
    case SReply => w.(server := if ok then SPass(good) else SNext)
    case SPass(g) =>
      if !w.sh.firstLogin then w.(server := SAccept(g))
      else if ok then w.(sh := w.sh.(firstLogin := false, shown := w.sh.shown + [LoginReply]), server := SAccept(g))
      else w.(server := SNext)
    case SAccept(g) => w.(sh := if g then Accept(w.sh) else w.sh, server := SNext)
    case SNext => w.(sh := w.sh.(cursor := w.sh.cursor + 1), server := SLoop)
    case SAfter => w.(server := if w.sh.cursor >= n then SSayEnd(true) else SErr)
  }

  function Step(n: nat, w: World, e: Event): World {
    match e
    case ClientMoves(ok) => ClientStep(w, ok)
    case ServerMoves(ok, good) => ServerStep(n, w, ok, good)
  }

  function Run(n: nat, w: World, es: seq<Event>): World
    decreases es
  {
    if es == [] then w else Run(n, Step(n, w, es[0]), es[1..])
  }

  /** The client is connected and its login read; no server is. */
  const START: World := World(Shared(false, true, false, true, 0, [], []), 0, 0, CTest, STest)

  // ---- At most once, in order ----

  /** The client's frames in a session. */
  function Indexes(log: seq<Wire>): seq<nat> {
    if log == [] then []
    else Indexes(log[..|log| - 1]) + if log[|log| - 1].FromClient? then [log[|log| - 1].index] else []
  }

  /** The client's frames as they were delivered, session after session. */
  function Delivered(sessions: seq<Session>): seq<nat> {
    if sessions == [] then []
    else Delivered(sessions[..|sessions| - 1]) + Indexes(sessions[|sessions| - 1].log)
  }

  ghost predicate Increasing(s: seq<nat>) {
    forall i, j :: 0 <= i < j < |s| ==> s[i] < s[j]
  }

  ghost predicate AllBelow(s: seq<nat>, n: nat) {
    forall i :: 0 <= i < |s| ==> s[i] < n
  }

  lemma DeliveredAfterWrite(sh: Shared, w: Wire)
    requires sh.sessions != []
    ensures Delivered(Write(sh, w, true).sessions) == Delivered(sh.sessions) + if w.FromClient? then [w.index] else []
  {
    var s, last := sh.sessions, |sh.sessions| - 1;
    var u := Write(sh, w, true).sessions;
    assert u[..last] == s[..last];
    assert (s[last].log + [w])[..|s[last].log|] == s[last].log;
  }

  lemma DeliveredAfterOpen(sh: Shared)
    ensures Delivered(Open(sh).sessions) == Delivered(sh.sessions)
  {
    assert (sh.sessions + [Session([], false)])[..|sh.sessions|] == sh.sessions;
  }

  lemma DeliveredAfterAccept(sh: Shared)
    ensures Delivered(Accept(sh).sessions) == Delivered(sh.sessions)
  {
    if sh.sessions != [] {
      assert Accept(sh).sessions[..|sh.sessions| - 1] == sh.sessions[..|sh.sessions| - 1];
    }
  }

  /** Frames are delivered in order; the one in hand, if any, comes after all of them. */
  ghost predicate Ordered(w: World) {
    && Increasing(Delivered(w.sh.sessions))
    && AllBelow(Delivered(w.sh.sessions), if w.client.CWrite? then w.client.index else w.taken)
    && (w.client.CWrite? ==> w.client.index + 1 == w.taken)
  }

  lemma WriteDelivers(sh: Shared, w: Wire, ok: bool)
    ensures Delivered(Write(sh, w, ok).sessions) ==
      Delivered(sh.sessions) + if ok && sh.sessions != [] && w.FromClient? then [w.index] else []
  {
    if ok && sh.sessions != [] { DeliveredAfterWrite(sh, w); }
  }

  lemma ServerDelivers(n: nat, w: World, ok: bool, good: bool)
    ensures Delivered(ServerStep(n, w, ok, good).sh.sessions) == Delivered(w.sh.sessions)
  {
    hide Delivered, Write, Open, Accept;
    match w.server
    case SSayEnd(_) => WriteDelivers(w.sh, End, ok);
    case SConnect => DeliveredAfterOpen(w.sh);
    case SLogin => WriteDelivers(w.sh, Login, ok);
    case SAccept(_) => DeliveredAfterAccept(w.sh);
    case _ =>
  }

  lemma ClientDelivers(w: World, ok: bool)
    ensures Delivered(ClientStep(w, ok).sh.sessions) ==
      Delivered(w.sh.sessions) + if ok && w.sh.sessions != [] && w.client.CWrite? then [w.client.index] else []
  {
    hide Delivered, Write;
    match w.client
    case CWrite(i) => WriteDelivers(w.sh, FromClient(i), ok);
    case CSayEnd(_) => WriteDelivers(w.sh, End, ok);
    case _ =>
  }

  lemma StepKeepsOrdered(n: nat, w: World, e: Event)
    requires Ordered(w)
    ensures Ordered(Step(n, w, e))
  {
    hide Delivered, Write, Open, Accept;
    match e
    case ServerMoves(ok, good) => ServerDelivers(n, w, ok, good);
    case ClientMoves(ok) => ClientDelivers(w, ok);
  }

  lemma {:induction false} RunKeepsOrdered(n: nat, w: World, es: seq<Event>)
    requires Ordered(w)
    ensures Ordered(Run(n, w, es))
    decreases es
  {
    if es != [] {
      StepKeepsOrdered(n, w, es[0]);
      RunKeepsOrdered(n, Step(n, w, es[0]), es[1..]);
    }
  }

  /** At most once: whatever the interleaving, the losses and the reconnections, the client's frames reach
      the servers in the order they were sent, over all sessions, none twice and none that
      was not sent. */
  lemma AtMostOnceInOrder(n: nat, es: seq<Event>)
    ensures var w := Run(n, START, es);
      Increasing(Delivered(w.sh.sessions)) && AllBelow(Delivered(w.sh.sessions), w.taken)
  {
    RunKeepsOrdered(n, START, es);
  }

  /** How many frames the run reads from the client. */
  function ClientReads(n: nat, w: World, es: seq<Event>): nat
    decreases es
  {
    if es == [] then 0
    else (if es[0].ClientMoves? && es[0].ok && w.client.CRead? then 1 else 0) + ClientReads(n, Step(n, w, es[0]), es[1..])
  }

  /** In the course of the run the write of the client's frame number `i` fails. */
  predicate WriteFails(n: nat, w: World, es: seq<Event>, i: nat)
    decreases es
  {
    es != [] && ((es[0] == ClientMoves(false) && w.client == CWrite(i)) || WriteFails(n, Step(n, w, es[0]), es[1..], i))
  }

  /** Whenever the client's thread reads or writes there is a connection to write to. */
  ghost predicate Backed(w: World) {
    w.sh.serverUp || w.client.CRead? || w.client.CWrite? || Opening(w.server) || Answering(w.server) ==> w.sh.sessions != []
  }

  lemma StepKeepsBacked(n: nat, w: World, e: Event)
    requires Backed(w)
    ensures Backed(Step(n, w, e))
  {
    hide Write, Open, Accept;
    match e
    case ClientMoves(ok) => assert Backed(ClientStep(w, ok));
    case ServerMoves(ok, good) => ServerKeepsBacked(n, w, ok, good);
  }

  lemma ServerKeepsBacked(n: nat, w: World, ok: bool, good: bool)
    requires Backed(w)
    ensures Backed(ServerStep(n, w, ok, good))
  {
    hide Write, Open, Accept;
    match w.server
    case SLogin =>
    case SReply =>
    case SPass(_) =>
    case SAccept(_) =>
    case _ =>
  }

  /** What has become of frame `i`. */
  ghost predicate Fate(w: World, i: nat, failed: bool) {
    && (w.client.CWrite? ==> w.client.index + 1 == w.taken)
    && (failed ==> i < w.taken && w.client != CWrite(i))
    && (i in Delivered(w.sh.sessions) <==> i < w.taken && w.client != CWrite(i) && !failed)
  }

  lemma ServerKeepsFate(n: nat, w: World, ok: bool, good: bool, i: nat, failed: bool)
    requires Fate(w, i, failed)
    ensures Fate(ServerStep(n, w, ok, good), i, failed)
  {
    ServerDelivers(n, w, ok, good);
    hide Delivered, Write, Open, Accept;
    assert ServerStep(n, w, ok, good).client == w.client && ServerStep(n, w, ok, good).taken == w.taken;
    hide ServerStep;
  }

  lemma ClientKeepsFate(w: World, ok: bool, i: nat, failed: bool)
    requires Fate(w, i, failed) && Backed(w)
    ensures Fate(ClientStep(w, ok), i, failed || (!ok && w.client == CWrite(i)))
  {
    ClientDelivers(w, ok);
    hide Delivered, Write;
  }

  lemma {:induction false} RunKeepsFate(n: nat, w: World, es: seq<Event>, i: nat, failed: bool)
    requires Fate(w, i, failed) && Backed(w)
    ensures Fate(Run(n, w, es), i, failed || WriteFails(n, w, es, i))
    ensures Run(n, w, es).taken == w.taken + ClientReads(n, w, es)
    decreases es
  {
    if es != [] {
      StepKeepsBacked(n, w, es[0]);
      hide Fate, Backed;
      match es[0] {
        case ServerMoves(ok, good) => ServerKeepsFate(n, w, ok, good, i, failed);
        case ClientMoves(ok) => ClientKeepsFate(w, ok, i, failed);
      }
      RunKeepsFate(n, Step(n, w, es[0]), es[1..], i, failed || (es[0] == ClientMoves(false) && w.client == CWrite(i)));
    }
  }

  /** Which frames of the client's get through, exactly: all that were read, but for those whose write failed and the one
      still in hand. */
  lemma DeliveredIff(n: nat, es: seq<Event>, i: nat)
    ensures var w := Run(n, START, es);
      i in Delivered(w.sh.sessions) <==>
        i < ClientReads(n, START, es) && w.client != CWrite(i) && !WriteFails(n, START, es, i)
  {
    RunKeepsFate(n, START, es, i, false);
  }

  // ---- What the client sees ----

  /** Until the first login reply has been passed on no server counts as connected and the client
      has seen nothing; from then on it has seen that reply first and relayed frames after. */
  ghost predicate ShownWell(w: World) {
    var sh := w.sh;
    && (sh.firstLogin ==> sh.shown == [] && !sh.serverUp && !w.server.SRead? && !w.server.SRelay? && !w.server.SAccept?)
    && (!sh.firstLogin ==> sh.shown != [] && sh.shown[0] == LoginReply && forall i :: 0 < i < |sh.shown| ==> sh.shown[i].Relayed?)
  }

  lemma StepKeepsShownWell(n: nat, w: World, e: Event)
    requires ShownWell(w)
    ensures ShownWell(Step(n, w, e))
  {
    hide Write, Open, Accept;
    match e
    case ClientMoves(ok) => assert ShownWell(ClientStep(w, ok));
    case ServerMoves(ok, good) => ServerKeepsShownWell(n, w, ok, good);
  }

  lemma ServerKeepsShownWell(n: nat, w: World, ok: bool, good: bool)
    requires ShownWell(w)
    ensures ShownWell(ServerStep(n, w, ok, good))
  {
    hide Write, Open, Accept;
    match w.server
    case SRelay(_) =>
    case SPass(_) =>
    case SAccept(_) =>
    case _ =>
  }

  lemma {:induction false} RunKeepsShownWell(n: nat, w: World, es: seq<Event>)
    requires ShownWell(w)
    ensures ShownWell(Run(n, w, es))
    decreases es
  {
    if es != [] {
      StepKeepsShownWell(n, w, es[0]);
      RunKeepsShownWell(n, Step(n, w, es[0]), es[1..]);
    }
  }

  /** However many servers the proxy logs in on, the client is shown at most one login reply, and that
      before anything else. */
  lemma OneLoginReply(n: nat, es: seq<Event>)
    ensures var shown := Run(n, START, es).sh.shown;
      forall i :: 0 <= i < |shown| ==> (shown[i] == LoginReply <==> i == 0)
  {
    RunKeepsShownWell(n, START, es);
  }

  /** How many frames the run reads from servers, to be passed on. */
  function ServerReads(n: nat, w: World, es: seq<Event>): nat
    decreases es
  {
    if es == [] then 0
    else (if es[0].ServerMoves? && es[0].ok && w.server.SRead? then 1 else 0) + ServerReads(n, Step(n, w, es[0]), es[1..])
  }

  /** In the course of the run the client cannot be written to. */
  predicate RelayFails(n: nat, w: World, es: seq<Event>)
    decreases es
  {
    es != [] && ((es[0].ServerMoves? && !es[0].ok && w.server.SRelay?) || RelayFails(n, Step(n, w, es[0]), es[1..]))
  }

  /** The frames from servers, the first `k` of them, in order. */
  function Relays(k: nat): (s: seq<Shown>)
    ensures |s| == k && forall i :: 0 <= i < k ==> s[i] == Relayed(i)
  {
    seq(k, i requires 0 <= i < k => Relayed(i))
  }

  predicate Dying(pc: ServerPc) {
    pc == SSayEnd(true) || pc == SDown(true) || pc == SKill || pc == SExit
  }

  /** The client has been shown every frame that was read, but for the one in hand or the one whose write failed, which is
      the last. */
  ghost predicate Passing(w: World, lost: bool) {
    var kept := if w.server.SRelay? || lost then 1 else 0;
    && ShownWell(w)
    && (w.server.SRelay? ==> w.server.index + 1 == w.received && !lost)
    && (lost ==> Dying(w.server)) && kept <= w.received
    && w.sh.shown == (if w.sh.firstLogin then [] else [LoginReply]) + Relays(w.received - kept)
  }

  lemma ServerKeepsPassing(n: nat, w: World, ok: bool, good: bool, lost: bool)
    requires Passing(w, lost)
    ensures Passing(ServerStep(n, w, ok, good), lost || (!ok && w.server.SRelay?))
  {
    ServerKeepsShownWell(n, w, ok, good);
    hide Write, Open, Accept, ShownWell;
    match w.server
    case SRelay(i) =>
      assert ok ==> Relays(i) + [Relayed(i)] == Relays(i + 1);
    case SPass(_) =>
      if w.sh.firstLogin { FirstShown(w, lost); }
    case SRead =>
    case SAccept(_) =>
    case SSayEnd(_) =>
    case SDown(_) =>
    case _ =>
  }

  lemma FirstShown(w: World, lost: bool)
    requires Passing(w, lost) && w.sh.firstLogin
    ensures w.sh.shown == [] && !w.server.SRelay? && w.received == if lost then 1 else 0
  {
  }

  lemma ClientKeepsPassing(w: World, ok: bool, lost: bool)
    requires Passing(w, lost)
    ensures Passing(ClientStep(w, ok), lost)
  {
    StepKeepsShownWell(0, w, ClientMoves(ok));
    ClientShowsNothing(w, ok);
    hide ClientStep, ShownWell;
  }

  lemma ClientShowsNothing(w: World, ok: bool)
    ensures var v := ClientStep(w, ok);
      v.server == w.server && v.received == w.received && v.sh.shown == w.sh.shown && v.sh.firstLogin == w.sh.firstLogin
  {
    hide Write;
  }

  lemma ReadsOne(n: nat, w: World, e: Event)
    ensures Step(n, w, e).received == w.received + if e.ServerMoves? && e.ok && w.server.SRead? then 1 else 0
  {
    hide Write, Open, Accept;
  }

  lemma {:induction false} RunKeepsPassing(n: nat, w: World, es: seq<Event>, lost: bool)
    requires Passing(w, lost)
    ensures Passing(Run(n, w, es), lost || RelayFails(n, w, es))
    ensures Run(n, w, es).received == w.received + ServerReads(n, w, es)
    decreases es
  {
    if es != [] {
      ReadsOne(n, w, es[0]);
      hide Passing;
      match es[0] {
        case ServerMoves(ok, good) => ServerKeepsPassing(n, w, ok, good, lost);
        case ClientMoves(ok) => ClientKeepsPassing(w, ok, lost);
      }
      hide ServerStep, ClientStep;
      RunKeepsPassing(n, Step(n, w, es[0]), es[1..], lost || (es[0].ServerMoves? && !es[0].ok && w.server.SRelay?));
    }
  }

  /** What the client is shown, exactly: the first login reply, and then every frame read from a server, in order and
      once, up to the one in hand or the first that could not be written. */
  lemma ShownExactly(n: nat, es: seq<Event>)
    ensures var w := Run(n, START, es);
      var kept := if w.server.SRelay? || RelayFails(n, START, es) then 1 else 0;
      kept <= ServerReads(n, START, es)
      && w.sh.shown == (if w.sh.firstLogin then [] else [LoginReply]) + Relays(ServerReads(n, START, es) - kept)
  {
    RunKeepsPassing(n, START, es, false);
  }

  // ---- What ends the proxy ----

  /** The client cannot be read or written any more, or the list of servers is at its end. */
  predicate Ends(n: nat, w: World, e: Event) {
    match e
    case ClientMoves(ok) => !ok && w.client.CRead?
    case ServerMoves(ok, _) => (!ok && w.server.SRelay?) || (w.server.SAfter? && w.sh.cursor >= n)
  }

  predicate EndsIn(n: nat, w: World, es: seq<Event>)
    decreases es
  {
    es != [] && (Ends(n, w, es[0]) || EndsIn(n, Step(n, w, es[0]), es[1..]))
  }

  /** A thread is on its way out, or the other has been told to go. */
  predicate Ending(w: World) {
    || w.sh.error || !w.sh.clientUp
    || w.client == CSayEnd(true) || w.client == CDown(true) || w.client == CKill || w.client == CExit || Dying(w.server)
  }

  /** Before the end both threads work on; afterwards one is at the end of its closing, or `_error` is set. */
  ghost predicate Working(w: World, over: bool) {
    && (Ending(w) <==> over)
    && (w.sh.error || !w.sh.clientUp || w.client == CExit || w.server == SExit ==> w.sh.error && !w.sh.clientUp)
  }

  lemma StepKeepsWorking(n: nat, w: World, e: Event, over: bool)
    requires Working(w, over)
    ensures Working(Step(n, w, e), over || Ends(n, w, e))
  {
    match e
    case ClientMoves(ok) => ClientKeepsWorking(n, w, ok, over);
    case ServerMoves(ok, good) => ServerKeepsWorking(n, w, ok, good, over);
  }

  lemma ClientKeepsWorking(n: nat, w: World, ok: bool, over: bool)
    requires Working(w, over)
    ensures Working(ClientStep(w, ok), over || Ends(n, w, ClientMoves(ok)))
  {
    hide Write;
    match w.client
    case CSayEnd(_) =>
    case CDown(_) =>
    case _ =>
  }

  lemma ServerKeepsWorking(n: nat, w: World, ok: bool, good: bool, over: bool)
    requires Working(w, over)
    ensures Working(ServerStep(n, w, ok, good), over || Ends(n, w, ServerMoves(ok, good)))
  {
    hide Write, Open, Accept;
    match w.server
    case SRelay(_) =>
    case SSayEnd(_) =>
    case SDown(_) =>
    case SAfter =>
    case _ =>
  }

  lemma {:induction false} RunKeepsWorking(n: nat, w: World, es: seq<Event>, over: bool)
    requires Working(w, over)
    ensures Working(Run(n, w, es), over || EndsIn(n, w, es))
    decreases es
  {
    if es != [] {
      hide Working, Ends;
      StepKeepsWorking(n, w, es[0], over);
      RunKeepsWorking(n, Step(n, w, es[0]), es[1..], over || Ends(n, w, es[0]));
    }
  }

  /** The proxy ends, exactly, when a read from the client or a write to it fails or no listed server is left to try; the loss of
      a server never ends it. A thread is gone only once `_error` is set and the client marked down. */
  lemma EndsIff(n: nat, es: seq<Event>)
    ensures var w := Run(n, START, es);
      (Ending(w) <==> EndsIn(n, START, es))
      && (w.client == CExit || w.server == SExit ==> w.sh.error && !w.sh.clientUp)
  {
    RunKeepsWorking(n, START, es, false);
  }

  /** Once `_error` is set a thread that comes to its tests is gone two moves later. While no server is connected nothing is
      read from the client. */
  lemma TestsObeyed(n: nat, w: World)
    ensures w.sh.error && !w.sh.clientUp && w.client == CTest ==> ClientStep(ClientStep(w, true), true).client == CExit
    ensures w.sh.error && !w.sh.clientUp && w.server == STest ==>
      ServerStep(n, ServerStep(n, w, true, true), true, true).server == SExit
    ensures !w.sh.serverUp && !w.sh.error && w.client == CTest ==> ClientStep(ClientStep(w, true), true) == w
    ensures !w.sh.serverUp && w.sh.clientUp && w.server == STest ==>
      ServerStep(n, ServerStep(n, w, true, true), true, true) == w.(sh := w.sh.(cursor := 0), server := SLoop)
  {
  }

  // ---- Sessions begin with the login ----

  predicate BeginsWithLogin(s: Session) {
    s.log != [] && s.log[0] == Login
  }

  /** A connection is open but has not been sent the login. */
  predicate Opening(pc: ServerPc) {
    pc.SShake? || pc.SLogin?
  }

  predicate Answering(pc: ServerPc) {
    pc.SReply? || pc.SPass? || pc.SAccept?
  }

  /** The client's thread writes while the other one has a connection open but has not logged in on it: the two
      share `_sslServer` without a lock. */
  predicate EarlyWrite(w: World, e: Event) {
    e.ClientMoves? && e.ok && (w.client.CWrite? || w.client.CSayEnd?) && Opening(w.server)
  }

  /** In the course of the run such a write went to session `j`. */
  predicate EarlyOn(n: nat, w: World, es: seq<Event>, j: nat)
    decreases es
  {
    es != [] &&
    ((EarlyWrite(w, es[0]) && j == |w.sh.sessions| - 1) || EarlyOn(n, Step(n, w, es[0]), es[1..], j))
  }

  /** What is known of session `j`: one that had an early write begins with something else; while the last one is
      being opened it has been sent nothing but such writes; from the login on, and if it is accepted, it begins
      with the login or with such a write. */
  ghost predicate Stands(w: World, j: nat, early: bool) {
    var s := w.sh.sessions;
    var current := j == |s| - 1;
    && (Opening(w.server) || Answering(w.server) ==> s != [])
    && (early ==> j < |s| && s[j].log != [] && s[j].log[0] != Login)
    && (current && Opening(w.server) ==> !s[j].accepted && (!early ==> s[j].log == []))
    && (j < |s| && (s[j].accepted || (current && Answering(w.server))) ==> (BeginsWithLogin(s[j]) <==> !early))
  }

  lemma ServerKeepsStanding(n: nat, w: World, ok: bool, good: bool, j: nat, early: bool)
    requires Stands(w, j, early)
    ensures Stands(ServerStep(n, w, ok, good), j, early)
  {
    hide Delivered, Indexes;
    match w.server
    case SSayEnd(_) =>
    case SConnect =>
    case SShake =>
    case SLogin =>
    case SReply =>
    case SPass(_) =>
    case SAccept(_) =>
    case _ =>
  }

  lemma ClientKeepsStanding(w: World, ok: bool, j: nat, early: bool)
    requires Stands(w, j, early)
    ensures Stands(ClientStep(w, ok), j, early || (EarlyWrite(w, ClientMoves(ok)) && j == |w.sh.sessions| - 1))
  {
    hide Delivered, Indexes;
    match w.client
    case CWrite(i) =>
    case CSayEnd(_) =>
    case _ =>
  }

  lemma {:induction false} RunKeepsStanding(n: nat, w: World, es: seq<Event>, j: nat, early: bool)
    requires Stands(w, j, early)
    ensures Stands(Run(n, w, es), j, early || EarlyOn(n, w, es, j))
    decreases es
  {
    if es != [] {
      hide Stands, ClientStep, ServerStep;
      var e := es[0];
      match e {
        case ServerMoves(ok, good) => ServerKeepsStanding(n, w, ok, good, j, early);
        case ClientMoves(ok) => ClientKeepsStanding(w, ok, j, early);
      }
      var now := early || (EarlyWrite(w, e) && j == |w.sh.sessions| - 1);
      RunKeepsStanding(n, Step(n, w, e), es[1..], j, now);
    }
  }

  /** A session that was accepted as connected began with the login if and only if no early write went to it. */
  lemma BeginsIff(n: nat, es: seq<Event>, j: nat)
    requires var s := Run(n, START, es).sh.sessions; j < |s| && s[j].accepted
    ensures BeginsWithLogin(Run(n, START, es).sh.sessions[j]) <==> !EarlyOn(n, START, es, j)
  {
    RunKeepsStanding(n, START, es, j, false);
  }

  /** In any run, all accepted sessions began with the login if and only if no early write was made on a connection that
      was accepted. */
  lemma LoginComesFirstIff(n: nat, es: seq<Event>)
    ensures var s := Run(n, START, es).sh.sessions;
      (forall j :: 0 <= j < |s| && s[j].accepted ==> BeginsWithLogin(s[j]))
      <==> !exists j :: 0 <= j < |s| && s[j].accepted && EarlyOn(n, START, es, j)
  {
    hide EarlyOn, Run, BeginsWithLogin;
    var s := Run(n, START, es).sh.sessions;
    forall j | 0 <= j < |s| && s[j].accepted ensures BeginsWithLogin(s[j]) <==> !EarlyOn(n, START, es, j) {
      BeginsIff(n, es, j);
    }
  }

  // ---- connect_server and the reconnection loop, undisturbed ----

  /** How the calls that one `connect_server` makes would go. */
  datatype Attempt = Attempt(opens: bool, shakes: bool, sent: bool, read: bool, passed: bool, good: bool)

  /** The attempt comes as far as the login reply. */
  predicate Answered(o: Attempt) {
    o.opens && o.shakes && o.sent && o.read
  }

  /** The attempt is accepted; the reply is passed to the client only the first time. */
  predicate Accepted(first: bool, o: Attempt) {
    Answered(o) && (first ==> o.passed) && o.good
  }

  function Connected(sh: Shared, o: Attempt): Shared {
    if !o.opens then sh
    else if !o.shakes then Open(sh)
    else if !o.sent || !o.read then Write(Open(sh), Login, o.sent)
    else
      var it := Write(Open(sh), Login, true);
      if sh.firstLogin && !o.passed then it
      else
        var on := if sh.firstLogin then it.(firstLogin := false, shown := it.shown + [LoginReply]) else it;
        if o.good then Accept(on) else on
  }

  /** The connecting thread, left alone, does what `Connected` says. */
  lemma ConnectsAlone(n: nat, w: World, o: Attempt) returns (es: seq<Event>)
    requires w.server.SConnect?
    ensures Run(n, w, es) == w.(sh := Connected(w.sh, o), server := SNext)
  {
    hide Run, Write, Open, Accept;
    assert Run(n, w, []) == w by { NoMoves(n, w); }
    var w0 := w;
    es := [];
    es, w0 := Then(n, w, es, w0, ServerMoves(o.opens, o.good));
    if o.opens { es, w0 := Then(n, w, es, w0, ServerMoves(o.shakes, o.good)); }
    if o.opens && o.shakes { es, w0 := Then(n, w, es, w0, ServerMoves(o.sent, o.good)); }
    if o.opens && o.shakes && o.sent { es, w0 := Then(n, w, es, w0, ServerMoves(o.read, o.good)); }
    if Answered(o) { es, w0 := Then(n, w, es, w0, ServerMoves(o.passed, o.good)); }
    if Answered(o) && (w.sh.firstLogin ==> o.passed) { es, w0 := Then(n, w, es, w0, ServerMoves(true, o.good)); }
  }

  lemma NoMoves(n: nat, w: World)
    ensures Run(n, w, []) == w
  {
  }

  lemma {:induction false} RunSnoc(n: nat, w: World, es: seq<Event>, e: Event)
    ensures Run(n, w, es + [e]) == Step(n, Run(n, w, es), e)
    decreases es
  {
    if es == [] {
      assert [e][1..] == [];
    } else {
      assert (es + [e])[1..] == es[1..] + [e];
      RunSnoc(n, Step(n, w, es[0]), es[1..], e);
    }
  }

  lemma Then(n: nat, w: World, es: seq<Event>, v: World, e: Event) returns (more: seq<Event>, u: World)
    requires Run(n, w, es) == v
    ensures more == es + [e] && u == Step(n, v, e) && Run(n, w, more) == u
  {
    more, u := es + [e], Step(n, v, e);
    RunSnoc(n, w, es, e);
  }

  lemma {:induction false} RunAppend(n: nat, w: World, a: seq<Event>, b: seq<Event>)
    ensures Run(n, w, a + b) == Run(n, Run(n, w, a), b)
    decreases a
  {
    if a == [] {
      assert a + b == b;
    } else {
      assert (a + b)[0] == a[0] && (a + b)[1..] == a[1..] + b;
      RunAppend(n, Step(n, w, a[0]), a[1..], b);
    }
  }

  lemma FirstConnection(n: nat) returns (es: seq<Event>)
    requires n >= 2
    ensures Run(n, START, es) ==
      World(Shared(true, true, false, false, 1, [Session([Login], true)], [LoginReply]), 0, 0, CTest, STest)
  {
    var w, go := START, ServerMoves(true, true);
    es := [];
    NoMoves(n, w);
    hide Run;
    es, w := Then(n, START, es, w, go);
    es, w := Then(n, START, es, w, go);
    es, w := Then(n, START, es, w, go);
    var o := Attempt(true, true, true, true, true, true);
    var more := ConnectsAlone(n, w, o);
    RunAppend(n, START, es, more);
    assert Open(w.sh).sessions == [Session([], false)];
    assert [] + [Login] == [Login];
    assert Write(Open(w.sh), Login, true).sessions == [Session([Login], false)];
    assert Connected(w.sh, o).sessions == [Session([Login], true)];
    es, w := es + more, w.(sh := Connected(w.sh, o), server := SNext);
    es, w := Then(n, START, es, w, go);
    es, w := Then(n, START, es, w, go);
    es, w := Then(n, START, es, w, go);
    es, w := Then(n, START, es, w, go);
  }

  /** The client's thread holds a frame while the other one loses its server and has the next connection
      open, about to log in on it. */
  lemma FrameInHand(n: nat) returns (es: seq<Event>)
    requires n >= 2
    ensures Run(n, START, es) ==
      World(Shared(false, true, false, false, 0, [Session([Login], true), Session([], false)], [LoginReply]), 1, 0,
        CWrite(0), SLogin)
  {
    var go := ServerMoves(true, true);
    es := FirstConnection(n);
    var w := Run(n, START, es);
    es, w := Then(n, START, es, w, ClientMoves(true));
    es, w := Then(n, START, es, w, ClientMoves(true));
    es, w := Then(n, START, es, w, go);
    es, w := Then(n, START, es, w, ServerMoves(false, true));
    es, w := Then(n, START, es, w, ServerMoves(false, true));
    es, w := Then(n, START, es, w, go);
    es, w := Then(n, START, es, w, go);
    es, w := Then(n, START, es, w, go);
    es, w := Then(n, START, es, w, go);
    es, w := Then(n, START, es, w, go);
    es, w := Then(n, START, es, w, go);
    es, w := Then(n, START, es, w, go);
  }

  /** The early write does happen, with two listed servers: a session is accepted that began with a frame of the
      client's where the login should be. */
  lemma FrameBeforeLogin(n: nat) returns (es: seq<Event>)
    requires n >= 2
    ensures var s := Run(n, START, es).sh.sessions; |s| == 2 && s[1] == Session([FromClient(0), Login], true)
  {
    var go := ServerMoves(true, true);
    es := FrameInHand(n);
    var w := Run(n, START, es);
    es, w := Then(n, START, es, w, ClientMoves(true));
    es, w := Then(n, START, es, w, go);
    es, w := Then(n, START, es, w, go);
    es, w := Then(n, START, es, w, go);
    es, w := Then(n, START, es, w, go);
  }

  /** The loop over the server list, from the cursor on. */
  function Tried(sh: Shared, attempts: seq<Attempt>): (r: Shared)
    decreases |attempts| - sh.cursor
  {
    if sh.cursor >= |attempts| || sh.serverUp then sh
    else
      var next := Connected(sh, attempts[sh.cursor]);
      Tried(next.(cursor := sh.cursor + 1), attempts)
  }

  function GivenUp(sh: Shared, ok: bool): Shared {
    Write(sh, End, ok).(serverUp := false, clientUp := false, error := true)
  }

  function Reconnected(sh: Shared, attempts: seq<Attempt>, ok: bool): Shared {
    var it := Tried(sh.(cursor := 0), attempts);
    if it.cursor >= |attempts| then GivenUp(it, ok) else it
  }

  /** The loop of the connecting thread, left alone, goes over the list as `Tried` says. */
  lemma {:induction false} TriesAlone(n: nat, w: World, attempts: seq<Attempt>) returns (es: seq<Event>)
    requires w.server.SLoop? && |attempts| == n
    ensures Run(n, w, es) == w.(sh := Tried(w.sh, attempts), server := SAfter)
    decreases n - w.sh.cursor
  {
    hide Run, Connected;
    var go := ServerMoves(true, true);
    NoMoves(n, w);
    es := [];
    var v := w;
    es, v := Then(n, w, es, v, go);
    if w.sh.cursor < n && !w.sh.serverUp {
      var o := attempts[w.sh.cursor];
      ConnectedFacts(w.sh, o);
      var more := ConnectsAlone(n, v, o);
      RunAppend(n, w, es, more);
      es, v := es + more, v.(sh := Connected(v.sh, o), server := SNext);
      es, v := Then(n, w, es, v, go);
      more := TriesAlone(n, v, attempts);
      RunAppend(n, w, es, more);
      es := es + more;
    }
  }

  /** The whole search for another server, left alone, leaves the fields as `Reconnected` says, and the thread working on or
      gone. */
  lemma ReconnectsAlone(n: nat, w: World, attempts: seq<Attempt>, ok: bool) returns (es: seq<Event>)
    requires w.server.SReset? && |attempts| == n
    ensures Run(n, w, es) == w.(sh := Reconnected(w.sh, attempts, ok),
      server := if Tried(w.sh.(cursor := 0), attempts).cursor >= n then SExit else SErr)
  {
    hide Run, Tried, Write;
    var go := ServerMoves(true, true);
    NoMoves(n, w);
    es := [];
    var v := w;
    es, v := Then(n, w, es, v, go);
    var more := TriesAlone(n, v, attempts);
    RunAppend(n, w, es, more);
    es, v := es + more, v.(sh := Tried(v.sh, attempts), server := SAfter);
    es, v := Then(n, w, es, v, go);
    if v.server == SSayEnd(true) {
      es, v := Then(n, w, es, v, ServerMoves(ok, true));
      es, v := Then(n, w, es, v, go);
      es, v := Then(n, w, es, v, go);
    }
  }

  /** A thread that cannot read from its server, or write to it, says goodbye on the connection and marks it down. */
  lemma ServerLostAlone(n: nat, w: World, ok: bool)
    ensures w.server.SRead? ==>
      Run(n, w, [ServerMoves(false, true), ServerMoves(ok, true), ServerMoves(true, true)])
      == w.(sh := Write(w.sh, End, ok).(serverUp := false), server := SErr)
    ensures w.client.CWrite? ==>
      Run(n, w, [ClientMoves(false), ClientMoves(ok), ClientMoves(true)])
      == w.(sh := Write(w.sh, End, ok).(serverUp := false), client := CErr)
  {
    hide Write;
    if w.server.SRead? { ThreeMoves(n, w, ServerMoves(false, true), ServerMoves(ok, true), ServerMoves(true, true)); }
    if w.client.CWrite? { ThreeMoves(n, w, ClientMoves(false), ClientMoves(ok), ClientMoves(true)); }
  }

  /** A thread that cannot read from the client, or write to it, does the same, closes the client too, and is gone. */
  lemma ClientLostAlone(n: nat, w: World, ok: bool)
    ensures w.server.SRelay? ==>
      Run(n, w, [ServerMoves(false, true), ServerMoves(ok, true), ServerMoves(true, true)] + [ServerMoves(true, true)])
      == w.(sh := GivenUp(w.sh, ok), server := SExit)
    ensures w.client.CRead? ==>
      Run(n, w, [ClientMoves(false), ClientMoves(ok), ClientMoves(true)] + [ClientMoves(true)])
      == w.(sh := GivenUp(w.sh, ok), client := CExit)
  {
    hide Write;
    if w.server.SRelay? {
      ThreeMoves(n, w, ServerMoves(false, true), ServerMoves(ok, true), ServerMoves(true, true));
      RunSnoc(n, w, [ServerMoves(false, true), ServerMoves(ok, true), ServerMoves(true, true)], ServerMoves(true, true));
    }
    if w.client.CRead? {
      ThreeMoves(n, w, ClientMoves(false), ClientMoves(ok), ClientMoves(true));
      RunSnoc(n, w, [ClientMoves(false), ClientMoves(ok), ClientMoves(true)], ClientMoves(true));
    }
  }

  lemma ThreeMoves(n: nat, w: World, a: Event, b: Event, c: Event)
    ensures Run(n, w, [a, b, c]) == Step(n, Step(n, Step(n, w, a), b), c)
  {
    hide Run, Step;
    NoMoves(n, w);
    RunSnoc(n, w, [], a);
    RunSnoc(n, w, [a], b);
    RunSnoc(n, w, [a, b], c);
    assert [] + [a] == [a] && [a] + [b] == [a, b] && [a, b] + [c] == [a, b, c];
  }

  /** Whether the login reply is still to be passed on when attempt `k` is made. */
  function FirstAt(first: bool, attempts: seq<Attempt>, k: nat): bool
    requires k <= |attempts|
  {
    if k == 0 then first else FirstAt(first, attempts, k - 1) && !(Answered(attempts[k - 1]) && attempts[k - 1].passed)
  }

  /** Some attempt from `k` on, but not the last of the list, is accepted. */
  ghost predicate AcceptedFrom(first: bool, attempts: seq<Attempt>, k: nat) {
    exists i :: k <= i < |attempts| - 1 && Accepted(FirstAt(first, attempts, i), attempts[i])
  }

  lemma ConnectedFacts(sh: Shared, o: Attempt)
    ensures var r := Connected(sh, o);
      && r.cursor == sh.cursor && r.clientUp == sh.clientUp && r.error == sh.error
      && (r.serverUp <==> sh.serverUp || Accepted(sh.firstLogin, o))
      && r.firstLogin == (sh.firstLogin && !(Answered(o) && o.passed))
  {
    hide Write, Open, Accept;
  }

  lemma {:induction false} TriedIff(sh: Shared, first: bool, attempts: seq<Attempt>)
    requires !sh.serverUp && sh.cursor <= |attempts| && sh.firstLogin == FirstAt(first, attempts, sh.cursor)
    ensures var it := Tried(sh, attempts);
      it.cursor <= |attempts| && it.clientUp == sh.clientUp && it.error == sh.error
      && (it.cursor < |attempts| <==> AcceptedFrom(first, attempts, sh.cursor)) && (it.cursor < |attempts| ==> it.serverUp)
    decreases |attempts| - sh.cursor
  {
    if sh.cursor < |attempts| {
      hide Connected, Accepted, Answered;
      var k, o := sh.cursor, attempts[sh.cursor];
      var next := Connected(sh, o).(cursor := k + 1);
      ConnectedFacts(sh, o);
      if !next.serverUp {
        TriedIff(next, first, attempts);
        assert !Accepted(FirstAt(first, attempts, k), o);
        assert AcceptedFrom(first, attempts, k) <==> AcceptedFrom(first, attempts, k + 1);
      } else {
        assert Tried(next, attempts) == next;
        assert Accepted(FirstAt(first, attempts, k), o);
      }
    }
  }

  /** Failover, exactly: after a loss the proxy goes on if and only if some server other than the last of the list
      accepts it. A success on the last one leaves the cursor at the end and is taken for
      a failure; the client is then closed as well. */
  lemma KeptIff(sh: Shared, attempts: seq<Attempt>, ok: bool)
    requires !sh.serverUp && sh.clientUp && !sh.error
    ensures var r := Reconnected(sh, attempts, ok);
      (r.serverUp <==> AcceptedFrom(sh.firstLogin, attempts, 0))
      && r.clientUp == r.serverUp && r.error == !r.serverUp
  {
    TriedIff(sh.(cursor := 0), sh.firstLogin, attempts);
  }

  /** The proxy's fields and the calls of the connecting thread. */
  class ClientProxy {
    const servers: nat
    var isServerConnected: bool
    var isClientConnected: bool
    var error: bool
    var firstLogin: bool
    var it: nat
    var sessions: seq<Session>
    var shown: seq<Shown>

    ghost function Contents(): Shared
      reads this
    {
      Shared(isServerConnected, isClientConnected, error, firstLogin, it, sessions, shown)
    }

    constructor (n: nat)
      ensures servers == n && Contents() == Shared(false, false, false, true, 0, [], [])
    {
      servers := n;
      isServerConnected, isClientConnected, error, firstLogin, it, sessions, shown := false, false, false, true, 0, [], [];
    }

    method WriteServer(w: Wire, ok: bool)
      modifies `sessions
      ensures Contents() == Write(old(Contents()), w, ok)
    {
      if ok && sessions != [] {
        var last := sessions[|sessions| - 1];
        sessions := sessions[|sessions| - 1 := last.(log := last.log + [w])];
      }
    }

    method CloseServerConnection(ok: bool)
      modifies `sessions, `isServerConnected
      ensures Contents() == Write(old(Contents()), End, ok).(serverUp := false)
    {
      WriteServer(End, ok);
      isServerConnected := false;
    }

    method CloseClientConnection()
      modifies `isClientConnected
      ensures Contents() == old(Contents()).(clientUp := false)
    {
      isClientConnected := false;
    }

    /** `connect_server`. */
    method ConnectServer(o: Attempt) returns (r: int)
      modifies `isServerConnected, `firstLogin, `sessions, `shown
      ensures Contents() == Connected(old(Contents()), o)
      ensures r >= 0 <==> Accepted(old(firstLogin), o)
    {
      if !o.opens { return -1; }
      sessions := sessions + [Session([], false)];
      if !o.shakes { return -1; }
      WriteServer(Login, o.sent);
      if !o.sent { return -1; }
      if !o.read { return -1; }
      if firstLogin {
        if !o.passed { return -1; }
        shown := shown + [LoginReply];
      }
      firstLogin := false;
      if !o.good { return -1; }
      sessions := sessions[|sessions| - 1 := sessions[|sessions| - 1].(accepted := true)];
      isServerConnected := true;
      return 0;
    }

    /** The part of `handle_serverConnection` that looks for another server. */
    method Reconnect(attempts: seq<Attempt>, ok: bool)
      requires |attempts| == servers
      modifies this
      ensures Contents() == Reconnected(old(Contents()), attempts, ok)
    {
      hide Connected, Accepted, Write;
      it := 0;
      while it != servers && !isServerConnected
        invariant it <= servers
        invariant Tried(Contents(), attempts) == Tried(old(Contents()).(cursor := 0), attempts)
        decreases servers - it
      {
        var r := ConnectServer(attempts[it]);
        it := it + 1;
      }
      if it == servers {
        CloseServerConnection(ok);
        CloseClientConnection();
        error := true;
      }
    }
  }
}
