/** Where the promises of a server end: runs from boot in which the code does what it should not, one
    for each condition in the theorems about runs. */
module ServerLimits {
  import opened Types
  import opened SocketStatus
  import opened WriteBufferSpec
  import opened W5500
  import opened DisconnectRecord
  import opened CallbackTrace
  import opened PlatformNetwork
  import opened ConnectionSpec
  import opened ServerSocketSpec
  import opened ServerFrames
  import opened ServerProtocol
  import opened ServerSystem
  import opened ServerTurns

  // What a listen does, tick by tick, in any world.

  /** A closed socket stays closed by itself. */
  lemma ClosedStays(w: World, n: Net, k: nat)
    requires k < |n.socks| && n.socks[k].status == CLOSED
    ensures Access(w, n, k) == Net(n.tick + 1, n.socks)
  {
  }

  /** A closed socket that is free for the port of the server that holds it. */
  ghost predicate ReadyToListen(s: St) {
    && s.Valid() && s.HasSocket() && s.port > 0 && s.Reg() == CLOSED
    && (s.link.net.socks[s.sock].serverPort == 0 || s.link.net.socks[s.sock].serverPort == s.port)
  }

  const CLEARED := ForcedClose(CLOSED, CLOSED, false)

  /** The held socket a listen leaves behind. */
  function Listening(w: World, s: St, tick: nat): Net
    requires s.Valid() && s.HasSocket() && tick > 0
  {
    Net(tick, s.link.net.socks[s.sock := Sock(w.listens(tick - 1), s.port, 0)])
  }

  lemma ListenSteps(w: World, s: St)
    requires ReadyToListen(s)
    ensures Listen(w, s) ==
            (s.(link := Link(Listening(w, s, s.link.net.tick + 4), s.link.disc, s.link.log + [CLEARED]),
                last := CLOSED), true)
  {
    var n := s.link.net;
    ClosedStays(w, n, s.sock);
    assert CloseSocket(w, n, s.sock) == Net(n.tick + 1, n.socks);
    ClosedStays(w, Net(n.tick + 1, n.socks), s.sock);
    ClosedStays(w, Net(n.tick + 2, n.socks), s.sock);
  }

  lemma BeginListeningSteps(w: World, s: St, final: bool)
    requires ReadyToListen(s)
    ensures var net := Listening(w, s, s.link.net.tick + 6);
            var listening := s.(link := Link(net, s.link.disc, s.link.log + [CLEARED]));
            BeginListening(w, s, final) == (NoteUnsettled(PollLast(w, listening), final), true)
  {
    var n := s.link.net;
    ClosedStays(w, n, s.sock);
    ClosedStays(w, Net(n.tick + 1, n.socks), s.sock);
    var s2 := s.(link := s.link.(net := Net(n.tick + 2, n.socks)));
    assert Poll(w, Poll(w, s)) == s2;
    ListenSteps(w, s2);
  }

  /** Picking socket 0, if it is the first found closed. */
  lemma PickSteps(w: World, s: St)
    requires s.Valid() && !s.HasSocket()
    requires ReadyToListen(s.(link := s.link.(net := Access(w, s.link.net, 0)), sock := 0))
    ensures var held := s.(link := Link(s.link.net, s.link.disc, s.link.log + [CLEARED]), sock := 0);
            var listening := held.(link := held.link.(net := Listening(w, held, s.link.net.tick + 7)));
            PickClosedSocket(w, s)
            == (NoteUnsettled(PollLast(w, NoteUnsettled(PollLast(w, listening), false)), true), true)
  {
    var n1 := Access(w, s.link.net, 0);
    assert FindUnused(w, s.link.net, 0) == (n1, Some(0));
    var s1 := s.(last := CLOSED, link := s.link.(net := n1), sock := 0);
    BeginListeningSteps(w, s1, false);
    var x := Sock(w.listens(s.link.net.tick + 6), s.port, 0);
    assert n1.socks[0 := x] == s.link.net.socks[0 := x];
  }

  // Runs in which the assumptions fail.

  /** A world with an idle listener and working listens, where at tick t the chip takes socket 0 to
      course(t); INIT, which is out of reach, leaves it alone. */
  function Course(course: nat -> Status): World {
    World((t: nat, k: nat) => Move(if k == 0 then course(t) else INIT, 0), t => LISTEN, t => t,
          t => (calls, data) => Response(0, 0), t => [])
  }

  lemma TimeMovesOnCourse(course: nat -> Status)
    ensures TimeMoves(Course(course))
  {
  }

  /** A server that holds socket 0 with the given status, and remembers it. */
  function Holding(net: Net, tick: nat, status: Status, s: St, log: seq<Event>): St
    requires ValidNet(net)
  {
    St(Link(Net(tick, net.socks[0 := Sock(status, s.port, 0)]), s.link.disc, log), 0, status, s.port)
  }

  /** One re-read of a listening socket 0. */
  lemma RereadOnCourse(course: nat -> Status, s: St, final: bool)
    requires s.Valid() && s.sock == 0 && s.Reg() == LISTEN && s.link.net.socks[0] == Sock(LISTEN, s.port, 0)
    requires course(s.link.net.tick) in {INIT, ESTABLISHED}
    ensures var status := if course(s.link.net.tick) == INIT then LISTEN else ESTABLISHED;
            NoteUnsettled(PollLast(Course(course), s), final)
            == NoteUnsettled(Holding(s.link.net, s.link.net.tick + 1, status, s, s.link.log), final)
  {
  }

  /** A pick of socket 0 that is left alone up to its last re-read. */
  lemma PickOnCourse(course: nat -> Status, s: St)
    requires s.Valid() && !s.HasSocket()
    requires ReadyToListen(s.(link := s.link.(net := Access(Course(course), s.link.net, 0)), sock := 0))
    requires course(s.link.net.tick + 7) == INIT && course(s.link.net.tick + 8) in {INIT, ESTABLISHED}
    ensures var status := if course(s.link.net.tick + 8) == INIT then LISTEN else ESTABLISHED;
            PickClosedSocket(Course(course), s).0
            == NoteUnsettled(Holding(s.link.net, s.link.net.tick + 9, status, s, s.link.log + [CLEARED]), true)
  {
    var w, t := Course(course), s.link.net.tick;
    PickSteps(w, s);
    var held := s.(link := Link(s.link.net, s.link.disc, s.link.log + [CLEARED]), sock := 0);
    RereadOnCourse(course, held.(link := held.link.(net := Listening(w, held, t + 7))), false);
    RereadOnCourse(course, Holding(s.link.net, t + 8, LISTEN, s, s.link.log + [CLEARED]), true);
  }

  /** A poll that finds the listener on socket 0 closed and listens again, left alone but for the
      last re-read. */
  lemma RelistenOnCourse(course: nat -> Status, s: St)
    requires s.Valid() && s.sock == 0 && s.port > 0 && s.last == LISTEN
    requires s.link.net.socks[0] == Sock(LISTEN, s.port, 0)
    requires course(s.link.net.tick) == CLOSED && course(s.link.net.tick + 7) == ESTABLISHED
    ensures PerformIO(Course(course), s)
            == NoteUnsettled(Holding(s.link.net, s.link.net.tick + 8, ESTABLISHED, s, s.link.log + [CLEARED]), true)
  {
    BeginListeningSteps(Course(course), PollLast(Course(course), s), true);
  }

  /** The fold that a run of one server is. */
  function Served(w: World, s: St, ops: seq<Op>): (r: St)
    requires s.Valid()
    ensures r.Valid()
    decreases |ops|
  {
    if |ops| == 0 then s else Served(w, Do(w, s, ops[0]), ops[1..])
  }

  function On(i: nat, ops: seq<Op>): seq<Step> {
    seq(|ops|, j requires 0 <= j < |ops| => Step(i, ops[j]))
  }

  lemma {:induction false} RunAlone(w: World, y: System, i: nat, ops: seq<Op>)
    requires ValidSystem(y) && i < |y.servers|
    ensures View(Run(w, y, On(i, ops)), i) == Served(w, View(y, i), ops)
    decreases |ops|
  {
    if |ops| > 0 {
      assert On(i, ops)[1..] == On(i, ops[1..]);
      assert View(Take(w, y, Step(i, ops[0])), i) == Do(w, View(y, i), ops[0]);
      RunAlone(w, Take(w, y, Step(i, ops[0])), i, ops[1..]);
    }
  }

  lemma ServedStep(w: World, s: St, op: Op, ops: seq<Op>)
    requires s.Valid()
    ensures Served(w, s, [op] + ops) == Served(w, Do(w, s, op), ops)
  {
    assert ([op] + ops)[1..] == ops;
  }

  /** The history of server 0 after performing these operations alone. */
  function LogOf(w: World, ops: seq<Op>): seq<Event> {
    Run(w, Boot([80]), On(0, ops)).servers[0].log
  }

  /** What the first pick after boot leaves, on a chip with no socket used yet. */
  function Picked(status: Status): St {
    var s := View(Boot([80]), 0);
    NoteUnsettled(Holding(s.link.net, 9, status, s, [CLEARED]), true)
  }

  lemma FirstPick(course: nat -> Status)
    requires course(7) == INIT && course(8) in {INIT, ESTABLISHED}
    ensures Do(Course(course), View(Boot([80]), 0), Pick) == Picked(if course(8) == INIT then LISTEN else ESTABLISHED)
  {
    var s := View(Boot([80]), 0);
    ClosedStays(Course(course), s.link.net, 0);
    PickOnCourse(course, s);
    assert s.link.log + [CLEARED] == [CLEARED];
  }

  /** A run that starts with a pick. */
  lemma RunFromPick(course: nat -> Status, ops: seq<Op>)
    requires course(7) == INIT && course(8) in {INIT, ESTABLISHED}
    ensures LogOf(Course(course), [Pick] + ops)
            == Served(Course(course), Picked(if course(8) == INIT then LISTEN else ESTABLISHED), ops).link.log
  {
    var w := Course(course);
    RunAlone(w, Boot([80]), 0, [Pick] + ops);
    ServedStep(w, View(Boot([80]), 0), Pick, ops);
    FirstPick(course);
  }

  lemma PhaseAfterTwo(log: seq<Event>, a: Event, b: Event)
    ensures PhaseAfter(log + [a, b]) == Next(Next(PhaseAfter(log), a), b)
  {
    PhaseAfterStep(log, a);
    PhaseAfterStep(log + [a], b);
    assert log + [a, b] == log + [a] + [b];
  }

  /** A listen whose last re-read saw a connection. */
  lemma MissedOnCourse(course: nat -> Status, s: St)
    requires s.Valid() && s.sock == 0 && s.last == ESTABLISHED && s.Reg() == ESTABLISHED
    requires s.link.disc.disconnected && PhaseAfter(s.link.log) == Idle
    requires course(s.link.net.tick) == INIT
    ensures !Protocol(Served(Course(course), s, [Perform]).link.log)
  {
    UnannouncedConnectionBreaksExactly(Course(course), s);
    assert Served(Course(course), s, [Perform]) == PerformIO(Course(course), s);
  }

  const EARLY_AT_PICK: nat -> Status := t => if t == 8 then ESTABLISHED else INIT

  /** A peer that connects between the two re-reads of a pick is never announced, and the next poll
      calls OnCanRead for a connection the listener has not heard of. */
  lemma PeerMissedAtPick()
    ensures TimeMoves(Course(EARLY_AT_PICK)) && !Protocol(LogOf(Course(EARLY_AT_PICK), [Pick] + [Perform]))
  {
    TimeMovesOnCourse(EARLY_AT_PICK);
    RunFromPick(EARLY_AT_PICK, [Perform]);
    PickMissed(Picked(ESTABLISHED));
  }

  lemma PickMissed(s: St)
    requires s.Valid() && s.sock == 0 && s.last == ESTABLISHED && s.Reg() == ESTABLISHED && s.link.disc.disconnected
    requires s.link.net.tick == 9 && s.link.log == [CLEARED] + [Unsettled(ESTABLISHED, true)]
    ensures !Protocol(Served(Course(EARLY_AT_PICK), s, [Perform]).link.log)
  {
    PhaseAfterTwo([], CLEARED, Unsettled(ESTABLISHED, true));
    assert s.link.log == [] + [CLEARED, Unsettled(ESTABLISHED, true)];
    MissedOnCourse(EARLY_AT_PICK, s);
  }

  /** Or the socket is lost before the next poll, and the listener hears of the end of a connection that
      never began. */
  lemma PeerMissedThenLost()
    ensures TimeMoves(Course(EARLY_AT_PICK)) && !Protocol(LogOf(Course(EARLY_AT_PICK), [Pick] + [Lost]))
  {
    var w := Course(EARLY_AT_PICK);
    TimeMovesOnCourse(EARLY_AT_PICK);
    RunFromPick(EARLY_AT_PICK, [Lost]);
    MissedThenLost(w, Picked(ESTABLISHED));
  }

  lemma MissedThenLost(w: World, s: St)
    requires s.Valid() && s.HasSocket() && s.last == ESTABLISHED && s.link.disc.disconnected
    requires s.link.log == [CLEARED] + [Unsettled(ESTABLISHED, true)]
    ensures !Protocol(Served(w, s, [Lost]).link.log)
  {
    PhaseAfterTwo([], CLEARED, Unsettled(ESTABLISHED, true));
    assert s.link.log == [] + [CLEARED, Unsettled(ESTABLISHED, true)];
    LostTurn(w, s);
    assert Served(w, s, [Lost]) == SocketLost(w, s);
    PhasesAreTheProtocol(SocketLost(w, s).link.log);
  }

  const EARLY_AT_RELISTEN: nat -> Status :=
    t => if t == 9 then CLOSED else if t == 16 then ESTABLISHED else INIT

  /** The same at the relisten of a poll, whose one re-read is the last. */
  lemma PeerMissedAtRelisten()
    ensures TimeMoves(Course(EARLY_AT_RELISTEN))
    ensures !Protocol(LogOf(Course(EARLY_AT_RELISTEN), [Pick] + [Perform, Perform]))
  {
    TimeMovesOnCourse(EARLY_AT_RELISTEN);
    RunFromPick(EARLY_AT_RELISTEN, [Perform, Perform]);
    assert [Perform] + [Perform] == [Perform, Perform];
    ServedStep(Course(EARLY_AT_RELISTEN), Picked(LISTEN), Perform, [Perform]);
    RelistenMissed(Picked(LISTEN));
  }

  lemma RelistenMissed(s: St)
    requires s.Valid() && s.sock == 0 && s.port > 0 && s.last == LISTEN && s.link.disc.disconnected
    requires s.link.net.socks[0] == Sock(LISTEN, s.port, 0) && s.link.net.tick == 9 && s.link.log == [CLEARED]
    ensures var w := Course(EARLY_AT_RELISTEN); !Protocol(Served(w, PerformIO(w, s), [Perform]).link.log)
  {
    RelistenOnCourse(EARLY_AT_RELISTEN, s);
    var r := PerformIO(Course(EARLY_AT_RELISTEN), s);
    PhaseAfterStep([], CLEARED);
    PhaseAfterTwo([CLEARED], CLEARED, Unsettled(ESTABLISHED, true));
    assert [] + [CLEARED] == [CLEARED];
    assert r.link.log == [CLEARED] + [CLEARED, Unsettled(ESTABLISHED, true)];
    MissedOnCourse(EARLY_AT_RELISTEN, r);
  }

  const IDLE_END := Destroyed(TallyOf(FlushConn((calls, data) => Response(0, 0), NewConn(WRITE_BUFFER_SIZE))))

  lemma ConnectOnCourse(course: nat -> Status, s: St)
    requires s.Valid() && s.sock == 0 && s.last == LISTEN && s.link.net.socks[0] == Sock(LISTEN, s.port, 0)
    requires course(s.link.net.tick) == ESTABLISHED
    ensures var r := Holding(s.link.net, s.link.net.tick + 1, ESTABLISHED, s, s.link.log + [OnConnect, IDLE_END]);
            PerformIO(Course(course), s) == r.(link := r.link.(disc := Reset(s.link.disc)))
  {
    assert s.link.log + [OnConnect] + [IDLE_END] == s.link.log + [OnConnect, IDLE_END];
  }

  lemma ReleaseOnCourse(course: nat -> Status, s: St)
    requires s.Valid() && s.sock == 0 && s.last == ESTABLISHED && s.link.net.socks[0] == Sock(ESTABLISHED, s.port, 0)
    requires course(s.link.net.tick) == CLOSED
    ensures var net := Net(s.link.net.tick + 3, s.link.net.socks[0 := Sock(CLOSED, s.port, 0)]);
            ReleaseSocket(Course(course), s).0
            == St(Link(net, s.link.disc, s.link.log + [ForcedClose(CLOSED, CLOSED, true), Abandoned]),
                  MAX_SOCK_NUM, CLOSED, s.port)
  {
    var s1 := Poll(Course(course), s);
    assert s1.Reg() == CLOSED;
    ClosedStays(Course(course), s1.link.net, 0);
    ClosedStays(Course(course), CloseSocket(Course(course), s1.link.net, 0), 0);
  }

  const DROPPED_AND_RELEASED: nat -> Status :=
    t => if t == 9 || t == 22 then ESTABLISHED else if t == 10 then CLOSED else INIT

  /** A connection is announced, the peer drops it, and the server is released before the next poll:
      the listener never hears of the end, and is told of the next connection while it still believes
      in the first. Every listen in this run takes effect. */
  lemma ReleaseLosesDisconnect()
    ensures TimeMoves(Course(DROPPED_AND_RELEASED))
    ensures var log := LogOf(Course(DROPPED_AND_RELEASED), [Pick] + [Perform, Release, Pick, Perform]);
            Settled(log) && !Protocol(log)
  {
    var w := Course(DROPPED_AND_RELEASED);
    TimeMovesOnCourse(DROPPED_AND_RELEASED);
    RunFromPick(DROPPED_AND_RELEASED, [Perform, Release, Pick, Perform]);
    var s := Picked(LISTEN);
    FourServed(w, s, Perform, Release, Pick, Perform);
    ConnectedFirst(s);
    DroppedUnheard(PerformIO(w, s));
    PickedAgain(ReleaseSocket(w, PerformIO(w, s)).0);
    ConnectedAgain(PickClosedSocket(w, ReleaseSocket(w, PerformIO(w, s)).0).0);
  }

  lemma FourServed(w: World, s: St, a: Op, b: Op, c: Op, d: Op)
    requires s.Valid()
    ensures Served(w, s, [a, b, c, d]) == Do(w, Do(w, Do(w, Do(w, s, a), b), c), d)
  {
    assert [a] + [b, c, d] == [a, b, c, d] && [b] + [c, d] == [b, c, d] && [c] + [d] == [c, d];
    ServedStep(w, s, a, [b, c, d]);
    ServedStep(w, Do(w, s, a), b, [c, d]);
    ServedStep(w, Do(w, Do(w, s, a), b), c, [d]);
  }

  /** The server holds socket 0 of a chip at this tick and agrees with it. */
  ghost predicate HoldsSocketZero(s: St, tick: nat, status: Status) {
    && s.Valid() && s.sock == 0 && s.port > 0 && s.last == status
    && s.link.net.socks[0] == Sock(status, s.port, 0) && s.link.net.tick == tick
  }

  lemma ConnectedFirst(s: St)
    requires HoldsSocketZero(s, 9, LISTEN) && s.link.log == [CLEARED]
    ensures var r := PerformIO(Course(DROPPED_AND_RELEASED), s);
            HoldsSocketZero(r, 10, ESTABLISHED) && PhaseAfter(r.link.log) == Live && Settled(r.link.log)
  {
    ConnectOnCourse(DROPPED_AND_RELEASED, s);
    PhaseAfterStep([], CLEARED);
    assert [] + [CLEARED] == [CLEARED];
    PhaseAfterTwo([CLEARED], OnConnect, IDLE_END);
  }

  lemma DroppedUnheard(s: St)
    requires HoldsSocketZero(s, 10, ESTABLISHED) && PhaseAfter(s.link.log) == Live && Settled(s.link.log)
    ensures var r := ReleaseSocket(Course(DROPPED_AND_RELEASED), s).0;
            && r.Valid() && !r.HasSocket() && r.port == s.port
            && r.link.net.socks[0] == Sock(CLOSED, s.port, 0) && r.link.net.tick == 13
            && PhaseAfter(r.link.log) == Live && Settled(r.link.log)
  {
    ReleaseOnCourse(DROPPED_AND_RELEASED, s);
    PhaseAfterTwo(s.link.log, ForcedClose(CLOSED, CLOSED, true), Abandoned);
  }

  lemma PickedAgain(s: St)
    requires s.Valid() && !s.HasSocket() && s.port > 0
    requires s.link.net.socks[0] == Sock(CLOSED, s.port, 0) && s.link.net.tick == 13
    requires PhaseAfter(s.link.log) == Live && Settled(s.link.log)
    ensures var r := PickClosedSocket(Course(DROPPED_AND_RELEASED), s).0;
            HoldsSocketZero(r, 22, LISTEN) && PhaseAfter(r.link.log) == Live && Settled(r.link.log)
  {
    ClosedStays(Course(DROPPED_AND_RELEASED), s.link.net, 0);
    PickOnCourse(DROPPED_AND_RELEASED, s);
    PhaseAfterStep(s.link.log, CLEARED);
  }

  lemma ConnectedAgain(s: St)
    requires HoldsSocketZero(s, 22, LISTEN) && PhaseAfter(s.link.log) == Live && Settled(s.link.log)
    ensures var log := PerformIO(Course(DROPPED_AND_RELEASED), s).link.log; Settled(log) && !Protocol(log)
  {
    ConnectOnCourse(DROPPED_AND_RELEASED, s);
    PhaseAfterTwo(s.link.log, OnConnect, IDLE_END);
    PhasesAreTheProtocol(PerformIO(Course(DROPPED_AND_RELEASED), s).link.log);
  }

  const CONNECTS_AT_RELEASE: nat -> Status := t => if t == 10 then ESTABLISHED else INIT

  /** Between ReleaseSocket's check and its close a peer can connect, and is cut off. */
  lemma ReleaseCanRace()
    ensures TimeMoves(Course(CONNECTS_AT_RELEASE))
    ensures LogOf(Course(CONNECTS_AT_RELEASE), [Pick] + [Release]) == [CLEARED, ForcedClose(LISTEN, ESTABLISHED, true)]
  {
    TimeMovesOnCourse(CONNECTS_AT_RELEASE);
    RunFromPick(CONNECTS_AT_RELEASE, [Release]);
    RacedRelease(Picked(LISTEN));
  }

  lemma RacedRelease(s: St)
    requires HoldsSocketZero(s, 9, LISTEN) && s.link.log == [CLEARED]
    ensures Served(Course(CONNECTS_AT_RELEASE), s, [Release]).link.log
            == [CLEARED, ForcedClose(LISTEN, ESTABLISHED, true)]
  {
    var w := Course(CONNECTS_AT_RELEASE);
    CloseHardwareEffect(w, Poll(w, s), true);
    assert Served(w, s, [Release]) == ReleaseSocket(w, s).0;
  }

  const CLOSED_BETWEEN_PICKS: nat -> Status := t => if t == 9 then CLOSED else INIT

  /** Two servers with one port can come to hold one socket: when the first one's listener is reset,
      the second finds the socket closed and may listen on it, because the port is its own. */
  lemma SamePortCanShare()
    ensures var w := Course(CLOSED_BETWEEN_PICKS);
            var y := Run(w, Boot([80, 80]), [Step(0, Pick), Step(1, Pick)]);
            TimeMoves(w) && y.servers[0].sock == y.servers[1].sock == 0
  {
    var w := Course(CLOSED_BETWEEN_PICKS);
    TimeMovesOnCourse(CLOSED_BETWEEN_PICKS);
    var y0 := Boot([80, 80]);
    var steps := [Step(0, Pick), Step(1, Pick)];
    var y1 := Take(w, y0, steps[0]);
    ClosedStays(w, y0.net, 0);
    PickOnCourse(CLOSED_BETWEEN_PICKS, View(y0, 0));
    assert y1.servers[0].sock == 0 && y1.servers[1] == y0.servers[1];
    assert y1.net.tick == 9 && y1.net.socks[0] == Sock(LISTEN, 80, 0);
    PickOnCourse(CLOSED_BETWEEN_PICKS, View(y1, 1));
    var y2 := Take(w, y1, steps[1]);
    assert y2.servers[1].sock == 0 && y2.servers[0] == y1.servers[0];
    assert steps[1..][0] == steps[1] && steps[1..][1..] == [];
    assert Run(w, y0, steps) == y2;
  }
}
