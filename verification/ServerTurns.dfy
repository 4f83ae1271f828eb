/** Exactly when a call makes a callback out of turn, and which runs keep the callback protocol. */
module ServerTurns {
  import opened Types
  import opened SocketStatus
  import opened WriteBufferSpec
  import opened W5500
  import opened DisconnectRecord
  import opened CallbackTrace
  import opened ConnectionSpec
  import opened ServerSocketSpec
  import opened ServerFrames
  import opened ServerProtocol
  import opened ServerSystem

  lemma {:induction false} BadForever(a: seq<Event>, b: seq<Event>)
    requires a <= b && PhaseAfter(a) == Bad
    ensures PhaseAfter(b) == Bad
    decreases |b|
  {
    if |a| < |b| {
      BadForever(a, b[..|b| - 1]);
    } else {
      assert a == b;
    }
  }

  lemma AnnounceSays(w: World, s: St, conn: Conn, f: ClientFn, e: Event)
    requires s.Valid() && s.HasSocket() && conn.limit > 0
    ensures Say(s.link, e).log <= Announce(w, s, conn, f, e).link.log
  {
    RunScriptFrame(w, s.sock, Session(Say(s.link, e), conn), f, w.script(s.link.net.tick));
  }

  /** A callback out of turn. */
  lemma AnnounceBreaks(w: World, s: St, conn: Conn, f: ClientFn, e: Event)
    requires s.Valid() && s.HasSocket() && conn.limit > 0 && Next(PhaseAfter(s.link.log), e) == Bad
    ensures PhaseAfter(Announce(w, s, conn, f, e).link.log) == Bad
  {
    SayOk(s.link, e);
    AnnounceSays(w, s, conn, f, e);
    BadForever(Say(s.link, e).log, Announce(w, s, conn, f, e).link.log);
  }

  lemma AnnounceNewBreaks(w: World, s: St, e: Event)
    requires s.Valid() && s.HasSocket() && Next(PhaseAfter(s.link.log), e) == Bad
    ensures PhaseAfter(AnnounceNew(w, s, e).link.log) == Bad
  {
    var open := OpenSession(s.link);
    AnnounceBreaks(w, s.(link := open.link), open.conn, w.client(s.link.net.tick), e);
  }

  /** Whatever HandleCloseWait does, it is out of turn outside a connection. */
  lemma CloseWaitBreaks(w: World, s: St)
    requires s.Valid() && s.HasSocket() && PhaseAfter(s.link.log) in {Idle, Over}
    ensures PhaseAfter(HandleCloseWait(w, s).link.log) == Bad
  {
    var open := OpenSession(s.link);
    var f := w.client(s.link.net.tick);
    var s1 := Poll(w, s.(link := open.link));
    if s1.link.net.socks[s.sock].unread > 0 {
      AnnounceBreaks(w, s1, open.conn, f, OnCanRead);
    } else {
      var done := CloseConn(w, s.sock, Session(s1.link, open.conn), f, false);
      CloseStaysOutside(w, s.sock, Session(s1.link, open.conn), f);
      EndOutside(done.link.log, TallyOf(FlushConn(f, done.conn)));
      assert HandleCloseWait(w, s).link.log
          == done.link.log + [OnDisconnect] + [Destroyed(TallyOf(FlushConn(f, done.conn)))];
    }
  }

  lemma EndOutside(log: seq<Event>, tally: Tally)
    requires PhaseAfter(log) in {Idle, Over, Bad}
    ensures PhaseAfter(log + [OnDisconnect] + [Destroyed(tally)]) == Bad
  {
    PhaseAfterStep(log, OnDisconnect);
    PhaseAfterStep(log + [OnDisconnect], Destroyed(tally));
  }

  lemma CloseStaysOutside(w: World, k: nat, s: Session, f: ClientFn)
    requires k < |s.link.net.socks| && s.conn.limit > 0 && PhaseAfter(s.link.log) in {Idle, Over}
    ensures PhaseAfter(CloseConn(w, k, s, f, false).link.log) in {Idle, Over, Bad}
  {
    var sent := DisconOf(w, k, s, f, false);
    PhaseAfterStep(s.link.log, sent);
    assert CloseConn(w, k, s, f, false).link.log in {s.link.log, s.link.log + [sent]};
  }

  /** Once last_status_ is open without the listener having been told, the next poll breaks the
      protocol exactly if it still finds the connection open. */
  lemma UnannouncedConnectionBreaksExactly(w: World, s: St)
    requires s.Valid() && s.HasSocket() && StatusIsOpen(s.last) && s.link.disc.disconnected
    requires PhaseAfter(s.link.log) in {Idle, Over}
    ensures !Protocol(PerformIO(w, s).link.log) <==> StatusIsOpen(Poll(w, s).Reg())
  {
    var s1 := PollLast(w, s);
    PhasesAreTheProtocol(PerformIO(w, s).link.log);
    if s1.last == CLOSE_WAIT {
      CloseWaitBreaks(w, s1);
    } else if s1.last == ESTABLISHED {
      CheckOk(s1, s.last == ESTABLISHED, 204);
      AnnounceNewBreaks(w, Check(s1, s.last == ESTABLISHED, 204), OnCanRead);
    }
  }

  /** While the listener believes in a connection that was let go, the next poll breaks the protocol
      exactly if it finds a new one. */
  lemma UnfinishedConnectionBreaksExactly(w: World, s: St)
    requires TimeMoves(w) && Inv(w, s) && s.HasSocket() && !StatusIsOpen(s.last)
    requires PhaseAfter(s.link.log) == Live
    ensures !Protocol(PerformIO(w, s).link.log) <==> StatusIsOpen(Poll(w, s).Reg())
  {
    var s1 := PollLast(w, s);
    PhasesAreTheProtocol(PerformIO(w, s).link.log);
    if StatusIsOpen(s1.last) {
      var line := if s1.last == CLOSE_WAIT then 213 else 200;
      CheckOk(s1, s.last == LISTEN, line);
      AnnounceNewBreaks(w, Check(s1, s.last == LISTEN, line), OnConnect);
    } else if s1.last == CLOSED {
      RelistenMissesExactly(w, s);
    } else {
      QuietMakesNoMishap(w, s1, s.last);
    }
  }

  /** What the server believes and what the listener was told, at the moment of the call: a poll that
      sees an open connection is out of turn if they differ, and so is a lost socket that was
      remembered open by the server alone. No other call can be. */
  predicate OutOfTurn(w: World, s: St, op: Op)
    requires s.Valid()
  {
    match op
    case Perform =>
      && s.HasSocket() && StatusIsOpen(Poll(w, s).Reg())
      && (StatusIsOpen(s.last) <==> PhaseAfter(s.link.log) != Live)
    case Lost => s.HasSocket() && StatusIsOpen(s.last) && PhaseAfter(s.link.log) != Live
    case _ => false
  }

  /** As long as the protocol is kept: no connection is half ended between calls, and the record is
      reset only for one that the listener was told of. */
  ghost predicate InTurn(s: St) {
    && PhaseAfter(s.link.log) in {Idle, Live, Over}
    && (!s.link.disc.disconnected ==> PhaseAfter(s.link.log) == Live)
  }

  /** A poll that sees an open connection resets the record before it looks at it. */
  lemma ResetFirst(w: World, s: St, past: Status)
    requires s.Valid() && s.HasSocket() && StatusIsOpen(s.last)
    ensures HandleStatus(w, s.(link := s.link.(disc := Reset(s.link.disc))), past) == HandleStatus(w, s, past)
  {
  }

  /** A poll of an open connection that the listener knows of if the server does. */
  lemma OpenInTurn(w: World, s: St)
    requires TimeMoves(w) && Inv(w, s) && InTurn(s) && s.HasSocket() && StatusIsOpen(Poll(w, s).Reg())
    requires StatusIsOpen(s.last) <==> PhaseAfter(s.link.log) == Live
    ensures InTurn(PerformIO(w, s))
  {
    var s1 := PollLast(w, s);
    RecordOk(w, s.link, s1.link.net);
    var s2 := if StatusIsOpen(s.last) then s1.(link := s1.link.(disc := Reset(s1.link.disc))) else s1;
    ResetFirst(w, s1, s.last);
    assert StatusJustRead(w, s2, s.last, false, true);
    if s2.last == CLOSE_WAIT && StatusIsOpen(s.last) {
      HandleCloseWaitOk(w, s2, s.last, false, true);
    } else {
      OpenStatusOk(w, s2, s.last, false, true);
    }
  }

  /** A poll that sees no open connection tells the listener at most of the end of one it knows of. */
  lemma NotOpenInTurn(w: World, s: St)
    requires TimeMoves(w) && Inv(w, s) && InTurn(s) && s.HasSocket() && !StatusIsOpen(Poll(w, s).Reg())
    ensures InTurn(PerformIO(w, s))
  {
    var s1 := PollLast(w, s);
    if StatusIsOpen(s.last) {
      SayOk(s1.link, OnDisconnect);
    } else if s1.last == CLOSED {
      RelistenMissesExactly(w, s);
    } else {
      QuietMakesNoMishap(w, s1, s.last);
    }
  }

  lemma PerformTurn(w: World, s: St)
    requires TimeMoves(w) && Inv(w, s) && InTurn(s) && s.HasSocket()
    ensures if OutOfTurn(w, s, Perform) then PhaseAfter(PerformIO(w, s).link.log) == Bad else InTurn(PerformIO(w, s))
  {
    if !StatusIsOpen(Poll(w, s).Reg()) {
      NotOpenInTurn(w, s);
    } else if StatusIsOpen(s.last) <==> PhaseAfter(s.link.log) == Live {
      OpenInTurn(w, s);
    } else {
      PhasesAreTheProtocol(PerformIO(w, s).link.log);
      if StatusIsOpen(s.last) {
        UnannouncedConnectionBreaksExactly(w, s);
      } else {
        UnfinishedConnectionBreaksExactly(w, s);
      }
    }
  }

  lemma LostTurn(w: World, s: St)
    requires InTurn(s) && s.Valid()
    ensures if OutOfTurn(w, s, Lost) then PhaseAfter(SocketLost(w, s).link.log) == Bad else InTurn(SocketLost(w, s))
  {
    PhaseAfterStep(s.link.log, OnDisconnect);
  }

  lemma PickTurn(w: World, s: St)
    requires TimeMoves(w) && Inv(w, s) && InTurn(s)
    ensures InTurn(PickClosedSocket(w, s).0)
  {
    if !s.HasSocket() {
      PickOk(w, s);
    }
  }

  lemma ReleaseTurn(w: World, s: St)
    requires TimeMoves(w) && Inv(w, s) && InTurn(s)
    ensures InTurn(ReleaseSocket(w, s).0)
  {
    if s.HasSocket() {
      if StatusIsInTcpConnectionLifecycle(Poll(w, s).Reg()) {
        ReleaseRefused(w, s);
      } else {
        ReleaseLetsGo(w, s);
      }
    }
  }

  /** From any state of any run in which the protocol was kept so far, mishaps included, a call breaks
      it exactly if it is out of turn. */
  lemma TurnExact(w: World, s: St, op: Op)
    requires TimeMoves(w) && Inv(w, s) && InTurn(s)
    ensures PhaseAfter(Do(w, s, op).link.log) == Bad <==> OutOfTurn(w, s, op)
    ensures !OutOfTurn(w, s, op) ==> InTurn(Do(w, s, op))
  {
    match op
    case Pick => PickTurn(w, s);
    case Perform => if s.HasSocket() { PerformTurn(w, s); }
    case Release => ReleaseTurn(w, s);
    case Lost => LostTurn(w, s);
  }

  /** So a listen that missed a connection, at a pick or at a relisten, leads to a broken protocol at
      the next poll unless the connection is gone by then, and in any case if the socket is then lost:
      SocketLost tells the listener of the end of a connection it never heard of. */
  lemma MissedListenBreaksProtocol(w: World, s: St, op: Op)
    requires TimeMoves(w) && Inv(w, s) && NoMishap(s.link.log) && ListenMisses(w, s, op)
    ensures Do(w, s, op).HasSocket()
    ensures !Protocol(PerformIO(w, Do(w, s, op)).link.log) <==> StatusIsOpen(Poll(w, Do(w, s, op)).Reg())
    ensures !Protocol(SocketLost(w, Do(w, s, op)).link.log)
  {
    if op == Pick {
      PickOk(w, s);
      PickMissesExactly(w, s);
    } else {
      RelistenMissesExactly(w, s);
    }
    var r := Do(w, s, op);
    UnannouncedConnectionBreaksExactly(w, r);
    LostTurn(w, r);
    PhasesAreTheProtocol(SocketLost(w, r).link.log);
  }

  // Over whole runs.

  ghost predicate NeverOutOfTurn(w: World, y: System, steps: seq<Step>, i: nat)
    requires ValidSystem(y) && i < |y.servers|
    decreases |steps|
  {
    |steps| > 0 ==>
      && (steps[0].i == i ==> !OutOfTurn(w, View(y, i), steps[0].op))
      && NeverOutOfTurn(w, Take(w, y, steps[0]), steps[1..], i)
  }

  lemma TakeTurnExact(w: World, y: System, step: Step, i: nat)
    requires TimeMoves(w) && SystemInv(w, y) && i < |y.servers| && InTurn(View(y, i))
    ensures var out, r := step.i == i && OutOfTurn(w, View(y, i), step.op), Take(w, y, step);
            if out then PhaseAfter(r.servers[i].log) == Bad else InTurn(View(r, i))
  {
    OwnedFromInv(w, y);
    TakeGrows(w, y, step, i);
    assert Inv(w, View(y, i));
    if step.i == i {
      TurnExact(w, View(y, i), step.op);
    }
  }

  lemma {:induction false} RunTurnExact(w: World, y: System, steps: seq<Step>, i: nat)
    requires TimeMoves(w) && SystemInv(w, y) && i < |y.servers| && InTurn(View(y, i))
    ensures PhaseAfter(Run(w, y, steps).servers[i].log) != Bad <==> NeverOutOfTurn(w, y, steps, i)
    decreases |steps|
  {
    if |steps| > 0 {
      var y1 := Take(w, y, steps[0]);
      TakeTurnExact(w, y, steps[0], i);
      TakeOk(w, y, steps[0]);
      if InTurn(View(y1, i)) {
        RunTurnExact(w, y1, steps[1..], i);
      } else {
        OwnedFromInv(w, y1);
        LogsGrow(w, y1, steps[1..], i);
        BadForever(y1.servers[i].log, Run(w, y, steps).servers[i].log);
      }
    }
  }

  /** The callbacks of a run keep the protocol (OnConnect OnCanRead* (OnDisconnect or close))*, with at
      most one DISCON to a connection, exactly if no call was out of turn. */
  lemma ProtocolIsExact(w: World, ports: seq<uint16>, steps: seq<Step>, i: nat)
    requires TimeMoves(w) && PortsPositive(ports) && PortsDistinct(ports) && i < |ports|
    ensures Protocol(Run(w, Boot(ports), steps).servers[i].log) <==> NeverOutOfTurn(w, Boot(ports), steps, i)
  {
    BootOk(w, ports);
    RunTurnExact(w, Boot(ports), steps, i);
    PhasesAreTheProtocol(Run(w, Boot(ports), steps).servers[i].log);
  }

  /** No call is out of turn as long as none comes at a moment when the chip makes it break the
      agreement, whatever else the chip shows after a listen. */
  lemma EveryRunKeepsTheProtocol(w: World, ports: seq<uint16>, steps: seq<Step>, i: nat)
    requires TimeMoves(w) && PortsPositive(ports) && PortsDistinct(ports) && i < |ports|
    requires NeverBreaks(w, Boot(ports), steps, i)
    ensures NeverOutOfTurn(w, Boot(ports), steps, i)
    ensures var s := View(Run(w, Boot(ports), steps), i); Protocol(s.link.log) && Agreement(s)
  {
    AgreementIsExact(w, ports, steps, i);
    BootOk(w, ports);
    RunOk(w, Boot(ports), steps);
    var s := View(Run(w, Boot(ports), steps), i);
    assert Inv(w, s);
    PhasesAreTheProtocol(s.link.log);
    ProtocolIsExact(w, ports, steps, i);
  }
}
