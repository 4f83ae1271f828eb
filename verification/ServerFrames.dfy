/** What every operation of a server leaves alone: the history only grows, other sockets only
    move by themselves, and a port once given to a socket stays with it. No assumption is made
    here about the chip, the clock, clients or listeners. */
module ServerFrames {
  import opened Types
  import opened SocketStatus
  import opened WriteBufferSpec
  import opened W5500
  import opened CallbackTrace
  import opened PlatformNetwork
  import opened ConnectionSpec
  import opened ServerSocketSpec

  datatype Op = Pick | Perform | Release | Lost

  function Do(w: World, s: St, op: Op): (r: St)
    requires s.Valid()
    ensures r.Valid()
  {
    match op
    case Pick => PickClosedSocket(w, s).0
    case Perform => PerformIO(w, s)
    case Release => ReleaseSocket(w, s).0
    case Lost => SocketLost(w, s)
  }

  /** Ports are sticky: a socket's port changes at most from 0 to `port`. */
  ghost predicate PortsKept(a: Net, b: Net, port: uint16) {
    && |a.socks| == |b.socks|
    && forall j :: 0 <= j < |a.socks| ==>
         || b.socks[j].serverPort == a.socks[j].serverPort
         || (a.socks[j].serverPort == 0 && b.socks[j].serverPort == port)
  }

  /** Activity on socket k alone. */
  ghost predicate LinkFrame(a: Link, b: Link, k: nat) {
    && a.log <= b.log
    && Drifted(a.net, b.net, k)
    && k < |a.net.socks| && b.net.socks[k].serverPort == a.net.socks[k].serverPort
  }

  /** Activity of a server on the socket it holds. */
  ghost predicate HeldFrame(a: St, b: St) {
    && a.Valid() && b.Valid() && a.HasSocket() && b.sock == a.sock && b.port == a.port
    && a.link.log <= b.link.log
    && Drifted(a.link.net, b.link.net, a.sock)
    && PortsKept(a.link.net, b.link.net, a.port)
  }

  lemma CloseConnFrame(w: World, k: nat, s: Session, f: ClientFn, byListener: bool)
    requires k < |s.link.net.socks| && s.conn.limit > 0
    ensures LinkFrame(s.link, CloseConn(w, k, s, f, byListener).link, k)
  {
  }

  lemma {:induction false} RunScriptFrame(w: World, k: nat, s: Session, f: ClientFn, script: seq<Action>)
    requires k < |s.link.net.socks| && s.conn.limit > 0
    ensures LinkFrame(s.link, RunScript(w, k, s, f, script).link, k)
    decreases |script|
  {
    if |script| > 0 {
      var next := Act(w, k, s, f, script[0]);
      ActKeepsShape(w, k, s, f, script[0]);
      if script[0].Close? {
        CloseConnFrame(w, k, s, f, true);
      }
      assert LinkFrame(s.link, next.link, k);
      RunScriptFrame(w, k, next, f, script[1..]);
      LinkFrameTrans(s.link, next.link, RunScript(w, k, s, f, script).link, k);
    }
  }

  lemma LinkFrameTrans(a: Link, b: Link, c: Link, k: nat)
    requires LinkFrame(a, b, k) && LinkFrame(b, c, k)
    ensures LinkFrame(a, c, k)
  {
  }

  lemma HeldFrameTrans(a: St, b: St, c: St)
    requires HeldFrame(a, b) && HeldFrame(b, c)
    ensures HeldFrame(a, c)
  {
  }

  lemma LinkIsHeld(s: St, r: St)
    requires s.Valid() && s.HasSocket() && r.sock == s.sock && r.port == s.port
    requires LinkFrame(s.link, r.link, s.sock)
    ensures HeldFrame(s, r)
  {
  }

  lemma CloseHardwareFrame(w: World, s: St, releasing: bool)
    requires s.Valid() && s.HasSocket()
    ensures HeldFrame(s, CloseHardwareSocket(w, s, releasing))
    ensures LinkFrame(s.link, CloseHardwareSocket(w, s, releasing).link, s.sock)
  {
  }

  lemma AnnounceFrame(w: World, s: St, conn: Conn, f: ClientFn, e: Event)
    requires s.Valid() && s.HasSocket() && conn.limit > 0
    ensures HeldFrame(s, Announce(w, s, conn, f, e))
  {
    var start := Session(Say(s.link, e), conn);
    RunScriptFrame(w, s.sock, start, f, w.script(s.link.net.tick));
    var done := Callback(w, s.sock, Session(s.link, conn), f, e);
    var s1 := DetectListenerInitiatedDisconnect(w, s.(link := done.link));
    assert LinkFrame(s.link, done.link, s.sock);
    assert LinkFrame(done.link, s1.link, s.sock);
    LinkFrameTrans(s.link, done.link, s1.link, s.sock);
    assert LinkFrame(s1.link, Destroy(Session(s1.link, done.conn), f), s.sock);
    LinkFrameTrans(s.link, s1.link, Announce(w, s, conn, f, e).link, s.sock);
    LinkIsHeld(s, Announce(w, s, conn, f, e));
  }

  lemma HandleCloseWaitFrame(w: World, s: St)
    requires s.Valid() && s.HasSocket()
    ensures HeldFrame(s, HandleCloseWait(w, s))
  {
    var open := OpenSession(s.link);
    var f := w.client(s.link.net.tick);
    var s1 := Poll(w, s.(link := open.link));
    assert LinkFrame(s.link, s1.link, s.sock);
    LinkIsHeld(s, s1);
    if s1.link.net.socks[s.sock].unread > 0 {
      AnnounceFrame(w, s1, open.conn, f, OnCanRead);
      HeldFrameTrans(s, s1, HandleCloseWait(w, s));
    } else {
      CloseConnFrame(w, s.sock, Session(s1.link, open.conn), f, false);
      var done := CloseConn(w, s.sock, Session(s1.link, open.conn), f, false);
      var r := HandleCloseWait(w, s);
      assert LinkFrame(done.link, r.link, s.sock);
      LinkFrameTrans(s.link, s1.link, done.link, s.sock);
      LinkFrameTrans(s.link, done.link, r.link, s.sock);
      LinkIsHeld(s, r);
    }
  }

  /** Listening again, on a socket whose port can only become the server's own. */
  lemma BeginListeningFrame(w: World, s: St, final: bool)
    requires s.Valid() && s.HasSocket()
    ensures var (r, ok) := BeginListening(w, s, final);
            && HeldFrame(s, r)
            && (ok && s.port > 0 ==> r.link.net.socks[s.sock].serverPort == s.port)
            && (!ok ==> LinkFrame(s.link, r.link, s.sock))
            && (s.Reg() == CLOSED && !ok ==> SockDrifted(s.link.net.socks[s.sock], r.link.net.socks[s.sock]))
  {
    var s1 := Poll(w, s);
    if s.port != ListenerPort(s1.link.net.socks[s.sock]) {
      var s2 := Poll(w, s1);
      if !StatusIsInTcpConnectionLifecycle(s2.Reg()) {
        CloseHardwareFrame(w, s2, false);
        assert LinkFrame(s.link, s2.link, s.sock);
        var s3 := CloseHardwareSocket(w, s2, false);
        LinkFrameTrans(s.link, s2.link, s3.link, s.sock);
        LinkIsHeld(s, s3);
        InitializeFrame(w, s3, final);
        HeldFrameTrans(s, s3, BeginListening(w, s, final).0);
      }
    }
  }

  lemma InitializeFrame(w: World, s: St, final: bool)
    requires s.Valid() && s.HasSocket()
    ensures var (n, ok) := InitializeListener(w, s.link.net, s.sock, s.port);
            var r := s.(link := s.link.(net := n));
            && HeldFrame(s, r) && HeldFrame(s, NoteUnsettled(PollLast(w, r), final))
            && (ok ==> NoteUnsettled(PollLast(w, r), final).link.net.socks[s.sock].serverPort == s.port)
            && (!ok ==> LinkFrame(s.link, r.link, s.sock))
  {
  }

  lemma HandleStatusFrame(w: World, s: St, past: Status)
    requires s.Valid() && s.HasSocket()
    ensures HeldFrame(s, HandleStatus(w, s, past))
  {
    if s.last == CLOSED {
      BeginListeningFrame(w, s, true);
    } else if s.last == CLOSE_WAIT && StatusIsOpen(past) {
      HandleCloseWaitFrame(w, s);
    } else if s.last == ESTABLISHED || s.last == CLOSE_WAIT {
      AnnounceNewFrames(w, s, past);
    } else {
      QuietStatusFrame(w, s, past);
    }
  }

  lemma QuietStatusFrame(w: World, s: St, past: Status)
    requires s.Valid() && s.HasSocket() && s.last != CLOSED && !StatusIsOpen(s.last)
    ensures HeldFrame(s, HandleStatus(w, s, past))
  {
    QuietOutcomes(w, s, past);
    var s1 := Check(s, QuietCheck(s.last, past), QuietLine(s.last));
    assert HeldFrame(s, s1);
    CloseHardwareFrame(w, s1, false);
    HeldFrameTrans(s, s1, CloseHardwareSocket(w, s1, false));
  }

  lemma AnnounceNewFrames(w: World, s: St, past: Status)
    requires s.Valid() && s.HasSocket() && (s.last == ESTABLISHED || (s.last == CLOSE_WAIT && !StatusIsOpen(past)))
    ensures HeldFrame(s, HandleStatus(w, s, past))
  {
    var line := if s.last == CLOSE_WAIT then 213 else if StatusIsOpen(past) then 204 else 200;
    var expected := if s.last == ESTABLISHED && StatusIsOpen(past) then ESTABLISHED else LISTEN;
    var event := if s.last == ESTABLISHED && StatusIsOpen(past) then OnCanRead else OnConnect;
    var s1 := Check(s, past == expected, line);
    var open := OpenSession(s1.link);
    AnnounceFrame(w, s1.(link := open.link), open.conn, w.client(s1.link.net.tick), event);
    HeldFrameTrans(s, s1.(link := open.link), AnnounceNew(w, s1, event));
  }

  lemma PerformFrame(w: World, s: St)
    requires s.Valid() && s.HasSocket()
    ensures HeldFrame(s, PerformIO(w, s))
  {
    var s1 := PollLast(w, s);
    assert HeldFrame(s, s1);
    HandleStatusFrame(w, s1, s.last);
    if !(StatusIsOpen(s.last) && !StatusIsOpen(s1.last)) {
      HeldFrameTrans(s, s1, PerformIO(w, s));
    }
  }

  /** Picking either takes a socket whose port was free or its own already, or changes nothing
      but what the chip itself changes. */
  lemma PickFrame(w: World, s: St)
    requires s.Valid() && !s.HasSocket() && s.port > 0
    ensures var (r, ok) := PickClosedSocket(w, s);
            && s.link.log <= r.link.log && r.port == s.port
            && PortsKept(s.link.net, r.link.net, s.port)
            && (ok <==> r.HasSocket())
            && Drifted(s.link.net, r.link.net, r.sock)
            && (ok ==> r.link.net.socks[r.sock].serverPort == s.port
                       && (s.link.net.socks[r.sock].serverPort == 0 || s.link.net.socks[r.sock].serverPort == s.port))
  {
    FindUnusedDrifts(w, s.link.net, 0);
    var (n1, found) := FindUnused(w, s.link.net, 0);
    if found.Some? {
      var s1 := s.(last := CLOSED, link := s.link.(net := n1), sock := found.value);
      BeginListeningFrame(w, s1, false);
      var (s2, ok) := BeginListening(w, s1, false);
      DriftedTrans(s.link.net, n1, s2.link.net, s1.sock);
      PortsKeptAfterDrift(s.link.net, n1, s2.link.net, s.port);
      if ok {
        var r := NoteUnsettled(PollLast(w, s2), true);
        LastPollFrame(w, s2);
        DriftedTrans(s.link.net, s2.link.net, r.link.net, s1.sock);
        PortsKeptBeforeDrift(s.link.net, s2.link.net, r.link.net, s.port);
      } else {
        DriftedEverywhere(n1, s2.link.net, s1.sock);
        DriftedTrans(s.link.net, n1, s2.link.net, MAX_SOCK_NUM);
      }
    }
  }

  lemma LastPollFrame(w: World, s: St)
    requires s.Valid() && s.HasSocket()
    ensures var r := NoteUnsettled(PollLast(w, s), true);
            && s.link.log <= r.link.log && r.port == s.port && r.sock == s.sock
            && Drifted(s.link.net, r.link.net, MAX_SOCK_NUM)
            && Drifted(s.link.net, r.link.net, s.sock)
  {
  }

  lemma DriftedEverywhere(a: Net, b: Net, k: nat)
    requires Drifted(a, b, k) && k < |a.socks| <= MAX_SOCK_NUM
    requires SockDrifted(a.socks[k], b.socks[k])
    ensures Drifted(a, b, MAX_SOCK_NUM)
  {
  }

  lemma PortsKeptAfterDrift(a: Net, b: Net, c: Net, port: uint16)
    requires ValidNet(a) && Drifted(a, b, MAX_SOCK_NUM) && PortsKept(b, c, port)
    ensures PortsKept(a, c, port)
  {
  }

  lemma PortsKeptBeforeDrift(a: Net, b: Net, c: Net, port: uint16)
    requires ValidNet(a) && PortsKept(a, b, port) && Drifted(b, c, MAX_SOCK_NUM)
    ensures PortsKept(a, c, port)
  {
  }

  lemma DriftedTrans(a: Net, b: Net, c: Net, k: nat)
    requires Drifted(a, b, k) && Drifted(b, c, k)
    ensures Drifted(a, c, k)
  {
  }

  /** What other servers may count on when this one does something. */
  ghost predicate OpFrame(a: St, b: St) {
    && a.Valid() && b.Valid() && b.port == a.port && a.link.log <= b.link.log
    && PortsKept(a.link.net, b.link.net, a.port)
    && Drifted(a.link.net, b.link.net, if a.HasSocket() then a.sock else b.sock)
    && (a.HasSocket() ==> b.sock == a.sock || !b.HasSocket())
    && (!a.HasSocket() && b.HasSocket() ==>
          && b.link.net.socks[b.sock].serverPort == a.port
          && (a.link.net.socks[b.sock].serverPort == 0 || a.link.net.socks[b.sock].serverPort == a.port))
  }

  lemma DoFrame(w: World, s: St, op: Op)
    requires s.Valid() && s.port > 0
    ensures OpFrame(s, Do(w, s, op))
  {
    match op
    case Pick =>
      if !s.HasSocket() {
        PickFrame(w, s);
      }
    case Perform =>
      if s.HasSocket() {
        PerformFrame(w, s);
      }
    case Release =>
      if s.HasSocket() {
        var s1 := Poll(w, s);
        CloseHardwareFrame(w, s1, true);
        assert HeldFrame(s, s1);
        var s2 := CloseHardwareSocket(w, s1, true);
        HeldFrameTrans(s, s1, s2);
        assert HeldFrame(s2, NoteAbandoned(s2, s.last));
        HeldFrameTrans(s, s2, NoteAbandoned(s2, s.last));
      }
    case Lost =>
  }

  /** The exits of BeginListening, by what the looks at the socket show: a listener of this server is
      kept, a connection is refused, and anything else is closed, to listen if the port is free. */
  ghost predicate BeginAnswers(w: World, a: St, b: St, listening: bool)
    requires a.Valid() && b.Valid()
  {
    if !a.HasSocket() then !listening && b == a
    else
      var first := Poll(w, a);
      var second := Poll(w, first);
      var held := first.link.net.socks[a.sock];
      if (if held.status == LISTEN then held.serverPort else 0) == a.port then
        listening && b == second.(last := second.Reg())
      else if second.Reg() in
        {SYNRECV, ESTABLISHED, CLOSE_WAIT, FIN_WAIT, CLOSING, TIME_WAIT, LAST_ACK, INIT, SYNSENT} then
        !listening && b == second
      else
        && (listening <==> held.serverPort == 0 || held.serverPort == a.port)
        && |a.link.log| < |b.link.log| && b.link.log[|a.link.log|].ForcedClose?
        && b.link.net.tick == a.link.net.tick + (if listening then 7 else 5)
        && (!listening ==> b.last == CLOSED)
  }

  lemma BeginListeningExact(w: World, s: St, final: bool)
    requires s.Valid()
    ensures var (r, listening) := BeginListening(w, s, final); BeginAnswers(w, s, r, listening)
  {
  }

  /** What PickClosedSocket answers: false to a server that holds a socket, and else true exactly when
      the first closed socket is free for this port: one that once served another port blocks the
      pick, however many sockets behind it are unused. */
  ghost predicate PickAnswers(w: World, a: St, b: St, picked: bool) {
    && a.Valid() && b.Valid()
    && if a.HasSocket() then !picked && b == a
       else
         var (n, found) := FindUnused(w, a.link.net, 0);
         var free := found.Some? && n.socks[found.value].serverPort in {0, a.port};
         && (picked <==> free || (found.Some? && a.port == 0))
         && if picked then b.sock == found.value else !b.HasSocket() && b.last == CLOSED
  }

  lemma PickSucceedsExactly(w: World, s: St)
    requires s.Valid()
    ensures var (r, picked) := PickClosedSocket(w, s); PickAnswers(w, s, r, picked)
  {
    if !s.HasSocket() {
      var (n1, found) := FindUnused(w, s.link.net, 0);
      if found.Some? {
        BeginListeningExact(w, s.(last := CLOSED, link := s.link.(net := n1), sock := found.value), false);
      }
    }
  }

  /** What ReleaseSocket answers: false, after the one look, exactly if the status it sees is one of the
      nine of a connection, a coming one or a going one; else the socket is closed and let go. */
  ghost predicate ReleaseAnswers(w: World, a: St, b: St, released: bool) {
    && a.Valid() && b.Valid()
    && if !a.HasSocket() then released && b == a
       else
         var seen := Poll(w, a);
         if seen.Reg() in {SYNRECV, ESTABLISHED, CLOSE_WAIT, FIN_WAIT, CLOSING, TIME_WAIT, LAST_ACK, INIT, SYNSENT} then
           !released && b == seen
         else
           && released && !b.HasSocket() && b.last == CLOSED
           && b.link.net.socks[a.sock].status == CLOSED && b.link.net.tick == a.link.net.tick + 3
  }

  lemma ReleaseExact(w: World, s: St)
    requires s.Valid()
    ensures var (r, released) := ReleaseSocket(w, s); ReleaseAnswers(w, s, r, released)
  {
  }
}
