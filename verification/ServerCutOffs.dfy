/** Exactly when a CLOSE command cuts off a live connection, in any state and any world. */
module ServerCutOffs {
  import opened Types
  import opened SocketStatus
  import opened WriteBufferSpec
  import opened W5500
  import opened CallbackTrace
  import opened PlatformNetwork
  import opened ConnectionSpec
  import opened ServerSocketSpec
  import opened ServerFrames
  import opened ServerProtocol
  import opened ServerSystem

  /** Where the chip is at two accesses of a call: harmless at the one that looks, live at the one that
      closes. A release looks for any status outside the life of a connection; a poll closes what is
      live only if it found the socket opening a connection of its own, in SYNSENT. */
  predicate CutsOffAt(w: World, s: St, op: Op)
    requires s.Valid()
  {
    && s.HasSocket() && StatusIsLive(Poll(w, Poll(w, s)).Reg())
    && match op
       case Release => !StatusIsInTcpConnectionLifecycle(Poll(w, s).Reg())
       case Perform => Poll(w, s).Reg() == SYNSENT && !StatusIsOpen(s.last)
       case _ => false
  }

  lemma CloseCutsExactly(w: World, s: St, releasing: bool)
    requires s.Valid() && s.HasSocket()
    ensures NoneCutOff(CloseHardwareSocket(w, s, releasing).link.log)
            <==> NoneCutOff(s.link.log) && !StatusIsLive(Poll(w, s).Reg())
  {
    CloseHardwareEffect(w, s, releasing);
    SayCuts(s.link, HitBy(w, s, releasing));
    assert HitBy(w, s, releasing).actual == Poll(w, s).Reg();
  }

  /** Listening on a closed socket closes it first, which hits nothing. */
  lemma ListenCutsNothing(w: World, s: St, final: bool)
    requires s.Valid() && s.HasSocket() && s.Reg() == CLOSED
    ensures NoneCutOff(BeginListening(w, s, final).0.link.log) <==> NoneCutOff(s.link.log)
  {
    if s.port > 0 {
      BeginsByListening(w, s, final);
      var s2 := Poll(w, Poll(w, s));
      CloseCutsExactly(w, s2, false);
      RereadCutsNothing(w, Listen(w, s2).0, final);
    }
  }

  lemma RereadCutsNothing(w: World, s: St, final: bool)
    requires s.Valid() && s.HasSocket()
    ensures NoneCutOff(NoteUnsettled(PollLast(w, s), final).link.log) <==> NoneCutOff(s.link.log)
  {
    SayCuts(PollLast(w, s).link, Unsettled(PollLast(w, s).last, final));
  }

  lemma PickCutsNothing(w: World, s: St)
    requires s.Valid()
    ensures NoneCutOff(PickClosedSocket(w, s).0.link.log) <==> NoneCutOff(s.link.log)
  {
    if !s.HasSocket() {
      var (n1, found) := FindUnused(w, s.link.net, 0);
      if found.Some? {
        var s1 := s.(last := CLOSED, link := s.link.(net := n1), sock := found.value);
        ListenCutsNothing(w, s1, false);
        RereadCutsNothing(w, BeginListening(w, s1, false).0, true);
      }
    }
  }

  /** A status that calls for no callback. */
  lemma QuietCutsExactly(w: World, s: St, past: Status)
    requires s.Valid() && s.HasSocket() && s.last == s.Reg() && s.last != CLOSED && !StatusIsOpen(s.last)
    ensures NoneCutOff(HandleStatus(w, s, past).link.log)
            <==> NoneCutOff(s.link.log) && !(s.last == SYNSENT && StatusIsLive(Poll(w, s).Reg()))
  {
    QuietOutcomes(w, s, past);
    var s1 := Check(s, QuietCheck(s.last, past), QuietLine(s.last));
    CheckOk(s, QuietCheck(s.last, past), QuietLine(s.last));
    CloseCutsExactly(w, s1, false);
    assert Poll(w, s1).Reg() == Poll(w, s).Reg();
    assert s.last == SYNSENT ==> HandleStatus(w, s, past) == CloseHardwareSocket(w, s1, false);
  }

  lemma PerformCutsExactly(w: World, s: St)
    requires s.Valid() && s.HasSocket()
    ensures NoneCutOff(PerformIO(w, s).link.log) <==> NoneCutOff(s.link.log) && !CutsOffAt(w, s, Perform)
  {
    var s1 := PollLast(w, s);
    assert Poll(w, s1).Reg() == Poll(w, Poll(w, s)).Reg();
    if StatusIsOpen(s.last) && !StatusIsOpen(s1.last) {
      SayCuts(s1.link, OnDisconnect);
    } else if StatusIsOpen(s1.last) {
      var s2 := Check(s1, OpenCheck(s1.last, s.last), OpenLine(s1.last, s.last));
      OpenStatusSpeaks(w, s1, s.last);
      CheckOk(s1, OpenCheck(s1.last, s.last), OpenLine(s1.last, s.last));
      SpokenIsHarmless(s2.link.log, PerformIO(w, s).link.log);
    } else if s1.last == CLOSED {
      ListenCutsNothing(w, s1, true);
    } else {
      QuietCutsExactly(w, s1, s.last);
    }
  }

  lemma ReleaseCutsExactly(w: World, s: St)
    requires s.Valid() && s.HasSocket()
    ensures NoneCutOff(ReleaseSocket(w, s).0.link.log) <==> NoneCutOff(s.link.log) && !CutsOffAt(w, s, Release)
  {
    var s1 := Poll(w, s);
    var s2 := CloseHardwareSocket(w, s1, true);
    CloseCutsExactly(w, s1, true);
    SayCuts(s2.link, Abandoned);
    assert NoneCutOff(NoteAbandoned(s2, s.last).link.log) <==> NoneCutOff(s2.link.log);
  }

  /** A call cuts off a live connection exactly when its guard says so. */
  lemma CutOffExact(w: World, s: St, op: Op)
    requires s.Valid()
    ensures NoneCutOff(Do(w, s, op).link.log) <==> NoneCutOff(s.link.log) && !CutsOffAt(w, s, op)
  {
    match op
    case Pick => PickCutsNothing(w, s);
    case Perform => if s.HasSocket() { PerformCutsExactly(w, s); }
    case Release => if s.HasSocket() { ReleaseCutsExactly(w, s); }
    case Lost => SayCuts(s.link, OnDisconnect);
  }

  /** While listens settle, a poll never does. */
  lemma SettledPollCutsNothing(w: World, s: St)
    requires Inv(w, s) && Settled(s.link.log)
    ensures !CutsOffAt(w, s, Perform)
  {
  }

  ghost predicate NeverCutsOff(w: World, y: System, steps: seq<Step>, i: nat)
    requires ValidSystem(y) && i < |y.servers|
    decreases |steps|
  {
    |steps| > 0 ==>
      && (steps[0].i == i ==> !CutsOffAt(w, View(y, i), steps[0].op))
      && NeverCutsOff(w, Take(w, y, steps[0]), steps[1..], i)
  }

  lemma {:induction false} RunCutsExactly(w: World, y: System, steps: seq<Step>, i: nat)
    requires ValidSystem(y) && i < |y.servers|
    ensures NoneCutOff(Run(w, y, steps).servers[i].log)
            <==> NoneCutOff(y.servers[i].log) && NeverCutsOff(w, y, steps, i)
    decreases |steps|
  {
    if |steps| > 0 {
      var y1 := Take(w, y, steps[0]);
      if steps[0].i == i {
        CutOffExact(w, View(y, i), steps[0].op);
        assert View(y1, i) == Do(w, View(y, i), steps[0].op);
      } else {
        assert y1.servers[i] == y.servers[i];
      }
      RunCutsExactly(w, y1, steps[1..], i);
    }
  }

  /** In every run, of servers with any ports, in any world: no CLOSE of server i has hit a live
      connection exactly if no call on it came at such a moment. */
  lemma CutOffsAreExact(w: World, ports: seq<uint16>, steps: seq<Step>, i: nat)
    requires i < |ports|
    ensures NoneCutOff(Run(w, Boot(ports), steps).servers[i].log) <==> NeverCutsOff(w, Boot(ports), steps, i)
  {
    RunCutsExactly(w, Boot(ports), steps, i);
  }

  /** No poll is among those moments as long as every listen settles: only releases are. */
  ghost predicate NeverRaces(w: World, y: System, steps: seq<Step>, i: nat)
    requires ValidSystem(y) && i < |y.servers|
    decreases |steps|
  {
    |steps| > 0 ==>
      && (steps[0] == Step(i, Release) ==> !CutsOffAt(w, View(y, i), Release))
      && NeverRaces(w, Take(w, y, steps[0]), steps[1..], i)
  }

  lemma {:induction false} SettledRunCutsExactly(w: World, y: System, steps: seq<Step>, i: nat)
    requires TimeMoves(w) && SystemInv(w, y) && i < |y.servers| && Settled(Run(w, y, steps).servers[i].log)
    ensures NeverCutsOff(w, y, steps, i) <==> NeverRaces(w, y, steps, i)
    decreases |steps|
  {
    if |steps| > 0 {
      OwnedFromInv(w, y);
      LogsGrow(w, y, steps, i);
      LogPrefix(y.servers[i].log, Run(w, y, steps).servers[i].log);
      assert Inv(w, View(y, i));
      SettledPollCutsNothing(w, View(y, i));
      TakeOk(w, y, steps[0]);
      SettledRunCutsExactly(w, Take(w, y, steps[0]), steps[1..], i);
    }
  }

  /** In a run whose listens settle, a live connection is cut off exactly if a release's check found the
      socket outside the life of a connection and its close found it inside. */
  lemma OnlyReleasesCutOff(w: World, ports: seq<uint16>, steps: seq<Step>, i: nat)
    requires TimeMoves(w) && PortsPositive(ports) && PortsDistinct(ports) && i < |ports|
    requires Settled(Run(w, Boot(ports), steps).servers[i].log)
    ensures NoneCutOff(Run(w, Boot(ports), steps).servers[i].log) <==> NeverRaces(w, Boot(ports), steps, i)
  {
    CutOffsAreExact(w, ports, steps, i);
    BootOk(w, ports);
    SettledRunCutsExactly(w, Boot(ports), steps, i);
  }

  // An open socket closes only by the chip or by a CLOSE.

  /** A chip on which no connection is reset or times out. */
  ghost predicate NeverResets(w: World) {
    forall t: nat, k: nat, s: Sock :: Moved(s, w.move(t, k)).status == CLOSED ==> s.status == CLOSED
  }

  ghost predicate StaysUp(a: Net, b: Net) {
    && |a.socks| == |b.socks|
    && forall k :: 0 <= k < |a.socks| && a.socks[k].status != CLOSED ==> b.socks[k].status != CLOSED
  }

  ghost predicate NoClose(a: seq<Event>, b: seq<Event>) {
    a <= b && forall i :: |a| <= i < |b| ==> !b[i].ForcedClose?
  }

  lemma NoCloseParts(a: seq<Event>, b: seq<Event>, c: seq<Event>)
    requires a <= b <= c && NoClose(a, c)
    ensures NoClose(a, b) && NoClose(b, c)
  {
    assert forall i :: |a| <= i < |b| ==> b[i] == c[i];
  }

  lemma {:induction false} FindStaysUp(w: World, n: Net, k: nat)
    requires NeverResets(w) && ValidNet(n) && k <= MAX_SOCK_NUM
    ensures StaysUp(n, FindUnused(w, n, k).0)
    decreases MAX_SOCK_NUM - k
  {
    if k < MAX_SOCK_NUM {
      FindStaysUp(w, Access(w, n, k), k + 1);
    }
  }

  /** close() asks the peer to end the connection and leaves the socket to the chip. */
  lemma CloseConnStaysUp(w: World, k: nat, s: Session, f: ClientFn, byListener: bool)
    requires NeverResets(w) && k < |s.link.net.socks| && s.conn.limit > 0
    ensures StaysUp(s.link.net, CloseConn(w, k, s, f, byListener).link.net)
  {
  }

  lemma {:induction false} ScriptStaysUp(w: World, k: nat, s: Session, f: ClientFn, script: seq<Action>)
    requires NeverResets(w) && k < |s.link.net.socks| && s.conn.limit > 0
    ensures StaysUp(s.link.net, RunScript(w, k, s, f, script).link.net)
    decreases |script|
  {
    if |script| > 0 {
      ActKeepsShape(w, k, s, f, script[0]);
      CloseConnStaysUp(w, k, s, f, true);
      ScriptStaysUp(w, k, Act(w, k, s, f, script[0]), f, script[1..]);
    }
  }

  lemma AnnounceStaysUp(w: World, s: St, conn: Conn, f: ClientFn, e: Event)
    requires NeverResets(w) && s.Valid() && s.HasSocket() && conn.limit > 0
    ensures StaysUp(s.link.net, Announce(w, s, conn, f, e).link.net)
  {
    ScriptStaysUp(w, s.sock, Session(Say(s.link, e), conn), f, w.script(s.link.net.tick));
  }

  lemma CloseWaitStaysUp(w: World, s: St)
    requires NeverResets(w) && s.Valid() && s.HasSocket()
    ensures StaysUp(s.link.net, HandleCloseWait(w, s).link.net)
  {
    var open := OpenSession(s.link);
    var f := w.client(s.link.net.tick);
    var s1 := Poll(w, s.(link := open.link));
    if s1.link.net.socks[s.sock].unread > 0 {
      AnnounceStaysUp(w, s1, open.conn, f, OnCanRead);
    } else {
      CloseConnStaysUp(w, s.sock, Session(s1.link, open.conn), f, false);
    }
  }

  lemma OpenStatusStaysUp(w: World, s: St, past: Status)
    requires NeverResets(w) && s.Valid() && s.HasSocket() && StatusIsOpen(s.last)
    ensures StaysUp(s.link.net, HandleStatus(w, s, past).link.net)
  {
    if s.last == CLOSE_WAIT && StatusIsOpen(past) {
      CloseWaitStaysUp(w, s);
    } else {
      var line := if s.last == CLOSE_WAIT then 213 else if StatusIsOpen(past) then 204 else 200;
      var s1 := Check(s, past == if StatusIsOpen(past) then ESTABLISHED else LISTEN, line);
      var open := OpenSession(s1.link);
      AnnounceStaysUp(w, s1.(link := open.link), open.conn, w.client(s1.link.net.tick),
                      if StatusIsOpen(past) then OnCanRead else OnConnect);
    }
  }

  lemma CloseIsLogged(w: World, s: St, releasing: bool, log: seq<Event>)
    requires s.Valid() && s.HasSocket() && log <= s.link.log
    ensures !NoClose(log, CloseHardwareSocket(w, s, releasing).link.log)
  {
    CloseHardwareEffect(w, s, releasing);
    assert CloseHardwareSocket(w, s, releasing).link.log[|s.link.log|].ForcedClose?;
  }

  lemma BeginStaysUp(w: World, s: St, final: bool)
    requires NeverResets(w) && s.Valid()
    requires NoClose(s.link.log, BeginListening(w, s, final).0.link.log)
    ensures StaysUp(s.link.net, BeginListening(w, s, final).0.link.net)
  {
    BeginListeningExact(w, s, final);
  }

  lemma QuietStaysUp(w: World, s: St, past: Status)
    requires NeverResets(w) && s.Valid() && s.HasSocket() && s.last != CLOSED && !StatusIsOpen(s.last)
    requires NoClose(s.link.log, HandleStatus(w, s, past).link.log)
    ensures StaysUp(s.link.net, HandleStatus(w, s, past).link.net)
  {
    QuietOutcomes(w, s, past);
    CloseIsLogged(w, Check(s, QuietCheck(s.last, past), QuietLine(s.last)), false, s.link.log);
  }

  lemma PerformStaysUp(w: World, s: St)
    requires NeverResets(w) && s.Valid() && s.HasSocket() && NoClose(s.link.log, PerformIO(w, s).link.log)
    ensures StaysUp(s.link.net, PerformIO(w, s).link.net)
  {
    var s1 := PollLast(w, s);
    if StatusIsOpen(s.last) && !StatusIsOpen(s1.last) {
    } else if StatusIsOpen(s1.last) {
      OpenStatusStaysUp(w, s1, s.last);
    } else if s1.last == CLOSED {
      BeginStaysUp(w, s1, true);
    } else {
      QuietStaysUp(w, s1, s.last);
    }
  }

  lemma PickStaysUp(w: World, s: St)
    requires NeverResets(w) && s.Valid() && NoClose(s.link.log, PickClosedSocket(w, s).0.link.log)
    ensures StaysUp(s.link.net, PickClosedSocket(w, s).0.link.net)
  {
    if !s.HasSocket() {
      FindStaysUp(w, s.link.net, 0);
      var (n1, found) := FindUnused(w, s.link.net, 0);
      if found.Some? {
        var s1 := s.(last := CLOSED, link := s.link.(net := n1), sock := found.value);
        BeginThenPoll(w, s1);
      }
    }
  }

  /** A pick, once it has found a socket. */
  lemma BeginThenPoll(w: World, s: St)
    requires NeverResets(w) && s.Valid() && s.HasSocket()
    ensures var (s2, ok) := BeginListening(w, s, false);
            var r := if ok then NoteUnsettled(PollLast(w, s2), true) else s2;
            NoClose(s.link.log, r.link.log) ==> StaysUp(s.link.net, r.link.net)
  {
    var (s2, ok) := BeginListening(w, s, false);
    var r := if ok then NoteUnsettled(PollLast(w, s2), true) else s2;
    BeginListeningFrame(w, s, false);
    if NoClose(s.link.log, r.link.log) {
      NoCloseParts(s.link.log, s2.link.log, r.link.log);
      BeginStaysUp(w, s, false);
    }
  }

  lemma ReleaseStaysUp(w: World, s: St)
    requires NeverResets(w) && s.Valid() && NoClose(s.link.log, ReleaseSocket(w, s).0.link.log)
    ensures StaysUp(s.link.net, ReleaseSocket(w, s).0.link.net)
  {
    if s.HasSocket() && !StatusIsInTcpConnectionLifecycle(Poll(w, s).Reg()) {
      var closed := CloseHardwareSocket(w, Poll(w, s), true);
      CloseIsLogged(w, Poll(w, s), true, s.link.log);
      CloseHardwareEffect(w, Poll(w, s), true);
      NoCloseParts(s.link.log, closed.link.log, ReleaseSocket(w, s).0.link.log);
    }
  }

  /** A call that gives no CLOSE closes no socket. */
  lemma DoStaysUp(w: World, s: St, op: Op)
    requires NeverResets(w) && s.Valid() && NoClose(s.link.log, Do(w, s, op).link.log)
    ensures StaysUp(s.link.net, Do(w, s, op).link.net)
  {
    match op
    case Pick => PickStaysUp(w, s);
    case Perform => if s.HasSocket() { PerformStaysUp(w, s); }
    case Release => ReleaseStaysUp(w, s);
    case Lost =>
  }

  lemma {:induction false} RunStaysUp(w: World, y: System, steps: seq<Step>)
    requires NeverResets(w) && Owned(y)
    requires forall i :: 0 <= i < |y.servers| ==> NoClose(y.servers[i].log, Run(w, y, steps).servers[i].log)
    ensures StaysUp(y.net, Run(w, y, steps).net)
    decreases |steps|
  {
    if |steps| > 0 {
      var y1 := Take(w, y, steps[0]);
      TakeOwned(w, y, steps[0]);
      forall i | 0 <= i < |y.servers|
        ensures NoClose(y.servers[i].log, y1.servers[i].log)
        ensures NoClose(y1.servers[i].log, Run(w, y, steps).servers[i].log)
      {
        TakeGrows(w, y, steps[0], i);
        LogsGrow(w, y1, steps[1..], i);
        NoCloseParts(y.servers[i].log, y1.servers[i].log, Run(w, y, steps).servers[i].log);
      }
      if steps[0].i < |y.servers| {
        TakeGrows(w, y, steps[0], steps[0].i);
        DoStaysUp(w, View(y, steps[0].i), steps[0].op);
      }
      RunStaysUp(w, y1, steps[1..]);
    }
  }

  /** Take any two moments of a run on a chip that resets nothing. A socket that was in use at the
      first and is CLOSED at the second was given a CLOSE in between, and the history of some server
      shows one: no close() of a listener or of a server, and nothing else, closes a socket. */
  lemma OnlyCloseCloses(w: World, ports: seq<uint16>, before: seq<Step>, after: seq<Step>, k: nat)
    requires NeverResets(w) && PortsPositive(ports)
    requires var y := Run(w, Boot(ports), before);
             var z := Run(w, y, after);
             && k < |y.net.socks| && y.net.socks[k].status != CLOSED
             && k < |z.net.socks| && z.net.socks[k].status == CLOSED
    ensures var y, z := Run(w, Boot(ports), before), Run(w, Run(w, Boot(ports), before), after);
            exists i :: 0 <= i < |ports| && y.servers[i].log <= z.servers[i].log
                        && !NoClose(y.servers[i].log, z.servers[i].log)
  {
    var y := Run(w, Boot(ports), before);
    BootOwned(ports);
    RunOwned(w, Boot(ports), before);
    forall i | 0 <= i < |ports| ensures y.servers[i].log <= Run(w, y, after).servers[i].log {
      LogsGrow(w, y, after, i);
    }
    if forall i :: 0 <= i < |ports| ==> NoClose(y.servers[i].log, Run(w, y, after).servers[i].log) {
      RunStaysUp(w, y, after);
    }
  }
}
