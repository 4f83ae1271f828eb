/** How many callbacks one PerformIO makes, for any chip, any listener and any state. */
module ServerCallbacks {
  import opened SocketStatus
  import opened WriteBufferSpec
  import opened W5500
  import opened CallbackTrace
  import opened PlatformNetwork
  import opened ConnectionSpec
  import opened ServerSocketSpec

  function Callbacks(log: seq<Event>): nat
    decreases |log|
  {
    if |log| == 0 then 0
    else Callbacks(log[..|log| - 1]) + (if IsCallback(log[|log| - 1]) then 1 else 0)
  }

  lemma SayCounts(l: Link, e: Event)
    ensures Callbacks(Say(l, e).log) == Callbacks(l.log) + (if IsCallback(e) then 1 else 0)
  {
    assert Say(l, e).log[..|l.log|] == l.log;
  }

  lemma CloseConnCounts(w: World, k: nat, s: Session, f: ClientFn, byListener: bool)
    requires k < |s.link.net.socks| && s.conn.limit > 0
    ensures Callbacks(CloseConn(w, k, s, f, byListener).link.log) == Callbacks(s.link.log)
  {
    var n2 := Access(w, Access(w, s.link.net, k), k);
    var sent := Discon(byListener, DisconSocket(w, n2, k).socks[k].unread, TallyOf(FlushConn(f, s.conn)));
    SayCounts(s.link, sent);
    SayCounts(s.link, ListenerClose);
    SayCounts(Say(s.link, sent), ListenerClose);
  }

  lemma {:induction false} ScriptCounts(w: World, k: nat, s: Session, f: ClientFn, script: seq<Action>)
    requires k < |s.link.net.socks| && s.conn.limit > 0
    ensures Callbacks(RunScript(w, k, s, f, script).link.log) == Callbacks(s.link.log)
    decreases |script|
  {
    if |script| > 0 {
      ActKeepsShape(w, k, s, f, script[0]);
      CloseConnCounts(w, k, s, f, true);
      ScriptCounts(w, k, Act(w, k, s, f, script[0]), f, script[1..]);
    }
  }

  lemma AnnounceCounts(w: World, s: St, conn: Conn, f: ClientFn, e: Event)
    requires s.Valid() && s.HasSocket() && conn.limit > 0 && IsCallback(e)
    ensures Callbacks(Announce(w, s, conn, f, e).link.log) == Callbacks(s.link.log) + 1
  {
    SayCounts(s.link, e);
    ScriptCounts(w, s.sock, Session(Say(s.link, e), conn), f, w.script(s.link.net.tick));
    var done := Callback(w, s.sock, Session(s.link, conn), f, e);
    var s1 := DetectListenerInitiatedDisconnect(w, s.(link := done.link));
    SayCounts(s1.link, Destroyed(TallyOf(FlushConn(f, done.conn))));
  }

  lemma HandleCloseWaitCounts(w: World, s: St)
    requires s.Valid() && s.HasSocket()
    ensures Callbacks(HandleCloseWait(w, s).link.log) == Callbacks(s.link.log) + 1
  {
    var open := OpenSession(s.link);
    var f := w.client(s.link.net.tick);
    var s1 := Poll(w, s.(link := open.link));
    if s1.link.net.socks[s.sock].unread > 0 {
      AnnounceCounts(w, s1, open.conn, f, OnCanRead);
    } else {
      CloseConnCounts(w, s.sock, Session(s1.link, open.conn), f, false);
      var done := CloseConn(w, s.sock, Session(s1.link, open.conn), f, false);
      var s2 := PollLast(w, s1.(link := done.link));
      SayCounts(s2.link, OnDisconnect);
      SayCounts(Say(s2.link, OnDisconnect), Destroyed(TallyOf(FlushConn(f, done.conn))));
    }
  }

  lemma CloseHardwareCounts(w: World, s: St, releasing: bool)
    requires s.Valid() && s.HasSocket()
    ensures Callbacks(CloseHardwareSocket(w, s, releasing).link.log) == Callbacks(s.link.log)
  {
    var hit := Access(w, s.link.net, s.sock).socks[s.sock].status;
    SayCounts(s.link, ForcedClose(s.Reg(), hit, releasing));
    SayCounts(Say(s.link, ForcedClose(s.Reg(), hit, releasing)), CheckFailed(357));
  }

  lemma BeginListeningCounts(w: World, s: St, final: bool)
    requires s.Valid()
    ensures Callbacks(BeginListening(w, s, final).0.link.log) == Callbacks(s.link.log)
  {
    if s.HasSocket() {
      var r := BeginListening(w, s, final).0;
      var s1 := Poll(w, s);
      var s2 := Poll(w, s1);
      if s.port == ListenerPort(s1.link.net.socks[s.sock]) || StatusIsInTcpConnectionLifecycle(s2.Reg()) {
        assert r.link.log == s.link.log;
      } else {
        CloseHardwareCounts(w, s2, false);
        var (s3, ok) := Listen(w, s2);
        assert s3.link.log == CloseHardwareSocket(w, s2, false).link.log;
        var s4 := PollLast(w, s3);
        SayCounts(s4.link, Unsettled(s4.last, final));
        assert r == if ok then NoteUnsettled(s4, final) else s3;
      }
    }
  }

  /** A failed check is logged and is no callback. */
  lemma CheckCounts(s: St, ok: bool, line: nat)
    ensures Callbacks(Check(s, ok, line).link.log) == Callbacks(s.link.log)
  {
    SayCounts(s.link, CheckFailed(line));
  }

  lemma HandleStatusCounts(w: World, s: St, past: Status)
    requires s.Valid() && s.HasSocket()
    ensures Callbacks(s.link.log) <= Callbacks(HandleStatus(w, s, past).link.log) <= Callbacks(s.link.log) + 1
    ensures StatusIsOpen(s.last) <==> Callbacks(HandleStatus(w, s, past).link.log) == Callbacks(s.link.log) + 1
  {
    if s.last == CLOSED {
      BeginListeningCounts(w, s, true);
    } else if s.last == CLOSE_WAIT && StatusIsOpen(past) {
      HandleCloseWaitCounts(w, s);
    } else if StatusIsOpen(s.last) {
      var line := if s.last == CLOSE_WAIT then 213 else if StatusIsOpen(past) then 204 else 200;
      var expected := if StatusIsOpen(past) then ESTABLISHED else LISTEN;
      var e := if StatusIsOpen(past) then OnCanRead else OnConnect;
      CheckCounts(s, past == expected, line);
      var s1 := Check(s, past == expected, line);
      var open := OpenSession(s1.link);
      AnnounceCounts(w, s1.(link := open.link), open.conn, w.client(s1.link.net.tick), e);
    } else {
      QuietStatusCounts(w, s, past);
    }
  }

  lemma QuietStatusCounts(w: World, s: St, past: Status)
    requires s.Valid() && s.HasSocket() && !StatusIsOpen(s.last) && s.last != CLOSED
    ensures Callbacks(HandleStatus(w, s, past).link.log) == Callbacks(s.link.log)
  {
    QuietOutcomes(w, s, past);
    var s1 := Check(s, QuietCheck(s.last, past), QuietLine(s.last));
    CheckCounts(s, QuietCheck(s.last, past), QuietLine(s.last));
    CloseHardwareCounts(w, s1, false);
  }

  /** Every PerformIO makes at most one callback. It makes one exactly when the socket is seen open,
      or seen no longer open with no disconnect on record yet. */
  lemma AtMostOneCallback(w: World, s: St)
    requires s.Valid()
    ensures var r := PerformIO(w, s);
            var seen := if s.HasSocket() then Poll(w, s).Reg() else CLOSED;
            var one := s.HasSocket()
                       && (StatusIsOpen(seen) || (StatusIsOpen(s.last) && !s.link.disc.disconnected));
            Callbacks(r.link.log) == Callbacks(s.link.log) + if one then 1 else 0
  {
    if s.HasSocket() {
      var s1 := PollLast(w, s);
      SayCounts(s1.link, OnDisconnect);
      HandleStatusCounts(w, s1, s.last);
    }
  }
}
