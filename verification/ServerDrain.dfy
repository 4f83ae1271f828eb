/** A half-closed connection is read to the end and then closed, in a bounded number of polls. */
module ServerDrain {
  import opened Types
  import opened SocketStatus
  import opened WriteBufferSpec
  import opened W5500
  import opened CallbackTrace
  import opened ConnectionSpec
  import opened ServerSocketSpec
  import opened ServerFrames
  import opened ServerProtocol
  import opened ServerSystem

  /** A script that reads at least one byte. */
  predicate Reads(script: seq<Action>) {
    exists i :: 0 <= i < |script| && script[i].Read? && script[i].count > 0
  }

  ghost predicate Greedy(w: World) {
    forall t: nat :: Reads(w.script(t))
  }

  /** The listener has a connection whose peer will send nothing more. */
  ghost predicate HalfClosed(s: St)
    requires s.Valid()
  {
    s.HasSocket() && StatusIsOpen(s.last) && (s.Reg() == CLOSE_WAIT || s.Reg() == CLOSED)
  }

  function Unread(s: St): nat
    requires s.Valid() && s.HasSocket()
  {
    s.link.net.socks[s.sock].unread
  }

  predicate HasEnd(events: seq<Event>) {
    exists i :: 0 <= i < |events| && Ends(events[i])
  }

  /** OnCanRead calls up to the end of the connection. */
  function ReadsBeforeEnd(events: seq<Event>): nat
    decreases |events|
  {
    if |events| == 0 || Ends(events[0]) then 0
    else (if events[0].OnCanRead? then 1 else 0) + ReadsBeforeEnd(events[1..])
  }

  lemma {:induction false} ReadsBeforeEndConcat(a: seq<Event>, b: seq<Event>)
    ensures ReadsBeforeEnd(a + b) == ReadsBeforeEnd(a) + (if HasEnd(a) then 0 else ReadsBeforeEnd(b))
    ensures HasEnd(a + b) <==> HasEnd(a) || HasEnd(b)
    decreases |a|
  {
    assert forall i :: 0 <= i < |b| ==> (a + b)[|a| + i] == b[i];
    assert forall i :: 0 <= i < |a| ==> (a + b)[i] == a[i];
    if |a| == 0 {
      assert a + b == b;
    } else {
      assert (a + b)[1..] == a[1..] + b;
      ReadsBeforeEndConcat(a[1..], b);
      assert Ends(a[0]) ==> HasEnd(a);
      assert HasEnd(a[1..]) ==> HasEnd(a) by {
        assert forall i :: 0 <= i < |a| - 1 ==> a[1..][i] == a[i + 1];
      }
      assert !Ends(a[0]) && HasEnd(a) ==> HasEnd(a[1..]) by {
        if !Ends(a[0]) && HasEnd(a) {
          var i :| 0 <= i < |a| && Ends(a[i]);
          assert a[1..][i - 1] == a[i];
        }
      }
    }
  }

  /** What a log gained. */
  function Gained(before: seq<Event>, after: seq<Event>): seq<Event>
    requires before <= after
  {
    after[|before|..]
  }

  lemma GainedSteps(a: seq<Event>, b: seq<Event>, c: seq<Event>)
    requires a <= b && b <= c
    ensures a <= c && Gained(a, c) == Gained(a, b) + Gained(b, c)
  {
  }

  /** Events of a listener's script: none of them is OnCanRead. */
  lemma {:induction false} ScriptGains(w: World, k: nat, s: Session, f: ClientFn, script: seq<Action>)
    requires k < |s.link.net.socks| && s.conn.limit > 0
    ensures var r := RunScript(w, k, s, f, script);
            s.link.log <= r.link.log && ReadsBeforeEnd(Gained(s.link.log, r.link.log)) == 0
    decreases |script|
  {
    if |script| > 0 {
      var next := Act(w, k, s, f, script[0]);
      ActKeepsShape(w, k, s, f, script[0]);
      ActGains(w, k, s, f, script[0]);
      ScriptGains(w, k, next, f, script[1..]);
      var r := RunScript(w, k, s, f, script);
      GainedSteps(s.link.log, next.link.log, r.link.log);
      ReadsBeforeEndConcat(Gained(s.link.log, next.link.log), Gained(next.link.log, r.link.log));
    }
  }

  lemma ActGains(w: World, k: nat, s: Session, f: ClientFn, a: Action)
    requires k < |s.link.net.socks| && s.conn.limit > 0
    ensures var r := Act(w, k, s, f, a);
            s.link.log <= r.link.log && ReadsBeforeEnd(Gained(s.link.log, r.link.log)) == 0
  {
    if a.Close? {
      var sent := SentBy(w, k, s, f, true);
      var before := if sent.Some? then [sent.value] else [];
      assert Gained(s.link.log, Act(w, k, s, f, a).link.log) == before + [ListenerClose];
    } else {
      assert Gained(s.link.log, s.link.log) == [];
    }
  }

  /** With nothing more arriving, a script only shrinks what is left to read, and one that reads
      shrinks it if there is anything. */
  lemma {:induction false} ScriptConsumes(w: World, k: nat, s: Session, f: ClientFn, script: seq<Action>)
    requires k < |s.link.net.socks| && s.conn.limit > 0
    requires QuietEnd(s.link.net.socks[k].status)
    ensures QuietEnd(RunScript(w, k, s, f, script).link.net.socks[k].status)
    ensures var left := RunScript(w, k, s, f, script).link.net.socks[k].unread;
            && left <= s.link.net.socks[k].unread
            && (Reads(script) && s.link.net.socks[k].unread > 0 ==> left < s.link.net.socks[k].unread)
    decreases |script|
  {
    if |script| > 0 {
      var next := Act(w, k, s, f, script[0]);
      ActKeepsShape(w, k, s, f, script[0]);
      ActConsumes(w, k, s, f, script[0]);
      ScriptConsumes(w, k, next, f, script[1..]);
      if Reads(script) && !(script[0].Read? && script[0].count > 0) {
        var i :| 0 <= i < |script| && script[i].Read? && script[i].count > 0;
        assert script[1..][i - 1] == script[i];
      }
    }
  }

  /** From CLOSE_WAIT on, no state receives. */
  predicate QuietEnd(status: Status) {
    status == CLOSE_WAIT || status == LAST_ACK || status == CLOSED
  }

  lemma ActConsumes(w: World, k: nat, s: Session, f: ClientFn, a: Action)
    requires k < |s.link.net.socks| && s.conn.limit > 0 && QuietEnd(s.link.net.socks[k].status)
    ensures var before, after := s.link.net.socks[k], Act(w, k, s, f, a).link.net.socks[k];
            && QuietEnd(after.status)
            && after.unread == before.unread - (if a.Read? then Min(a.count, before.unread) else 0)
  {
  }

  /** One callback: a single OnCanRead, and at least one byte fewer. */
  lemma AnnounceDrains(w: World, s: St, conn: Conn, f: ClientFn)
    requires Greedy(w) && s.Valid() && s.HasSocket() && conn.limit > 0
    requires QuietEnd(s.Reg()) && Unread(s) > 0
    ensures var r := Announce(w, s, conn, f, OnCanRead);
            && s.link.log <= r.link.log
            && ReadsBeforeEnd(Gained(s.link.log, r.link.log)) == 1
            && Unread(r) < Unread(s)
  {
    var start := Session(Say(s.link, OnCanRead), conn);
    var script := w.script(s.link.net.tick);
    ScriptGains(w, s.sock, start, f, script);
    ScriptConsumes(w, s.sock, start, f, script);
    var done := RunScript(w, s.sock, start, f, script);
    var r := Announce(w, s, conn, f, OnCanRead);
    var tail := [Destroyed(TallyOf(FlushConn(f, done.conn)))];
    assert Gained(s.link.log, start.link.log) == [OnCanRead];
    GainedSteps(s.link.log, start.link.log, done.link.log);
    assert done.link.log + tail == r.link.log;
    GainedSteps(s.link.log, done.link.log, r.link.log);
    assert Gained(done.link.log, r.link.log) == tail;
    ReadsBeforeEndConcat([OnCanRead], Gained(start.link.log, done.link.log));
    ReadsBeforeEndConcat(Gained(s.link.log, done.link.log), tail);
    assert [OnCanRead][1..] == [] && tail[1..] == [];
  }

  /** What one operation on a half-closed connection with u bytes left may add to the log. */
  ghost predicate DrainStep(s: St, r: St, polled: bool)
    requires s.Valid() && s.HasSocket() && r.Valid()
  {
    && s.link.log <= r.link.log
    && var gained := Gained(s.link.log, r.link.log);
       && ReadsBeforeEnd(gained) <= Unread(s)
       && (HasEnd(gained)
           || (HalfClosed(r) && Unread(r) + ReadsBeforeEnd(gained) <= Unread(s)
               && (polled ==> Unread(r) < Unread(s))))
  }

  lemma DropDrains(w: World, s: St)
    requires Inv(w, s) && HalfClosed(s) && !s.link.disc.disconnected
    requires !StatusIsOpen(Poll(w, s).Reg())
    ensures DrainStep(s, PerformIO(w, s), true)
  {
    var r := PerformIO(w, s);
    assert Gained(s.link.log, r.link.log) == [OnDisconnect];
    assert Ends([OnDisconnect][0]);
  }

  lemma ReadDrains(w: World, s: St)
    requires TimeMoves(w) && Greedy(w) && Inv(w, s) && NoMishap(s.link.log) && HalfClosed(s)
    requires Poll(w, s).Reg() == CLOSE_WAIT
    ensures DrainStep(s, PerformIO(w, s), true)
  {
    NewConnConserved();
    var s1 := PollLast(w, s);
    var open := OpenSession(s1.link);
    var f := w.client(s1.link.net.tick);
    var s2 := Poll(w, s1.(link := open.link));
    assert PerformIO(w, s) == HandleCloseWait(w, s1);
    assert Unread(s2) == Unread(s) && s2.link.log == s.link.log;
    RecordOk(w, s.link, s2.link.net);
    if Unread(s2) > 0 {
      CallbackDrains(w, s2, open.conn, f);
    } else {
      ServerCloseGains(w, s2, open.conn, f, s1, PerformIO(w, s));
    }
  }

  /** The OnCanRead callback of a half-closed connection with something left to read. */
  lemma CallbackDrains(w: World, s: St, conn: Conn, f: ClientFn)
    requires TimeMoves(w) && Greedy(w) && s.Valid() && s.HasSocket() && Conserved(conn)
    requires s.last == CLOSE_WAIT && (s.Reg() == CLOSE_WAIT || s.Reg() == CLOSED) && Unread(s) > 0
    requires EventsOk(s.link.log) && DiscOk(w, s.link) && !s.link.disc.disconnected
    requires PhaseAfter(s.link.log) == Live
    ensures DrainStep(s, Announce(w, s, conn, f, OnCanRead), true)
  {
    var r := Announce(w, s, conn, f, OnCanRead);
    AnnounceDrains(w, s, conn, f);
    AnnounceOk(w, s, conn, f, OnCanRead, false, true);
    if !HasEnd(Gained(s.link.log, r.link.log)) {
      NotEndedIsOpen(s.link.log, r);
      StaysHalfClosed(w, s, conn, f);
    }
  }

  lemma NotEndedIsOpen(log: seq<Event>, r: St)
    requires r.Valid() && Agreed(r) && log <= r.link.log && PhaseAfter(log) == Live
    requires !HasEnd(Gained(log, r.link.log))
    ensures !r.link.disc.disconnected && StatusIsOpen(r.last)
  {
    StillLive(log, Gained(log, r.link.log));
    assert log + Gained(log, r.link.log) == r.link.log;
  }

  /** Without an end, a live connection stays live unless the server is in the middle of closing it. */
  lemma {:induction false} StillLive(log: seq<Event>, gained: seq<Event>)
    requires PhaseAfter(log) in {Live, Finishing, Bad} && !HasEnd(gained)
    ensures PhaseAfter(log + gained) in {Live, Finishing, Bad}
    decreases |gained|
  {
    if |gained| == 0 {
      assert log + gained == log;
    } else {
      var n := |gained| - 1;
      var e := gained[n];
      assert forall i :: 0 <= i < n ==> gained[..n][i] == gained[i];
      StillLive(log, gained[..n]);
      PhaseAfterStep(log + gained[..n], e);
      assert log + gained == log + gained[..n] + [e];
      assert !Ends(e);
    }
  }

  lemma StaysHalfClosed(w: World, s: St, conn: Conn, f: ClientFn)
    requires TimeMoves(w) && s.Valid() && s.HasSocket() && StatusIsOpen(s.last) && Conserved(conn)
    requires EventsOk(s.link.log) && DiscOk(w, s.link) && !s.link.disc.disconnected
    requires PhaseAfter(s.link.log) == Live && Reach(s.last, s.Reg())
    requires s.Reg() == CLOSE_WAIT || s.Reg() == CLOSED
    requires !Announce(w, s, conn, f, OnCanRead).link.disc.disconnected
    ensures HalfClosed(Announce(w, s, conn, f, OnCanRead))
  {
    SayOk(s.link, OnCanRead);
    AnnounceOk(w, s, conn, f, OnCanRead, false, true);
    ScriptConsumes(w, s.sock, Session(Say(s.link, OnCanRead), conn), f, w.script(s.link.net.tick));
  }

  lemma ServerCloseGains(w: World, s2: St, conn: Conn, f: ClientFn, s1: St, r: St)
    requires s1.Valid() && s1.HasSocket() && r == HandleCloseWait(w, s1)
    requires conn == OpenSession(s1.link).conn && f == w.client(s1.link.net.tick)
    requires s2 == Poll(w, s1.(link := OpenSession(s1.link).link)) && Unread(s2) == 0
    requires s2.link.log == s1.link.log
    ensures s1.link.log <= r.link.log
    ensures var gained := Gained(s1.link.log, r.link.log); HasEnd(gained) && ReadsBeforeEnd(gained) == 0
  {
    var start := Session(s2.link, conn);
    var sent := SentBy(w, s2.sock, start, f, false);
    var before := if sent.Some? then [sent.value] else [];
    var done := CloseConn(w, s2.sock, start, f, false);
    var tally := TallyOf(FlushConn(f, done.conn));
    var events := before + [OnDisconnect, Destroyed(tally)];
    assert done.link.log == s1.link.log + before;
    assert r.link.log == s1.link.log + events;
    assert Gained(s1.link.log, r.link.log) == events;
    assert Ends(events[|before|]);
    ReadsBeforeEndConcat(before, [OnDisconnect, Destroyed(tally)]);
  }

  lemma PerformDrains(w: World, s: St)
    requires TimeMoves(w) && Greedy(w) && Inv(w, s) && HalfClosed(s) && NoMishap(PerformIO(w, s).link.log)
    ensures DrainStep(s, PerformIO(w, s), true)
  {
    PerformFrame(w, s);
    LogPrefix(s.link.log, PerformIO(w, s).link.log);
    if StatusIsOpen(Poll(w, s).Reg()) {
      ReadDrains(w, s);
    } else {
      DropDrains(w, s);
    }
  }

  /** A release that is no mishap is refused. */
  lemma ReleaseDrains(w: World, s: St)
    requires TimeMoves(w) && Inv(w, s) && HalfClosed(s) && NoMishap(ReleaseSocket(w, s).0.link.log)
    ensures DrainStep(s, ReleaseSocket(w, s).0, false)
  {
    ReleaseMishapExactly(w, s);
    ReleaseRefused(w, s);
    assert Gained(s.link.log, Poll(w, s).link.log) == [];
  }

  lemma TakeDrains(w: World, y: System, step: Step, i: nat)
    requires TimeMoves(w) && Greedy(w) && SystemInv(w, y) && i < |y.servers| && HalfClosed(View(y, i))
    requires NoMishap(Take(w, y, step).servers[i].log)
    ensures DrainStep(View(y, i), View(Take(w, y, step), i), step == Step(i, Perform))
  {
    var s, r := View(y, i), View(Take(w, y, step), i);
    assert Inv(w, s);
    if step.i == i {
      assert r == Do(w, s, step.op);
      if step.op == Perform {
        PerformDrains(w, s);
      } else if step.op == Lost {
        assert Gained(s.link.log, r.link.log) == [OnDisconnect];
        assert Ends([OnDisconnect][0]);
      } else if step.op == Release {
        ReleaseDrains(w, s);
      } else {
        assert r == s && Gained(s.link.log, r.link.log) == [];
      }
    } else if step.i < |y.servers| {
      OthersDrain(w, y, step, i);
    } else {
      assert Gained(s.link.log, r.link.log) == [];
    }
  }

  /** What another server does leaves the connection and its unread bytes to the chip. */
  lemma OthersDrain(w: World, y: System, step: Step, i: nat)
    requires TimeMoves(w) && SystemInv(w, y) && i < |y.servers| && HalfClosed(View(y, i))
    requires step.i < |y.servers| && step.i != i
    ensures DrainStep(View(y, i), View(Take(w, y, step), i), false)
  {
    var s, r, t := View(y, i), View(Take(w, y, step), i), View(y, step.i);
    assert Inv(w, s) && Inv(w, t) && s.port != t.port;
    DoFrame(w, t, step.op);
    var d := Do(w, t, step.op);
    assert r == s.(link := s.link.(net := d.link.net));
    assert s.sock != if t.HasSocket() then t.sock else d.sock;
    assert SockDrifted(s.link.net.socks[s.sock], r.link.net.socks[s.sock]);
    assert Gained(s.link.log, r.link.log) == [];
  }

  function PollsOf(steps: seq<Step>, i: nat): nat
    decreases |steps|
  {
    if |steps| == 0 then 0
    else (if steps[0] == Step(i, Perform) then 1 else 0) + PollsOf(steps[1..], i)
  }

  /** Take any run of the system from a moment when server i has a half-closed connection with u
      bytes unread, its listener reading at least one byte in every callback. Until the connection
      ends the listener gets at most u more OnCanRead calls, and it has ended after u + 1 polls. */
  lemma {:induction false} HalfCloseDrains(w: World, y: System, steps: seq<Step>, i: nat)
    requires TimeMoves(w) && Greedy(w) && SystemInv(w, y)
    requires i < |y.servers| && HalfClosed(View(y, i))
    requires NoMishap(Run(w, y, steps).servers[i].log)
    ensures y.servers[i].log <= Run(w, y, steps).servers[i].log
    ensures var gained := Gained(y.servers[i].log, Run(w, y, steps).servers[i].log);
            && ReadsBeforeEnd(gained) <= Unread(View(y, i))
            && (PollsOf(steps, i) > Unread(View(y, i)) ==> HasEnd(gained))
    decreases |steps|
  {
    OwnedFromInv(w, y);
    LogsGrow(w, y, steps, i);
    if |steps| > 0 {
      var y1 := Take(w, y, steps[0]);
      TakeOwned(w, y, steps[0]);
      LogsGrow(w, y1, steps[1..], i);
      var log0, log1, log2 := y.servers[i].log, y1.servers[i].log, Run(w, y, steps).servers[i].log;
      LogPrefix(log1, log2);
      TakeDrains(w, y, steps[0], i);
      TakeOk(w, y, steps[0]);
      GainedSteps(log0, log1, log2);
      ReadsBeforeEndConcat(Gained(log0, log1), Gained(log1, log2));
      if !HasEnd(Gained(log0, log1)) {
        HalfCloseDrains(w, y1, steps[1..], i);
      }
    }
  }
}
