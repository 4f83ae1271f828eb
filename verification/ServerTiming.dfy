/** How long a connection may stay in a closing state, and its server out of service, in spite of a
    32-bit clock. */
module ServerTiming {
  import opened Types
  import opened SocketStatus
  import opened WriteBufferSpec
  import opened W5500
  import opened DisconnectRecord
  import opened CallbackTrace
  import opened PlatformNetwork
  import opened ConnectionSpec
  import opened ServerSocketSpec
  import opened ServerFrames
  import opened ServerProtocol
  import opened ServerSystem

  /** A disconnect, if recorded, was recorded at or after `start`. */
  ghost predicate RecordedSince(start: nat, l: Link) {
    l.disc.disconnected ==> start <= l.disc.since
  }

  lemma {:induction false} ScriptRecordsSince(w: World, start: nat, k: nat, s: Session, f: ClientFn,
                                              script: seq<Action>)
    requires TimeMoves(w) && k < |s.link.net.socks| && s.conn.limit > 0 && DiscOk(w, s.link)
    requires RecordedSince(start, s.link) && start <= w.time(s.link.net.tick)
    ensures RecordedSince(start, RunScript(w, k, s, f, script).link)
    decreases |script|
  {
    if |script| > 0 {
      var next := Act(w, k, s, f, script[0]);
      ActKeepsShape(w, k, s, f, script[0]);
      if script[0].Close? {
        CloseConnEffect(w, k, s, f, true);
      } else {
        RecordOk(w, s.link, next.link.net);
      }
      assert w.time(s.link.net.tick) <= w.time(next.link.net.tick);
      ScriptRecordsSince(w, start, k, next, f, script[1..]);
    }
  }

  lemma AnnounceRecordsSince(w: World, start: nat, s: St, conn: Conn, f: ClientFn, e: Event)
    requires TimeMoves(w) && s.Valid() && s.HasSocket() && conn.limit > 0
    requires !s.link.disc.disconnected && start <= w.time(s.link.net.tick)
    ensures RecordedSince(start, Announce(w, s, conn, f, e).link)
    ensures Announce(w, s, conn, f, e).link.disc.disconnected || Announce(w, s, conn, f, e).last == s.last
  {
    ScriptRecordsSince(w, start, s.sock, Session(Say(s.link, e), conn), f, w.script(s.link.net.tick));
  }

  /** Any callback made by PerformIO starts with a record that is reset, so a disconnect found
      recorded afterwards is no older than the call. */
  lemma OpenRecordsSince(w: World, s: St, past: Status)
    requires TimeMoves(w) && s.Valid() && s.HasSocket() && StatusIsOpen(s.last)
    ensures var r := HandleStatus(w, s, past);
            && RecordedSince(w.time(s.link.net.tick), r.link)
            && (r.link.disc.disconnected || StatusIsOpen(r.last))
  {
    var start := w.time(s.link.net.tick);
    var line := if s.last == CLOSE_WAIT then 213 else if StatusIsOpen(past) then 204 else 200;
    var expected := if s.last == ESTABLISHED && StatusIsOpen(past) then ESTABLISHED else LISTEN;
    if s.last == CLOSE_WAIT && StatusIsOpen(past) {
      var open := OpenSession(s.link);
      var s1 := Poll(w, s.(link := open.link));
      var f := w.client(s.link.net.tick);
      AnnounceRecordsSince(w, start, s1, open.conn, f, OnCanRead);
      CloseConnEffect(w, s.sock, Session(s1.link, open.conn), f, false);
    } else {
      var s1 := Check(s, past == expected, line);
      var open := OpenSession(s1.link);
      var e := if s.last == ESTABLISHED && StatusIsOpen(past) then OnCanRead else OnConnect;
      AnnounceRecordsSince(w, start, s1.(link := open.link), open.conn, w.client(s1.link.net.tick), e);
    }
  }

  /** As of the last poll, at time `polled`, a closing connection was on record as disconnected, for
      no more than 5000 ms. */
  ghost predicate Timely(s: St, polled: nat) {
    s.HasSocket() && StatusIsClosing(s.last) ==>
      s.link.disc.disconnected && polled <= s.link.disc.since + 5000
  }

  /** A poll that finds a connection closing gives up on it exactly when a disconnect is on record and
      the time since, modulo 2^32 milliseconds, exceeds 5000; otherwise it leaves everything as found. */
  lemma TimeoutExact(w: World, s: St)
    requires TimeMoves(w) && Inv(w, s) && s.HasSocket() && StatusIsClosing(Poll(w, s).Reg())
    ensures var r, seen, disc := PerformIO(w, s), PollLast(w, s), s.link.disc;
            && (r.last == CLOSED <==>
                  disc.disconnected
                  && (w.time(seen.link.net.tick) - disc.since) % TWO_TO_THE_32 > 5000)
            && (r.last == CLOSED ==> r.Reg() == CLOSED && r.link.disc == disc)
            && (r.last != CLOSED ==> r == seen)
            && StatusIsClosing(s.last) && (disc.disconnected ==> disc.since <= w.time(seen.link.net.tick))
  {
    var s1 := PollLast(w, s);
    RecordOk(w, s.link, s1.link.net);
    assert StatusIsClosing(s.last);
    assert PerformIO(w, s) == DetectCloseTimeout(w, s1);
    if s.link.disc.disconnected {
      ElapsedModulo(w.time(s1.link.net.tick), s.link.disc.since);
    }
    CloseHardwareEffect(w, s1, false);
  }

  lemma ElapsedModulo(now: nat, since: nat)
    requires since <= now
    ensures ElapsedMillis((now % TWO_TO_THE_32) as uint32, (since % TWO_TO_THE_32) as uint32) as int
            == (now - since) % TWO_TO_THE_32
  {
    var m := TWO_TO_THE_32;
    var a, b := now / m, since / m;
    var x, y := now % m, since % m;
    assert now == m * a + x && since == m * b + y;
    if x >= y {
      assert now - since == m * (a - b) + (x - y);
    } else {
      assert now - since == m * (a - b - 1) + (x - y + m);
    }
  }

  /** Listening again on a held socket, which no other port can have taken, works; the status left
      in last_status_ is the one that was re-read. */
  lemma RelistenRereads(w: World, s: St, final: bool)
    requires s.Valid() && s.HasSocket() && s.port > 0 && s.Reg() == CLOSED && Affinity(s)
    ensures var (r, ok) := BeginListening(w, s, final);
            && ok && r.link.disc == s.link.disc
            && (NoneFoundClosing(r.link.log) ==> !StatusIsClosing(r.last))
            && (ListensTake(r.link.log) ==> StatusIsPassive(r.last))
  {
    BeginsByListening(w, s, final);
    var s2 := Poll(w, Poll(w, s));
    CloseHardwareEffect(w, s2, false);
    var s3 := CloseHardwareSocket(w, s2, false);
    assert s3.link.net.socks[s.sock].serverPort == s.port;
    LastIsReread(PollLast(w, Listen(w, s2).0), final);
  }

  lemma LastIsReread(s: St, final: bool)
    ensures var log := NoteUnsettled(s, final).link.log;
            && (NoneFoundClosing(log) ==> !StatusIsClosing(s.last))
            && (ListensTake(log) ==> StatusIsPassive(s.last))
  {
    var log := NoteUnsettled(s, final).link.log;
    if s.last != LISTEN {
      assert log[|log| - 1] == Unsettled(s.last, final);
    }
  }

  /** One poll: the timer is armed in every closing state, runs from the first disconnect, and is
      read before it can wrap. */
  lemma PerformTimely(w: World, s: St, polled: nat, d: nat)
    requires TimeMoves(w) && Inv(w, s) && s.HasSocket() && Timely(s, polled)
    requires 5000 + d < TWO_TO_THE_32
    requires w.time(PerformIO(w, s).link.net.tick) <= polled + d
    requires NoneFoundClosing(PerformIO(w, s).link.log)
    ensures Timely(PerformIO(w, s), w.time(s.link.net.tick))
  {
    PerformFrame(w, s);
    var s1 := PollLast(w, s);
    if StatusIsOpen(s1.last) {
      OpenRecordsSince(w, s1, s.last);
      assert w.time(s.link.net.tick) <= w.time(s1.link.net.tick);
    } else if StatusIsClosing(s1.last) {
      TimeoutExact(w, s);
      ClosingPollTimely(w, s, s1, PerformIO(w, s), polled, d);
    } else if s1.last == CLOSED && !StatusIsOpen(s.last) {
      RelistenRereads(w, s1, true);
    } else {
      OtherStatusTimely(w, s);
    }
  }

  /** Statuses that are neither open, closing nor CLOSED do not lead to a closing one. */
  lemma OtherStatusTimely(w: World, s: St)
    requires Inv(w, s) && s.HasSocket()
    requires !StatusIsOpen(Poll(w, s).Reg()) && !StatusIsClosing(Poll(w, s).Reg())
    requires Poll(w, s).Reg() == CLOSED ==> StatusIsOpen(s.last)
    ensures !StatusIsClosing(PerformIO(w, s).last)
  {
  }

  /** The arithmetic of a poll that does not give up. */
  lemma ClosingPollTimely(w: World, s: St, seen: St, r: St, polled: nat, d: nat)
    requires TimeMoves(w) && s.link.disc.disconnected
    requires s.link.disc.since <= w.time(seen.link.net.tick) <= polled + d
    requires 5000 + d < TWO_TO_THE_32
    requires polled <= s.link.disc.since + 5000
    requires s.link.net.tick <= seen.link.net.tick && seen.link.disc == s.link.disc
    requires (w.time(seen.link.net.tick) - s.link.disc.since) % TWO_TO_THE_32 > 5000
             <==> r.last == CLOSED
    requires r.last != CLOSED ==> r == seen
    ensures Timely(r, w.time(s.link.net.tick))
  {
    assert w.time(s.link.net.tick) <= w.time(seen.link.net.tick);
  }

  /** When server i was last polled, seen from after one more step. */
  function PolledBy(w: World, y: System, step: Step, i: nat, polled: nat): nat {
    if step == Step(i, Perform) then w.time(y.net.tick) else polled
  }

  /** Server i is polled often enough: at every moment of the run, no more than d milliseconds
      have passed since its last poll began (at time `polled`, or since then). */
  ghost predicate Punctual(w: World, y: System, steps: seq<Step>, i: nat, d: nat, polled: nat)
    requires ValidSystem(y)
    decreases |steps|
  {
    && w.time(y.net.tick) <= polled + d
    && (|steps| > 0 ==>
          var y1 := Take(w, y, steps[0]);
          && w.time(y1.net.tick) <= polled + d
          && Punctual(w, y1, steps[1..], i, d, PolledBy(w, y, steps[0], i, polled)))
  }

  /** A connection of server i that is closing has been so for at most 5000 + d milliseconds. */
  ghost predicate ClosingIsRecent(w: World, y: System, i: nat, d: nat)
    requires ValidSystem(y) && i < |y.servers|
  {
    var s := View(y, i);
    s.HasSocket() && StatusIsClosing(s.Reg()) ==>
      && s.link.disc.disconnected
      && w.time(y.net.tick) <= s.link.disc.since + 5000 + d
  }

  lemma OtherOpsTimely(w: World, s: St, op: Op, polled: nat)
    requires TimeMoves(w) && Inv(w, s) && Timely(s, polled) && op != Perform
    requires NoneFoundClosing(Do(w, s, op).link.log)
    ensures Timely(Do(w, s, op), polled)
  {
    if op == Pick && !s.HasSocket() {
      PickRereads(w, s);
    }
  }

  lemma PickRereads(w: World, s: St)
    requires s.Valid() && !s.HasSocket()
    ensures var (r, ok) := PickClosedSocket(w, s);
            && (NoneFoundClosing(r.link.log) ==> !StatusIsClosing(r.last))
            && (ListensTake(r.link.log) && ok ==> StatusIsPassive(r.last))
            && (!ok ==> !r.HasSocket())
  {
    var (r, ok) := PickClosedSocket(w, s);
    if ok {
      var n1 := FindUnused(w, s.link.net, 0);
      var s1 := s.(last := CLOSED, link := s.link.(net := n1.0), sock := n1.1.value);
      LastIsReread(PollLast(w, BeginListening(w, s1, false).0), true);
    }
  }

  lemma TakeTimely(w: World, y: System, step: Step, i: nat, d: nat, polled: nat)
    requires TimeMoves(w) && SystemInv(w, y) && i < |y.servers|
    requires 5000 + d < TWO_TO_THE_32
    requires Timely(View(y, i), polled)
    requires NoneFoundClosing(Take(w, y, step).servers[i].log) && w.time(Take(w, y, step).net.tick) <= polled + d
    ensures Timely(View(Take(w, y, step), i), PolledBy(w, y, step, i, polled))
  {
    var s := View(y, i);
    OwnedFromInv(w, y);
    TakeGrows(w, y, step, i);
    assert Inv(w, s);
    if step == Step(i, Perform) {
      if s.HasSocket() {
        PerformTimely(w, s, polled, d);
      }
    } else if step.i == i {
      OtherOpsTimely(w, s, step.op, polled);
    }
  }

  lemma {:induction false} RunTimely(w: World, y: System, steps: seq<Step>, i: nat, d: nat, polled: nat)
    requires TimeMoves(w) && SystemInv(w, y) && i < |y.servers|
    requires 5000 + d < TWO_TO_THE_32
    requires Punctual(w, y, steps, i, d, polled) && Timely(View(y, i), polled)
    requires NoneFoundClosing(Run(w, y, steps).servers[i].log)
    ensures ClosingIsRecent(w, Run(w, y, steps), i, d)
    decreases |steps|
  {
    if |steps| == 0 {
      assert Inv(w, View(y, i));
    } else {
      var y1 := Take(w, y, steps[0]);
      TakeOk(w, y, steps[0]);
      OwnedFromInv(w, y1);
      LogsGrow(w, y1, steps[1..], i);
      LogPrefix(y1.servers[i].log, Run(w, y, steps).servers[i].log);
      TakeTimely(w, y, steps[0], i, d, polled);
      RunTimely(w, y1, steps[1..], i, d, PolledBy(w, y, steps[0], i, polled));
    }
  }

  /** In every run in which server i is polled at least every d milliseconds, with 5000 + d below
      2^32, and no listen found a connection already closing, no connection of it is found in
      FIN_WAIT, CLOSING, TIME_WAIT or LAST_ACK more than 5000 + d milliseconds after its disconnect
      was recorded. */
  lemma ClosingIsBounded(w: World, ports: seq<uint16>, steps: seq<Step>, i: nat, d: nat)
    requires TimeMoves(w) && PortsPositive(ports) && PortsDistinct(ports) && i < |ports|
    requires 5000 + d < TWO_TO_THE_32
    requires Punctual(w, Boot(ports), steps, i, d, w.time(0))
    requires NoneFoundClosing(Run(w, Boot(ports), steps).servers[i].log)
    ensures ClosingIsRecent(w, Run(w, Boot(ports), steps), i, d)
  {
    BootOk(w, ports);
    RunTimely(w, Boot(ports), steps, i, d, w.time(0));
  }

  // How long a server may be out of service.

  /** As of the last poll, a socket remembered as CLOSED was to be listening again within d
      milliseconds, and nothing but the life of a connection is remembered. */
  ghost predicate InService(s: St, polled: nat, d: nat) {
    s.HasSocket() ==>
      && (StatusIsPassive(s.last) || StatusIsOpen(s.last) || StatusIsDown(s.last))
      && (StatusIsOpen(s.last) ==> !s.link.disc.disconnected)
      && (s.last == CLOSED ==>
            s.link.disc.disconnected && polled <= s.link.disc.since + 5000 + d)
  }

  lemma PerformInService(w: World, s: St, polled: nat, d: nat)
    requires TimeMoves(w) && Inv(w, s) && s.HasSocket() && Timely(s, polled) && InService(s, polled, d)
    requires w.time(PerformIO(w, s).link.net.tick) <= polled + d
    requires ListensTake(PerformIO(w, s).link.log)
    ensures InService(PerformIO(w, s), w.time(s.link.net.tick), d)
  {
    PerformFrame(w, s);
    var s1 := PollLast(w, s);
    assert w.time(s.link.net.tick) <= w.time(s1.link.net.tick);
    if StatusIsOpen(s1.last) {
      OpenInService(w, s1, s.last);
      OpenRecordsSince(w, s1, s.last);
    } else if StatusIsClosing(s1.last) {
      TimeoutExact(w, s);
    } else if s1.last == CLOSED && !StatusIsOpen(s.last) {
      RelistenRereads(w, s1, true);
    }
  }

  lemma OpenInService(w: World, s: St, past: Status)
    requires TimeMoves(w) && StatusJustRead(w, s, past, false, false) && StatusIsOpen(s.last)
    ensures RecordMatches(HandleStatus(w, s, past))
  {
    if s.last == CLOSE_WAIT && StatusIsOpen(past) {
      HandleCloseWaitOk(w, s, past, false, false);
    } else {
      OpenStatusOk(w, s, past, false, false);
    }
  }

  lemma TakeInService(w: World, y: System, step: Step, i: nat, d: nat, polled: nat)
    requires TimeMoves(w) && SystemInv(w, y) && i < |y.servers|
    requires Timely(View(y, i), polled) && InService(View(y, i), polled, d)
    requires ListensTake(Take(w, y, step).servers[i].log) && w.time(Take(w, y, step).net.tick) <= polled + d
    ensures InService(View(Take(w, y, step), i), PolledBy(w, y, step, i, polled), d)
  {
    var s := View(y, i);
    OwnedFromInv(w, y);
    TakeGrows(w, y, step, i);
    assert Inv(w, s);
    if step == Step(i, Perform) {
      if s.HasSocket() {
        PerformInService(w, s, polled, d);
      }
    } else if step.i == i && step.op == Pick && !s.HasSocket() {
      PickRereads(w, s);
    }
  }

  /** A held socket remembered as closing or CLOSED has been so for at most 5000 + 2d milliseconds. */
  ghost predicate OutOfServiceIsRecent(w: World, y: System, i: nat, d: nat)
    requires ValidSystem(y) && i < |y.servers|
  {
    var s := View(y, i);
    s.HasSocket() && StatusIsDown(s.last) ==>
      && s.link.disc.disconnected
      && w.time(y.net.tick) <= s.link.disc.since + 5000 + 2 * d
  }

  lemma TakesAreNotClosing(log: seq<Event>)
    requires ListensTake(log)
    ensures NoneFoundClosing(log)
  {
  }

  lemma {:induction false} RunInService(w: World, y: System, steps: seq<Step>, i: nat, d: nat, polled: nat)
    requires TimeMoves(w) && SystemInv(w, y) && i < |y.servers|
    requires 5000 + d < TWO_TO_THE_32
    requires Punctual(w, y, steps, i, d, polled)
    requires Timely(View(y, i), polled) && InService(View(y, i), polled, d)
    requires ListensTake(Run(w, y, steps).servers[i].log)
    ensures OutOfServiceIsRecent(w, Run(w, y, steps), i, d)
    decreases |steps|
  {
    if |steps| > 0 {
      var y1 := Take(w, y, steps[0]);
      TakeOk(w, y, steps[0]);
      OwnedFromInv(w, y1);
      LogsGrow(w, y1, steps[1..], i);
      LogPrefix(y1.servers[i].log, Run(w, y, steps).servers[i].log);
      TakesAreNotClosing(y1.servers[i].log);
      TakeTimely(w, y, steps[0], i, d, polled);
      TakeInService(w, y, steps[0], i, d, polled);
      RunInService(w, y1, steps[1..], i, d, PolledBy(w, y, steps[0], i, polled));
    }
  }

  /** The whole way back: in every run in which server i is polled at least every d milliseconds and
      its listens take effect, a socket it holds stays remembered as closing or CLOSED for at most
      5000 + 2d milliseconds after the recorded disconnect. By then the server has given up on the
      connection and listens again. */
  lemma OutOfServiceIsBounded(w: World, ports: seq<uint16>, steps: seq<Step>, i: nat, d: nat)
    requires TimeMoves(w) && PortsPositive(ports) && PortsDistinct(ports) && i < |ports|
    requires 5000 + d < TWO_TO_THE_32
    requires Punctual(w, Boot(ports), steps, i, d, w.time(0))
    requires ListensTake(Run(w, Boot(ports), steps).servers[i].log)
    ensures OutOfServiceIsRecent(w, Run(w, Boot(ports), steps), i, d)
  {
    BootOk(w, ports);
    RunInService(w, Boot(ports), steps, i, d, w.time(0));
  }
}
