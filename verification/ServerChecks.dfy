/** Exactly when a check of server_socket.cpp on the status fails, in any state and any world. */
module ServerChecks {
  import opened Types
  import opened SocketStatus
  import opened W5500
  import opened CallbackTrace
  import opened PlatformNetwork
  import opened ConnectionSpec
  import opened ServerSocketSpec
  import opened ServerFrames
  import opened ServerProtocol
  import opened ServerSystem

  /** The changes from one remembered status to the next one read that the server is prepared for: an
      open connection may become anything but established again; any other status may become CLOSED or
      a value outside the data sheet; a listener may see a peer; and a closing connection goes on. */
  predicate Expected(past: Status, status: Status) {
    if StatusIsOpen(past) then !(past == CLOSE_WAIT && status == ESTABLISHED)
    else if status == CLOSED || !StatusIsDocumented(status) then true
    else if past == LISTEN then status in {LISTEN, SYNRECV, ESTABLISHED, CLOSE_WAIT}
    else StatusIsClosing(past) && StatusIsClosing(status)
  }

  predicate FailsCheckAt(w: World, s: St, op: Op)
    requires s.Valid()
  {
    op == Perform && s.HasSocket() && !Expected(s.last, Poll(w, s).Reg())
  }

  lemma SayFails(l: Link, e: Event)
    ensures NoneFailed(Say(l, e).log) <==> NoneFailed(l.log) && !e.CheckFailed?
  {
    var log := Say(l, e).log;
    assert log[|l.log|] == e;
    assert forall i :: 0 <= i < |l.log| ==> log[i] == l.log[i];
  }

  /** The check after a CLOSE never fails. */
  lemma CloseFailsNothing(w: World, s: St, releasing: bool)
    requires s.Valid() && s.HasSocket()
    ensures NoneFailed(CloseHardwareSocket(w, s, releasing).link.log) <==> NoneFailed(s.link.log)
  {
    CloseHardwareEffect(w, s, releasing);
    SayFails(s.link, HitBy(w, s, releasing));
  }

  lemma NoteFailsNothing(s: St, final: bool, last: Status)
    ensures NoneFailed(NoteUnsettled(s, final).link.log) <==> NoneFailed(s.link.log)
    ensures NoneFailed(NoteAbandoned(s, last).link.log) <==> NoneFailed(s.link.log)
  {
    SayFails(s.link, Unsettled(s.last, final));
    SayFails(s.link, Abandoned);
  }

  lemma ListenFailsNothing(w: World, s: St, final: bool)
    requires s.Valid() && s.HasSocket() && s.Reg() == CLOSED
    ensures NoneFailed(BeginListening(w, s, final).0.link.log) <==> NoneFailed(s.link.log)
  {
    if s.port > 0 {
      BeginsByListening(w, s, final);
      CloseFailsNothing(w, Poll(w, Poll(w, s)), false);
      NoteFailsNothing(PollLast(w, Listen(w, Poll(w, Poll(w, s))).0), final, CLOSED);
    }
  }

  lemma PickFailsNothing(w: World, s: St)
    requires s.Valid()
    ensures NoneFailed(PickClosedSocket(w, s).0.link.log) <==> NoneFailed(s.link.log)
  {
    if !s.HasSocket() {
      var (n1, found) := FindUnused(w, s.link.net, 0);
      if found.Some? {
        var s1 := s.(last := CLOSED, link := s.link.(net := n1), sock := found.value);
        ListenFailsNothing(w, s1, false);
        NoteFailsNothing(PollLast(w, BeginListening(w, s1, false).0), true, CLOSED);
      }
    }
  }

  lemma ReleaseFailsNothing(w: World, s: St)
    requires s.Valid()
    ensures NoneFailed(ReleaseSocket(w, s).0.link.log) <==> NoneFailed(s.link.log)
  {
    if s.HasSocket() {
      CloseFailsNothing(w, Poll(w, s), true);
      NoteFailsNothing(CloseHardwareSocket(w, Poll(w, s), true), false, s.last);
    }
  }

  lemma CheckFailsExactly(s: St, ok: bool, line: nat)
    ensures NoneFailed(Check(s, ok, line).link.log) <==> NoneFailed(s.link.log) && ok
  {
    SayFails(s.link, CheckFailed(line));
  }

  lemma QuietFailsExactly(w: World, s: St, past: Status)
    requires s.Valid() && s.HasSocket() && s.last != CLOSED && !StatusIsOpen(s.last) && !StatusIsOpen(past)
    ensures NoneFailed(HandleStatus(w, s, past).link.log) <==> NoneFailed(s.link.log) && Expected(past, s.last)
  {
    QuietOutcomes(w, s, past);
    CheckFailsExactly(s, QuietCheck(s.last, past), QuietLine(s.last));
    CloseFailsNothing(w, Check(s, QuietCheck(s.last, past), QuietLine(s.last)), false);
  }

  lemma PerformFailsExactly(w: World, s: St)
    requires s.Valid() && s.HasSocket()
    ensures NoneFailed(PerformIO(w, s).link.log) <==> NoneFailed(s.link.log) && !FailsCheckAt(w, s, Perform)
  {
    var s1 := PollLast(w, s);
    if StatusIsOpen(s1.last) {
      var s2 := Check(s1, OpenCheck(s1.last, s.last), OpenLine(s1.last, s.last));
      OpenStatusSpeaks(w, s1, s.last);
      CheckFailsExactly(s1, OpenCheck(s1.last, s.last), OpenLine(s1.last, s.last));
      SpokenIsHarmless(s2.link.log, PerformIO(w, s).link.log);
    } else if StatusIsOpen(s.last) {
      SayFails(s1.link, OnDisconnect);
    } else if s1.last == CLOSED {
      ListenFailsNothing(w, s1, true);
    } else {
      QuietFailsExactly(w, s1, s.last);
    }
  }

  /** A call fails a check exactly if it is a poll that reads an unexpected status. */
  lemma CheckExact(w: World, s: St, op: Op)
    requires s.Valid()
    ensures NoneFailed(Do(w, s, op).link.log) <==> NoneFailed(s.link.log) && !FailsCheckAt(w, s, op)
  {
    match op
    case Pick => PickFailsNothing(w, s);
    case Perform => if s.HasSocket() { PerformFailsExactly(w, s); }
    case Release => ReleaseFailsNothing(w, s);
    case Lost => SayFails(s.link, OnDisconnect);
  }

  ghost predicate NeverFailsCheck(w: World, y: System, steps: seq<Step>, i: nat)
    requires ValidSystem(y) && i < |y.servers|
    decreases |steps|
  {
    |steps| > 0 ==>
      && (steps[0].i == i ==> !FailsCheckAt(w, View(y, i), steps[0].op))
      && NeverFailsCheck(w, Take(w, y, steps[0]), steps[1..], i)
  }

  lemma {:induction false} RunFailsExactly(w: World, y: System, steps: seq<Step>, i: nat)
    requires ValidSystem(y) && i < |y.servers|
    ensures NoneFailed(Run(w, y, steps).servers[i].log)
            <==> NoneFailed(y.servers[i].log) && NeverFailsCheck(w, y, steps, i)
    decreases |steps|
  {
    if |steps| > 0 {
      var y1 := Take(w, y, steps[0]);
      if steps[0].i == i {
        CheckExact(w, View(y, i), steps[0].op);
        assert View(y1, i) == Do(w, View(y, i), steps[0].op);
      } else {
        assert y1.servers[i] == y.servers[i];
      }
      RunFailsExactly(w, y1, steps[1..], i);
    }
  }

  /** In every run, of servers with any ports, in any world: no check of server i has failed exactly if
      none of its polls read an unexpected status. */
  lemma ChecksAreExact(w: World, ports: seq<uint16>, steps: seq<Step>, i: nat)
    requires i < |ports|
    ensures NoneFailed(Run(w, Boot(ports), steps).servers[i].log) <==> NeverFailsCheck(w, Boot(ports), steps, i)
  {
    RunFailsExactly(w, Boot(ports), steps, i);
  }
}
