/** What a server does that others can see, and the protocol its callbacks must follow. */
module CallbackTrace {
  import opened Types
  import opened SocketStatus
  import opened WriteBufferSpec

  /** The books of one connection object: every byte it accepted, those the client took, and
      the write error. */
  datatype Tally = Tally(taken: seq<Byte>, received: seq<Byte>, error: int)

  function TallyOf(c: Conn): Tally {
    Tally(c.taken, c.received, c.error)
  }

  datatype Event =
    | OnConnect
    | OnCanRead
    | OnDisconnect
      // the listener closed its connection
    | ListenerClose
      // a DISCON command, by the listener's close or the server's; `unread` bytes were waiting
    | Discon(byListener: bool, unread: nat, tally: Tally)
      // a connection object was destroyed, which flushes it
    | Destroyed(tally: Tally)
      // a CLOSE command: the status last read before it, and the status it hit
    | ForcedClose(seen: Status, actual: Status, releasing: bool)
      // the re-read right after a listen saw something other than LISTEN; the final one of a call
      // is the one whose value stays in last_status_
    | Unsettled(status: Status, final: bool)
      // a socket was released while last_status_ was open
    | Abandoned
      // an MCU_DCHECK of server_socket.cpp, by line, was false
    | CheckFailed(line: nat)

  predicate IsCallback(e: Event) {
    e.OnConnect? || e.OnCanRead? || e.OnDisconnect?
  }

  /** Where a server is in (OnConnect OnCanRead* (OnDisconnect or listener close))*.
      Finishing: DISCON was sent for this connection; Over: the listener closed it. */
  datatype Phase = Idle | Live | Finishing | Over | Bad

  function Next(p: Phase, e: Event): Phase {
    match e
    case OnConnect => if p == Idle || p == Over then Live else Bad
    case OnCanRead => if p == Live then Live else Bad
    case OnDisconnect => if p == Live || p == Finishing then Idle else Bad
    case ListenerClose => if p == Live || p == Finishing || p == Over then Over else Bad
    case Discon(_, _, _) => if p == Live then Finishing else Bad
    case _ => p
  }

  function PhaseAfter(log: seq<Event>): Phase
    decreases |log|
  {
    if |log| == 0 then Idle else Next(PhaseAfter(log[..|log| - 1]), log[|log| - 1])
  }

  lemma PhaseAfterStep(log: seq<Event>, e: Event)
    ensures PhaseAfter(log + [e]) == Next(PhaseAfter(log), e)
  {
    assert (log + [e])[..|log|] == log;
  }

  /** No re-read after a listen found a connection already closing. */
  ghost predicate NoneFoundClosing(log: seq<Event>) {
    forall i :: 0 <= i < |log| ==> !(log[i].Unsettled? && StatusIsClosing(log[i].status))
  }

  /** Each re-read after a listen saw a socket still waiting for its peer. */
  ghost predicate ListensTake(log: seq<Event>) {
    forall i :: 0 <= i < |log| && log[i].Unsettled? ==> StatusIsPassive(log[i].status)
  }

  /** Each re-read after a listen saw LISTEN. */
  ghost predicate Settled(log: seq<Event>) {
    forall i :: 0 <= i < |log| ==> !log[i].Unsettled?
  }

  /** The two ways to leave the listener with a wrong idea of its connection: a final re-read that
      already sees one, and a release of one. */
  predicate IsMishap(e: Event) {
    (e.Unsettled? && e.final && StatusIsOpen(e.status)) || e.Abandoned?
  }

  ghost predicate NoMishap(log: seq<Event>) {
    forall i :: 0 <= i < |log| ==> !IsMishap(log[i])
  }

  /** What a callback leaves in the history, from its announcement to the end of its connection. */
  predicate IsSpoken(e: Event) {
    IsCallback(e) || e.ListenerClose? || e.Discon? || e.Destroyed?
  }

  ghost predicate OnlySpoken(a: seq<Event>, b: seq<Event>) {
    a <= b && forall i :: |a| <= i < |b| ==> IsSpoken(b[i])
  }

  /** A CLOSE command that hit a connection, or one about to be established. */
  predicate CutsOff(e: Event) {
    e.ForcedClose? && StatusIsLive(e.actual)
  }

  ghost predicate NoneCutOff(log: seq<Event>) {
    forall i :: 0 <= i < |log| ==> !CutsOff(log[i])
  }

  ghost predicate NoneFailed(log: seq<Event>) {
    forall i :: 0 <= i < |log| ==> !log[i].CheckFailed?
  }

  /** What one event promises by itself. */
  ghost predicate EventOk(e: Event) {
    match e
    case Discon(byListener, unread, tally) => HandedOver(tally) && (!byListener ==> unread == 0)
    case Destroyed(tally) => HandedOver(tally)
    case ForcedClose(seen, actual, releasing) =>
      && !StatusIsLive(seen) && (StatusIsLive(actual) ==> releasing || seen == SYNSENT)
      && (if releasing then !StatusIsClosing(seen) && seen != INIT && seen != SYNSENT else !StatusIsPassive(seen))
    case _ => true
  }

  /** What it promises beyond that once listens take effect: every check of server_socket.cpp holds,
      and only a release can hit a live connection. */
  predicate EventExpected(e: Event) {
    match e
    case ForcedClose(_, actual, releasing) => StatusIsLive(actual) ==> releasing
    case CheckFailed(_) => false
    case _ => true
  }

  /** Every accepted byte was handed to the client unless a write failed, and then the first ones were. */
  ghost predicate HandedOver(t: Tally) {
    t.received <= t.taken && (t.error == 0 ==> t.received == t.taken)
  }

  ghost predicate EventsOk(log: seq<Event>) {
    forall i :: 0 <= i < |log| ==> EventOk(log[i])
  }

  ghost predicate EventsExpected(log: seq<Event>) {
    forall i :: 0 <= i < |log| ==> EventExpected(log[i])
  }

  // The protocol again, without the automaton.

  predicate Ends(e: Event) {
    e.OnDisconnect? || e.ListenerClose?
  }

  /** Position s opens a connection that is still unfinished at position i. */
  ghost predicate OpenSince(log: seq<Event>, s: int, i: int)
    requires i <= |log|
  {
    0 <= s < i && log[s].OnConnect? && forall k :: s < k < i ==> !log[k].OnConnect? && !Ends(log[k])
  }

  /** No DISCON after position s and before position i. */
  ghost predicate NoDisconSince(log: seq<Event>, s: int, i: int)
    requires i <= |log|
  {
    forall k :: 0 <= k && s < k < i ==> !log[k].Discon?
  }

  /** A listener that closes twice: nothing has started since its first close. */
  ghost predicate ClosedSince(log: seq<Event>, s: int, i: int)
    requires i <= |log|
  {
    && 0 <= s < i && log[s].ListenerClose?
    && forall k :: s < k < i ==> !IsCallback(log[k]) && !Ends(log[k]) && !log[k].Discon?
  }

  /** Position i fits what came before it:
      - OnConnect comes only when every earlier connection has ended;
      - OnCanRead, OnDisconnect and DISCON come only inside a connection, DISCON at most once and
        no OnCanRead after it;
      - a listener's close ends a connection, or repeats a close in the same callback. */
  ghost predicate Fits(log: seq<Event>, i: int)
    requires 0 <= i < |log|
  {
    && (log[i].OnConnect? ==> forall s :: !OpenSince(log, s, i))
    && (log[i].OnCanRead? || log[i].Discon? ==>
          exists s :: OpenSince(log, s, i) && NoDisconSince(log, s, i))
    && (log[i].OnDisconnect? ==> exists s :: OpenSince(log, s, i))
    && (log[i].ListenerClose? ==> exists s :: OpenSince(log, s, i) || ClosedSince(log, s, i))
  }

  ghost predicate Protocol(log: seq<Event>) {
    forall i :: 0 <= i < |log| ==> Fits(log, i)
  }

  /** How an open connection, or a listener's close, at position s survives one more event. */
  lemma SinceStep(log: seq<Event>, s: int)
    requires |log| > 0
    ensures var n := |log| - 1;
            && (OpenSince(log, s, n + 1) <==>
                  (s == n && log[n].OnConnect?)
                  || (OpenSince(log[..n], s, n) && !log[n].OnConnect? && !Ends(log[n])))
            && (ClosedSince(log, s, n + 1) <==>
                  (s == n && log[n].ListenerClose?)
                  || (ClosedSince(log[..n], s, n) && !IsCallback(log[n]) && !Ends(log[n]) && !log[n].Discon?))
  {
    var n := |log| - 1;
    var init := log[..n];
    SinceIsLocal(init, log, n);
    assert OpenSince(log, s, n + 1) ==> s == n || OpenSince(log, s, n);
    assert ClosedSince(log, s, n + 1) ==> s == n || ClosedSince(log, s, n);
  }

  lemma SinceIsLocal(init: seq<Event>, log: seq<Event>, i: int)
    requires init <= log && i <= |init|
    ensures forall s :: OpenSince(init, s, i) <==> OpenSince(log, s, i)
    ensures forall s :: ClosedSince(init, s, i) <==> ClosedSince(log, s, i)
    ensures forall s :: NoDisconSince(init, s, i) <==> NoDisconSince(log, s, i)
  {
    assert forall k :: 0 <= k < i ==> log[k] == init[k];
    forall s ensures NoDisconSince(init, s, i) <==> NoDisconSince(log, s, i) {
      if !NoDisconSince(init, s, i) {
        var d :| 0 <= d && s < d < i && init[d].Discon?;
        assert log[d].Discon?;
      }
    }
  }

  lemma FitsIsLocal(init: seq<Event>, log: seq<Event>, i: int)
    requires init <= log && 0 <= i < |init|
    ensures Fits(init, i) <==> Fits(log, i)
  {
    SinceIsLocal(init, log, i);
  }

  /** What each phase says about the log that led to it. */
  ghost predicate Means(log: seq<Event>, p: Phase) {
    var n := |log|;
    match p
    case Idle => forall s :: !OpenSince(log, s, n) && !ClosedSince(log, s, n)
    case Live => (exists s :: OpenSince(log, s, n) && NoDisconSince(log, s, n)) && forall s :: !ClosedSince(log, s, n)
    case Finishing =>
      (exists s :: OpenSince(log, s, n) && !NoDisconSince(log, s, n)) && forall s :: !ClosedSince(log, s, n)
    case Over => (exists s :: ClosedSince(log, s, n)) && forall s :: !OpenSince(log, s, n)
    case Bad => true
  }

  lemma OpenSinceIsUnique(log: seq<Event>, s: int, t: int, i: int)
    requires i <= |log| && OpenSince(log, s, i) && OpenSince(log, t, i)
    ensures s == t
  {
  }

  lemma {:induction false} PhaseMeaning(log: seq<Event>)
    requires PhaseAfter(log) != Bad
    ensures Means(log, PhaseAfter(log))
    decreases |log|
  {
    if |log| > 0 {
      PhaseMeaning(log[..|log| - 1]);
      MeaningStep(log);
    }
  }

  lemma MeaningStep(log: seq<Event>)
    requires |log| > 0 && PhaseAfter(log) != Bad
    requires Means(log[..|log| - 1], PhaseAfter(log[..|log| - 1]))
    ensures Means(log, PhaseAfter(log))
  {
    var e := log[|log| - 1];
    if e.OnConnect? || Ends(e) {
      MeaningAtBoundary(log);
    } else if PhaseAfter(log[..|log| - 1]).Live? || PhaseAfter(log[..|log| - 1]).Finishing? {
      MeaningInside(log);
    } else {
      MeaningOutside(log);
    }
  }

  lemma MeaningAtBoundary(log: seq<Event>)
    requires |log| > 0 && PhaseAfter(log) != Bad && (log[|log| - 1].OnConnect? || Ends(log[|log| - 1]))
    ensures Means(log, PhaseAfter(log))
  {
    var n := |log| - 1;
    if log[n].OnConnect? {
      assert OpenSince(log, n, n + 1) && NoDisconSince(log, n, n + 1);
    } else if log[n].ListenerClose? {
      assert ClosedSince(log, n, n + 1);
    }
  }

  lemma MeaningInside(log: seq<Event>)
    requires |log| > 0 && PhaseAfter(log) != Bad && !log[|log| - 1].OnConnect? && !Ends(log[|log| - 1])
    requires PhaseAfter(log[..|log| - 1]) in {Live, Finishing}
    requires Means(log[..|log| - 1], PhaseAfter(log[..|log| - 1]))
    ensures Means(log, PhaseAfter(log))
  {
    var n := |log| - 1;
    var init, e := log[..n], log[n];
    var s :| OpenSince(init, s, n) && (PhaseAfter(init) == Live <==> NoDisconSince(init, s, n));
    SinceStep(log, s);
    SinceIsLocal(init, log, n);
    assert NoDisconSince(log, s, n + 1) <==> NoDisconSince(log, s, n) && !e.Discon?;
    forall t ensures !ClosedSince(log, t, |log|) {
      SinceStep(log, t);
    }
  }

  lemma MeaningOutside(log: seq<Event>)
    requires |log| > 0 && PhaseAfter(log) != Bad && !log[|log| - 1].OnConnect? && !Ends(log[|log| - 1])
    requires PhaseAfter(log[..|log| - 1]) in {Idle, Over}
    requires Means(log[..|log| - 1], PhaseAfter(log[..|log| - 1]))
    ensures Means(log, PhaseAfter(log))
  {
    var n := |log| - 1;
    var init := log[..n];
    forall t ensures !OpenSince(log, t, |log|) {
      SinceStep(log, t);
    }
    if PhaseAfter(init) == Over {
      var s :| ClosedSince(init, s, n);
      SinceStep(log, s);
    } else {
      forall t ensures !ClosedSince(log, t, |log|) {
        SinceStep(log, t);
      }
    }
  }

  /** The phase decides whether the last event fits. */
  lemma LastFits(log: seq<Event>)
    requires |log| > 0 && PhaseAfter(log[..|log| - 1]) != Bad
    ensures Fits(log, |log| - 1) <==> PhaseAfter(log) != Bad
  {
    var n := |log| - 1;
    var init := log[..n];
    PhaseMeaning(init);
    SinceIsLocal(init, log, n);
    if PhaseAfter(init) in {Live, Finishing} {
      LastFitsInside(log);
    } else {
      LastFitsOutside(log);
    }
  }

  lemma LastFitsInside(log: seq<Event>)
    requires |log| > 0 && PhaseAfter(log[..|log| - 1]) in {Live, Finishing}
    requires Means(log[..|log| - 1], PhaseAfter(log[..|log| - 1]))
    ensures Fits(log, |log| - 1) <==> PhaseAfter(log) != Bad
  {
    var n := |log| - 1;
    var init := log[..n];
    var s :| OpenSince(init, s, n) && (PhaseAfter(init) == Live <==> NoDisconSince(init, s, n));
    SinceIsLocal(init, log, n);
    assert OpenSince(log, s, n);
    assert PhaseAfter(init) == Live <==> NoDisconSince(log, s, n);
    LastFitsOpen(log, s);
  }

  lemma LastFitsOpen(log: seq<Event>, s: int)
    requires |log| > 0 && PhaseAfter(log[..|log| - 1]) in {Live, Finishing}
    requires OpenSince(log, s, |log| - 1)
    requires PhaseAfter(log[..|log| - 1]) == Live <==> NoDisconSince(log, s, |log| - 1)
    ensures Fits(log, |log| - 1) <==> PhaseAfter(log) != Bad
  {
    var n := |log| - 1;
    forall t | OpenSince(log, t, n) ensures t == s {
      OpenSinceIsUnique(log, s, t, n);
    }
  }

  lemma LastFitsOutside(log: seq<Event>)
    requires |log| > 0 && PhaseAfter(log[..|log| - 1]) in {Idle, Over}
    requires Means(log[..|log| - 1], PhaseAfter(log[..|log| - 1]))
    ensures Fits(log, |log| - 1) <==> PhaseAfter(log) != Bad
  {
    SinceIsLocal(log[..|log| - 1], log, |log| - 1);
  }

  /** The automaton accepts exactly the logs that keep the protocol. */
  lemma {:induction false} PhasesAreTheProtocol(log: seq<Event>)
    ensures PhaseAfter(log) != Bad <==> Protocol(log)
    decreases |log|
  {
    if |log| > 0 {
      var n := |log| - 1;
      var init := log[..n];
      PhasesAreTheProtocol(init);
      forall i | 0 <= i < n ensures Fits(init, i) <==> Fits(log, i) {
        FitsIsLocal(init, log, i);
      }
      if PhaseAfter(init) != Bad {
        LastFits(log);
      } else {
        var i :| 0 <= i < n && !Fits(init, i);
        assert !Fits(log, i);
      }
    }
  }
}
