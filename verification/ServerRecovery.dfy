/** How a server gets a socket back to LISTEN from states it should never be in, or be stuck in. */
module ServerRecovery {
  import opened Types
  import opened SocketStatus
  import opened W5500
  import opened ConnectionSpec
  import opened ServerSocketSpec
  import opened ServerFrames
  import opened ServerProtocol
  import opened ServerTiming

  /** For now the chip makes no move of its own, and listens succeed. */
  ghost predicate ChipHolds(w: World) {
    && (forall t: nat, k: nat, s: Sock :: Moved(s, w.move(t, k)).status == s.status)
    && (forall t: nat :: w.listens(t) == LISTEN)
  }

  predicate IsStray(status: Status) {
    status == CLOSED || status == INIT || StatusIsForeign(status)
  }

  /** How many polls a server is from listening, from what the register shows and what it remembers. */
  function Rank(reg: Status, last: Status): nat {
    if reg == LISTEN then 0
    else if reg == CLOSED then (if StatusIsOpen(last) then 2 else 1)
    else if reg == INIT then (if last == INIT then 2 else 3)
    else if StatusIsOpen(last) then 3 else 2
  }

  function Polls(w: World, s: St, n: nat): (r: St)
    requires s.Valid()
    ensures r.Valid() && r.sock == s.sock
    decreases n
  {
    if n == 0 then s else Polls(w, PerformIO(w, s), n - 1)
  }

  /** The n-th poll, and none before it, finds the server listening. */
  ghost predicate ListensAfter(w: World, s: St, n: nat)
    requires s.Valid() && s.HasSocket()
  {
    && Polls(w, s, n).Reg() == LISTEN && Polls(w, s, n).last == LISTEN
    && forall m :: 0 <= m < n ==> Polls(w, s, m).Reg() != LISTEN
  }

  lemma OnePollMore(w: World, s: St, n: nat)
    requires s.Valid() && s.HasSocket() && s.Reg() != LISTEN && n > 0
    requires ListensAfter(w, PerformIO(w, s), n - 1)
    ensures ListensAfter(w, s, n)
  {
    forall m | 0 <= m < n ensures Polls(w, s, m).Reg() != LISTEN {
      if m > 0 {
        assert Polls(w, s, m) == Polls(w, PerformIO(w, s), m - 1);
      }
    }
  }

  lemma RelistenWorks(w: World, s: St)
    requires ChipHolds(w) && s.Valid() && s.HasSocket() && s.port > 0 && Affinity(s) && s.Reg() == CLOSED
    ensures var r := BeginListening(w, s, true).0;
            r.last == LISTEN && r.Reg() == LISTEN && Affinity(r) && r.port == s.port
  {
    var s2 := Poll(w, Poll(w, s));
    assert s2.Reg() == CLOSED;
    var s3 := CloseHardwareSocket(w, s2, false);
    assert s3.Reg() == CLOSED && Affinity(s3);
  }

  lemma CloseStray(w: World, s: St)
    requires ChipHolds(w) && s.Valid() && s.HasSocket() && Affinity(s)
    ensures var r := CloseHardwareSocket(w, s, false);
            r.last == CLOSED && r.Reg() == CLOSED && Affinity(r) && r.port == s.port
  {
  }

  /** Each poll takes exactly one step down the ranking. */
  lemma PollDescends(w: World, s: St)
    requires ChipHolds(w) && s.Valid() && s.HasSocket() && s.port > 0 && Affinity(s) && IsStray(s.Reg())
    ensures var r := PerformIO(w, s);
            && r.port == s.port && Affinity(r)
            && (IsStray(r.Reg()) || (r.Reg() == LISTEN && r.last == LISTEN))
            && Rank(r.Reg(), r.last) == Rank(s.Reg(), s.last) - 1
  {
    var s1 := PollLast(w, s);
    assert s1.last == s.Reg() && Affinity(s1);
    if !StatusIsOpen(s.last) {
      if s1.last == CLOSED {
        RelistenWorks(w, s1);
      } else if s1.last == INIT {
        CloseStray(w, Check(s1, false, 241));
      } else {
        CloseStray(w, Check(s1, false, 262));
      }
    }
  }

  /** From any state of a server that holds a socket used for its port, with the chip holding
      CLOSED, INIT or the status of some other kind of socket, `Rank` many polls bring the socket to
      LISTEN: never more than three, and never fewer than that. */
  lemma Recovers(w: World, s: St)
    requires ChipHolds(w) && s.Valid() && s.HasSocket() && s.port > 0 && Affinity(s) && IsStray(s.Reg())
    ensures 1 <= Rank(s.Reg(), s.last) <= 3 && ListensAfter(w, s, Rank(s.Reg(), s.last))
  {
    RecoversIn(w, s, Rank(s.Reg(), s.last));
  }

  lemma {:induction false} RecoversIn(w: World, s: St, n: nat)
    requires ChipHolds(w) && s.Valid() && s.HasSocket() && s.port > 0 && Affinity(s) && IsStray(s.Reg())
    requires n == Rank(s.Reg(), s.last)
    ensures ListensAfter(w, s, n)
    decreases n
  {
    PollDescends(w, s);
    if n > 1 {
      RecoversIn(w, PerformIO(w, s), n - 1);
    }
    OnePollMore(w, s, n);
  }

  // A connection stuck in a closing state.

  /** A poll that reads the status at tick t gives up on a connection disconnected at `since`. */
  ghost predicate GivesUpAt(w: World, since: nat, t: nat) {
    (w.time(t) - since) % TWO_TO_THE_32 > 5000
  }

  /** The first tick after t at which a poll would. */
  ghost predicate FirstGivesUpAt(w: World, since: nat, t: nat, late: nat) {
    && t < late && GivesUpAt(w, since, late)
    && forall u: nat :: t < u < late ==> !GivesUpAt(w, since, u)
  }

  lemma NextGivesUp(w: World, since: nat, t: nat, late: nat)
    requires FirstGivesUpAt(w, since, t, late)
    ensures if late == t + 1 then GivesUpAt(w, since, t + 1)
            else !GivesUpAt(w, since, t + 1) && FirstGivesUpAt(w, since, t + 1, late)
  {
  }

  /** Before the difference can wrap. */
  lemma GivesUpAfterLimit(w: World, since: nat, t: nat)
    requires since <= w.time(t) < since + TWO_TO_THE_32
    ensures GivesUpAt(w, since, t) <==> w.time(t) > since + 5000
  {
  }

  ghost predicate Stuck(w: World, s: St) {
    && TimeMoves(w) && ChipHolds(w) && Inv(w, s) && s.HasSocket()
    && StatusIsClosing(s.Reg()) && s.link.disc.disconnected
  }

  /** One poll of it: left as it is, or closed, which leaves one poll to go. */
  lemma StuckStep(w: World, s: St, r: St)
    requires Stuck(w, s) && r == PerformIO(w, s)
    ensures if GivesUpAt(w, s.link.disc.since, s.link.net.tick + 1) then ListensAfter(w, r, 1)
            else Stuck(w, r) && r.link.disc == s.link.disc && r.link.net.tick == s.link.net.tick + 1
  {
    assert Poll(w, s).Reg() == s.Reg();
    TimeoutExact(w, s);
    DoOk(w, s, Perform);
    if GivesUpAt(w, s.link.disc.since, s.link.net.tick + 1) {
      RecoversIn(w, r, 1);
    }
  }

  /** A poll of a stuck connection takes one tick, so the wait can be told in polls: if tick `late` is
      the first past the limit, the polls before it wait, the one at it gives up and the next one
      listens. */
  lemma {:induction false} StuckRecoversExactly(w: World, s: St, late: nat)
    requires Stuck(w, s) && FirstGivesUpAt(w, s.link.disc.since, s.link.net.tick, late)
    ensures ListensAfter(w, s, late - s.link.net.tick + 1)
    decreases late - s.link.net.tick
  {
    var r := PerformIO(w, s);
    StuckStep(w, s, r);
    NextGivesUp(w, s.link.disc.since, s.link.net.tick, late);
    if late > s.link.net.tick + 1 {
      StuckRecoversExactly(w, r, late);
    }
    OnePollMore(w, s, late - s.link.net.tick + 1);
  }

  /** From tick t to the next, at least g and at most d milliseconds pass. */
  ghost predicate Paced(w: World, t: nat, g: nat, d: nat) {
    w.time(t) + g <= w.time(t + 1) <= w.time(t) + d
  }

  lemma GiveUpComes(w: World, since: nat, t: nat, g: nat, d: nat) returns (late: nat)
    requires 0 < g && 5000 + 2 * d < TWO_TO_THE_32
    requires forall u: nat :: t <= u ==> Paced(w, u, g, d)
    requires since <= w.time(t) <= since + 5000 + d
    ensures FirstGivesUpAt(w, since, t, late) && (late - t - 1) * g <= 5000
  {
    assert Paced(w, t, g, d);
    late := t + 1;
    GivesUpAfterLimit(w, since, late);
    ghost var least := g;
    while w.time(late) <= since + 5000
      invariant t < late && least == (late - t) * g && least - g <= 5000
      invariant since + least <= w.time(late) <= since + 5000 + 2 * d
      invariant GivesUpAt(w, since, late) <==> w.time(late) > since + 5000
      invariant forall u: nat :: t < u < late ==> !GivesUpAt(w, since, u)
      decreases since + 5000 - w.time(late)
    {
      assert Paced(w, late, g, d);
      OneMore(late - t, g);
      least := least + g;
      late := late + 1;
      GivesUpAfterLimit(w, since, late);
    }
    OneMore(late - t - 1, g);
  }

  lemma OneMore(n: nat, g: nat)
    ensures (n + 1) * g == n * g + g
  {
  }

  /** A connection stuck in a closing state, with the chip holding it there and listens working,
      polled with at least g and at most d milliseconds in between and no more than 5000 + d
      milliseconds after its disconnect (as ClosingIsBounded promises), is back at LISTEN after
      exactly some n polls, of which all but two fit into 5000 ms. */
  lemma StuckRecovers(w: World, s: St, g: nat, d: nat) returns (n: nat)
    requires Stuck(w, s) && 0 < g && 5000 + 2 * d < TWO_TO_THE_32
    requires forall u: nat :: s.link.net.tick <= u ==> Paced(w, u, g, d)
    requires w.time(s.link.net.tick) <= s.link.disc.since + 5000 + d
    ensures n >= 2 && (n - 2) * g <= 5000
    ensures ListensAfter(w, s, n)
  {
    assert DiscOk(w, s.link);
    var late := GiveUpComes(w, s.link.disc.since, s.link.net.tick, g, d);
    StuckRecoversExactly(w, s, late);
    n := late - s.link.net.tick + 1;
  }
}
