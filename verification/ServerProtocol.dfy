/** The invariant of a server, kept by every public call. It has three parts with different
    assumptions: what always holds; that no check fails, as long as listens settle; and that status,
    disconnect record and callbacks agree, as long as there is no mishap. */
module ServerProtocol {
  import opened Types
  import opened SocketStatus
  import opened WriteBufferSpec
  import opened W5500
  import opened DisconnectRecord
  import opened CallbackTrace
  import opened PlatformNetwork
  import opened ConnectionSpec
  import opened ServerSocketSpec
  import opened ServerFrames

  /** What the history promises: more once listens settle. */
  ghost predicate LogOk(log: seq<Event>, settled: bool) {
    EventsOk(log) && (settled ==> EventsExpected(log))
  }

  ghost predicate PromisesKept(a: seq<Event>, b: seq<Event>) {
    (EventsOk(a) ==> EventsOk(b)) && (EventsExpected(a) ==> EventsExpected(b))
  }

  /** Values of last_status_ between calls, once listens settle. */
  predicate StatusIsRemembered(last: Status) {
    last == CLOSED || last == LISTEN || StatusIsOpen(last) || StatusIsClosing(last)
  }

  /** Three views of one fact: the listener has an unfinished connection exactly when
      last_status_ is open, and exactly when the record is not marked disconnected. */
  ghost predicate Agreement(s: St) {
    && (PhaseAfter(s.link.log) == Live <==> StatusIsOpen(s.last))
    && (StatusIsOpen(s.last) <==> !s.link.disc.disconnected)
  }

  ghost predicate Agreed(s: St) {
    PhaseAfter(s.link.log) in {Idle, Live, Over} && Agreement(s)
  }

  /** The chip can have got from the remembered status to where it is; nothing is remembered of a
      socket let go. */
  ghost predicate Remembers(s: St)
    requires s.Valid()
  {
    if s.HasSocket() then Reach(s.last, s.Reg()) else s.last == CLOSED
  }

  /** A held socket was last used for this server's port. */
  ghost predicate Affinity(s: St)
    requires s.Valid()
  {
    s.HasSocket() ==> s.link.net.socks[s.sock].serverPort == s.port
  }

  /** The invariant with its two assumptions as parameters. */
  ghost predicate Holds(w: World, s: St, settled: bool, noMishap: bool) {
    && s.Valid() && Remembers(s) && DiscOk(w, s.link) && LogOk(s.link.log, settled)
    && (settled && s.HasSocket() ==> StatusIsRemembered(s.last))
    && (noMishap ==> Agreed(s))
  }

  ghost predicate Inv(w: World, s: St) {
    && s.Valid() && s.port > 0
    && Affinity(s)
    && Holds(w, s, Settled(s.link.log), NoMishap(s.link.log))
  }

  lemma SayOk(l: Link, e: Event)
    ensures var r := Say(l, e);
            && PhaseAfter(r.log) == Next(PhaseAfter(l.log), e)
            && (EventsOk(r.log) <==> EventsOk(l.log) && EventOk(e))
            && (EventsExpected(r.log) <==> EventsExpected(l.log) && EventExpected(e))
            && (Settled(r.log) <==> Settled(l.log) && !e.Unsettled?)
            && (NoMishap(r.log) <==> NoMishap(l.log) && !IsMishap(e))
            && l.log <= r.log
  {
    PhaseAfterStep(l.log, e);
    var r := Say(l, e);
    assert r.log[|l.log|] == e;
    assert forall i :: 0 <= i < |l.log| ==> r.log[i] == l.log[i];
  }

  lemma SayCuts(l: Link, e: Event)
    ensures NoneCutOff(Say(l, e).log) <==> NoneCutOff(l.log) && !CutsOff(e)
  {
    var log := Say(l, e).log;
    assert log[|l.log|] == e;
    assert forall i :: 0 <= i < |l.log| ==> log[i] == l.log[i];
  }

  lemma LogPrefix(a: seq<Event>, b: seq<Event>)
    requires a <= b
    ensures Settled(b) ==> Settled(a)
    ensures NoMishap(b) ==> NoMishap(a)
    ensures NoneFoundClosing(b) ==> NoneFoundClosing(a)
    ensures ListensTake(b) ==> ListensTake(a)
  {
    assert forall i :: 0 <= i < |a| ==> a[i] == b[i];
  }

  /** During a callback for a connection last seen with the open status `last`: either nobody has
      closed it, or the listener has and the chip has left the open states. */
  ghost predicate InCall(w: World, k: nat, last: Status, s: Session, settled: bool, noMishap: bool) {
    && k < |s.link.net.socks|
    && DiscOk(w, s.link) && Conserved(s.conn) && LogOk(s.link.log, settled)
    && (noMishap ==> PhaseAfter(s.link.log) == if s.link.disc.disconnected then Over else Live)
    && var reg := s.link.net.socks[k].status;
       if s.link.disc.disconnected then StatusIsDown(reg) else Reach(last, reg)
  }

  /** Between calls, at the end of a callback: the record is reset exactly while the status is open. */
  ghost predicate RecordMatches(s: St) {
    && (StatusIsOpen(s.last) || StatusIsDown(s.last))
    && (StatusIsOpen(s.last) <==> !s.link.disc.disconnected)
  }

  lemma TallyIsHandedOver(f: ClientFn, c: Conn)
    requires Conserved(c)
    ensures HandedOver(TallyOf(FlushConn(f, c))) && Conserved(FlushConn(f, c))
  {
    FlushConserves(f, c);
  }

  lemma RecordOk(w: World, l: Link, n: Net)
    requires TimeMoves(w) && DiscOk(w, l) && l.net.tick <= n.tick
    ensures DiscOk(w, l.(net := n)) && DiscOk(w, l.(net := n, disc := Record(w, n, l.disc)))
    ensures Record(w, n, l.disc).disconnected
  {
  }

  /** A listener's close, open connection or not, first or repeated. */
  lemma ListenerCloseOk(w: World, k: nat, last: Status, s: Session, f: ClientFn, settled: bool, noMishap: bool)
    requires TimeMoves(w) && StatusIsOpen(last) && InCall(w, k, last, s, settled, noMishap)
    ensures InCall(w, k, last, CloseConn(w, k, s, f, true), settled, noMishap)
  {
    TallyIsHandedOver(f, s.conn);
    CloseConnEffect(w, k, s, f, true);
    ListenerCloseLog(w, k, last, s, SentBy(w, k, s, f, true), CloseConn(w, k, s, f, true), settled, noMishap);
  }

  lemma ListenerCloseLog(w: World, k: nat, last: Status, s: Session, sent: Option<Event>, r: Session,
                         settled: bool, noMishap: bool)
    requires StatusIsOpen(last) && InCall(w, k, last, s, settled, noMishap) && Conserved(r.conn)
    requires CloseEffect(w, k, s, true, sent, r)
    requires sent.Some? ==> sent.value.Discon? && EventOk(sent.value)
    ensures InCall(w, k, last, r, settled, noMishap)
  {
    var before := if sent.Some? then Say(s.link, sent.value) else s.link;
    if sent.Some? {
      SayOk(s.link, sent.value);
    }
    ClosedLogOk(before, settled);
    assert r.link.log == Say(before, ListenerClose).log;
  }

  lemma ClosedLogOk(before: Link, settled: bool)
    requires LogOk(before.log, settled)
    ensures LogOk(Say(before, ListenerClose).log, settled)
    ensures PhaseAfter(Say(before, ListenerClose).log) == Next(PhaseAfter(before.log), ListenerClose)
  {
    SayOk(before, ListenerClose);
  }

  lemma ActOk(w: World, k: nat, last: Status, s: Session, f: ClientFn, a: Action, settled: bool, noMishap: bool)
    requires TimeMoves(w) && StatusIsOpen(last) && InCall(w, k, last, s, settled, noMishap)
    ensures InCall(w, k, last, Act(w, k, s, f, a), settled, noMishap)
  {
    match a
    case Write(data) => PutAllConserves(f, s.conn, data);
    case WriteByte(b) => PutConserves(f, s.conn, b);
    case Flush => FlushConserves(f, s.conn);
    case Read(count) => RecordOk(w, s.link, ReadBytes(w, s.link.net, k, count));
    case Close => ListenerCloseOk(w, k, last, s, f, settled, noMishap);
  }

  lemma {:induction false} RunScriptOk(w: World, k: nat, last: Status, s: Session, f: ClientFn, script: seq<Action>,
                                       settled: bool, noMishap: bool)
    requires TimeMoves(w) && StatusIsOpen(last) && InCall(w, k, last, s, settled, noMishap)
    ensures InCall(w, k, last, RunScript(w, k, s, f, script), settled, noMishap)
    decreases |script|
  {
    if |script| > 0 {
      ActOk(w, k, last, s, f, script[0], settled, noMishap);
      RunScriptOk(w, k, last, Act(w, k, s, f, script[0]), f, script[1..], settled, noMishap);
    }
  }

  /** A callback inside which the listener may do anything with its connection. */
  lemma AnnounceOk(w: World, s: St, conn: Conn, f: ClientFn, e: Event, settled: bool, noMishap: bool)
    requires TimeMoves(w) && s.Valid() && s.HasSocket() && StatusIsOpen(s.last) && Conserved(conn)
    requires DiscOk(w, s.link) && !s.link.disc.disconnected && Reach(s.last, s.Reg())
    requires IsCallback(e) && LogOk(s.link.log, settled)
    requires noMishap ==> Next(PhaseAfter(s.link.log), e) == Live
    ensures Holds(w, Announce(w, s, conn, f, e), settled, noMishap) && RecordMatches(Announce(w, s, conn, f, e))
  {
    SayOk(s.link, e);
    var start := Session(Say(s.link, e), conn);
    RunScriptOk(w, s.sock, s.last, start, f, w.script(s.link.net.tick), settled, noMishap);
    AfterCallbackOk(w, s, Callback(w, s.sock, Session(s.link, conn), f, e), f, settled, noMishap);
  }

  /** What follows the callback: DetectListenerInitiatedDisconnect and the destructor. */
  lemma AfterCallbackOk(w: World, s: St, done: Session, f: ClientFn, settled: bool, noMishap: bool)
    requires TimeMoves(w) && s.Valid() && s.HasSocket() && StatusIsOpen(s.last)
    requires InCall(w, s.sock, s.last, done, settled, noMishap) && ValidNet(done.link.net)
    ensures var s1 := DetectListenerInitiatedDisconnect(w, s.(link := done.link));
            var r := s1.(link := Destroy(Session(s1.link, done.conn), f));
            Holds(w, r, settled, noMishap) && RecordMatches(r)
  {
    DetectOk(w, s, done, settled, noMishap);
    DestroyOk(w, DetectListenerInitiatedDisconnect(w, s.(link := done.link)), done.conn, f, settled, noMishap);
  }

  lemma DetectOk(w: World, s: St, done: Session, settled: bool, noMishap: bool)
    requires TimeMoves(w) && s.Valid() && s.HasSocket() && StatusIsOpen(s.last)
    requires InCall(w, s.sock, s.last, done, settled, noMishap) && ValidNet(done.link.net)
    ensures var r := DetectListenerInitiatedDisconnect(w, s.(link := done.link));
            Holds(w, r, settled, noMishap) && RecordMatches(r)
  {
    RecordOk(w, done.link, PollLast(w, s.(link := done.link)).link.net);
  }

  lemma DestroyOk(w: World, s: St, conn: Conn, f: ClientFn, settled: bool, noMishap: bool)
    requires Holds(w, s, settled, noMishap) && RecordMatches(s) && Conserved(conn)
    ensures var r := s.(link := Destroy(Session(s.link, conn), f));
            Holds(w, r, settled, noMishap) && RecordMatches(r)
  {
    TallyIsHandedOver(f, conn);
    SayOk(s.link, Destroyed(TallyOf(FlushConn(f, conn))));
  }

  /** CLOSE always works: the chip does not leave CLOSED by itself, so the check after it holds. */
  lemma CloseHardwareEffect(w: World, s: St, releasing: bool)
    requires s.Valid() && s.HasSocket()
    ensures var r := CloseHardwareSocket(w, s, releasing);
            && r.link.log == Say(s.link, HitBy(w, s, releasing)).log
            && r.last == CLOSED && r.Reg() == CLOSED && r.link.disc == s.link.disc
            && s.link.net.tick <= r.link.net.tick && r.sock == s.sock && r.port == s.port
    ensures Reach(s.Reg(), HitBy(w, s, releasing).actual)
  {
  }

  function HitBy(w: World, s: St, releasing: bool): (e: Event)
    requires s.Valid() && s.HasSocket()
    ensures e.ForcedClose? && e.seen == s.Reg() && e.releasing == releasing
  {
    ForcedClose(s.Reg(), Access(w, s.link.net, s.sock).socks[s.sock].status, releasing)
  }

  /** CLOSE, which keeps its promise if the socket was not seen live and could not become so. */
  lemma CloseHardwareOk(w: World, s: St, releasing: bool)
    requires TimeMoves(w) && s.Valid() && s.HasSocket() && DiscOk(w, s.link)
    ensures var r := CloseHardwareSocket(w, s, releasing);
            && DiscOk(w, r.link) && r.link.disc == s.link.disc
            && PhaseAfter(r.link.log) == PhaseAfter(s.link.log)
            && (Settled(r.link.log) <==> Settled(s.link.log))
            && (NoMishap(r.link.log) <==> NoMishap(s.link.log))
            && r.last == CLOSED && r.Reg() == CLOSED
            && (EventsOk(s.link.log) && EventOk(ForcedClose(s.Reg(), s.Reg(), releasing)) ==> EventsOk(r.link.log))
            && (EventsExpected(s.link.log) && (releasing || StatusIsDown(s.Reg())) ==> EventsExpected(r.link.log))
  {
    CloseHardwareEffect(w, s, releasing);
    HitKeeps(s.Reg(), HitBy(w, s, releasing));
    SayOk(s.link, HitBy(w, s, releasing));
    RecordOk(w, s.link, CloseHardwareSocket(w, s, releasing).link.net);
  }

  /** What is promised of a CLOSE that hits the status seen is promised of any the chip can get to. */
  lemma HitKeeps(seen: Status, e: Event)
    requires e.ForcedClose? && e.seen == seen && Reach(seen, e.actual)
    ensures EventOk(ForcedClose(seen, seen, e.releasing)) ==> EventOk(e)
    ensures e.releasing || StatusIsDown(seen) ==> EventExpected(e)
  {
  }

  /** From the close of a closed socket to the listen: nothing is said to the listener. */
  lemma ListenOk(w: World, s: St)
    requires TimeMoves(w) && s.Valid() && s.HasSocket() && DiscOk(w, s.link) && s.Reg() == CLOSED
    ensures var (r, ok) := Listen(w, s);
            && DiscOk(w, r.link) && r.link.disc == s.link.disc && r.last == CLOSED
            && PhaseAfter(r.link.log) == PhaseAfter(s.link.log)
            && (Settled(r.link.log) <==> Settled(s.link.log))
            && (NoMishap(r.link.log) <==> NoMishap(s.link.log))
            && PromisesKept(s.link.log, r.link.log)
            && (!ok ==> r.Reg() == CLOSED)
  {
    CloseHardwareOk(w, s, false);
    var s1 := CloseHardwareSocket(w, s, false);
    RecordOk(w, s1.link, Listen(w, s).0.link.net);
  }

  /** One re-read after a listen. */
  lemma RereadOk(w: World, s: St, final: bool)
    requires TimeMoves(w) && s.Valid() && s.HasSocket() && DiscOk(w, s.link)
    ensures var r := NoteUnsettled(PollLast(w, s), final);
            && DiscOk(w, r.link) && r.link.disc == s.link.disc && r.last == r.Reg() == Poll(w, s).Reg()
            && PhaseAfter(r.link.log) == PhaseAfter(s.link.log)
            && (Settled(r.link.log) <==> Settled(s.link.log) && r.last == LISTEN)
            && (NoMishap(r.link.log) <==> NoMishap(s.link.log) && !(final && StatusIsOpen(r.last)))
            && PromisesKept(s.link.log, r.link.log)
  {
    var s1 := PollLast(w, s);
    RecordOk(w, s.link, s1.link.net);
    SayOk(s1.link, Unsettled(s1.last, final));
  }

  /** On a closed socket BeginListening listens, or finds the socket used for another port. */
  lemma BeginsByListening(w: World, s: St, final: bool)
    requires s.Valid() && s.HasSocket() && s.port > 0 && s.Reg() == CLOSED
    ensures var s2 := Poll(w, Poll(w, s));
            var (s3, ok) := Listen(w, s2);
            && s2.Reg() == CLOSED && s2.link.log == s.link.log && s2.link.disc == s.link.disc
            && s.link.net.tick <= s2.link.net.tick
            && BeginListening(w, s, final) == if ok then (NoteUnsettled(PollLast(w, s3), final), true) else (s3, false)
  {
  }

  lemma BeginListeningOk(w: World, s: St, final: bool)
    requires TimeMoves(w) && s.Valid() && s.HasSocket() && s.port > 0
    requires s.Reg() == CLOSED && DiscOk(w, s.link)
    ensures var (r, ok) := BeginListening(w, s, final);
            && DiscOk(w, r.link) && r.link.disc == s.link.disc
            && PhaseAfter(r.link.log) == PhaseAfter(s.link.log)
            && r.last == r.Reg() && (!ok ==> r.last == CLOSED)
            && (Settled(r.link.log) <==> Settled(s.link.log) && (ok ==> r.last == LISTEN))
            && (NoMishap(r.link.log) <==> NoMishap(s.link.log) && !(final && StatusIsOpen(r.last)))
            && PromisesKept(s.link.log, r.link.log)
  {
    BeginsByListening(w, s, final);
    var s2 := Poll(w, Poll(w, s));
    RecordOk(w, s.link, s2.link.net);
    ListenOk(w, s2);
    RereadOk(w, Listen(w, s2).0, final);
  }

  /** Listening on a closed socket: the listener hears nothing, the record stays, and last_status_ is
      the register as just read. */
  ghost predicate Relistened(a: St, b: St, ok: bool) {
    && a.Valid() && b.Valid() && a.HasSocket() && b.sock == a.sock
    && b.link.disc == a.link.disc
    && PhaseAfter(b.link.log) == PhaseAfter(a.link.log) && PromisesKept(a.link.log, b.link.log)
    && b.last == b.Reg() && (!ok ==> b.last == CLOSED)
  }

  /** What BeginListening promises: the exit it takes, that it touches no other socket, that success
      leaves the socket with the server's port, and the silence of listening on a closed socket. */
  ghost predicate Begins(w: World, a: St, b: St, listening: bool) {
    && a.Valid() && b.Valid() && BeginAnswers(w, a, b, listening)
    && (a.HasSocket() ==> HeldFrame(a, b))
    && (a.HasSocket() && listening && a.port > 0 ==> b.link.net.socks[a.sock].serverPort == a.port)
    && (TimeMoves(w) && DiscOk(w, a.link) && a.HasSocket() && a.port > 0 && a.Reg() == CLOSED ==>
          Relistened(a, b, listening))
  }

  lemma BeginListeningBegins(w: World, s: St, final: bool)
    requires s.Valid()
    ensures var (r, listening) := BeginListening(w, s, final); Begins(w, s, r, listening)
  {
    BeginListeningExact(w, s, final);
    if s.HasSocket() {
      BeginListeningFrame(w, s, final);
    }
    if TimeMoves(w) && DiscOk(w, s.link) && s.HasSocket() && s.port > 0 && s.Reg() == CLOSED {
      BeginListeningOk(w, s, final);
    }
  }

  lemma PickOk(w: World, s: St)
    requires TimeMoves(w) && s.Valid() && s.port > 0 && DiscOk(w, s.link) && !s.HasSocket()
    ensures var (r, ok) := PickClosedSocket(w, s);
            && DiscOk(w, r.link) && r.link.disc == s.link.disc
            && PhaseAfter(r.link.log) == PhaseAfter(s.link.log)
            && (if ok then r.HasSocket() && r.last == r.Reg() else !r.HasSocket() && r.last == CLOSED)
            && (Settled(r.link.log) ==> Settled(s.link.log) && (ok ==> r.last == LISTEN))
            && (NoMishap(r.link.log) <==> NoMishap(s.link.log) && !StatusIsOpen(r.last))
            && PromisesKept(s.link.log, r.link.log)
  {
    FindUnusedDrifts(w, s.link.net, 0);
    var (n1, found) := FindUnused(w, s.link.net, 0);
    RecordOk(w, s.link, n1);
    if found.Some? {
      var s1 := s.(last := CLOSED, link := s.link.(net := n1), sock := found.value);
      BeginListeningOk(w, s1, false);
      var (s2, ok) := BeginListening(w, s1, false);
      if ok {
        RereadOk(w, s2, true);
      }
    }
  }

  /** The server's own close of a half-closed connection with nothing left to read. */
  lemma ServerCloseOk(w: World, s: St, conn: Conn, f: ClientFn, settled: bool, noMishap: bool)
    requires TimeMoves(w) && s.Valid() && s.HasSocket() && Conserved(conn)
    requires DiscOk(w, s.link) && !s.link.disc.disconnected
    requires LogOk(s.link.log, settled)
    requires noMishap ==> PhaseAfter(s.link.log) == Live
    requires s.Reg() == CLOSED || (s.Reg() == CLOSE_WAIT && s.link.net.socks[s.sock].unread == 0)
    ensures var done := CloseConn(w, s.sock, Session(s.link, conn), f, false);
            var s2 := PollLast(w, s.(link := done.link));
            var r := s2.(link := Destroy(Session(Say(s2.link, OnDisconnect), done.conn), f));
            Holds(w, r, settled, noMishap) && RecordMatches(r)
  {
    var start := Session(s.link, conn);
    CloseConnEffect(w, s.sock, start, f, false);
    TallyIsHandedOver(f, conn);
    var done := CloseConn(w, s.sock, start, f, false);
    TallyIsHandedOver(f, done.conn);
    ServerCloseLog(w, s, SentBy(w, s.sock, start, f, false), start, done, FlushConn(f, done.conn), settled, noMishap);
  }

  lemma ServerCloseLog(w: World, s: St, sent: Option<Event>, start: Session, done: Session, flushed: Conn,
                       settled: bool, noMishap: bool)
    requires TimeMoves(w) && s.Valid() && s.HasSocket() && start.link == s.link
    requires LogOk(s.link.log, settled)
    requires noMishap ==> PhaseAfter(s.link.log) == Live
    requires StatusIsOpen(s.Reg()) || s.Reg() == CLOSED
    requires CloseEffect(w, s.sock, start, false, sent, done)
    requires sent.Some? ==> sent.value.Discon? && EventOk(sent.value)
    requires HandedOver(TallyOf(flushed))
    ensures var s2 := PollLast(w, s.(link := done.link));
            var r := s2.(link := Say(Say(s2.link, OnDisconnect), Destroyed(TallyOf(flushed))));
            && Holds(w, r, settled, noMishap) && RecordMatches(r)
            && (noMishap ==> PhaseAfter(r.link.log) == Idle)
  {
    if sent.Some? {
      SayOk(s.link, sent.value);
    }
    AfterServerCloseOk(w, s, done, flushed, settled, noMishap);
  }

  lemma AfterServerCloseOk(w: World, s: St, done: Session, flushed: Conn, settled: bool, noMishap: bool)
    requires TimeMoves(w) && s.Valid() && s.HasSocket() && ValidNet(done.link.net)
    requires LogOk(done.link.log, settled)
    requires noMishap ==> PhaseAfter(done.link.log) in {Live, Finishing}
    requires done.link.disc.disconnected && DiscOk(w, done.link)
    requires StatusIsDown(done.link.net.socks[s.sock].status)
    requires HandedOver(TallyOf(flushed))
    ensures var s2 := PollLast(w, s.(link := done.link));
            var r := s2.(link := Say(Say(s2.link, OnDisconnect), Destroyed(TallyOf(flushed))));
            && Holds(w, r, settled, noMishap) && RecordMatches(r)
            && (noMishap ==> PhaseAfter(r.link.log) == Idle)
  {
    var s2 := PollLast(w, s.(link := done.link));
    RecordOk(w, done.link, s2.link.net);
    EndedLogOk(s2.link, TallyOf(flushed), settled);
  }

  lemma EndedLogOk(l: Link, tally: Tally, settled: bool)
    requires LogOk(l.log, settled) && HandedOver(tally)
    ensures var r := Say(Say(l, OnDisconnect), Destroyed(tally));
            LogOk(r.log, settled) && PhaseAfter(r.log) == Next(PhaseAfter(l.log), OnDisconnect)
  {
    SayOk(l, OnDisconnect);
    SayOk(Say(l, OnDisconnect), Destroyed(tally));
  }

  lemma NewConnConserved()
    ensures Conserved(NewConn(WRITE_BUFFER_SIZE))
  {
  }

  /** A server between reading the status in PerformIO and acting on it: last_status_ is the fresh
      value, and record and callbacks still agree with each other and with the status before. */
  ghost predicate StatusJustRead(w: World, s: St, past: Status, settled: bool, noMishap: bool) {
    && s.Valid() && s.HasSocket() && s.port > 0
    && s.last == s.Reg() && Reach(past, s.last) && DiscOk(w, s.link)
    && LogOk(s.link.log, settled)
    && (settled ==> StatusIsRemembered(past))
    && (noMishap ==>
          && PhaseAfter(s.link.log) in {Idle, Live, Over}
          && (PhaseAfter(s.link.log) == Live <==> StatusIsOpen(past))
          && (StatusIsOpen(past) <==> !s.link.disc.disconnected))
  }

  lemma HandleCloseWaitOk(w: World, s: St, past: Status, settled: bool, noMishap: bool)
    requires TimeMoves(w) && StatusJustRead(w, s, past, settled, noMishap)
    requires s.last == CLOSE_WAIT && StatusIsOpen(past)
    ensures Holds(w, HandleCloseWait(w, s), settled, noMishap) && RecordMatches(HandleCloseWait(w, s))
  {
    NewConnConserved();
    var open := OpenSession(s.link);
    var s1 := Poll(w, s.(link := open.link));
    var f := w.client(s.link.net.tick);
    if s1.link.net.socks[s.sock].unread > 0 {
      AnnounceOk(w, s1, open.conn, f, OnCanRead, settled, noMishap);
    } else {
      ServerCloseOk(w, s1, open.conn, f, settled, noMishap);
    }
  }

  /** A half-closed connection, after one more callback: still open and not recorded, or on its way out
      and recorded; a live one ends in agreement. */
  ghost predicate CloseWaitHandled(w: World, a: St, b: St) {
    var live := PhaseAfter(a.link.log) == Live && !a.link.disc.disconnected;
    TimeMoves(w) && StatusJustRead(w, a, CLOSE_WAIT, false, live) && a.last == CLOSE_WAIT ==>
      Holds(w, b, false, live) && RecordMatches(b)
  }

  lemma CloseWaitKeeps(w: World, s: St)
    requires s.Valid() && s.HasSocket()
    ensures CloseWaitHandled(w, s, HandleCloseWait(w, s))
  {
    var live := PhaseAfter(s.link.log) == Live && !s.link.disc.disconnected;
    if TimeMoves(w) && StatusJustRead(w, s, CLOSE_WAIT, false, live) && s.last == CLOSE_WAIT {
      HandleCloseWaitOk(w, s, CLOSE_WAIT, false, live);
    }
  }

  lemma AnnounceNewOk(w: World, s: St, e: Event, settled: bool, noMishap: bool)
    requires TimeMoves(w) && s.Valid() && s.HasSocket() && s.last == s.Reg() && StatusIsOpen(s.last)
    requires IsCallback(e) && LogOk(s.link.log, settled)
    requires noMishap ==> Next(PhaseAfter(s.link.log), e) == Live
    ensures Holds(w, AnnounceNew(w, s, e), settled, noMishap) && RecordMatches(AnnounceNew(w, s, e))
  {
    NewConnConserved();
    var open := OpenSession(s.link);
    AnnounceOk(w, s.(link := open.link), open.conn, w.client(s.link.net.tick), e, settled, noMishap);
  }

  /** A check of the status before this one, which holds if listens settle. */
  lemma CheckOk(s: St, ok: bool, line: nat)
    ensures var r := Check(s, ok, line);
            && PhaseAfter(r.link.log) == PhaseAfter(s.link.log)
            && (Settled(r.link.log) <==> Settled(s.link.log))
            && (NoMishap(r.link.log) <==> NoMishap(s.link.log))
            && (NoneCutOff(r.link.log) <==> NoneCutOff(s.link.log))
            && (EventsOk(s.link.log) ==> EventsOk(r.link.log))
            && (ok ==> r == s)
  {
    SayOk(s.link, CheckFailed(line));
    SayCuts(s.link, CheckFailed(line));
  }

  lemma OpenStatusOk(w: World, s: St, past: Status, settled: bool, noMishap: bool)
    requires TimeMoves(w) && StatusJustRead(w, s, past, settled, noMishap)
    requires StatusIsOpen(s.last) && !(s.last == CLOSE_WAIT && StatusIsOpen(past))
    ensures Holds(w, HandleStatus(w, s, past), settled, noMishap) && RecordMatches(HandleStatus(w, s, past))
  {
    var line := if s.last == CLOSE_WAIT then 213 else if StatusIsOpen(past) then 204 else 200;
    var ok := past == if StatusIsOpen(past) then ESTABLISHED else LISTEN;
    var e := if StatusIsOpen(past) then OnCanRead else OnConnect;
    CheckOk(s, ok, line);
    AnnounceNewOk(w, Check(s, ok, line), e, settled, noMishap);
  }

  lemma CheckHolds(w: World, s: St, past: Status, ok: bool, line: nat, settled: bool, noMishap: bool)
    requires StatusJustRead(w, s, past, settled, noMishap) && (settled ==> ok)
    ensures StatusJustRead(w, Check(s, ok, line), past, settled, noMishap)
  {
    CheckOk(s, ok, line);
  }

  lemma QuietStatusOk(w: World, s: St, past: Status, settled: bool, noMishap: bool)
    requires TimeMoves(w) && StatusJustRead(w, s, past, settled, noMishap)
    requires s.last != CLOSED && !StatusIsOpen(s.last) && !StatusIsOpen(past)
    ensures Holds(w, HandleStatus(w, s, past), settled, noMishap)
  {
    QuietOutcomes(w, s, past);
    if StatusIsDocumented(s.last) {
      var s1 := Check(s, QuietCheck(s.last, past), QuietLine(s.last));
      CheckHolds(w, s, past, QuietCheck(s.last, past), QuietLine(s.last), settled, noMishap);
      if !StatusIsPassive(s.last) {
        CloseQuietOk(w, s1, past, settled, noMishap);
      }
    }
  }

  lemma CloseQuietOk(w: World, s: St, past: Status, settled: bool, noMishap: bool)
    requires TimeMoves(w) && StatusJustRead(w, s, past, settled, noMishap)
    requires !StatusIsPassive(s.last) && !StatusIsOpen(s.last) && !StatusIsOpen(past)
    ensures Holds(w, CloseHardwareSocket(w, s, false), settled, noMishap)
  {
    CloseHardwareOk(w, s, false);
  }

  /** Each branch of the switch. */
  lemma HandleStatusOk(w: World, s: St, past: Status, settled: bool, noMishap: bool)
    requires TimeMoves(w) && StatusJustRead(w, s, past, settled, noMishap)
    requires StatusIsOpen(past) ==> StatusIsOpen(s.last)
    requires settled ==> Settled(HandleStatus(w, s, past).link.log)
    requires noMishap ==> NoMishap(HandleStatus(w, s, past).link.log)
    ensures Holds(w, HandleStatus(w, s, past), settled, noMishap)
  {
    if s.last == CLOSED {
      BeginListeningOk(w, s, true);
    } else if s.last == CLOSE_WAIT && StatusIsOpen(past) {
      HandleCloseWaitOk(w, s, past, settled, noMishap);
    } else if StatusIsOpen(s.last) {
      OpenStatusOk(w, s, past, settled, noMishap);
    } else {
      QuietStatusOk(w, s, past, settled, noMishap);
    }
  }

  lemma PerformOk(w: World, s: St)
    requires TimeMoves(w) && Inv(w, s) && s.HasSocket()
    ensures var r := PerformIO(w, s); Holds(w, r, Settled(r.link.log), NoMishap(r.link.log))
  {
    var r := PerformIO(w, s);
    PerformFrame(w, s);
    LogPrefix(s.link.log, r.link.log);
    if StatusIsOpen(s.last) && !StatusIsOpen(Poll(w, s).Reg()) {
      DroppedOk(w, s);
    } else {
      JustRead(w, s);
      HandleStatusOk(w, PollLast(w, s), s.last, Settled(r.link.log), NoMishap(r.link.log));
    }
  }

  lemma JustRead(w: World, s: St)
    requires TimeMoves(w) && Inv(w, s) && s.HasSocket()
    ensures StatusJustRead(w, PollLast(w, s), s.last, Settled(s.link.log), NoMishap(s.link.log))
  {
    RecordOk(w, s.link, PollLast(w, s).link.net);
  }

  /** A connection that ended without the server's doing. */
  lemma DroppedOk(w: World, s: St)
    requires TimeMoves(w) && Inv(w, s) && s.HasSocket() && StatusIsOpen(s.last) && !StatusIsOpen(Poll(w, s).Reg())
    ensures var r := PerformIO(w, s); Holds(w, r, Settled(r.link.log), NoMishap(r.link.log))
  {
    var s1 := PollLast(w, s);
    RecordOk(w, s.link, s1.link.net);
    SayOk(s1.link, OnDisconnect);
  }

  lemma LostOk(w: World, s: St)
    requires TimeMoves(w) && Inv(w, s)
    ensures var r := SocketLost(w, s); Holds(w, r, Settled(r.link.log), NoMishap(r.link.log))
  {
    SayOk(s.link, OnDisconnect);
    RecordOk(w, s.link, s.link.net);
  }

  /** A release that finds the status in the life of a connection refuses and changes nothing. */
  lemma ReleaseRefused(w: World, s: St)
    requires TimeMoves(w) && Inv(w, s) && s.HasSocket() && StatusIsInTcpConnectionLifecycle(Poll(w, s).Reg())
    ensures ReleaseSocket(w, s) == (Poll(w, s), false)
    ensures Holds(w, Poll(w, s), Settled(s.link.log), NoMishap(s.link.log))
  {
    RecordOk(w, s.link, Poll(w, s).link.net);
  }

  /** A release that lets go of the socket says nothing to the listener, whatever it believes. */
  lemma ReleaseLetsGo(w: World, s: St)
    requires TimeMoves(w) && Inv(w, s) && s.HasSocket() && !StatusIsInTcpConnectionLifecycle(Poll(w, s).Reg())
    ensures var (r, ok) := ReleaseSocket(w, s);
            && ok && !r.HasSocket() && r.last == CLOSED
            && DiscOk(w, r.link) && r.link.disc == s.link.disc
            && PhaseAfter(r.link.log) == PhaseAfter(s.link.log)
            && (Settled(r.link.log) <==> Settled(s.link.log))
            && (NoMishap(r.link.log) <==> NoMishap(s.link.log) && !StatusIsOpen(s.last))
            && PromisesKept(s.link.log, r.link.log)
  {
    var s1 := Poll(w, s);
    RecordOk(w, s.link, s1.link.net);
    CloseHardwareOk(w, s1, true);
    SayOk(CloseHardwareSocket(w, s1, true).link, Abandoned);
  }

  lemma ReleaseOk(w: World, s: St)
    requires TimeMoves(w) && Inv(w, s) && s.HasSocket()
    ensures var r := ReleaseSocket(w, s).0; Holds(w, r, Settled(r.link.log), NoMishap(r.link.log))
  {
    if StatusIsInTcpConnectionLifecycle(Poll(w, s).Reg()) {
      ReleaseRefused(w, s);
    } else {
      ReleaseLetsGo(w, s);
      DroppedHolds(w, s, ReleaseSocket(w, s).0);
    }
  }

  lemma DroppedHolds(w: World, s: St, r: St)
    requires Inv(w, s) && r.Valid() && !r.HasSocket() && r.last == CLOSED
    requires DiscOk(w, r.link) && r.link.disc == s.link.disc && PhaseAfter(r.link.log) == PhaseAfter(s.link.log)
    requires Settled(r.link.log) <==> Settled(s.link.log)
    requires NoMishap(r.link.log) ==> NoMishap(s.link.log) && !StatusIsOpen(s.last)
    requires PromisesKept(s.link.log, r.link.log)
    ensures Holds(w, r, Settled(r.link.log), NoMishap(r.link.log))
  {
  }

  /** The invariant is kept by every public call. */
  lemma DoOk(w: World, s: St, op: Op)
    requires TimeMoves(w) && Inv(w, s)
    ensures Inv(w, Do(w, s, op))
  {
    DoFrame(w, s, op);
    match op
    case Pick => if !s.HasSocket() { PickOk(w, s); }
    case Perform => if s.HasSocket() { PerformOk(w, s); }
    case Release => if s.HasSocket() { ReleaseOk(w, s); }
    case Lost => LostOk(w, s);
  }

  /** The same for a caller that does not know whether time moves forward. */
  ghost predicate KeepsInv(w: World, a: St, b: St) {
    TimeMoves(w) && Inv(w, a) ==> Inv(w, b)
  }

  lemma DoKeeps(w: World, s: St, op: Op)
    requires s.Valid()
    ensures KeepsInv(w, s, Do(w, s, op))
  {
    if TimeMoves(w) && Inv(w, s) {
      DoOk(w, s, op);
    }
  }

  lemma NewServerOk(w: World, net: Net, port: uint16)
    requires ValidNet(net) && port > 0
    ensures Inv(w, NewServer(net, port))
  {
  }

  /** A server's invariant survives anything that leaves its socket to the chip. */
  lemma InvIsStable(w: World, s: St, net: Net, except: nat)
    requires TimeMoves(w) && Inv(w, s) && Drifted(s.link.net, net, except)
    requires s.HasSocket() ==> s.sock != except
    ensures Inv(w, s.(link := s.link.(net := net)))
  {
  }

  // Exactly when the agreement is lost.

  /** The chip shows an open connection at the last re-read of the listen this call makes. */
  predicate ListenMisses(w: World, s: St, op: Op)
    requires s.Valid()
  {
    match op
    case Pick =>
      var (n1, found) := FindUnused(w, s.link.net, 0);
      && !s.HasSocket() && found.Some?
      && var s1 := s.(last := CLOSED, link := s.link.(net := n1), sock := found.value);
         var (s2, ok) := Listen(w, Poll(w, Poll(w, s1)));
         ok && StatusIsOpen(Poll(w, Poll(w, s2)).Reg())
    case Perform =>
      && s.HasSocket() && !StatusIsOpen(s.last)
      && var s1 := Poll(w, s);
         var (s2, ok) := Listen(w, Poll(w, Poll(w, s1)));
         s1.Reg() == CLOSED && ok && StatusIsOpen(Poll(w, s2).Reg())
    case _ => false
  }

  /** The guard of each call: where the chip is at the one access that matters. */
  predicate Breaks(w: World, s: St, op: Op)
    requires s.Valid()
  {
    || ListenMisses(w, s, op)
    || (op == Release && s.HasSocket() && StatusIsOpen(s.last) && Poll(w, s).Reg() == CLOSED)
  }

  lemma PickMissesExactly(w: World, s: St)
    requires s.Valid() && s.port > 0 && !s.HasSocket()
    ensures ListenMisses(w, s, Pick) <==> StatusIsOpen(PickClosedSocket(w, s).0.last)
  {
    var (n1, found) := FindUnused(w, s.link.net, 0);
    if found.Some? {
      var s1 := s.(last := CLOSED, link := s.link.(net := n1), sock := found.value);
      BeginsByListening(w, s1, false);
    }
  }

  /** A poll that relistens. */
  lemma RelistenMissesExactly(w: World, s: St)
    requires TimeMoves(w) && Inv(w, s) && s.HasSocket() && !StatusIsOpen(s.last) && Poll(w, s).Reg() == CLOSED
    ensures var r := PerformIO(w, s);
            && (ListenMisses(w, s, Perform) <==> StatusIsOpen(r.last))
            && (NoMishap(r.link.log) <==> NoMishap(s.link.log) && !StatusIsOpen(r.last))
            && r.link.disc == s.link.disc && PhaseAfter(r.link.log) == PhaseAfter(s.link.log)
  {
    var s1 := PollLast(w, s);
    RecordOk(w, s.link, s1.link.net);
    BeginListeningOk(w, s1, true);
    BeginsByListening(w, s1, true);
    RelistenSameNet(w, s);
  }

  /** The guard speaks of the state before last_status_ is updated, which no access looks at. */
  lemma RelistenSameNet(w: World, s: St)
    requires s.Valid() && s.HasSocket()
    ensures var (a, oka) := Listen(w, Poll(w, Poll(w, Poll(w, s))));
            var (b, okb) := Listen(w, Poll(w, Poll(w, PollLast(w, s))));
            oka == okb && a.link.net == b.link.net
  {
  }

  /** A poll that does not relisten makes no mishap. */
  lemma PerformWithoutListen(w: World, s: St)
    requires s.Valid() && s.HasSocket() && (StatusIsOpen(s.last) || Poll(w, s).Reg() != CLOSED)
    ensures NoMishap(PerformIO(w, s).link.log) <==> NoMishap(s.link.log)
  {
    var s1 := PollLast(w, s);
    if StatusIsOpen(s.last) && !StatusIsOpen(s1.last) {
      SayOk(s1.link, OnDisconnect);
    } else if StatusIsOpen(s1.last) {
      var s2 := Check(s1, OpenCheck(s1.last, s.last), OpenLine(s1.last, s.last));
      OpenStatusSpeaks(w, s1, s.last);
      CheckOk(s1, OpenCheck(s1.last, s.last), OpenLine(s1.last, s.last));
      SpokenIsHarmless(s2.link.log, PerformIO(w, s).link.log);
    } else {
      QuietMakesNoMishap(w, s1, s.last);
    }
  }

  /** The line and the condition of the check on an open status. */
  function OpenLine(status: Status, past: Status): nat {
    if status == CLOSE_WAIT then 213 else if StatusIsOpen(past) then 204 else 200
  }

  predicate OpenCheck(status: Status, past: Status) {
    if StatusIsOpen(past) then status == CLOSE_WAIT || past == ESTABLISHED else past == LISTEN
  }

  /** A poll that sees an open connection adds at most a failed check to what its callback leaves. */
  lemma OpenStatusSpeaks(w: World, s: St, past: Status)
    requires s.Valid() && s.HasSocket() && StatusIsOpen(s.last)
    ensures OnlySpoken(Check(s, OpenCheck(s.last, past), OpenLine(s.last, past)).link.log,
                       HandleStatus(w, s, past).link.log)
  {
    if s.last == CLOSE_WAIT && StatusIsOpen(past) {
      CloseWaitSpeaks(w, s);
    } else {
      var e := if StatusIsOpen(past) then OnCanRead else OnConnect;
      var s1 := Check(s, OpenCheck(s.last, past), OpenLine(s.last, past));
      var open := OpenSession(s1.link);
      AnnounceSpeaks(w, s1.(link := open.link), open.conn, w.client(s1.link.net.tick), e);
    }
  }

  lemma QuietMakesNoMishap(w: World, s: St, past: Status)
    requires s.Valid() && s.HasSocket() && s.last != CLOSED && !StatusIsOpen(s.last)
    ensures var r := HandleStatus(w, s, past);
            && (NoMishap(r.link.log) <==> NoMishap(s.link.log))
            && PhaseAfter(r.link.log) == PhaseAfter(s.link.log) && r.link.disc == s.link.disc
  {
    QuietOutcomes(w, s, past);
    CheckOk(s, QuietCheck(s.last, past), QuietLine(s.last));
    CloseHardwareSays(w, Check(s, QuietCheck(s.last, past), QuietLine(s.last)));
  }

  lemma CloseHardwareSays(w: World, s: St)
    requires s.Valid() && s.HasSocket()
    ensures NoMishap(CloseHardwareSocket(w, s, false).link.log) <==> NoMishap(s.link.log)
    ensures PhaseAfter(CloseHardwareSocket(w, s, false).link.log) == PhaseAfter(s.link.log)
  {
    CloseHardwareEffect(w, s, false);
    SayOk(s.link, HitBy(w, s, false));
  }

  lemma SpokenSay(a: seq<Event>, l: Link, e: Event)
    requires OnlySpoken(a, l.log) && IsSpoken(e)
    ensures OnlySpoken(a, Say(l, e).log)
  {
  }

  lemma SpokenIsHarmless(a: seq<Event>, b: seq<Event>)
    requires OnlySpoken(a, b)
    ensures NoMishap(b) <==> NoMishap(a)
    ensures NoneCutOff(b) <==> NoneCutOff(a)
    ensures NoneFailed(b) <==> NoneFailed(a)
  {
    assert forall i :: 0 <= i < |a| ==> b[i] == a[i];
  }

  lemma CloseWaitSpeaks(w: World, s: St)
    requires s.Valid() && s.HasSocket()
    ensures OnlySpoken(s.link.log, HandleCloseWait(w, s).link.log)
  {
    var open := OpenSession(s.link);
    var f := w.client(s.link.net.tick);
    var s1 := Poll(w, s.(link := open.link));
    if s1.link.net.socks[s.sock].unread > 0 {
      AnnounceSpeaks(w, s1, open.conn, f, OnCanRead);
    } else {
      CloseConnSpeaks(w, s.sock, Session(s1.link, open.conn), f, false);
      var done := CloseConn(w, s.sock, Session(s1.link, open.conn), f, false);
      var s2 := PollLast(w, s1.(link := done.link));
      SpokenSay(s.link.log, s2.link, OnDisconnect);
      SpokenSay(s.link.log, Say(s2.link, OnDisconnect), Destroyed(TallyOf(FlushConn(f, done.conn))));
    }
  }

  lemma AnnounceSpeaks(w: World, s: St, conn: Conn, f: ClientFn, e: Event)
    requires s.Valid() && s.HasSocket() && conn.limit > 0 && IsCallback(e)
    ensures OnlySpoken(s.link.log, Announce(w, s, conn, f, e).link.log)
  {
    ScriptSpeaks(w, s.sock, Session(Say(s.link, e), conn), f, w.script(s.link.net.tick));
    var done := Callback(w, s.sock, Session(s.link, conn), f, e);
    var s1 := DetectListenerInitiatedDisconnect(w, s.(link := done.link));
    SpokenSay(s.link.log, s1.link, Destroyed(TallyOf(FlushConn(f, done.conn))));
  }

  lemma {:induction false} ScriptSpeaks(w: World, k: nat, s: Session, f: ClientFn, script: seq<Action>)
    requires k < |s.link.net.socks| && s.conn.limit > 0
    ensures OnlySpoken(s.link.log, RunScript(w, k, s, f, script).link.log)
    decreases |script|
  {
    if |script| > 0 {
      ActKeepsShape(w, k, s, f, script[0]);
      CloseConnSpeaks(w, k, s, f, true);
      ScriptSpeaks(w, k, Act(w, k, s, f, script[0]), f, script[1..]);
    }
  }

  lemma CloseConnSpeaks(w: World, k: nat, s: Session, f: ClientFn, byListener: bool)
    requires k < |s.link.net.socks| && s.conn.limit > 0
    ensures OnlySpoken(s.link.log, CloseConn(w, k, s, f, byListener).link.log)
  {
    var done := HangUp(w, k, s, f, byListener);
    assert OnlySpoken(s.link.log, done.link.log);
    SpokenSay(s.link.log, done.link, ListenerClose);
  }

  lemma PerformMishapExactly(w: World, s: St)
    requires TimeMoves(w) && Inv(w, s) && s.HasSocket()
    ensures NoMishap(PerformIO(w, s).link.log) <==> NoMishap(s.link.log) && !ListenMisses(w, s, Perform)
  {
    if !StatusIsOpen(s.last) && Poll(w, s).Reg() == CLOSED {
      RelistenMissesExactly(w, s);
    } else {
      PerformWithoutListen(w, s);
    }
  }

  lemma ReleaseMishapExactly(w: World, s: St)
    requires TimeMoves(w) && Inv(w, s) && s.HasSocket()
    ensures NoMishap(ReleaseSocket(w, s).0.link.log)
            <==> NoMishap(s.link.log) && !(StatusIsOpen(s.last) && Poll(w, s).Reg() == CLOSED)
  {
    if StatusIsInTcpConnectionLifecycle(Poll(w, s).Reg()) {
      ReleaseRefused(w, s);
    } else {
      ReleaseLetsGo(w, s);
    }
  }

  /** A call makes a mishap exactly when its guard says so. */
  lemma MishapExactly(w: World, s: St, op: Op)
    requires TimeMoves(w) && Inv(w, s)
    ensures NoMishap(Do(w, s, op).link.log) <==> NoMishap(s.link.log) && !Breaks(w, s, op)
  {
    match op
    case Pick =>
      if !s.HasSocket() {
        PickOk(w, s);
        PickMissesExactly(w, s);
      }
    case Perform => if s.HasSocket() { PerformMishapExactly(w, s); }
    case Release => if s.HasSocket() { ReleaseMishapExactly(w, s); }
    case Lost => SayOk(s.link, OnDisconnect);
  }

  /** From agreement, a call ends in agreement exactly unless its guard says it breaks it: a pick or a
      relisten whose last re-read already sees a connection, or a release of a dropped connection the
      listener still believes in. Nothing else any chip or listener does can break it. */
  lemma AgreementExact(w: World, s: St, op: Op)
    requires TimeMoves(w) && Inv(w, s) && NoMishap(s.link.log)
    ensures Agreement(Do(w, s, op)) <==> !Breaks(w, s, op)
  {
    MishapExactly(w, s, op);
    DoOk(w, s, op);
    if Breaks(w, s, op) {
      match op
      case Pick =>
        PickOk(w, s);
        PickMissesExactly(w, s);
      case Perform =>
        RelistenMissesExactly(w, s);
      case Release =>
        ReleaseLetsGo(w, s);
    }
  }
}
