/** What a connection object and a listener do to the chip, the disconnect record and the log
    during one callback. The socket number is `k` throughout. */
module ConnectionSpec {
  import opened Types
  import opened SocketStatus
  import opened WriteBufferSpec
  import opened W5500
  import opened DisconnectRecord
  import opened CallbackTrace

  /** Amount of stack space allocated for a write buffer. */
  const WRITE_BUFFER_SIZE: nat := 255

  /** What a server shares with its connection objects. */
  datatype Link = Link(net: Net, disc: Disconnection, log: seq<Event>)

  datatype Session = Session(link: Link, conn: Conn)

  function Say(l: Link, e: Event): Link {
    l.(log := l.log + [e])
  }

  /** Constructing a connection marks the record as not disconnected, every time. */
  function OpenSession(l: Link): Session {
    Session(l.(disc := Reset(l.disc)), NewConn(WRITE_BUFFER_SIZE))
  }

  function Recorded(w: World, l: Link, byListener: bool): Link {
    var l1 := l.(disc := Record(w, l.net, l.disc));
    if byListener then Say(l1, ListenerClose) else l1
  }

  /** Flush and DISCON, each only as long as the connection is still seen open. */
  function HangUp(w: World, k: nat, s: Session, f: ClientFn, byListener: bool): (r: Session)
    requires k < |s.link.net.socks| && s.conn.limit > 0
  {
    var l := s.link;
    var n1 := Access(w, l.net, k);
    if !StatusIsOpen(n1.socks[k].status) then
      Session(l.(net := n1), s.conn)
    else
      var c := FlushConn(f, s.conn);
      var n2 := Access(w, n1, k);
      if !StatusIsOpen(n2.socks[k].status) then
        Session(l.(net := n2), c)
      else
        var n3 := DisconSocket(w, n2, k);
        var sent := Say(l.(net := n3), Discon(byListener, n3.socks[k].unread, TallyOf(c)));
        Session(sent.(net := Access(w, n3, k)), c)
  }

  /** TcpServerConnection::close: hang up, and record a disconnect in any case. `byListener` tells a
      listener's call from the server's own. */
  function CloseConn(w: World, k: nat, s: Session, f: ClientFn, byListener: bool): (r: Session)
    requires k < |s.link.net.socks| && s.conn.limit > 0
  {
    var done := HangUp(w, k, s, f, byListener);
    done.(link := Recorded(w, done.link, byListener))
  }

  function Act(w: World, k: nat, s: Session, f: ClientFn, a: Action): (r: Session)
    requires k < |s.link.net.socks| && s.conn.limit > 0
  {
    match a
    case Write(data) => s.(conn := PutAll(f, s.conn, data))
    case WriteByte(b) => s.(conn := Put(f, s.conn, b))
    case Flush => s.(conn := FlushConn(f, s.conn))
    case Read(count) => s.(link := s.link.(net := ReadBytes(w, s.link.net, k, count)))
    case Close => CloseConn(w, k, s, f, true)
  }

  lemma ActKeepsShape(w: World, k: nat, s: Session, f: ClientFn, a: Action)
    requires k < |s.link.net.socks| && s.conn.limit > 0
    ensures var r := Act(w, k, s, f, a);
            |r.link.net.socks| == |s.link.net.socks| && r.conn.limit == s.conn.limit
  {
    DrainKeepsLimit(f, s.conn);
  }

  /** A listener's actions in one callback. */
  function RunScript(w: World, k: nat, s: Session, f: ClientFn, script: seq<Action>): (r: Session)
    requires k < |s.link.net.socks| && s.conn.limit > 0
    ensures |r.link.net.socks| == |s.link.net.socks| && r.conn.limit == s.conn.limit
    decreases |script|
  {
    if |script| == 0 then s
    else
      ActKeepsShape(w, k, s, f, script[0]);
      RunScript(w, k, Act(w, k, s, f, script[0]), f, script[1..])
  }

  /** The callback itself: the listener runs its script for this tick. */
  function Callback(w: World, k: nat, s: Session, f: ClientFn, e: Event): (r: Session)
    requires k < |s.link.net.socks| && s.conn.limit > 0
    ensures |r.link.net.socks| == |s.link.net.socks| && r.conn.limit == s.conn.limit
  {
    RunScript(w, k, s.(link := Say(s.link, e)), f, w.script(s.link.net.tick))
  }

  /** The destructor flushes what is left. */
  function Destroy(s: Session, f: ClientFn): Link {
    Say(s.link, Destroyed(TallyOf(FlushConn(f, s.conn))))
  }

  /** The time stamp stands for a moment not in the future. */
  ghost predicate DiscOk(w: World, l: Link) {
    l.disc.disconnected ==>
      && l.disc.millis as int == l.disc.since % TWO_TO_THE_32
      && l.disc.since <= w.time(l.net.tick)
  }

  /** Whether close() gets as far as DISCON. */
  predicate SendsDiscon(w: World, k: nat, s: Session)
    requires k < |s.link.net.socks|
  {
    var n1 := Access(w, s.link.net, k);
    StatusIsOpen(n1.socks[k].status) && StatusIsOpen(Access(w, n1, k).socks[k].status)
  }

  function DisconOf(w: World, k: nat, s: Session, f: ClientFn, byListener: bool): (e: Event)
    requires k < |s.link.net.socks|
    ensures e.Discon? && e.byListener == byListener && e.tally == TallyOf(FlushConn(f, s.conn))
    ensures !MayReceive(s.link.net.socks[k].status) ==> e.unread == s.link.net.socks[k].unread
  {
    var n3 := DisconSocket(w, Access(w, Access(w, s.link.net, k), k), k);
    Discon(byListener, n3.socks[k].unread, TallyOf(FlushConn(f, s.conn)))
  }

  /** What close() does to the shared state, told from outside: what is logged, where the chip can
      be afterwards, and that the disconnect is on record from no earlier than the call. */
  ghost predicate CloseEffect(w: World, k: nat, s: Session, byListener: bool, sent: Option<Event>, r: Session)
    requires k < |s.link.net.socks|
  {
    var before := if sent.Some? then Say(s.link, sent.value) else s.link;
    && r.link.log == (if byListener then Say(before, ListenerClose) else before).log
    && r.link.disc.disconnected && DiscOk(w, r.link)
    && |r.link.net.socks| == |s.link.net.socks|
    && s.link.net.tick <= r.link.net.tick
    && (s.link.disc.disconnected ==> r.link.disc == s.link.disc)
    && (!s.link.disc.disconnected ==> r.link.disc.since >= w.time(s.link.net.tick))
    && var was, now := s.link.net.socks[k].status, r.link.net.socks[k].status;
       && (StatusIsOpen(was) || StatusIsDown(was) ==> StatusIsDown(now))
       && (sent.Some? && !StatusIsOpen(was) ==> StatusIsPassive(was) || was == SYNSENT)
  }

  function SentBy(w: World, k: nat, s: Session, f: ClientFn, byListener: bool): Option<Event>
    requires k < |s.link.net.socks|
  {
    if SendsDiscon(w, k, s) then Some(DisconOf(w, k, s, f, byListener)) else None
  }

  lemma CloseConnEffect(w: World, k: nat, s: Session, f: ClientFn, byListener: bool)
    requires TimeMoves(w) && k < |s.link.net.socks| && s.conn.limit > 0 && DiscOk(w, s.link)
    ensures CloseEffect(w, k, s, byListener, SentBy(w, k, s, f, byListener), CloseConn(w, k, s, f, byListener))
    ensures CloseConn(w, k, s, f, byListener).conn in {s.conn, FlushConn(f, s.conn)}
  {
  }

  /** What a caller of close() may count on, if the record was in order. */
  ghost predicate Closes(w: World, k: nat, s: Session, f: ClientFn, byListener: bool, r: Session) {
    TimeMoves(w) && k < |s.link.net.socks| && DiscOk(w, s.link) ==>
      CloseEffect(w, k, s, byListener, SentBy(w, k, s, f, byListener), r)
  }

  lemma CloseConnCloses(w: World, k: nat, s: Session, f: ClientFn, byListener: bool)
    requires k < |s.link.net.socks| && s.conn.limit > 0
    ensures Closes(w, k, s, f, byListener, CloseConn(w, k, s, f, byListener))
  {
    if TimeMoves(w) && DiscOk(w, s.link) {
      CloseConnEffect(w, k, s, f, byListener);
    }
  }

  ghost predicate ChipLeaves(w: World, k: nat) {
    forall t: nat, s: Sock :: Moved(s, w.move(t, k)).status == s.status
  }

  /** What close() itself does to the socket, with a chip that makes no move of its own: it sends a FIN
      where there is a connection to end, and looks at the status twice before and once after. */
  ghost predicate SendsFin(was: Net, now: Net, k: nat)
    requires k < |was.socks| && k < |now.socks|
  {
    && now.socks[k].status == (match was.socks[k].status
                               case 0x17 => FIN_WAIT
                               case 0x1C => LAST_ACK
                               case status => status)
    && now.tick == was.tick + if StatusIsOpen(was.socks[k].status) then 4 else 1
  }

  lemma CloseSendsFin(w: World, k: nat, s: Session, f: ClientFn, byListener: bool)
    requires k < |s.link.net.socks| && s.conn.limit > 0
    ensures var net := CloseConn(w, k, s, f, byListener).link.net;
            && |net.socks| == |s.link.net.socks|
            && (ChipLeaves(w, k) ==> SendsFin(s.link.net, net, k))
  {
  }
}
