/** What each operation of a server socket does, as a function of the state and the world.
    ServerSocket.dfy proves that the class does exactly this. */
module ServerSocketSpec {
  import opened Types
  import opened SocketStatus
  import opened WriteBufferSpec
  import opened W5500
  import opened DisconnectRecord
  import opened CallbackTrace
  import opened PlatformNetwork
  import opened ConnectionSpec

  const DISCONNECT_MAX_MILLIS: uint32 := 5000

  /** A server socket: the hardware socket it holds (MAX_SOCK_NUM if none), the status it last
      remembered, its port, and what it shares with its connections. */
  datatype St = St(link: Link, sock: nat, last: Status, port: uint16)
  {
    predicate HasSocket() { sock < MAX_SOCK_NUM }

    ghost predicate Valid() { ValidNet(link.net) && sock <= MAX_SOCK_NUM }

    /** The register of the held socket, as of the last access to it. */
    function Reg(): Status
      requires ValidNet(link.net) && HasSocket()
    {
      link.net.socks[sock].status
    }
  }

  function Check(s: St, ok: bool, line: nat): St {
    if ok then s else s.(link := Say(s.link, CheckFailed(line)))
  }

  /** Read the status of the held socket. */
  function Poll(w: World, s: St): (r: St)
    requires s.Valid() && s.HasSocket()
    ensures r.Valid() && r.sock == s.sock
  {
    s.(link := s.link.(net := Access(w, s.link.net, s.sock)))
  }

  /** last_status_ = PlatformNetwork::SocketStatus(sock_num_) */
  function PollLast(w: World, s: St): (r: St)
    requires s.Valid() && s.HasSocket()
    ensures r.Valid() && r.sock == s.sock && r.last == r.Reg()
  {
    var r := Poll(w, s);
    r.(last := r.Reg())
  }

  function CloseHardwareSocket(w: World, s: St, releasing: bool): (r: St)
    requires s.Valid() && s.HasSocket()
    ensures r.Valid() && r.sock == s.sock
  {
    var hit := Access(w, s.link.net, s.sock).socks[s.sock].status;
    var closed := Say(s.link.(net := CloseSocket(w, s.link.net, s.sock)), ForcedClose(s.Reg(), hit, releasing));
    var r := PollLast(w, s.(link := closed));
    Check(r, r.last == CLOSED, 357)
  }

  function NoteUnsettled(s: St, final: bool): St {
    if s.last == LISTEN then s else s.(link := Say(s.link, Unsettled(s.last, final)))
  }

  /** BeginListening from the close on, up to and including the listen. */
  function Listen(w: World, s: St): (r: (St, bool))
    requires s.Valid() && s.HasSocket()
    ensures r.0.Valid() && r.0.sock == s.sock && r.0.port == s.port
  {
    var s1 := CloseHardwareSocket(w, s, false);
    var (n, ok) := InitializeListener(w, s1.link.net, s.sock, s.port);
    (s1.(link := s1.link.(net := n)), ok)
  }

  /** `final`: nothing re-reads the status after this call. */
  function BeginListening(w: World, s: St, final: bool): (r: (St, bool))
    requires s.Valid()
    ensures r.0.Valid() && r.0.sock == s.sock
  {
    if !s.HasSocket() then (s, false)
    else
      var s1 := Poll(w, s);
      if s.port == ListenerPort(s1.link.net.socks[s.sock]) then (PollLast(w, s1), true)
      else
        var s2 := Poll(w, s1);
        if StatusIsInTcpConnectionLifecycle(s2.Reg()) then (s2, false)
        else
          var (s3, ok) := Listen(w, s2);
          if ok then (NoteUnsettled(PollLast(w, s3), final), true) else (s3, false)
  }

  function PickClosedSocket(w: World, s: St): (r: (St, bool))
    requires s.Valid()
    ensures r.0.Valid()
  {
    if s.HasSocket() then (s, false)
    else
      var (n1, found) := FindUnused(w, s.link.net, 0);
      var s1 := s.(last := CLOSED, link := s.link.(net := n1));
      match found
      case None => (s1, false)
      case Some(k) =>
        var (s2, ok) := BeginListening(w, s1.(sock := k), false);
        if ok then (NoteUnsettled(PollLast(w, s2), true), true) else (s2.(sock := MAX_SOCK_NUM), false)
  }

  function NoteAbandoned(s: St, last: Status): St {
    if StatusIsOpen(last) then s.(link := Say(s.link, Abandoned)) else s
  }

  function ReleaseSocket(w: World, s: St): (r: (St, bool))
    requires s.Valid()
    ensures r.0.Valid()
  {
    if !s.HasSocket() then (s, true)
    else
      var s1 := Poll(w, s);
      if StatusIsInTcpConnectionLifecycle(s1.Reg()) then (s1, false)
      else (NoteAbandoned(CloseHardwareSocket(w, s1, true), s.last).(sock := MAX_SOCK_NUM), true)
  }

  function SocketLost(w: World, s: St): (r: St)
    requires s.Valid()
    ensures r.Valid()
  {
    var l := if s.HasSocket() && StatusIsOpen(s.last) then Say(s.link, OnDisconnect) else s.link;
    s.(link := l.(disc := Record(w, l.net, l.disc)), sock := MAX_SOCK_NUM, last := CLOSED)
  }

  function DetectListenerInitiatedDisconnect(w: World, s: St): (r: St)
    requires s.Valid() && s.HasSocket()
    ensures r.Valid() && r.sock == s.sock
  {
    if s.link.disc.disconnected then PollLast(w, s) else s
  }

  /** AnnounceConnected and AnnounceCanRead, from an already constructed connection on. The
      connection is destroyed last, at the end of the scope. */
  function Announce(w: World, s: St, conn: Conn, f: ClientFn, e: Event): (r: St)
    requires s.Valid() && s.HasSocket() && conn.limit > 0
    ensures r.Valid() && r.sock == s.sock
  {
    var done := Callback(w, s.sock, Session(s.link, conn), f, e);
    var s1 := DetectListenerInitiatedDisconnect(w, s.(link := done.link));
    s1.(link := Destroy(Session(s1.link, done.conn), f))
  }

  function AnnounceNew(w: World, s: St, e: Event): (r: St)
    requires s.Valid() && s.HasSocket()
    ensures r.Valid() && r.sock == s.sock
  {
    var open := OpenSession(s.link);
    Announce(w, s.(link := open.link), open.conn, w.client(s.link.net.tick), e)
  }

  function HandleCloseWait(w: World, s: St): (r: St)
    requires s.Valid() && s.HasSocket()
    ensures r.Valid() && r.sock == s.sock
  {
    var open := OpenSession(s.link);
    var f := w.client(s.link.net.tick);
    var s1 := Poll(w, s.(link := open.link));
    if s1.link.net.socks[s.sock].unread > 0 then
      Announce(w, s1, open.conn, f, OnCanRead)
    else
      var done := CloseConn(w, s.sock, Session(s1.link, open.conn), f, false);
      var s2 := PollLast(w, s1.(link := done.link));
      s2.(link := Destroy(Session(Say(s2.link, OnDisconnect), done.conn), f))
  }

  function DetectCloseTimeout(w: World, s: St): (r: St)
    requires s.Valid() && s.HasSocket()
    ensures r.Valid() && r.sock == s.sock
  {
    var d := s.link.disc;
    if d.disconnected && ElapsedMillis(Millis(w, s.link.net), d.millis) > DISCONNECT_MAX_MILLIS then
      CloseHardwareSocket(w, s, false)
    else s
  }

  /** The switch of PerformIO: `s.last` is already the new status, `past` the one before it. */
  function HandleStatus(w: World, s: St, past: Status): (r: St)
    requires s.Valid() && s.HasSocket()
    ensures r.Valid() && r.sock == s.sock
  {
    var status := s.last;
    var wasOpen := StatusIsOpen(past);
    if status == CLOSED then
      BeginListening(w, s, true).0
    else if status == LISTEN then
      Check(s, past == LISTEN, 180)
    else if status == SYNRECV then
      Check(s, past == LISTEN, 193).(last := LISTEN)
    else if status == ESTABLISHED then
      if !wasOpen then AnnounceNew(w, Check(s, past == LISTEN, 200), OnConnect)
      else AnnounceNew(w, Check(s, past == ESTABLISHED, 204), OnCanRead)
    else if status == CLOSE_WAIT then
      if !wasOpen then AnnounceNew(w, Check(s, past == LISTEN, 213), OnConnect)
      else HandleCloseWait(w, s)
    else if StatusIsClosing(status) then
      DetectCloseTimeout(w, Check(s, wasOpen || StatusIsClosing(past), 229))
    else if status == INIT then
      var s1 := Check(s, false, 241);
      if past == INIT then CloseHardwareSocket(w, s1, false) else s1
    else if StatusIsForeign(status) then
      CloseHardwareSocket(w, Check(s, false, 262), false)
    else
      s.(last := past)
  }

  /** The line and the condition of the check on a status that calls for no callback. */
  function QuietLine(status: Status): nat {
    if status == LISTEN then 180 else if status == SYNRECV then 193
    else if StatusIsClosing(status) then 229 else if status == INIT then 241 else 262
  }

  predicate QuietCheck(status: Status, past: Status) {
    if StatusIsClosing(status) then StatusIsOpen(past) || StatusIsClosing(past)
    else (status == LISTEN || status == SYNRECV) && past == LISTEN
  }

  /** What such a status can lead to: it is remembered, replaced, or followed by CLOSE. */
  lemma QuietOutcomes(w: World, s: St, past: Status)
    requires s.Valid() && s.HasSocket() && s.last != CLOSED && !StatusIsOpen(s.last)
    ensures var s1, r := Check(s, QuietCheck(s.last, past), QuietLine(s.last)), HandleStatus(w, s, past);
            if !StatusIsDocumented(s.last) then r == s.(last := past)
            else if StatusIsPassive(s.last) then r == s1.(last := LISTEN)
            else r == s1 || r == CloseHardwareSocket(w, s1, false)
  {
  }

  function PerformIO(w: World, s: St): (r: St)
    requires s.Valid()
    ensures r.Valid() && r.sock == s.sock
  {
    if !s.HasSocket() then s
    else
      var past := s.last;
      var s1 := PollLast(w, s);
      if StatusIsOpen(past) && !StatusIsOpen(s1.last) then
        if !s1.link.disc.disconnected then
          s1.(link := Say(s1.link.(disc := Record(w, s1.link.net, s1.link.disc)), OnDisconnect))
        else s1
      else
        HandleStatus(w, s1, past)
  }

  /** A server as constructed. */
  function NewServer(net: Net, port: uint16): St {
    St(Link(net, NEVER_CONNECTED, []), MAX_SOCK_NUM, CLOSED, port)
  }
}
