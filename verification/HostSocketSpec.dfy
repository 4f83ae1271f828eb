/** The host emulation of a hardware socket by POSIX file descriptors: what each operation of a
    HostSocketInfo does, given what the operating system answers. */
module HostSocketSpec {
  import opened Types
  import opened SocketStatus

  const O_NONBLOCK: nat := 2048

  datatype Errno = TryAgain | Broken | Unexpected

  /** The operating system: `reply(t)` is the result of the system call at tick t, negative for a
      failure, and `errno(t)` the kind of error then. `portMap` is the --tcp_server_port_map flag. */
  datatype Os = Os(reply: nat -> int, errno: nat -> Errno, portMap: map<uint16, uint16>)

  /** Why the process has stopped: a CHECK on the port fields, or the CHECK(false) after a recv. */
  datatype Halt = Running | PortCheck | RecvCheck

  /** The process: descriptors opened by `socket` and `accept` and not yet closed, and whether some
      descriptor was ever closed that was not open. */
  datatype Process = Process(tick: nat, open: set<int>, misuse: bool, halt: Halt)

  /** The fields of a HostSocketInfo; -1 (any negative number) is no descriptor. */
  datatype Slot = Slot(listener: int, tcpPort: uint16, mappedPort: uint16,
                       connection: int, canWrite: bool, canRead: bool)

  const UNUSED: Slot := Slot(-1, 0, 0, -1, false, false)

  datatype Host = Host(p: Process, s: Slot)

  predicate HaveFd(fd: int) { fd >= 0 }

  function Lookup(os: Os, port: uint16): uint16 {
    if port in os.portMap then os.portMap[port] else port
  }

  // System calls.

  /** A call that answers only with success or failure. */
  function Called(p: Process): Process {
    p.(tick := p.tick + 1)
  }

  predicate Succeeds(os: Os, p: Process) { os.reply(p.tick) >= 0 }

  /** `socket` and `accept` never return a descriptor that is open. */
  function NewFd(os: Os, p: Process): (r: (Process, int))
    ensures HaveFd(r.1) ==> r.1 !in p.open && r.0.open == p.open + {r.1}
    ensures !HaveFd(r.1) ==> r.0.open == p.open
    ensures r.0.misuse == p.misuse && r.0.halt == p.halt
  {
    var fd := os.reply(p.tick);
    if fd >= 0 && fd !in p.open then (Called(p).(open := p.open + {fd}), fd) else (Called(p), -1)
  }

  function Close(p: Process, fd: int): Process {
    p.(open := p.open - {fd}, misuse := p.misuse || fd !in p.open)
  }

  /** fcntl twice: F_GETFL, then F_SETFL unless the flag is set already. */
  function SetNonBlocking(os: Os, p: Process): (r: (Process, bool))
    ensures r.0.open == p.open && r.0.misuse == p.misuse && r.0.halt == p.halt
  {
    var flags := os.reply(p.tick);
    var p1 := Called(p);
    if flags < 0 then (p1, false)
    else if (flags / O_NONBLOCK) % 2 == 1 then (p1, true)
    else (Called(p1), Succeeds(os, p1))
  }

  // Operations.

  function CloseConnectionSocket(h: Host): Host {
    Host(if HaveFd(h.s.connection) then Close(h.p, h.s.connection) else h.p,
         h.s.(connection := -1, canRead := false, canWrite := false))
  }

  function CloseListenerSocket(h: Host): Host {
    Host(if HaveFd(h.s.listener) then Close(h.p, h.s.listener) else h.p,
         h.s.(listener := -1, tcpPort := 0, mappedPort := 0))
  }

  /** Opening and configuring a new listener, once any old one is gone. */
  function OpenListener(os: Os, h: Host, newPort: uint16): (Host, bool) {
    var (p1, fd) := NewFd(os, h.p);
    var h1 := Host(p1, h.s.(listener := fd));
    if !HaveFd(fd) then (h1, false)
    else
      var h2 := h1.(p := Called(p1));
      if !Succeeds(os, p1) then (CloseListenerSocket(h2), false)   // setsockopt
      else
        var h3 := h2.(p := Called(h2.p));
        if !Succeeds(os, h2.p) then (CloseListenerSocket(h3), false)   // bind
        else
          var (p4, nonBlocking) := SetNonBlocking(os, h3.p);
          var h4 := h3.(p := p4);
          if !nonBlocking then (h4, false)   // the descriptor stays
          else
            var h5 := h4.(p := Called(p4));
            if !Succeeds(os, p4) then (CloseListenerSocket(h5), false)   // listen
            else (h5.(s := h5.s.(tcpPort := newPort, mappedPort := Lookup(os, newPort))), true)
  }

  function InitializeTcpListener(os: Os, h: Host, newPort: uint16): (Host, bool) {
    var h1 := CloseConnectionSocket(h);
    if HaveFd(h1.s.listener) then
      if h1.s.tcpPort == newPort then (h1, true)
      else OpenListener(os, CloseListenerSocket(h1), newPort)
    else OpenListener(os, h1, newPort)
  }

  function AcceptConnection(os: Os, h: Host): (Host, bool) {
    if !HaveFd(h.s.listener) then (h, false)
    else
      var (p1, fd) := NewFd(os, h.p);
      var h1 := Host(p1, h.s.(connection := fd));
      if HaveFd(fd) then
        var h2 := CloseListenerSocket(h1);
        (h2.(s := h2.s.(canWrite := true, canRead := true)), true)
      else (h1, false)
  }

  function DisconnectConnectionSocket(os: Os, h: Host): (Host, bool) {
    if HaveFd(h.s.connection) then (h.(p := Called(h.p)), os.reply(h.p.tick) == 0) else (h, false)
  }

  function Halted(h: Host, why: Halt): Host {
    h.(p := h.p.(halt := why))
  }

  /** The CHECKs of IsUnused. */
  predicate PortsCheckOut(s: Slot) {
    if HaveFd(s.listener) then s.tcpPort > 0 && s.mappedPort > 0 && !HaveFd(s.connection)
    else s.tcpPort == 0 && s.mappedPort == 0
  }

  function IsUnused(h: Host): (Host, bool) {
    if !PortsCheckOut(h.s) then (Halted(h, PortCheck), false)
    else (h, !HaveFd(h.s.listener) && !HaveFd(h.s.connection))
  }

  function IsTcpListener(h: Host): (Host, uint16) {
    if HaveFd(h.s.listener) != (h.s.tcpPort > 0) then (Halted(h, PortCheck), 0) else (h, h.s.tcpPort)
  }

  /** A one-byte peek; an open connection with nothing to read halts the process. */
  function IsConnectionHalfClosed(os: Os, h: Host): (Host, bool) {
    if !HaveFd(h.s.connection) then (h, false)
    else if !h.s.canRead then (h, true)
    else
      var size := os.reply(h.p.tick);
      var h1 := h.(p := Called(h.p));
      if size == 1 then (h1, false)
      else if size == 0 then (h1.(s := h1.s.(canRead := false)), true)
      else (Halted(h1, RecvCheck), true)
  }

  function Recv(os: Os, h: Host): (Host, int) {
    if !HaveFd(h.s.connection) || !h.s.canRead then (h, -1)
    else
      var size := os.reply(h.p.tick);
      var h1 := h.(p := Called(h.p));
      if size > 0 then (h1, size)
      else if size == 0 then (h1.(s := h1.s.(canRead := false)), 0)
      else
        match os.errno(h.p.tick)
        case TryAgain => (h1, -1)
        case Broken => (CloseConnectionSocket(h1), -1)
        case Unexpected => (Halted(h1, RecvCheck), -1)
  }

  /** The status reported, in the chip's terms. */
  function ReadStatus(os: Os, h: Host): (Host, Status) {
    var (h1, unused) := IsUnused(h);
    if h1.p.halt != Running || unused then (h1, CLOSED)
    else
      var (h2, port) := IsTcpListener(h1);
      if h2.p.halt != Running then (h2, CLOSED)
      else
        var (h3, accepted) := if port != 0 then AcceptConnection(os, h2) else (h2, false);
        if port != 0 && !accepted then (h3, LISTEN)
        else if HaveFd(h3.s.connection) then
          var (h4, halfClosed) := IsConnectionHalfClosed(os, h3);
          (h4, if halfClosed then CLOSE_WAIT else ESTABLISHED)
        else (h3, CLOSED)
  }

  /** CloseSocket, and what the destructor does. */
  function CloseBoth(h: Host): Host {
    CloseListenerSocket(CloseConnectionSocket(h))
  }

  // What a slot keeps.

  /** The descriptors held in a slot's fields. */
  function Held(s: Slot): set<int> {
    (if HaveFd(s.listener) then {s.listener} else {}) + (if HaveFd(s.connection) then {s.connection} else {})
  }

  /** Never both listening and connected. */
  predicate Exclusive(s: Slot) { !(HaveFd(s.listener) && HaveFd(s.connection)) }

  /** A listener descriptor exactly when each port field is set. */
  predicate Coherent(s: Slot) {
    (HaveFd(s.listener) <==> s.tcpPort != 0) && (HaveFd(s.listener) <==> s.mappedPort != 0)
  }

  /** No descriptor is leaked, shared or closed twice by one operation: those that leave the fields
      are closed, and those that enter them are new to the process. */
  ghost predicate FdStep(a: Host, b: Host) {
    && b.p.open == (a.p.open - Held(a.s)) + Held(b.s)
    && (Held(b.s) - Held(a.s)) !! a.p.open
    && b.p.misuse == a.p.misuse
    && Exclusive(b.s)
  }

  ghost predicate Sound(h: Host) { Held(h.s) <= h.p.open && Exclusive(h.s) }

  lemma ClosesStep(h: Host)
    requires Sound(h)
    ensures FdStep(h, CloseConnectionSocket(h)) && FdStep(h, CloseListenerSocket(h)) && FdStep(h, CloseBoth(h))
    ensures Held(CloseBoth(h).s) == {} && (Coherent(h.s) ==> Coherent(CloseConnectionSocket(h).s))
  {
  }

  /** What the operating system answers to socket, setsockopt and bind, from this moment on. */
  predicate BindSucceeds(os: Os, p: Process) {
    var (p1, fd) := NewFd(os, p);
    HaveFd(fd) && Succeeds(os, p1) && Succeeds(os, Called(p1))
  }

  /** The fcntl calls that come next, given that those have succeeded. */
  function NonBlockingAfterBind(os: Os, p: Process): (Process, bool) {
    SetNonBlocking(os, Called(Called(NewFd(os, p).0)))
  }

  /** socket, setsockopt and bind succeed and then SetNonBlocking fails: the exit that keeps the
      descriptor. */
  predicate OnlyNonBlockingFails(os: Os, p: Process) {
    BindSucceeds(os, p) && !NonBlockingAfterBind(os, p).1
  }

  /** All of these calls succeed, and so does listen. */
  predicate ListenSucceeds(os: Os, p: Process) {
    && BindSucceeds(os, p)
    && NonBlockingAfterBind(os, p).1 && Succeeds(os, NonBlockingAfterBind(os, p).0)
  }

  /** Whether InitializeTcpListener opens a new listener rather than keeping the one it has. */
  predicate Reopens(s: Slot, newPort: uint16) {
    !HaveFd(s.listener) || s.tcpPort != newPort
  }

  /** A listener that is opened is not left behind by SetNonBlocking, and not given port 0, asked for
      or mapped to. */
  predicate CleanListen(os: Os, h: Host, port: uint16) {
    Reopens(h.s, port) ==>
      && !OnlyNonBlockingFails(os, CloseBoth(h).p)
      && (ListenSucceeds(os, CloseBoth(h).p) ==> port != 0 && Lookup(os, port) != 0)
  }

  lemma OpenListenerStep(os: Os, h: Host, newPort: uint16)
    requires Sound(h) && Held(h.s) == {} && h.s.tcpPort == 0 && h.s.mappedPort == 0
    ensures var (r, ok) := OpenListener(os, h, newPort);
            && FdStep(h, r) && r.p.halt == h.p.halt
            && (ok <==> ListenSucceeds(os, h.p))
            && (ok ==> HaveFd(r.s.listener) && r.s.tcpPort == newPort && r.s.mappedPort == Lookup(os, newPort))
            && (!ok ==> r.s.tcpPort == 0 && r.s.mappedPort == 0)
            && (!ok && HaveFd(r.s.listener) <==> OnlyNonBlockingFails(os, h.p))
  {
  }

  /** What InitializeTcpListener promises: descriptors are conserved on every exit, it succeeds exactly
      if it keeps its listener or every system call does, and the port fields end up telling the truth
      exactly if the listen was clean. */
  ghost predicate Initialized(os: Os, a: Host, newPort: uint16, b: Host, ok: bool) {
    Sound(a) && Coherent(a.s) ==>
      && FdStep(a, b) && b.p.halt == a.p.halt
      && (ok <==> !Reopens(a.s, newPort) || ListenSucceeds(os, CloseBoth(a).p))
      && (ok ==> HaveFd(b.s.listener) && !HaveFd(b.s.connection) && b.s.tcpPort == newPort)
      && (ok ==> b.s.mappedPort ==
                 if !Reopens(a.s, newPort) then a.s.mappedPort
                 else if newPort in os.portMap then os.portMap[newPort] else newPort)
      && b.s.connection < 0 && !b.s.canRead && !b.s.canWrite
      && (Coherent(b.s) <==> CleanListen(os, a, newPort))
  }

  lemma InitializeStep(os: Os, h: Host, newPort: uint16)
    ensures var (r, ok) := InitializeTcpListener(os, h, newPort); Initialized(os, h, newPort, r, ok)
  {
    if Sound(h) && Coherent(h.s) {
      ClosesStep(h);
      var h1 := CloseConnectionSocket(h);
      ClosesStep(h1);
      assert CloseBoth(h) == CloseListenerSocket(h1);
      if Reopens(h.s, newPort) {
        assert InitializeTcpListener(os, h, newPort) == OpenListener(os, CloseBoth(h), newPort);
        OpenListenerStep(os, CloseBoth(h), newPort);
      }
    }
  }

  /** The same without assuming the ports tell the truth beforehand. */
  lemma InitializeConserves(os: Os, h: Host, newPort: uint16)
    requires Sound(h)
    ensures FdStep(h, InitializeTcpListener(os, h, newPort).0)
    ensures InitializeTcpListener(os, h, newPort).0.p.halt == h.p.halt
  {
    var h1 := CloseConnectionSocket(h);
    ClosesStep(h);
    ClosesStep(h1);
    if Reopens(h.s, newPort) {
      var h2 := if HaveFd(h1.s.listener) then CloseListenerSocket(h1) else h1;
      OpenConserves(os, h2, newPort);
    }
  }

  lemma OpenConserves(os: Os, h: Host, newPort: uint16)
    requires Sound(h) && Held(h.s) == {}
    ensures FdStep(h, OpenListener(os, h, newPort).0)
    ensures OpenListener(os, h, newPort).0.p.halt == h.p.halt
  {
  }

  /** What the two fcntl calls decide: the flag was set already, or could be set. */
  lemma NonBlockingExact(os: Os, p: Process)
    ensures var (r, ok), flags := SetNonBlocking(os, p), os.reply(p.tick);
            if flags < 0 then !ok && r == p.(tick := p.tick + 1)
            else if (flags / 2048) % 2 == 1 then ok && r == p.(tick := p.tick + 1)
            else (ok <==> os.reply(p.tick + 1) >= 0) && r == p.(tick := p.tick + 2)
  {
  }

  /** What accepting promises: with a listener and a new descriptor for the connection, the listener is
      replaced by a connection open in both directions; else nothing changes that matters. */
  ghost predicate Accepted(os: Os, a: Host, b: Host, ok: bool) {
    Sound(a) ==>
      && FdStep(a, b) && b.p.halt == a.p.halt
      && (ok <==> HaveFd(a.s.listener) && os.reply(a.p.tick) >= 0 && os.reply(a.p.tick) !in a.p.open)
      && (ok ==> b.s == Slot(-1, 0, 0, os.reply(a.p.tick), true, true))
      && (!ok ==> Held(b.s) == Held(a.s) && b.s.(connection := a.s.connection) == a.s)
      && (Coherent(a.s) ==> Coherent(b.s))
  }

  lemma AcceptStep(os: Os, h: Host)
    ensures var (r, ok) := AcceptConnection(os, h); Accepted(os, h, r, ok)
  {
  }

  lemma RecvStep(os: Os, h: Host)
    requires Sound(h)
    ensures FdStep(h, Recv(os, h).0) && FdStep(h, IsConnectionHalfClosed(os, h).0)
    ensures Coherent(h.s) ==> Coherent(Recv(os, h).0.s) && Coherent(IsConnectionHalfClosed(os, h).0.s)
    ensures h.p.halt != PortCheck ==>
              Recv(os, h).0.p.halt != PortCheck && IsConnectionHalfClosed(os, h).0.p.halt != PortCheck
  {
  }

  /** What receiving promises, by what recv answers: bytes change nothing, their end stops further
      reads, a broken connection is closed, and any other error but a request to try again halts. The
      listener is never touched. */
  ghost predicate Received(os: Os, a: Host, b: Host, size: int) {
    Sound(a) ==>
      && FdStep(a, b)
      && b.s.listener == a.s.listener && b.s.tcpPort == a.s.tcpPort && b.s.mappedPort == a.s.mappedPort
      && var reply := os.reply(a.p.tick);
         if !HaveFd(a.s.connection) || !a.s.canRead then b == a && size == -1
         else if reply > 0 then size == reply && b.s == a.s && b.p.halt == a.p.halt
         else if reply == 0 then size == 0 && b.s == a.s.(canRead := false) && b.p.halt == a.p.halt
         else
           && size == -1
           && match os.errno(a.p.tick)
              case TryAgain => b.s == a.s && b.p.halt == a.p.halt
              case Broken =>
                b.s.connection < 0 && !b.s.canRead && !b.s.canWrite && b.p.halt == a.p.halt
              case Unexpected => b.s == a.s && b.p.halt == RecvCheck
  }

  lemma RecvReceives(os: Os, h: Host)
    ensures var (r, size) := Recv(os, h); Received(os, h, r, size)
  {
    if Sound(h) {
      RecvStep(os, h);
    }
  }

  /** What looking for the end of the input promises: a one-byte peek, made only while there is a
      connection that could be read, decides; it must find a byte or the end. */
  ghost predicate HalfClosedRead(os: Os, a: Host, b: Host, halfClosed: bool) {
    var peeks := HaveFd(a.s.connection) && a.s.canRead;
    var peek := os.reply(a.p.tick);
    && (!peeks ==> b == a && (halfClosed <==> HaveFd(a.s.connection)))
    && (peeks && peek == 1 ==> !halfClosed && b == a.(p := a.p.(tick := a.p.tick + 1)))
    && (peeks && peek == 0 ==>
          halfClosed && b == Host(a.p.(tick := a.p.tick + 1), a.s.(canRead := false)))
    && (peeks && peek !in {0, 1} ==> b == a.(p := a.p.(tick := a.p.tick + 1, halt := RecvCheck)))
  }

  lemma HalfClosedStep(os: Os, h: Host)
    ensures var (r, halfClosed) := IsConnectionHalfClosed(os, h); HalfClosedRead(os, h, r, halfClosed)
  {
  }

  /** What asking for the listener's port promises, and what a shutdown does. */
  ghost predicate ListenerRead(a: Host, b: Host, port: uint16) {
    && b.s == a.s
    && (a.p.halt == b.p.halt == Running ==> b == a && port == a.s.tcpPort && (port != 0 <==> HaveFd(a.s.listener)))
  }

  ghost predicate ShutDown(os: Os, a: Host, b: Host, ok: bool) {
    && b.s == a.s && b.p.open == a.p.open
    && (ok <==> HaveFd(a.s.connection) && os.reply(a.p.tick) == 0)
  }

  lemma ListenerStep(h: Host)
    ensures var (r, port) := IsTcpListener(h); ListenerRead(h, r, port)
  {
  }

  lemma ShutDownStep(os: Os, h: Host)
    ensures var (r, ok) := DisconnectConnectionSocket(os, h); ShutDown(os, h, r, ok)
  {
  }

  /** The status of a slot that tells the truth, by what accept and the peek answer: CLOSED if unused,
      LISTEN if no connection came, ESTABLISHED if there is a byte to read and CLOSE_WAIT if the end was
      seen, now or before. A peek that answers anything else halts; no CHECK on the ports does. */
  ghost predicate StatusRead(os: Os, a: Host, b: Host, status: Status) {
    Sound(a) && a.p.halt == Running ==>
      && FdStep(a, b)
      && (Coherent(a.s) ==>
            var accepts := HaveFd(a.s.listener) && HaveFd(NewFd(os, a.p).1);
            var peeks := accepts || (HaveFd(a.s.connection) && a.s.canRead);
            var peek := os.reply(if accepts then a.p.tick + 1 else a.p.tick);
            && Coherent(b.s) && b.p.halt == (if peeks && peek !in {0, 1} then RecvCheck else Running)
            && (b.p.halt == Running ==>
                  && status == (if Held(a.s) == {} then CLOSED
                                else if HaveFd(a.s.listener) && !accepts then LISTEN
                                else if peeks && peek == 1 then ESTABLISHED else CLOSE_WAIT)
                  && (StatusIsOpen(status) ==> (status == ESTABLISHED <==> b.s.canRead)))
            && (status == CLOSED <==> Held(a.s) == {})
            && (status == LISTEN <==> HaveFd(b.s.listener))
            && (StatusIsOpen(status) <==> HaveFd(b.s.connection)))
  }

  lemma StatusStep(os: Os, h: Host)
    ensures var (r, status) := ReadStatus(os, h); StatusRead(os, h, r, status)
  {
    if Sound(h) && h.p.halt == Running && PortsCheckOut(h.s) {
      AcceptStep(os, h);
      var h3 := if HaveFd(h.s.listener) then AcceptConnection(os, h).0 else h;
      RecvStep(os, h3);
    }
  }

  /** The CHECKs of IsUnused fail exactly on slots whose ports do not tell the truth. */
  lemma UnusedChecksExact(h: Host)
    requires Exclusive(h.s)
    ensures PortsCheckOut(h.s) <==> Coherent(h.s)
  {
  }
}
