/** HostSocketInfo and HostNetwork: the classes, proved to follow the specification. */
module HostSockets {
  import opened Types
  import opened SocketStatus
  import opened HostSocketSpec
  import Net = HostNetworkSpec

  /** The process and its kernel. A failing CHECK sets `halt`; callers then return at once. */
  class Kernel {
    const os: Os
    var tick: nat
    var open: set<int>
    ghost var misuse: bool
    var halt: Halt

    ghost function State(): Process
      reads this
    {
      Process(tick, open, misuse, halt)
    }

    constructor (os: Os)
      ensures this.os == os && State() == Process(0, {}, false, Running)
    {
      this.os := os;
      tick, open, misuse, halt := 0, {}, false, Running;
    }

    method NewFd() returns (fd: int)
      modifies this
      ensures (State(), fd) == HostSocketSpec.NewFd(os, old(State()))
    {
      fd := os.reply(tick);
      tick := tick + 1;
      if fd >= 0 && fd !in open {
        open := open + {fd};
      } else {
        fd := -1;
      }
    }

    method Call() returns (result: int)
      modifies this
      ensures State() == Called(old(State())) && result == os.reply(old(tick))
    {
      result := os.reply(tick);
      tick := tick + 1;
    }

    method Close(fd: int)
      modifies this
      ensures State() == HostSocketSpec.Close(old(State()), fd)
    {
      misuse := misuse || fd !in open;
      open := open - {fd};
    }

    method Fail(why: Halt)
      modifies this
      ensures State() == old(State()).(halt := why)
    {
      halt := why;
    }
  }

  class HostSocketInfo {
    const kernel: Kernel
    var listenerSocketFd: int
    var tcpPort: uint16
    var mappedTcpPort: uint16
    var connectionSocketFd: int
    var canWriteToConnection: bool
    var canReadFromConnection: bool

    ghost function Fields(): Slot
      reads this
    {
      Slot(listenerSocketFd, tcpPort, mappedTcpPort, connectionSocketFd, canWriteToConnection, canReadFromConnection)
    }

    ghost function State(): Host
      reads this, kernel
    {
      Host(kernel.State(), Fields())
    }

    constructor (kernel: Kernel)
      ensures this.kernel == kernel && Fields() == UNUSED
    {
      this.kernel := kernel;
      listenerSocketFd, tcpPort, mappedTcpPort := -1, 0, 0;
      connectionSocketFd, canWriteToConnection, canReadFromConnection := -1, false, false;
    }

    /** The destructor, and CloseSocket. */
    method CloseAll()
      modifies this, kernel
      ensures State() == CloseBoth(old(State()))
    {
      CloseConnectionSocket();
      CloseListenerSocket();
    }

    method IsUnused() returns (unused: bool)
      modifies kernel
      ensures (State(), unused) == HostSocketSpec.IsUnused(old(State()))
    {
      if HaveFd(listenerSocketFd) {
        if !(tcpPort > 0 && mappedTcpPort > 0 && !HaveFd(connectionSocketFd)) {
          kernel.Fail(PortCheck);
        }
        return false;
      }
      if !(tcpPort == 0 && mappedTcpPort == 0) {
        kernel.Fail(PortCheck);
        return false;
      }
      if HaveFd(connectionSocketFd) {
        return false;
      }
      return true;
    }

    method IsTcpListener() returns (port: uint16)
      modifies kernel
      ensures (State(), port) == HostSocketSpec.IsTcpListener(old(State()))
      ensures ListenerRead(old(State()), State(), port)
    {
      ListenerStep(State());
      if HaveFd(listenerSocketFd) {
        if !(tcpPort > 0) {
          kernel.Fail(PortCheck);
        }
        return tcpPort;
      } else {
        if tcpPort != 0 {
          kernel.Fail(PortCheck);
        }
        return 0;
      }
    }

    method IsConnectionHalfClosed() returns (halfClosed: bool)
      modifies this, kernel
      ensures (State(), halfClosed) == HostSocketSpec.IsConnectionHalfClosed(kernel.os, old(State()))
      ensures HalfClosedRead(kernel.os, old(State()), State(), halfClosed)
    {
      HalfClosedStep(kernel.os, State());
      if !HaveFd(connectionSocketFd) {
        return false;
      }
      if !canReadFromConnection {
        return true;
      }
      var size := kernel.Call();
      if size == 1 {
        return false;
      } else if size == 0 {
        canReadFromConnection := false;
        return true;
      }
      kernel.Fail(RecvCheck);
      return true;
    }

    method SocketStatus() returns (status: Status)
      modifies this, kernel
      ensures (State(), status) == ReadStatus(kernel.os, old(State()))
      ensures StatusRead(kernel.os, old(State()), State(), status)
    {
      StatusStep(kernel.os, State());
      var unused := IsUnused();
      if kernel.halt != Running || unused {
        return CLOSED;
      }
      var port := IsTcpListener();
      if kernel.halt != Running {
        return CLOSED;
      }
      if port != 0 {
        var accepted := AcceptConnection();
        if !accepted {
          return LISTEN;
        }
      }
      if HaveFd(connectionSocketFd) {
        var halfClosed := IsConnectionHalfClosed();
        if halfClosed {
          return CLOSE_WAIT;
        }
        return ESTABLISHED;
      }
      return CLOSED;
    }

    method InitializeTcpListener(newTcpPort: uint16) returns (ok: bool)
      modifies this, kernel
      ensures (State(), ok) == HostSocketSpec.InitializeTcpListener(kernel.os, old(State()), newTcpPort)
      ensures Initialized(kernel.os, old(State()), newTcpPort, State(), ok)
    {
      InitializeStep(kernel.os, State(), newTcpPort);
      CloseConnectionSocket();
      if HaveFd(listenerSocketFd) {
        if tcpPort == newTcpPort {
          return true;
        }
        CloseListenerSocket();
      }
      ok := OpenNewListener(newTcpPort);
    }

    method OpenNewListener(newTcpPort: uint16) returns (ok: bool)
      modifies this, kernel
      ensures (State(), ok) == OpenListener(kernel.os, old(State()), newTcpPort)
    {
      listenerSocketFd := kernel.NewFd();
      if !HaveFd(listenerSocketFd) {
        return false;
      }
      var setsockopt := kernel.Call();
      if setsockopt < 0 {
        CloseListenerSocket();
        return false;
      }
      var bind := kernel.Call();
      if bind < 0 {
        CloseListenerSocket();
        return false;
      }
      var nonBlocking := SetNonBlocking();
      if !nonBlocking {
        return false;
      }
      var listen := kernel.Call();
      if listen < 0 {
        CloseListenerSocket();
        return false;
      }
      tcpPort := newTcpPort;
      mappedTcpPort := Lookup(kernel.os, newTcpPort);
      return true;
    }

    method SetNonBlocking() returns (ok: bool)
      modifies kernel
      ensures (kernel.State(), ok) == HostSocketSpec.SetNonBlocking(kernel.os, old(kernel.State()))
    {
      var flags := kernel.Call();
      if flags < 0 {
        return false;
      }
      if (flags / O_NONBLOCK) % 2 == 1 {
        return true;
      }
      var result := kernel.Call();
      return result >= 0;
    }

    method AcceptConnection() returns (accepted: bool)
      modifies this, kernel
      ensures (State(), accepted) == HostSocketSpec.AcceptConnection(kernel.os, old(State()))
      ensures Accepted(kernel.os, old(State()), State(), accepted)
    {
      AcceptStep(kernel.os, State());
      if HaveFd(listenerSocketFd) {
        connectionSocketFd := kernel.NewFd();
        if HaveFd(connectionSocketFd) {
          CloseListenerSocket();
          canWriteToConnection, canReadFromConnection := true, true;
          return true;
        }
      }
      return false;
    }

    method DisconnectConnectionSocket() returns (ok: bool)
      modifies kernel
      ensures (State(), ok) == HostSocketSpec.DisconnectConnectionSocket(kernel.os, old(State()))
      ensures ShutDown(kernel.os, old(State()), State(), ok)
    {
      ShutDownStep(kernel.os, State());
      if HaveFd(connectionSocketFd) {
        var shutdown := kernel.Call();
        if shutdown == 0 {
          return true;
        }
      }
      return false;
    }

    method CloseConnectionSocket()
      modifies this, kernel
      ensures State() == HostSocketSpec.CloseConnectionSocket(old(State()))
    {
      if HaveFd(connectionSocketFd) {
        kernel.Close(connectionSocketFd);
      }
      connectionSocketFd := -1;
      canReadFromConnection := false;
      canWriteToConnection := false;
    }

    method CloseListenerSocket()
      modifies this, kernel
      ensures State() == HostSocketSpec.CloseListenerSocket(old(State()))
    {
      if HaveFd(listenerSocketFd) {
        kernel.Close(listenerSocketFd);
      }
      listenerSocketFd := -1;
      tcpPort := 0;
      mappedTcpPort := 0;
    }

    /** RecvInternal, without the bytes themselves; peeking makes no difference to the fields. */
    method RecvInternal() returns (size: int)
      modifies this, kernel
      ensures (State(), size) == Recv(kernel.os, old(State()))
      ensures Received(kernel.os, old(State()), State(), size)
    {
      RecvReceives(kernel.os, State());
      if !HaveFd(connectionSocketFd) || !canReadFromConnection {
        return -1;
      }
      var error := kernel.os.errno(kernel.tick);
      size := kernel.Call();
      if size > 0 {
        return size;
      }
      if size == 0 {
        canReadFromConnection := false;
        return 0;
      }
      match error {
        case TryAgain =>
        case Broken => CloseConnectionSocket();
        case Unexpected => kernel.Fail(RecvCheck);
      }
      return -1;
    }
  }

  class HostNetwork {
    const kernel: Kernel
    const sockets: seq<HostSocketInfo>

    ghost predicate Valid()
      reads this, sockets
    {
      && |sockets| == Net.MAX_SOCKETS
      && (forall i :: 0 <= i < |sockets| ==> sockets[i].kernel == kernel)
      && (forall i, j :: 0 <= i < j < |sockets| ==> sockets[i] != sockets[j])
    }

    ghost function State(): Net.Table
      requires Valid()
      reads this, sockets, kernel
    {
      Net.Table(kernel.State(),
                seq(|sockets|, i requires 0 <= i < |sockets| reads this, sockets => sockets[i].Fields()))
    }

    constructor (os: Os)
      ensures Valid() && State() == Net.NewTable() && kernel.os == os && |sockets| == 8
      ensures fresh(kernel) && fresh(sockets)
    {
      var k := new Kernel(os);
      var infos: seq<HostSocketInfo> := [];
      while |infos| < Net.MAX_SOCKETS
        invariant |infos| <= Net.MAX_SOCKETS && fresh(k) && fresh(infos)
        invariant k.os == os && k.State() == Process(0, {}, false, Running)
        invariant forall i :: 0 <= i < |infos| ==> infos[i].kernel == k && infos[i].Fields() == UNUSED
        invariant forall i, j :: 0 <= i < j < |infos| ==> infos[i] != infos[j]
      {
        var info := new HostSocketInfo(k);
        infos := infos + [info];
      }
      kernel := k;
      sockets := infos;
    }

    method FindUnusedSocket() returns (found: int)
      requires Valid() && kernel.halt == Running
      modifies kernel
      ensures Valid()
      ensures var (t, k) := Net.FindUnused(old(State()), 0);
              State() == t && found == match k { case Some(i) => i case None => -1 }
    {
      for sockNum := 0 to Net.MAX_SOCKETS
        invariant kernel.halt == Running && State() == old(State())
        invariant Net.FindUnused(State(), sockNum) == Net.FindUnused(old(State()), 0)
      {
        var unused := sockets[sockNum].IsUnused();
        if kernel.halt != Running {
          return -1;
        }
        if unused {
          return sockNum;
        }
      }
      return -1;
    }

    method InitializeTcpListenerSocket(sockNum: nat, tcpPort: uint16) returns (ok: bool)
      requires Valid() && kernel.halt == Running && sockNum < Net.MAX_SOCKETS
      modifies kernel, sockets[sockNum]
      ensures Valid()
      ensures State() == Net.Apply(kernel.os, old(State()), Net.InitializeTcpListenerSocket(sockNum, tcpPort))
      ensures Initialized(kernel.os, old(Net.At(State(), sockNum)), tcpPort, Net.At(State(), sockNum), ok)
      ensures old(Net.Conserved(State())) ==> Net.Conserved(State())
    {
      if Net.Conserved(State()) {
        Net.ApplyConserves(kernel.os, State(), Net.InitializeTcpListenerSocket(sockNum, tcpPort));
      }
      ok := sockets[sockNum].InitializeTcpListener(tcpPort);
      OthersUnchanged(sockNum);
    }

    method AcceptConnection(sockNum: nat) returns (ok: bool)
      requires Valid() && kernel.halt == Running && sockNum < Net.MAX_SOCKETS
      modifies kernel, sockets[sockNum]
      ensures Valid() && State() == Net.Apply(kernel.os, old(State()), Net.AcceptConnectionOn(sockNum))
      ensures Accepted(kernel.os, old(Net.At(State(), sockNum)), Net.At(State(), sockNum), ok)
      ensures old(Net.Conserved(State())) ==> Net.Conserved(State())
    {
      if Net.Conserved(State()) {
        Net.ApplyConserves(kernel.os, State(), Net.AcceptConnectionOn(sockNum));
      }
      ok := sockets[sockNum].AcceptConnection();
      OthersUnchanged(sockNum);
    }

    method CloseSocket(sockNum: nat)
      requires Valid() && kernel.halt == Running && sockNum < Net.MAX_SOCKETS
      modifies kernel, sockets[sockNum]
      ensures Valid() && State() == Net.Apply(kernel.os, old(State()), Net.CloseSocket(sockNum))
      ensures Held(State().slots[sockNum]) == {}
      ensures old(Net.Conserved(State())) ==> Net.Conserved(State())
    {
      if Net.Conserved(State()) {
        Net.ApplyConserves(kernel.os, State(), Net.CloseSocket(sockNum));
      }
      sockets[sockNum].CloseAll();
      OthersUnchanged(sockNum);
    }

    method SocketStatus(sockNum: nat) returns (status: Status)
      requires Valid() && kernel.halt == Running && sockNum < Net.MAX_SOCKETS
      modifies kernel, sockets[sockNum]
      ensures Valid() && State() == Net.Apply(kernel.os, old(State()), Net.SocketStatus(sockNum))
      ensures StatusRead(kernel.os, old(Net.At(State(), sockNum)), Net.At(State(), sockNum), status)
      ensures old(Net.Conserved(State())) ==> Net.Conserved(State())
    {
      if Net.Conserved(State()) {
        Net.ApplyConserves(kernel.os, State(), Net.SocketStatus(sockNum));
      }
      status := sockets[sockNum].SocketStatus();
      OthersUnchanged(sockNum);
    }

    method SocketIsTcpListener(sockNum: nat) returns (port: uint16)
      requires Valid() && kernel.halt == Running && sockNum < Net.MAX_SOCKETS
      modifies kernel
      ensures Valid() && State() == Net.Apply(kernel.os, old(State()), Net.SocketIsTcpListener(sockNum))
      ensures ListenerRead(old(Net.At(State(), sockNum)), Net.At(State(), sockNum), port)
      ensures old(Net.Conserved(State())) ==> Net.Conserved(State())
    {
      if Net.Conserved(State()) {
        Net.ApplyConserves(kernel.os, State(), Net.SocketIsTcpListener(sockNum));
      }
      port := sockets[sockNum].IsTcpListener();
      OthersUnchanged(sockNum);
    }

    method SocketIsHalfClosed(sockNum: nat) returns (halfClosed: bool)
      requires Valid() && kernel.halt == Running && sockNum < Net.MAX_SOCKETS
      modifies kernel, sockets[sockNum]
      ensures Valid() && State() == Net.Apply(kernel.os, old(State()), Net.SocketIsHalfClosed(sockNum))
      ensures HalfClosedRead(kernel.os, old(Net.At(State(), sockNum)), Net.At(State(), sockNum), halfClosed)
      ensures old(Net.Conserved(State())) ==> Net.Conserved(State())
    {
      if Net.Conserved(State()) {
        Net.ApplyConserves(kernel.os, State(), Net.SocketIsHalfClosed(sockNum));
      }
      halfClosed := sockets[sockNum].IsConnectionHalfClosed();
      OthersUnchanged(sockNum);
    }

    method DisconnectSocket(sockNum: nat) returns (ok: bool)
      requires Valid() && kernel.halt == Running && sockNum < Net.MAX_SOCKETS
      modifies kernel
      ensures Valid() && State() == Net.Apply(kernel.os, old(State()), Net.DisconnectSocket(sockNum))
      ensures ShutDown(kernel.os, old(Net.At(State(), sockNum)), Net.At(State(), sockNum), ok)
      ensures old(Net.Conserved(State())) ==> Net.Conserved(State())
    {
      if Net.Conserved(State()) {
        Net.ApplyConserves(kernel.os, State(), Net.DisconnectSocket(sockNum));
      }
      ok := sockets[sockNum].DisconnectConnectionSocket();
      OthersUnchanged(sockNum);
    }

    /** The destructor: that of every slot. */
    method Destroy()
      requires Valid()
      modifies kernel, sockets
      ensures Valid() && State() == Net.Destroy(old(State()), 0)
      ensures old(Net.Conserved(State())) ==> kernel.open == {} && !kernel.misuse
    {
      if Net.Conserved(State()) {
        Net.DestroyCloses(State(), 0);
      }
      for sockNum := 0 to Net.MAX_SOCKETS
        invariant Valid() && Net.Destroy(State(), sockNum) == Net.Destroy(old(State()), 0)
      {
        ghost var before := State();
        label Here:
        sockets[sockNum].CloseAll();
        OthersUnchanged@Here(sockNum);
        assert State() == Net.Set(before, sockNum, CloseBoth(Net.At(before, sockNum)));
      }
    }

    method Recv(sockNum: nat) returns (size: int)
      requires Valid() && kernel.halt == Running && sockNum < Net.MAX_SOCKETS
      modifies kernel, sockets[sockNum]
      ensures Valid() && State() == Net.Apply(kernel.os, old(State()), Net.ReceiveFrom(sockNum))
      ensures Received(kernel.os, old(Net.At(State(), sockNum)), Net.At(State(), sockNum), size)
      ensures old(Net.Conserved(State())) ==> Net.Conserved(State())
    {
      if Net.Conserved(State()) {
        Net.ApplyConserves(kernel.os, State(), Net.ReceiveFrom(sockNum));
      }
      size := sockets[sockNum].RecvInternal();
      OthersUnchanged(sockNum);
    }

    twostate lemma OthersUnchanged(sockNum: nat)
      requires old(Valid()) && Valid() && sockNum < Net.MAX_SOCKETS
      requires forall i :: 0 <= i < |sockets| && i != sockNum ==> sockets[i].Fields() == old(sockets[i].Fields())
      ensures State() == Net.Table(kernel.State(), old(State()).slots[sockNum := sockets[sockNum].Fields()])
    {
    }
  }
}
