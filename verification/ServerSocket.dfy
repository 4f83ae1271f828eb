/** ServerSocket: binds a hardware socket to a port and turns its status into callbacks. */
module ServerSockets {
  import opened Types
  import opened SocketStatus
  import opened WriteBufferedConnections
  import opened W5500
  import opened DisconnectRecord
  import opened CallbackTrace
  import opened ConnectionSpec
  import opened TcpServerConnections
  import opened ServerFrames
  import opened ServerProtocol
  import opened ServerCallbacks
  import PN = PlatformNetwork
  import Spec = ServerSocketSpec

  class ServerSocket {
    var sockNum: nat
    var lastStatus: Status
    const listener: Listener
    const tcpPort: uint16
    const disconnectData: DisconnectData
    const chip: Chip
    const history: History

    ghost predicate Valid()
      reads this, chip
    {
      chip.Valid() && sockNum <= MAX_SOCK_NUM && listener.history == history
    }

    ghost function State(): Spec.St
      reads this, chip, disconnectData, history
    {
      Spec.St(Link(chip.State(), disconnectData.State(), history.log), sockNum, lastStatus, tcpPort)
    }

    constructor (tcpPort: uint16, listener: Listener, chip: Chip)
      requires chip.Valid()
      requires listener.history.log == []
      ensures Valid() && State() == Spec.NewServer(chip.State(), tcpPort)
      ensures this.chip == chip && this.listener == listener && fresh(disconnectData)
    {
      sockNum, lastStatus := MAX_SOCK_NUM, CLOSED;
      this.listener, this.tcpPort, this.chip, this.history := listener, tcpPort, chip, listener.history;
      disconnectData := new DisconnectData();
    }

    predicate HasSocket()
      reads this
    {
      sockNum < MAX_SOCK_NUM
    }

    method IsConnected() returns (connected: bool)
      requires Valid()
      modifies chip
      ensures Valid()
      ensures !HasSocket() ==> !connected && State() == old(State())
      ensures HasSocket() ==>
                State() == Spec.Poll(chip.world, old(State()))
                && (connected <==> State().Reg() in {SYNRECV, ESTABLISHED, CLOSE_WAIT, FIN_WAIT, CLOSING, TIME_WAIT,
                                                     LAST_ACK, INIT, SYNSENT})
    {
      if HasSocket() {
        connected := PN.SocketIsInTcpConnectionLifecycle(chip, sockNum);
      } else {
        connected := false;
      }
    }

    method PickClosedSocket() returns (picked: bool)
      requires Valid()
      modifies this`sockNum, this`lastStatus, chip, history
      ensures Valid() && (State(), picked) == Spec.PickClosedSocket(chip.world, old(State()))
      ensures KeepsInv(chip.world, old(State()), State())
      ensures PickAnswers(chip.world, old(State()), State(), picked)
    {
      DoKeeps(chip.world, State(), Pick);
      PickSucceedsExactly(chip.world, State());
      if HasSocket() {
        return false;
      }
      lastStatus := CLOSED;
      var found := PN.FindUnusedSocket(chip);
      if 0 <= found < MAX_SOCK_NUM {
        sockNum := found;
        var ok := BeginListening(false);
        if ok {
          lastStatus := chip.Status(sockNum);
          NoteUnsettled(true);
          return true;
        }
        sockNum := MAX_SOCK_NUM;
      }
      return false;
    }

    method ReleaseSocket() returns (released: bool)
      requires Valid()
      modifies this`sockNum, this`lastStatus, chip, history
      ensures Valid() && (State(), released) == Spec.ReleaseSocket(chip.world, old(State()))
      ensures KeepsInv(chip.world, old(State()), State())
      ensures ReleaseAnswers(chip.world, old(State()), State(), released)
    {
      DoKeeps(chip.world, State(), Release);
      ReleaseExact(chip.world, State());
      if HasSocket() {
        var connected := IsConnected();
        if connected {
          return false;
        }
        ghost var last := lastStatus;
        CloseHardwareSocket(true);
        if StatusIsOpen(last) {
          history.Add(Abandoned);
        }
        sockNum := MAX_SOCK_NUM;
      }
      return true;
    }

    method SocketLost()
      requires Valid()
      modifies this`sockNum, this`lastStatus, disconnectData, history
      ensures Valid() && State() == Spec.SocketLost(chip.world, old(State()))
      ensures KeepsInv(chip.world, old(State()), State())
    {
      DoKeeps(chip.world, State(), Lost);
      if HasSocket() && StatusIsOpen(lastStatus) {
        listener.OnDisconnect();
      }
      sockNum := MAX_SOCK_NUM;
      lastStatus := CLOSED;
      disconnectData.RecordDisconnect(chip);
    }

    method BeginListening(ghost final: bool) returns (listening: bool)
      requires Valid()
      modifies this`lastStatus, chip, history
      ensures Valid() && (State(), listening) == Spec.BeginListening(chip.world, old(State()), final)
      ensures Begins(chip.world, old(State()), State(), listening)
    {
      BeginListeningBegins(chip.world, State(), final);
      if !HasSocket() {
        return false;
      }
      var port := PN.SocketIsTcpListener(chip, sockNum);
      if tcpPort == port {
        lastStatus := chip.Status(sockNum);
        return true;
      }
      var connected := IsConnected();
      if connected {
        return false;
      }
      var ok := Listen();
      if ok {
        lastStatus := chip.Status(sockNum);
        NoteUnsettled(final);
        return true;
      }
      return false;
    }

    /** The part of BeginListening for a socket that may be closed. */
    method Listen() returns (ok: bool)
      requires Valid() && HasSocket()
      modifies this`lastStatus, chip, history
      ensures Valid() && (State(), ok) == Spec.Listen(chip.world, old(State()))
    {
      CloseHardwareSocket(false);
      ok := PN.InitializeTcpListenerSocket(chip, sockNum, tcpPort);
    }

    method PerformIO()
      requires Valid()
      modifies this`lastStatus, chip, disconnectData, history
      ensures Valid() && State() == Spec.PerformIO(chip.world, old(State()))
      ensures KeepsInv(chip.world, old(State()), State())
      ensures Callbacks(history.log) <= old(Callbacks(history.log)) + 1
    {
      DoKeeps(chip.world, State(), Perform);
      AtMostOneCallback(chip.world, State());
      if !HasSocket() {
        return;
      }
      var status := chip.Status(sockNum);
      var isOpen := StatusIsOpen(status);
      var pastStatus := lastStatus;
      var wasOpen := StatusIsOpen(pastStatus);
      lastStatus := status;
      if wasOpen && !isOpen {
        if !disconnectData.disconnected {
          disconnectData.RecordDisconnect(chip);
          listener.OnDisconnect();
        }
        return;
      }
      HandleStatus(status, pastStatus);
    }

    /** The switch of PerformIO. */
    method HandleStatus(status: Status, pastStatus: Status)
      requires Valid() && HasSocket() && lastStatus == status
      modifies this`lastStatus, chip, disconnectData, history
      ensures Valid() && State() == Spec.HandleStatus(chip.world, old(State()), pastStatus)
    {
      var wasOpen := StatusIsOpen(pastStatus);
      if status == CLOSED {
        var _ := BeginListening(true);
      } else if status == LISTEN {
        Check(pastStatus == LISTEN, 180);
      } else if status == SYNRECV {
        Check(pastStatus == LISTEN, 193);
        lastStatus := LISTEN;
      } else if status == ESTABLISHED {
        if !wasOpen {
          Check(pastStatus == LISTEN, 200);
          AnnounceConnected();
        } else {
          Check(pastStatus == ESTABLISHED, 204);
          AnnounceCanRead();
        }
      } else if status == CLOSE_WAIT {
        if !wasOpen {
          Check(pastStatus == LISTEN, 213);
          AnnounceConnected();
        } else {
          HandleCloseWait();
        }
      } else if StatusIsClosing(status) {
        Check(wasOpen || StatusIsClosing(pastStatus), 229);
        DetectCloseTimeout();
      } else if status == INIT {
        Check(false, 241);
        if pastStatus == INIT {
          CloseHardwareSocket(false);
        }
      } else if StatusIsForeign(status) {
        Check(false, 262);
        CloseHardwareSocket(false);
      } else {
        lastStatus := pastStatus;
      }
    }

    /** A connection over the held socket, with its own buffer and client. */
    method NewConnection() returns (conn: TcpServerConnection)
      requires Valid() && HasSocket()
      modifies disconnectData
      ensures conn.Valid() && conn.State() == OpenSession(old(State().link))
      ensures conn.sockNum == sockNum && conn.disconnectData == disconnectData
      ensures conn.chip == chip && conn.history == history
      ensures conn.buffered.client.respond == chip.world.client(chip.tick)
      ensures fresh(conn) && fresh(conn.buffered) && fresh(conn.buffered.writeBuffer) && fresh(conn.buffered.client)
    {
      var client := new Client(chip.world.client(chip.tick));
      var writeBuffer := new Byte[WRITE_BUFFER_SIZE];
      conn := new TcpServerConnection(writeBuffer, client, sockNum, disconnectData, chip, history);
    }

    method AnnounceConnected()
      requires Valid() && HasSocket()
      modifies this`lastStatus, chip, disconnectData, history
      ensures Valid() && State() == Spec.AnnounceNew(chip.world, old(State()), OnConnect)
    {
      var conn := NewConnection();
      listener.OnConnect(conn);
      DetectListenerInitiatedDisconnect();
      conn.Destroy();
    }

    method AnnounceCanRead()
      requires Valid() && HasSocket()
      modifies this`lastStatus, chip, disconnectData, history
      ensures Valid() && State() == Spec.AnnounceNew(chip.world, old(State()), OnCanRead)
    {
      var conn := NewConnection();
      listener.OnCanRead(conn);
      DetectListenerInitiatedDisconnect();
      conn.Destroy();
    }

    method HandleCloseWait()
      requires Valid() && HasSocket()
      modifies this`lastStatus, chip, disconnectData, history
      ensures Valid() && State() == Spec.HandleCloseWait(chip.world, old(State()))
      ensures CloseWaitHandled(chip.world, old(State()), State())
    {
      ghost var was := State();
      var conn := NewConnection();
      var available := chip.Available(sockNum);
      if available > 0 {
        listener.OnCanRead(conn);
        DetectListenerInitiatedDisconnect();
      } else {
        CloseDrained(conn);
      }
      conn.Destroy();
      assert CloseWaitHandled(chip.world, was, Spec.HandleCloseWait(chip.world, was)) by {
        CloseWaitKeeps(chip.world, was);
      }
    }

    /** The part of HandleCloseWait for a connection with nothing left to read. */
    method CloseDrained(conn: TcpServerConnection)
      requires Valid() && HasSocket() && conn.Valid()
      requires conn.sockNum == sockNum && conn.chip == chip
      requires conn.disconnectData == disconnectData && conn.history == history
      modifies this`lastStatus, chip, disconnectData, history
      modifies conn.buffered, conn.buffered.writeBuffer, conn.buffered.client
      ensures Valid() && conn.Valid()
      ensures var done := CloseConn(chip.world, sockNum, old(conn.State()), conn.buffered.client.respond, false);
              var s := Spec.PollLast(chip.world, old(State()).(link := done.link));
              && conn.buffered.State() == done.conn
              && State() == s.(link := Say(s.link, OnDisconnect))
    {
      conn.Close(false);
      lastStatus := chip.Status(sockNum);
      listener.OnDisconnect();
    }

    method DetectListenerInitiatedDisconnect()
      requires Valid() && HasSocket()
      modifies this`lastStatus, chip
      ensures Valid()
      ensures State() == Spec.DetectListenerInitiatedDisconnect(chip.world, old(State()))
    {
      if disconnectData.disconnected {
        var newStatus := chip.Status(sockNum);
        lastStatus := newStatus;
      }
    }

    method DetectCloseTimeout()
      requires Valid() && HasSocket()
      modifies this`lastStatus, chip, history
      ensures Valid() && State() == Spec.DetectCloseTimeout(chip.world, old(State()))
    {
      if disconnectData.disconnected {
        var elapsed := disconnectData.ElapsedDisconnectTime(chip);
        if elapsed > Spec.DISCONNECT_MAX_MILLIS {
          CloseHardwareSocket(false);
        }
      }
    }

    method CloseHardwareSocket(ghost releasing: bool)
      requires Valid() && HasSocket()
      modifies this`lastStatus, chip, history
      ensures Valid() && State() == Spec.CloseHardwareSocket(chip.world, old(State()), releasing)
    {
      ghost var seen := chip.socks[sockNum].status;
      ghost var hit := Access(chip.world, chip.State(), sockNum).socks[sockNum].status;
      chip.Close(sockNum);
      history.Add(ForcedClose(seen, hit, releasing));
      lastStatus := chip.Status(sockNum);
      Check(lastStatus == CLOSED, 357);
    }

    /** MCU_DCHECK: a failed check is recorded and execution goes on, as in a release build. */
    ghost method Check(ok: bool, line: nat)
      requires Valid()
      modifies history
      ensures Valid() && State() == Spec.Check(old(State()), ok, line)
    {
      if !ok {
        history.Add(CheckFailed(line));
      }
    }

    /** The check after a listen, which only the first of the two re-reads really has. */
    ghost method NoteUnsettled(final: bool)
      requires Valid()
      modifies history
      ensures Valid() && State() == Spec.NoteUnsettled(old(State()), final)
    {
      if lastStatus != LISTEN {
        history.Add(Unsettled(lastStatus, final));
      }
    }
  }
}
