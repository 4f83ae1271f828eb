/** A server's end of one TCP connection, and the listener that uses it. */
module TcpServerConnections {
  import opened Types
  import opened SocketStatus
  import opened WriteBufferedConnections
  import opened W5500
  import opened DisconnectRecord
  import opened CallbackTrace
  import opened ConnectionSpec

  /** A history variable: everything one server has done. */
  class History {
    ghost var log: seq<Event>

    constructor ()
      ensures log == []
    {
      log := [];
    }

    ghost method Add(e: Event)
      modifies this
      ensures log == old(log) + [e]
    {
      log := log + [e];
    }
  }

  class TcpServerConnection {
    const buffered: WriteBufferedConnection
    const disconnectData: DisconnectData
    const sockNum: nat
    const chip: Chip
    const history: History

    ghost predicate Valid()
      reads this, buffered, buffered.writeBuffer, buffered.client, chip
    {
      buffered.Valid() && chip.Valid() && sockNum < MAX_SOCK_NUM
    }

    ghost function Link(): Link
      reads chip, disconnectData, history
    {
      ConnectionSpec.Link(chip.State(), disconnectData.State(), history.log)
    }

    ghost function State(): Session
      requires buffered.Valid()
      reads this, buffered, buffered.writeBuffer, buffered.client, chip, disconnectData, history
    {
      Session(Link(), buffered.State())
    }

    constructor (writeBuffer: array<Byte>, client: Client, sockNum: nat,
                 disconnectData: DisconnectData, chip: Chip, history: History)
      requires writeBuffer.Length == WRITE_BUFFER_SIZE
      requires client.calls == [] && client.received == []
      requires chip.Valid() && sockNum < MAX_SOCK_NUM
      modifies disconnectData
      ensures Valid()
      ensures State() == OpenSession(old(ConnectionSpec.Link(chip.State(), disconnectData.State(), history.log)))
      ensures fresh(buffered) && buffered.writeBuffer == writeBuffer && buffered.client == client
      ensures this.sockNum == sockNum && this.disconnectData == disconnectData
      ensures this.chip == chip && this.history == history
    {
      buffered := new WriteBufferedConnection(writeBuffer, WRITE_BUFFER_SIZE as uint8, client);
      this.sockNum, this.disconnectData, this.chip, this.history := sockNum, disconnectData, chip, history;
      new;
      disconnectData.ResetData();
    }

    method Close(ghost byListener: bool)
      requires Valid()
      modifies buffered, buffered.writeBuffer, buffered.client, chip, disconnectData, history
      ensures Valid()
      ensures State() == CloseConn(chip.world, sockNum, old(State()), buffered.client.respond, byListener)
      ensures Closes(chip.world, sockNum, old(State()), buffered.client.respond, byListener, State())
      ensures ChipLeaves(chip.world, sockNum) ==> SendsFin(old(chip.State()), chip.State(), sockNum)
    {
      CloseSendsFin(chip.world, sockNum, State(), buffered.client.respond, byListener);
      CloseConnCloses(chip.world, sockNum, State(), buffered.client.respond, byListener);
      HangUp(byListener);
      disconnectData.RecordDisconnect(chip);
      if byListener {
        history.Add(ListenerClose);
      }
    }

    /** Close, up to where all its paths meet. */
    method HangUp(ghost byListener: bool)
      requires Valid()
      modifies buffered, buffered.writeBuffer, buffered.client, chip, history
      ensures Valid()
      ensures State() == ConnectionSpec.HangUp(chip.world, sockNum, old(State()), buffered.client.respond, byListener)
    {
      var status := chip.Status(sockNum);
      if StatusIsOpen(status) {
        buffered.FlushBuffer();
        status := chip.Status(sockNum);
        if StatusIsOpen(status) {
          chip.Discon(sockNum);
          history.Add(Discon(byListener, chip.socks[sockNum].unread, TallyOf(buffered.State())));
          status := chip.Status(sockNum);
        }
      }
    }

    /** The destructor. */
    method Destroy()
      requires Valid()
      modifies buffered, buffered.writeBuffer, buffered.client, history
      ensures Link() == ConnectionSpec.Destroy(old(State()), buffered.client.respond)
    {
      buffered.FlushBuffer();
      history.Add(Destroyed(TallyOf(buffered.State())));
    }
  }

  /** A listener, which does in each callback what the world's script for that moment says. */
  class Listener {
    const history: History

    constructor (history: History)
      ensures this.history == history
    {
      this.history := history;
    }

    method OnConnect(conn: TcpServerConnection)
      requires conn.Valid() && conn.history == history
      modifies conn.buffered, conn.buffered.writeBuffer, conn.buffered.client
      modifies conn.chip, conn.disconnectData, history
      ensures conn.Valid()
      ensures conn.State() == Callback(conn.chip.world, conn.sockNum, old(conn.State()),
                                       conn.buffered.client.respond, Event.OnConnect)
    {
      history.Add(Event.OnConnect);
      Use(conn, conn.chip.world.script(conn.chip.tick));
    }

    method OnCanRead(conn: TcpServerConnection)
      requires conn.Valid() && conn.history == history
      modifies conn.buffered, conn.buffered.writeBuffer, conn.buffered.client
      modifies conn.chip, conn.disconnectData, history
      ensures conn.Valid()
      ensures conn.State() == Callback(conn.chip.world, conn.sockNum, old(conn.State()),
                                       conn.buffered.client.respond, Event.OnCanRead)
    {
      history.Add(Event.OnCanRead);
      Use(conn, conn.chip.world.script(conn.chip.tick));
    }

    method OnDisconnect()
      modifies history
      ensures history.log == old(history.log) + [Event.OnDisconnect]
    {
      history.Add(Event.OnDisconnect);
    }

    method Use(conn: TcpServerConnection, script: seq<Action>)
      requires conn.Valid()
      modifies conn.buffered, conn.buffered.writeBuffer, conn.buffered.client
      modifies conn.chip, conn.disconnectData, conn.history
      ensures conn.Valid()
      ensures conn.State() == RunScript(conn.chip.world, conn.sockNum, old(conn.State()),
                                        conn.buffered.client.respond, script)
    {
      var w, k, f := conn.chip.world, conn.sockNum, conn.buffered.client.respond;
      var i := 0;
      assert script[0..] == script;
      while i < |script|
        invariant 0 <= i <= |script| && conn.Valid()
        invariant RunScript(w, k, conn.State(), f, script[i..]) == RunScript(w, k, old(conn.State()), f, script)
      {
        assert script[i..][0] == script[i] && script[i..][1..] == script[i + 1..];
        match script[i] {
          case Write(data) => var _ := conn.buffered.Write(data);
          case WriteByte(b) => var _ := conn.buffered.WriteByte(b);
          case Flush => conn.buffered.FlushBuffer();
          case Read(count) => conn.chip.Receive(k, count);
          case Close => conn.Close(true);
        }
        i := i + 1;
      }
    }
  }
}
