/** The environment of a server: the network chip, the clock, and what clients and listeners
    will do. Nothing here is code of the repository; it is what that code runs against. */
module W5500 {
  import opened Types
  import opened SocketStatus
  import opened WriteBufferSpec

  const MAX_SOCK_NUM: nat := 8

  /** A hardware socket: its status register, the port last given to `listen` on it (the
      driver's `_server_port`), and the number of received bytes not yet read. */
  datatype Sock = Sock(status: Status, serverPort: uint16, unread: nat)

  datatype Net = Net(tick: nat, socks: seq<Sock>)

  /** Something a listener does with its connection inside a callback. */
  datatype Action = Write(data: seq<Byte>) | WriteByte(b: Byte) | Flush | Read(count: nat) | Close

  datatype Move = Move(status: Status, arrived: nat)

  /** Everything outside the code's control, as functions of the tick, which counts accesses to
      the chip: a theorem for every world is a theorem for every environment.
      - move(t, k): where the chip takes socket k, and how many bytes arrive on it, by tick t
      - listens(t): the status an open-and-listen command at tick t leaves behind
      - time(t): real time in milliseconds at tick t
      - client(t), script(t): the client and the listener of a callback that starts at tick t */
  datatype World = World(
    move: (nat, nat) -> Move,
    listens: nat -> Status,
    time: nat -> nat,
    client: nat -> ClientFn,
    script: nat -> seq<Action>)

  ghost predicate TimeMoves(w: World) {
    forall s: nat, t: nat :: s <= t ==> w.time(s) <= w.time(t)
  }

  /** millis(): the low 32 bits of real time. */
  function Millis(w: World, n: Net): uint32 {
    (w.time(n.tick) % TWO_TO_THE_32) as uint32
  }

  predicate MayReceive(status: Status) {
    StatusIsPassive(status) || status == ESTABLISHED || status == FIN_WAIT || status == SYNSENT
  }

  /** A socket after the chip has moved on its own; a move it cannot make is no move. */
  function Moved(s: Sock, m: Move): (r: Sock)
    ensures Reach(s.status, r.status) && r.serverPort == s.serverPort
    ensures s.unread <= r.unread
    ensures !MayReceive(s.status) ==> r.unread == s.unread
  {
    if Reach(s.status, m.status) then
      Sock(m.status, s.serverPort, if MayReceive(s.status) then s.unread + m.arrived else s.unread)
    else
      s
  }

  ghost predicate ValidNet(n: Net) {
    |n.socks| == MAX_SOCK_NUM
  }

  /** Any access to socket k lets the chip move first. Reading the status register is this
      access and no more: the value read is the status in the result. */
  function Access(w: World, n: Net, k: nat): (r: Net)
    requires k < |n.socks|
    ensures |r.socks| == |n.socks| && r.tick == n.tick + 1
  {
    Net(n.tick + 1, n.socks[k := Moved(n.socks[k], w.move(n.tick, k))])
  }

  /** DISCON: send a FIN. Ignored unless a connection is open. */
  function Disconnected(s: Sock): Sock {
    if s.status == ESTABLISHED then s.(status := FIN_WAIT)
    else if s.status == CLOSE_WAIT then s.(status := LAST_ACK)
    else s
  }

  function DisconSocket(w: World, n: Net, k: nat): (r: Net)
    requires k < |n.socks|
    ensures |r.socks| == |n.socks|
  {
    var n1 := Access(w, n, k);
    n1.(socks := n1.socks[k := Disconnected(n1.socks[k])])
  }

  function CloseSocket(w: World, n: Net, k: nat): (r: Net)
    requires k < |n.socks|
    ensures |r.socks| == |n.socks|
  {
    var n1 := Access(w, n, k);
    n1.(socks := n1.socks[k := n1.socks[k].(status := CLOSED)])
  }

  /** ::socket and ::listen. Neither reports an error, so the status left behind is the world's:
      LISTEN if both worked. */
  function OpenListener(w: World, n: Net, k: nat, port: uint16): (r: Net)
    requires k < |n.socks|
    ensures |r.socks| == |n.socks|
  {
    n.(tick := n.tick + 1, socks := n.socks[k := Sock(w.listens(n.tick), port, 0)])
  }

  function ReadBytes(w: World, n: Net, k: nat, count: nat): (r: Net)
    requires k < |n.socks|
    ensures |r.socks| == |n.socks|
  {
    var n1 := Access(w, n, k);
    n1.(socks := n1.socks[k := n1.socks[k].(unread := n1.socks[k].unread - Min(count, n1.socks[k].unread))])
  }

  /** What can have become of a socket that only the chip has touched: its bytes waiting to be
      read stay, and no more come once the peer has closed. */
  predicate SockDrifted(a: Sock, b: Sock) {
    && Reach(a.status, b.status)
    && a.serverPort == b.serverPort
    && (!MayReceive(a.status) ==> b.unread == a.unread)
  }

  /** How the chip may look after activity that leaves socket `except` to someone else: every
      other socket has at most moved on its own. Pass MAX_SOCK_NUM to except none. */
  ghost predicate Drifted(a: Net, b: Net, except: nat) {
    && |a.socks| == |b.socks| && a.tick <= b.tick
    && forall j :: 0 <= j < |a.socks| && j != except ==> SockDrifted(a.socks[j], b.socks[j])
  }

  class Chip {
    const world: World
    var tick: nat
    var socks: seq<Sock>

    ghost predicate Valid()
      reads this
    {
      |socks| == MAX_SOCK_NUM
    }

    function State(): Net
      reads this
    {
      Net(tick, socks)
    }

    /** A chip out of reset: every socket closed, none ever used for a port. */
    constructor (world: World)
      ensures Valid() && this.world == world
      ensures State() == Net(0, seq(8, _ => Sock(CLOSED, 0, 0)))
    {
      this.world := world;
      tick := 0;
      socks := seq(MAX_SOCK_NUM, _ => Sock(CLOSED, 0, 0));
    }

    method Advance(k: nat)
      requires Valid() && k < MAX_SOCK_NUM
      modifies this
      ensures Valid() && State() == Access(world, old(State()), k)
    {
      socks := socks[k := Moved(socks[k], world.move(tick, k))];
      tick := tick + 1;
    }

    method Status(k: nat) returns (status: Status)
      requires Valid() && k < MAX_SOCK_NUM
      modifies this
      ensures Valid() && State() == Access(world, old(State()), k) && status == socks[k].status
    {
      Advance(k);
      status := socks[k].status;
    }

    method Available(k: nat) returns (count: nat)
      requires Valid() && k < MAX_SOCK_NUM
      modifies this
      ensures Valid() && State() == Access(world, old(State()), k) && count == socks[k].unread
    {
      Advance(k);
      count := socks[k].unread;
    }

    method Discon(k: nat)
      requires Valid() && k < MAX_SOCK_NUM
      modifies this
      ensures Valid() && State() == DisconSocket(world, old(State()), k)
    {
      Advance(k);
      socks := socks[k := Disconnected(socks[k])];
    }

    method Close(k: nat)
      requires Valid() && k < MAX_SOCK_NUM
      modifies this
      ensures Valid() && State() == CloseSocket(world, old(State()), k)
    {
      Advance(k);
      socks := socks[k := socks[k].(status := CLOSED)];
    }

    method Listen(k: nat, port: uint16)
      requires Valid() && k < MAX_SOCK_NUM
      modifies this
      ensures Valid() && State() == OpenListener(world, old(State()), k, port)
    {
      socks := socks[k := Sock(world.listens(tick), port, 0)];
      tick := tick + 1;
    }

    method Receive(k: nat, count: nat)
      requires Valid() && k < MAX_SOCK_NUM
      modifies this
      ensures Valid() && State() == ReadBytes(world, old(State()), k, count)
    {
      Advance(k);
      socks := socks[k := socks[k].(unread := socks[k].unread - Min(count, socks[k].unread))];
    }
  }
}
