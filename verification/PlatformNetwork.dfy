/** The W5500 branches of PlatformNetwork: the operations servers use on hardware sockets. */
module PlatformNetwork {
  import opened Types
  import opened SocketStatus
  import opened W5500

  /** FindUnusedSocket from socket k on: reads one status after the other, up to a closed one. */
  function FindUnused(w: World, n: Net, k: nat): (r: (Net, Option<nat>))
    requires ValidNet(n) && k <= MAX_SOCK_NUM
    ensures ValidNet(r.0)
    ensures r.1.Some? ==> k <= r.1.value < MAX_SOCK_NUM && r.0.socks[r.1.value].status == CLOSED
    decreases MAX_SOCK_NUM - k
  {
    if k == MAX_SOCK_NUM then (n, None)
    else
      var n1 := Access(w, n, k);
      if n1.socks[k].status == CLOSED then (n1, Some(k)) else FindUnused(w, n1, k + 1)
  }

  /** InitializeTcpListenerSocket: a socket once used for a port is never used for another. */
  function InitializeListener(w: World, n: Net, k: nat, port: uint16): (r: (Net, bool))
    requires ValidNet(n) && k < MAX_SOCK_NUM
    ensures ValidNet(r.0)
  {
    var n1 := Access(w, n, k);
    var sock := n1.socks[k];
    if sock.status == CLOSED && (sock.serverPort == port || sock.serverPort == 0) then
      (OpenListener(w, n1, k, port), true)
    else
      (n1, false)
  }

  /** Which port, if any, a socket listens to, given a fresh look at it. */
  function ListenerPort(s: Sock): uint16 {
    if s.status == LISTEN then s.serverPort else 0
  }

  /** Looking for a socket leaves each one as the chip itself may have moved it, and whichever is
      found is the first one closed at the moment it was looked at. */
  lemma {:induction false} FindUnusedDrifts(w: World, n: Net, k: nat)
    requires ValidNet(n) && k <= MAX_SOCK_NUM
    ensures var (r, found) := FindUnused(w, n, k);
            && Drifted(n, r, MAX_SOCK_NUM)
            && (forall j :: 0 <= j < k ==> r.socks[j] == n.socks[j])
            && (forall j :: k <= j < (if found.Some? then found.value else MAX_SOCK_NUM) ==>
                  r.socks[j].status != CLOSED)
    decreases MAX_SOCK_NUM - k
  {
    if k < MAX_SOCK_NUM {
      var n1 := Access(w, n, k);
      if n1.socks[k].status != CLOSED {
        FindUnusedDrifts(w, n1, k + 1);
      }
    }
  }

  method FindUnusedSocket(chip: Chip) returns (found: int)
    requires chip.Valid()
    modifies chip
    ensures chip.Valid()
    ensures var (n, k) := FindUnused(chip.world, old(chip.State()), 0);
            chip.State() == n && found == match k { case Some(j) => j case None => -1 }
  {
    for sockNum := 0 to MAX_SOCK_NUM
      invariant chip.Valid()
      invariant FindUnused(chip.world, chip.State(), sockNum) == FindUnused(chip.world, old(chip.State()), 0)
    {
      var closed := SocketIsClosed(chip, sockNum);
      if closed {
        return sockNum;
      }
    }
    return -1;
  }

  method SocketIsClosed(chip: Chip, sockNum: nat) returns (closed: bool)
    requires chip.Valid() && sockNum < MAX_SOCK_NUM
    modifies chip
    ensures chip.Valid() && chip.State() == Access(chip.world, old(chip.State()), sockNum)
    ensures closed <==> chip.socks[sockNum].status == CLOSED
  {
    var status := chip.Status(sockNum);
    return status == CLOSED;
  }

  method SocketIsTcpListener(chip: Chip, sockNum: nat) returns (port: uint16)
    requires chip.Valid() && sockNum < MAX_SOCK_NUM
    modifies chip
    ensures chip.Valid() && chip.State() == Access(chip.world, old(chip.State()), sockNum)
    ensures port == ListenerPort(chip.socks[sockNum])
  {
    var status := chip.Status(sockNum);
    if status == LISTEN {
      return chip.socks[sockNum].serverPort;
    }
    return 0;
  }

  method SocketIsInTcpConnectionLifecycle(chip: Chip, sockNum: nat) returns (r: bool)
    requires chip.Valid() && sockNum < MAX_SOCK_NUM
    modifies chip
    ensures chip.Valid() && chip.State() == Access(chip.world, old(chip.State()), sockNum)
    ensures r <==> StatusIsInTcpConnectionLifecycle(chip.socks[sockNum].status)
  {
    var status := chip.Status(sockNum);
    return StatusIsInTcpConnectionLifecycle(status);
  }

  method InitializeTcpListenerSocket(chip: Chip, sockNum: nat, tcpPort: uint16) returns (ok: bool)
    requires chip.Valid() && sockNum < MAX_SOCK_NUM
    modifies chip
    ensures chip.Valid()
    ensures (chip.State(), ok) == InitializeListener(chip.world, old(chip.State()), sockNum, tcpPort)
    ensures var was, now := old(chip.socks[sockNum]), chip.socks[sockNum];
            && (if ok then now.serverPort == tcpPort && now.unread == 0 else SockDrifted(was, now))
            && (ok ==> was.serverPort == 0 || was.serverPort == tcpPort)
            && (was.status == CLOSED && (was.serverPort == 0 || was.serverPort == tcpPort) ==> ok)
    ensures forall j :: 0 <= j < MAX_SOCK_NUM && j != sockNum ==> chip.socks[j] == old(chip.socks[j])
  {
    var status := chip.Status(sockNum);
    if status == CLOSED {
      var used := chip.socks[sockNum].serverPort;
      if used == tcpPort || used == 0 {
        chip.Listen(sockNum, tcpPort);
        return true;
      }
    }
    return false;
  }
}
