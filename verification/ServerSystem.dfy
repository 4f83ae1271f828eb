/** Any number of servers sharing the chip, and what holds in every run of them. */
module ServerSystem {
  import opened Types
  import opened SocketStatus
  import opened W5500
  import opened DisconnectRecord
  import opened CallbackTrace
  import opened ConnectionSpec
  import opened ServerSocketSpec
  import opened ServerFrames
  import opened ServerProtocol

  datatype Server = Server(disc: Disconnection, log: seq<Event>, sock: nat, last: Status, port: uint16)

  datatype System = System(net: Net, servers: seq<Server>)

  /** One public call on server i. */
  datatype Step = Step(i: nat, op: Op)

  function View(y: System, i: nat): St
    requires i < |y.servers|
  {
    var v := y.servers[i];
    St(Link(y.net, v.disc, v.log), v.sock, v.last, v.port)
  }

  ghost predicate ValidSystem(y: System) {
    forall i :: 0 <= i < |y.servers| ==> View(y, i).Valid()
  }

  function Put(y: System, i: nat, s: St): System
    requires i < |y.servers|
  {
    System(s.link.net, y.servers[i := Server(s.link.disc, s.link.log, s.sock, s.last, s.port)])
  }

  function Take(w: World, y: System, step: Step): (r: System)
    requires ValidSystem(y)
    ensures ValidSystem(r) && |r.servers| == |y.servers|
  {
    if step.i < |y.servers| then
      var r := Put(y, step.i, Do(w, View(y, step.i), step.op));
      assert forall j :: 0 <= j < |y.servers| && j != step.i ==> r.servers[j] == y.servers[j] && View(y, j).Valid();
      r
    else y
  }

  function Run(w: World, y: System, steps: seq<Step>): (r: System)
    requires ValidSystem(y)
    ensures ValidSystem(r) && |r.servers| == |y.servers|
    decreases |steps|
  {
    if |steps| == 0 then y else Run(w, Take(w, y, steps[0]), steps[1..])
  }

  /** The chip out of reset and one new server per port. */
  function Boot(ports: seq<uint16>): (y: System)
    ensures ValidSystem(y) && |y.servers| == |ports|
  {
    System(Net(0, seq(MAX_SOCK_NUM, _ => Sock(CLOSED, 0, 0))),
           seq(|ports|, i requires 0 <= i < |ports| => Server(NEVER_CONNECTED, [], MAX_SOCK_NUM, CLOSED, ports[i])))
  }

  // Who owns a hardware socket.

  ghost predicate Owned(y: System) {
    && ValidSystem(y)
    && forall i :: 0 <= i < |y.servers| ==> y.servers[i].port > 0 && Affinity(View(y, i))
  }

  lemma TakeOwned(w: World, y: System, step: Step)
    requires Owned(y)
    ensures Owned(Take(w, y, step)) && PortsSticky(y.net, Take(w, y, step).net)
    ensures forall j :: 0 <= j < |y.servers| ==> Take(w, y, step).servers[j].port == y.servers[j].port
  {
    if step.i < |y.servers| {
      var s := View(y, step.i);
      DoFrame(w, s, step.op);
      var r := Take(w, y, step);
      assert View(r, step.i) == Do(w, s, step.op);
      AffinityKept(w, s, step.op);
      forall j | 0 <= j < |y.servers| && j != step.i ensures Affinity(View(r, j)) {
        assert Affinity(View(y, j)) && r.servers[j] == y.servers[j];
      }
    }
  }

  lemma AffinityKept(w: World, s: St, op: Op)
    requires s.Valid() && s.port > 0 && Affinity(s)
    ensures Affinity(Do(w, s, op))
  {
    DoFrame(w, s, op);
  }

  /** A socket once used for a port is never used for another. */
  ghost predicate PortsSticky(a: Net, b: Net) {
    && |a.socks| == |b.socks|
    && forall k :: 0 <= k < |a.socks| && a.socks[k].serverPort != 0 ==> b.socks[k].serverPort == a.socks[k].serverPort
  }

  lemma {:induction false} RunOwned(w: World, y: System, steps: seq<Step>)
    requires Owned(y)
    ensures Owned(Run(w, y, steps)) && PortsSticky(y.net, Run(w, y, steps).net)
    ensures forall j :: 0 <= j < |y.servers| ==> Run(w, y, steps).servers[j].port == y.servers[j].port
    decreases |steps|
  {
    if |steps| > 0 {
      TakeOwned(w, y, steps[0]);
      RunOwned(w, Take(w, y, steps[0]), steps[1..]);
    }
  }

  ghost predicate PortsPositive(ports: seq<uint16>) {
    forall i :: 0 <= i < |ports| ==> ports[i] > 0
  }

  ghost predicate PortsDistinct(ports: seq<uint16>) {
    forall i, j :: 0 <= i < j < |ports| ==> ports[i] != ports[j]
  }

  /** In no run, whatever the chip, the clock and the listeners do, do two servers with different
      ports hold the same hardware socket. */
  lemma SocketsAreExclusive(w: World, ports: seq<uint16>, steps: seq<Step>, i: nat, j: nat)
    requires PortsPositive(ports) && i < |ports| && j < |ports| && ports[i] != ports[j]
    ensures var y := Run(w, Boot(ports), steps);
            View(y, i).HasSocket() && View(y, j).HasSocket() ==> y.servers[i].sock != y.servers[j].sock
  {
    BootOwned(ports);
    RunOwned(w, Boot(ports), steps);
    var y := Run(w, Boot(ports), steps);
    assert Affinity(View(y, i)) && Affinity(View(y, j));
  }

  lemma BootOwned(ports: seq<uint16>)
    requires PortsPositive(ports)
    ensures Owned(Boot(ports))
  {
  }

  // The callback protocol.

  ghost predicate SystemInv(w: World, y: System) {
    && ValidSystem(y)
    && (forall i :: 0 <= i < |y.servers| ==> Inv(w, View(y, i)))
    && (forall i, j :: 0 <= i < j < |y.servers| ==> y.servers[i].port != y.servers[j].port)
  }

  lemma TakeOk(w: World, y: System, step: Step)
    requires TimeMoves(w) && SystemInv(w, y)
    ensures SystemInv(w, Take(w, y, step))
  {
    if step.i < |y.servers| {
      var s := View(y, step.i);
      var d := Do(w, s, step.op);
      DoOk(w, s, step.op);
      DoFrame(w, s, step.op);
      var r := Take(w, y, step);
      assert View(r, step.i) == d;
      forall j | 0 <= j < |y.servers| && j != step.i ensures Inv(w, View(r, j)) {
        var v := View(y, j);
        assert Inv(w, v) && v.port != s.port;
        assert r.servers[j] == y.servers[j];
        InvIsStable(w, v, d.link.net, if s.HasSocket() then s.sock else d.sock);
      }
    }
  }

  lemma {:induction false} RunOk(w: World, y: System, steps: seq<Step>)
    requires TimeMoves(w) && SystemInv(w, y)
    ensures SystemInv(w, Run(w, y, steps))
    decreases |steps|
  {
    if |steps| > 0 {
      TakeOk(w, y, steps[0]);
      RunOk(w, Take(w, y, steps[0]), steps[1..]);
    }
  }

  lemma BootOk(w: World, ports: seq<uint16>)
    requires PortsPositive(ports) && PortsDistinct(ports)
    ensures SystemInv(w, Boot(ports))
  {
    var y := Boot(ports);
    forall i | 0 <= i < |ports| ensures Inv(w, View(y, i)) {
      NewServerOk(w, y.net, ports[i]);
    }
  }

  lemma OwnedFromInv(w: World, y: System)
    requires SystemInv(w, y)
    ensures Owned(y)
  {
    forall j | 0 <= j < |y.servers| ensures y.servers[j].port > 0 && Affinity(View(y, j)) {
      assert Inv(w, View(y, j));
    }
  }

  lemma TakeGrows(w: World, y: System, step: Step, i: nat)
    requires Owned(y) && i < |y.servers|
    ensures y.servers[i].log <= Take(w, y, step).servers[i].log
    ensures step.i == i ==> View(Take(w, y, step), i) == Do(w, View(y, i), step.op)
    ensures step.i != i ==> Take(w, y, step).servers[i] == y.servers[i]
  {
    if step.i == i {
      DoFrame(w, View(y, i), step.op);
    }
  }

  lemma {:induction false} LogsGrow(w: World, y: System, steps: seq<Step>, i: nat)
    requires Owned(y) && i < |y.servers|
    ensures y.servers[i].log <= Run(w, y, steps).servers[i].log
    decreases |steps|
  {
    if |steps| > 0 {
      TakeOwned(w, y, steps[0]);
      TakeGrows(w, y, steps[0], i);
      LogsGrow(w, Take(w, y, steps[0]), steps[1..], i);
    }
  }

  /** No call on server i comes at a moment when the chip makes it break the agreement. */
  ghost predicate NeverBreaks(w: World, y: System, steps: seq<Step>, i: nat)
    requires ValidSystem(y) && i < |y.servers|
    decreases |steps|
  {
    |steps| > 0 ==>
      && (steps[0].i == i ==> !Breaks(w, View(y, i), steps[0].op))
      && NeverBreaks(w, Take(w, y, steps[0]), steps[1..], i)
  }

  /** The agreement holds of server i before and after every step. */
  ghost predicate AgreesThroughout(w: World, y: System, steps: seq<Step>, i: nat)
    requires ValidSystem(y) && i < |y.servers|
    decreases |steps|
  {
    && Agreement(View(y, i))
    && (|steps| > 0 ==> AgreesThroughout(w, Take(w, y, steps[0]), steps[1..], i))
  }

  lemma TakeAgreesExactly(w: World, y: System, step: Step, i: nat)
    requires TimeMoves(w) && SystemInv(w, y) && i < |y.servers| && NoMishap(y.servers[i].log)
    ensures var breaks, r := step.i == i && Breaks(w, View(y, i), step.op), Take(w, y, step);
            && (Agreement(View(r, i)) <==> !breaks)
            && (NoMishap(r.servers[i].log) <==> !breaks)
  {
    OwnedFromInv(w, y);
    TakeGrows(w, y, step, i);
    var s := View(y, i);
    assert Inv(w, s);
    if step.i == i {
      MishapExactly(w, s, step.op);
      AgreementExact(w, s, step.op);
    }
  }

  lemma {:induction false} RunAgreesExactly(w: World, y: System, steps: seq<Step>, i: nat)
    requires TimeMoves(w) && SystemInv(w, y) && i < |y.servers| && NoMishap(y.servers[i].log)
    ensures AgreesThroughout(w, y, steps, i) <==> NeverBreaks(w, y, steps, i)
    ensures NoMishap(Run(w, y, steps).servers[i].log) <==> NeverBreaks(w, y, steps, i)
    decreases |steps|
  {
    assert Inv(w, View(y, i));
    if |steps| > 0 {
      var y1 := Take(w, y, steps[0]);
      TakeAgreesExactly(w, y, steps[0], i);
      TakeOk(w, y, steps[0]);
      OwnedFromInv(w, y1);
      LogsGrow(w, y1, steps[1..], i);
      LogPrefix(y1.servers[i].log, Run(w, y, steps).servers[i].log);
      if NoMishap(y1.servers[i].log) {
        RunAgreesExactly(w, y1, steps[1..], i);
      } else {
        assert !Agreement(View(y1, i));
      }
    }
  }

  /** In every run of servers with distinct ports, last_status_, the disconnect record and the
      listener's view of the connection agree throughout exactly if no call came at a bad moment: a
      pick or a relisten whose last re-read already saw a connection, or a release of a connection
      that had dropped unnoticed. The history tells: it holds a mishap exactly if one did. */
  lemma AgreementIsExact(w: World, ports: seq<uint16>, steps: seq<Step>, i: nat)
    requires TimeMoves(w) && PortsPositive(ports) && PortsDistinct(ports) && i < |ports|
    ensures AgreesThroughout(w, Boot(ports), steps, i) <==> NeverBreaks(w, Boot(ports), steps, i)
    ensures NoMishap(Run(w, Boot(ports), steps).servers[i].log) <==> NeverBreaks(w, Boot(ports), steps, i)
  {
    BootOk(w, ports);
    RunAgreesExactly(w, Boot(ports), steps, i);
  }

  /** In every run, whatever else goes wrong, each event keeps its own promise: bytes accepted were
      handed over before DISCON and at the end of each callback unless a write failed, the server itself
      closes only a drained connection, and CLOSE is given only to a socket not seen live, hitting a live
      one only if the chip moved between ReleaseSocket's check and its close or out of SYNSENT. If
      moreover every re-read after a listen saw LISTEN, no check has failed and only the former happens. */
  lemma EveryEventKeepsItsPromise(w: World, ports: seq<uint16>, steps: seq<Step>, i: nat)
    requires TimeMoves(w) && PortsPositive(ports) && PortsDistinct(ports) && i < |ports|
    ensures var log := Run(w, Boot(ports), steps).servers[i].log;
            EventsOk(log) && (Settled(log) ==> EventsExpected(log))
  {
    BootOk(w, ports);
    RunOk(w, Boot(ports), steps);
    assert Inv(w, View(Run(w, Boot(ports), steps), i));
  }
}
