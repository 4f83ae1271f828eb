/** The host's table of eight emulated sockets, and what holds in every run of operations on it. */
module HostNetworkSpec {
  import opened Types
  import opened HostSocketSpec

  const MAX_SOCKETS: nat := 8

  datatype Table = Table(p: Process, slots: seq<Slot>)

  datatype HostOp =
    | FindUnusedSocket
    | SocketIsTcpListener(i: nat)
    | SocketIsHalfClosed(i: nat)
    | SocketStatus(i: nat)
    | InitializeTcpListenerSocket(i: nat, port: uint16)
    | AcceptConnectionOn(i: nat)
    | DisconnectSocket(i: nat)
    | CloseSocket(i: nat)
    | ReceiveFrom(i: nat)

  ghost predicate ValidTable(t: Table) { |t.slots| == MAX_SOCKETS }

  function At(t: Table, i: nat): Host
    requires i < |t.slots|
  {
    Host(t.p, t.slots[i])
  }

  function Set(t: Table, i: nat, h: Host): Table
    requires i < |t.slots|
  {
    Table(h.p, t.slots[i := h.s])
  }

  /** FindUnusedSocket from slot k on; a failing CHECK stops it. */
  function FindUnused(t: Table, k: nat): (Table, Option<nat>)
    requires k <= |t.slots|
    decreases |t.slots| - k
  {
    if k == |t.slots| then (t, None)
    else
      var (h, unused) := IsUnused(At(t, k));
      if h.p.halt != Running then (Set(t, k, h), None)
      else if unused then (t, Some(k))
      else FindUnused(t, k + 1)
  }

  /** What an operation does to the slot it names. */
  function OnSlot(os: Os, h: Host, op: HostOp): Host {
    match op
    case FindUnusedSocket => h
    case SocketIsTcpListener(_) => IsTcpListener(h).0
    case SocketIsHalfClosed(_) => IsConnectionHalfClosed(os, h).0
    case SocketStatus(_) => ReadStatus(os, h).0
    case InitializeTcpListenerSocket(_, port) => InitializeTcpListener(os, h, port).0
    case AcceptConnectionOn(_) => AcceptConnection(os, h).0
    case DisconnectSocket(_) => DisconnectConnectionSocket(os, h).0
    case CloseSocket(_) => CloseBoth(h)
    case ReceiveFrom(_) => Recv(os, h).0
  }

  /** A stopped process does nothing more. */
  function Apply(os: Os, t: Table, op: HostOp): (r: Table)
    requires ValidTable(t)
    ensures ValidTable(r)
  {
    if t.p.halt != Running then t
    else if op.FindUnusedSocket? then FindUnusedKeepsSize(t, 0); FindUnused(t, 0).0
    else if op.i < MAX_SOCKETS then Set(t, op.i, OnSlot(os, At(t, op.i), op))
    else t
  }

  lemma FindUnusedKeepsSize(t: Table, k: nat)
    requires k <= |t.slots|
    ensures |FindUnused(t, k).0.slots| == |t.slots|
    decreases |t.slots| - k
  {
  }

  function Run(os: Os, t: Table, ops: seq<HostOp>): (r: Table)
    requires ValidTable(t)
    ensures ValidTable(r)
    decreases |ops|
  {
    if |ops| == 0 then t else Run(os, Apply(os, t, ops[0]), ops[1..])
  }

  function NewTable(): (t: Table)
    ensures ValidTable(t)
  {
    Table(Process(0, {}, false, Running), seq(MAX_SOCKETS, _ => UNUSED))
  }

  /** The destructors, slot by slot. */
  function Destroy(t: Table, k: nat): Table
    requires k <= |t.slots|
    decreases |t.slots| - k
  {
    if k == |t.slots| then t else Destroy(Set(t, k, CloseBoth(At(t, k))), k + 1)
  }

  // Descriptor conservation.

  /** Some slot holds this descriptor. */
  ghost predicate IsHeld(slots: seq<Slot>, fd: int) {
    exists i :: 0 <= i < |slots| && fd in Held(slots[i])
  }

  /** The descriptors opened and not yet closed are exactly those in the slots' fields; no slot
      shares one with another or is listening and connected at once; none was closed twice. */
  ghost predicate Conserved(t: Table) {
    && (forall fd :: fd in t.p.open <==> IsHeld(t.slots, fd))
    && (forall i, j :: 0 <= i < j < |t.slots| ==> Held(t.slots[i]) !! Held(t.slots[j]))
    && (forall i :: 0 <= i < |t.slots| ==> Exclusive(t.slots[i]))
    && !t.p.misuse
  }

  lemma SlotIsSound(t: Table, i: nat)
    requires Conserved(t) && i < |t.slots|
    ensures Sound(At(t, i))
  {
    forall fd | fd in Held(t.slots[i]) ensures fd in t.p.open {
      assert IsHeld(t.slots, fd);
    }
  }

  lemma SetConserves(t: Table, i: nat, h: Host)
    requires Conserved(t) && i < |t.slots| && FdStep(At(t, i), h)
    ensures Conserved(Set(t, i, h))
  {
    var r := Set(t, i, h);
    forall j | 0 <= j < |t.slots| && j != i ensures Held(r.slots[j]) !! Held(h.s) {
      assert r.slots[j] == t.slots[j];
      SlotsAreDisjoint(t, i, j);
      forall fd | fd in Held(t.slots[j]) ensures fd !in Held(h.s) {
        assert IsHeld(t.slots, fd);
      }
    }
    forall fd ensures fd in r.p.open <==> IsHeld(r.slots, fd) {
      HeldAfterSet(t, i, h, fd);
    }
  }

  lemma HeldAfterSet(t: Table, i: nat, h: Host, fd: int)
    requires Conserved(t) && i < |t.slots| && FdStep(At(t, i), h)
    ensures fd in h.p.open <==> IsHeld(Set(t, i, h).slots, fd)
  {
    var r := Set(t, i, h);
    if IsHeld(r.slots, fd) {
      var j :| 0 <= j < |r.slots| && fd in Held(r.slots[j]);
      if j != i {
        assert t.slots[j] == r.slots[j];
        assert IsHeld(t.slots, fd);
        SlotsAreDisjoint(t, i, j);
      }
    }
    if fd in h.p.open {
      if fd in Held(h.s) {
        assert r.slots[i] == h.s;
      } else {
        assert IsHeld(t.slots, fd);
        var j :| 0 <= j < |t.slots| && fd in Held(t.slots[j]);
        assert r.slots[j] == t.slots[j];
      }
    }
  }

  lemma SlotsAreDisjoint(t: Table, i: nat, j: nat)
    requires Conserved(t) && i < |t.slots| && j < |t.slots| && i != j
    ensures Held(t.slots[i]) !! Held(t.slots[j])
  {
    assert if i < j then Held(t.slots[i]) !! Held(t.slots[j]) else Held(t.slots[j]) !! Held(t.slots[i]);
  }

  lemma OnSlotStep(os: Os, h: Host, op: HostOp)
    requires Sound(h) && h.p.halt == Running
    ensures FdStep(h, OnSlot(os, h, op))
  {
    ClosesStep(h);
    RecvStep(os, h);
    AcceptStep(os, h);
    StatusStep(os, h);
    if op.InitializeTcpListenerSocket? {
      InitializeConserves(os, h, op.port);
    }
  }

  lemma {:induction false} FindUnusedConserves(t: Table, k: nat)
    requires Conserved(t) && k <= |t.slots|
    ensures Conserved(FindUnused(t, k).0)
    decreases |t.slots| - k
  {
    if k < |t.slots| {
      var (h, unused) := IsUnused(At(t, k));
      SlotIsSound(t, k);
      SetConserves(t, k, h);
      FindUnusedConserves(t, k + 1);
    }
  }

  lemma ApplyConserves(os: Os, t: Table, op: HostOp)
    requires ValidTable(t) && Conserved(t)
    ensures Conserved(Apply(os, t, op))
  {
    if t.p.halt == Running {
      if op.FindUnusedSocket? {
        FindUnusedConserves(t, 0);
      } else if op.i < MAX_SOCKETS {
        SlotIsSound(t, op.i);
        OnSlotStep(os, At(t, op.i), op);
        SetConserves(t, op.i, OnSlot(os, At(t, op.i), op));
      }
    }
  }

  lemma {:induction false} RunConserves(os: Os, t: Table, ops: seq<HostOp>)
    requires ValidTable(t) && Conserved(t)
    ensures Conserved(Run(os, t, ops))
    decreases |ops|
  {
    if |ops| > 0 {
      ApplyConserves(os, t, ops[0]);
      RunConserves(os, Apply(os, t, ops[0]), ops[1..]);
    }
  }

  /** In every run over all eight slots, whatever the system calls answer and however often they
      fail, descriptors are conserved; and the destructors then leave none open. */
  lemma DescriptorsAreConserved(os: Os, ops: seq<HostOp>)
    ensures var t := Run(os, NewTable(), ops);
            && Conserved(t)
            && Destroy(t, 0).p.open == {} && !Destroy(t, 0).p.misuse
  {
    assert Conserved(NewTable());
    RunConserves(os, NewTable(), ops);
    DestroyCloses(Run(os, NewTable(), ops), 0);
  }

  lemma {:induction false} DestroyCloses(t: Table, k: nat)
    requires Conserved(t) && k <= |t.slots|
    requires forall i :: 0 <= i < k ==> Held(t.slots[i]) == {}
    ensures Destroy(t, k).p.open == {} && !Destroy(t, k).p.misuse
    decreases |t.slots| - k
  {
    if k < |t.slots| {
      var h := CloseBoth(At(t, k));
      SlotIsSound(t, k);
      ClosesStep(At(t, k));
      SetConserves(t, k, h);
      DestroyCloses(Set(t, k, h), k + 1);
    } else {
      forall fd ensures fd !in t.p.open {
        assert fd in t.p.open <==> IsHeld(t.slots, fd);
      }
    }
  }

  // Slots that tell the truth.

  ghost predicate AllCoherent(t: Table) {
    forall i :: 0 <= i < |t.slots| ==> Coherent(t.slots[i])
  }

  /** No listener is opened only to be left behind by SetNonBlocking, or with a zero port. */
  ghost predicate CleanListens(os: Os, t: Table, ops: seq<HostOp>)
    requires ValidTable(t)
    decreases |ops|
  {
    |ops| > 0 ==>
      && (t.p.halt == Running && ops[0].InitializeTcpListenerSocket? && ops[0].i < MAX_SOCKETS ==>
            CleanListen(os, At(t, ops[0].i), ops[0].port))
      && CleanListens(os, Apply(os, t, ops[0]), ops[1..])
  }

  lemma OnSlotCoherent(os: Os, h: Host, op: HostOp)
    requires Sound(h) && h.p.halt == Running && Coherent(h.s)
    requires op.InitializeTcpListenerSocket? ==> CleanListen(os, h, op.port)
    ensures Coherent(OnSlot(os, h, op).s) && OnSlot(os, h, op).p.halt != PortCheck
  {
    ClosesStep(h);
    RecvStep(os, h);
    AcceptStep(os, h);
    StatusStep(os, h);
    if op.InitializeTcpListenerSocket? {
      InitializeStep(os, h, op.port);
    }
  }

  lemma {:induction false} FindUnusedCoherent(t: Table, k: nat)
    requires Conserved(t) && AllCoherent(t) && k <= |t.slots| && t.p.halt == Running
    ensures var (r, found) := FindUnused(t, k);
            && r == t
            && (found.Some? ==> k <= found.value < |t.slots| && Held(t.slots[found.value]) == {})
            && (forall j :: k <= j < (if found.Some? then found.value else |t.slots|) ==> Held(t.slots[j]) != {})
    decreases |t.slots| - k
  {
    if k < |t.slots| {
      UnusedChecksExact(At(t, k));
      FindUnusedCoherent(t, k + 1);
    }
  }

  /** The port fields of every slot tell the truth before and after every operation. */
  ghost predicate CoherentThroughout(os: Os, t: Table, ops: seq<HostOp>)
    requires ValidTable(t)
    decreases |ops|
  {
    AllCoherent(t) && (|ops| > 0 ==> CoherentThroughout(os, Apply(os, t, ops[0]), ops[1..]))
  }

  lemma ApplyCoherentExactly(os: Os, t: Table, op: HostOp)
    requires ValidTable(t) && Conserved(t) && AllCoherent(t) && t.p.halt != PortCheck
    ensures var r, clean := Apply(os, t, op), CleanListens(os, t, [op]);
            (AllCoherent(r) <==> clean) && (clean ==> r.p.halt != PortCheck)
  {
    if t.p.halt == Running {
      if op.FindUnusedSocket? {
        FindUnusedCoherent(t, 0);
      } else if op.i < MAX_SOCKETS {
        var h := At(t, op.i);
        SlotIsSound(t, op.i);
        if op.InitializeTcpListenerSocket? {
          InitializeStep(os, h, op.port);
          assert Apply(os, t, op).slots[op.i] == InitializeTcpListener(os, h, op.port).0.s;
        } else {
          OnSlotCoherent(os, h, op);
        }
      }
    }
  }

  /** The port fields tell the truth throughout a run exactly if all its listens are clean, and then
      no CHECK on them fails. FindUnusedSocket finds the first slot without a descriptor. */
  lemma {:induction false} PortsTellTheTruth(os: Os, t: Table, ops: seq<HostOp>)
    requires ValidTable(t) && Conserved(t) && AllCoherent(t) && t.p.halt != PortCheck
    ensures CoherentThroughout(os, t, ops) <==> CleanListens(os, t, ops)
    ensures CleanListens(os, t, ops) ==> Run(os, t, ops).p.halt != PortCheck
    decreases |ops|
  {
    if |ops| > 0 {
      var r := Apply(os, t, ops[0]);
      ApplyConserves(os, t, ops[0]);
      ApplyCoherentExactly(os, t, ops[0]);
      if AllCoherent(r) {
        PortsTellTheTruth(os, r, ops[1..]);
      }
    }
  }

  /** No listener is opened that only SetNonBlocking then fails on. */
  ghost predicate NonBlockingWorks(os: Os, t: Table, ops: seq<HostOp>)
    requires ValidTable(t)
    decreases |ops|
  {
    |ops| > 0 ==>
      && (t.p.halt == Running && ops[0].InitializeTcpListenerSocket? && ops[0].i < MAX_SOCKETS
          && Reopens(t.slots[ops[0].i], ops[0].port) ==>
            !OnlyNonBlockingFails(os, CloseBoth(At(t, ops[0].i)).p))
      && NonBlockingWorks(os, Apply(os, t, ops[0]), ops[1..])
  }

  ghost predicate PortsPositive(os: Os, ops: seq<HostOp>) {
    && (forall port :: port in os.portMap ==> os.portMap[port] != 0)
    && (forall i :: 0 <= i < |ops| && ops[i].InitializeTcpListenerSocket? ==> ops[i].port != 0)
  }

  lemma {:induction false} PositivePortsAreClean(os: Os, t: Table, ops: seq<HostOp>)
    requires ValidTable(t) && PortsPositive(os, ops)
    ensures CleanListens(os, t, ops) <==> NonBlockingWorks(os, t, ops)
    decreases |ops|
  {
    if |ops| > 0 {
      assert forall i :: 0 <= i < |ops| - 1 ==> ops[1..][i] == ops[i + 1];
      assert ops[0].InitializeTcpListenerSocket? ==> Lookup(os, ops[0].port) != 0;
      PositivePortsAreClean(os, Apply(os, t, ops[0]), ops[1..]);
    }
  }

  /** From the start and with positive ports, the truth of the port fields in a run depends on one
      system call: they tell it throughout exactly if no SetNonBlocking fails after a bind that worked. */
  lemma OnlyNonBlockingMatters(os: Os, ops: seq<HostOp>)
    requires PortsPositive(os, ops)
    ensures CoherentThroughout(os, NewTable(), ops) <==> NonBlockingWorks(os, NewTable(), ops)
    ensures NonBlockingWorks(os, NewTable(), ops) ==> Run(os, NewTable(), ops).p.halt != PortCheck
  {
    PortsTellTheTruth(os, NewTable(), ops);
    PositivePortsAreClean(os, NewTable(), ops);
  }

  /** What a listen that is not clean costs: with the slots before it in use, the next search for an
      unused slot runs into its CHECKs and stops the process, exactly if the listen was not clean. */
  lemma StrayListenerHalts(os: Os, t: Table, i: nat, port: uint16)
    requires ValidTable(t) && Conserved(t) && AllCoherent(t) && t.p.halt == Running && i < MAX_SOCKETS
    requires forall j :: 0 <= j < i ==> Held(t.slots[j]) != {}
    ensures var r := Apply(os, t, InitializeTcpListenerSocket(i, port));
            Apply(os, r, FindUnusedSocket).p.halt == PortCheck <==> !CleanListen(os, At(t, i), port)
  {
    SlotIsSound(t, i);
    var h := InitializeTcpListener(os, At(t, i), port).0;
    InitializeStep(os, At(t, i), port);
    SetConserves(t, i, h);
    SearchAfterSet(t, i, h);
  }

  // Exactly when a CHECK on the port fields fails.

  /** The search from slot k on comes to slot j, whose ports do not tell the truth. */
  ghost predicate ComesToLie(slots: seq<Slot>, k: nat, j: nat) {
    && k <= j < |slots| && !Coherent(slots[j])
    && forall m :: k <= m < j ==> Coherent(slots[m]) && Held(slots[m]) != {}
  }

  ghost predicate MeetsLie(slots: seq<Slot>, k: nat) {
    exists j: nat :: ComesToLie(slots, k, j)
  }

  lemma LieBehind(slots: seq<Slot>, k: nat)
    requires k < |slots| && Coherent(slots[k]) && Held(slots[k]) != {}
    ensures MeetsLie(slots, k) <==> MeetsLie(slots, k + 1)
  {
    if MeetsLie(slots, k) {
      var j: nat :| ComesToLie(slots, k, j);
      assert ComesToLie(slots, k + 1, j);
    }
    if MeetsLie(slots, k + 1) {
      var j: nat :| ComesToLie(slots, k + 1, j);
      assert ComesToLie(slots, k, j);
    }
  }

  lemma {:induction false} SearchHaltsExactly(t: Table, k: nat)
    requires Conserved(t) && k <= |t.slots| && t.p.halt == Running
    ensures FindUnused(t, k).0.p.halt == PortCheck <==> MeetsLie(t.slots, k)
    decreases |t.slots| - k
  {
    if k < |t.slots| {
      UnusedChecksExact(At(t, k));
      if !Coherent(t.slots[k]) {
        assert ComesToLie(t.slots, k, k);
      } else if Held(t.slots[k]) != {} {
        SearchHaltsExactly(t, k + 1);
        LieBehind(t.slots, k);
      } else {
        assert forall j: nat :: !ComesToLie(t.slots, k, j);
      }
    }
  }

  /** An operation examines a slot whose ports do not tell the truth, before it finds what it looks for.
      SocketIsTcpListener only looks at one of the two. */
  ghost predicate ExaminesLie(t: Table, op: HostOp)
    requires ValidTable(t)
  {
    && t.p.halt == Running
    && match op
       case FindUnusedSocket => MeetsLie(t.slots, 0)
       case SocketStatus(i) => i < MAX_SOCKETS && !Coherent(t.slots[i])
       case SocketIsTcpListener(i) =>
         i < MAX_SOCKETS && !(HaveFd(t.slots[i].listener) <==> t.slots[i].tcpPort != 0)
       case _ => false
  }

  lemma ApplyHaltsExactly(os: Os, t: Table, op: HostOp)
    requires ValidTable(t) && Conserved(t) && t.p.halt != PortCheck
    ensures Apply(os, t, op).p.halt == PortCheck <==> ExaminesLie(t, op)
  {
    if t.p.halt == Running {
      if op.FindUnusedSocket? {
        SearchHaltsExactly(t, 0);
      } else if op.i < MAX_SOCKETS {
        SlotIsSound(t, op.i);
        OnSlotHaltsExactly(os, At(t, op.i), op);
      }
    }
  }

  lemma OnSlotHaltsExactly(os: Os, h: Host, op: HostOp)
    requires Sound(h) && h.p.halt == Running
    ensures OnSlot(os, h, op).p.halt == PortCheck
            <==> (op.SocketStatus? && !Coherent(h.s))
                 || (op.SocketIsTcpListener? && !(HaveFd(h.s.listener) <==> h.s.tcpPort != 0))
  {
    UnusedChecksExact(h);
    RecvStep(os, h);
    AcceptStep(os, h);
    StatusStep(os, h);
    if op.InitializeTcpListenerSocket? {
      InitializeConserves(os, h, op.port);
    }
  }

  ghost predicate NeverExaminesLie(os: Os, t: Table, ops: seq<HostOp>)
    requires ValidTable(t)
    decreases |ops|
  {
    |ops| > 0 ==> !ExaminesLie(t, ops[0]) && NeverExaminesLie(os, Apply(os, t, ops[0]), ops[1..])
  }

  lemma {:induction false} HaltedForGood(os: Os, t: Table, ops: seq<HostOp>)
    requires ValidTable(t) && t.p.halt != Running
    ensures Run(os, t, ops) == t
    decreases |ops|
  {
    if |ops| > 0 {
      HaltedForGood(os, t, ops[1..]);
    }
  }

  lemma {:induction false} RunHaltsExactly(os: Os, t: Table, ops: seq<HostOp>)
    requires ValidTable(t) && Conserved(t) && t.p.halt != PortCheck
    ensures Run(os, t, ops).p.halt != PortCheck <==> NeverExaminesLie(os, t, ops)
    decreases |ops|
  {
    if |ops| > 0 {
      var r := Apply(os, t, ops[0]);
      ApplyConserves(os, t, ops[0]);
      ApplyHaltsExactly(os, t, ops[0]);
      if r.p.halt == PortCheck {
        HaltedForGood(os, r, ops[1..]);
      } else {
        RunHaltsExactly(os, r, ops[1..]);
      }
    }
  }

  /** In every run, whatever the system calls answer and whatever the ports: a CHECK on the port fields
      has failed exactly if some operation examined a slot whose ports did not tell the truth. */
  lemma PortChecksAreExact(os: Os, ops: seq<HostOp>)
    ensures Run(os, NewTable(), ops).p.halt != PortCheck <==> NeverExaminesLie(os, NewTable(), ops)
  {
    RunHaltsExactly(os, NewTable(), ops);
  }

  /** An operating system whose first fcntl fails, after socket, setsockopt and bind have worked. */
  const FCNTL_FAILS := Os(t => if t == 0 then 3 else if t < 3 then 0 else -1, t => Unexpected, map[])

  /** It happens: the first listen leaves a descriptor with no ports, and the next search halts. */
  lemma StrayListenerIsReached()
    ensures Run(FCNTL_FAILS, NewTable(), [InitializeTcpListenerSocket(0, 80), FindUnusedSocket]).p.halt == PortCheck
  {
    var t := NewTable();
    var ops := [InitializeTcpListenerSocket(0, 80), FindUnusedSocket];
    assert OnlyNonBlockingFails(FCNTL_FAILS, CloseBoth(At(t, 0)).p);
    StrayListenerHalts(FCNTL_FAILS, t, 0, 80);
    assert ops[1..] == [FindUnusedSocket];
    assert Run(FCNTL_FAILS, t, ops) == Apply(FCNTL_FAILS, Apply(FCNTL_FAILS, t, ops[0]), ops[1]);
  }

  lemma SearchAfterSet(t: Table, i: nat, h: Host)
    requires ValidTable(t) && AllCoherent(t) && i < MAX_SOCKETS && h.p.halt == Running
    requires Conserved(Set(t, i, h))
    requires forall j :: 0 <= j < i ==> Held(t.slots[j]) != {}
    ensures FindUnused(Set(t, i, h), 0).0.p.halt == PortCheck <==> !Coherent(h.s)
  {
    var r := Set(t, i, h);
    assert forall j :: 0 <= j < MAX_SOCKETS && j != i ==> r.slots[j] == t.slots[j];
    if Coherent(h.s) {
      FindUnusedCoherent(r, 0);
    } else {
      SkipUsed(r, 0, i);
      UnusedChecksExact(At(r, i));
    }
  }

  lemma {:induction false} SkipUsed(t: Table, k: nat, i: nat)
    requires Conserved(t) && t.p.halt == Running && k <= i < |t.slots|
    requires forall j :: k <= j < i ==> Coherent(t.slots[j]) && Held(t.slots[j]) != {}
    ensures FindUnused(t, k) == FindUnused(t, i)
    decreases i - k
  {
    if k < i {
      UnusedChecksExact(At(t, k));
      SkipUsed(t, k + 1, i);
    }
  }
}
