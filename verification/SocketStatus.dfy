/** The W5500 socket status register (SnSR) and how the code classifies its values. */
module SocketStatus {
  newtype Status = x: int | 0 <= x < 0x100

  const CLOSED: Status := 0x00
  const INIT: Status := 0x13
  const LISTEN: Status := 0x14
  const SYNSENT: Status := 0x15
  const SYNRECV: Status := 0x16
  const ESTABLISHED: Status := 0x17
  const FIN_WAIT: Status := 0x18
  const CLOSING: Status := 0x1A
  const TIME_WAIT: Status := 0x1B
  const CLOSE_WAIT: Status := 0x1C
  const LAST_ACK: Status := 0x1D
  const UDP: Status := 0x22
  const IPRAW: Status := 0x32
  const MACRAW: Status := 0x42
  const PPPOE: Status := 0x5F

  predicate StatusIsOpen(status: Status) {
    status == ESTABLISHED || status == CLOSE_WAIT
  }

  predicate StatusIsClosing(status: Status) {
    status == FIN_WAIT || status == CLOSING || status == TIME_WAIT || status == LAST_ACK
  }

  /** On the way out, or out. */
  predicate StatusIsDown(status: Status) {
    StatusIsClosing(status) || status == CLOSED
  }

  /** Between LISTEN and CLOSED in the life of a TCP connection, INIT and SYNSENT included. */
  predicate StatusIsInTcpConnectionLifecycle(status: Status) {
    || status == SYNRECV || StatusIsOpen(status) || StatusIsClosing(status)
    || status == INIT || status == SYNSENT
  }

  /** A peer is, or is about to be, connected. */
  predicate StatusIsLive(status: Status) {
    status == SYNRECV || StatusIsOpen(status)
  }

  /** Values of a socket that is not a TCP server socket. */
  predicate StatusIsForeign(status: Status) {
    status == SYNSENT || status == UDP || status == IPRAW || status == MACRAW || status == PPPOE
  }

  predicate StatusIsDocumented(status: Status) {
    || status == CLOSED || status == INIT || status == LISTEN || status == SYNRECV
    || StatusIsOpen(status) || StatusIsClosing(status) || StatusIsForeign(status)
  }

  /** Values the register shows while the chip waits for a peer: a value outside the data
      sheet (0x11, say) only ever appears then. */
  predicate StatusIsPassive(status: Status) {
    status == LISTEN || status == SYNRECV || !StatusIsDocumented(status)
  }

  /** The classes in the register values of the data sheet. */
  lemma ClassesByRegister(status: Status)
    ensures [CLOSED, INIT, LISTEN, SYNSENT, SYNRECV, ESTABLISHED] == [0x00, 0x13, 0x14, 0x15, 0x16, 0x17]
    ensures [FIN_WAIT, CLOSING, TIME_WAIT, CLOSE_WAIT, LAST_ACK] == [0x18, 0x1A, 0x1B, 0x1C, 0x1D]
    ensures StatusIsOpen(status) <==> status in {0x17, 0x1C}
    ensures StatusIsClosing(status) <==> status in {0x18, 0x1A, 0x1B, 0x1D}
    ensures StatusIsLive(status) <==> status in {0x16, 0x17, 0x1C}
    ensures StatusIsForeign(status) <==> status in {0x15, 0x22, 0x32, 0x42, 0x5F}
    ensures StatusIsInTcpConnectionLifecycle(status)
            <==> status in {0x13, 0x15, 0x16, 0x17, 0x18, 0x1A, 0x1B, 0x1C, 0x1D}
    ensures StatusIsDocumented(status)
            <==> status in {0x00, 0x13, 0x14, 0x15, 0x16, 0x17, 0x18, 0x1A, 0x1B, 0x1C, 0x1D, 0x22, 0x32, 0x42, 0x5F}
  {
  }

  /** One move of the chip on its own, without a command: the TCP state machine of section 3.3.2
      of RFC 9293 as this register shows it. Any TCP state may be reset or time out to CLOSED. */
  predicate ChipStep(a: Status, b: Status) {
    || (StatusIsPassive(a) && StatusIsPassive(b))
    || (a == SYNRECV && b == ESTABLISHED)
    || (a == ESTABLISHED && b == CLOSE_WAIT)
    || (a == FIN_WAIT && (b == CLOSING || b == TIME_WAIT))
    || (a == CLOSING && b == TIME_WAIT)
    || (a == SYNSENT && (b == SYNRECV || b == ESTABLISHED))
    || (b == CLOSED && (StatusIsPassive(a) || StatusIsOpen(a) || StatusIsClosing(a) || a == SYNSENT))
  }

  /** Everything the chip can get to on its own between two observations. */
  predicate Reach(a: Status, b: Status) {
    || a == b
    || (StatusIsPassive(a) && (StatusIsPassive(b) || StatusIsOpen(b) || b == CLOSED))
    || (a == ESTABLISHED && (b == CLOSE_WAIT || b == CLOSED))
    || (a == CLOSE_WAIT && b == CLOSED)
    || (a == FIN_WAIT && (b == CLOSING || b == TIME_WAIT || b == CLOSED))
    || (a == CLOSING && (b == TIME_WAIT || b == CLOSED))
    || ((a == TIME_WAIT || a == LAST_ACK) && b == CLOSED)
    || (a == SYNSENT && (StatusIsPassive(b) || StatusIsOpen(b) || b == CLOSED))
  }

  /** A run of chip moves from a to b. */
  predicate ChipPath(path: seq<Status>, a: Status, b: Status) {
    && |path| > 0 && path[0] == a && path[|path| - 1] == b
    && forall i :: 0 <= i < |path| - 1 ==> ChipStep(path[i], path[i + 1])
  }

  /** `Reach` is exactly the reflexive and transitive closure of `ChipStep`. */
  lemma ReachIsClosure(a: Status, b: Status)
    ensures Reach(a, b) <==> exists path :: ChipPath(path, a, b)
  {
    if Reach(a, b) {
      assert ChipPath(PathFor(a, b), a, b);
    }
    forall path | ChipPath(path, a, b) ensures Reach(a, b) {
      PathReaches(path, a, b);
    }
  }

  function PathFor(a: Status, b: Status): seq<Status> {
    if a == b then [a]
    else if ChipStep(a, b) then [a, b]
    else if b == ESTABLISHED || (a == SYNSENT && StatusIsPassive(b)) then [a, SYNRECV, b]
    else if a == SYNRECV || a == SYNSENT then [a, ESTABLISHED, b]
    else [a, SYNRECV, ESTABLISHED, b]
  }

  lemma {:induction false} PathReaches(path: seq<Status>, a: Status, b: Status)
    requires ChipPath(path, a, b)
    ensures Reach(a, b)
    decreases |path|
  {
    if |path| > 1 {
      assert ChipPath(path[1..], path[1], b);
      PathReaches(path[1..], path[1], b);
      assert ChipStep(a, path[1]);
    }
  }
}
