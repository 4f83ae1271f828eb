/** Whether and when a connection was found, or made, to be disconnected. */
module DisconnectRecord {
  import opened Types
  import opened W5500

  /** `millis` is the 32-bit time stamp the code keeps; `since` is the real time it stands for. */
  datatype Disconnection = Disconnection(disconnected: bool, millis: uint32, since: nat)

  /** The initial state: there is no connection at startup. */
  const NEVER_CONNECTED: Disconnection := Disconnection(true, 0, 0)

  function Record(w: World, n: Net, d: Disconnection): Disconnection {
    if d.disconnected then d else Disconnection(true, Millis(w, n), w.time(n.tick))
  }

  function Reset(d: Disconnection): Disconnection {
    d.(disconnected := false, millis := 0)
  }

  /** Milliseconds since a time stamp, in wrapping 32-bit arithmetic. */
  function ElapsedMillis(now: uint32, start: uint32): uint32 {
    ((now as int - start as int) % TWO_TO_THE_32) as uint32
  }

  /** Wrapping arithmetic gives the real elapsed time exactly as long as that fits 32 bits. */
  lemma ElapsedIsExact(now: nat, since: nat)
    requires since <= now
    ensures ElapsedMillis((now % TWO_TO_THE_32) as uint32, (since % TWO_TO_THE_32) as uint32) as int == now - since
            <==> now - since < TWO_TO_THE_32
  {
    var m := TWO_TO_THE_32;
    var a, b := now / m, since / m;
    var x, y := now % m, since % m;
    assert now == m * a + x && since == m * b + y;
    assert (x - y) % m == if x >= y then x - y else x - y + m;
  }

  class DisconnectData {
    var disconnected: bool
    var disconnectTimeMillis: uint32
    ghost var since: nat

    ghost function State(): Disconnection
      reads this
    {
      Disconnection(disconnected, disconnectTimeMillis, since)
    }

    constructor ()
      ensures State() == NEVER_CONNECTED
    {
      disconnected, disconnectTimeMillis, since := true, 0, 0;
    }

    method RecordDisconnect(chip: Chip)
      modifies this
      ensures State() == Record(chip.world, chip.State(), old(State()))
      ensures disconnected && (old(disconnected) ==> State() == old(State()))
      ensures !old(disconnected) ==> since == chip.world.time(chip.tick)
                                     && disconnectTimeMillis as int == since % TWO_TO_THE_32
    {
      if !disconnected {
        disconnected := true;
        disconnectTimeMillis := Millis(chip.world, chip.State());
        since := chip.world.time(chip.tick);
      }
    }

    method ResetData()
      modifies this
      ensures State() == Reset(old(State()))
      ensures !disconnected && disconnectTimeMillis == 0
    {
      disconnected := false;
      disconnectTimeMillis := 0;
    }

    method ElapsedDisconnectTime(chip: Chip) returns (elapsed: uint32)
      requires disconnected
      ensures elapsed == ElapsedMillis(Millis(chip.world, chip.State()), disconnectTimeMillis)
    {
      elapsed := ElapsedMillis(Millis(chip.world, chip.State()), disconnectTimeMillis);
    }
  }
}
