/** The address classes and the part of IpDevice::InitializeNetworking that loads or makes them. */
module AddressClasses {
  import opened Types
  import opened AddressSpec

  /** The random number generator and the EEPROM, for one boot. */
  class Board {
    const env: Env
    var drawn: nat
    /** The addresses entry of the EEPROM, if there is one. */
    var entry: Option<seq<Byte>>

    constructor (env: Env, entry: Option<seq<Byte>>)
      ensures this.env == env && this.entry == entry && drawn == 0
    {
      this.env, this.entry, drawn := env, entry, 0;
    }

    method Random(low: nat, high: nat) returns (r: nat)
      requires low < high
      modifies this`drawn
      ensures r == Draw(env, old(drawn), low, high) && drawn == old(drawn) + 1
    {
      r := Draw(env, drawn, low, high);
      drawn := drawn + 1;
    }
  }

  /** A region of the EEPROM with a cursor: reads and writes advance it, and fail at the end. */
  class EepromRegion {
    var bytes: seq<Byte>
    var cursor: nat

    ghost predicate Valid()
      reads this
    {
      cursor <= |bytes|
    }

    constructor (bytes: seq<Byte>)
      ensures Valid() && this.bytes == bytes && cursor == 0
    {
      this.bytes, cursor := bytes, 0;
    }

    method ReadBytes(a: array<Byte>) returns (ok: bool)
      requires Valid()
      modifies this, a
      ensures Valid() && bytes == old(bytes)
      ensures ok <==> old(cursor) + a.Length <= |bytes|
      ensures ok ==> cursor == old(cursor) + a.Length && a[..] == bytes[old(cursor)..cursor]
      ensures !ok ==> cursor == old(cursor) && a[..] == old(a[..])
    {
      if cursor + a.Length > |bytes| {
        return false;
      }
      forall i | 0 <= i < a.Length {
        a[i] := bytes[cursor + i];
      }
      cursor := cursor + a.Length;
      return true;
    }

    method Write(b: Byte) returns (ok: bool)
      requires Valid()
      modifies this
      ensures Valid() && |bytes| == old(|bytes|)
      ensures ok <==> old(cursor < |bytes|)
      ensures ok ==> bytes == old(bytes)[old(cursor) := b] && cursor == old(cursor) + 1
      ensures !ok ==> bytes == old(bytes) && cursor == old(cursor)
    {
      if cursor >= |bytes| {
        return false;
      }
      bytes := bytes[cursor := b];
      cursor := cursor + 1;
      return true;
    }

    method WriteBytes(a: array<Byte>) returns (ok: bool)
      requires Valid()
      modifies this
      ensures Valid() && |bytes| == old(|bytes|)
      ensures ok <==> old(cursor) + a.Length <= old(|bytes|)
      ensures ok ==> cursor == old(cursor) + a.Length
                     && bytes == old(bytes)[..old(cursor)] + a[..] + old(bytes)[cursor..]
      ensures !ok ==> bytes == old(bytes) && cursor == old(cursor)
    {
      if cursor + a.Length > |bytes| {
        return false;
      }
      bytes := bytes[..cursor] + a[..] + bytes[cursor + a.Length..];
      cursor := cursor + a.Length;
      return true;
    }
  }

  class EthernetAddress {
    const bytes: array<Byte>

    constructor ()
      ensures bytes.Length == ETHERNET_SIZE && fresh(bytes)
    {
      bytes := new Byte[ETHERNET_SIZE];
    }

    /** Whatever the bytes held before, they are now the generated address and nothing else. */
    method GenerateAddress(board: Board, ouiPrefix: Option<OuiPrefix>)
      requires bytes.Length == ETHERNET_SIZE && board.drawn == 0
      modifies bytes, board`drawn
      ensures bytes[..] == GenerateEthernet(board.env, ouiPrefix)
      ensures board.drawn == Drawn(ouiPrefix)
    {
      var firstIndex: nat;
      match ouiPrefix {
        case Some(p) =>
          firstIndex := 3;
          bytes[0], bytes[1], bytes[2] := p.b0, p.b1, p.b2;
        case None =>
          firstIndex := 0;
      }
      var i := firstIndex;
      while i < 6
        invariant firstIndex <= i <= 6 && board.drawn == i - firstIndex
        invariant ouiPrefix.Some? ==> bytes[..3] == [ouiPrefix.value.b0, ouiPrefix.value.b1, ouiPrefix.value.b2]
        invariant forall j :: firstIndex <= j < i ==> bytes[j] == DrawByte(board.env, j - firstIndex)
      {
        var r := board.Random(0, 256);
        bytes[i] := r as Byte;
        i := i + 1;
      }
      assert bytes[firstIndex..] == DrawBytes(board.env, firstIndex);
      assert bytes[..] == bytes[..firstIndex] + bytes[firstIndex..];
      bytes[0] := ToOuiUnicast(bytes[0]);
    }

    method HasOuiPrefix(p: OuiPrefix) returns (r: bool)
      requires bytes.Length == ETHERNET_SIZE
      ensures r <==> AddressSpec.HasOuiPrefix(bytes[..], p)
      ensures r <==> bytes[..3] == [p.b0, p.b1, p.b2]
    {
      PrefixIsFirstThree(bytes[..], p);
      assert bytes[..][..3] == bytes[..3];
      r := bytes[0] == p.b0 && bytes[1] == p.b1 && bytes[2] == p.b2;
    }
  }

  class IpAddress {
    const octets: array<Byte>

    constructor ()
      ensures octets.Length == IP_SIZE && fresh(octets)
    {
      octets := new Byte[IP_SIZE];
    }

    method GenerateAddress(board: Board)
      requires octets.Length == IP_SIZE
      modifies octets, board`drawn
      ensures octets[..] == GenerateIp(board.env, old(board.drawn))
    {
      octets[0] := 169;
      octets[1] := 254;
      var third := board.Random(1, 255);
      octets[2] := third as Byte;
      var fourth := board.Random(0, 256);
      octets[3] := fourth as Byte;
    }

    method ReadFromRegion(region: EepromRegion) returns (ok: bool)
      requires region.Valid() && octets.Length == IP_SIZE
      modifies region, octets
      ensures region.Valid() && region.bytes == old(region.bytes)
      ensures ok <==> old(region.cursor) + IP_SIZE <= |region.bytes|
      ensures ok ==> octets[..] == region.bytes[old(region.cursor)..old(region.cursor) + IP_SIZE]
    {
      var bytes := new Byte[IP_SIZE];
      ok := region.ReadBytes(bytes);
      if !ok {
        return;
      }
      octets[0] := bytes[0];
      octets[1] := bytes[1];
      octets[2] := bytes[2];
      octets[3] := bytes[3];
    }

    /** Octet by octet, stopping at the first failure. */
    method WriteToRegion(region: EepromRegion) returns (ok: bool)
      requires region.Valid() && octets.Length == IP_SIZE
      modifies region
      ensures region.Valid() && |region.bytes| == old(|region.bytes|)
      ensures ok <==> old(region.cursor) + IP_SIZE <= |region.bytes|
      ensures ok ==> region.bytes == old(region.bytes)[..old(region.cursor)] + octets[..]
                                     + old(region.bytes)[old(region.cursor) + IP_SIZE..]
    {
      ok := region.Write(octets[0]);
      if ok { ok := region.Write(octets[1]); }
      if ok { ok := region.Write(octets[2]); }
      if ok { ok := region.Write(octets[3]); }
    }
  }

  class Addresses {
    const ethernet: EthernetAddress
    const ip: IpAddress

    ghost predicate Valid() {
      ethernet.bytes.Length == ETHERNET_SIZE && ip.octets.Length == IP_SIZE
    }

    ghost function State(): Pair
      reads ethernet.bytes, ip.octets
    {
      Pair(ethernet.bytes[..], ip.octets[..])
    }

    constructor ()
      ensures Valid() && fresh(ethernet.bytes) && fresh(ip.octets)
    {
      ethernet := new EthernetAddress();
      ip := new IpAddress();
    }

    /** A failure may leave the addresses half read. */
    method ReadEepromEntry(board: Board, ouiPrefix: Option<OuiPrefix>) returns (status: Status)
      requires Valid()
      modifies ethernet.bytes, ip.octets
      ensures status == Load(board.entry, ouiPrefix).0
      ensures status == Ok ==> Some(State()) == Load(board.entry, ouiPrefix).1
      ensures LoadAnswers(board.entry, ouiPrefix, status, State())
    {
      LoadExact(board.entry, ouiPrefix);
      match board.entry {
        case None =>
          return NotFound;
        case Some(bytes) =>
          var region := new EepromRegion(bytes);
          var ok := ReadFromRegion(region);
          if !ok {
            return Unknown;
          }
          if ouiPrefix.Some? {
            var matches := ethernet.HasOuiPrefix(ouiPrefix.value);
            if !matches {
              return FailedPrecondition;
            }
          }
          return Ok;
      }
    }

    method ReadFromRegion(region: EepromRegion) returns (ok: bool)
      requires Valid() && region.Valid() && region.cursor == 0
      modifies region, ethernet.bytes, ip.octets
      ensures ok <==> Parse(old(region.bytes)).Some?
      ensures ok ==> Parse(old(region.bytes)) == Some(State())
    {
      ok := region.ReadBytes(ethernet.bytes);
      if ok {
        ok := ip.ReadFromRegion(region);
      }
    }

    method WriteToRegion(region: EepromRegion) returns (ok: bool)
      requires Valid() && region.Valid() && region.cursor == 0
      modifies region
      ensures ok <==> ENTRY_SIZE <= old(|region.bytes|)
      ensures ok ==> region.bytes == Serialize(State()) + old(region.bytes)[ENTRY_SIZE..]
    {
      ok := region.WriteBytes(ethernet.bytes);
      if ok {
        ok := ip.WriteToRegion(region);
      }
    }

    /** WriteEntryToCursor: a region of exactly 4 + 6 bytes, which becomes the entry if the store
        accepts it. */
    method WriteEepromEntry(board: Board) returns (ok: bool)
      requires Valid()
      modifies board`entry
      ensures ok <==> board.env.writable
      ensures board.entry == if ok then Some(Serialize(State())) else board.env.leftover
    {
      var region := new EepromRegion(seq(ENTRY_SIZE, _ => 0));
      ok := WriteToRegion(region);
      assert ok && region.bytes == Serialize(State());
      if board.env.writable {
        board.entry := Some(region.bytes);
      } else {
        board.entry := board.env.leftover;
        ok := false;
      }
    }

    method GenerateAddresses(board: Board, ouiPrefix: Option<OuiPrefix>)
      requires Valid() && board.drawn == 0
      modifies ethernet.bytes, ip.octets, board`drawn
      ensures State() == Generate(board.env, ouiPrefix)
      ensures CanBeGenerated(State(), ouiPrefix)
    {
      GeneratedCan(board.env, ouiPrefix);
      ethernet.GenerateAddress(board, ouiPrefix);
      ip.GenerateAddress(board);
    }
  }

  /** IpDevice::InitializeNetworking, up to the point where the addresses are handed to the driver. */
  method LoadOrGenerate(board: Board, ouiPrefix: Option<OuiPrefix>) returns (addresses: Addresses)
    requires board.drawn == 0
    modifies board
    ensures addresses.Valid()
    ensures var r := Boot(board.env, old(board.entry), ouiPrefix);
            board.entry == r.store && addresses.State() == r.addresses
    ensures BootAnswers(board.env, old(board.entry), ouiPrefix, board.entry, addresses.State())
  {
    BootExact(board.env, board.entry, ouiPrefix);
    addresses := new Addresses();
    var status := addresses.ReadEepromEntry(board, ouiPrefix);
    if status != Ok {
      addresses.GenerateAddresses(board, ouiPrefix);
      var _ := addresses.WriteEepromEntry(board);
    }
  }
}
