/** MAC and IP addresses: how they are generated, saved, checked and found again at the next boot. */
module AddressSpec {
  import opened Types

  const ETHERNET_SIZE: nat := 6
  const IP_SIZE: nat := 4
  const ENTRY_SIZE: nat := ETHERNET_SIZE + IP_SIZE

  /** First octet made locally administered (second bit from below set) and unicast (lowest clear). */
  function ToOuiUnicast(b: Byte): Byte {
    (b | 0x02) & 0xFE
  }

  predicate IsOuiUnicast(b: Byte) {
    b & 0x02 != 0 && b & 0x01 == 0
  }

  lemma ToOuiUnicastExact(b: Byte)
    ensures IsOuiUnicast(ToOuiUnicast(b))
    ensures ToOuiUnicast(b) == b <==> IsOuiUnicast(b)
    ensures ToOuiUnicast(ToOuiUnicast(b)) == ToOuiUnicast(b)
    ensures ToOuiUnicast(b) & 0xFC == b & 0xFC
  {
  }

  /** Three octets; the class has no other constructor than NewPrefix. */
  datatype OuiPrefix = OuiPrefix(b0: Byte, b1: Byte, b2: Byte)

  function NewPrefix(b0: Byte, b1: Byte, b2: Byte): OuiPrefix {
    OuiPrefix(ToOuiUnicast(b0), b1, b2)
  }

  ghost predicate IsPrefix(p: OuiPrefix) {
    exists b0, b1, b2 :: p == NewPrefix(b0, b1, b2)
  }

  /** The optional prefix of a sketch. */
  ghost predicate IsConstructed(prefix: Option<OuiPrefix>) {
    prefix.Some? ==> IsPrefix(prefix.value)
  }

  /** The constructor makes exactly the prefixes with a normalised first octet. */
  lemma PrefixesAreNormal(p: OuiPrefix)
    ensures IsPrefix(p) <==> IsOuiUnicast(p.b0)
  {
    ToOuiUnicastExact(p.b0);
    assert p.b0 == ToOuiUnicast(p.b0) ==> p == NewPrefix(p.b0, p.b1, p.b2);
    forall b0, b1, b2 | p == NewPrefix(b0, b1, b2) ensures IsOuiUnicast(p.b0) {
      ToOuiUnicastExact(b0);
    }
  }

  datatype Pair = Pair(ethernet: seq<Byte>, ip: seq<Byte>)

  predicate WellSized(a: Pair) {
    |a.ethernet| == ETHERNET_SIZE && |a.ip| == IP_SIZE
  }

  predicate HasOuiPrefix(ethernet: seq<Byte>, p: OuiPrefix)
    requires |ethernet| == ETHERNET_SIZE
  {
    ethernet[0] == p.b0 && ethernet[1] == p.b1 && ethernet[2] == p.b2
  }

  /** The check compares all three octets, so an address has one prefix. */
  lemma PrefixIsFirstThree(ethernet: seq<Byte>, p: OuiPrefix)
    requires |ethernet| == ETHERNET_SIZE
    ensures HasOuiPrefix(ethernet, p) <==> ethernet[..3] == [p.b0, p.b1, p.b2]
  {
  }

  /** One boot's surroundings: the random numbers drawn, in order; whether the store accepts a
      write; and what the store holds after a write it did not accept. */
  datatype Env = Env(random: nat -> nat, writable: bool, leftover: Option<seq<Byte>>)

  /** random(low, high) of the Arduino library, drawn as number i. */
  function Draw(e: Env, i: nat, low: nat, high: nat): (r: nat)
    requires low < high
    ensures low <= r < high
  {
    low + e.random(i) % (high - low)
  }

  function DrawByte(e: Env, i: nat): Byte {
    Draw(e, i, 0, 256) as Byte
  }

  /** Octets `from`..5, drawn in order. */
  function DrawBytes(e: Env, from: nat): seq<Byte>
    requires from <= ETHERNET_SIZE
  {
    seq(ETHERNET_SIZE - from, i requires 0 <= i < ETHERNET_SIZE - from => DrawByte(e, i))
  }

  function GenerateEthernet(e: Env, prefix: Option<OuiPrefix>): (r: seq<Byte>)
    ensures |r| == ETHERNET_SIZE
  {
    var raw := match prefix
               case Some(p) => [p.b0, p.b1, p.b2] + DrawBytes(e, 3)
               case None => DrawBytes(e, 0);
    raw[0 := ToOuiUnicast(raw[0])]
  }

  /** How many random numbers the Ethernet address uses up. */
  function Drawn(prefix: Option<OuiPrefix>): nat {
    if prefix.Some? then 3 else 6
  }

  function GenerateIp(e: Env, start: nat): (r: seq<Byte>)
    ensures |r| == IP_SIZE
  {
    [169, 254, Draw(e, start, 1, 255) as Byte, Draw(e, start + 1, 0, 256) as Byte]
  }

  function Generate(e: Env, prefix: Option<OuiPrefix>): (r: Pair)
    ensures WellSized(r)
  {
    Pair(GenerateEthernet(e, prefix), GenerateIp(e, Drawn(prefix)))
  }

  /** What GenerateAddresses can make: any locally administered unicast address, with the prefix in
      front if there is one, and any link-local IP address of RFC 3927 from 169.254.1.0 to 169.254.254.255. */
  ghost predicate CanBeGenerated(a: Pair, prefix: Option<OuiPrefix>) {
    && WellSized(a)
    && IsOuiUnicast(a.ethernet[0])
    && (prefix.Some? ==>
          var p := prefix.value;
          a.ethernet[..3] == [ToOuiUnicast(p.b0), p.b1, p.b2])
    && a.ip[0] == 169 && a.ip[1] == 254 && a.ip[2] != 0 && a.ip[2] != 255
  }

  /** Random numbers that make this pair. */
  function EnvFor(a: Pair, prefix: Option<OuiPrefix>): Env
    requires WellSized(a)
  {
    var skip := if prefix.Some? then 3 else 0;
    Env(i => if i < 6 - skip then a.ethernet[i + skip] as nat
             else if i == 6 - skip then (var n := a.ip[2] as nat; if n == 0 then 0 else n - 1)
             else a.ip[3] as nat,
        true, None)
  }

  /** The random numbers decide every octet that is not fixed, each number another one: exactly these
      pairs are generated. */
  lemma GeneratedExactly(a: Pair, prefix: Option<OuiPrefix>)
    ensures (exists e :: Generate(e, prefix) == a) <==> CanBeGenerated(a, prefix)
  {
    forall e ensures CanBeGenerated(Generate(e, prefix), prefix) {
      GeneratedCan(e, prefix);
    }
    if CanBeGenerated(a, prefix) {
      EnvForGenerates(a, prefix);
    }
  }

  lemma NeitherEnd(n: nat)
    requires 1 <= n < 255
    ensures n as Byte != 0 && n as Byte != 255
  {
    var b := n as Byte;
    assert b as nat == n;
  }

  lemma IpIsLinkLocal(e: Env, start: nat)
    ensures var ip := GenerateIp(e, start); ip[0] == 169 && ip[1] == 254 && ip[2] != 0 && ip[2] != 255
  {
    NeitherEnd(Draw(e, start, 1, 255));
  }

  lemma GeneratedCan(e: Env, prefix: Option<OuiPrefix>)
    ensures CanBeGenerated(Generate(e, prefix), prefix)
  {
    IpIsLinkLocal(e, Drawn(prefix));
    if prefix.Some? {
      ToOuiUnicastExact(prefix.value.b0);
    } else {
      ToOuiUnicastExact(DrawBytes(e, 0)[0]);
    }
  }

  lemma Draws(e: Env, i: nat, low: nat, high: nat, n: nat)
    requires low <= n < high && e.random(i) == n - low
    ensures Draw(e, i, low, high) == n
  {
  }

  lemma OctetRoundTrip(b: Byte, n: nat)
    requires n == b as nat
    ensures n < 256 && n as Byte == b
  {
  }

  lemma DrawsByte(e: Env, i: nat, b: Byte, n: nat)
    requires n == b as nat && e.random(i) == n
    ensures DrawByte(e, i) == b
  {
    OctetRoundTrip(b, n);
    Draws(e, i, 0, 256, n);
  }

  lemma EnvForGenerates(a: Pair, prefix: Option<OuiPrefix>)
    requires CanBeGenerated(a, prefix)
    ensures Generate(EnvFor(a, prefix), prefix) == a
  {
    EnvForEthernet(a, prefix);
    EnvForIp(a, prefix);
  }

  lemma EnvForEthernet(a: Pair, prefix: Option<OuiPrefix>)
    requires CanBeGenerated(a, prefix)
    ensures GenerateEthernet(EnvFor(a, prefix), prefix) == a.ethernet
  {
    var skip := if prefix.Some? then 3 else 0;
    DrawsAll(EnvFor(a, prefix), a.ethernet, skip);
    ToOuiUnicastExact(a.ethernet[0]);
    FixesFirst(a.ethernet, prefix, DrawBytes(EnvFor(a, prefix), skip));
  }

  lemma DrawsAll(e: Env, ethernet: seq<Byte>, skip: nat)
    requires |ethernet| == ETHERNET_SIZE && skip <= ETHERNET_SIZE
    requires forall i: nat :: i < ETHERNET_SIZE - skip ==> e.random(i) == ethernet[i + skip] as nat
    ensures DrawBytes(e, skip) == ethernet[skip..]
  {
    forall i: nat | i < ETHERNET_SIZE - skip ensures DrawByte(e, i) == ethernet[i + skip] {
      DrawsByte(e, i, ethernet[i + skip], ethernet[i + skip] as nat);
    }
  }

  /** Normalising the first octet makes the address from the prefix and the octets drawn. */
  lemma FixesFirst(ethernet: seq<Byte>, prefix: Option<OuiPrefix>, drawn: seq<Byte>)
    requires |ethernet| == ETHERNET_SIZE && ToOuiUnicast(ethernet[0]) == ethernet[0]
    requires match prefix
             case Some(p) => ethernet[..3] == [ToOuiUnicast(p.b0), p.b1, p.b2] && drawn == ethernet[3..]
             case None => drawn == ethernet
    ensures var raw := match prefix
                       case Some(p) => [p.b0, p.b1, p.b2] + drawn
                       case None => drawn;
            |raw| == ETHERNET_SIZE && raw[0 := ToOuiUnicast(raw[0])] == ethernet
  {
    if prefix.Some? {
      assert ethernet == ethernet[..3] + ethernet[3..];
    }
  }

  lemma EnvForIp(a: Pair, prefix: Option<OuiPrefix>)
    requires CanBeGenerated(a, prefix)
    ensures GenerateIp(EnvFor(a, prefix), Drawn(prefix)) == a.ip
  {
    OctetRoundTrip(a.ip[2], a.ip[2] as nat);
    DrawsIp(EnvFor(a, prefix), Drawn(prefix), a.ip, a.ip[2] as nat, a.ip[3] as nat);
  }

  lemma DrawsIp(e: Env, start: nat, ip: seq<Byte>, third: nat, fourth: nat)
    requires |ip| == IP_SIZE && ip[0] == 169 && ip[1] == 254
    requires third == ip[2] as nat && fourth == ip[3] as nat && 1 <= third < 255
    requires e.random(start) == third - 1 && e.random(start + 1) == fourth
    ensures GenerateIp(e, start) == ip
  {
    OctetRoundTrip(ip[2], third);
    OctetRoundTrip(ip[3], fourth);
    Draws(e, start, 1, 255, third);
    Draws(e, start + 1, 0, 256, fourth);
  }

  // Saving and loading.

  datatype Status = Ok | NotFound | Unknown | FailedPrecondition

  function Serialize(a: Pair): seq<Byte> { a.ethernet + a.ip }

  /** Both reads of ReadFromRegion, from an entry of any length. */
  function Parse(entry: seq<Byte>): Option<Pair> {
    if |entry| < ENTRY_SIZE then None
    else Some(Pair(entry[..ETHERNET_SIZE], entry[ETHERNET_SIZE..ENTRY_SIZE]))
  }

  predicate Acceptable(a: Pair, prefix: Option<OuiPrefix>)
    requires WellSized(a)
  {
    prefix.None? || HasOuiPrefix(a.ethernet, prefix.value)
  }

  /** What ReadEepromEntry reports, and the addresses it reports them for. */
  function Load(store: Option<seq<Byte>>, prefix: Option<OuiPrefix>): (r: (Status, Option<Pair>))
    ensures r.0 == Ok <==> r.1.Some?
    ensures r.1.Some? ==> WellSized(r.1.value)
  {
    match store
    case None => (NotFound, None)
    case Some(entry) =>
      match Parse(entry)
      case None => (Unknown, None)
      case Some(a) => if Acceptable(a, prefix) then (Ok, Some(a)) else (FailedPrecondition, None)
  }

  /** After a boot: the store, the addresses in use, whether they were generated and whether a
      save of them succeeded. */
  datatype Booted = Booted(store: Option<seq<Byte>>, addresses: Pair, generated: bool, saved: bool)

  /** Load the addresses; if that fails, generate new ones and try to save them. */
  function Boot(e: Env, store: Option<seq<Byte>>, prefix: Option<OuiPrefix>): (r: Booted)
    ensures WellSized(r.addresses)
  {
    var loaded := Load(store, prefix).1;
    if loaded.Some? then Booted(store, loaded.value, false, false)
    else
      var a := Generate(e, prefix);
      Booted(if e.writable then Some(Serialize(a)) else e.leftover, a, true, e.writable)
  }

  /** What is written is what is read back, whatever follows it in the entry; and every entry long
      enough starts with what was written of it. */
  lemma RoundTrip(a: Pair, rest: seq<Byte>)
    requires WellSized(a)
    ensures Parse(Serialize(a) + rest) == Some(a)
    ensures |Serialize(a)| == ENTRY_SIZE
  {
    var entry := Serialize(a) + rest;
    assert entry[..ETHERNET_SIZE] == a.ethernet;
    assert entry[ETHERNET_SIZE..ENTRY_SIZE] == a.ip;
  }

  lemma ParseSerialize(entry: seq<Byte>)
    requires Parse(entry).Some?
    ensures Serialize(Parse(entry).value) == entry[..ENTRY_SIZE]
  {
  }

  /** A generated address passes the check made on it at the next boot, that is, starts with the three
      octets of the prefix, exactly when the prefix is one the OuiPrefix constructor could have made. */
  lemma GeneratedPassesExactly(e: Env, p: OuiPrefix)
    ensures GenerateEthernet(e, Some(p))[..3] == [p.b0, p.b1, p.b2] <==> IsPrefix(p)
    ensures HasOuiPrefix(GenerateEthernet(e, Some(p)), p) <==> IsPrefix(p)
    ensures IsOuiUnicast(GenerateEthernet(e, Some(p))[0]) && IsOuiUnicast(GenerateEthernet(e, None)[0])
  {
    PrefixesAreNormal(p);
    PrefixIsFirstThree(GenerateEthernet(e, Some(p)), p);
    ToOuiUnicastExact(p.b0);
    ToOuiUnicastExact(DrawBytes(e, 0)[0]);
  }

  lemma GeneratedIsAcceptable(e: Env, prefix: Option<OuiPrefix>)
    requires IsConstructed(prefix)
    ensures Acceptable(Generate(e, prefix), prefix)
  {
    if prefix.Some? {
      GeneratedPassesExactly(e, prefix.value);
    }
  }

  /** The octets a prefix asks for are the first three of the entry. */
  predicate Matches(entry: seq<Byte>, prefix: Option<OuiPrefix>)
    requires |entry| >= 3
  {
    prefix.Some? ==> entry[..3] == [prefix.value.b0, prefix.value.b1, prefix.value.b2]
  }

  /** Which of the four answers ReadEepromEntry gives, by the octets of the entry, and which addresses. */
  ghost predicate LoadAnswers(store: Option<seq<Byte>>, prefix: Option<OuiPrefix>, status: Status, a: Pair) {
    && status == (match store
                  case None => NotFound
                  case Some(entry) =>
                    if |entry| < 10 then Unknown else if Matches(entry, prefix) then Ok else FailedPrecondition)
    && (status == Ok ==> a == Pair(store.value[..6], store.value[6..10]))
  }

  lemma LoadExact(store: Option<seq<Byte>>, prefix: Option<OuiPrefix>)
    ensures var (status, a) := Load(store, prefix);
            LoadAnswers(store, prefix, status, if a.Some? then a.value else Pair([], []))
  {
    if store.Some? && |store.value| >= ENTRY_SIZE {
      var ethernet := store.value[..ETHERNET_SIZE];
      assert ethernet[..3] == store.value[..3];
      if prefix.Some? {
        PrefixIsFirstThree(ethernet, prefix.value);
      }
    }
  }

  /** A boot keeps a stored identity exactly when it asks for no prefix or for the first three octets
      stored; otherwise it generates an address that differs from the stored one. */
  lemma BootKeepsExactly(e: Env, a: Pair, rest: seq<Byte>, prefix: Option<OuiPrefix>)
    requires WellSized(a) && IsConstructed(prefix)
    ensures var r := Boot(e, Some(Serialize(a) + rest), prefix);
            && (r.addresses == a <==> Matches(a.ethernet, prefix))
            && (Matches(a.ethernet, prefix) <==> Acceptable(a, prefix))
            && (Matches(a.ethernet, prefix) ==> r.store == Some(Serialize(a) + rest) && !r.generated)
  {
    RoundTrip(a, rest);
    if prefix.Some? {
      PrefixIsFirstThree(a.ethernet, prefix.value);
      GeneratedPassesExactly(e, prefix.value);
    }
  }

  /** What a boot leaves, by the octets of the entry it finds: a readable and matching entry is used and
      kept; otherwise the addresses generated are used and, if the store accepts them, saved as they are. */
  ghost predicate BootAnswers(e: Env, store: Option<seq<Byte>>, prefix: Option<OuiPrefix>,
                              after: Option<seq<Byte>>, a: Pair)
  {
    if store.Some? && |store.value| >= 10 && Matches(store.value, prefix) then
      after == store && a == Pair(store.value[..6], store.value[6..10])
    else
      a == Generate(e, prefix) && after == if e.writable then Some(a.ethernet + a.ip) else e.leftover
  }

  lemma BootExact(e: Env, store: Option<seq<Byte>>, prefix: Option<OuiPrefix>)
    ensures var r := Boot(e, store, prefix);
            && BootAnswers(e, store, prefix, r.store, r.addresses)
            && (r.generated <==> !(store.Some? && |store.value| >= 10 && Matches(store.value, prefix)))
            && (r.saved <==> r.generated && e.writable)
  {
    LoadExact(store, prefix);
  }

  /** Later boots, each with its own surroundings and its own prefix. */
  function Boots(store: Option<seq<Byte>>, later: seq<(Env, Option<OuiPrefix>)>): (r: seq<Booted>)
    ensures |r| == |later|
    decreases |later|
  {
    if |later| == 0 then []
    else
      var first := Boot(later[0].0, store, later[0].1);
      [first] + Boots(first.store, later[1..])
  }

  /** Stable identity: after one boot whose save succeeds, any number of later boots that ask for the
      same prefix, or for none, load exactly those addresses and never write again. */
  lemma {:induction false} StableIdentity(e: Env, store: Option<seq<Byte>>, prefix: Option<OuiPrefix>,
                       later: seq<(Env, Option<OuiPrefix>)>)
    requires IsConstructed(prefix)
    requires var first := Boot(e, store, prefix); first.generated ==> first.saved
    requires forall i :: 0 <= i < |later| ==> later[i].1 == prefix || later[i].1 == None
    ensures var first := Boot(e, store, prefix);
            forall i :: 0 <= i < |later| ==>
              var r := Boots(first.store, later)[i];
              r.addresses == first.addresses && r.store == first.store && !r.generated
  {
    var rest := BootLeavesEntry(e, store, prefix);
    StableFrom(Boot(e, store, prefix).addresses, rest, later, prefix);
  }

  /** What a boot loads, or saves, is what the store then holds, perhaps followed by other bytes. */
  lemma BootLeavesEntry(e: Env, store: Option<seq<Byte>>, prefix: Option<OuiPrefix>) returns (rest: seq<Byte>)
    requires IsConstructed(prefix)
    requires var r := Boot(e, store, prefix); r.generated ==> r.saved
    ensures var r := Boot(e, store, prefix);
            r.store == Some(Serialize(r.addresses) + rest) && Acceptable(r.addresses, prefix)
  {
    var r := Boot(e, store, prefix);
    if r.generated {
      GeneratedIsAcceptable(e, prefix);
      rest := [];
      assert Serialize(r.addresses) + rest == Serialize(r.addresses);
    } else {
      ParseSerialize(store.value);
      rest := store.value[ENTRY_SIZE..];
      assert store.value == store.value[..ENTRY_SIZE] + rest;
    }
  }

  lemma {:induction false} StableFrom(a: Pair, rest: seq<Byte>, later: seq<(Env, Option<OuiPrefix>)>,
                                      prefix: Option<OuiPrefix>)
    requires WellSized(a) && IsConstructed(prefix) && Acceptable(a, prefix)
    requires forall i :: 0 <= i < |later| ==> later[i].1 == prefix || later[i].1 == None
    ensures var store := Some(Serialize(a) + rest);
            forall i :: 0 <= i < |later| ==>
              var r := Boots(store, later)[i];
              r.addresses == a && r.store == store && !r.generated
    decreases |later|
  {
    if |later| > 0 {
      BootKeepsExactly(later[0].0, a, rest, later[0].1);
      StableFrom(a, rest, later[1..], prefix);
    }
  }
}
