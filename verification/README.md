# Verified model of the McuNet network servers

McuNet lets an Arduino sketch serve TCP connections through a WIZnet W5500 network chip. This project
models its four stateful parts in Dafny and proves what they promise:

* **ServerSocket**, with TcpServerConnection, DisconnectData and the W5500 branches of PlatformNetwork:
  a status register that changes by itself is polled and turned into `OnConnect`, `OnCanRead` and
  `OnDisconnect` callbacks, in which a listener may read, write and close.
* **WriteBufferedConnection**: a fixed write buffer in front of a client that may take part of a block,
  none of it, or fail.
* **HostSocketInfo / HostNetwork**: the emulation of eight hardware sockets by POSIX descriptors.
* **Addresses**: MAC and IP addresses generated once and found again at every later boot.

## How it is built

Each operation is a function of the state and of its surroundings, and each class (same fields, same
branches) is proved to do exactly what the functions say. The theorems are about the functions, over all
runs and all surroundings.

* `W5500.World` holds everything outside the code's control, as functions of a tick that counts accesses
  to the chip: where the chip moves, what a listen leaves behind, real time, the client's answers, the
  listener's actions. A theorem for every world is a theorem for every environment. Before every status
  read and every command the chip may move anywhere `SocketStatus.Reach` allows, so moves between calls,
  inside callbacks and during flushes are all covered.
* A server's history is a log of events: callbacks, listener closes, DISCON and CLOSE commands, failed
  `MCU_DCHECK`s (execution goes on after one, as in a release build). `CallbackTrace` states the callback
  protocol twice, as an automaton and without one, and proves the two equal.
* `ServerSystem` runs any number of servers over the eight sockets of one chip.

Files, in the order of dependence: `Types`, `SocketStatus`, `WriteBufferSpec`, `WriteBufferedConnection`,
`W5500`, `DisconnectData`, `PlatformNetwork`, `CallbackTrace`, `ConnectionSpec`, `TcpServerConnection`,
`ServerSocketSpec`, `ServerFrames` (what an operation leaves alone), `ServerProtocol` (the invariant),
`ServerCallbacks`, `ServerSocket`, `ServerSystem` (all runs), `ServerTurns` (which runs keep the callback
protocol), `ServerCutOffs` (when CLOSE hits a live connection, and that nothing else closes one),
`ServerChecks` (when a status check fails), `ServerDelivery`, `ServerTiming`, `ServerDrain`,
`ServerRecovery`, `ServerLimits` (runs in which things go wrong), `HostSocketSpec`, `HostNetworkSpec`,
`HostSocketInfo`, `AddressSpec`, `Addresses`.

## Assumptions about the environment

* The chip follows the TCP state machine of section 3.3.2 of RFC 9293, with closing as in section 3.6, in
  the terms of its status register (`ChipStep`). It leaves CLOSED, INIT and the non-TCP states only on a
  command; DISCON takes ESTABLISHED to FIN_WAIT and CLOSE_WAIT to LAST_ACK at once; values outside the data
  sheet appear only while it waits for a peer.
* Nothing is assumed about what the status re-reads right after a listen show (src/server_socket.cpp:60 and
  :120; the code asserts LISTEN once, at :125) or about when `ReleaseSocket` is called. Instead the history
  records what happened, and the theorems say what depends on it:
  * last_status_, the disconnect record and the listener agree throughout a run exactly if it has no mishap
    (`NeverBreaks`, told by the guard of each call): the last re-read of a pick or of a relisten already
    showing a connection, or a release of a connection the listener still believes in and the chip has
    dropped, of which `ReleaseSocket` does not tell it. Then the callbacks keep their protocol. In general
    they keep it exactly if no call was out of turn (`ServerTurns.NeverOutOfTurn`): a poll that sees a
    connection of which server and listener hold different beliefs, or a lost socket that only the server
    took for connected. `ServerLimits` gives a run from boot for each mishap and each way to get out of turn.
  * No check of the code fails if every re-read showed LISTEN (`Settled`), and in general exactly if no poll
    read a status it was not prepared for (`ServerChecks`); bytes, drained connections and
    CLOSE commands are as promised in every run. The check and the close of `ReleaseSocket` are two chip
    accesses: a peer that connects in between is cut off. `ServerCutOffs` says exactly when that happens.
  * The bounds on time ask that no re-read found a closing connection (`NoneFoundClosing`), or that each
    found a socket waiting for its peer (`ListensTake`).
* Servers that share a chip have distinct non-zero ports, listeners do not re-enter ServerSocket, and only
  this code opens sockets or writes `_server_port`.
* `Client::write` takes no more than it is given, and `clearWriteError` is not called.

The header comment of src/addresses.h:21-24 promises that a stored address that is not unicast is refused;
src/addresses.cpp:16-28 does not check that, and the model follows the code.

## Model

| member | source | states |
|---|---|---|
| SocketStatus.ReachIsClosure | extras/host/ethernet5500/w5500.h:41-58 | where the chip can be after any number of moves of its own is exactly the reflexive and transitive closure of the single TCP moves |
| SocketStatus.ClassesByRegister | extras/host/ethernet5500/w5500.h:41-58 | which register values are open, closing, live, foreign and in the life of a connection |
| WriteBufferSpec.DrainConserves | src/write_buffered_connection.cpp:111-160 | a flush over partial client writes either hands over every pending byte in order or ends in an error with the buffer untouched and a prefix handed over |
| WriteBufferSpec.DrainPersists | src/write_buffered_connection.cpp:111-160 | it offers all pending bytes first and goes on as long as the client takes at least one: it ends without an error exactly if every call took one, and otherwise after the first that took none, with that call's error or, if it reports none, 1234 |
| WriteBufferSpec.PutAllConserves | src/write_buffered_connection.cpp:42-83 | of a block, a prefix is taken, all of it exactly when no error is left; after an error nothing changes any more |
| WriteBufferSpec.ChunkingIsInvisible | src/write_buffered_connection.cpp:24-83 | for any deterministic client, any two ways of cutting the same bytes into writes leave the same client calls, pending bytes and error |
| WriteBufferSpec.StreamConservation | src/write_buffered_connection.cpp:24-160 | over any run of writes and flushes, received followed by pending is everything offered if there is no error; otherwise received is a prefix of it and never grows again |
| WriteBufferSpec.BatchingBound | src/write_buffered_connection.cpp:29-36 | with a client that takes everything, n > 0 bytes cost exactly floor((n-1)/limit) client writes of limit bytes and leave ((n-1) mod limit)+1 pending |
| WriteBufferedConnections.WriteBufferedConnection.Write | src/write_buffered_connection.cpp:42-83 | the block write, with its array, its stale room and its zero-byte iteration, terminates in bounds and leaves the same state as writing the bytes one at a time; it returns the size or 0 |
| WriteBufferedConnections.WriteBufferedConnection.WriteByte | src/write_buffered_connection.cpp:24-40 | one byte is buffered, after a flush if the buffer is full; 1 is returned exactly if it was taken |
| WriteBufferedConnections.WriteBufferedConnection.FlushInternal | src/write_buffered_connection.cpp:111-160 | the drain loop ends, in bounds, with the buffer empty or the error of the first call of which nothing was taken, and goes on after every partial write |
| WriteBufferedConnections.WriteBufferedConnection.AvailableForWrite | src/write_buffered_connection.cpp:85-90 | the free room of the buffer, or -1 once there is a write error |
| DisconnectRecord.ElapsedIsExact | src/disconnect_data.cpp:20-23 | wrapping 32-bit elapsed time equals real elapsed time exactly when that is below 2^32 ms |
| DisconnectRecord.DisconnectData.RecordDisconnect | src/disconnect_data.cpp:7-13 | only the first disconnect since a reset sets the flag and the time stamp |
| PlatformNetwork.FindUnusedSocket | src/platform_network.cpp:19-30 | the socket found by reading one register after the other, or -1 |
| PlatformNetwork.FindUnusedDrifts | src/platform_network.cpp:19-30 | the search finds the first socket closed when looked at and otherwise changes only what the chip changes |
| PlatformNetwork.InitializeTcpListenerSocket | src/platform_network.cpp:95-129 | a listener is opened exactly on a socket found closed whose port is unset or the same, which then carries the port; otherwise only the chip has moved it, and no other socket changes |
| CallbackTrace.PhasesAreTheProtocol | src/socket_listener.h:17-42 | the automaton accepts exactly the histories in which OnConnect comes only after every earlier connection ended, OnCanRead and OnDisconnect only inside one, each ends once, DISCON at most once, and a repeated listener close only in the same callback |
| TcpServerConnections.TcpServerConnection.constructor | src/tcp_server_connection.cpp:7-16 | constructing a connection resets the shared disconnect record and nothing else |
| ConnectionSpec.CloseSendsFin | src/tcp_server_connection.cpp:18-49 | with a chip that makes no move of its own, close takes ESTABLISHED to FIN_WAIT and CLOSE_WAIT to LAST_ACK and leaves every other status, with two looks before and one after |
| TcpServerConnections.TcpServerConnection.Close | src/tcp_server_connection.cpp:18-49 | flush, a second look at the status, DISCON, which sends a FIN as said above; on every path the disconnect is on record, from no earlier than the call if it was not before, and a socket that was open is on its way out |
| ServerSockets.ServerSocket.PerformIO | src/server_socket.cpp:142-282 | the object moves exactly as its specification, chip, record and history included; it keeps the invariant and makes at most one callback |
| ServerSockets.ServerSocket.PickClosedSocket | src/server_socket.cpp:49-70 | the object moves exactly as its specification, for every answer of the chip, and keeps the invariant |
| ServerSockets.ServerSocket.ReleaseSocket | src/server_socket.cpp:72-81 | the object moves exactly as its specification, check and close being two accesses; it keeps the invariant, whatever last_status_ is, and answers as ReleaseExact says |
| ServerSockets.ServerSocket.SocketLost | src/server_socket.cpp:83-90 | the socket is dropped, the listener told if last_status_ is open, the disconnect recorded; the invariant is kept |
| ServerSockets.ServerSocket.BeginListening | src/server_socket.cpp:104-131 | the object moves exactly as its specification and takes the exit BeginListeningExact says; success leaves the socket with the server's port, no other socket is touched, and from a closed socket the listener hears nothing and last_status_ is the register |
| ServerSockets.ServerSocket.HandleCloseWait | src/server_socket.cpp:310-329 | the object moves exactly as its specification: OnCanRead while bytes remain, else close and OnDisconnect; a live connection is afterwards open and not on record, or on its way out, on record and in agreement with the listener |
| ServerFrames.PickSucceedsExactly | src/server_socket.cpp:49-70 | picking succeeds exactly for a server without a socket when the first closed socket is unused or was last used for the same port |
| ServerFrames.ReleaseExact | src/server_socket.cpp:72-81 | a release of a held socket is refused, with one look taken and nothing changed, exactly if that look shows one of the nine statuses of platform_network.cpp:49-61; otherwise the socket ends closed and let go |
| ServerFrames.BeginListeningExact | src/server_socket.cpp:104-131 | by the looks at the socket: a listener with the server's port is kept, one of the nine statuses is refused, anything else is closed, and then listens exactly if its port is free or the server's own |
| ServerFrames.DoFrame | src/platform_network.cpp:95-127 | an operation touches only its own socket, extends the history, and changes a port only from 0 to its own |
| ServerProtocol.HandleStatusOk | src/server_socket.cpp:172-281 | every branch of the switch re-establishes each part of the invariant: from a status the chip could have left for the one read always, without a failed check once listens settle, in agreement if there was agreement and no mishap |
| ServerProtocol.AnnounceOk | src/server_socket.cpp:289-308 | a callback in which the listener does anything, closing any number of times included, ends with status, record and history in agreement |
| ServerProtocol.ServerCloseLog | src/server_socket.cpp:323-328 | the server's own close of a drained connection ends it with one OnDisconnect |
| ServerProtocol.DoOk | src/server_socket.cpp:32-358 | every public call, at any moment, keeps the invariant |
| ServerProtocol.AgreementExact | src/server_socket.cpp:49-176 | a call ends the agreement of last_status_, record and history exactly if the chip is at the wrong place at one access: open at the last re-read of a pick (:60) or of a relisten (:120), or closed at the check of a release while last_status_ is open |
| ServerSystem.AgreementIsExact | src/server_socket.cpp:49-341 | in every run of N servers the three views of a connection agree after every step exactly if no call of that server came at such a moment, and exactly if the history shows no mishap |
| ServerTurns.TurnExact | src/server_socket.cpp:83-282 | from any state in which the protocol was kept so far, mishaps included, a call breaks it exactly if it is a poll that sees an open connection while last_status_ and the listener's belief differ, or SocketLost with last_status_ open and a listener that has no connection |
| ServerTurns.ProtocolIsExact | src/server_socket.cpp:49-341 | a run of N servers keeps the callback protocol of each exactly if no call on it was out of turn in that sense |
| ServerTurns.EveryRunKeepsTheProtocol | src/server_socket.cpp:142-341 | corollary: no call is out of turn, and the protocol is kept, in every run without mishap, whatever else the chip showed after a listen |
| ServerSystem.EveryEventKeepsItsPromise | src/server_socket.cpp:172-358 | in every run accepted bytes are handed over before DISCON and at the end of a callback unless a write failed, the server itself closes only a drained connection, and CLOSE goes only to a socket not seen live; and if every re-read showed LISTEN, no check fails and CLOSE hits a live connection only in the race of ReleaseSocket |
| ServerChecks.CheckExact | src/server_socket.cpp:172-281 | in any state and world, a call fails a status check exactly if it is a poll that reads a status not to be expected after the remembered one |
| ServerChecks.ChecksAreExact | src/server_socket.cpp:172-281 | in every run, of servers with any ports, no check has failed exactly if no poll read such a status |
| ServerDelivery.CallbackDelivers | src/server_socket.cpp:289-308 | at the end of a callback the client has got exactly the bytes its listener wrote in it, in order, unless a write failed, and then the first of them |
| ServerSystem.SocketsAreExclusive | src/server_socket.cpp:49-70 | in no run do two servers with different ports hold the same hardware socket |
| ServerSystem.RunOwned | src/platform_network.cpp:108-116 | in every run a held socket carries its server's port, and a port once set never changes |
| ServerTiming.ClosingIsBounded | src/server_socket.cpp:343-350 | polled at least every d ms with 5000 + d below 2^32, and no listen finding a closing connection, no connection is closing more than 5000 + d ms after its recorded disconnect, the wrapping clock notwithstanding |
| ServerTiming.OutOfServiceIsBounded | src/server_socket.cpp:142-176 | polled so and with listens that take effect, a held socket is remembered as closing or CLOSED for at most 5000 + 2d ms after the recorded disconnect: by then it listens again |
| ServerTiming.TimeoutExact | src/server_socket.cpp:223-234 | a poll of a closing connection forces it closed exactly if a disconnect is on record and the time since, modulo 2^32 ms, exceeds 5000; else it changes nothing |
| ServerCallbacks.AtMostOneCallback | src/server_socket.cpp:133-282 | every PerformIO makes at most one callback, and exactly when it makes one |
| ServerDrain.HalfCloseDrains | src/server_socket.cpp:210-221 | in any run without mishap from a half-closed connection with u unread bytes and a listener that reads, at most u OnCanRead calls come before its end, and it has ended after u + 1 polls |
| ServerDrain.ReadDrains | src/server_socket.cpp:310-329 | one poll of a half-closed connection either ends it or leaves fewer bytes |
| ServerRecovery.PollDescends | src/server_socket.cpp:236-266 | from CLOSED, INIT or a foreign status each poll takes exactly one step down a ranking of (status, last_status_) |
| ServerRecovery.Recovers | src/server_socket.cpp:157-176 | at most three polls, and exactly as many as the rank says, bring the socket to LISTEN |
| ServerRecovery.StuckRecoversExactly | src/server_socket.cpp:157-234 | a connection the chip holds in a closing state is back at LISTEN after exactly the polls before the first tick past the limit, the one at it and one more |
| ServerRecovery.StuckRecovers | src/server_socket.cpp:157-234 | with at least g and at most d ms between polls, all but two of those polls fit into 5000 ms, as n polls with (n - 2) * g <= 5000 |
| ServerTurns.UnannouncedConnectionBreaksExactly | src/server_socket.cpp:197-221 | if last_status_ is open though the listener was not told, the next poll breaks the protocol exactly if it still finds the connection open, CLOSE_WAIT included |
| ServerTurns.MissedListenBreaksProtocol | src/server_socket.cpp:49-131 | so it is after every pick and every relisten whose last re-read missed a connection; and SocketLost then breaks the protocol in any case, with an OnDisconnect for a connection never announced |
| ServerTurns.UnfinishedConnectionBreaksExactly | src/server_socket.cpp:197-221 | while the listener believes in a connection that was let go, the next poll breaks the protocol exactly if it finds a new one |
| ServerCutOffs.CutOffExact | src/server_socket.cpp:72-81 | in any state and world, a call closes a live connection exactly if it is a release whose check finds the socket outside the life of a connection and whose close finds it inside, or a poll that found SYNSENT and closes what that became |
| ServerCutOffs.CutOffsAreExact | src/server_socket.cpp:352-358 | in every run, of servers with any ports, no CLOSE has hit a live connection exactly if no call came at such a moment |
| ServerCutOffs.OnlyReleasesCutOff | src/server_socket.cpp:72-81 | in every run whose listens settle, exactly if no release did |
| ServerCutOffs.OnlyCloseCloses | src/server_socket.cpp:352-358 | between any two moments of any run on a chip that resets nothing, a socket goes from in use to CLOSED only if the history of a server shows a CLOSE: close() of a connection never does it |
| ServerLimits.PeerMissedAtPick | src/server_socket.cpp:59-62 | a run from boot in which a peer connects between the two re-reads of a pick and the protocol breaks |
| ServerLimits.PeerMissedThenLost | src/server_socket.cpp:83-90 | the same with SocketLost instead of a poll |
| ServerLimits.PeerMissedAtRelisten | src/server_socket.cpp:119-126 | a run from boot in which a peer connects before the one re-read of a relisten and the protocol breaks |
| ServerLimits.ReleaseLosesDisconnect | src/server_socket.cpp:72-81 | a run from boot with working listens in which a dropped connection is released and the listener gets a second OnConnect inside the first connection |
| ServerLimits.ReleaseCanRace | src/server_socket.cpp:72-81 | a run from boot, a pick and a release, in which the release closes an established connection |
| ServerLimits.SamePortCanShare | src/server_socket.cpp:49-70 | a run from boot after which two servers with one port hold one socket |
| HostSocketSpec.InitializeStep | extras/host/ethernet5500/host_socket_info.cpp:212-267 | every exit conserves descriptors, it succeeds exactly if it keeps its listener or every system call does, and the port fields tell the truth afterwards exactly unless it opens a listener and SetNonBlocking alone fails or all succeeds with a zero port |
| HostSocketSpec.AcceptStep | extras/host/ethernet5500/host_socket_info.cpp:269-299 | accepting succeeds exactly if there is a listener and accept gives a descriptor, which then replaces the listener's, open in both directions; otherwise nothing that matters changes |
| HostSocketSpec.NonBlockingExact | extras/host/ethernet5500/host_socket_info.cpp:335-356 | SetNonBlocking succeeds exactly if F_GETFL does and O_NONBLOCK is set already or F_SETFL succeeds |
| HostSocketSpec.HalfClosedStep | extras/host/ethernet5500/host_socket_info.cpp:140-175 | by the peek: a byte means not half closed, the end means half closed and no more reading, anything else halts; no peek without a readable connection |
| HostSocketSpec.RecvReceives | extras/host/ethernet5500/host_socket_info.cpp:404-456 | by what recv answers: bytes, their end, try again, broken, unexpected, each with what it does to the slot |
| HostSocketSpec.StatusStep | extras/host/ethernet5500/host_socket_info.cpp:191-207 | on a truthful slot, by what accept and the peek answer: CLOSED exactly if unused, LISTEN if no connection came, ESTABLISHED exactly if there is a byte to read, CLOSE_WAIT once the end was seen; no port CHECK fails and the fall-through is not reached |
| HostSocketSpec.UnusedChecksExact | extras/host/ethernet5500/host_socket_info.cpp:112-126 | the CHECKs of IsUnused hold exactly on truthful slots |
| HostNetworkSpec.DescriptorsAreConserved | extras/host/ethernet5500/host_network.cpp:114-138 | in every run over eight slots, for all system call results: open descriptors are exactly those held, none twice, none closed twice, no slot listening and connected at once, none left after the destructors |
| HostNetworkSpec.PortsTellTheTruth | extras/host/ethernet5500/host_socket_info.h:139-148 | throughout a run a slot has a listener descriptor exactly when both ports are set, exactly if all listens are clean in the sense of the system calls' answers; then no CHECK on the ports fails |
| HostNetworkSpec.OnlyNonBlockingMatters | extras/host/ethernet5500/host_socket_info.cpp:252-256 | from the start and with positive ports, it depends only on SetNonBlocking never failing after a bind that worked |
| HostNetworkSpec.PortChecksAreExact | extras/host/ethernet5500/host_socket_info.cpp:112-126 | in every run, for all system call results and ports, a CHECK on the port fields fails exactly if a search, SocketStatus or SocketIsTcpListener examines a slot whose ports do not tell the truth |
| HostNetworkSpec.StrayListenerHalts | extras/host/ethernet5500/host_socket_info.cpp:252-256 | the search for an unused slot stops the process after a listen exactly if that listen was not clean |
| HostNetworkSpec.StrayListenerIsReached | extras/host/ethernet5500/host_socket_info.cpp:252-256 | system call results for which the first listen and the search after it do so |
| HostNetworkSpec.FindUnusedCoherent | extras/host/ethernet5500/host_network.cpp:52-62 | on truthful slots the search finds the first one without a descriptor and changes nothing |
| HostSockets.HostSocketInfo.InitializeTcpListener | extras/host/ethernet5500/host_socket_info.cpp:212-267 | the object's fields and the process change exactly as specified on every early exit, and as InitializeStep promises |
| HostSockets.HostSocketInfo.SocketStatus | extras/host/ethernet5500/host_socket_info.cpp:191-207 | the object changes and answers exactly as specified, with the status StatusStep says |
| HostSockets.HostNetwork.SocketStatus | extras/host/ethernet5500/host_network.cpp:99-110 | the status returned is the one StatusStep says of the named slot, only that slot changes and descriptors are conserved |
| HostSockets.HostSocketInfo.RecvInternal | extras/host/ethernet5500/host_socket_info.cpp:404-456 | end of input and a broken connection change the fields exactly as specified, an unexpected error halts; the listener is never touched and descriptors are conserved |
| HostSockets.HostNetwork.CloseSocket | extras/host/ethernet5500/host_network.cpp:130-138 | only the named slot changes, it holds no descriptor afterwards, and descriptors are conserved |
| HostSockets.HostNetwork.Destroy | extras/host/ethernet5500/host_socket_info.cpp:91-94 | from any conserved table, no descriptor is left open and none is closed twice |
| HostSockets.HostNetwork.InitializeTcpListenerSocket | extras/host/ethernet5500/host_network.cpp:114-118 | only the named slot changes, on every exit, the answer is the one InitializeStep says, and descriptors are conserved |
| AddressSpec.ToOuiUnicastExact | src/ethernet_address.cpp:24-31 | the result is locally administered and unicast, other bits are kept, and exactly such octets are left unchanged |
| AddressSpec.RoundTrip | src/addresses.cpp:46-56 | what is written is what is read back, whatever follows it |
| AddressSpec.GeneratedExactly | src/ethernet_address.cpp:35-49 | exactly these pairs can be generated: any locally administered unicast address, starting with the normalised prefix if there is one, with any IP address from 169.254.1.0 to 169.254.254.255 |
| AddressSpec.GeneratedPassesExactly | src/ethernet_address.cpp:35-72 | a generated address starts with the three octets of the prefix, as the check wants it, exactly for the prefixes the OuiPrefix constructor can make |
| AddressSpec.LoadExact | src/addresses.cpp:16-56 | by the octets of the entry: missing, shorter than 10, first three other than the prefix, or good, with the addresses read |
| AddressSpec.BootKeepsExactly | src/ip_device.cpp:72-88 | a boot keeps a stored identity exactly if it asks for no prefix or for the first three octets stored, and then writes nothing |
| AddressSpec.BootExact | src/ip_device.cpp:72-88 | what a boot uses and leaves in the store, by the octets of the entry it finds and whether the store can be written |
| AddressSpec.StableIdentity | src/ip_device.cpp:72-88 | after one boot whose save succeeds, all later boots with the same prefix or none load the same MAC and IP and never rewrite them |
| AddressClasses.EthernetAddress.GenerateAddress | src/ethernet_address.cpp:35-49 | the bytes become prefix and random octets with a normalised first octet, whatever they held before |
| AddressClasses.Addresses.ReadEepromEntry | src/addresses.cpp:16-28 | the status reported is the one LoadExact says of the octets of the entry, and for Ok so are the addresses |
| AddressClasses.LoadOrGenerate | src/ip_device.cpp:72-88 | store and addresses after a boot are those BootExact says |

## Left out

- Logging, printing and `InsertInto`: output only.
- Pins, resets, DHCP, gateway and subnet of `IpDevice`: hardware calls in a straight line.
- The Ethernet5500 driver: the chip is a transition relation, `::socket` and `::listen` one command whose result the world chooses, because neither reports an error.
- The EEPROM TLV format: a store with one optional entry of any length; what a failed save leaves behind is arbitrary.
- ServerSocket over the host network: there a disconnect does not leave the open statuses (extras/host/ethernet5500/host_socket_info.cpp:301-310), so the callback protocol does not hold.
- Other users of the chip, such as UDP sockets for DHCP: sockets are opened only by servers.
- Inheritance: a TcpServerConnection has a WriteBufferedConnection instead of being one, and the abstract listener and client are classes driven by the world.
- WriteBufferedConnections.WriteBufferedConnection.Write: takes the bytes as a sequence, so the check that the source buffer does not overlap the write buffer has no counterpart.
- Reading through a connection: a listener's read removes bytes from the chip's count; their contents, `peek` and `connected` are not modelled.
- Received and sent bytes on the host, and `CanReadFromConnection`: only the descriptors and flags are; an open connection with nothing to read halts `SocketStatus`, as it does in the code.
- `MCU_DCHECK` and `DCHECK` never stop the model; a failing `CHECK` stops the host process for good.
- HostSockets.HostSocketInfo.SocketStatus: slot numbers of 8 and more, which `GetHostSocketInfo` treats as an error or, for 8, as a missing slot, are not modelled.
- `HostSocketInfo::IsClosed`, `IsConnected`, `Send` and `Flush`: they change no field.
- Port map flag parsing, `FindFreeInetPort`, `EthernetServer`, `EthernetUDP`, test tools: no property of their own.
- Comparison operators of addresses.
