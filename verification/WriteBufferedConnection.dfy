/** The write-buffered connection: a fixed array filled in place and drained to a client. */
module WriteBufferedConnections {
  import opened Types
  import opened WriteBufferSpec

  /** The underlying (Arduino) client. `respond` decides every answer; `calls` and `received`
      record what it was offered and what it took. */
  class Client {
    const respond: ClientFn
    var calls: seq<seq<Byte>>
    var writeError: int
    ghost var received: seq<Byte>

    constructor (respond: ClientFn)
      ensures this.respond == respond && calls == [] && received == [] && writeError == 0
    {
      this.respond := respond;
      calls, received, writeError := [], [], 0;
    }

    method Write(data: seq<Byte>) returns (wrote: nat)
      modifies this
      ensures wrote == Wrote(respond, old(calls), data)
      ensures calls == old(calls) + [data] && received == old(received) + data[..wrote]
      ensures writeError == respond(old(calls), data).error
    {
      var response := respond(calls, data);
      wrote := Min(response.take, |data|);
      writeError := response.error;
      calls := calls + [data];
      received := received + data[..wrote];
    }
  }

  class WriteBufferedConnection {
    const writeBuffer: array<Byte>
    const writeBufferLimit: uint8
    const client: Client
    var writeBufferSize: uint8
    var writeError: int
    ghost var taken: seq<Byte>

    ghost predicate Valid()
      reads this, writeBuffer, client
    {
      && writeBufferLimit as int <= writeBuffer.Length
      && writeBufferSize <= writeBufferLimit
      && Conserved(State())
    }

    ghost function State(): Conn
      requires writeBufferSize as int <= writeBuffer.Length
      reads this, writeBuffer, client
    {
      Conn(writeBufferLimit as int, writeBuffer[..writeBufferSize as int], writeError,
           client.calls, client.received, taken)
    }

    constructor (writeBuffer: array<Byte>, writeBufferLimit: uint8, client: Client)
      requires 0 < writeBufferLimit as int <= writeBuffer.Length
      requires client.calls == [] && client.received == []
      ensures Valid() && State() == NewConn(writeBufferLimit as int)
      ensures this.writeBuffer == writeBuffer && this.client == client
    {
      this.writeBuffer, this.writeBufferLimit, this.client := writeBuffer, writeBufferLimit, client;
      writeBufferSize, writeError, taken := 0, 0, [];
      new;
      assert writeBuffer[..0] == [];
    }

    /** write(uint8_t): buffer one byte, flushing first if there is no room. */
    method WriteByte(b: Byte) returns (wrote: nat)
      requires Valid()
      modifies this, writeBuffer, client
      ensures Valid() && State() == Put(client.respond, old(State()), b)
      ensures wrote == if writeError == 0 then 1 else 0
    {
      PutConserves(client.respond, State(), b);
      var okToWrite: bool;
      if writeBufferSize >= writeBufferLimit {
        okToWrite := FlushInternal();
      } else {
        okToWrite := writeError == 0;
      }
      if okToWrite {
        writeBuffer[writeBufferSize] := b;
        writeBufferSize := writeBufferSize + 1;
        taken := taken + [b];
        return 1;
      } else {
        return 0;
      }
    }

    /** write(buf, size): the block form, proved to do what writing the bytes one by one does.
        `room` is not recomputed after a flush, so the iteration that flushes copies nothing. */
    method Write(data: seq<Byte>) returns (wrote: nat)
      requires Valid()
      modifies this, writeBuffer, client
      ensures Valid() && State() == PutAll(client.respond, old(State()), data)
      ensures wrote == if writeError == 0 then |data| else 0
    {
      var f := client.respond;
      if writeError != 0 {
        PutAllStuck(f, State(), data);
        return 0;
      }
      var buf: nat, remaining: nat := 0, |data|;
      assert data[0..] == data;
      while remaining > 0
        invariant Valid() && writeError == 0
        invariant buf + remaining == |data|
        invariant PutAll(f, State(), data[buf..]) == PutAll(f, old(State()), data)
        decreases 2 * remaining + (if writeBufferSize == writeBufferLimit then 1 else 0)
      {
        var room := (writeBufferLimit - writeBufferSize) as nat;
        if room == 0 {
          PutAllFlushedFirst(f, State(), data[buf..]);
          var ok := FlushInternal();
          if !ok {
            PutAllStuck(f, State(), data[buf..]);
            return 0;
          }
        }
        if room > remaining {
          room := remaining;
        }
        PutAllCopies(f, State(), data, buf, room);
        CopyIn(data[buf..buf + room]);
        buf := buf + room;
        remaining := remaining - room;
      }
      assert data[buf..] == [];
      return |data|;
    }

    /** memcpy to the end of the buffered bytes. */
    method CopyIn(block: seq<Byte>)
      requires writeBufferSize <= writeBufferLimit && writeBufferLimit as int <= writeBuffer.Length
      requires writeBufferSize as int + |block| <= writeBufferLimit as int
      modifies this`writeBufferSize, this`taken, writeBuffer
      ensures writeBufferSize as int == old(writeBufferSize) as int + |block|
      ensures writeBuffer[..writeBufferSize as int] == old(writeBuffer[..writeBufferSize as int]) + block
      ensures taken == old(taken) + block
    {
      var start := writeBufferSize as int;
      forall i | 0 <= i < |block| {
        writeBuffer[start + i] := block[i];
      }
      writeBufferSize := writeBufferSize + |block| as uint8;
      taken := taken + block;
    }

    method AvailableForWrite() returns (room: int)
      requires Valid()
      ensures room == if writeError == 0 then State().limit - |State().pending| else -1
    {
      if writeError == 0 {
        return (writeBufferLimit - writeBufferSize) as int;
      }
      return -1;
    }

    /** flush(); also what the destructor does. */
    method FlushBuffer()
      requires Valid()
      modifies this, writeBuffer, client
      ensures Valid() && State() == FlushConn(client.respond, old(State()))
      ensures Flushed(client.respond, old(State()), State())
    {
      FlushPersists(client.respond, State());
      if writeBufferSize == 0 {
        return;
      }
      var _ := FlushInternal();
    }

    method FlushInternal() returns (ok: bool)
      requires Valid() && writeBufferSize > 0
      modifies this, client
      ensures Valid() && State() == FlushFull(client.respond, old(State()))
      ensures ok <==> writeError == 0
      ensures ok ==> writeBufferSize == 0
      ensures taken == old(taken)
      ensures Flushed(client.respond, old(State()), State())
    {
      FlushPersists(client.respond, State());
      if writeError != 0 {
        return false;
      }
      ok := DrainBuffer();
    }

    /** The loop of FlushInternal. */
    method DrainBuffer() returns (ok: bool)
      requires Valid() && writeBufferSize > 0 && writeError == 0
      modifies this, client
      ensures Valid() && State() == FlushFull(client.respond, old(State()))
      ensures ok <==> writeError == 0
      ensures ok ==> writeBufferSize == 0
      ensures taken == old(taken)
    {
      var f := client.respond;
      ghost var start := State();
      DrainConserves(f, start, start.pending);
      var buf: nat, size: nat := 0, writeBufferSize as nat;
      while true
        invariant writeBufferSize == old(writeBufferSize)
        invariant 0 < size && buf + size == writeBufferSize as nat
        invariant State() == start.(calls := client.calls, received := client.received)
        invariant Drain(f, State(), writeBuffer[buf..buf + size]) == Drain(f, start, start.pending)
        decreases size
      {
        var block := writeBuffer[buf..buf + size];
        var wrote := client.Write(block);
        if wrote == size {
          writeBufferSize := 0;
          assert writeBuffer[..0] == [];
          return true;
        } else if wrote > 0 {
          buf := buf + wrote;
          size := size - wrote;
          assert block[wrote..] == writeBuffer[buf..buf + size];
        } else {
          writeError := if client.writeError != 0 then client.writeError else BLOCKED_FLUSH;
          return false;
        }
      }
    }
  }
}
