/** What a buffered connection does with the bytes written to it, one byte at a time.
    This is the reference behaviour; the class in WriteBufferedConnection.dfy is proved
    to follow it, block writes included. */
module WriteBufferSpec {
  import opened Types

  /** Recorded when the client takes nothing and reports no error. */
  const BLOCKED_FLUSH: int := 1234

  /** A client's answer to one write: how many bytes it is willing to take, and the
      error it reports if it takes none. */
  datatype Response = Response(take: nat, error: int)

  /** A deterministic client: its answer depends on the blocks it was offered before and
      on the block offered now. It may take less than a block, nothing at all, or fail. */
  type ClientFn = (seq<seq<Byte>>, seq<Byte>) -> Response

  /** A connection: its pending bytes and sticky write error, and what the client has seen.
      `calls` are the blocks offered to the client, `received` the bytes it took, and `taken`
      every byte that ever entered the buffer. */
  datatype Conn = Conn(limit: nat, pending: seq<Byte>, error: int,
                       calls: seq<seq<Byte>>, received: seq<Byte>, taken: seq<Byte>)

  function NewConn(limit: nat): Conn {
    Conn(limit, [], 0, [], [], [])
  }

  /** The Client contract: a write never takes more than it was given. */
  function Wrote(f: ClientFn, calls: seq<seq<Byte>>, data: seq<Byte>): (n: nat)
    ensures n <= |data|
  {
    Min(f(calls, data).take, |data|)
  }

  /** Offer `data`, the unsent tail of the buffer, until it is all taken or the client stalls. */
  function Drain(f: ClientFn, c: Conn, data: seq<Byte>): Conn
    requires |data| > 0
    decreases |data|
  {
    var wrote := Wrote(f, c.calls, data);
    var offered := c.(calls := c.calls + [data], received := c.received + data[..wrote]);
    if wrote == |data| then
      offered.(pending := [])
    else if wrote > 0 then
      Drain(f, offered, data[wrote..])
    else
      var error := f(c.calls, data).error;
      offered.(error := if error != 0 then error else BLOCKED_FLUSH)
  }

  function FlushFull(f: ClientFn, c: Conn): Conn
    requires |c.pending| > 0
  {
    if c.error != 0 then c else Drain(f, c, c.pending)
  }

  function FlushConn(f: ClientFn, c: Conn): Conn {
    if |c.pending| == 0 then c else FlushFull(f, c)
  }

  function Put(f: ClientFn, c: Conn, b: Byte): Conn
    requires c.limit > 0
  {
    var ready := if |c.pending| >= c.limit then FlushFull(f, c) else c;
    if ready.error == 0 then ready.(pending := ready.pending + [b], taken := ready.taken + [b]) else ready
  }

  function PutAll(f: ClientFn, c: Conn, data: seq<Byte>): (r: Conn)
    requires c.limit > 0
    ensures r.limit == c.limit
    decreases |data|
  {
    if |data| == 0 then c
    else
      DrainKeepsLimit(f, c);
      PutAll(f, Put(f, c, data[0]), data[1..])
  }

  lemma DrainLimit(f: ClientFn, c: Conn, data: seq<Byte>)
    requires |data| > 0
    ensures Drain(f, c, data).limit == c.limit
    decreases |data|
  {
  }

  lemma DrainKeepsLimit(f: ClientFn, c: Conn)
    ensures |c.pending| > 0 ==> Drain(f, c, c.pending).limit == c.limit
  {
    if |c.pending| > 0 {
      DrainLimit(f, c, c.pending);
    }
  }

  /** The buffer is in bounds, and no byte is lost, invented or reordered: without an error the
      client's bytes followed by the pending ones are exactly the bytes taken; with an error the
      client still holds a prefix of them. */
  ghost predicate Conserved(c: Conn) {
    && 0 < c.limit
    && |c.pending| <= c.limit
    && c.received <= c.taken
    && (c.error == 0 ==> c.received + c.pending == c.taken)
  }

  /** What a flush of a conserved connection leaves: everything handed over, or an error. */
  lemma {:induction false} DrainConserves(f: ClientFn, c: Conn, data: seq<Byte>)
    requires |data| > 0 && 0 < c.limit && |c.pending| <= c.limit && c.error == 0
    requires c.received + data == c.taken
    ensures var r := Drain(f, c, data);
            && Conserved(r) && r.taken == c.taken && r.limit == c.limit
            && c.received <= r.received
            && (r.error == 0 <==> r.received == c.taken)
            && (r.error == 0 ==> r.pending == [])
            && (r.error != 0 ==> r.pending == c.pending)
    decreases |data|
  {
    var wrote := Wrote(f, c.calls, data);
    var offered := c.(calls := c.calls + [data], received := c.received + data[..wrote]);
    assert data == data[..wrote] + data[wrote..];
    assert offered.received + data[wrote..] == c.taken;
    if 0 < wrote < |data| {
      DrainConserves(f, offered, data[wrote..]);
    } else if wrote == |data| {
      assert data[..wrote] == data;
    } else {
      assert |c.received| < |c.taken|;
    }
  }

  /** How many bytes the client took of call number j. */
  function TakenBy(f: ClientFn, calls: seq<seq<Byte>>, j: nat): nat
    requires j < |calls|
  {
    Wrote(f, calls[..j], calls[j])
  }

  /** What a flush that has something to do does to the client, from `a` to `b`: it first offers all the
      pending bytes, goes on as long as something is taken, and gives up only after a call of which
      nothing was, with the error of that call or, if that reports none, 1234. */
  ghost predicate Persists(f: ClientFn, a: Conn, b: Conn, data: seq<Byte>) {
    && a.calls < b.calls && b.calls[|a.calls|] == data
    && (forall j :: |a.calls| <= j < |b.calls| - 1 ==> TakenBy(f, b.calls, j) > 0)
    && var last := |b.calls| - 1;
       && (b.error == 0 <==> TakenBy(f, b.calls, last) > 0)
       && (b.error != 0 ==>
             var own := f(b.calls[..last], b.calls[last]).error;
             b.error == if own != 0 then own else 1234)
  }

  lemma {:induction false} DrainPersists(f: ClientFn, c: Conn, data: seq<Byte>)
    requires |data| > 0 && c.error == 0
    ensures Persists(f, c, Drain(f, c, data), data)
    decreases |data|
  {
    var wrote := Wrote(f, c.calls, data);
    var offered := c.(calls := c.calls + [data], received := c.received + data[..wrote]);
    assert offered.calls[..|c.calls|] == c.calls;
    if 0 < wrote < |data| {
      DrainPersists(f, offered, data[wrote..]);
      var r := Drain(f, offered, data[wrote..]);
      assert r.calls[..|c.calls|] == c.calls && r.calls[|c.calls|] == data;
    }
  }

  /** A flush of a connection in working order. */
  ghost predicate Flushed(f: ClientFn, a: Conn, b: Conn) {
    if a.error != 0 || |a.pending| == 0 then b == a else Persists(f, a, b, a.pending)
  }

  lemma FlushPersists(f: ClientFn, c: Conn)
    ensures Flushed(f, c, FlushConn(f, c))
  {
    if |c.pending| > 0 && c.error == 0 {
      DrainPersists(f, c, c.pending);
    }
  }

  lemma FlushConserves(f: ClientFn, c: Conn)
    requires Conserved(c)
    ensures var r := FlushConn(f, c);
            && Conserved(r) && r.taken == c.taken && c.received <= r.received
            && (r.error == 0 ==> r.pending == [] && r.received == r.taken)
            && (c.error != 0 ==> r == c)
  {
    if |c.pending| > 0 && c.error == 0 {
      DrainConserves(f, c, c.pending);
    }
  }

  lemma PutConserves(f: ClientFn, c: Conn, b: Byte)
    requires Conserved(c)
    ensures var r := Put(f, c, b);
            && Conserved(r) && r.limit == c.limit && c.received <= r.received
            && (r.error == 0 ==> c.error == 0 && r.taken == c.taken + [b])
            && (r.error != 0 ==> r.taken == c.taken)
            && (c.error != 0 ==> r == c)
  {
    if |c.pending| >= c.limit && c.error == 0 {
      DrainConserves(f, c, c.pending);
    }
  }

  /** Stream conservation over a whole block: the bytes newly taken are a prefix of the bytes
      offered, all of them exactly when no error is left behind; after an error nothing moves. */
  lemma {:induction false} PutAllConserves(f: ClientFn, c: Conn, data: seq<Byte>)
    requires Conserved(c)
    ensures var r := PutAll(f, c, data);
            && Conserved(r) && r.limit == c.limit && c.received <= r.received
            && c.taken <= r.taken <= c.taken + data
            && (c.error != 0 ==> r == c)
            && (r.error == 0 ==> r.taken == c.taken + data)
            && (r.error != 0 && c.error == 0 ==> r.taken != c.taken + data)
    decreases |data|
  {
    if |data| > 0 {
      var next := Put(f, c, data[0]);
      PutConserves(f, c, data[0]);
      PutAllConserves(f, next, data[1..]);
      assert c.taken + data == (c.taken + [data[0]]) + data[1..];
    } else {
      assert c.taken + data == c.taken;
    }
  }

  /** Writing two blocks is writing their concatenation, so the final state depends only on the
      bytes and never on how they were cut into writes. */
  lemma {:induction false} PutAllConcat(f: ClientFn, c: Conn, a: seq<Byte>, b: seq<Byte>)
    requires c.limit > 0
    ensures PutAll(f, PutAll(f, c, a), b) == PutAll(f, c, a + b)
    decreases |a|
  {
    if |a| == 0 {
      assert a + b == b;
    } else {
      DrainKeepsLimit(f, c);
      PutAllConcat(f, Put(f, c, a[0]), a[1..], b);
      assert (a + b)[1..] == a[1..] + b;
    }
  }

  function Join(blocks: seq<seq<Byte>>): seq<Byte> {
    if |blocks| == 0 then [] else blocks[0] + Join(blocks[1..])
  }

  function PutBlocks(f: ClientFn, c: Conn, blocks: seq<seq<Byte>>): Conn
    requires c.limit > 0
    decreases |blocks|
  {
    if |blocks| == 0 then c else PutBlocks(f, PutAll(f, c, blocks[0]), blocks[1..])
  }

  /** Any two ways of cutting the same bytes into writes leave the same client, buffer and error. */
  lemma ChunkingIsInvisible(f: ClientFn, c: Conn, xs: seq<seq<Byte>>, ys: seq<seq<Byte>>)
    requires c.limit > 0 && Join(xs) == Join(ys)
    ensures PutBlocks(f, c, xs) == PutBlocks(f, c, ys)
  {
    PutBlocksJoin(f, c, xs);
    PutBlocksJoin(f, c, ys);
  }

  lemma {:induction false} PutBlocksJoin(f: ClientFn, c: Conn, blocks: seq<seq<Byte>>)
    requires c.limit > 0
    ensures PutBlocks(f, c, blocks) == PutAll(f, c, Join(blocks))
    decreases |blocks|
  {
    if |blocks| > 0 {
      PutBlocksJoin(f, PutAll(f, c, blocks[0]), blocks[1..]);
      PutAllConcat(f, c, blocks[0], Join(blocks[1..]));
    }
  }

  /** Bytes that fit are only copied. */
  lemma {:induction false} PutAllFits(f: ClientFn, c: Conn, data: seq<Byte>)
    requires c.limit > 0 && c.error == 0 && |c.pending| + |data| <= c.limit
    ensures PutAll(f, c, data) == c.(pending := c.pending + data, taken := c.taken + data)
    decreases |data|
  {
    if |data| == 0 {
      assert c.pending + data == c.pending && c.taken + data == c.taken;
    } else {
      var next := Put(f, c, data[0]);
      PutAllFits(f, next, data[1..]);
      assert c.pending + [data[0]] + data[1..] == c.pending + data;
      assert c.taken + [data[0]] + data[1..] == c.taken + data;
    }
  }

  /** One copying step of a block write: `room` bytes from position `buf` on. */
  lemma PutAllCopies(f: ClientFn, c: Conn, data: seq<Byte>, buf: nat, room: nat)
    requires Conserved(c) && c.error == 0 && buf + room <= |data| && |c.pending| + room <= c.limit
    ensures var block := data[buf..buf + room];
            var next := c.(pending := c.pending + block, taken := c.taken + block);
            Conserved(next) && PutAll(f, next, data[buf + room..]) == PutAll(f, c, data[buf..])
  {
    var block := data[buf..buf + room];
    PutAllFits(f, c, block);
    PutAllConserves(f, c, block);
    PutAllConcat(f, c, block, data[buf + room..]);
    assert block + data[buf + room..] == data[buf..];
  }

  /** A full buffer may be flushed early: the next byte would have flushed it. */
  lemma PutAllFlushedFirst(f: ClientFn, c: Conn, data: seq<Byte>)
    requires Conserved(c) && c.error == 0 && |c.pending| == c.limit && |data| > 0
    ensures Conserved(FlushFull(f, c)) && PutAll(f, FlushFull(f, c), data) == PutAll(f, c, data)
  {
    DrainConserves(f, c, c.pending);
    var flushed := FlushFull(f, c);
    if flushed.error != 0 {
      PutAllStuck(f, flushed, data);
      PutAllStuck(f, flushed, data[1..]);
      assert Put(f, c, data[0]) == flushed;
    } else {
      assert Put(f, flushed, data[0]) == Put(f, c, data[0]);
    }
  }

  lemma {:induction false} PutAllStuck(f: ClientFn, c: Conn, data: seq<Byte>)
    requires c.limit > 0 && c.error != 0
    ensures PutAll(f, c, data) == c
    decreases |data|
  {
    if |data| > 0 {
      PutAllStuck(f, c, data[1..]);
    }
  }

  /** An action of a user of the connection. */
  datatype StreamOp = Block(data: seq<Byte>) | FlushOp

  function Apply(f: ClientFn, c: Conn, op: StreamOp): (r: Conn)
    requires c.limit > 0
    ensures r.limit == c.limit
  {
    match op
    case Block(data) => PutAll(f, c, data)
    case FlushOp => DrainKeepsLimit(f, c); FlushConn(f, c)
  }

  function ApplyAll(f: ClientFn, c: Conn, ops: seq<StreamOp>): (r: Conn)
    requires c.limit > 0
    decreases |ops|
  {
    if |ops| == 0 then c else ApplyAll(f, Apply(f, c, ops[0]), ops[1..])
  }

  function Offered(ops: seq<StreamOp>): seq<Byte> {
    if |ops| == 0 then []
    else (if ops[0].Block? then ops[0].data else []) + Offered(ops[1..])
  }

  lemma ApplyConserves(f: ClientFn, c: Conn, op: StreamOp)
    requires Conserved(c)
    ensures var r := Apply(f, c, op);
            && Conserved(r) && c.received <= r.received
            && r.taken <= c.taken + Offered([op])
            && (r.error == 0 ==> r.taken == c.taken + Offered([op]))
            && (c.error != 0 ==> r == c)
  {
    assert [op][1..] == [];
    match op
    case Block(data) =>
      assert Offered([op]) == data + [] == data;
      PutAllConserves(f, c, data);
    case FlushOp =>
      assert Offered([op]) == [] + [] == [];
      FlushConserves(f, c);
      assert c.taken + [] == c.taken;
  }

  /** Conservation over every run of writes and flushes, from any reachable connection: with no
      error the client's bytes and the pending ones are all the bytes offered, in order; once there
      is an error the client holds a prefix of them and never gets another byte. */
  lemma {:induction false} StreamConservation(f: ClientFn, c: Conn, ops: seq<StreamOp>)
    requires Conserved(c)
    ensures var r := ApplyAll(f, c, ops);
            && Conserved(r) && c.received <= r.received
            && (r.error == 0 ==> r.received + r.pending == c.taken + Offered(ops))
            && r.taken <= c.taken + Offered(ops)
            && (c.error != 0 ==> r == c)
    decreases |ops|
  {
    if |ops| == 0 {
      assert c.taken + Offered(ops) == c.taken;
    } else {
      var next := Apply(f, c, ops[0]);
      ApplyConserves(f, c, ops[0]);
      StreamConservation(f, next, ops[1..]);
      OfferedSplit(ops);
      assert c.taken + Offered(ops) == (c.taken + Offered([ops[0]])) + Offered(ops[1..]);
      if next.error != 0 {
        assert ApplyAll(f, c, ops) == next;
      } else {
        assert next.taken == c.taken + Offered([ops[0]]);
      }
    }
  }

  lemma {:induction false} OfferedSplit(ops: seq<StreamOp>)
    requires |ops| > 0
    ensures Offered(ops) == Offered([ops[0]]) + Offered(ops[1..])
  {
    assert [ops[0]][1..] == [];
  }

  /** A client that always takes the whole block. */
  ghost predicate TakesAll(f: ClientFn) {
    forall calls, data :: f(calls, data).take >= |data|
  }

  /** Batching: with a client that takes everything, n > 0 bytes written one way or another cost
      exactly floor((n - 1) / limit) client writes of exactly `limit` bytes each, and leave
      ((n - 1) mod limit) + 1 bytes pending. */
  lemma {:induction false} BatchingBound(f: ClientFn, limit: nat, data: seq<Byte>)
    requires TakesAll(f) && limit > 0 && |data| > 0
    ensures var r := PutAll(f, NewConn(limit), data);
            && r.error == 0 && r.taken == data && r.limit == limit
            && |r.calls| == (|data| - 1) / limit
            && (forall i :: 0 <= i < |r.calls| ==> |r.calls[i]| == limit)
            && |r.pending| == (|data| - 1) % limit + 1
    decreases |data|
  {
    var n := |data| - 1;
    var start := NewConn(limit);
    assert data == data[..n] + [data[n]];
    PutAllConcat(f, start, data[..n], [data[n]]);
    var before := PutAll(f, start, data[..n]);
    assert PutAll(f, before, [data[n]]) == Put(f, before, data[n]) by {
      assert [data[n]][1..] == [];
    }
    if n > 0 {
      BatchingBound(f, limit, data[..n]);
      StepDivision(n, limit);
    } else {
      assert data[..0] == [];
      assert 0 / limit == 0 && 0 % limit == 0;
    }
  }

  lemma StepDivision(n: nat, d: nat)
    requires n > 0 && d > 0
    ensures (n - 1) % d + 1 == d ==> n / d == (n - 1) / d + 1 && n % d == 0
    ensures (n - 1) % d + 1 < d ==> n / d == (n - 1) / d && n % d == (n - 1) % d + 1
  {
    var q, r := (n - 1) / d, (n - 1) % d;
    assert n - 1 == d * q + r;
    if r + 1 == d {
      assert n == d * (q + 1) + 0;
      QuotientUnique(n, d, q + 1, 0);
    } else {
      QuotientUnique(n, d, q, r + 1);
    }
  }

  lemma QuotientUnique(n: nat, d: nat, q: nat, r: nat)
    requires r < d && n == d * q + r
    ensures n / d == q && n % d == r
  {
    var q', r' := n / d, n % d;
    assert n == d * q' + r';
    assert d * q' + r' == d * q + r;
    if q' < q {
      ProductsApart(d, q', q, r');
    } else if q < q' {
      ProductsApart(d, q, q', r);
    }
  }

  lemma ProductsApart(d: nat, a: nat, b: nat, r: nat)
    requires r < d && a < b
    ensures d * a + r < d * b
  {
    assert d * (a + 1) <= d * b;
  }
}
