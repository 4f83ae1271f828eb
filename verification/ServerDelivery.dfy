/** What a listener writes in a callback is what its client gets. */
module ServerDelivery {
  import opened Types
  import opened WriteBufferSpec
  import opened W5500
  import opened CallbackTrace
  import opened ConnectionSpec
  import opened ServerSocketSpec

  /** The bytes a listener offers its connection. */
  function Written(script: seq<Action>): seq<Byte> {
    if |script| == 0 then []
    else
      (match script[0]
       case Write(data) => data
       case WriteByte(b) => [b]
       case _ => []) + Written(script[1..])
  }

  /** One action: what it writes is taken, or as much of it as there was no error for. */
  lemma ActWrites(w: World, k: nat, s: Session, f: ClientFn, a: Action)
    requires k < |s.link.net.socks| && Conserved(s.conn)
    ensures var r, data := Act(w, k, s, f, a).conn, Written([a]);
            && Conserved(r) && s.conn.received <= r.received && s.conn.taken <= r.taken <= s.conn.taken + data
            && (r.error == 0 ==> s.conn.error == 0 && r.taken == s.conn.taken + data)
            && (s.conn.error != 0 ==> r == s.conn)
            && (a.Flush? && r.error == 0 ==> r.pending == [])
  {
    assert [a][1..] == [] && s.conn.taken + [] == s.conn.taken;
    match a
    case Write(data) =>
      assert Written([a]) == data;
      PutAllConserves(f, s.conn, data);
    case WriteByte(b) =>
      assert Written([a]) == [b];
      PutConserves(f, s.conn, b);
    case Flush => FlushConserves(f, s.conn);
    case Read(_) =>
    case Close => FlushConserves(f, s.conn);
  }

  lemma {:induction false} WrittenSplit(script: seq<Action>)
    requires |script| > 0
    ensures Written(script) == Written([script[0]]) + Written(script[1..])
  {
    assert [script[0]][1..] == [];
  }

  lemma {:induction false} ScriptWrites(w: World, k: nat, s: Session, f: ClientFn, script: seq<Action>)
    requires k < |s.link.net.socks| && Conserved(s.conn)
    ensures var r := RunScript(w, k, s, f, script).conn;
            && Conserved(r) && s.conn.taken <= r.taken <= s.conn.taken + Written(script)
            && (r.error == 0 ==> s.conn.error == 0 && r.taken == s.conn.taken + Written(script))
            && (s.conn.error != 0 ==> r == s.conn)
    decreases |script|
  {
    if |script| == 0 {
      assert s.conn.taken + Written(script) == s.conn.taken;
    } else {
      var next := Act(w, k, s, f, script[0]);
      ActKeepsShape(w, k, s, f, script[0]);
      ActWrites(w, k, s, f, script[0]);
      ScriptWrites(w, k, next, f, script[1..]);
      WrittenSplit(script);
      Regroup(s.conn.taken, Written([script[0]]), Written(script[1..]));
    }
  }

  lemma Regroup(a: seq<Byte>, b: seq<Byte>, c: seq<Byte>)
    ensures a + (b + c) == (a + b) + c
  {
  }

  /** At the end of a callback, when the connection object is destroyed, the client has got exactly the
      bytes the listener wrote in it, in order, unless a write failed, and then the first of them. */
  lemma CallbackDelivers(w: World, s: St, f: ClientFn, e: Event)
    requires s.Valid() && s.HasSocket()
    ensures var log := Announce(w, s, NewConn(WRITE_BUFFER_SIZE), f, e).link.log;
            && |log| > 0 && log[|log| - 1].Destroyed?
            && var t, written := log[|log| - 1].tally, Written(w.script(s.link.net.tick));
               t.received <= written && (t.error == 0 ==> t.received == written)
  {
    var conn := NewConn(WRITE_BUFFER_SIZE);
    var done := RunScript(w, s.sock, Session(Say(s.link, e), conn), f, w.script(s.link.net.tick));
    ScriptWrites(w, s.sock, Session(Say(s.link, e), conn), f, w.script(s.link.net.tick));
    FlushConserves(f, done.conn);
    assert [] + Written(w.script(s.link.net.tick)) == Written(w.script(s.link.net.tick));
  }

  /** Its buffer has the size of the array on the stack of AnnounceConnected. */
  lemma BufferSize(l: Link)
    ensures OpenSession(l).conn == NewConn(255)
  {
  }
}
