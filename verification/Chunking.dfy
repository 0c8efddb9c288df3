/** How a byte stream is cut into reads makes no difference to a connection, whatever its handler
    of payloads does. */
module Chunking {
  import opened Basics
  import opened Bytes
  import opened Protocol

  predicate Waiting(c: Conn) { c.transport == WaitFrameLen || c.transport == WaitPayload }

  /** All complete frames in the buffer have been taken. */
  predicate Settled(c: Conn) {
    match c.transport
    case WaitFrameLen => |c.rx| < 2
    case WaitPayload => |c.rx| < c.expectBytes
    case _ => true
  }

  function More(c: Conn, data: seq<byte>): Conn { c.(rx := c.rx + data) }

  /** Going on with more bytes from where a step stopped, unless it closed the slot. */
  function Continue(m: Machine, r: Result, data: seq<byte>): Result {
    if r.conn == FREE_SLOT then r
    else
      var r2 := Drain(m, More(r.conn, data));
      Result(r2.conn, r.out + r2.out)
  }

  lemma TakeMore(m: Machine, c: Conn, data: seq<byte>)
    requires c.transport == WaitPayload && c.expectBytes <= |c.rx| && c.cap > 0
    ensures var h, h' := TakePayload(m, c), TakePayload(m, More(c, data));
            && h'.out == h.out && h'.conn == (if h.conn == FREE_SLOT then FREE_SLOT else More(h.conn, data))
            && (h.conn == FREE_SLOT || h.conn.cap == c.cap)
  {
    assert More(c, data).rx[..c.expectBytes] == c.rx[..c.expectBytes];
    assert More(c, data).rx[c.expectBytes..] == c.rx[c.expectBytes..] + data;
  }

  lemma SplitsAfterPayload(m: Machine, c: Conn, data: seq<byte>)
    requires c.transport == WaitPayload && c.expectBytes <= |c.rx| && c.cap > 0
    requires var n := TakePayload(m, c).conn;
             n == FREE_SLOT || Drain(m, More(n, data)) == Continue(m, Drain(m, n), data)
    ensures Drain(m, More(c, data)) == Continue(m, Drain(m, c), data)
  {
    TakeMore(m, c, data);
    TakeThenDrain(m, c);
    TakeThenDrain(m, More(c, data));
    var h := TakePayload(m, c);
    var x := Drain(m, h.conn);
    assert Drain(m, c) == Result(x.conn, h.out + x.out);
    if h.conn == FREE_SLOT {
      assert x == Result(FREE_SLOT, []);
    } else {
      var y := Drain(m, More(h.conn, data));
      assert Drain(m, More(c, data)) == Result(y.conn, h.out + y.out);
      if x.conn == FREE_SLOT {
        assert y == x;
      } else {
        Assoc(h.out, x.out, Drain(m, More(x.conn, data)).out);
      }
    }
  }

  /** Draining, then draining again with more bytes, equals draining all bytes at once. */
  lemma {:induction false} DrainSplits(m: Machine, c: Conn, data: seq<byte>)
    requires Waiting(c) && c.cap > 0
    ensures Drain(m, More(c, data)) == Continue(m, Drain(m, c), data)
    decreases |c.rx|, Rank(c.transport)
  {
    var all := More(c, data);
    if c.transport == WaitFrameLen {
      if 2 <= |c.rx| {
        var c1 := c.(expectBytes := FromBE16(c.rx[0], c.rx[1]), transport := WaitPayload, rx := c.rx[2..]);
        assert all.rx[2..] == c1.rx + data;
        DrainSplits(m, c1, data);
        assert Drain(m, c) == Drain(m, c1) && Drain(m, all) == Drain(m, More(c1, data));
      } else {
        assert Drain(m, c) == Result(c, []);
        assert [] + Drain(m, all).out == Drain(m, all).out;
      }
    } else if c.expectBytes <= |c.rx| {
      TakeMore(m, c, data);
      var h := TakePayload(m, c);
      if h.conn != FREE_SLOT {
        DrainSplits(m, h.conn, data);
      }
      SplitsAfterPayload(m, c, data);
    } else {
      assert Drain(m, c) == Result(c, []);
      assert [] + Drain(m, all).out == Drain(m, all).out;
    }
  }

  /** The test before `goto again' only saves an empty round. */
  lemma TakeThenDrain(m: Machine, c: Conn)
    requires c.transport == WaitPayload && c.expectBytes <= |c.rx|
    ensures var h := TakePayload(m, c);
            Drain(m, c) == Result(Drain(m, h.conn).conn, h.out + Drain(m, h.conn).out)
  {
    var h := TakePayload(m, c);
    if |h.conn.rx| < 2 {
      assert Drain(m, h.conn) == Result(h.conn, []);
      assert h.out + [] == h.out;
    }
  }

  lemma {:induction false} DrainSettles(m: Machine, c: Conn)
    requires Waiting(c)
    ensures var r := Drain(m, c).conn; Waiting(r) && Settled(r) && (r == FREE_SLOT || r.cap == c.cap)
    decreases |c.rx|, Rank(c.transport)
  {
    if c.transport == WaitFrameLen {
      if 2 <= |c.rx| {
        var c1 := c.(expectBytes := FromBE16(c.rx[0], c.rx[1]), transport := WaitPayload, rx := c.rx[2..]);
        if c1.expectBytes <= |c1.rx| {
          DrainSettles(m, c1);
        }
      }
    } else if c.expectBytes <= |c.rx| {
      TakeThenDrain(m, c);
      DrainSettles(m, TakePayload(m, c).conn);
      if TakePayload(m, c).conn == FREE_SLOT {
        assert Drain(m, FREE_SLOT) == Result(FREE_SLOT, []);
      }
    }
  }

  /** While a frame fits the ring, the ring is not full when a connection waits for more of it. */
  lemma NeverFull(m: Machine, c: Conn)
    requires Waiting(c) && c.cap >= 2
    ensures var r := Drain(m, c).conn;
            r == FREE_SLOT || (r.transport == WaitPayload && r.expectBytes > r.cap) || |r.rx| < r.cap
  {
    DrainSettles(m, c);
  }

  // Streams in chunks ------------------------------------------------------------------------

  /** Feeding and processing chunk by chunk, until the slot is closed. */
  function Deliver(m: Machine, c: Conn, chunks: seq<seq<byte>>): Result
    decreases |chunks|
  {
    if chunks == [] || c == FREE_SLOT then Result(c, [])
    else
      var f := Feed(c, chunks[0]);
      var d := Drain(m, f.conn);
      var r := Deliver(m, d.conn, chunks[1..]);
      Result(r.conn, f.out + d.out + r.out)
  }

  /** Each chunk finds room when it arrives. */
  predicate Fits(m: Machine, c: Conn, chunks: seq<seq<byte>>)
    decreases |chunks|
  {
    chunks == [] || c == FREE_SLOT ||
    (|chunks[0]| <= c.cap - |c.rx| && Fits(m, Drain(m, More(c, chunks[0])).conn, chunks[1..]))
  }

  lemma FirstChunk(m: Machine, c: Conn, chunks: seq<seq<byte>>)
    requires Waiting(c) && c.cap > 0 && chunks != []
    ensures var d := Drain(m, More(c, chunks[0]));
            && Drain(m, More(c, Flatten(chunks))) == Continue(m, d, Flatten(chunks[1..]))
            && Waiting(d.conn) && Settled(d.conn) && (d.conn == FREE_SLOT || d.conn.cap == c.cap)
  {
    var one, rest := More(c, chunks[0]), Flatten(chunks[1..]);
    assert (c.rx + chunks[0]) + rest == c.rx + (chunks[0] + rest);
    DrainSplits(m, one, rest);
    DrainSettles(m, one);
  }

  /** A stream in chunks has the effect of the whole stream. */
  lemma {:induction false} ChunksAreOneStream(m: Machine, c: Conn, chunks: seq<seq<byte>>)
    requires Waiting(c) && Settled(c) && c.cap > 0 && Fits(m, c, chunks)
    ensures Deliver(m, c, chunks) == Drain(m, More(c, Flatten(chunks)))
    decreases |chunks|
  {
    if chunks == [] {
      assert c.rx + [] == c.rx;
    } else if c != FREE_SLOT {
      FirstChunk(m, c, chunks);
      DeliverFirst(m, c, chunks);
      var d := Drain(m, More(c, chunks[0]));
      if d.conn != FREE_SLOT {
        ChunksAreOneStream(m, d.conn, chunks[1..]);
      }
    }
  }

  lemma DeliverFirst(m: Machine, c: Conn, chunks: seq<seq<byte>>)
    requires chunks != [] && c != FREE_SLOT && |chunks[0]| <= c.cap - |c.rx|
    ensures var d := Drain(m, More(c, chunks[0]));
            var r := Deliver(m, d.conn, chunks[1..]);
            && Deliver(m, c, chunks) == Result(r.conn, d.out + r.out)
            && (d.conn == FREE_SLOT ==> Deliver(m, c, chunks) == d)
  {
    assert Feed(c, chunks[0]) == Result(More(c, chunks[0]), []);
    var d := Drain(m, More(c, chunks[0]));
    Joins(d.out, Deliver(m, d.conn, chunks[1..]).out);
  }

  lemma Joins(a: seq<Output>, b: seq<Output>)
    ensures [] + a + b == a + b && a + [] == a
  {
  }

  /** Two ways of cutting the same stream deliver the same and leave the same state. */
  lemma ChunkingDoesNotMatter(m: Machine, c: Conn, a: seq<seq<byte>>, b: seq<seq<byte>>)
    requires Waiting(c) && Settled(c) && c.cap > 0
    requires Fits(m, c, a) && Fits(m, c, b) && Flatten(a) == Flatten(b)
    ensures Deliver(m, c, a) == Deliver(m, c, b)
  {
    ChunksAreOneStream(m, c, a);
    ChunksAreOneStream(m, c, b);
  }

  // Frames -------------------------------------------------------------------------------------

  predicate Framable(ps: seq<seq<byte>>) { forall i :: 0 <= i < |ps| ==> |ps[i]| < 0x1_0000 }

  /** The bytes of frames determine the frames. */
  lemma {:induction false} FramesAreUnique(x: seq<seq<byte>>, y: seq<seq<byte>>)
    requires Framable(x) && Framable(y) && EncodeFrames(x) == EncodeFrames(y)
    ensures x == y
    decreases |x|
  {
    if x != [] && y != [] {
      FirstFrame(x[0], EncodeFrames(x[1..]), y[0], EncodeFrames(y[1..]));
      FramesAreUnique(x[1..], y[1..]);
      assert x == [x[0]] + x[1..] && y == [y[0]] + y[1..];
    }
  }

  lemma FirstFrame(p: seq<byte>, a: seq<byte>, q: seq<byte>, b: seq<byte>)
    requires |p| < 0x1_0000 && |q| < 0x1_0000 && Frame(p) + a == Frame(q) + b
    ensures p == q && a == b
  {
    var s, t := Frame(p) + a, Frame(q) + b;
    BE16RoundTrip(|p|);
    BE16RoundTrip(|q|);
    assert BE16(|p|) == s[..2] == t[..2] == BE16(|q|);
    assert p == s[2..2 + |p|] && q == t[2..2 + |q|];
    assert a == s[2 + |p|..] && b == t[2 + |q|..];
  }

  /** One frame in front of other bytes. */
  lemma DrainFrame(m: Machine, c: Conn, p: seq<byte>, rest: seq<byte>)
    requires c.transport == WaitFrameLen && |p| < 0x1_0000 && c.rx == Frame(p) + rest
    ensures var h := m.handle(c.s, p);
            var n := if h.closed then FREE_SLOT else Conn(h.s, WaitFrameLen, |p|, c.cap, rest);
            Drain(m, c) == Result(Drain(m, n).conn, [Payload(p, c.s)] + h.out + Drain(m, n).out)
  {
    BE16RoundTrip(|p|);
    assert c.rx[0] == BE16(|p|)[0] && c.rx[1] == BE16(|p|)[1] && c.rx[2..] == p + rest;
    var c1 := c.(expectBytes := |p|, transport := WaitPayload, rx := p + rest);
    assert Drain(m, c) == Drain(m, c1);
    assert c1.rx[..|p|] == p && c1.rx[|p|..] == rest;
    TakeThenDrain(m, c1);
  }

  function Payloads(out: seq<Output>): seq<seq<byte>> {
    if out == [] then []
    else (if out[0].Payload? then [out[0].frame] else []) + Payloads(out[1..])
  }

  lemma {:induction false} PayloadsConcat(a: seq<Output>, b: seq<Output>)
    ensures Payloads(a + b) == Payloads(a) + Payloads(b)
  {
    if a == [] {
      assert a + b == b;
    } else {
      assert (a + b)[1..] == a[1..] + b;
      PayloadsConcat(a[1..], b);
    }
  }

  lemma {:induction false} NoPayloads(out: seq<Output>)
    requires NoPayload(out)
    ensures Payloads(out) == []
  {
    if out != [] {
      NoPayloads(out[1..]);
    }
  }

  /** Only the loop logs frames. */
  ghost predicate Quiet(m: Machine) { forall s, p :: NoPayload(m.handle(s, p).out) }

  lemma ProtocolIsQuiet(env: Env)
    ensures Quiet(MachineOf(env))
  {
  }

  lemma PayloadsOfFrame(p: seq<byte>, s: Session, answers: seq<Output>, out: seq<Output>)
    requires NoPayload(answers)
    ensures Payloads([Payload(p, s)] + answers + out) == [p] + Payloads(out)
  {
    NoPayloads(answers);
    PayloadsConcat([Payload(p, s)], answers);
    PayloadsConcat([Payload(p, s)] + answers, out);
  }

  /** Encoded frames come back one by one and whole; only closing can cut the list short. */
  lemma {:induction false} FramesComeBack(m: Machine, c: Conn, ps: seq<seq<byte>>)
    requires c.transport == WaitFrameLen && c.cap > 0 && Framable(ps) && c.rx == EncodeFrames(ps)
    requires Quiet(m)
    ensures var r := Drain(m, c);
            && Payloads(r.out) <= ps
            && (r.conn != FREE_SLOT ==> Payloads(r.out) == ps && r.conn.rx == [] && r.conn.transport == WaitFrameLen)
    decreases |ps|
  {
    if ps != [] {
      var p, rest := ps[0], EncodeFrames(ps[1..]);
      DrainFrame(m, c, p, rest);
      var h := m.handle(c.s, p);
      assert ps == [p] + ps[1..];
      if h.closed {
        assert Drain(m, FREE_SLOT) == Result(FREE_SLOT, []);
        PayloadsOfFrame(p, c.s, h.out, []);
      } else {
        var n := Conn(h.s, WaitFrameLen, |p|, c.cap, rest);
        FramesComeBack(m, n, ps[1..]);
        PayloadsOfFrame(p, c.s, h.out, Drain(m, n).out);
      }
    }
  }

  /** So it is with the protocol, whatever it answers and hands up. */
  lemma ProtocolFramesComeBack(env: Env, c: Conn, ps: seq<seq<byte>>)
    requires c.transport == WaitFrameLen && c.cap > 0 && Framable(ps) && c.rx == EncodeFrames(ps)
    ensures var r := Drain(MachineOf(env), c);
            && Payloads(r.out) <= ps
            && (r.conn != FREE_SLOT ==> Payloads(r.out) == ps && r.conn.rx == [] && r.conn.transport == WaitFrameLen)
  {
    ProtocolIsQuiet(env);
    FramesComeBack(MachineOf(env), c, ps);
  }
}
