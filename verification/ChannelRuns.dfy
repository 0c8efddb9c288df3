/** Runs of two honest cores joined by two byte pipes: in every state that a run can reach the two
    ends are in step, and a run that comes to rest has delivered everything. */
module ChannelRuns {
  import opened Basics
  import opened Bytes
  import opened Nonce
  import opened Protocol
  import opened Chunking
  import opened SecureChannel

  // The two ends, written once -------------------------------------------------------------------

  datatype Side = Client | Server
  {
    function Peer(): Side { if Client? then Server else Client }
  }

  function EnvOf(su: Setup, side: Side): Env { if side.Client? then su.envC else su.envS }

  function StateAt(su: Setup, k: Keys, side: Side, taken: nat, n: nat, ctx: ContextState): Session {
    if side.Client? then su.ClientAt(k, taken, n, ctx) else su.ServerAt(k, taken, n, ctx)
  }

  /** All frames towards one end, when the other has sent these messages. */
  function ScriptTo(su: Setup, k: Keys, side: Side, sent: seq<seq<byte>>): (sc: Script)
    ensures sc.Length() == 3 + |sent|
  {
    if side.Client? then su.ToClient(k, sent) else su.ToServer(k, sent)
  }

  function Emits(su: Setup, k: Keys, side: Side, taken: nat): seq<byte> {
    if side.Client? then ClientSends(su, k, taken) else ServerSends(su, k, taken)
  }

  /** How many frames an end has sent, after taking so many frames and sending n messages. */
  function Count(side: Side, taken: nat, n: nat): nat {
    if taken >= 3 then 3 + n else if side.Client? then taken else taken + 1
  }

  lemma SideTakes(su: Setup, side: Side, taken: nat, n: nat, sent: seq<seq<byte>>, ctx: ContextState)
    requires su.Honest() && Alive(ctx) && taken < 3 + |sent| && (taken < 3 ==> n == 0)
    ensures var k := su.Keys();
            Takes(HandlePayload(EnvOf(su, side), StateAt(su, k, side, taken, n, ctx),
                                ScriptTo(su, k, side, sent).At(taken)),
                  StateAt(su, k, side, taken + 1, n, ctx), Emits(su, k, side, taken), HandsUp(sent, taken))
  {
    if side.Client? {
      ClientTakes(su, taken, n, sent, ctx);
    } else {
      ServerTakes(su, taken, n, sent, ctx);
    }
  }

  /** A payload of every frame is within the ring. */
  ghost predicate Roomy(su: Setup, cap: nat) {
    DH_LEN <= cap < 0x1_0000 && |su.DocC()| + TAG_LEN <= cap
  }

  predicate Short(sent: seq<seq<byte>>, cap: nat) {
    forall i :: 0 <= i < |sent| ==> |sent[i]| + TAG_LEN <= cap
  }

  lemma FramesFit(su: Setup, k: Keys, side: Side, sent: seq<seq<byte>>, cap: nat, i: nat)
    requires su.Honest() && Roomy(su, cap) && Short(sent, cap) && i < 3 + |sent|
    ensures |ScriptTo(su, k, side, sent).At(i)| <= cap
  {
    var sc := ScriptTo(su, k, side, sent);
    if i > 2 {
      assert sc.plains[i - 1] == sent[i - 3];
    }
  }

  // Draining one end -------------------------------------------------------------------------------

  /** The bytes of frames that an end holds, with the length it has read put back. */
  function Pending(c: Conn): seq<byte> {
    (if c.transport.WaitPayload? then BE16(c.expectBytes) else []) + c.rx
  }

  /** One end has taken `taken' frames, and holds or will receive through its pipe the frames up to number `total'. */
  ghost predicate Follows(su: Setup, k: Keys, side: Side, c: Conn, pipe: seq<byte>, taken: nat, total: nat, n: nat,
                          sent: seq<seq<byte>>, ctx: ContextState)
  {
    && c.s == StateAt(su, k, side, taken, n, ctx)
    && Alive(ctx) && Waiting(c) && (c.transport.WaitPayload? ==> c.expectBytes < 0x1_0000)
    && |c.rx| <= c.cap
    && taken <= total <= 3 + |sent| && (taken < 3 ==> n == 0)
    && Pending(c) + pipe == ScriptTo(su, k, side, sent).Range(taken, total)
  }

  function EmitsRange(su: Setup, k: Keys, side: Side, a: nat, b: nat): seq<byte>
    requires a <= b
    decreases b - a
  {
    if a == b then [] else Emits(su, k, side, a) + EmitsRange(su, k, side, a + 1, b)
  }

  function HandsRange(sent: seq<seq<byte>>, a: nat, b: nat): seq<seq<byte>>
    requires a <= b
    decreases b - a
  {
    if a == b then [] else HandsUp(sent, a) + HandsRange(sent, a + 1, b)
  }

  lemma {:induction false} SentConcat(a: seq<Output>, b: seq<Output>)
    ensures SentBytes(a + b) == SentBytes(a) + SentBytes(b)
    decreases |a|
  {
    if a == [] {
      assert a + b == b;
    } else {
      assert (a + b)[1..] == a[1..] + b;
      SentConcat(a[1..], b);
      AssocConcat(if a[0].Sent? then a[0].bytes else [], SentBytes(a[1..]), SentBytes(b));
    }
  }

  lemma {:induction false} HandedConcat(a: seq<Output>, b: seq<Output>)
    ensures Handed(a + b) == Handed(a) + Handed(b)
    decreases |a|
  {
    if a == [] {
      assert a + b == b;
    } else {
      assert (a + b)[1..] == a[1..] + b;
      HandedConcat(a[1..], b);
    }
  }

  lemma EffectsConcat(a: seq<Output>, b: seq<Output>)
    ensures SentBytes(a + b) == SentBytes(a) + SentBytes(b)
    ensures Handed(a + b) == Handed(a) + Handed(b)
  {
    SentConcat(a, b);
    HandedConcat(a, b);
  }

  /** Reading a length moves it out of the buffer and into the count of expected bytes. */
  function LengthTaken(c: Conn): Conn
    requires 2 <= |c.rx|
  {
    c.(expectBytes := FromBE16(c.rx[0], c.rx[1]), transport := WaitPayload, rx := c.rx[2..])
  }

  lemma LengthRead(c: Conn)
    requires c.transport == WaitFrameLen && 2 <= |c.rx|
    ensures var c1 := LengthTaken(c); Pending(c1) == Pending(c) && c1.expectBytes < 0x1_0000
  {
    BE16OfBytes(c.rx[0], c.rx[1]);
    assert c.rx == [c.rx[0], c.rx[1]] + c.rx[2..];
  }

  lemma BE16OfBytes(a: byte, b: byte)
    ensures FromBE16(a, b) < 0x1_0000 && BE16(FromBE16(a, b)) == [a, b]
  {
  }

  /** A complete payload in the buffer is the next one of the stream. */
  lemma NextFrame(c: Conn, pipe: seq<byte>, p: seq<byte>, rest: seq<byte>)
    requires c.transport == WaitPayload && c.expectBytes <= |c.rx| && c.expectBytes < 0x1_0000 && |p| < 0x1_0000
    requires Pending(c) + pipe == Frame(p) + rest
    ensures c.expectBytes == |p| && c.rx[..|p|] == p && c.rx[|p|..] + pipe == rest
  {
    var all := Pending(c) + pipe;
    assert all[..2] == BE16(c.expectBytes) && all[..2] == BE16(|p|);
    BE16RoundTrip(c.expectBytes);
    BE16RoundTrip(|p|);
    assert all[2..] == c.rx + pipe && all[2..] == p + rest;
    assert (c.rx + pipe)[..|p|] == p && (c.rx + pipe)[|p|..] == rest;
  }

  /** Taking one complete payload. */
  lemma TakeOne(su: Setup, k: Keys, side: Side, c: Conn, pipe: seq<byte>, taken: nat, total: nat, n: nat,
                sent: seq<seq<byte>>, ctx: ContextState)
    requires su.Honest() && k == su.Keys() && Roomy(su, c.cap) && Short(sent, c.cap)
    requires Follows(su, k, side, c, pipe, taken, total, n, sent, ctx)
    requires c.transport == WaitPayload && c.expectBytes <= |c.rx|
    ensures var h := TakePayload(MachineOf(EnvOf(su, side)), c);
            && taken < total && h.conn.cap == c.cap
            && Follows(su, k, side, h.conn, pipe, taken + 1, total, n, sent, ctx)
            && SentBytes(h.out) == Emits(su, k, side, taken)
            && Handed(h.out) == HandsUp(sent, taken)
  {
    var sc := ScriptTo(su, k, side, sent);
    assert |Pending(c)| >= 2;
    assert taken < total;
    var p := sc.At(taken);
    FramesFit(su, k, side, sent, c.cap, taken);
    NextFrame(c, pipe, p, sc.Range(taken + 1, total));
    SideTakes(su, side, taken, n, sent, ctx);
    var o := HandlePayload(EnvOf(su, side), c.s, p);
    EffectsConcat([Payload(p, c.s)], o.out);
    OneEffect(Payload(p, c.s));
    Dispatch(su, side, c, p);
    var h := TakePayload(MachineOf(EnvOf(su, side)), c);
    assert Pending(h.conn) == [] + c.rx[|p|..];
    assert Pending(h.conn) == c.rx[|p|..];
  }

  lemma Dispatch(su: Setup, side: Side, c: Conn, p: seq<byte>)
    requires c.expectBytes == |p| <= |c.rx| && c.rx[..|p|] == p
    ensures var o := HandlePayload(EnvOf(su, side), c.s, p);
            var h := TakePayload(MachineOf(EnvOf(su, side)), c);
            && h.out == [Payload(p, c.s)] + o.out
            && (!o.closed ==> h.conn == c.(s := o.s, transport := WaitFrameLen, rx := c.rx[|p|..]))
  {
  }

  lemma DrainedNothing(su: Setup, k: Keys, side: Side, c: Conn, pipe: seq<byte>, taken: nat, total: nat, n: nat,
                       sent: seq<seq<byte>>, ctx: ContextState)
    requires Follows(su, k, side, c, pipe, taken, total, n, sent, ctx)
    requires Settled(c)
    ensures Drained(su, k, side, c, pipe, taken, taken, total, n, sent, ctx)
  {
    assert Drain(MachineOf(EnvOf(su, side)), c) == Result(c, []);
  }

  lemma DrainedMore(su: Setup, k: Keys, side: Side, c: Conn, pipe: seq<byte>, taken: nat, t: nat, total: nat, n: nat,
                    sent: seq<seq<byte>>, ctx: ContextState)
    requires su.Honest() && k == su.Keys() && Roomy(su, c.cap) && Short(sent, c.cap)
    requires Follows(su, k, side, c, pipe, taken, total, n, sent, ctx)
    requires c.transport == WaitPayload && c.expectBytes <= |c.rx| && taken < t
    requires Drained(su, k, side, TakePayload(MachineOf(EnvOf(su, side)), c).conn, pipe, taken + 1, t, total, n, sent,
                     ctx)
    ensures Drained(su, k, side, c, pipe, taken, t, total, n, sent, ctx)
  {
    TakeOne(su, k, side, c, pipe, taken, total, n, sent, ctx);
    var m := MachineOf(EnvOf(su, side));
    TakeThenDrain(m, c);
    var h := TakePayload(m, c);
    EffectsConcat(h.out, Drain(m, h.conn).out);
  }

  lemma LengthThenDrain(m: Machine, c: Conn)
    requires c.transport == WaitFrameLen && 2 <= |c.rx|
    ensures Drain(m, c) == Drain(m, LengthTaken(c))
  {
  }

  lemma DrainedLength(su: Setup, k: Keys, side: Side, c: Conn, pipe: seq<byte>, taken: nat, total: nat, n: nat,
                      sent: seq<seq<byte>>, ctx: ContextState)
    requires Follows(su, k, side, c, pipe, taken, total, n, sent, ctx)
    requires c.transport == WaitFrameLen && 2 <= |c.rx|
    ensures Follows(su, k, side, LengthTaken(c), pipe, taken, total, n, sent, ctx)
    ensures Drain(MachineOf(EnvOf(su, side)), c) == Drain(MachineOf(EnvOf(su, side)), LengthTaken(c))
  {
    LengthRead(c);
    LengthThenDrain(MachineOf(EnvOf(su, side)), c);
  }

  /** What one end does with the frames it holds: it takes some of them, in order. */
  lemma {:induction false} DrainFollows(su: Setup, k: Keys, side: Side, c: Conn, pipe: seq<byte>, taken: nat,
                                        total: nat, n: nat, sent: seq<seq<byte>>, ctx: ContextState)
    returns (t: nat)
    requires su.Honest() && k == su.Keys() && Roomy(su, c.cap) && Short(sent, c.cap)
    requires Follows(su, k, side, c, pipe, taken, total, n, sent, ctx)
    ensures taken <= t && Drained(su, k, side, c, pipe, taken, t, total, n, sent, ctx)
    decreases total - taken, if c.transport.WaitFrameLen? then 1 else 0
  {
    if Settled(c) {
      t := taken;
      DrainedNothing(su, k, side, c, pipe, taken, total, n, sent, ctx);
    } else if c.transport == WaitFrameLen {
      DrainedLength(su, k, side, c, pipe, taken, total, n, sent, ctx);
      t := DrainFollows(su, k, side, LengthTaken(c), pipe, taken, total, n, sent, ctx);
    } else {
      TakeOne(su, k, side, c, pipe, taken, total, n, sent, ctx);
      t := DrainFollows(su, k, side, TakePayload(MachineOf(EnvOf(su, side)), c).conn, pipe, taken + 1, total, n, sent,
                        ctx);
      DrainedMore(su, k, side, c, pipe, taken, t, total, n, sent, ctx);
    }
  }

  /** Draining has brought an end from `taken' to `t' frames. */
  ghost predicate Drained(su: Setup, k: Keys, side: Side, c: Conn, pipe: seq<byte>, taken: nat, t: nat, total: nat,
                          n: nat, sent: seq<seq<byte>>, ctx: ContextState)
    requires taken <= t
  {
    var r := Drain(MachineOf(EnvOf(su, side)), c);
    && r.conn.cap == c.cap
    && Follows(su, k, side, r.conn, pipe, t, total, n, sent, ctx)
    && SentBytes(r.out) == EmitsRange(su, k, side, taken, t)
    && Handed(r.out) == HandsRange(sent, taken, t)
  }

  // Runs ---------------------------------------------------------------------------------------------

  /** One end: its connection, the bytes on their way to it, and the messages of its application. */
  datatype End = End(conn: Conn, pipe: seq<byte>, sent: seq<seq<byte>>, got: seq<seq<byte>>)

  datatype Net = Net(client: End, server: End)
  {
    function On(side: Side): End { if side.Client? then client else server }
  }

  /** A network from one end and its peer. */
  function Join(side: Side, e: End, p: End): Net { if side.Client? then Net(e, p) else Net(p, e) }

  /** What can happen: bytes arrive, an end processes its buffer, its application sends, or its core
      takes the event that opens the connection. */
  datatype Move = Arrive(side: Side, n: nat) | Process(side: Side) | Send(side: Side, m: seq<byte>) | Open(side: Side)

  function ArriveAt(e: End, n: nat): End {
    if n <= |e.pipe| && n <= e.conn.cap - |e.conn.rx|
    then e.(conn := Feed(e.conn, e.pipe[..n]).conn, pipe := e.pipe[n..])
    else e
  }

  function ProcessAt(env: Env, e: End): End {
    var r := Drain(MachineOf(env), e.conn);
    e.(conn := r.conn, got := e.got + Handed(r.out))
  }

  function AfterProcess(env: Env, e: End, p: End): End {
    p.(pipe := p.pipe + SentBytes(Drain(MachineOf(env), e.conn).out))
  }

  /** The application sends on an open connection, and no more than the peer's ring can hold. */
  predicate MaySend(e: End, p: End, m: seq<byte>) {
    e.conn.s.proto == Running && |m| + TAG_LEN <= p.conn.cap
  }

  function SendAt(env: Env, e: End, m: seq<byte>): End {
    e.(conn := e.conn.(s := SendMessage(env, e.conn.s, m).s), sent := e.sent + [m])
  }

  function AfterSend(env: Env, e: End, p: End, m: seq<byte>): End {
    p.(pipe := p.pipe + SentBytes(SendMessage(env, e.conn.s, m).out))
  }

  function OpenAt(e: End): End {
    if e.conn.s.ctx == InMaking && e.conn.s.proto == Running
    then e.(conn := e.conn.(s := e.conn.s.(ctx := Connected)))
    else e
  }

  function Step(su: Setup, net: Net, mv: Move): Net {
    var e, p, env := net.On(mv.side), net.On(mv.side.Peer()), EnvOf(su, mv.side);
    match mv
    case Arrive(side, n) => Join(side, ArriveAt(e, n), p)
    case Process(side) => Join(side, ProcessAt(env, e), AfterProcess(env, e, p))
    case Send(side, m) => if MaySend(e, p, m) then Join(side, SendAt(env, e, m), AfterSend(env, e, p, m)) else net
    case Open(side) => Join(side, OpenAt(e), p)
  }

  function Execute(su: Setup, net: Net, moves: seq<Move>): Net
    decreases |moves|
  {
    if moves == [] then net else Execute(su, Step(su, net, moves[0]), moves[1..])
  }

  /** The client has connected and said hello; the server has accepted, whatever identities its slot
      was allocated with. */
  function Start(su: Setup, cap: nat, luid: seq<byte>, ruid: seq<byte>): Net {
    var c := SignalTcpEvent(su.envC, Allocate(FREE_SLOT, su.uidC, su.uidS, cap), TcpConnected);
    var s := SignalTcpEvent(su.envS, Allocate(FREE_SLOT, luid, ruid, cap), TcpClientConnected);
    Net(End(c.conn, SentBytes(s.out), [], []), End(s.conn, SentBytes(c.out), [], []))
  }

  // The invariant --------------------------------------------------------------------------------------

  function Received(taken: nat): nat { if taken < 3 then 0 else taken - 3 }

  ghost predicate Half(su: Setup, k: Keys, cap: nat, side: Side, e: End, p: End, taken: nat, peerTaken: nat)
  {
    && e.conn.cap == cap && Short(p.sent, cap)
    && Follows(su, k, side, e.conn, e.pipe, taken, Count(side.Peer(), peerTaken, |p.sent|), |e.sent|, p.sent,
               e.conn.s.ctx)
    && e.got == p.sent[..Received(taken)]
  }

  /** Both ends follow each other's script. */
  ghost predicate Halves(su: Setup, k: Keys, cap: nat, side: Side, e: End, p: End, t: nat, u: nat) {
    Half(su, k, cap, side, e, p, t, u) && Half(su, k, cap, side.Peer(), p, e, u, t)
  }

  lemma Flip(su: Setup, k: Keys, cap: nat, side: Side, e: End, p: End, t: nat, u: nat)
    ensures Halves(su, k, cap, side, e, p, t, u) <==> Halves(su, k, cap, side.Peer(), p, e, u, t)
  {
    assert side.Peer().Peer() == side;
  }

  ghost predicate Up(su: Setup, k: Keys, cap: nat, net: Net, t: nat, u: nat) {
    Halves(su, k, cap, Client, net.client, net.server, t, u)
  }

  /** The hello is still on its way. */
  ghost predicate Greeting(su: Setup, cap: nat, net: Net) {
    var s := net.server.conn;
    && net.client == End(Conn(FREE_SESSION.(ctx := InMaking, luid := su.uidC, ruid := su.uidS, outgoing := true,
                                            proto := DH),
                              WaitFrameLen, 0, cap, []), [], [], [])
    && s == Conn(FREE_SESSION.(ctx := InMaking, luid := s.s.luid, ruid := s.s.ruid), ServerWaitInitial, 0, cap, s.rx)
    && s.rx + net.server.pipe == Hello(TYPE_NORMAL, su.uidS, su.uidC)
    && net.server.sent == [] && net.server.got == []
  }

  ghost predicate Sound(su: Setup, cap: nat, net: Net)
    requires su.Honest()
  {
    Greeting(su, cap, net) || exists t, u :: Up(su, su.Keys(), cap, net, t, u)
  }

  lemma {:induction false} HandsUpTo(sent: seq<seq<byte>>, a: nat, b: nat)
    requires a <= b <= 3 + |sent|
    ensures sent[..Received(a)] + HandsRange(sent, a, b) == sent[..Received(b)]
    decreases b - a
  {
    var got := sent[..Received(a)];
    if a == b {
      assert got + [] == got;
    } else {
      HandsUpTo(sent, a + 1, b);
      assert got + HandsUp(sent, a) == sent[..Received(a + 1)];
      Assoc(got, HandsUp(sent, a), HandsRange(sent, a + 1, b));
    }
  }

  /** What an end sends on taking a frame is the next frame of its script, if that is due. */
  lemma EmitsNext(su: Setup, k: Keys, side: Side, taken: nat, sent: seq<seq<byte>>)
    requires taken < 3 ==> sent == []
    ensures Count(side, taken, |sent|) <= Count(side, taken + 1, |sent|) <= 3 + |sent|
    ensures Emits(su, k, side, taken) ==
            ScriptTo(su, k, side.Peer(), sent).Range(Count(side, taken, |sent|), Count(side, taken + 1, |sent|))
  {
    var sc := ScriptTo(su, k, side.Peer(), sent);
    var a, b := Count(side, taken, |sent|), Count(side, taken + 1, |sent|);
    if a < b {
      assert sc.Range(a + 1, b) == [];
      assert Frame(sc.At(a)) + [] == Frame(sc.At(a));
    }
  }

  lemma {:induction false} EmitsUpTo(su: Setup, k: Keys, side: Side, a: nat, b: nat, sent: seq<seq<byte>>, from: nat)
    requires a <= b && (a < 3 ==> sent == []) && from <= Count(side, a, |sent|)
    ensures Count(side, a, |sent|) <= Count(side, b, |sent|) <= 3 + |sent|
    ensures var sc := ScriptTo(su, k, side.Peer(), sent);
            sc.Range(from, Count(side, a, |sent|)) + EmitsRange(su, k, side, a, b) ==
            sc.Range(from, Count(side, b, |sent|))
    decreases b - a
  {
    var sc := ScriptTo(su, k, side.Peer(), sent);
    if a < b {
      EmitsNext(su, k, side, a, sent);
      var x, y := Count(side, a, |sent|), Count(side, a + 1, |sent|);
      RangeSplits(sc, from, x, y);
      EmitsUpTo(su, k, side, a + 1, b, sent, from);
      AssocConcat(sc.Range(from, x), Emits(su, k, side, a), EmitsRange(su, k, side, a + 1, b));
    }
  }

  /** More frames of the script enter the pipe. */
  lemma PipeGrows(su: Setup, k: Keys, side: Side, c: Conn, pipe: seq<byte>, more: seq<byte>, taken: nat, total: nat,
                  total': nat, n: nat, sent: seq<seq<byte>>, ctx: ContextState)
    requires Follows(su, k, side, c, pipe, taken, total, n, sent, ctx)
    requires total <= total' <= 3 + |sent|
    requires var sc := ScriptTo(su, k, side, sent); sc.Range(taken, total) + more == sc.Range(taken, total')
    ensures Follows(su, k, side, c, pipe + more, taken, total', n, sent, ctx)
  {
    AssocConcat(Pending(c), pipe, more);
  }

  lemma OwnHalf(su: Setup, k: Keys, cap: nat, side: Side, e: End, p: End, t: nat, t': nat, u: nat, e': End)
    requires Half(su, k, cap, side, e, p, t, u) && t <= t'
    requires Follows(su, k, side, e'.conn, e.pipe, t', Count(side.Peer(), u, |p.sent|), |e.sent|, p.sent, e.conn.s.ctx)
    requires e'.conn.cap == cap && e' == e.(conn := e'.conn, got := e.got + HandsRange(p.sent, t, t'))
    ensures Half(su, k, cap, side, e', p, t', u)
  {
    HandsUpTo(p.sent, t, t');
    StateHasContext(su, k, side, t', |e.sent|, e.conn.s.ctx);
  }

  lemma StateHasContext(su: Setup, k: Keys, side: Side, t: nat, n: nat, ctx: ContextState)
    ensures StateAt(su, k, side, t, n, ctx).ctx == ctx
  {
  }

  lemma PeerHalf(su: Setup, k: Keys, cap: nat, side: Side, e: End, p: End, t: nat, t': nat, u: nat)
    requires Half(su, k, cap, side.Peer(), p, e, u, t) && t <= t' && (t < 3 ==> e.sent == [])
    requires SentBytes(Drain(MachineOf(EnvOf(su, side)), e.conn).out) == EmitsRange(su, k, side, t, t')
    ensures Half(su, k, cap, side.Peer(), AfterProcess(EnvOf(su, side), e, p), e, u, t')
  {
    EmitsUpTo(su, k, side, t, t', e.sent, u);
    PipeGrows(su, k, side.Peer(), p.conn, p.pipe, EmitsRange(su, k, side, t, t'), u, Count(side, t, |e.sent|),
              Count(side, t', |e.sent|), |p.sent|, e.sent, p.conn.s.ctx);
  }

  /** Only the messages of the peer matter to a half of the invariant. */
  lemma SameSent(su: Setup, k: Keys, cap: nat, side: Side, e: End, p: End, p': End, t: nat, u: nat)
    requires Half(su, k, cap, side, e, p, t, u) && p'.sent == p.sent
    ensures Half(su, k, cap, side, e, p', t, u)
  {
  }

  lemma ProcessKeepsHalves(su: Setup, k: Keys, cap: nat, side: Side, e: End, p: End, t: nat, u: nat) returns (t': nat)
    requires su.Honest() && k == su.Keys() && Roomy(su, cap)
    requires Half(su, k, cap, side, e, p, t, u) && Half(su, k, cap, side.Peer(), p, e, u, t)
    ensures var e', p' := ProcessAt(EnvOf(su, side), e), AfterProcess(EnvOf(su, side), e, p);
            t <= t' && Half(su, k, cap, side, e', p', t', u) && Half(su, k, cap, side.Peer(), p', e', u, t')
  {
    var e', p' := ProcessAt(EnvOf(su, side), e), AfterProcess(EnvOf(su, side), e, p);
    t' := DrainFollows(su, k, side, e.conn, e.pipe, t, Count(side.Peer(), u, |p.sent|), |e.sent|, p.sent, e.conn.s.ctx);
    OwnHalf(su, k, cap, side, e, p, t, t', u, e');
    PeerHalf(su, k, cap, side, e, p, t, t', u);
    SameSent(su, k, cap, side, e', p, p', t', u);
    SameSent(su, k, cap, side.Peer(), p', e, e', u, t');
  }

  lemma BytesArrive(c: Conn, pipe: seq<byte>, n: nat)
    requires n <= |pipe| && n <= c.cap - |c.rx|
    ensures Feed(c, pipe[..n]).conn == More(c, pipe[..n])
    ensures Pending(More(c, pipe[..n])) + pipe[n..] == Pending(c) + pipe
  {
    assert pipe == pipe[..n] + pipe[n..];
    AssocConcat(Pending(c), pipe[..n], pipe[n..]);
    AssocConcat(if c.transport.WaitPayload? then BE16(c.expectBytes) else [], c.rx, pipe[..n]);
  }

  lemma ArriveKeepsHalf(su: Setup, k: Keys, cap: nat, side: Side, e: End, p: End, t: nat, u: nat, n: nat)
    requires Half(su, k, cap, side, e, p, t, u)
    ensures Half(su, k, cap, side, ArriveAt(e, n), p, t, u) && ArriveAt(e, n).sent == e.sent
  {
    if n <= |e.pipe| && n <= e.conn.cap - |e.conn.rx| {
      BytesArrive(e.conn, e.pipe, n);
    }
  }

  lemma OpenKeepsHalf(su: Setup, k: Keys, cap: nat, side: Side, e: End, p: End, t: nat, u: nat)
    requires Half(su, k, cap, side, e, p, t, u)
    ensures Half(su, k, cap, side, OpenAt(e), p, t, u) && OpenAt(e).sent == e.sent
  {
    assert Pending(OpenAt(e).conn) == Pending(e.conn);
  }

  ghost predicate CanReach(su: Setup) { su.envC.sendOk && su.envS.sendOk && su.envS.cr == su.envC.cr }

  /** A running end seals with the key and the counter that its next frame needs. */
  lemma SendGoes(env: Env, c: Session, m: seq<byte>)
    requires env.sendOk && Alive(c.ctx)
    ensures var o := SendMessage(env, c, m);
            o.s == c.(ivOut := NextIv(c.ivOut)) && SentBytes(o.out) == Frame(Seal(env.cr, c.keyOut, c.ivOut, m))
  {
    OneEffect(Sent(Frame(Seal(env.cr, c.keyOut, c.ivOut, m))));
  }

  lemma RunningState(su: Setup, k: Keys, side: Side, t: nat, n: nat, ctx: ContextState)
    requires StateAt(su, k, side, t, n, ctx).proto == Running
    ensures t >= 3
    ensures var c := StateAt(su, k, side, t, n, ctx);
            && StateAt(su, k, side, t, n + 1, ctx) == c.(ivOut := NextIv(c.ivOut))
            && c.keyOut == (if side.Client? then k.a else k.b)
            && c.ivOut == Iv(if side.Client? then k.i else k.j, 2 + n)
  {
    var x := if side.Client? then k.i else k.j;
    assert Iv(x, 3 + n) == NextIv(Iv(x, 2 + n));
  }

  lemma NewestFrame(su: Setup, k: Keys, side: Side, sent: seq<seq<byte>>, m: seq<byte>)
    ensures ScriptTo(su, k, side.Peer(), sent + [m]).At(3 + |sent|) ==
            Seal(su.Cr(), if side.Client? then k.a else k.b, Iv(if side.Client? then k.i else k.j, 2 + |sent|), m)
  {
    var sc, i := ScriptTo(su, k, side.Peer(), sent + [m]), 3 + |sent|;
    assert sc.plains[i - 1] == m;
    assert sc.At(i) == Seal(sc.cr, sc.key, Iv(sc.iv, i - 1), sc.plains[i - 1]);
    assert sc.key == (if side.Client? then k.a else k.b) && sc.iv == (if side.Client? then k.i else k.j);
  }

  lemma SendSeals(su: Setup, k: Keys, side: Side, t: nat, sent: seq<seq<byte>>, m: seq<byte>, ctx: ContextState)
    requires CanReach(su) && Alive(ctx) && (t < 3 ==> sent == [])
    requires StateAt(su, k, side, t, |sent|, ctx).proto == Running
    ensures t >= 3
    ensures var o := SendMessage(EnvOf(su, side), StateAt(su, k, side, t, |sent|, ctx), m);
            && o.s == StateAt(su, k, side, t, |sent| + 1, ctx)
            && SentBytes(o.out) == Frame(ScriptTo(su, k, side.Peer(), sent + [m]).At(3 + |sent|))
  {
    RunningState(su, k, side, t, |sent|, ctx);
    SendGoes(EnvOf(su, side), StateAt(su, k, side, t, |sent|, ctx), m);
    NewestFrame(su, k, side, sent, m);
  }

  lemma SendKeepsOwnHalf(su: Setup, k: Keys, cap: nat, side: Side, e: End, p: End, t: nat, u: nat, m: seq<byte>)
    requires CanReach(su) && Half(su, k, cap, side, e, p, t, u) && e.conn.s.proto == Running
    ensures t >= 3 && Half(su, k, cap, side, SendAt(EnvOf(su, side), e, m), p, t, u)
  {
    RunningState(su, k, side, t, |e.sent|, e.conn.s.ctx);
    SendGoes(EnvOf(su, side), e.conn.s, m);
    SentFromHalf(su, k, cap, side, e, p, t, u, m, SendAt(EnvOf(su, side), e, m));
  }

  lemma SentFromHalf(su: Setup, k: Keys, cap: nat, side: Side, e: End, p: End, t: nat, u: nat, m: seq<byte>, e': End)
    requires Half(su, k, cap, side, e, p, t, u) && t >= 3
    requires e' == e.(conn := e.conn.(s := StateAt(su, k, side, t, |e.sent| + 1, e.conn.s.ctx)), sent := e.sent + [m])
    requires e'.conn.s.ctx == e.conn.s.ctx
    ensures Half(su, k, cap, side, e', p, t, u)
  {
    assert Pending(e'.conn) == Pending(e.conn);
  }

  lemma ScriptGrows(su: Setup, k: Keys, side: Side, sent: seq<seq<byte>>, m: seq<byte>, a: nat)
    requires a <= 3 + |sent|
    ensures var sc, sc' := ScriptTo(su, k, side, sent), ScriptTo(su, k, side, sent + [m]);
            && sc'.Range(a, 3 + |sent|) == sc.Range(a, 3 + |sent|)
            && sc'.Range(a, 4 + |sent|) == sc.Range(a, 3 + |sent|) + Frame(sc'.At(3 + |sent|))
  {
    var sc, sc' := ScriptTo(su, k, side, sent), ScriptTo(su, k, side, sent + [m]);
    RangeIsStable(sc, m, a, 3 + |sent|);
    assert sc'.plains == sc.plains + [m];
    RangeSplits(sc', a, 3 + |sent|, 4 + |sent|);
    assert sc'.Range(4 + |sent|, 4 + |sent|) == [];
    assert Frame(sc'.At(3 + |sent|)) + [] == Frame(sc'.At(3 + |sent|));
  }

  lemma FollowsMore(su: Setup, k: Keys, side: Side, c: Conn, pipe: seq<byte>, more: seq<byte>, u: nat, n: nat,
                    sent: seq<seq<byte>>, m: seq<byte>, ctx: ContextState)
    requires Follows(su, k, side, c, pipe, u, 3 + |sent|, n, sent, ctx)
    requires more == Frame(ScriptTo(su, k, side, sent + [m]).At(3 + |sent|))
    ensures Follows(su, k, side, c, pipe + more, u, 4 + |sent|, n, sent + [m], ctx)
  {
    ScriptGrows(su, k, side, sent, m, u);
    AssocConcat(Pending(c), pipe, more);
  }

  lemma FrameReachesPeer(su: Setup, k: Keys, cap: nat, side: Side, e: End, p: End, t: nat, u: nat, m: seq<byte>,
                         e': End, p': End)
    requires Half(su, k, cap, side.Peer(), p, e, u, t) && t >= 3 && |m| + TAG_LEN <= cap
    requires e'.sent == e.sent + [m]
    requires p' == p.(pipe := p.pipe + Frame(ScriptTo(su, k, side.Peer(), e'.sent).At(3 + |e.sent|)))
    ensures Half(su, k, cap, side.Peer(), p', e', u, t)
  {
    var more := Frame(ScriptTo(su, k, side.Peer(), e'.sent).At(3 + |e.sent|));
    HalfCounts(su, k, cap, side, e, p, t, u, m, e');
    FollowsMore(su, k, side.Peer(), p.conn, p.pipe, more, u, |p.sent|, e.sent, m, p.conn.s.ctx);
  }

  lemma HalfCounts(su: Setup, k: Keys, cap: nat, side: Side, e: End, p: End, t: nat, u: nat, m: seq<byte>, e': End)
    requires Half(su, k, cap, side.Peer(), p, e, u, t) && t >= 3 && |m| + TAG_LEN <= cap
    requires e'.sent == e.sent + [m]
    ensures side.Peer().Peer() == side
    ensures Count(side, t, |e.sent|) == 3 + |e.sent| && Count(side, t, |e'.sent|) == 4 + |e.sent|
    ensures Short(e'.sent, cap) && p.got == e'.sent[..Received(u)]
  {
  }

  lemma SendKeepsPeerHalf(su: Setup, k: Keys, cap: nat, side: Side, e: End, p: End, t: nat, u: nat, m: seq<byte>)
    requires CanReach(su) && Half(su, k, cap, side.Peer(), p, e, u, t) && t >= 3 && |m| + TAG_LEN <= cap
    requires e.conn.s == StateAt(su, k, side, t, |e.sent|, e.conn.s.ctx) && Alive(e.conn.s.ctx)
    ensures Half(su, k, cap, side.Peer(), AfterSend(EnvOf(su, side), e, p, m), SendAt(EnvOf(su, side), e, m), u, t)
  {
    SendSeals(su, k, side, t, e.sent, m, e.conn.s.ctx);
    FrameReachesPeer(su, k, cap, side, e, p, t, u, m, SendAt(EnvOf(su, side), e, m),
                     AfterSend(EnvOf(su, side), e, p, m));
  }

  // Every step keeps the invariant ---------------------------------------------------------------------

  lemma OwnStepKeeps(su: Setup, k: Keys, cap: nat, side: Side, e: End, p: End, t: nat, u: nat, e': End)
    requires Halves(su, k, cap, side, e, p, t, u)
    requires Half(su, k, cap, side, e', p, t, u) && e'.sent == e.sent
    ensures Halves(su, k, cap, side, e', p, t, u)
  {
    SameSent(su, k, cap, side.Peer(), p, e, e', u, t);
  }

  lemma SendKeepsHalves(su: Setup, k: Keys, cap: nat, side: Side, e: End, p: End, t: nat, u: nat, m: seq<byte>)
    requires CanReach(su) && Halves(su, k, cap, side, e, p, t, u) && MaySend(e, p, m)
    ensures Halves(su, k, cap, side, SendAt(EnvOf(su, side), e, m), AfterSend(EnvOf(su, side), e, p, m), t, u)
  {
    var e', p' := SendAt(EnvOf(su, side), e, m), AfterSend(EnvOf(su, side), e, p, m);
    SendKeepsOwnHalf(su, k, cap, side, e, p, t, u, m);
    SameSent(su, k, cap, side, e', p, p', t, u);
    SendKeepsPeerHalf(su, k, cap, side, e, p, t, u, m);
  }

  /** One step on one side. */
  lemma SideStepKeeps(su: Setup, k: Keys, cap: nat, net: Net, mv: Move, t: nat, u: nat) returns (t': nat)
    requires su.Honest() && k == su.Keys() && Roomy(su, cap)
    requires Halves(su, k, cap, mv.side, net.On(mv.side), net.On(mv.side.Peer()), t, u)
    ensures var net' := Step(su, net, mv);
            t <= t' && Halves(su, k, cap, mv.side, net'.On(mv.side), net'.On(mv.side.Peer()), t', u)
  {
    var side, e, p := mv.side, net.On(mv.side), net.On(mv.side.Peer());
    t' := t;
    match mv
    case Arrive(_, n) =>
      ArriveKeepsHalf(su, k, cap, side, e, p, t, u, n);
      OwnStepKeeps(su, k, cap, side, e, p, t, u, ArriveAt(e, n));
    case Process(_) =>
      t' := ProcessKeepsHalves(su, k, cap, side, e, p, t, u);
    case Send(_, m) =>
      if MaySend(e, p, m) {
        SendKeepsHalves(su, k, cap, side, e, p, t, u, m);
      }
    case Open(_) =>
      OpenKeepsHalf(su, k, cap, side, e, p, t, u);
      OwnStepKeeps(su, k, cap, side, e, p, t, u, OpenAt(e));
  }

  lemma StepKeepsUp(su: Setup, cap: nat, net: Net, mv: Move, t: nat, u: nat)
    requires su.Honest() && Roomy(su, cap) && Up(su, su.Keys(), cap, net, t, u)
    ensures exists t', u' :: t <= t' && u <= u' && Up(su, su.Keys(), cap, Step(su, net, mv), t', u')
  {
    if mv.side.Client? {
      var t' := SideStepKeeps(su, su.Keys(), cap, net, mv, t, u);
      assert Up(su, su.Keys(), cap, Step(su, net, mv), t', u);
    } else {
      ServerStepKeepsUp(su, cap, net, mv, t, u);
    }
  }

  lemma ServerStepKeepsUp(su: Setup, cap: nat, net: Net, mv: Move, t: nat, u: nat)
    requires su.Honest() && Roomy(su, cap) && Up(su, su.Keys(), cap, net, t, u) && mv.side.Server?
    ensures exists t', u' :: t <= t' && u <= u' && Up(su, su.Keys(), cap, Step(su, net, mv), t', u')
  {
    Flip(su, su.Keys(), cap, Client, net.client, net.server, t, u);
    var u' := SideStepKeeps(su, su.Keys(), cap, net, mv, u, t);
    var net' := Step(su, net, mv);
    Flip(su, su.Keys(), cap, Client, net'.client, net'.server, t, u');
    assert Up(su, su.Keys(), cap, net', t, u');
  }

  // The hello --------------------------------------------------------------------------------------------

  lemma HelloIsTaken(su: Setup, c: Session, k: Keys)
    requires su.Honest() && c == FREE_SESSION.(ctx := InMaking, luid := c.luid, ruid := c.ruid)
    ensures Takes(ServerHello(su.envS, c, Hello(TYPE_NORMAL, su.uidS, su.uidC)),
                  su.ServerAt(k, 0, 0, InMaking), Frame(su.PubS()), [])
  {
    var h := Hello(TYPE_NORMAL, su.uidS, su.uidC);
    assert h[3..3 + ID_LEN] == su.uidS && h[3 + ID_LEN..] == su.uidC;
    assert h[2] == 17 && h[2] / 16 == 1 && h[2] % 16 == 1;
    assert KnownIds(su.envS, su.uidS, su.uidC);
    assert ServerHello(su.envS, c, h).out == [Sent(Frame(su.PubS()))];
    OneEffect(Sent(Frame(su.PubS())));
  }

  lemma FirstFrame(su: Setup, k: Keys)
    ensures ScriptTo(su, k, Client, []).Range(0, 1) == Frame(su.PubS())
    ensures ScriptTo(su, k, Server, []).Range(0, 0) == []
  {
    var sc := ScriptTo(su, k, Client, []);
    assert sc.Range(1, 1) == [];
    assert Frame(sc.At(0)) + [] == Frame(sc.At(0));
  }

  lemma HelloDrains(su: Setup, c: Conn)
    requires c.transport == ServerWaitInitial
    ensures var r := Drain(MachineOf(su.envS), c);
            if c.rx == Hello(TYPE_NORMAL, su.uidS, su.uidC) && |c.rx| == HELLO_LEN then
              var o := ServerHello(su.envS, c.s, c.rx);
              !o.closed ==> r == Result(c.(s := o.s, transport := WaitFrameLen, rx := []), o.out)
            else |c.rx| < HELLO_LEN ==> r == Result(c, [])
  {
    if |c.rx| == HELLO_LEN {
      assert c.rx[..HELLO_LEN] == c.rx && c.rx[HELLO_LEN..] == [];
    }
  }

  lemma HelloGoesUp(su: Setup, cap: nat, net: Net)
    requires su.Honest() && Roomy(su, cap) && Greeting(su, cap, net)
    requires |net.server.conn.rx| == HELLO_LEN
    ensures Up(su, su.Keys(), cap, Step(su, net, Process(Server)), 0, 0)
  {
    var k, c := su.Keys(), net.server.conn;
    assert net.server.pipe == [] && c.rx == Hello(TYPE_NORMAL, su.uidS, su.uidC) by {
      assert |c.rx + net.server.pipe| == HELLO_LEN;
    }
    HelloIsTaken(su, c.s, k);
    HelloDrains(su, c);
    FirstFrame(su, k);
    var net' := Step(su, net, Process(Server));
    assert net'.server == End(Conn(su.ServerAt(k, 0, 0, InMaking), WaitFrameLen, 0, cap, []), [], [], []);
    assert net'.client == net.client.(pipe := Frame(su.PubS()));
    assert Pending(net'.client.conn) + net'.client.pipe == Frame(su.PubS());
  }

  lemma GreetingSteps(su: Setup, cap: nat, net: Net, mv: Move)
    requires su.Honest() && Roomy(su, cap) && Greeting(su, cap, net)
    ensures Sound(su, cap, Step(su, net, mv))
  {
    var s := net.server;
    if mv == Process(Server) && |s.conn.rx| == HELLO_LEN {
      HelloGoesUp(su, cap, net);
    } else if mv.Process? && mv.side.Server? {
      assert |s.conn.rx + s.pipe| == HELLO_LEN;
      HelloDrains(su, s.conn);
      assert net.client.pipe + SentBytes([]) == net.client.pipe && s.got + Handed([]) == s.got;
      assert Step(su, net, mv) == net;
    } else if mv.Process? {
      assert Drain(MachineOf(su.envC), net.client.conn) == Result(net.client.conn, []);
      assert s.pipe + SentBytes([]) == s.pipe && net.client.got + Handed([]) == net.client.got;
      assert Step(su, net, mv) == net;
    } else if mv.Arrive? && mv.side.Server? {
      GreetingArrives(su, cap, net, mv.n);
    } else if mv.Arrive? {
      assert net.client.conn.rx + [] == net.client.conn.rx;
      assert Step(su, net, mv) == net;
    } else {
      assert Step(su, net, mv) == net;
    }
  }

  lemma GreetingArrives(su: Setup, cap: nat, net: Net, n: nat)
    requires Greeting(su, cap, net)
    ensures Greeting(su, cap, Step(su, net, Arrive(Server, n)))
  {
    var s := net.server;
    if n <= |s.pipe| && n <= s.conn.cap - |s.conn.rx| {
      assert s.pipe == s.pipe[..n] + s.pipe[n..];
      AssocConcat(s.conn.rx, s.pipe[..n], s.pipe[n..]);
    }
  }

  lemma StepKeepsSound(su: Setup, cap: nat, net: Net, mv: Move)
    requires su.Honest() && Roomy(su, cap) && Sound(su, cap, net)
    ensures Sound(su, cap, Step(su, net, mv))
  {
    if Greeting(su, cap, net) {
      GreetingSteps(su, cap, net, mv);
    } else {
      var t, u :| Up(su, su.Keys(), cap, net, t, u);
      StepKeepsUp(su, cap, net, mv, t, u);
    }
  }

  lemma StartIsSound(su: Setup, cap: nat, luid: seq<byte>, ruid: seq<byte>)
    requires su.Honest()
    ensures Greeting(su, cap, Start(su, cap, luid, ruid))
  {
    var h := Hello(TYPE_NORMAL, su.uidS, su.uidC);
    OneEffect(Sent(h));
    assert [] + h == h;
  }

  lemma {:induction false} RunIsSound(su: Setup, cap: nat, net: Net, moves: seq<Move>)
    requires su.Honest() && Roomy(su, cap) && Sound(su, cap, net)
    ensures Sound(su, cap, Execute(su, net, moves))
    decreases |moves|
  {
    if moves != [] {
      StepKeepsSound(su, cap, net, moves[0]);
      RunIsSound(su, cap, Step(su, net, moves[0]), moves[1..]);
    }
  }

  // What the invariant means -----------------------------------------------------------------------------

  predicate HasKeys(s: Session) { s.proto !in {ProtoInitial, DH, ServerDH} }

  /** The peer's out-counter is the own in-counter plus the frames that are on their way. */
  ghost predicate CountersAgree(e: End, p: End) {
    exists fs :: OnTheirWay(e, fs) && p.conn.s.ivOut == Iv(e.conn.s.ivIn, |fs|)
  }

  /** At most one sequence of frames is on its way (FramesAreUnique). */
  predicate OnTheirWay(e: End, fs: seq<seq<byte>>) {
    Framable(fs) && Pending(e.conn) + e.pipe == EncodeFrames(fs)
  }

  predicate Sized(sc: Script) { forall i :: 0 <= i < sc.Length() ==> |sc.At(i)| < 0x1_0000 }

  ghost predicate InStep(e: End, p: End) {
    && Alive(e.conn.s.ctx)
    && e.got <= p.sent
    && (HasKeys(e.conn.s) && HasKeys(p.conn.s) ==> e.conn.s.keyIn == p.conn.s.keyOut && CountersAgree(e, p))
  }

  lemma {:induction false} RangeIsFrames(sc: Script, a: nat, b: nat) returns (fs: seq<seq<byte>>)
    requires a <= b <= sc.Length() && Sized(sc)
    ensures sc.Range(a, b) == EncodeFrames(fs) && |fs| == b - a && Framable(fs)
    decreases b - a
  {
    if a == b {
      fs := [];
    } else {
      var rest := RangeIsFrames(sc, a + 1, b);
      fs := [sc.At(a)] + rest;
      assert fs[1..] == rest && forall i :: 1 <= i < |fs| ==> fs[i] == rest[i - 1];
    }
  }

  lemma IvGap(iv: Iv12, a: nat, n: nat, b: nat, x: Iv12, y: Iv12)
    requires a + n == b && x == Iv(iv, a) && y == Iv(iv, b)
    ensures y == Iv(x, n)
  {
    IvAdds(iv, a, n);
  }

  lemma CountersOfScript(sc: Script, e: End, p: End, t: nat, total: nat, iv: Iv12)
    requires 1 <= t <= total <= sc.Length() && Sized(sc) && Pending(e.conn) + e.pipe == sc.Range(t, total)
    requires e.conn.s.ivIn == Iv(iv, t - 1) && p.conn.s.ivOut == Iv(iv, total - 1)
    ensures CountersAgree(e, p)
  {
    var fs := RangeIsFrames(sc, t, total);
    IvGap(iv, t - 1, |fs|, total - 1, e.conn.s.ivIn, p.conn.s.ivOut);
    assert OnTheirWay(e, fs);
  }


  /** Key material of one direction, as the two ends see it. */
  predicate Outwards(k: Keys, side: Side, c: Session, count: nat) {
    && count >= 1
    && c.keyOut == (if side.Client? then k.a else k.b)
    && c.ivOut == Iv(if side.Client? then k.i else k.j, count - 1)
  }

  predicate Inwards(k: Keys, side: Side, c: Session, taken: nat) {
    && taken >= 1
    && c.keyIn == (if side.Client? then k.b else k.a)
    && c.ivIn == Iv(if side.Client? then k.j else k.i, taken - 1)
  }

  lemma KeysIn(su: Setup, k: Keys, side: Side, t: nat, n: nat, ctx: ContextState)
    requires HasKeys(StateAt(su, k, side, t, n, ctx))
    ensures Inwards(k, side, StateAt(su, k, side, t, n, ctx), t)
  {
  }

  lemma KeysOut(su: Setup, k: Keys, side: Side, t: nat, n: nat, ctx: ContextState)
    requires HasKeys(StateAt(su, k, side, t, n, ctx)) && (t < 3 ==> n == 0)
    ensures Outwards(k, side, StateAt(su, k, side, t, n, ctx), Count(side, t, n))
  {
    var x := if side.Client? then k.i else k.j;
    IvSteps(x);
    assert StateAt(su, k, side, t, n, ctx).ivOut == Iv(x, Count(side, t, n) - 1);
  }

  lemma MaterialMatches(k: Keys, side: Side, sc: Script, e: End, p: End, t: nat, total: nat)
    requires Inwards(k, side, e.conn.s, t) && Outwards(k, side.Peer(), p.conn.s, total)
    requires t <= total <= sc.Length() && Sized(sc) && Pending(e.conn) + e.pipe == sc.Range(t, total)
    ensures e.conn.s.keyIn == p.conn.s.keyOut && CountersAgree(e, p)
  {
    CountersOfScript(sc, e, p, t, total, if side.Client? then k.j else k.i);
  }

  lemma HalfMeansInStep(su: Setup, k: Keys, cap: nat, side: Side, e: End, p: End, t: nat, u: nat)
    requires su.Honest() && Roomy(su, cap) && Halves(su, k, cap, side, e, p, t, u)
    ensures InStep(e, p)
  {
    assert e.got <= p.sent;
    forall i | 0 <= i < 3 + |p.sent| ensures |ScriptTo(su, k, side, p.sent).At(i)| < 0x1_0000 {
      FramesFit(su, k, side, p.sent, cap, i);
    }
    if HasKeys(e.conn.s) && HasKeys(p.conn.s) {
      KeysIn(su, k, side, t, |e.sent|, e.conn.s.ctx);
      KeysOut(su, k, side.Peer(), u, |p.sent|, p.conn.s.ctx);
      MaterialMatches(k, side, ScriptTo(su, k, side, p.sent), e, p, t, Count(side.Peer(), u, |p.sent|));
    }
  }

  /** In every state of every run the ends are in step: nothing is closed, so no frame failed to open,
      keys are crosswise equal, counters differ by the frames on their way, and what one application
      got is what the other sent, so far. */
  lemma RunsStayInStep(su: Setup, cap: nat, luid: seq<byte>, ruid: seq<byte>, moves: seq<Move>)
    requires su.Honest() && Roomy(su, cap)
    ensures var net := Execute(su, Start(su, cap, luid, ruid), moves);
            InStep(net.client, net.server) && InStep(net.server, net.client)
  {
    StartIsSound(su, cap, luid, ruid);
    RunIsSound(su, cap, Start(su, cap, luid, ruid), moves);
    var net := Execute(su, Start(su, cap, luid, ruid), moves);
    if !Greeting(su, cap, net) {
      var t, u :| Up(su, su.Keys(), cap, net, t, u);
      Flip(su, su.Keys(), cap, Client, net.client, net.server, t, u);
      HalfMeansInStep(su, su.Keys(), cap, Client, net.client, net.server, t, u);
      HalfMeansInStep(su, su.Keys(), cap, Server, net.server, net.client, u, t);
    }
  }

  // Rest -----------------------------------------------------------------------------------------------------

  /** Processing changes nothing, and nothing on its way can arrive. */
  predicate Idle(env: Env, e: End) {
    ProcessAt(env, e) == e && (e.pipe == [] || |e.conn.rx| == e.conn.cap)
  }

  predicate Resting(su: Setup, net: Net) { Idle(su.envC, net.client) && Idle(su.envS, net.server) }

  lemma IdleSettles(env: Env, e: End)
    requires Waiting(e.conn)
    ensures ProcessAt(env, e) == e <==> Settled(e.conn)
  {
    DrainSettles(MachineOf(env), e.conn);
    if Settled(e.conn) {
      assert Drain(MachineOf(env), e.conn) == Result(e.conn, []);
      assert e.got + Handed([]) == e.got;
    }
  }

  lemma ExpectsNext(su: Setup, k: Keys, side: Side, c: Conn, pipe: seq<byte>, taken: nat, total: nat, n: nat,
                    sent: seq<seq<byte>>, ctx: ContextState)
    requires su.Honest() && Roomy(su, c.cap) && Short(sent, c.cap)
    requires Follows(su, k, side, c, pipe, taken, total, n, sent, ctx) && c.transport == WaitPayload
    ensures taken < total && c.expectBytes == |ScriptTo(su, k, side, sent).At(taken)| <= c.cap
  {
    var sc := ScriptTo(su, k, side, sent);
    assert |Pending(c)| >= 2;
    assert taken < total;
    FramesFit(su, k, side, sent, c.cap, taken);
    var p := sc.At(taken);
    var all := Pending(c) + pipe;
    assert all[..2] == BE16(c.expectBytes);
    assert all == Frame(p) + sc.Range(taken + 1, total);
    assert all[..2] == BE16(|p|);
    BE16RoundTrip(c.expectBytes);
    BE16RoundTrip(|p|);
  }

  /** An end at rest has taken all that its peer has sent. */
  lemma RestTakesAll(su: Setup, k: Keys, side: Side, c: Conn, pipe: seq<byte>, taken: nat, total: nat, n: nat,
                     sent: seq<seq<byte>>, ctx: ContextState)
    requires su.Honest() && Roomy(su, c.cap) && Short(sent, c.cap)
    requires Follows(su, k, side, c, pipe, taken, total, n, sent, ctx)
    requires Settled(c) && (pipe == [] || |c.rx| == c.cap)
    ensures taken == total
  {
    if c.transport == WaitPayload {
      ExpectsNext(su, k, side, c, pipe, taken, total, n, sent, ctx);
    }
  }

  lemma GreetingIsNotRest(su: Setup, cap: nat, net: Net)
    requires su.Honest() && Roomy(su, cap) && Greeting(su, cap, net)
    ensures !Resting(su, net)
  {
    var s := net.server;
    assert |s.conn.rx + s.pipe| == HELLO_LEN;
    if |s.conn.rx| == HELLO_LEN {
      assert s.conn.rx + s.pipe == s.conn.rx;
      HelloIsTaken(su, s.conn.s, su.Keys());
      HelloDrains(su, s.conn);
    }
  }

  /** Everything has been delivered, on an open connection. */
  predicate Complete(net: Net) {
    && net.client.conn.s.proto == Running && net.server.conn.s.proto == Running
    && net.client.got == net.server.sent && net.server.got == net.client.sent
  }

  lemma UpAtRest(su: Setup, cap: nat, net: Net, t: nat, u: nat)
    requires su.Honest() && Roomy(su, cap) && Up(su, su.Keys(), cap, net, t, u) && Resting(su, net)
    ensures Complete(net)
  {
    var k, c, s := su.Keys(), net.client, net.server;
    IdleSettles(su.envC, c);
    IdleSettles(su.envS, s);
    RestTakesAll(su, k, Client, c.conn, c.pipe, t, Count(Server, u, |s.sent|), |c.sent|, s.sent, c.conn.s.ctx);
    RestTakesAll(su, k, Server, s.conn, s.pipe, u, Count(Client, t, |c.sent|), |s.sent|, c.sent, s.conn.s.ctx);
    assert t == 3 + |s.sent| && u == 3 + |c.sent|;
  }

  /** A run that has come to rest, at whatever point, has delivered everything: there is no deadlock. */
  lemma RestMeansComplete(su: Setup, cap: nat, luid: seq<byte>, ruid: seq<byte>, moves: seq<Move>)
    requires su.Honest() && Roomy(su, cap)
    requires Resting(su, Execute(su, Start(su, cap, luid, ruid), moves))
    ensures Complete(Execute(su, Start(su, cap, luid, ruid), moves))
  {
    StartIsSound(su, cap, luid, ruid);
    RunIsSound(su, cap, Start(su, cap, luid, ruid), moves);
    var net := Execute(su, Start(su, cap, luid, ruid), moves);
    if Greeting(su, cap, net) {
      GreetingIsNotRest(su, cap, net);
    } else {
      var t, u :| Up(su, su.Keys(), cap, net, t, u);
      UpAtRest(su, cap, net, t, u);
    }
  }

  // Every run can be finished ------------------------------------------------------------------------------

  predicate NoSends(moves: seq<Move>) { forall i :: 0 <= i < |moves| ==> !moves[i].Send? }

  /** The frames that are still to be taken. */
  function Left(net: Net, t: nat, u: nat): int { 6 + |net.client.sent| + |net.server.sent| - t - u }

  function InPipes(net: Net): nat { |net.client.pipe| + |net.server.pipe| }

  function InRings(net: Net): nat { |net.client.conn.rx| + |net.server.conn.rx| }

  predicate SameMessages(net: Net, net': Net) {
    net'.client.sent == net.client.sent && net'.server.sent == net.server.sent
  }

  lemma LeftIsNat(su: Setup, k: Keys, cap: nat, net: Net, t: nat, u: nat)
    requires Up(su, k, cap, net, t, u)
    ensures Left(net, t, u) >= 0
  {
  }

  /** Bytes that leave the pipe get into the ring. */
  lemma ArriveMoves(su: Setup, net: Net, side: Side)
    requires var e := net.On(side); e.pipe != [] && |e.conn.rx| < e.conn.cap
    ensures var net' := Step(su, net, Arrive(side, 1)); SameMessages(net, net') && InPipes(net') == InPipes(net) - 1
  {
  }

  lemma SameExpectation(c: Conn, c': Conn)
    requires c.transport == WaitPayload && c'.transport == WaitPayload && Pending(c') == Pending(c)
    requires c.expectBytes < 0x1_0000 && c'.expectBytes < 0x1_0000
    ensures |c'.rx| == |c.rx| && c'.expectBytes == c.expectBytes
  {
    BE16RoundTrip(c.expectBytes);
    BE16RoundTrip(c'.expectBytes);
    assert Pending(c)[..2] == BE16(c.expectBytes) && Pending(c')[..2] == BE16(c'.expectBytes);
  }

  lemma SamePending(c: Conn, c': Conn)
    requires Waiting(c) && Waiting(c') && !Settled(c) && Settled(c') && Pending(c') == Pending(c)
    requires c.transport == WaitPayload ==> c.expectBytes < 0x1_0000
    requires c'.transport == WaitPayload ==> c'.expectBytes < 0x1_0000
    ensures |c'.rx| < |c.rx|
  {
    if c.transport == WaitPayload && c'.transport == WaitPayload {
      SameExpectation(c, c');
    }
  }

  /** Without taking a frame an end can at most read a length. */
  lemma ProcessMoves(su: Setup, k: Keys, cap: nat, side: Side, e: End, p: End, t: nat, u: nat, e': End, p': End)
    requires Halves(su, k, cap, side, e, p, t, u) && Halves(su, k, cap, side, e', p', t, u)
    requires e'.sent == e.sent && p'.sent == p.sent && e'.pipe == e.pipe && p'.conn == p.conn
    requires !Settled(e.conn) && Settled(e'.conn)
    ensures p'.pipe == p.pipe && |e'.conn.rx| < |e.conn.rx|
  {
    assert Pending(e'.conn) + e.pipe == Pending(e.conn) + e.pipe;
    assert Pending(e'.conn) == Pending(e.conn) by {
      var a, b := Pending(e'.conn), Pending(e.conn);
      assert a == (a + e.pipe)[..|a + e.pipe| - |e.pipe|] && b == (b + e.pipe)[..|b + e.pipe| - |e.pipe|];
    }
    SamePending(e.conn, e'.conn);
    assert Pending(p.conn) + p'.pipe == Pending(p.conn) + p.pipe;
    assert p'.pipe == (Pending(p.conn) + p'.pipe)[|Pending(p.conn)|..];
    assert p.pipe == (Pending(p.conn) + p.pipe)[|Pending(p.conn)|..];
  }

  lemma ProcessSettles(su: Setup, net: Net, side: Side)
    requires Waiting(net.On(side).conn)
    ensures var net' := Step(su, net, Process(side));
            var e, e', p, p' := net.On(side), net'.On(side), net.On(side.Peer()), net'.On(side.Peer());
            && SameMessages(net, net') && Settled(e'.conn)
            && e'.sent == e.sent && e'.pipe == e.pipe && p'.sent == p.sent && p'.conn == p.conn
  {
    DrainSettles(MachineOf(EnvOf(su, side)), net.On(side).conn);
  }

  /** Taking a frame, moving a byte or reading a length makes progress. */
  ghost predicate Progress(net: Net, t: nat, u: nat, net': Net, t': nat, u': nat) {
    && SameMessages(net, net') && t <= t' && u <= u'
    && (t == t' && u == u' ==>
          InPipes(net') < InPipes(net) || (InPipes(net') == InPipes(net) && InRings(net') < InRings(net)))
  }

  lemma ProcessProgresses(su: Setup, k: Keys, cap: nat, net: Net, side: Side, t: nat, u: nat, t': nat, u': nat)
    requires Up(su, k, cap, net, t, u) && !Settled(net.On(side).conn)
    requires Up(su, k, cap, Step(su, net, Process(side)), t', u') && t <= t' && u <= u'
    ensures Progress(net, t, u, Step(su, net, Process(side)), t', u')
  {
    var net' := Step(su, net, Process(side));
    ProcessSettles(su, net, side);
    if t' == t && u' == u {
      if side.Client? {
        ProcessMoves(su, k, cap, Client, net.client, net.server, t, u, net'.client, net'.server);
      } else {
        Flip(su, k, cap, Client, net.client, net.server, t, u);
        Flip(su, k, cap, Client, net'.client, net'.server, t, u);
        ProcessMoves(su, k, cap, Server, net.server, net.client, u, t, net'.server, net'.client);
      }
    }
  }

  predicate CanArrive(e: End) { e.pipe != [] && |e.conn.rx| < e.conn.cap }

  /** Some step makes progress unless everything rests. */
  lemma NotStuck(su: Setup, cap: nat, net: Net, t: nat, u: nat) returns (mv: Move)
    requires su.Honest() && Roomy(su, cap) && Up(su, su.Keys(), cap, net, t, u) && !Resting(su, net)
    ensures !mv.Send?
    ensures var next := Step(su, net, mv);
            exists t', u' :: Up(su, su.Keys(), cap, next, t', u') && Progress(net, t, u, next, t', u')
  {
    IdleSettles(su.envC, net.client);
    IdleSettles(su.envS, net.server);
    if !Settled(net.client.conn) || !Settled(net.server.conn) {
      var side := if Settled(net.client.conn) then Server else Client;
      mv := Process(side);
      StepKeepsUp(su, cap, net, mv, t, u);
      var t', u' :| t <= t' && u <= u' && Up(su, su.Keys(), cap, Step(su, net, mv), t', u');
      ProcessProgresses(su, su.Keys(), cap, net, side, t, u, t', u');
    } else {
      var side := if CanArrive(net.client) then Client else Server;
      mv := Arrive(side, 1);
      ArriveMoves(su, net, side);
      StepKeepsUp(su, cap, net, mv, t, u);
    }
  }

  lemma Decreases(su: Setup, k: Keys, cap: nat, net: Net, t: nat, u: nat, net': Net, t': nat, u': nat)
    requires Up(su, k, cap, net', t', u') && Progress(net, t, u, net', t', u')
    ensures 0 <= Left(net', t', u') <= Left(net, t, u)
    ensures Left(net', t', u') < Left(net, t, u) || InPipes(net') < InPipes(net) ||
            (InPipes(net') == InPipes(net) && InRings(net') < InRings(net))
  {
    LeftIsNat(su, k, cap, net', t', u');
  }

  lemma FirstThen(su: Setup, net: Net, mv: Move, rest: seq<Move>) returns (moves: seq<Move>)
    requires !mv.Send? && NoSends(rest)
    ensures NoSends(moves) && Execute(su, net, moves) == Execute(su, Step(su, net, mv), rest)
  {
    moves := [mv] + rest;
    assert moves[1..] == rest;
  }

  lemma {:induction false} Finish(su: Setup, cap: nat, net: Net, t: nat, u: nat) returns (moves: seq<Move>)
    requires su.Honest() && Roomy(su, cap) && Up(su, su.Keys(), cap, net, t, u)
    ensures NoSends(moves) && Resting(su, Execute(su, net, moves)) && SameMessages(net, Execute(su, net, moves))
    decreases Left(net, t, u), InPipes(net), InRings(net)
  {
    if Resting(su, net) {
      moves := [];
    } else {
      var mv := NotStuck(su, cap, net, t, u);
      var next := Step(su, net, mv);
      var t', u' :| Up(su, su.Keys(), cap, next, t', u') && Progress(net, t, u, next, t', u');
      Decreases(su, su.Keys(), cap, net, t, u, next, t', u');
      var rest := Finish(su, cap, next, t', u');
      moves := FirstThen(su, net, mv, rest);
    }
  }

  lemma GreetingFinishes(su: Setup, cap: nat, net: Net)
    requires su.Honest() && Roomy(su, cap) && Greeting(su, cap, net)
    ensures var net' := Execute(su, net, [Arrive(Server, |net.server.pipe|), Process(Server)]);
            Up(su, su.Keys(), cap, net', 0, 0) && SameMessages(net, net')
  {
    var mv := Arrive(Server, |net.server.pipe|);
    var next := Step(su, net, mv);
    GreetingArrives(su, cap, net, |net.server.pipe|);
    assert |net.server.conn.rx + net.server.pipe| == HELLO_LEN;
    HelloGoesUp(su, cap, next);
    assert [mv, Process(Server)][1..] == [Process(Server)] && [Process(Server)][1..] == [];
    assert Execute(su, net, [mv, Process(Server)]) == Execute(su, next, [Process(Server)]);
  }

  lemma {:induction false} ExecuteBoth(su: Setup, net: Net, a: seq<Move>, b: seq<Move>)
    ensures Execute(su, net, a + b) == Execute(su, Execute(su, net, a), b)
    decreases |a|
  {
    if a == [] {
      assert a + b == b;
    } else {
      assert (a + b)[1..] == a[1..] + b;
      ExecuteBoth(su, Step(su, net, a[0]), a[1..], b);
    }
  }

  lemma FinishSound(su: Setup, cap: nat, net: Net) returns (moves: seq<Move>)
    requires su.Honest() && Roomy(su, cap) && Sound(su, cap, net)
    ensures NoSends(moves) && Resting(su, Execute(su, net, moves)) && SameMessages(net, Execute(su, net, moves))
  {
    if Greeting(su, cap, net) {
      var hello := [Arrive(Server, |net.server.pipe|), Process(Server)];
      GreetingFinishes(su, cap, net);
      var rest := Finish(su, cap, Execute(su, net, hello), 0, 0);
      moves := hello + rest;
      ExecuteBoth(su, net, hello, rest);
    } else {
      var t, u :| Up(su, su.Keys(), cap, net, t, u);
      moves := Finish(su, cap, net, t, u);
    }
  }

  /** From every state of every run, delivering and processing alone leads to an open connection on
      which each application has got exactly what the other has sent. */
  lemma EveryRunCanFinish(su: Setup, cap: nat, luid: seq<byte>, ruid: seq<byte>, moves: seq<Move>)
    returns (more: seq<Move>)
    requires su.Honest() && Roomy(su, cap)
    ensures NoSends(more)
    ensures var start := Start(su, cap, luid, ruid);
            var net, last := Execute(su, start, moves), Execute(su, start, moves + more);
            SameMessages(net, last) && Complete(last)
  {
    var start := Start(su, cap, luid, ruid);
    StartIsSound(su, cap, luid, ruid);
    RunIsSound(su, cap, start, moves);
    more := FinishSound(su, cap, Execute(su, start, moves));
    ExecuteBoth(su, start, moves, more);
    RestMeansComplete(su, cap, luid, ruid, moves + more);
  }
}
