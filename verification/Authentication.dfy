/** No run reaches the open state of a normal connection without a checked signature of the peer. */
module Authentication {
  import opened Basics
  import opened Bytes
  import opened Protocol

  /** An effect with the surroundings in which it happened. */
  datatype Logged = Logged(env: Env, out: Output)

  function Tag(env: Env, out: seq<Output>): (log: seq<Logged>)
    ensures |log| == |out| && forall i :: 0 <= i < |out| ==> log[i] == Logged(env, out[i])
  {
    if out == [] then [] else [Logged(env, out[0])] + Tag(env, out[1..])
  }

  lemma {:induction false} TagConcat(env: Env, a: seq<Output>, b: seq<Output>)
    ensures Tag(env, a + b) == Tag(env, a) + Tag(env, b)
  {
  }

  /** A signature over this connection's hash, checked against the public key that the identity
      database then held for the connection's remote user. */
  predicate Genuine(l: Logged, s: Session) {
    && l.out.Verified?
    && l.out.ruid == s.ruid
    && l.out.hash == (if s.outgoing then s.serverHash else s.clientHash)
    && l.env.pub(s.ruid) == Some(l.out.pubkey)
    && l.env.cr.verify(l.out.signature, l.out.hash, l.out.pubkey)
  }

  predicate Authenticated(log: seq<Logged>, s: Session) {
    exists i :: 0 <= i < |log| && Genuine(log[i], s)
  }

  predicate ClientState(p: ProtocolState) { p == DH || p == SendClientHash || p == Handshake }

  predicate ServerState(p: ProtocolState) {
    p == ServerDH || p == ServerVerifyClientHash || p == ServerSendHandshake || p == ServerReadReply
  }

  /** States that only a checked peer reaches. */
  predicate PastVerification(p: ProtocolState) {
    p == Handshake || p == Running || p == ServerSendHandshake || p == ServerReadReply
  }

  predicate Good(log: seq<Logged>, s: Session) {
    && (ClientState(s.proto) ==> s.outgoing)
    && (ServerState(s.proto) || s.proto == ProtoInitial ==> !s.outgoing)
    && (PastVerification(s.proto) && !s.friend ==> Authenticated(log, s))
  }

  predicate Invariant(log: seq<Logged>, c: Conn) {
    && Good(log, c.s)
    && (c.transport == ServerWaitInitial || c.transport == RelaySendSessionId ==>
          c.s.proto == ProtoInitial)
  }

  lemma GoodGrows(log: seq<Logged>, more: seq<Logged>, s: Session, t: Session)
    requires Authenticated(log, s)
    requires t.ruid == s.ruid && t.outgoing == s.outgoing
    requires t.clientHash == s.clientHash && t.serverHash == s.serverHash
    ensures Authenticated(log + more, t)
  {
    var i :| 0 <= i < |log| && Genuine(log[i], s);
    assert Genuine((log + more)[i], t);
  }

  lemma NowAuthenticated(env: Env, log: seq<Logged>, out: seq<Output>, i: nat, s: Session)
    requires i < |out| && Genuine(Logged(env, out[i]), s)
    ensures Authenticated(log + Tag(env, out), s)
  {
    assert (log + Tag(env, out))[|log| + i] == Logged(env, out[i]);
  }

  lemma ClientVerifyIsGood(env: Env, log: seq<Logged>, s: Session, payload: seq<byte>)
    requires Good(log, s) && s.proto == SendClientHash
    ensures var h := ClientVerify(env, s, payload); Good(log + Tag(env, h.out), h.s)
  {
    var h := ClientVerify(env, s, payload);
    if !h.closed && !s.friend {
      assert h.out[|h.out| - 1].Verified?;
      NowAuthenticated(env, log, h.out, |h.out| - 1, h.s);
    }
  }

  lemma ServerVerifyIsGood(env: Env, log: seq<Logged>, s: Session, payload: seq<byte>)
    requires Good(log, s) && s.proto == ServerVerifyClientHash
    ensures var h := ServerVerify(env, s, payload); Good(log + Tag(env, h.out), h.s)
  {
    var h := ServerVerify(env, s, payload);
    if !h.closed && !s.friend {
      assert h.out[0].Verified?;
      NowAuthenticated(env, log, h.out, 0, h.s);
    }
  }

  /** The handlers that neither derive keys nor check a signature leave the parties and the hashes
      of an open session alone. */
  lemma SamePartyIsGood(env: Env, log: seq<Logged>, s: Session, h: Outcome)
    requires Good(log, s)
    requires !h.closed ==> PastVerification(s.proto) && h.s.ruid == s.ruid && h.s.outgoing == s.outgoing
    requires !h.closed ==> h.s.clientHash == s.clientHash && h.s.serverHash == s.serverHash && h.s.friend == s.friend
    requires !h.closed ==> h.s.proto == s.proto || h.s.proto == Running || h.s.proto == ServerReadReply
    requires !h.closed && h.s.proto == ServerReadReply ==> ServerState(s.proto)
    requires h.closed ==> h.s == FREE_SESSION
    ensures Good(log + Tag(env, h.out), h.s)
  {
    if !h.closed && !s.friend {
      GoodGrows(log, Tag(env, h.out), s, h.s);
    }
  }

  lemma ClientHandshakeIsGood(env: Env, log: seq<Logged>, s: Session, payload: seq<byte>)
    requires Good(log, s) && s.proto == Handshake
    ensures var h := ClientHandshake(env, s, payload); Good(log + Tag(env, h.out), h.s)
  {
    SamePartyIsGood(env, log, s, ClientHandshake(env, s, payload));
  }

  lemma RunIsGood(env: Env, log: seq<Logged>, s: Session, payload: seq<byte>)
    requires Good(log, s) && s.proto == Running
    ensures var h := Run(env, s, payload); Good(log + Tag(env, h.out), h.s)
  {
    SamePartyIsGood(env, log, s, Run(env, s, payload));
  }

  lemma ServerHandshakeIsGood(env: Env, log: seq<Logged>, s: Session)
    requires Good(log, s) && s.proto == ServerSendHandshake
    ensures var h := ServerHandshake(env, s, []); Good(log + Tag(env, h.out), h.s)
  {
    SamePartyIsGood(env, log, s, ServerHandshake(env, s, []));
  }

  lemma ServerReplyIsGood(env: Env, log: seq<Logged>, s: Session, payload: seq<byte>)
    requires Good(log, s) && s.proto == ServerReadReply
    ensures var h := ServerReply(env, s, payload); Good(log + Tag(env, h.out), h.s)
  {
    SamePartyIsGood(env, log, s, ServerReply(env, s, payload));
  }

  lemma KeyExchangeIsGood(env: Env, log: seq<Logged>, s: Session, payload: seq<byte>)
    requires Good(log, s)
    ensures s.proto == DH ==> var h := ClientDH(env, s, payload); Good(log + Tag(env, h.out), h.s)
    ensures s.proto == ServerDH ==> var h := ServerFinishDH(env, s, payload); Good(log + Tag(env, h.out), h.s)
  {
  }

  /** Every payload handler keeps the invariant, whatever bytes it is given. */
  lemma HandlerIsGood(env: Env, log: seq<Logged>, s: Session, payload: seq<byte>)
    requires Good(log, s)
    ensures var h := HandlePayload(env, s, payload); Good(log + Tag(env, h.out), h.s)
  {
    match s.proto
    case DH => KeyExchangeIsGood(env, log, s, payload);
    case SendClientHash => ClientVerifyIsGood(env, log, s, payload);
    case Handshake => ClientHandshakeIsGood(env, log, s, payload);
    case Running => RunIsGood(env, log, s, payload);
    case ServerDH => KeyExchangeIsGood(env, log, s, payload);
    case ServerVerifyClientHash => ServerVerifyIsGood(env, log, s, payload);
    case ServerSendHandshake => ServerHandshakeIsGood(env, log, s);
    case ServerReadReply => ServerReplyIsGood(env, log, s, payload);
    case ProtoInitial =>
  }

  /** Whatever bytes they are given, the handlers of this machine keep the invariant. */
  ghost predicate KeepsGood(m: Machine, env: Env) {
    && (forall log, s, p :: Good(log, s) ==> Good(log + Tag(env, m.handle(s, p).out), m.handle(s, p).s))
    && (forall s, b ::
          m.hello(s, b).closed || (m.hello(s, b).s.proto == ServerDH && m.hello(s, b).s.outgoing == s.outgoing))
  }

  lemma ProtocolKeepsGood(env: Env)
    ensures KeepsGood(MachineOf(env), env)
  {
    var m := MachineOf(env);
    forall log, s, p | Good(log, s) ensures Good(log + Tag(env, m.handle(s, p).out), m.handle(s, p).s) {
      HandlerIsGood(env, log, s, p);
    }
    forall s, b
      ensures m.hello(s, b).closed || (m.hello(s, b).s.proto == ServerDH && m.hello(s, b).s.outgoing == s.outgoing)
    {
      if |b| == HELLO_LEN {
        HelloStartsServer(env, s, b);
        assert m.hello(s, b) == ServerHello(env, s, b);
      } else {
        assert m.hello(s, b) == Close([]);
      }
    }
  }

  lemma HelloStartsServer(env: Env, s: Session, b: seq<byte>)
    requires |b| == HELLO_LEN
    ensures var h := ServerHello(env, s, b); h.closed || (h.s.proto == ServerDH && h.s.outgoing == s.outgoing)
  {
  }

  lemma HandledIsGood(m: Machine, env: Env, log: seq<Logged>, s: Session, p: seq<byte>)
    requires KeepsGood(m, env) && Good(log, s)
    ensures var h := m.handle(s, p); Good(log + Tag(env, h.out), h.s)
  {
  }

  lemma FramesAreGood(m: Machine, env: Env, log: seq<Logged>, c: Conn)
    requires KeepsGood(m, env) && Invariant(log, c) && c.expectBytes <= |c.rx|
    ensures var h := TakePayload(m, c); Invariant(log + Tag(env, h.out), h.conn)
  {
    var payload := c.rx[..c.expectBytes];
    var frame: seq<Output> := [Payload(payload, c.s)];
    var log1 := log + Tag(env, frame);
    if PastVerification(c.s.proto) && !c.s.friend {
      GoodGrows(log, Tag(env, frame), c.s, c.s);
    }
    HandledIsGood(m, env, log1, c.s, payload);
    TwiceLogged(env, log, frame, m.handle(c.s, payload).out);
  }

  lemma NothingLogged(env: Env, log: seq<Logged>)
    ensures log + Tag(env, []) == log
  {
  }

  lemma TwiceLogged(env: Env, log: seq<Logged>, a: seq<Output>, b: seq<Output>)
    ensures log + Tag(env, a) + Tag(env, b) == log + Tag(env, a + b)
  {
    TagConcat(env, a, b);
  }

  lemma {:induction false} DrainIsGood(m: Machine, env: Env, log: seq<Logged>, c: Conn)
    requires KeepsGood(m, env) && Invariant(log, c)
    ensures var r := Drain(m, c); Invariant(log + Tag(env, r.out), r.conn)
    decreases |c.rx|, Rank(c.transport)
  {
    NothingLogged(env, log);
    match c.transport
    case WaitFrameLen =>
      if 2 <= |c.rx| {
        var c1 := c.(expectBytes := FromBE16(c.rx[0], c.rx[1]), transport := WaitPayload, rx := c.rx[2..]);
        DrainIsGood(m, env, log, c1);
      }
    case WaitPayload =>
      if c.expectBytes <= |c.rx| {
        FramesAreGood(m, env, log, c);
        var h := TakePayload(m, c);
        DrainIsGood(m, env, log + Tag(env, h.out), h.conn);
        TwiceLogged(env, log, h.out, Drain(m, h.conn).out);
      }
    case RelaySendSessionId =>
      var c1 := c.(transport := ServerWaitInitial);
      var log1 := log + Tag(env, m.preamble);
      DrainIsGood(m, env, log1, c1);
      TwiceLogged(env, log, m.preamble, Drain(m, c1).out);
    case _ =>
  }

  // Runs -----------------------------------------------------------------------------------

  /** What can happen to a slot. Transport events come once, after the slot was allocated; the
      friend-request mark is set by the initiator before. */
  datatype Event =
    | Alloc(newLuid: seq<byte>, newRuid: seq<byte>, ringLen: nat)
    | MarkFriendRequest
    | Open(resolving: bool)
    | Tcp(event: TcpEvent)
    | Input(data: seq<byte>)
    | Process
    | ToConnected
    | AppSend(message: seq<byte>)

  predicate Allowed(c: Conn, ev: Event) {
    match ev
    case Alloc(_, _, _) => c == FREE_SLOT
    case MarkFriendRequest => Unopened(c)
    case Open(_) => Unopened(c)
    case Tcp(e) => e == TcpDisconnected || e == TcpClientDisconnected || Unopened(c)
    case _ => true
  }

  predicate Unopened(c: Conn) {
    && c.s.proto == ProtoInitial
    && (c.transport == TransportInitial || c.transport == Connecting || c.transport == Resolving)
  }

  function Step(env: Env, c: Conn, ev: Event): Result {
    match ev
    case Alloc(luid, ruid, n) => Result(Allocate(c, luid, ruid, n), [])
    case MarkFriendRequest => Result(c.(s := c.s.(friend := true)), [])
    case Open(resolving) => Result(c.(transport := if resolving then Resolving else Connecting), [])
    case Tcp(e) => SignalTcpEvent(env, c, e)
    case Input(data) => Feed(c, data)
    case Process => Drain(MachineOf(env), c)
    case ToConnected => Result(c.(s := c.s.(ctx := Connected)), [])
    case AppSend(m) => var o := SendMessage(env, c.s, m); Result(c.(s := o.s), o.out)
  }

  /** The log of a slot starts anew when the slot is allocated. */
  datatype State = State(c: Conn, log: seq<Logged>)

  function After(st: State, env: Env, ev: Event): State {
    var r := Step(env, st.c, ev);
    State(r.conn, (if ev.Alloc? then [] else st.log) + Tag(env, r.out))
  }

  /** A run of a slot from the empty pool on, with any surroundings and any input at each step. */
  ghost predicate IsRun(run: seq<State>, envs: seq<Env>, evs: seq<Event>) {
    && |run| == |evs| + 1 && |envs| == |evs|
    && run[0] == State(FREE_SLOT, [])
    && forall i :: 0 <= i < |evs| ==> Allowed(run[i].c, evs[i]) && run[i + 1] == After(run[i], envs[i], evs[i])
  }

  lemma StepKeepsInvariant(st: State, env: Env, ev: Event)
    requires Invariant(st.log, st.c) && Allowed(st.c, ev)
    ensures var n := After(st, env, ev); Invariant(n.log, n.c)
  {
    var n := After(st, env, ev);
    NothingLogged(env, st.log);
    match ev
    case Tcp(e) => TcpKeepsInvariant(st, env, e);
    case Process =>
      ProtocolKeepsGood(env);
      DrainIsGood(MachineOf(env), env, st.log, st.c);
    case AppSend(m) =>
      if Authenticated(st.log, st.c.s) {
        GoodGrows(st.log, Tag(env, SendMessage(env, st.c.s, m).out), st.c.s, n.c.s);
      }
    case ToConnected =>
      if Authenticated(st.log, st.c.s) {
        GoodGrows(st.log, [], st.c.s, n.c.s);
        assert st.log + [] == st.log;
      }
    case _ =>
  }

  lemma TcpKeepsInvariant(st: State, env: Env, e: TcpEvent)
    requires Invariant(st.log, st.c) && Allowed(st.c, Tcp(e))
    ensures var n := After(st, env, Tcp(e)); Invariant(n.log, n.c)
  {
    if e == TcpRelaySessionConnected {
      ProtocolKeepsGood(env);
      DrainIsGood(MachineOf(env), env, st.log, st.c.(transport := RelaySendSessionId));
    }
  }

  lemma {:induction false} RunKeepsInvariant(run: seq<State>, envs: seq<Env>, evs: seq<Event>, i: nat)
    requires IsRun(run, envs, evs) && i < |run|
    ensures Invariant(run[i].log, run[i].c)
  {
    if i > 0 {
      RunKeepsInvariant(run, envs, evs, i - 1);
      assert run[i - 1 + 1] == After(run[i - 1], envs[i - 1], evs[i - 1]);
      StepKeepsInvariant(run[i - 1], envs[i - 1], evs[i - 1]);
    }
  }

  /** A connection that is no friend request is open only if, since its slot was allocated, the
      peer's signature over this connection's hash was checked against the stored public key of its
      remote user. */
  lemma OpenMeansAuthenticated(run: seq<State>, envs: seq<Env>, evs: seq<Event>, i: nat)
    requires IsRun(run, envs, evs) && i < |run|
    requires run[i].c.s.proto == Running && !run[i].c.s.friend
    ensures Authenticated(run[i].log, run[i].c.s)
  {
    RunKeepsInvariant(run, envs, evs, i);
  }
}
