/** The connection protocol as a table: when a frame ends the connection, which state comes next, and what the
    transport events say and do. Key agreement, verification and decryption appear as the foreign functions only. */
module Transitions {
  import opened Basics
  import opened Bytes
  import Nonce
  import opened Protocol
  import opened Integrity

  /** A shared secret of full length. */
  predicate Agrees(secret: Option<seq<byte>>) { secret.Some? && |secret.value| == 384 }

  /** The peer's signature over this hash, with what a shorter message leaves of the buffer behind it, is good
      under the stored key. */
  predicate Signed(env: Env, s: Session, hash: seq<byte>, m: seq<byte>) {
    && env.pub(s.ruid).Some?
    && env.cr.verify(if |m| <= |env.junk| then m + env.junk[|m|..] else m, hash, env.pub(s.ruid).value)
  }

  predicate Sealed64(env: Env, s: Session, p: seq<byte>) { Sealed(env.cr, s, p) && |p| <= 16 + 64 }

  /** Frames that the connection survives. */
  predicate Survives(env: Env, s: Session, p: seq<byte>) {
    match s.proto
    case DH => env.cr.dhReadable(p) && Agrees(env.cr.dhSecret(env.exponent, p))
    case SendClientHash =>
      && env.priv(s.luid).Some? && Sealed64(env, s, p)
      && (s.friend || Signed(env, s, s.serverHash, Opened(env.cr, s, p)))
    case Handshake =>
      Sealed(env.cr, s, p) && |p| <= 16 + 256 && (s.friend || !env.bannedTrue(Opened(env.cr, s, p)))
    case Running => Sealed(env.cr, s, p)
    case ServerDH => s.dhm.Some? && Agrees(env.cr.dhSecret(s.dhm.value, p)) && env.priv(s.luid).Some?
    case ServerVerifyClientHash =>
      Sealed64(env, s, p) && (s.friend || Signed(env, s, s.clientHash, Opened(env.cr, s, p)))
    case ServerReadReply =>
      Sealed(env.cr, s, p) &&
      var m := Opened(env.cr, s, p); env.hostOf(m).None? || !env.bannedPresent(m)
    case ServerSendHandshake => true
    case ProtoInitial => true
  }

  predicate MaySend(env: Env, s: Session) { s.ctx != Free && s.ctx != Closing && env.sendOk }

  /** The state behind a frame that is survived. */
  function NextState(env: Env, s: Session, p: seq<byte>): ProtocolState {
    match s.proto
    case DH => SendClientHash
    case SendClientHash => Handshake
    case Handshake => Running
    case Running => Running
    case ServerDH => ServerVerifyClientHash
    case ServerVerifyClientHash => if MaySend(env, s) then ServerReadReply else ServerSendHandshake
    case ServerSendHandshake => if MaySend(env, s) then ServerReadReply else ServerSendHandshake
    case ServerReadReply =>
      if |p| >= 16 && env.hostOf(Opened(env.cr, s, p)).Some? then Running else ServerReadReply
    case ProtoInitial => ProtoInitial
  }

  ghost predicate Obeys(env: Env, s: Session, p: seq<byte>, h: Outcome) {
    && (h.closed <==> !Survives(env, s, p))
    && (!h.closed ==> h.s.proto == NextState(env, s, p))
    && (!h.closed ==> h.s.ctx == if s.proto == Handshake && s.friend then Connected else s.ctx)
    && (!h.closed ==> h.s.rhid == if s.proto in {Handshake, ServerReadReply} && Sealed(env.cr, s, p)
                                     && env.hostOf(Opened(env.cr, s, p)).Some?
                                  then env.hostOf(Opened(env.cr, s, p)).value else s.rhid)
    && (NewCoreConnection in h.out <==>
          !h.closed && s.proto in {Handshake, ServerReadReply} && h.s.proto == Running && !s.friend)
    && (FriendRequest in h.out <==> !h.closed && s.proto == Handshake && s.friend)
    && (Closed in h.out <==> h.closed)
  }

  lemma SentOnly(env: Env, s: Session, m: seq<byte>)
    ensures var o := SendMessage(env, s, m);
            && !o.closed && o.s == s.(ivOut := o.s.ivOut)
            && Closed !in o.out && NewCoreConnection !in o.out && FriendRequest !in o.out
  {
  }

  lemma DhObeys(env: Env, s: Session, p: seq<byte>)
    requires s.proto == DH
    ensures Obeys(env, s, p, ClientDH(env, s, p))
  {
  }

  lemma ClientVerifyObeys(env: Env, s: Session, p: seq<byte>)
    requires s.proto == SendClientHash
    ensures Obeys(env, s, p, ClientVerify(env, s, p))
  {
    if env.priv(s.luid).Some? {
      var m := env.cr.sign(s.clientHash, env.priv(s.luid).value);
      SentOnly(env, s, m);
      var o := SendMessage(env, s, m);
      DecryptIsSealed(env.cr, o.s, p, 64);
      SameSeal(env.cr, s, o.s, p);
    }
  }

  lemma AnswerOnly(env: Env, s: Session, doc: seq<byte>)
    ensures var o := ProcessHandshake(env, s, doc);
            && !o.closed && o.s == s.(ivOut := o.s.ivOut, rhid := o.s.rhid)
            && o.s.rhid == (if env.hostOf(doc).Some? then env.hostOf(doc).value else s.rhid)
            && Closed !in o.out && NewCoreConnection !in o.out && FriendRequest !in o.out
  {
    if env.hostOf(doc).Some? {
      SentOnly(env, s.(rhid := env.hostOf(doc).value), env.handshakeDoc(s.ruid, s.friend));
    }
  }

  lemma ClientHandshakeObeys(env: Env, s: Session, p: seq<byte>)
    requires s.proto == Handshake
    ensures Obeys(env, s, p, ClientHandshake(env, s, p))
  {
    DecryptIsSealed(env.cr, s, p, 256);
    var m := Decrypt(env.cr, s, p, 256);
    if m.Some? {
      AnswerOnly(env, s.(ivIn := Nonce.NextIv(s.ivIn)), m.value);
    }
  }

  lemma RunObeys(env: Env, s: Session, p: seq<byte>)
    requires s.proto == Running
    ensures Obeys(env, s, p, Run(env, s, p))
  {
    DecryptIsSealed(env.cr, s, p, |p| - 16);
  }

  lemma ServerDhObeys(env: Env, s: Session, p: seq<byte>)
    requires s.proto == ServerDH
    ensures Obeys(env, s, p, ServerFinishDH(env, s, p))
  {
    if s.dhm.Some? && Agrees(env.cr.dhSecret(s.dhm.value, p)) && env.priv(s.luid).Some? {
      var c := WithSecret(env.cr, s, env.cr.dhSecret(s.dhm.value, p).value, false).(dhm := None);
      SentOnly(env, c, env.cr.sign(c.serverHash, env.priv(s.luid).value));
    }
  }

  lemma ServerVerifyObeys(env: Env, s: Session, p: seq<byte>)
    requires s.proto == ServerVerifyClientHash
    ensures Obeys(env, s, p, ServerVerify(env, s, p))
  {
    DecryptIsSealed(env.cr, s, p, 64);
    var c := s.(ivIn := Nonce.NextIv(s.ivIn), proto := ServerSendHandshake);
    SentOnly(env, c, env.handshakeDoc(s.ruid, s.friend));
  }

  lemma ServerEndObeys(env: Env, s: Session, p: seq<byte>)
    requires s.proto == ServerSendHandshake || s.proto == ServerReadReply
    ensures Obeys(env, s, p, HandlePayload(env, s, p))
  {
    DecryptIsSealed(env.cr, s, p, |p|);
    SentOnly(env, s, env.handshakeDoc(s.ruid, s.friend));
  }

  /** Exactly when a frame ends the connection, and what it leads to otherwise. */
  lemma FrameTable(env: Env, s: Session, p: seq<byte>)
    ensures Obeys(env, s, p, HandlePayload(env, s, p))
  {
    match s.proto
    case DH => DhObeys(env, s, p);
    case SendClientHash => ClientVerifyObeys(env, s, p);
    case Handshake => ClientHandshakeObeys(env, s, p);
    case Running => RunObeys(env, s, p);
    case ServerDH => ServerDhObeys(env, s, p);
    case ServerVerifyClientHash => ServerVerifyObeys(env, s, p);
    case ServerSendHandshake => ServerEndObeys(env, s, p);
    case ServerReadReply => ServerEndObeys(env, s, p);
    case ProtoInitial =>
  }

  // What is said outside of sealed messages ------------------------------------------------------------------

  /** The client's hello: 'W', '.', version 1 with the kind, whom it wants, and who it is. */
  lemma ConnectedSays(env: Env, c: Conn)
    ensures SignalTcpEvent(env, c, TcpConnected) ==
            Result(c.(s := c.s.(outgoing := true, proto := DH), transport := WaitFrameLen),
                   if env.sendOk then [Sent([87, 46, if c.s.friend then 19 else 17] + c.s.ruid + c.s.luid)] else [])
  {
  }

  /** A new slot: between whom, with an empty ring of this size. */
  lemma AllocateMeans(luid: seq<byte>, ruid: seq<byte>, size: nat)
    ensures Allocate(FREE_SLOT, luid, ruid, size) ==
            Conn(FREE_SESSION.(ctx := InMaking, luid := luid, ruid := ruid), TransportInitial, 0, size, [])
  {
  }

  /** What other transport events do. */
  lemma EventsMean(env: Env, c: Conn)
    ensures SignalTcpEvent(env, c, TcpDisconnected) == Result(FREE_SLOT, [Closed])
    ensures SignalTcpEvent(env, c, TcpClientDisconnected) == Result(FREE_SLOT, [Closed])
    ensures SignalTcpEvent(env, c, TcpClientConnected) ==
            Result(c.(s := c.s.(outgoing := false), transport := ServerWaitInitial), [])
  {
  }

  /** A relayed connection first names its session, and then waits for a hello. */
  lemma RelayedSays(env: Env, c: Conn)
    requires |c.rx| < 67
    ensures SignalTcpEvent(env, c, TcpRelaySessionConnected) ==
            Result(c.(transport := ServerWaitInitial),
                   if env.sendOk then [Sent([87, 46, 23] + env.relaySession)] else [])
  {
    var waiting := c.(transport := ServerWaitInitial);
    assert Drain(MachineOf(env), waiting) == Result(waiting, []);
    assert MachineOf(env).preamble + [] == MachineOf(env).preamble;
  }
}
