/** Whose connections a core accepts (the hello in src/wish_connection.c), for one hello and for every run. */
module Admission {
  import opened Basics
  import opened Bytes
  import Nonce
  import opened Protocol
  import opened Chunking
  import opened Authentication

  /** The parts of a hello of 67 bytes. */
  function Kind(b: seq<byte>): int
    requires |b| == 67
  {
    (b[2] as int) % 16
  }

  /** 'W', '.', version 1, and one of two kinds; a normal one only between a user of this core and one in its
      identity database, unless the slot is marked for a friend request. */
  predicate Admissible(env: Env, friend: bool, b: seq<byte>)
    requires |b| == 67
  {
    && b[0] == 87 && b[1] == 46 && b[2] as int / 16 == 1 && (Kind(b) == 1 || Kind(b) == 3)
    && (Kind(b) == 3 || friend || BothKnown(env, b[3..35], b[35..67]))
  }

  /** Both users are in the database, the own one with its private key. */
  predicate BothKnown(env: Env, own: seq<byte>, peer: seq<byte>) {
    env.pub(own).Some? && env.pub(peer).Some? && env.priv(own).Some?
  }

  /** A complete hello is answered with the public value of the key exchange exactly if it is admissible;
      otherwise the slot is closed. */
  lemma HelloIsAnsweredIff(env: Env, c: Conn)
    requires c.transport == ServerWaitInitial && 67 <= |c.rx|
    ensures var b := c.rx[..67];
            Step(env, c, Process) ==
            if Admissible(env, c.s.friend, b)
            then Result(c.(s := c.s.(friend := c.s.friend || Kind(b) == 3, luid := b[3..35], ruid := b[35..67],
                                     dhm := Some(env.exponent), proto := ServerDH),
                           transport := WaitFrameLen, rx := c.rx[67..]),
                        if env.sendOk then [Sent(Frame(env.cr.dhPublic(env.exponent)))] else [])
            else Result(FREE_SLOT, [Closed])
  {
    var b := c.rx[..67];
    assert b[35..] == b[35..67];
    assert MachineOf(env).hello(c.s, b) == ServerHello(env, c.s, b);
  }

  /** Less than a hello waits. */
  lemma ShortHelloWaits(env: Env, c: Conn)
    requires c.transport == ServerWaitInitial && |c.rx| < 67
    ensures Step(env, c, Process) == Result(c, [])
  {
  }

  // Every run -------------------------------------------------------------------------------------------

  predicate SameParty(s: Session, t: Session) {
    && t.luid == s.luid && t.ruid == s.ruid && t.friend == s.friend && t.outgoing == s.outgoing
    && (t.proto == ProtoInitial <==> s.proto == ProtoInitial)
  }

  lemma SendKeepsParty(env: Env, s: Session, m: seq<byte>)
    ensures var o := SendMessage(env, s, m); !o.closed && o.s == s.(ivOut := o.s.ivOut)
  {
  }

  lemma KeyExchangeKeepsParty(env: Env, s: Session, p: seq<byte>)
    ensures s.proto == DH ==> var h := ClientDH(env, s, p); h.closed || SameParty(s, h.s)
  {
  }

  lemma VerifyKeepsParty(env: Env, s: Session, p: seq<byte>)
    requires s.proto == SendClientHash
    ensures var h := ClientVerify(env, s, p); h.closed || SameParty(s, h.s)
  {
    if env.priv(s.luid).Some? {
      SendKeepsParty(env, s, env.cr.sign(s.clientHash, env.priv(s.luid).value));
    }
  }

  lemma AnswerKeepsParty(env: Env, s: Session, doc: seq<byte>)
    ensures var o := ProcessHandshake(env, s, doc); !o.closed && o.s == s.(ivOut := o.s.ivOut, rhid := o.s.rhid)
  {
    if env.hostOf(doc).Some? {
      SendKeepsParty(env, s.(rhid := env.hostOf(doc).value), env.handshakeDoc(s.ruid, s.friend));
    }
  }

  lemma HandshakeKeepsParty(env: Env, s: Session, p: seq<byte>)
    requires s.proto == Handshake
    ensures var h := ClientHandshake(env, s, p); h.closed || SameParty(s, h.s)
  {
    var m := Decrypt(env.cr, s, p, HANDSHAKE_BUFFER);
    if m.Some? {
      AnswerKeepsParty(env, s.(ivIn := Nonce.NextIv(s.ivIn)), m.value);
    }
  }

  lemma ClientKeepsParty(env: Env, s: Session, p: seq<byte>)
    requires ClientState(s.proto)
    ensures var h := HandlePayload(env, s, p); h.closed || SameParty(s, h.s)
  {
    match s.proto
    case DH => KeyExchangeKeepsParty(env, s, p);
    case SendClientHash => VerifyKeepsParty(env, s, p);
    case Handshake => HandshakeKeepsParty(env, s, p);
  }

  lemma ServerKeepsParty(env: Env, s: Session, p: seq<byte>)
    requires ServerState(s.proto)
    ensures var h := HandlePayload(env, s, p); h.closed || SameParty(s, h.s)
  {
    match s.proto
    case ServerDH =>
      if s.dhm.Some? && env.cr.dhSecret(s.dhm.value, p).Some? && |env.cr.dhSecret(s.dhm.value, p).value| == DH_LEN
         && env.priv(s.luid).Some? {
        var c := WithSecret(env.cr, s, env.cr.dhSecret(s.dhm.value, p).value, false).(dhm := None);
        SendKeepsParty(env, c, env.cr.sign(c.serverHash, env.priv(s.luid).value));
      }
    case ServerVerifyClientHash =>
      var c := s.(ivIn := Nonce.NextIv(s.ivIn), proto := ServerSendHandshake);
      SendKeepsParty(env, c, env.handshakeDoc(s.ruid, s.friend));
    case ServerSendHandshake => SendKeepsParty(env, s, env.handshakeDoc(s.ruid, s.friend));
    case ServerReadReply =>
  }

  lemma FrameKeepsParty(env: Env, s: Session, p: seq<byte>)
    ensures var h := HandlePayload(env, s, p); h.closed || SameParty(s, h.s)
  {
    if ClientState(s.proto) {
      ClientKeepsParty(env, s, p);
    } else if ServerState(s.proto) {
      ServerKeepsParty(env, s, p);
    }
  }

  lemma {:induction false} DrainKeepsParty(env: Env, c: Conn)
    requires Waiting(c)
    ensures var r := Drain(MachineOf(env), c); r.conn == FREE_SLOT || SameParty(c.s, r.conn.s)
    decreases |c.rx|, Rank(c.transport)
  {
    var m := MachineOf(env);
    if c.transport == WaitFrameLen {
      if 2 <= |c.rx| {
        DrainKeepsParty(env, c.(expectBytes := FromBE16(c.rx[0], c.rx[1]), transport := WaitPayload, rx := c.rx[2..]));
      }
    } else if c.expectBytes <= |c.rx| {
      var p, h := c.rx[..c.expectBytes], TakePayload(m, c);
      FrameKeepsParty(env, c.s, p);
      assert m.handle(c.s, p) == HandlePayload(env, c.s, p);
      TakeThenDrain(m, c);
      DrainKeepsParty(env, h.conn);
      assert h.conn == FREE_SLOT ==> Drain(m, FREE_SLOT) == Result(FREE_SLOT, []);
    }
  }

  /** A server past the hello, not for a friend request. */
  predicate Serving(c: Conn) { !c.s.outgoing && c.s.proto != ProtoInitial && !c.s.friend }

  /** The slot held an admissible hello of these two users, and both were known. */
  predicate Greeted(env: Env, was: Conn, s: Session) {
    && 67 <= |was.rx|
    && var b := was.rx[..67];
       && Admissible(env, false, b) && Kind(b) == 1 && s.luid == b[3..35] && s.ruid == b[35..67]
       && BothKnown(env, s.luid, s.ruid)
  }

  lemma HelloGreets(env: Env, c: Conn)
    requires c.transport == ServerWaitInitial && c.s.proto == ProtoInitial
    ensures var r := Step(env, c, Process); Serving(r.conn) ==> Greeted(env, c, r.conn.s)
  {
    if 67 <= |c.rx| {
      HelloIsAnsweredIff(env, c);
    } else {
      ShortHelloWaits(env, c);
    }
  }

  lemma RelayGreets(env: Env, c: Conn)
    requires c.transport == RelaySendSessionId && c.s.proto == ProtoInitial
    ensures var r := Step(env, c, Process); Serving(r.conn) ==> Greeted(env, c, r.conn.s)
  {
    HelloGreets(env, c.(transport := ServerWaitInitial));
    assert Step(env, c, Process).conn == Step(env, c.(transport := ServerWaitInitial), Process).conn;
  }

  /** A step either leaves the parties of a serving slot alone or takes their hello. */
  lemma StepGreets(st: State, env: Env, ev: Event)
    requires Invariant(st.log, st.c) && Allowed(st.c, ev) && Serving(After(st, env, ev).c)
    ensures var s := After(st, env, ev).c.s;
            !ev.Alloc? && (Greeted(env, st.c, s) || (Serving(st.c) && s.luid == st.c.s.luid && s.ruid == st.c.s.ruid))
  {
    match ev
    case Process =>
      if Waiting(st.c) {
        DrainKeepsParty(env, st.c);
      } else if st.c.transport == ServerWaitInitial {
        HelloGreets(env, st.c);
      } else if st.c.transport == RelaySendSessionId {
        RelayGreets(env, st.c);
      }
    case Tcp(e) =>
      if e == TcpRelaySessionConnected {
        RelayGreets(env, st.c.(transport := RelaySendSessionId));
      }
    case _ =>
  }

  /** In every run, a normal connection that this core serves began with a hello between two users that were in
      the identity database then, the own one with its private key. */
  lemma {:induction false} ServedMeansKnown(run: seq<State>, envs: seq<Env>, evs: seq<Event>, i: nat)
    requires IsRun(run, envs, evs) && i < |run| && Serving(run[i].c)
    ensures exists j :: 0 <= j < i && Greeted(envs[j], run[j].c, run[i].c.s) &&
                        forall k :: j <= k < i ==> !evs[k].Alloc?
  {
    if i > 0 {
      var st := run[i - 1];
      RunKeepsInvariant(run, envs, evs, i - 1);
      assert run[i - 1 + 1] == After(st, envs[i - 1], evs[i - 1]);
      StepGreets(st, envs[i - 1], evs[i - 1]);
      if !Greeted(envs[i - 1], st.c, run[i].c.s) {
        ServedMeansKnown(run, envs, evs, i - 1);
        var j :| 0 <= j < i - 1 && Greeted(envs[j], run[j].c, st.c.s) &&
                 forall k :: j <= k < i - 1 ==> !evs[k].Alloc?;
        assert Greeted(envs[j], run[j].c, run[i].c.s);
      }
    }
  }
}
