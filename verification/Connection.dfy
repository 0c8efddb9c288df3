/** A slot of the connection pool, changed in place as src/wish_connection.c does. Every method is
    tied to the function of module Protocol that has its name. */
module Connection {
  import opened Basics
  import opened Bytes
  import opened Nonce
  import opened RingBuffer
  import P = Protocol

  /** What is still to come completes the whole result. */
  predicate Remains(whole: P.Result, out: seq<P.Output>, rest: P.Result) {
    whole == P.Result(rest.conn, out + rest.out)
  }

  lemma Continues(whole: P.Result, out: seq<P.Output>, mid: P.Result, delta: seq<P.Output>, rest: P.Result)
    requires Remains(whole, out, mid) && Remains(mid, delta, rest)
    ensures Remains(whole, out + delta, rest)
  {
    Assoc(out, delta, rest.out);
  }

  lemma LengthTaken(m: P.Machine, c: P.Conn)
    requires c.transport == P.WaitFrameLen && 2 <= |c.rx|
    ensures var c1 := c.(expectBytes := FromBE16(c.rx[0], c.rx[1]), transport := P.WaitPayload, rx := c.rx[2..]);
            && Size(c1) < Size(c)
            && if |c1.rx| < c1.expectBytes then P.Drain(m, c) == P.Result(c1, [])
               else Remains(P.Drain(m, c), [], P.Drain(m, c1))
  {
  }

  lemma PayloadTaken(m: P.Machine, c: P.Conn)
    requires c.transport == P.WaitPayload && c.expectBytes <= |c.rx|
    ensures var h := P.TakePayload(m, c);
            && Size(h.conn) < Size(c)
            && if |h.conn.rx| < 2 then P.Drain(m, c) == h else Remains(P.Drain(m, c), h.out, P.Drain(m, h.conn))
  {
  }

  function Size(c: P.Conn): nat { 3 * |c.rx| + P.Rank(c.transport) }

  /** The machine of the specification does what the handlers of this environment do. */
  ghost predicate Tied(m: P.Machine, env: P.Env) {
    && (forall s, buf {:trigger P.HandlePayload(env, s, buf)} :: m.handle(s, buf) == P.HandlePayload(env, s, buf))
    && (forall s, buf {:trigger P.ServerHello(env, s, buf)} ::
          |buf| == P.HELLO_LEN ==> m.hello(s, buf) == P.ServerHello(env, s, buf))
    && m.preamble == P.Raw(env, [87, 46, P.WIRE_VERSION * 16 + P.TYPE_RELAY_SESSION] + env.relaySession)
  }

  lemma MachineIsTied(env: P.Env)
    ensures Tied(P.MachineOf(env), env)
  {
  }

  class Connection {
    /** Identities, keys, counters and states. */
    var s: P.Session
    var transport: P.TransportState
    var expectBytes: nat
    /** Null while the slot is zeroed. */
    var ring: Ring?
    /** What the rest of the core, the application and the network see. */
    var log: seq<P.Output>

    ghost predicate Valid()
      reads this, ring
    {
      ring != null ==> ring.Valid()
    }

    ghost function Slot(): P.Conn
      reads this, ring, if ring == null then {} else {ring.data}
      requires Valid()
    {
      if ring == null then P.Conn(s, transport, expectBytes, 0, [])
      else P.Conn(s, transport, expectBytes, ring.maxLen, ring.Contents())
    }

    /** The session and the log are as the specification says, and framing is untouched or reset. */
    twostate predicate Became(o: P.Outcome)
      reads this
    {
      && s == o.s
      && log == old(log) + o.out
      && if o.closed then s == P.FREE_SESSION && ring == null && transport == P.WaitFrameLen && expectBytes == 0
         else ring == old(ring) && transport == old(transport) && expectBytes == old(expectBytes)
    }

    /** wish_close_connection, down to the reset of the slot. */
    method Close()
      modifies this
      ensures Became(P.Close([]))
    {
      s := P.FREE_SESSION;
      ring, transport, expectBytes := null, P.WaitFrameLen, 0;
      log := log + [P.Closed];
    }

    /** wish_connection_init, once it has found a free slot. */
    method Allocate(luid: seq<byte>, ruid: seq<byte>, n: u16)
      requires Valid() && s.ctx == P.Free && ring == null && 0 < n
      modifies this
      ensures Valid() && log == old(log)
      ensures Slot() == P.Allocate(old(Slot()), luid, ruid, n)
    {
      var mem := new byte[n];
      ring := new Ring.Init(mem);
      s := s.(ctx := P.InMaking, proto := P.ProtoInitial, luid := luid, ruid := ruid);
      transport := P.TransportInitial;
    }

    /** The port's send function. */
    method Send(env: P.Env, bytes: seq<byte>)
      modifies this`log
      ensures log == old(log) + P.Raw(env, bytes)
    {
      if env.sendOk {
        log := log + [P.Sent(bytes)];
      }
    }

    method Bump(iv: Iv12) returns (next: Iv12)
      ensures next == NextIv(iv)
    {
      var a := new byte[IV_LEN](i requires 0 <= i < |iv| => iv[i]);
      assert a[..] == iv;
      UpdateNonce(a);
      next := a[..];
    }

    method SendMessage(env: P.Env, m: seq<byte>) returns (ok: bool)
      modifies this`s, this`log
      ensures ok == P.CanSend(env, old(s))
      ensures Became(P.SendMessage(env, old(s), m))
    {
      if s.ctx == P.Free {
        return false;
      }
      if s.ctx == P.Closing {
        return false;
      }
      var c := env.cr.encrypt(s.keyOut, s.ivOut, m);
      var payload := c.0 + c.1;
      if env.sendOk {
        log := log + [P.Sent(BE16(|payload|) + payload)];
        var iv := Bump(s.ivOut);
        s := s.(ivOut := iv);
      }
      ok := env.sendOk;
    }

    /** A failed check of the tag also leaves the protocol; every caller then closes. */
    method Decrypt(cr: P.Crypto, payload: seq<byte>, limit: int) returns (m: Option<seq<byte>>)
      modifies this`s
      ensures m == P.Decrypt(cr, old(s), payload, limit)
      ensures m.Some? ==> s == old(s).(ivIn := NextIv(old(s.ivIn)))
      ensures m.None? ==> s == if P.TAG_LEN <= |payload| <= P.TAG_LEN + limit
                               then old(s).(proto := P.ProtoInitial) else old(s)
    {
      var n := |payload| - P.TAG_LEN;
      if n < 0 || n > limit {
        return None;
      }
      var d := cr.decrypt(s.keyIn, s.ivIn, payload[..n]);
      if payload[n..] != d.1 {
        s := s.(proto := P.ProtoInitial);
        return None;
      }
      var iv := Bump(s.ivIn);
      s := s.(ivIn := iv);
      m := Some(d.0);
    }

    method HandleClientDH(env: P.Env, payload: seq<byte>)
      modifies this
      ensures Became(P.ClientDH(env, old(s), payload))
    {
      if !env.cr.dhReadable(payload) {
        Close();
        return;
      }
      Send(env, Frame(env.cr.dhPublic(env.exponent)));
      var secret := env.cr.dhSecret(env.exponent, payload);
      if secret.None? || |secret.value| != P.DH_LEN {
        Close();
        return;
      }
      var k := secret.value;
      s := s.(keyIn := k[32..48], keyOut := k[..16], ivIn := k[48..60], ivOut := k[16..28]);
      BuildHashes(env.cr, k);
      s := s.(proto := P.SendClientHash);
    }

    /** build_client_and_server_hashes */
    method BuildHashes(cr: P.Crypto, secret: seq<byte>)
      modifies this`s
      ensures s == old(s).(clientHash := cr.hash(P.CLIENT_STR + secret), serverHash := cr.hash(P.SERVER_STR + secret))
    {
      s := s.(clientHash := cr.hash(P.CLIENT_STR + secret));
      s := s.(serverHash := cr.hash(P.SERVER_STR + secret));
    }

    method HandleClientVerify(env: P.Env, payload: seq<byte>)
      modifies this
      ensures Became(P.ClientVerify(env, old(s), payload))
    {
      var privkey := env.priv(s.luid);
      if privkey.None? {
        Close();
        return;
      }
      var signature := env.cr.sign(s.clientHash, privkey.value);
      var _ := SendMessage(env, signature);
      var m := Decrypt(env.cr, payload, P.SIGNATURE_LEN);
      if m.None? {
        Close();
        return;
      }
      if !s.friend {
        var pubkey := env.pub(s.ruid);
        if pubkey.None? {
          Close();
          return;
        }
        var sig := P.InBuffer(m.value, env.junk);
        if !env.cr.verify(sig, s.serverHash, pubkey.value) {
          Close();
          return;
        }
        log := log + [P.Verified(s.ruid, s.serverHash, sig, pubkey.value)];
        s := s.(proto := P.Handshake);
      } else {
        s := s.(proto := P.Handshake);
      }
    }

    method ProcessHandshake(env: P.Env, doc: seq<byte>)
      modifies this`s, this`log
      ensures Became(P.ProcessHandshake(env, old(s), doc))
    {
      var host := env.hostOf(doc);
      if host.None? {
        return;
      }
      s := s.(rhid := host.value);
      var _ := SendMessage(env, env.handshakeDoc(s.ruid, s.friend));
    }

    method HandleClientHandshake(env: P.Env, payload: seq<byte>)
      modifies this
      ensures Became(P.ClientHandshake(env, old(s), payload))
    {
      var doc := Decrypt(env.cr, payload, P.HANDSHAKE_BUFFER);
      if doc.None? {
        Close();
        return;
      }
      ProcessHandshake(env, doc.value);
      s := s.(proto := P.Running);
      if s.friend {
        log := log + [P.FriendRequest];
        s := s.(ctx := P.Connected);
      } else {
        if env.bannedTrue(doc.value) {
          Close();
          return;
        }
        log := log + [P.NewCoreConnection];
      }
    }

    method HandleRunning(env: P.Env, payload: seq<byte>)
      modifies this
      ensures Became(P.Run(env, old(s), payload))
    {
      var m := Decrypt(env.cr, payload, |payload| - P.TAG_LEN);
      if m.None? {
        Close();
        return;
      }
      log := log + [P.Delivered(m.value)];
    }

    method HandleServerDH(env: P.Env, payload: seq<byte>)
      modifies this
      ensures Became(P.ServerFinishDH(env, old(s), payload))
    {
      var secret := if s.dhm.None? then None else env.cr.dhSecret(s.dhm.value, payload);
      if secret.None? || |secret.value| != P.DH_LEN {
        Close();
        return;
      }
      var k := secret.value;
      s := s.(keyOut := k[32..48], keyIn := k[..16], ivOut := k[48..60], ivIn := k[16..28], dhm := None);
      BuildHashes(env.cr, k);
      var privkey := env.priv(s.luid);
      if privkey.None? {
        Close();
        return;
      }
      var _ := SendMessage(env, env.cr.sign(s.serverHash, privkey.value));
      s := s.(proto := P.ServerVerifyClientHash);
    }

    method HandleServerVerify(env: P.Env, payload: seq<byte>)
      modifies this
      ensures Became(P.ServerVerify(env, old(s), payload))
    {
      var m := Decrypt(env.cr, payload, P.SIGNATURE_LEN);
      if m.None? {
        Close();
        return;
      }
      if !s.friend {
        var pubkey := env.pub(s.ruid);
        if pubkey.None? {
          Close();
          return;
        }
        var sig := P.InBuffer(m.value, env.junk);
        if !env.cr.verify(sig, s.clientHash, pubkey.value) {
          Close();
          return;
        }
        log := log + [P.Verified(s.ruid, s.clientHash, sig, pubkey.value)];
        s := s.(proto := P.ServerSendHandshake);
      } else {
        s := s.(proto := P.ServerSendHandshake);
      }
      HandleServerHandshake(env);
    }

    method HandleServerHandshake(env: P.Env)
      modifies this`s, this`log
      ensures Became(P.ServerHandshake(env, old(s), []))
    {
      var ok := SendMessage(env, env.handshakeDoc(s.ruid, s.friend));
      if !ok {
        return;
      }
      s := s.(proto := P.ServerReadReply);
    }

    method HandleServerReply(env: P.Env, payload: seq<byte>)
      modifies this
      ensures Became(P.ServerReply(env, old(s), payload))
    {
      var doc := Decrypt(env.cr, payload, |payload|);
      if doc.None? {
        Close();
        return;
      }
      var host := env.hostOf(doc.value);
      if host.None? {
        return;
      }
      s := s.(rhid := host.value);
      if env.bannedPresent(doc.value) {
        Close();
      } else {
        s := s.(proto := P.Running);
        if !s.friend {
          log := log + [P.NewCoreConnection];
        }
      }
    }

    method HandlePayload(env: P.Env, payload: seq<byte>)
      modifies this
      ensures Became(P.HandlePayload(env, old(s), payload))
      ensures ring == old(ring) || ring == null
    {
      match s.proto
      case DH => HandleClientDH(env, payload);
      case SendClientHash => HandleClientVerify(env, payload);
      case Handshake => HandleClientHandshake(env, payload);
      case Running => HandleRunning(env, payload);
      case ServerDH => HandleServerDH(env, payload);
      case ServerVerifyClientHash => HandleServerVerify(env, payload);
      case ServerSendHandshake => HandleServerHandshake(env);
      case ServerReadReply => HandleServerReply(env, payload);
      case ProtoInitial =>
    }

    method HandleHello(env: P.Env, buf: seq<byte>)
      requires |buf| == P.HELLO_LEN
      modifies this
      ensures Became(P.ServerHello(env, old(s), buf))
    {
      if buf[0] != 87 || buf[1] != 46 {
        Close();
        return;
      }
      if buf[2] / 16 != P.WIRE_VERSION {
        Close();
        return;
      }
      var ty := buf[2] % 16;
      if ty == P.TYPE_FRIEND_REQ {
        s := s.(friend := true);
      } else if ty != P.TYPE_NORMAL {
        Close();
        return;
      }
      var dst, src := buf[3..3 + ID_LEN], buf[3 + ID_LEN..];
      if !s.friend && !P.KnownIds(env, dst, src) {
        Close();
        return;
      }
      s := s.(luid := dst, ruid := src);
      s := s.(dhm := Some(env.exponent));
      Send(env, Frame(env.cr.dhPublic(env.exponent)));
      s := s.(proto := P.ServerDH);
    }

    /** The bytes in the ring buffer, and none of a zeroed slot. */
    method Length() returns (n: nat)
      requires Valid()
      ensures n == |Slot().rx|
    {
      n := if ring == null then 0 else ring.Length();
    }

    /** Takes n bytes out of the ring buffer. */
    method Read(n: nat) returns (bytes: seq<byte>)
      requires Valid() && n <= |Slot().rx|
      modifies ring
      ensures Valid()
      ensures bytes == old(Slot().rx)[..n] && Slot() == old(Slot()).(rx := old(Slot().rx)[n..])
    {
      if ring == null {
        return [];
      }
      var buf := new byte[n];
      var _ := ring.Read(buf, n);
      bytes := buf[..n];
    }

    /** One round of the loop: it is over, or the rest of the work is what remains of the specification. */
    twostate predicate Round(m: P.Machine, again: bool)
      reads this, ring, if ring == null then {} else {ring.data}
      requires old(Valid()) && Valid()
    {
      var r := P.Drain(m, old(Slot()));
      && old(log) <= log
      && var out := log[|old(log)|..];
         if again then Remains(r, out, P.Drain(m, Slot())) && Size(Slot()) < Size(old(Slot()))
         else r == P.Result(Slot(), out)
    }

    method TakeLength(ghost m: P.Machine) returns (again: bool)
      requires Valid() && transport == P.WaitFrameLen
      modifies this, ring
      ensures Valid() && Round(m, again)
      ensures ring == old(ring)
    {
      again := false;
      var n := Length();
      if n >= 2 {
        ghost var c := Slot();
        var bytes := Read(2);
        expectBytes := FromBE16(bytes[0], bytes[1]);
        transport := P.WaitPayload;
        n := Length();
        again := n >= expectBytes;
        LengthTaken(m, c);
      }
    }

    method Handle(env: P.Env, ghost m: P.Machine, payload: seq<byte>)
      requires Tied(m, env)
      modifies this
      ensures Became(m.handle(old(s), payload)) && (ring == old(ring) || ring == null)
    {
      HandlePayload(env, payload);
    }

    /** Hands a payload to its handler. */
    method Deliver(env: P.Env, ghost m: P.Machine, buf: seq<byte>, ghost c: P.Conn)
      requires Tied(m, env)
      requires Valid() && c.expectBytes <= |c.rx| && buf == c.rx[..c.expectBytes]
      requires Slot() == c.(rx := c.rx[c.expectBytes..])
      modifies this
      ensures Valid() && (ring == old(ring) || ring == null)
      ensures var h := P.TakePayload(m, c); Slot() == h.conn && log == old(log) + h.out
    {
      log := log + [P.Payload(buf, s)];
      Handle(env, m, buf);
      transport := P.WaitFrameLen;
    }

    method TakePayload(env: P.Env, ghost m: P.Machine) returns (again: bool)
      requires Valid() && transport == P.WaitPayload && Tied(m, env)
      modifies this, ring
      ensures Valid() && Round(m, again)
      ensures ring == old(ring) || ring == null
    {
      again := false;
      var n := Length();
      if n >= expectBytes {
        ghost var c := Slot();
        var buf := Read(expectBytes);
        Deliver(env, m, buf, c);
        n := Length();
        again := n >= 2;
        PayloadTaken(m, c);
      }
    }

    method TakeHello(env: P.Env, ghost m: P.Machine)
      requires Valid() && transport == P.ServerWaitInitial && Tied(m, env)
      modifies this, ring
      ensures Valid() && Round(m, false)
      ensures ring == old(ring) || ring == null
    {
      var n := Length();
      if n >= P.HELLO_LEN {
        var buf := Read(P.HELLO_LEN);
        HandleHello(env, buf);
        transport := P.WaitFrameLen;
      }
    }

    method SendSessionId(env: P.Env, ghost m: P.Machine)
      requires Valid() && transport == P.RelaySendSessionId && Tied(m, env)
      modifies this
      ensures Valid() && Round(m, true)
      ensures ring == old(ring)
    {
      transport := P.ServerWaitInitial;
      Send(env, [87, 46, P.WIRE_VERSION * 16 + P.TYPE_RELAY_SESSION] + env.relaySession);
    }

    method TakeRound(env: P.Env, ghost m: P.Machine) returns (again: bool)
      requires Valid() && Tied(m, env)
      modifies this, ring
      ensures Valid() && Round(m, again)
      ensures ring == old(ring) || ring == null
    {
      again := false;
      match transport
      case WaitFrameLen => again := TakeLength(m);
      case WaitPayload => again := TakePayload(env, m);
      case ServerWaitInitial => TakeHello(env, m);
      case RelaySendSessionId => SendSessionId(env, m); again := true;
      case _ =>
    }

    method TakeRounds(env: P.Env, ghost m: P.Machine)
      requires Valid() && Tied(m, env)
      modifies this, ring
      ensures Valid() && (ring == old(ring) || ring == null)
      ensures var r := P.Drain(m, old(Slot())); Slot() == r.conn && log == old(log) + r.out
    {
      var again := true;
      ghost var out, result := [], P.Drain(m, Slot());
      assert result == P.Result(result.conn, out + result.out);
      while again
        invariant Valid() && (ring == old(ring) || ring == null)
        invariant log == old(log) + out
        invariant again ==> Remains(result, out, P.Drain(m, Slot()))
        invariant !again ==> result == P.Result(Slot(), out)
        decreases if again then Size(Slot()) + 1 else 0
      {
        ghost var before, mid := log, P.Drain(m, Slot());
        again := TakeRound(env, m);
        ghost var delta := log[|before|..];
        assert log == before + delta;
        Assoc(old(log), out, delta);
        if again {
          Continues(result, out, mid, delta, P.Drain(m, Slot()));
        }
        out := out + delta;
      }
    }

    /** wish_core_process_data */
    method ProcessData(env: P.Env)
      requires Valid()
      modifies this, ring
      ensures Valid() && (ring == old(ring) || ring == null)
      ensures var r := P.Drain(P.MachineOf(env), old(Slot())); Slot() == r.conn && log == old(log) + r.out
    {
      MachineIsTied(env);
      TakeRounds(env, P.MachineOf(env));
    }

    /** wish_core_feed */
    method Feed(data: seq<byte>)
      requires Valid()
      modifies this, ring, if ring == null then {} else {ring.data}
      ensures Valid()
      ensures var r := P.Feed(old(Slot()), data); Slot() == r.conn && log == old(log) + r.out
    {
      var space := if ring == null then 0 else ring.Space();
      if space >= |data| {
        if ring != null {
          var _ := ring.Write(data, |data|);
          assert data[..|data|] == data;
        }
      } else {
        Close();
      }
    }

    /** wish_core_signal_tcp_event */
    method SignalTcpEvent(env: P.Env, ev: P.TcpEvent)
      requires Valid()
      modifies this, ring
      ensures Valid()
      ensures var r := P.SignalTcpEvent(env, old(Slot()), ev); Slot() == r.conn && log == old(log) + r.out
    {
      match ev
      case TcpConnected =>
        s := s.(outgoing := true);
        transport := P.WaitFrameLen;
        s := s.(proto := P.DH);
        Send(env, P.Hello(if s.friend then P.TYPE_FRIEND_REQ else P.TYPE_NORMAL, s.ruid, s.luid));
      case TcpDisconnected => Close();
      case TcpClientDisconnected => Close();
      case TcpClientConnected =>
        s := s.(outgoing := false);
        transport := P.ServerWaitInitial;
      case TcpRelaySessionConnected =>
        transport := P.RelaySendSessionId;
        ProcessData(env);
    }
  }
}
