/** What becomes of forged and of genuine frames in every run of a slot, stated on the log: each frame with the
    key and the IV in force, and what followed it. */
module Integrity {
  import opened Basics
  import opened Bytes
  import opened Nonce
  import opened Protocol
  import opened Authentication

  /** States in which a frame is a sealed message. */
  predicate Decrypts(p: ProtocolState) {
    p in {SendClientHash, Handshake, Running, ServerVerifyClientHash, ServerReadReply}
  }

  /** The last 16 bytes of the frame are the tag of the others under the key and the IV in force. */
  predicate Sealed(cr: Crypto, s: Session, p: seq<byte>) {
    16 <= |p| && cr.decrypt(s.keyIn, s.ivIn, p[..|p| - 16]).1 == p[|p| - 16..]
  }

  function Opened(cr: Crypto, s: Session, p: seq<byte>): seq<byte>
    requires 16 <= |p|
  {
    cr.decrypt(s.keyIn, s.ivIn, p[..|p| - 16]).0
  }

  /** The peer says that this core is banned: the client looks for true, the server for the field, and only in
      a document with a host id. */
  predicate Banned(env: Env, s: Session, m: seq<byte>) {
    || (s.proto == Handshake && !s.friend && env.bannedTrue(m))
    || (s.proto == ServerReadReply && env.hostOf(m).Some? && env.bannedPresent(m))
  }

  /** A frame that has to end the connection. */
  predicate Refused(env: Env, s: Session, p: seq<byte>) {
    Decrypts(s.proto) && (!Sealed(env.cr, s, p) || Banned(env, s, Opened(env.cr, s, p)))
  }

  predicate OnlySends(out: seq<Output>) { forall i :: 0 <= i < |out| ==> out[i].Sent? }

  /** Nothing but messages that were due before, and the end. */
  predicate Ends(out: seq<Output>) { out != [] && out[|out| - 1] == Closed && OnlySends(out[..|out| - 1]) }

  // One frame ------------------------------------------------------------------------------------------

  /** A frame that has to be refused ends the connection; one that is taken is genuine and moves the counter;
      what is handed up is what it opens to; and a connection only opens with a frame that is not refused. */
  ghost predicate Kept(env: Env, s: Session, p: seq<byte>, h: Outcome) {
    && (Refused(env, s, p) ==> h.closed && h.s == FREE_SESSION && Ends(h.out))
    && (Decrypts(s.proto) && !h.closed ==>
          Sealed(env.cr, s, p) && h.s.keyIn == s.keyIn && h.s.ivIn == NextIv(s.ivIn))
    && (forall i :: 0 <= i < |h.out| && h.out[i].Delivered? ==>
          s.proto == Running && i == 0 && Sealed(env.cr, s, p) && h.out[i].plaintext == Opened(env.cr, s, p))
    && (s.proto == Running && Sealed(env.cr, s, p) ==> !h.closed && h.out == [Delivered(Opened(env.cr, s, p))])
    && (forall i :: 0 <= i < |h.out| && h.out[i].NewCoreConnection? ==>
          Decrypts(s.proto) && !Refused(env, s, p) && OnlySends(h.out[..i]))
    && NoPayload(h.out)
  }

  lemma DecryptIsSealed(cr: Crypto, s: Session, p: seq<byte>, limit: int)
    ensures var m := Decrypt(cr, s, p, limit);
            && (m.Some? ==> Sealed(cr, s, p) && m.value == Opened(cr, s, p))
            && (Sealed(cr, s, p) && |p| - 16 <= limit ==> m.Some?)
  {
  }

  lemma SendsOnly(env: Env, s: Session, m: seq<byte>)
    ensures var o := SendMessage(env, s, m);
            OnlySends(o.out) && !o.closed && o.s == s.(ivOut := o.s.ivOut)
  {
  }

  lemma ClosesAfter(out: seq<Output>)
    requires OnlySends(out)
    ensures Ends(Close(out).out)
  {
    assert (out + [Closed])[..|out|] == out;
  }

  lemma ClosedIsKept(env: Env, s: Session, p: seq<byte>, out: seq<Output>)
    requires OnlySends(out) && (s.proto == Running ==> !Sealed(env.cr, s, p))
    ensures Kept(env, s, p, Close(out))
  {
    ClosesAfter(out);
  }

  lemma TakenIsKept(env: Env, s: Session, p: seq<byte>, h: Outcome)
    requires Decrypts(s.proto) && s.proto != Running && !Refused(env, s, p)
    requires !h.closed && h.s.keyIn == s.keyIn && h.s.ivIn == NextIv(s.ivIn)
    requires forall i :: 0 <= i < |h.out| ==> Plain(h.out[i])
    ensures Kept(env, s, p, h)
  {
  }

  predicate Plain(out: Output) { out.Sent? || out.Closed? || out.Verified? || out.FriendRequest? }

  lemma ClientVerifyKeeps(env: Env, s: Session, p: seq<byte>)
    requires s.proto == SendClientHash
    ensures Kept(env, s, p, ClientVerify(env, s, p))
  {
    ClosedIsKept(env, s, p, []);
    if env.priv(s.luid).Some? {
      var o := SendMessage(env, s, env.cr.sign(s.clientHash, env.priv(s.luid).value));
      SendsOnly(env, s, env.cr.sign(s.clientHash, env.priv(s.luid).value));
      ClosedIsKept(env, s, p, o.out);
      DecryptIsSealed(env.cr, o.s, p, SIGNATURE_LEN);
      SameSeal(env.cr, s, o.s, p);
      var h := ClientVerify(env, s, p);
      if !h.closed {
        TakenIsKept(env, s, p, h);
      }
    }
  }

  lemma SameSeal(cr: Crypto, s: Session, t: Session, p: seq<byte>)
    requires s.keyIn == t.keyIn && s.ivIn == t.ivIn
    ensures Sealed(cr, s, p) == Sealed(cr, t, p)
    ensures 16 <= |p| ==> Opened(cr, s, p) == Opened(cr, t, p)
  {
  }

  lemma ClientHandshakeKeeps(env: Env, s: Session, p: seq<byte>)
    requires s.proto == Handshake
    ensures Kept(env, s, p, ClientHandshake(env, s, p))
  {
    ClosesAfter([]);
    DecryptIsSealed(env.cr, s, p, HANDSHAKE_BUFFER);
    var m := Decrypt(env.cr, s, p, HANDSHAKE_BUFFER);
    if m.Some? {
      var c := s.(ivIn := NextIv(s.ivIn));
      var o := ProcessHandshake(env, c, m.value);
      AnswerSends(env, c, m.value);
      ClosesAfter(o.out);
      assert (o.out + [NewCoreConnection])[..|o.out|] == o.out;
    }
  }

  lemma AnswerSends(env: Env, s: Session, doc: seq<byte>)
    ensures var o := ProcessHandshake(env, s, doc);
            OnlySends(o.out) && !o.closed && o.s == s.(ivOut := o.s.ivOut, rhid := o.s.rhid)
  {
    if env.hostOf(doc).Some? {
      SendsOnly(env, s.(rhid := env.hostOf(doc).value), env.handshakeDoc(s.ruid, s.friend));
    }
  }

  lemma RunKeeps(env: Env, s: Session, p: seq<byte>)
    requires s.proto == Running
    ensures Kept(env, s, p, Run(env, s, p))
  {
    ClosesAfter([]);
    DecryptIsSealed(env.cr, s, p, |p| - TAG_LEN);
  }

  lemma ServerVerifyKeeps(env: Env, s: Session, p: seq<byte>)
    requires s.proto == ServerVerifyClientHash
    ensures Kept(env, s, p, ServerVerify(env, s, p))
  {
    ClosesAfter([]);
    DecryptIsSealed(env.cr, s, p, SIGNATURE_LEN);
    var c := s.(ivIn := NextIv(s.ivIn), proto := ServerSendHandshake);
    SendsOnly(env, c, env.handshakeDoc(s.ruid, s.friend));
  }

  lemma ServerReplyKeeps(env: Env, s: Session, p: seq<byte>)
    requires s.proto == ServerReadReply
    ensures Kept(env, s, p, ServerReply(env, s, p))
  {
    ClosesAfter([]);
    DecryptIsSealed(env.cr, s, p, |p|);
  }

  lemma KeylessKeeps(env: Env, s: Session, p: seq<byte>)
    requires !Decrypts(s.proto)
    ensures Kept(env, s, p, HandlePayload(env, s, p))
  {
    if s.proto == ServerDH {
      if s.dhm.Some? && env.cr.dhSecret(s.dhm.value, p).Some? && |env.cr.dhSecret(s.dhm.value, p).value| == DH_LEN
         && env.priv(s.luid).Some? {
        var c := WithSecret(env.cr, s, env.cr.dhSecret(s.dhm.value, p).value, false).(dhm := None);
        SendsOnly(env, c, env.cr.sign(c.serverHash, env.priv(s.luid).value));
      }
    } else if s.proto == ServerSendHandshake {
      SendsOnly(env, s, env.handshakeDoc(s.ruid, s.friend));
    }
  }

  /** What a frame does to a slot, in any state and with any surroundings. */
  lemma FrameLaw(env: Env, s: Session, p: seq<byte>)
    ensures Kept(env, s, p, HandlePayload(env, s, p))
  {
    match s.proto
    case SendClientHash => ClientVerifyKeeps(env, s, p);
    case Handshake => ClientHandshakeKeeps(env, s, p);
    case Running => RunKeeps(env, s, p);
    case ServerVerifyClientHash => ServerVerifyKeeps(env, s, p);
    case ServerReadReply => ServerReplyKeeps(env, s, p);
    case _ => KeylessKeeps(env, s, p);
  }

  // Every run ------------------------------------------------------------------------------------------

  /** Behind entry i come sends only, and then the end of the connection. */
  ghost predicate EndsAfter(log: seq<Logged>, i: nat) {
    exists j :: i < j < |log| && log[j].out == Closed && forall k :: i < k < j ==> log[k].out.Sent?
  }

  /** A frame that is not refused came last before entry i. */
  ghost predicate OpensBefore(log: seq<Logged>, i: nat)
    requires i < |log|
  {
    exists j :: 0 <= j < i && log[j].out.Payload? && log[j].env == log[i].env
                && Decrypts(log[j].out.taker.proto) && !Refused(log[j].env, log[j].out.taker, log[j].out.frame)
                && forall k :: j < k < i ==> log[k].out.Sent?
  }

  ghost predicate LawAt(log: seq<Logged>, i: nat)
    requires i < |log|
  {
    var (env, out) := (log[i].env, log[i].out);
    && (out.Payload? && Refused(env, out.taker, out.frame) ==> EndsAfter(log, i))
    && (out.Payload? && out.taker.proto == Running && Sealed(env.cr, out.taker, out.frame) ==>
          i + 1 < |log| && log[i + 1] == Logged(env, Delivered(Opened(env.cr, out.taker, out.frame))))
    && (out.Delivered? ==>
          && 0 < i && log[i - 1].env == env && log[i - 1].out.Payload?
          && var (s, p) := (log[i - 1].out.taker, log[i - 1].out.frame);
             s.proto == Running && Sealed(env.cr, s, p) && out.plaintext == Opened(env.cr, s, p))
    && (out.NewCoreConnection? ==> OpensBefore(log, i))
  }

  ghost predicate Law(log: seq<Logged>) { forall i :: 0 <= i < |log| ==> LawAt(log, i) }

  lemma EndsIn(a: seq<Logged>, b: seq<Logged>, c: seq<Logged>, i: nat)
    requires EndsAfter(b, i)
    ensures EndsAfter(a + b + c, |a| + i)
  {
    var log, n := a + b + c, |a|;
    var j :| i < j < |b| && b[j].out == Closed && forall k :: i < k < j ==> b[k].out.Sent?;
    assert log[n + j].out == Closed && forall k :: n + i < k < n + j ==> log[k] == b[k - n];
  }

  lemma OpensIn(a: seq<Logged>, b: seq<Logged>, c: seq<Logged>, i: nat)
    requires i < |b| && OpensBefore(b, i)
    ensures OpensBefore(a + b + c, |a| + i)
  {
    var log, n := a + b + c, |a|;
    var j :| 0 <= j < i && b[j].out.Payload? && b[j].env == b[i].env
             && Decrypts(b[j].out.taker.proto) && !Refused(b[j].env, b[j].out.taker, b[j].out.frame)
             && forall k :: j < k < i ==> b[k].out.Sent?;
    assert log[n + j] == b[j] && log[n + i] == b[i] && forall k :: n + j < k < n + i ==> log[k] == b[k - n];
  }

  lemma LawWithin(a: seq<Logged>, b: seq<Logged>, c: seq<Logged>, i: nat)
    requires i < |b| && LawAt(b, i)
    ensures LawAt(a + b + c, |a| + i)
  {
    var log, n := a + b + c, |a|;
    assert log[n + i] == b[i] && (i > 0 ==> log[n + i - 1] == b[i - 1]);
    assert i + 1 < |b| ==> log[n + i + 1] == b[i + 1];
    if EndsAfter(b, i) {
      EndsIn(a, b, c, i);
    }
    if OpensBefore(b, i) {
      OpensIn(a, b, c, i);
    }
  }

  lemma LawConcat(a: seq<Logged>, b: seq<Logged>)
    requires Law(a) && Law(b)
    ensures Law(a + b)
  {
    forall i | 0 <= i < |a + b| ensures LawAt(a + b, i) {
      if i < |a| {
        LawWithin([], a, b, i);
        assert [] + a + b == a + b;
      } else {
        assert LawAt(b, i - |a|);
        LawWithin(a, b, [], i - |a|);
        assert a + b + [] == a + b;
      }
    }
  }

  lemma PlainIsLaw(env: Env, out: seq<Output>)
    requires forall i :: 0 <= i < |out| ==> Plain(out[i])
    ensures Law(Tag(env, out))
  {
  }

  function FrameLog(env: Env, s: Session, p: seq<byte>, out: seq<Output>): (log: seq<Logged>)
    ensures |log| == |out| + 1 && log[0] == Logged(env, Payload(p, s))
    ensures forall i :: 0 < i < |log| ==> log[i] == Logged(env, out[i - 1])
  {
    Tag(env, [Payload(p, s)] + out)
  }

  lemma FrameEntry(env: Env, s: Session, p: seq<byte>, h: Outcome)
    requires Kept(env, s, p, h)
    ensures LawAt(FrameLog(env, s, p, h.out), 0)
  {
    var log := FrameLog(env, s, p, h.out);
    if Refused(env, s, p) {
      assert forall k :: 0 < k < |h.out| ==> log[k].out == h.out[..|h.out| - 1][k - 1];
      assert log[|h.out|].out == Closed && EndsAfter(log, 0);
    }
  }

  lemma AnswerEntry(env: Env, s: Session, p: seq<byte>, h: Outcome, i: nat)
    requires Kept(env, s, p, h) && 0 < i <= |h.out|
    ensures LawAt(FrameLog(env, s, p, h.out), i)
  {
    var log := FrameLog(env, s, p, h.out);
    assert log[i] == Logged(env, h.out[i - 1]) && !h.out[i - 1].Payload?;
    if h.out[i - 1].NewCoreConnection? {
      assert forall k :: 0 < k < i ==> log[k].out == h.out[..i - 1][k - 1];
      assert log[0].out.Payload? && OpensBefore(log, i);
    }
  }

  /** The entries of one frame. */
  lemma FrameIsLaw(env: Env, s: Session, p: seq<byte>)
    ensures Law(Tag(env, [Payload(p, s)] + HandlePayload(env, s, p).out))
  {
    var h := HandlePayload(env, s, p);
    var log := FrameLog(env, s, p, h.out);
    FrameLaw(env, s, p);
    forall i | 0 <= i < |log| ensures LawAt(log, i) {
      if i == 0 {
        FrameEntry(env, s, p, h);
      } else {
        AnswerEntry(env, s, p, h, i);
      }
    }
  }

  /** A machine whose answers to frames keep the law. */
  ghost predicate Lawful(m: Machine, env: Env) {
    && (forall s, p :: Law(Tag(env, [Payload(p, s)] + m.handle(s, p).out)))
    && (forall s, b :: Law(Tag(env, m.hello(s, b).out)))
    && Law(Tag(env, m.preamble))
  }

  lemma HelloIsPlain(env: Env, s: Session, b: seq<byte>)
    ensures var h := MachineOf(env).hello(s, b); forall i :: 0 <= i < |h.out| ==> Plain(h.out[i])
  {
    if |b| == HELLO_LEN {
      assert MachineOf(env).hello(s, b) == ServerHello(env, s, b);
    } else {
      assert MachineOf(env).hello(s, b) == Close([]);
    }
  }

  lemma ProtocolIsLawful(env: Env)
    ensures Lawful(MachineOf(env), env)
  {
    var m := MachineOf(env);
    forall s, p ensures Law(Tag(env, [Payload(p, s)] + m.handle(s, p).out)) {
      FrameIsLaw(env, s, p);
      assert m.handle(s, p) == HandlePayload(env, s, p);
    }
    forall s, b ensures Law(Tag(env, m.hello(s, b).out)) {
      HelloIsPlain(env, s, b);
      PlainIsLaw(env, m.hello(s, b).out);
    }
    PlainIsLaw(env, m.preamble);
  }

  lemma {:induction false} DrainIsLaw(m: Machine, env: Env, c: Conn)
    requires Lawful(m, env)
    ensures Law(Tag(env, Drain(m, c).out))
    decreases |c.rx|, Rank(c.transport)
  {
    match c.transport
    case WaitFrameLen =>
      if 2 <= |c.rx| {
        var c1 := c.(expectBytes := FromBE16(c.rx[0], c.rx[1]), transport := WaitPayload, rx := c.rx[2..]);
        DrainIsLaw(m, env, c1);
      }
    case WaitPayload =>
      if c.expectBytes <= |c.rx| {
        var h := TakePayload(m, c);
        assert Law(Tag(env, h.out)) by {
          assert h.out == [Payload(c.rx[..c.expectBytes], c.s)] + m.handle(c.s, c.rx[..c.expectBytes]).out;
        }
        if 2 <= |h.conn.rx| {
          DrainIsLaw(m, env, h.conn);
          TagConcat(env, h.out, Drain(m, h.conn).out);
          LawConcat(Tag(env, h.out), Tag(env, Drain(m, h.conn).out));
        }
      }
    case RelaySendSessionId =>
      var c1 := c.(transport := ServerWaitInitial);
      DrainIsLaw(m, env, c1);
      TagConcat(env, m.preamble, Drain(m, c1).out);
      LawConcat(Tag(env, m.preamble), Tag(env, Drain(m, c1).out));
    case _ =>
  }

  lemma StepIsLaw(env: Env, c: Conn, ev: Event)
    ensures Law(Tag(env, Step(env, c, ev).out))
  {
    var r := Step(env, c, ev);
    match ev
    case Process =>
      ProtocolIsLawful(env);
      DrainIsLaw(MachineOf(env), env, c);
    case Tcp(e) =>
      if e == TcpRelaySessionConnected {
        ProtocolIsLawful(env);
        DrainIsLaw(MachineOf(env), env, c.(transport := RelaySendSessionId));
      } else {
        PlainIsLaw(env, r.out);
      }
    case AppSend(m) =>
      SendsOnly(env, c.s, m);
      PlainIsLaw(env, r.out);
    case _ => PlainIsLaw(env, r.out);
  }

  /** In every run, with any input, every frame without the right tag and every ban ends the connection at
      once; what is handed up is what the frame before it opens to, and every genuine frame of an open
      connection is handed up. */
  lemma {:induction false} RunObeysLaw(run: seq<State>, envs: seq<Env>, evs: seq<Event>, i: nat)
    requires IsRun(run, envs, evs) && i < |run|
    ensures Law(run[i].log)
  {
    if i > 0 {
      var st, env, ev := run[i - 1], envs[i - 1], evs[i - 1];
      RunObeysLaw(run, envs, evs, i - 1);
      assert run[i - 1 + 1] == After(st, env, ev);
      StepIsLaw(env, st.c, ev);
      LawConcat(if ev.Alloc? then [] else st.log, Tag(env, Step(env, st.c, ev).out));
    }
  }

  // The end of a connection -------------------------------------------------------------------------------

  /** Nothing in the ring and no ring; what a closed slot stays until it is allocated again. */
  predicate Dead(c: Conn) {
    c.rx == [] && c.cap == 0 && c.transport == WaitFrameLen && c.s.proto == ProtoInitial
  }

  predicate HandsUpNothing(out: seq<Output>) {
    forall i :: 0 <= i < |out| ==> !out[i].Payload? && !out[i].Delivered? && !out[i].NewCoreConnection?
  }

  lemma DeadStaysDead(env: Env, c: Conn, ev: Event)
    requires Dead(c) && Allowed(c, ev) && !ev.Alloc?
    ensures var r := Step(env, c, ev); Dead(r.conn) && HandsUpNothing(r.out)
  {
    if ev.AppSend? {
      SendsOnly(env, c.s, ev.message);
    }
  }

  /** Input is taken whole exactly if it fits the ring; otherwise the slot is closed and nothing of it is
      handed up. */
  lemma InputFitsIff(env: Env, c: Conn, data: seq<byte>)
    ensures var r := Step(env, c, Input(data));
            if |c.rx| + |data| <= c.cap then r == Result(c.(rx := c.rx + data), [])
            else r == Result(FREE_SLOT, [Closed])
  {
  }

  /** After input that does not fit, nothing more is handed up until the slot is allocated again. */
  lemma {:induction false} OverflowEnds(run: seq<State>, envs: seq<Env>, evs: seq<Event>, i: nat, n: nat)
    requires IsRun(run, envs, evs) && i < n < |run| && evs[i].Input?
    requires |run[i].c.rx| + |evs[i].data| > run[i].c.cap
    requires forall k :: i < k < n ==> !evs[k].Alloc?
    ensures Dead(run[n].c) && SilentSince(run[n].log, |run[i].log|)
  {
    var st, env, ev := run[n - 1], envs[n - 1], evs[n - 1];
    assert run[n - 1 + 1] == After(st, env, ev);
    if i + 1 < n {
      OverflowEnds(run, envs, evs, i, n - 1);
      DeadStaysDead(env, st.c, ev);
      StaysSilent(st.log, env, Step(env, st.c, ev).out, |run[i].log|);
    } else {
      InputFitsIff(env, st.c, ev.data);
      StaysSilent(st.log, env, [Closed], |st.log|);
    }
  }

  /** From entry n on, nothing was taken or handed up. */
  predicate SilentSince(log: seq<Logged>, n: nat) {
    n <= |log| && forall k :: n <= k < |log| ==>
      !log[k].out.Payload? && !log[k].out.Delivered? && !log[k].out.NewCoreConnection?
  }

  lemma StaysSilent(log: seq<Logged>, env: Env, out: seq<Output>, n: nat)
    requires SilentSince(log, n) && HandsUpNothing(out)
    ensures SilentSince(log + Tag(env, out), n)
  {
  }
}
