/** Two honest cores connected by two byte pipes: the handshake and the sealed channel stay in step. */
module SecureChannel {
  import opened Basics
  import opened Bytes
  import opened Nonce
  import opened Protocol
  import opened Chunking

  // The parties --------------------------------------------------------------------------

  /** The laws of the foreign functions. */
  ghost predicate Lawful(cr: Crypto) {
    && (forall k, iv, m :: |cr.encrypt(k, iv, m).0| == |m| && |cr.encrypt(k, iv, m).1| == TAG_LEN)
    && (forall k, iv, m :: cr.decrypt(k, iv, cr.encrypt(k, iv, m).0) == (m, cr.encrypt(k, iv, m).1))
    && (forall x :: |cr.dhPublic(x)| == DH_LEN && cr.dhReadable(cr.dhPublic(x)))
    && (forall x, y :: cr.dhSecret(x, cr.dhPublic(y)) == cr.dhSecret(y, cr.dhPublic(x)))
    && (forall x, y :: cr.dhSecret(x, cr.dhPublic(y)).Some? && |cr.dhSecret(x, cr.dhPublic(y)).value| == DH_LEN)
    && (forall m, k :: |cr.sign(m, k)| == SIGNATURE_LEN && cr.verify(cr.sign(m, k), m, cr.pubOf(k)))
  }

  datatype Setup = Setup(envC: Env, envS: Env, uidC: seq<byte>, uidS: seq<byte>, privC: seq<byte>, privS: seq<byte>)
  {
    function Cr(): Crypto { envC.cr }

    function DocC(): seq<byte> { envC.handshakeDoc(uidS, false) }

    function DocS(): seq<byte> { envS.handshakeDoc(uidC, false) }

    function PubC(): seq<byte> { Cr().dhPublic(envC.exponent) }

    function PubS(): seq<byte> { Cr().dhPublic(envS.exponent) }

    /** Friends that know each other, sends that succeed whole, handshake documents that both sides
        understand and that say nothing of a ban. */
    ghost predicate Honest() {
      && Lawful(envC.cr) && envS.cr == envC.cr
      && envC.sendOk && envS.sendOk
      && |uidC| == ID_LEN && |uidS| == ID_LEN
      && envC.priv(uidC) == Some(privC) && envS.priv(uidS) == Some(privS)
      && envC.pub(uidS) == Some(envC.cr.pubOf(privS))
      && envS.pub(uidC) == Some(envC.cr.pubOf(privC)) && envS.pub(uidS).Some?
      && |envC.junk| <= SIGNATURE_LEN && |envS.junk| <= SIGNATURE_LEN
      && |DocS()| <= HANDSHAKE_BUFFER && |DocC()| < 0x1_0000 - TAG_LEN
      && envC.hostOf(DocS()).Some? && !envC.bannedTrue(DocS())
      && envS.hostOf(DocC()).Some? && !envS.bannedPresent(DocC())
    }

    ghost function Secret(): (s: seq<byte>)
      requires Honest()
      ensures |s| == DH_LEN
      ensures Cr().dhSecret(envC.exponent, PubS()) == Some(s) && Cr().dhSecret(envS.exponent, PubC()) == Some(s)
    {
      Cr().dhSecret(envC.exponent, PubS()).value
    }

    ghost function Keys(): Keys
      requires Honest()
    {
      KeysOf(Cr(), Secret())
    }

    /** The client after `taken` frames, having sent `n' messages of the application. */
    function ClientAt(k: Keys, taken: nat, n: nat, ctx: ContextState): Session {
      var b := FREE_SESSION.(ctx := ctx, luid := uidC, ruid := uidS, outgoing := true, proto := DH);
      if taken == 0 then b
      else
        var c := b.(keyOut := k.a, keyIn := k.b, ivOut := k.i, ivIn := Iv(k.j, taken - 1),
                    clientHash := k.hc, serverHash := k.hs);
        if taken == 1 then c.(proto := SendClientHash)
        else if taken == 2 then c.(proto := Handshake, ivOut := Iv(k.i, 1))
        else c.(proto := Running, rhid := HostOf(envC, DocS()), ivOut := Iv(k.i, 2 + n))
    }

    /** The server after the hello and `taken` frames. */
    function ServerAt(k: Keys, taken: nat, n: nat, ctx: ContextState): Session {
      var b := FREE_SESSION.(ctx := ctx, luid := uidS, ruid := uidC);
      if taken == 0 then b.(proto := ServerDH, dhm := Some(envS.exponent))
      else
        var s := b.(keyOut := k.b, keyIn := k.a, ivIn := Iv(k.i, taken - 1), clientHash := k.hc, serverHash := k.hs);
        if taken == 1 then s.(proto := ServerVerifyClientHash, ivOut := Iv(k.j, 1))
        else if taken == 2 then s.(proto := ServerReadReply, ivOut := Iv(k.j, 2))
        else s.(proto := Running, rhid := HostOf(envS, DocC()), ivOut := Iv(k.j, 2 + n))
    }

    /** Everything the client sends after the hello, in order. */
    function ToServer(k: Keys, sent: seq<seq<byte>>): Script {
      Script(Cr(), PubC(), k.a, k.i, [Cr().sign(k.hc, privC), DocC()] + sent)
    }

    function ToClient(k: Keys, sent: seq<seq<byte>>): Script {
      Script(Cr(), PubS(), k.b, k.j, [Cr().sign(k.hs, privS), DocS()] + sent)
    }
  }

  /** Key and first IV of each direction, the client's first, and the two hashes. */
  datatype Keys = Keys(a: seq<byte>, i: Iv12, b: seq<byte>, j: Iv12, hc: seq<byte>, hs: seq<byte>)

  function KeysOf(cr: Crypto, secret: seq<byte>): Keys
    requires |secret| == DH_LEN
  {
    Keys(secret[..16], secret[16..28], secret[32..48], secret[48..60],
         cr.hash(CLIENT_STR + secret), cr.hash(SERVER_STR + secret))
  }

  /** Both ends derive the same material, crosswise. */
  lemma SecretGivesKeys(cr: Crypto, c: Session, secret: seq<byte>)
    requires |secret| == DH_LEN
    ensures var k := KeysOf(cr, secret);
            && WithSecret(cr, c, secret, true) ==
               c.(keyOut := k.a, ivOut := k.i, keyIn := k.b, ivIn := k.j, clientHash := k.hc, serverHash := k.hs)
            && WithSecret(cr, c, secret, false) ==
               c.(keyOut := k.b, ivOut := k.j, keyIn := k.a, ivIn := k.i, clientHash := k.hc, serverHash := k.hs)
  {
  }

  function HostOf(env: Env, doc: seq<byte>): seq<byte> {
    match env.hostOf(doc) case Some(h) => h case None => []
  }

  /** One direction: a public value in the clear, then messages sealed with consecutive IVs. */
  datatype Script = Script(cr: Crypto, first: seq<byte>, key: seq<byte>, iv: Iv12, plains: seq<seq<byte>>)
  {
    function Length(): nat { 1 + |plains| }

    function At(i: nat): seq<byte>
      requires i < Length()
    {
      if i == 0 then first else Seal(cr, key, Iv(iv, i - 1), plains[i - 1])
    }

    /** The bytes of the frames from number `a` up to number `b`. */
    function Range(a: nat, b: nat): seq<byte>
      requires a <= b <= Length()
      decreases b - a
    {
      if a == b then [] else Frame(At(a)) + Range(a + 1, b)
    }
  }

  lemma {:induction false} RangeSplits(sc: Script, a: nat, b: nat, c: nat)
    requires a <= b <= c <= sc.Length()
    ensures sc.Range(a, c) == sc.Range(a, b) + sc.Range(b, c)
    decreases b - a
  {
    if a < b {
      RangeSplits(sc, a + 1, b, c);
      var x := Frame(sc.At(a));
      assert sc.Range(a, c) == x + sc.Range(a + 1, c);
      assert sc.Range(a, b) == x + sc.Range(a + 1, b);
      AssocConcat(x, sc.Range(a + 1, b), sc.Range(b, c));
    } else {
      assert [] + sc.Range(b, c) == sc.Range(b, c);
    }
  }

  lemma {:induction false} RangeIsStable(sc: Script, m: seq<byte>, a: nat, b: nat)
    requires a <= b <= sc.Length()
    ensures sc.(plains := sc.plains + [m]).Range(a, b) == sc.Range(a, b)
    decreases b - a
  {
    if a < b {
      RangeIsStable(sc, m, a + 1, b);
      FrameIsStable(sc, m, a);
    }
  }

  lemma FrameIsStable(sc: Script, m: seq<byte>, i: nat)
    requires i < sc.Length()
    ensures sc.(plains := sc.plains + [m]).At(i) == sc.At(i)
  {
  }

  // What each side does with the next frame ---------------------------------------------------

  lemma Opens(cr: Crypto, c: Session, m: seq<byte>, limit: int)
    requires Lawful(cr) && |m| <= limit
    ensures |Seal(cr, c.keyIn, c.ivIn, m)| == |m| + TAG_LEN
    ensures Decrypt(cr, c, Seal(cr, c.keyIn, c.ivIn, m), limit) == Some(m)
  {
    var e := cr.encrypt(c.keyIn, c.ivIn, m);
    var p := e.0 + e.1;
    assert p[..|m|] == e.0 && p[|m|..] == e.1;
    assert cr.decrypt(c.keyIn, c.ivIn, e.0) == (m, e.1);
  }

  lemma IvSteps(iv: Iv12)
    ensures Iv(iv, 0) == iv && Iv(iv, 1) == NextIv(iv) && Iv(iv, 2) == NextIv(Iv(iv, 1))
  {
  }

  predicate Alive(ctx: ContextState) { ctx == InMaking || ctx == Connected }

  // The handlers when nothing goes wrong -------------------------------------------------------

  lemma ClientVerifySucceeds(env: Env, c: Session, payload: seq<byte>, privkey: seq<byte>, sig: seq<byte>,
                             pubkey: seq<byte>)
    requires env.priv(c.luid) == Some(privkey) && CanSend(env, c) && !c.friend
    requires Decrypt(env.cr, c, payload, SIGNATURE_LEN) == Some(sig) && InBuffer(sig, env.junk) == sig
    requires env.pub(c.ruid) == Some(pubkey) && env.cr.verify(sig, c.serverHash, pubkey)
    ensures ClientVerify(env, c, payload) ==
            Go(c.(ivOut := NextIv(c.ivOut), ivIn := NextIv(c.ivIn), proto := Handshake),
               [Sent(Frame(Seal(env.cr, c.keyOut, c.ivOut, env.cr.sign(c.clientHash, privkey)))),
                Verified(c.ruid, c.serverHash, sig, pubkey)])
  {
  }

  lemma ClientHandshakeSucceeds(env: Env, c: Session, payload: seq<byte>, doc: seq<byte>)
    requires CanSend(env, c) && !c.friend
    requires Decrypt(env.cr, c, payload, HANDSHAKE_BUFFER) == Some(doc)
    requires env.hostOf(doc).Some? && !env.bannedTrue(doc)
    ensures ClientHandshake(env, c, payload) ==
            Go(c.(ivOut := NextIv(c.ivOut), ivIn := NextIv(c.ivIn), rhid := env.hostOf(doc).value, proto := Running),
               [Sent(Frame(Seal(env.cr, c.keyOut, c.ivOut, env.handshakeDoc(c.ruid, false)))), NewCoreConnection])
  {
  }

  lemma ServerFinishDHSucceeds(env: Env, c: Session, payload: seq<byte>, secret: seq<byte>, privkey: seq<byte>)
    requires c.dhm.Some? && env.cr.dhSecret(c.dhm.value, payload) == Some(secret) && |secret| == DH_LEN
    requires env.priv(c.luid) == Some(privkey) && CanSend(env, c)
    ensures var k := WithSecret(env.cr, c, secret, false).(dhm := None);
            ServerFinishDH(env, c, payload) ==
            Go(k.(ivOut := NextIv(k.ivOut), proto := ServerVerifyClientHash),
               [Sent(Frame(Seal(env.cr, k.keyOut, k.ivOut, env.cr.sign(k.serverHash, privkey))))])
  {
  }

  lemma ServerVerifySucceeds(env: Env, c: Session, payload: seq<byte>, sig: seq<byte>, pubkey: seq<byte>)
    requires CanSend(env, c) && !c.friend
    requires Decrypt(env.cr, c, payload, SIGNATURE_LEN) == Some(sig) && InBuffer(sig, env.junk) == sig
    requires env.pub(c.ruid) == Some(pubkey) && env.cr.verify(sig, c.clientHash, pubkey)
    ensures ServerVerify(env, c, payload) ==
            Go(c.(ivOut := NextIv(c.ivOut), ivIn := NextIv(c.ivIn), proto := ServerReadReply),
               [Verified(c.ruid, c.clientHash, sig, pubkey),
                Sent(Frame(Seal(env.cr, c.keyOut, c.ivOut, env.handshakeDoc(c.ruid, false))))])
  {
  }

  lemma ServerReplySucceeds(env: Env, c: Session, payload: seq<byte>, doc: seq<byte>)
    requires !c.friend && Decrypt(env.cr, c, payload, |payload|) == Some(doc)
    requires env.hostOf(doc).Some? && !env.bannedPresent(doc)
    ensures ServerReply(env, c, payload) ==
            Go(c.(ivIn := NextIv(c.ivIn), rhid := env.hostOf(doc).value, proto := Running), [NewCoreConnection])
  {
  }

  // What each side does with the next frame ------------------------------------------------------

  function SentBytes(out: seq<Output>): seq<byte> {
    if out == [] then []
    else (if out[0].Sent? then out[0].bytes else []) + SentBytes(out[1..])
  }

  function Handed(out: seq<Output>): seq<seq<byte>> {
    if out == [] then []
    else (if out[0].Delivered? then [out[0].plaintext] else []) + Handed(out[1..])
  }

  lemma OneEffect(o: Output)
    ensures SentBytes([o]) == (if o.Sent? then o.bytes else [])
    ensures Handed([o]) == (if o.Delivered? then [o.plaintext] else [])
  {
    assert SentBytes([]) == [] && Handed([]) == [];
  }

  lemma TwoEffects(a: Output, b: Output)
    ensures SentBytes([a, b]) == (if a.Sent? then a.bytes else []) + (if b.Sent? then b.bytes else [])
    ensures Handed([a, b]) ==
            (if a.Delivered? then [a.plaintext] else []) + (if b.Delivered? then [b.plaintext] else [])
  {
    assert [a, b][1..] == [b];
    OneEffect(b);
  }

  /** Taking a frame leads to the next state, sends these bytes and hands up these messages. */
  ghost predicate Takes(o: Outcome, next: Session, sent: seq<byte>, handed: seq<seq<byte>>) {
    !o.closed && o.s == next && SentBytes(o.out) == sent && Handed(o.out) == handed
  }

  lemma ClientTakesKey(su: Setup, ctx: ContextState)
    requires su.Honest()
    ensures Takes(ClientDH(su.envC, su.ClientAt(su.Keys(), 0, 0, ctx), su.PubS()),
                  su.ClientAt(su.Keys(), 1, 0, ctx), Frame(su.PubC()), [])
  {
    var c := su.ClientAt(su.Keys(), 0, 0, ctx);
    SecretGivesKeys(su.Cr(), c, su.Secret());
    var o := ClientDH(su.envC, c, su.PubS());
    assert o.out == [Sent(Frame(su.PubC()))];
    OneEffect(Sent(Frame(su.PubC())));
  }

  lemma ClientTakesSignature(su: Setup, k: Keys, ctx: ContextState)
    requires su.Honest() && Alive(ctx)
    ensures Takes(ClientVerify(su.envC, su.ClientAt(k, 1, 0, ctx),
                               Seal(su.Cr(), k.b, k.j, su.Cr().sign(k.hs, su.privS))),
                  su.ClientAt(k, 2, 0, ctx), Frame(Seal(su.Cr(), k.a, k.i, su.Cr().sign(k.hc, su.privC))), [])
  {
    var c := su.ClientAt(k, 1, 0, ctx);
    var sig, pubkey := su.Cr().sign(k.hs, su.privS), su.Cr().pubOf(su.privS);
    IvSteps(k.i);
    IvSteps(k.j);
    Opens(su.Cr(), c, sig, SIGNATURE_LEN);
    ClientVerifySucceeds(su.envC, c, Seal(su.Cr(), k.b, k.j, sig), su.privC, sig, pubkey);
    TwoEffects(Sent(Frame(Seal(su.Cr(), k.a, k.i, su.Cr().sign(k.hc, su.privC)))),
               Verified(c.ruid, c.serverHash, sig, pubkey));
  }

  lemma ClientTakesHandshake(su: Setup, k: Keys, ctx: ContextState)
    requires su.Honest() && Alive(ctx)
    ensures Takes(ClientHandshake(su.envC, su.ClientAt(k, 2, 0, ctx), Seal(su.Cr(), k.b, Iv(k.j, 1), su.DocS())),
                  su.ClientAt(k, 3, 0, ctx), Frame(Seal(su.Cr(), k.a, Iv(k.i, 1), su.DocC())), [])
  {
    var c := su.ClientAt(k, 2, 0, ctx);
    IvSteps(k.i);
    IvSteps(k.j);
    Opens(su.Cr(), c, su.DocS(), HANDSHAKE_BUFFER);
    ClientHandshakeSucceeds(su.envC, c, Seal(su.Cr(), k.b, Iv(k.j, 1), su.DocS()), su.DocS());
    TwoEffects(Sent(Frame(Seal(su.Cr(), k.a, Iv(k.i, 1), su.DocC()))), NewCoreConnection);
  }

  lemma TakesMessage(env: Env, c: Session, m: seq<byte>)
    requires Lawful(env.cr)
    ensures Takes(Run(env, c, Seal(env.cr, c.keyIn, c.ivIn, m)), c.(ivIn := NextIv(c.ivIn)), [], [m])
  {
    Opens(env.cr, c, m, |m|);
    OneEffect(Delivered(m));
  }

  lemma ServerTakesKey(su: Setup, ctx: ContextState)
    requires su.Honest() && Alive(ctx)
    ensures var k := su.Keys();
            Takes(ServerFinishDH(su.envS, su.ServerAt(k, 0, 0, ctx), su.PubC()),
                  su.ServerAt(k, 1, 0, ctx), Frame(Seal(su.Cr(), k.b, k.j, su.Cr().sign(k.hs, su.privS))), [])
  {
    var k, s := su.Keys(), su.ServerAt(su.Keys(), 0, 0, ctx);
    SecretGivesKeys(su.Cr(), s, su.Secret());
    ServerFinishDHSucceeds(su.envS, s, su.PubC(), su.Secret(), su.privS);
    IvSteps(k.j);
    IvSteps(k.i);
    OneEffect(Sent(Frame(Seal(su.Cr(), k.b, k.j, su.Cr().sign(k.hs, su.privS)))));
  }

  lemma ServerTakesSignature(su: Setup, k: Keys, ctx: ContextState)
    requires su.Honest() && Alive(ctx)
    ensures Takes(ServerVerify(su.envS, su.ServerAt(k, 1, 0, ctx),
                               Seal(su.Cr(), k.a, k.i, su.Cr().sign(k.hc, su.privC))),
                  su.ServerAt(k, 2, 0, ctx), Frame(Seal(su.Cr(), k.b, Iv(k.j, 1), su.DocS())), [])
  {
    var s := su.ServerAt(k, 1, 0, ctx);
    var sig, pubkey := su.Cr().sign(k.hc, su.privC), su.Cr().pubOf(su.privC);
    IvSteps(k.i);
    IvSteps(k.j);
    Opens(su.Cr(), s, sig, SIGNATURE_LEN);
    ServerVerifySucceeds(su.envS, s, Seal(su.Cr(), k.a, k.i, sig), sig, pubkey);
    TwoEffects(Verified(s.ruid, s.clientHash, sig, pubkey), Sent(Frame(Seal(su.Cr(), k.b, Iv(k.j, 1), su.DocS()))));
  }

  lemma ServerTakesHandshake(su: Setup, k: Keys, ctx: ContextState)
    requires su.Honest() && Alive(ctx)
    ensures Takes(ServerReply(su.envS, su.ServerAt(k, 2, 0, ctx), Seal(su.Cr(), k.a, Iv(k.i, 1), su.DocC())),
                  su.ServerAt(k, 3, 0, ctx), [], [])
  {
    var s := su.ServerAt(k, 2, 0, ctx);
    IvSteps(k.i);
    Opens(su.Cr(), s, su.DocC(), |su.DocC()| + TAG_LEN);
    ServerReplySucceeds(su.envS, s, Seal(su.Cr(), k.a, Iv(k.i, 1), su.DocC()), su.DocC());
    OneEffect(NewCoreConnection);
  }

  /** One step of each side, by the number of frames it has taken. */
  function ClientSends(su: Setup, k: Keys, taken: nat): seq<byte> {
    if taken < 3 then Frame(su.ToServer(k, []).At(taken)) else []
  }

  function ServerSends(su: Setup, k: Keys, taken: nat): seq<byte> {
    if taken < 2 then Frame(su.ToClient(k, []).At(taken + 1)) else []
  }

  function HandsUp(sent: seq<seq<byte>>, taken: nat): seq<seq<byte>> {
    if 3 <= taken < 3 + |sent| then [sent[taken - 3]] else []
  }

  lemma ScriptStart(su: Setup, k: Keys, sent: seq<seq<byte>>)
    ensures su.ToServer(k, sent).At(1) == Seal(su.Cr(), k.a, k.i, su.Cr().sign(k.hc, su.privC))
    ensures su.ToServer(k, sent).At(2) == Seal(su.Cr(), k.a, Iv(k.i, 1), su.DocC())
    ensures su.ToClient(k, sent).At(1) == Seal(su.Cr(), k.b, k.j, su.Cr().sign(k.hs, su.privS))
    ensures su.ToClient(k, sent).At(2) == Seal(su.Cr(), k.b, Iv(k.j, 1), su.DocS())
  {
    IvSteps(k.i);
    IvSteps(k.j);
  }

  ghost predicate ClientObeys(su: Setup, k: Keys, taken: nat, n: nat, sent: seq<seq<byte>>, ctx: ContextState)
    requires taken < 3 + |sent|
  {
    Takes(HandlePayload(su.envC, su.ClientAt(k, taken, n, ctx), su.ToClient(k, sent).At(taken)),
          su.ClientAt(k, taken + 1, n, ctx), ClientSends(su, k, taken), HandsUp(sent, taken))
  }

  ghost predicate ServerObeys(su: Setup, k: Keys, taken: nat, n: nat, sent: seq<seq<byte>>, ctx: ContextState)
    requires taken < 3 + |sent|
  {
    Takes(HandlePayload(su.envS, su.ServerAt(k, taken, n, ctx), su.ToServer(k, sent).At(taken)),
          su.ServerAt(k, taken + 1, n, ctx), ServerSends(su, k, taken), HandsUp(sent, taken))
  }

  lemma ClientObeysSignature(su: Setup, k: Keys, sent: seq<seq<byte>>, ctx: ContextState)
    requires su.Honest() && Alive(ctx)
    ensures ClientObeys(su, k, 1, 0, sent, ctx)
  {
    ScriptStart(su, k, sent);
    ScriptStart(su, k, []);
    ClientTakesSignature(su, k, ctx);
  }

  lemma ClientObeysHandshake(su: Setup, k: Keys, sent: seq<seq<byte>>, ctx: ContextState)
    requires su.Honest() && Alive(ctx)
    ensures ClientObeys(su, k, 2, 0, sent, ctx)
  {
    ScriptStart(su, k, sent);
    ScriptStart(su, k, []);
    ClientTakesHandshake(su, k, ctx);
  }

  /** A running client expects exactly the key and the counter of the next frame. */
  lemma ClientRuns(su: Setup, k: Keys, taken: nat, n: nat, sent: seq<seq<byte>>, ctx: ContextState)
    requires 3 <= taken < 3 + |sent|
    ensures var c := su.ClientAt(k, taken, n, ctx);
            && c.proto == Running
            && su.ToClient(k, sent).At(taken) == Seal(su.Cr(), c.keyIn, c.ivIn, sent[taken - 3])
            && su.ClientAt(k, taken + 1, n, ctx) == c.(ivIn := NextIv(c.ivIn))
  {
    var sc := su.ToClient(k, sent);
    assert sc.plains[taken - 1] == sent[taken - 3];
    assert Iv(k.j, taken) == NextIv(Iv(k.j, taken - 1));
  }

  lemma ClientObeysMessage(su: Setup, k: Keys, taken: nat, n: nat, sent: seq<seq<byte>>, ctx: ContextState)
    requires su.Honest() && 3 <= taken < 3 + |sent|
    ensures ClientObeys(su, k, taken, n, sent, ctx)
  {
    ClientRuns(su, k, taken, n, sent, ctx);
    var c := su.ClientAt(k, taken, n, ctx);
    TakesMessage(su.envC, c, sent[taken - 3]);
    var p := su.ToClient(k, sent).At(taken);
    assert HandlePayload(su.envC, c, p) == Run(su.envC, c, p);
  }

  lemma ServerObeysSignature(su: Setup, k: Keys, sent: seq<seq<byte>>, ctx: ContextState)
    requires su.Honest() && Alive(ctx)
    ensures ServerObeys(su, k, 1, 0, sent, ctx)
  {
    ScriptStart(su, k, sent);
    ScriptStart(su, k, []);
    ServerTakesSignature(su, k, ctx);
  }

  lemma ServerObeysHandshake(su: Setup, k: Keys, sent: seq<seq<byte>>, ctx: ContextState)
    requires su.Honest() && Alive(ctx)
    ensures ServerObeys(su, k, 2, 0, sent, ctx)
  {
    ScriptStart(su, k, sent);
    ServerTakesHandshake(su, k, ctx);
  }

  /** A running server expects exactly the key and the counter of the next frame. */
  lemma ServerRuns(su: Setup, k: Keys, taken: nat, n: nat, sent: seq<seq<byte>>, ctx: ContextState)
    requires 3 <= taken < 3 + |sent|
    ensures var c := su.ServerAt(k, taken, n, ctx);
            && c.proto == Running
            && su.ToServer(k, sent).At(taken) == Seal(su.Cr(), c.keyIn, c.ivIn, sent[taken - 3])
            && su.ServerAt(k, taken + 1, n, ctx) == c.(ivIn := NextIv(c.ivIn))
  {
    var sc := su.ToServer(k, sent);
    assert sc.plains[taken - 1] == sent[taken - 3];
    assert Iv(k.i, taken) == NextIv(Iv(k.i, taken - 1));
  }

  lemma ServerObeysMessage(su: Setup, k: Keys, taken: nat, n: nat, sent: seq<seq<byte>>, ctx: ContextState)
    requires su.Honest() && 3 <= taken < 3 + |sent|
    ensures ServerObeys(su, k, taken, n, sent, ctx)
  {
    ServerRuns(su, k, taken, n, sent, ctx);
    var c := su.ServerAt(k, taken, n, ctx);
    TakesMessage(su.envS, c, sent[taken - 3]);
    var p := su.ToServer(k, sent).At(taken);
    assert HandlePayload(su.envS, c, p) == Run(su.envS, c, p);
  }

  /** The client takes any next frame of the server's script as it should. */
  lemma ClientTakes(su: Setup, taken: nat, n: nat, sent: seq<seq<byte>>, ctx: ContextState)
    requires su.Honest() && Alive(ctx) && taken < 3 + |sent| && (taken < 3 ==> n == 0)
    ensures ClientObeys(su, su.Keys(), taken, n, sent, ctx)
  {
    if taken == 0 {
      ClientTakesKey(su, ctx);
    } else if taken == 1 {
      ClientObeysSignature(su, su.Keys(), sent, ctx);
    } else if taken == 2 {
      ClientObeysHandshake(su, su.Keys(), sent, ctx);
    } else {
      ClientObeysMessage(su, su.Keys(), taken, n, sent, ctx);
    }
  }

  lemma ServerObeysKey(su: Setup, sent: seq<seq<byte>>, ctx: ContextState)
    requires su.Honest() && Alive(ctx)
    ensures ServerObeys(su, su.Keys(), 0, 0, sent, ctx)
  {
    ScriptStart(su, su.Keys(), []);
    ServerTakesKey(su, ctx);
  }

  /** The server takes any next frame of the client's script as it should. */
  lemma ServerTakes(su: Setup, taken: nat, n: nat, sent: seq<seq<byte>>, ctx: ContextState)
    requires su.Honest() && Alive(ctx) && taken < 3 + |sent| && (taken < 3 ==> n == 0)
    ensures ServerObeys(su, su.Keys(), taken, n, sent, ctx)
  {
    if taken == 0 {
      ServerObeysKey(su, sent, ctx);
    } else if taken == 1 {
      ServerObeysSignature(su, su.Keys(), sent, ctx);
    } else if taken == 2 {
      ServerObeysHandshake(su, su.Keys(), sent, ctx);
    } else {
      ServerObeysMessage(su, su.Keys(), taken, n, sent, ctx);
    }
  }

  /** The assumptions can be met: a cipher that hides nothing obeys the laws too. */
  function Plain(): Crypto {
    Crypto((k, iv, m) => (m, Zeroes(TAG_LEN)), (k, iv, c) => (c, Zeroes(TAG_LEN)), x => Zeroes(DH_LEN), p => true,
           (x, p) => Some(Zeroes(DH_LEN)), m => m, (m, k) => Zeroes(SIGNATURE_LEN), (s, m, p) => true, k => k)
  }

  lemma HonestCoresExist()
    ensures exists su: Setup :: su.Honest()
  {
    var env := Env(Plain(), u => Some([]), u => Some([]), (r, f) => [], d => Some([]), d => false, d => false,
                   0, [], [], true);
    var su := Setup(env, env, ZERO_ID, ZERO_ID, [], []);
    assert Lawful(env.cr);
    assert su.Honest();
  }
}
