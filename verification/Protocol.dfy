/** The connection protocol of src/wish_connection.c as a state machine on values. */
module Protocol {
  import opened Basics
  import opened Bytes
  import opened Nonce

  datatype ContextState = Free | InMaking | Connected | Closing

  datatype TransportState =
    | TransportInitial
    | WaitFrameLen
    | WaitPayload
    | ServerWaitInitial
    | RelaySendSessionId
    | Connecting
    | Resolving

  datatype ProtocolState =
    | ProtoInitial
    | DH
    | SendClientHash
    | Handshake
    | Running
    | ServerDH
    | ServerVerifyClientHash
    | ServerSendHandshake
    | ServerReadReply

  const TAG_LEN: nat := 16
  const SIGNATURE_LEN: nat := 64
  const DH_LEN: nat := 384
  const HELLO_LEN: nat := 67
  /** The client's buffer for the server's handshake document. */
  const HANDSHAKE_BUFFER: nat := 256

  const WIRE_VERSION: nat := 1
  const TYPE_NORMAL: nat := 1
  const TYPE_FRIEND_REQ: nat := 3
  const TYPE_RELAY_SESSION: nat := 7

  const ZERO_ID: seq<byte> := Zeroes(ID_LEN)
  const ZERO_KEY: seq<byte> := Zeroes(16)
  const ZERO_IV: Iv12 := [0, 0, 0, 0, 0, 0, 0, 0, 0, 0, 0, 0]

  /** What handling a payload can see and change of a slot. */
  datatype Session = Session(
    ctx: ContextState,
    proto: ProtocolState,
    luid: seq<byte>,
    ruid: seq<byte>,
    rhid: seq<byte>,
    keyIn: seq<byte>,
    keyOut: seq<byte>,
    ivIn: Iv12,
    ivOut: Iv12,
    dhm: Option<int>,
    clientHash: seq<byte>,
    serverHash: seq<byte>,
    outgoing: bool,
    friend: bool
  )

  /** One slot of the connection pool: the session, and the framing of its input. */
  datatype Conn = Conn(s: Session, transport: TransportState, expectBytes: nat, cap: nat, rx: seq<byte>)

  /** A slot after it has been closed: everything is zero. */
  const FREE_SESSION: Session :=
    Session(Free, ProtoInitial, ZERO_ID, ZERO_ID, ZERO_ID, ZERO_KEY, ZERO_KEY, ZERO_IV, ZERO_IV,
            None, ZERO_ID, ZERO_ID, false, false)

  const FREE_SLOT: Conn := Conn(FREE_SESSION, WaitFrameLen, 0, 0, [])

  /** Foreign functions. */
  datatype Crypto = Crypto(
    encrypt: (seq<byte>, Iv12, seq<byte>) -> (seq<byte>, seq<byte>),
    decrypt: (seq<byte>, Iv12, seq<byte>) -> (seq<byte>, seq<byte>),
    dhPublic: int -> seq<byte>,
    dhReadable: seq<byte> -> bool,
    dhSecret: (int, seq<byte>) -> Option<seq<byte>>,
    hash: seq<byte> -> seq<byte>,
    sign: (seq<byte>, seq<byte>) -> seq<byte>,
    verify: (seq<byte>, seq<byte>, seq<byte>) -> bool,
    pubOf: seq<byte> -> seq<byte>
  )

  /** What a step sees of the rest of the core: identity database, documents, randomness, the
      leftover bytes of a stack buffer, and whether the port could send. */
  datatype Env = Env(
    cr: Crypto,
    pub: seq<byte> -> Option<seq<byte>>,
    priv: seq<byte> -> Option<seq<byte>>,
    handshakeDoc: (seq<byte>, bool) -> seq<byte>,
    hostOf: seq<byte> -> Option<seq<byte>>,
    bannedTrue: seq<byte> -> bool,
    bannedPresent: seq<byte> -> bool,
    exponent: int,
    relaySession: seq<byte>,
    junk: seq<byte>,
    sendOk: bool
  )

  /** The visible effects of a step, in order; and each frame, with the session that takes it. */
  datatype Output =
    | Sent(bytes: seq<byte>)
    | Payload(frame: seq<byte>, taker: Session)
    | Verified(ruid: seq<byte>, hash: seq<byte>, signature: seq<byte>, pubkey: seq<byte>)
    | Delivered(plaintext: seq<byte>)
    | NewCoreConnection
    | FriendRequest
    | Closed

  /** Frames are logged by the loop around the handlers, never by a handler. */
  predicate NoPayload(out: seq<Output>) { forall i :: 0 <= i < |out| ==> !out[i].Payload? }

  /** The outcome for a session; a closed one also empties the slot around it. */
  datatype Outcome = Outcome(s: Session, out: seq<Output>, closed: bool)

  function Go(s: Session, out: seq<Output>): Outcome { Outcome(s, out, false) }

  function Close(out: seq<Output>): Outcome { Outcome(FREE_SESSION, out + [Closed], true) }

  datatype Result = Result(conn: Conn, out: seq<Output>)

  function Raw(env: Env, bytes: seq<byte>): (out: seq<Output>)
    ensures NoPayload(out)
  {
    if env.sendOk then [Sent(bytes)] else []
  }

  // Sealed messages ------------------------------------------------------------------------

  function Seal(cr: Crypto, key: seq<byte>, iv: Iv12, m: seq<byte>): seq<byte> {
    cr.encrypt(key, iv, m).0 + cr.encrypt(key, iv, m).1
  }

  function CanSend(env: Env, c: Session): bool {
    c.ctx != Free && c.ctx != Closing && env.sendOk
  }

  /** wish_core_send_message: the frame goes out and the counter moves, or neither. */
  function SendMessage(env: Env, c: Session, m: seq<byte>): (r: Outcome)
    ensures NoPayload(r.out)
  {
    if CanSend(env, c) then
      Go(c.(ivOut := NextIv(c.ivOut)), [Sent(Frame(Seal(env.cr, c.keyOut, c.ivOut, m)))])
    else Go(c, [])
  }

  /** wish_core_decrypt into a buffer of `limit` bytes. */
  function Decrypt(cr: Crypto, c: Session, payload: seq<byte>, limit: int): Option<seq<byte>> {
    if |payload| < TAG_LEN || |payload| - TAG_LEN > limit then None
    else
      var n := |payload| - TAG_LEN;
      var d := cr.decrypt(c.keyIn, c.ivIn, payload[..n]);
      if payload[n..] == d.1 then Some(d.0) else None
  }

  /** A short message in a fixed buffer leaves the buffer's old bytes behind it. */
  function InBuffer(m: seq<byte>, junk: seq<byte>): seq<byte> {
    if |m| <= |junk| then m + junk[|m|..] else m
  }

  const CLIENT_STR: seq<byte> := [99, 108, 105, 101, 110, 116]
  const SERVER_STR: seq<byte> := [115, 101, 114, 118, 101, 114]

  /** Both hashes, and the key material that is the same on both ends. */
  function WithSecret(cr: Crypto, c: Session, secret: seq<byte>, client: bool): Session
    requires |secret| == DH_LEN
  {
    var a, b := secret[..16], secret[32..48];
    var i, j: Iv12 := secret[16..28], secret[48..60];
    c.(keyOut := if client then a else b, keyIn := if client then b else a,
       ivOut := if client then i else j, ivIn := if client then j else i,
       clientHash := cr.hash(CLIENT_STR + secret), serverHash := cr.hash(SERVER_STR + secret))
  }

  // One payload ------------------------------------------------------------------------------

  function ClientDH(env: Env, c: Session, payload: seq<byte>): (r: Outcome)
    ensures NoPayload(r.out)
  {
    if !env.cr.dhReadable(payload) then Close([])
    else
      var out := Raw(env, Frame(env.cr.dhPublic(env.exponent)));
      match env.cr.dhSecret(env.exponent, payload)
      case None => Close(out)
      case Some(secret) =>
        if |secret| != DH_LEN then Close(out)
        else Go(WithSecret(env.cr, c, secret, true).(proto := SendClientHash), out)
  }

  function ClientVerify(env: Env, c: Session, payload: seq<byte>): (r: Outcome)
    ensures NoPayload(r.out)
  {
    match env.priv(c.luid)
    case None => Close([])
    case Some(privkey) =>
      var s := SendMessage(env, c, env.cr.sign(c.clientHash, privkey));
      match Decrypt(env.cr, s.s, payload, SIGNATURE_LEN)
      case None => Close(s.out)
      case Some(m) =>
        var c1 := s.s.(ivIn := NextIv(s.s.ivIn));
        if c.friend then Go(c1.(proto := Handshake), s.out)
        else match env.pub(c.ruid)
          case None => Close(s.out)
          case Some(pubkey) =>
            var sig := InBuffer(m, env.junk);
            if env.cr.verify(sig, c.serverHash, pubkey)
            then Go(c1.(proto := Handshake), s.out + [Verified(c.ruid, c.serverHash, sig, pubkey)])
            else Close(s.out)
  }

  /** wish_core_process_handshake: takes the host id and answers with the own document. */
  function ProcessHandshake(env: Env, c: Session, doc: seq<byte>): (r: Outcome)
    ensures NoPayload(r.out)
  {
    match env.hostOf(doc)
    case None => Go(c, [])
    case Some(host) => SendMessage(env, c.(rhid := host), env.handshakeDoc(c.ruid, c.friend))
  }

  function ClientHandshake(env: Env, c: Session, payload: seq<byte>): (r: Outcome)
    ensures NoPayload(r.out)
  {
    match Decrypt(env.cr, c, payload, HANDSHAKE_BUFFER)
    case None => Close([])
    case Some(doc) =>
      var p := ProcessHandshake(env, c.(ivIn := NextIv(c.ivIn)), doc);
      var c1 := p.s.(proto := Running);
      if c.friend then Go(c1.(ctx := Connected), p.out + [FriendRequest])
      else if env.bannedTrue(doc) then Close(p.out)
      else Go(c1, p.out + [NewCoreConnection])
  }

  function Run(env: Env, c: Session, payload: seq<byte>): (r: Outcome)
    ensures NoPayload(r.out)
  {
    match Decrypt(env.cr, c, payload, |payload| - TAG_LEN)
    case None => Close([])
    case Some(m) => Go(c.(ivIn := NextIv(c.ivIn)), [Delivered(m)])
  }

  function ServerFinishDH(env: Env, c: Session, payload: seq<byte>): (r: Outcome)
    ensures NoPayload(r.out)
  {
    var secret := if c.dhm.None? then None else env.cr.dhSecret(c.dhm.value, payload);
    if secret.None? || |secret.value| != DH_LEN then Close([])
    else
      var c1 := WithSecret(env.cr, c, secret.value, false).(dhm := None);
      match env.priv(c.luid)
      case None => Close([])
      case Some(privkey) =>
        var s := SendMessage(env, c1, env.cr.sign(c1.serverHash, privkey));
        Go(s.s.(proto := ServerVerifyClientHash), s.out)
  }

  function ServerVerify(env: Env, c: Session, payload: seq<byte>): (r: Outcome)
    ensures NoPayload(r.out)
  {
    match Decrypt(env.cr, c, payload, SIGNATURE_LEN)
    case None => Close([])
    case Some(m) =>
      var c1 := c.(ivIn := NextIv(c.ivIn));
      if c.friend then ServerHandshake(env, c1.(proto := ServerSendHandshake), [])
      else match env.pub(c.ruid)
        case None => Close([])
        case Some(pubkey) =>
          var sig := InBuffer(m, env.junk);
          if env.cr.verify(sig, c.clientHash, pubkey)
          then ServerHandshake(env, c1.(proto := ServerSendHandshake), [Verified(c.ruid, c.clientHash, sig, pubkey)])
          else Close([])
  }

  /** Reached by falling through from the verification, or again after a failed send. */
  function ServerHandshake(env: Env, c: Session, out: seq<Output>): (r: Outcome)
    requires NoPayload(out)
    ensures NoPayload(r.out)
  {
    if CanSend(env, c) then
      var s := SendMessage(env, c, env.handshakeDoc(c.ruid, c.friend));
      Go(s.s.(proto := ServerReadReply), out + s.out)
    else Go(c, out)
  }

  function ServerReply(env: Env, c: Session, payload: seq<byte>): (r: Outcome)
    ensures NoPayload(r.out)
  {
    match Decrypt(env.cr, c, payload, |payload|)
    case None => Close([])
    case Some(doc) =>
      var c1 := c.(ivIn := NextIv(c.ivIn));
      match env.hostOf(doc)
      case None => Go(c1, [])
      case Some(host) =>
        var c2 := c1.(rhid := host);
        if env.bannedPresent(doc) then Close([])
        else Go(c2.(proto := Running), if c.friend then [] else [NewCoreConnection])
  }

  /** wish_core_handle_payload */
  function HandlePayload(env: Env, c: Session, payload: seq<byte>): (r: Outcome)
    ensures NoPayload(r.out)
  {
    match c.proto
    case DH => ClientDH(env, c, payload)
    case SendClientHash => ClientVerify(env, c, payload)
    case Handshake => ClientHandshake(env, c, payload)
    case Running => Run(env, c, payload)
    case ServerDH => ServerFinishDH(env, c, payload)
    case ServerVerifyClientHash => ServerVerify(env, c, payload)
    case ServerSendHandshake => ServerHandshake(env, c, [])
    case ServerReadReply => ServerReply(env, c, payload)
    case ProtoInitial => Go(c, [])
  }

  // The client's hello -------------------------------------------------------------------------

  function Hello(ty: nat, dst: seq<byte>, src: seq<byte>): seq<byte> {
    [87, 46, (WIRE_VERSION * 16 + ty) % 256] + dst + src
  }

  /** wish_core_check_wsid */
  predicate KnownIds(env: Env, dst: seq<byte>, src: seq<byte>) {
    env.pub(src).Some? && env.pub(dst).Some? && env.priv(dst).Some?
  }

  function ServerHello(env: Env, c: Session, buf: seq<byte>): (r: Outcome)
    requires |buf| == HELLO_LEN
    ensures NoPayload(r.out)
  {
    if buf[0] != 87 || buf[1] != 46 || buf[2] / 16 != WIRE_VERSION then Close([])
    else if buf[2] % 16 != TYPE_NORMAL && buf[2] % 16 != TYPE_FRIEND_REQ then Close([])
    else
      var friend := c.friend || buf[2] % 16 == TYPE_FRIEND_REQ;
      var dst, src := buf[3..3 + ID_LEN], buf[3 + ID_LEN..];
      if !friend && !KnownIds(env, dst, src) then Close([])
      else Go(c.(friend := friend, luid := dst, ruid := src, dhm := Some(env.exponent), proto := ServerDH),
              Raw(env, Frame(env.cr.dhPublic(env.exponent))))
  }

  // Consuming the ring buffer --------------------------------------------------------------------

  /** What the framing loop calls: the handler of payloads, that of the hello, and what is sent
      first on a relayed connection. */
  datatype Machine = Machine(
    handle: (Session, seq<byte>) -> Outcome,
    hello: (Session, seq<byte>) -> Outcome,
    preamble: seq<Output>
  )

  function MachineOf(env: Env): Machine {
    Machine(
      (s: Session, payload: seq<byte>) => HandlePayload(env, s, payload),
      (s: Session, buf: seq<byte>) => if |buf| == HELLO_LEN then ServerHello(env, s, buf) else Close([]),
      Raw(env, [87, 46, WIRE_VERSION * 16 + TYPE_RELAY_SESSION] + env.relaySession))
  }

  function Rank(t: TransportState): nat {
    match t case RelaySendSessionId => 2 case WaitPayload => 1 case _ => 0
  }

  /** wish_core_process_data: the `goto again' loop ends because every round consumes bytes or moves
      to a state of lower rank. */
  function Drain(m: Machine, c: Conn): Result
    decreases |c.rx|, Rank(c.transport)
  {
    match c.transport
    case WaitFrameLen =>
      if |c.rx| < 2 then Result(c, [])
      else
        var c1 := c.(expectBytes := FromBE16(c.rx[0], c.rx[1]), transport := WaitPayload, rx := c.rx[2..]);
        if |c1.rx| < c1.expectBytes then Result(c1, []) else Drain(m, c1)
    case WaitPayload =>
      if |c.rx| < c.expectBytes then Result(c, [])
      else
        var h := TakePayload(m, c);
        if |h.conn.rx| < 2 then h
        else
          var r := Drain(m, h.conn);
          Result(r.conn, h.out + r.out)
    case ServerWaitInitial =>
      if |c.rx| < HELLO_LEN then Result(c, [])
      else
        var h := m.hello(c.s, c.rx[..HELLO_LEN]);
        Result(if h.closed then FREE_SLOT else c.(s := h.s, transport := WaitFrameLen, rx := c.rx[HELLO_LEN..]), h.out)
    case RelaySendSessionId =>
      var r := Drain(m, c.(transport := ServerWaitInitial));
      Result(r.conn, m.preamble + r.out)
    case _ => Result(c, [])
  }

  function TakePayload(m: Machine, c: Conn): (h: Result)
    requires c.expectBytes <= |c.rx|
    ensures |h.conn.rx| <= |c.rx| - c.expectBytes && h.conn.transport == WaitFrameLen
  {
    var payload := c.rx[..c.expectBytes];
    var h := m.handle(c.s, payload);
    Result(if h.closed then FREE_SLOT else c.(s := h.s, transport := WaitFrameLen, rx := c.rx[c.expectBytes..]),
           [Payload(payload, c.s)] + h.out)
  }

  function ClosedSlot(): Result { Result(FREE_SLOT, [Closed]) }

  /** wish_core_feed */
  function Feed(c: Conn, data: seq<byte>): Result {
    if |data| <= c.cap - |c.rx| then Result(c.(rx := c.rx + data), []) else ClosedSlot()
  }

  // Transport events -----------------------------------------------------------------------------

  datatype TcpEvent = TcpConnected | TcpDisconnected | TcpClientConnected | TcpClientDisconnected
                    | TcpRelaySessionConnected

  function SignalTcpEvent(env: Env, c: Conn, ev: TcpEvent): Result {
    match ev
    case TcpConnected =>
      Result(c.(s := c.s.(outgoing := true, proto := DH), transport := WaitFrameLen),
             Raw(env, Hello(if c.s.friend then TYPE_FRIEND_REQ else TYPE_NORMAL, c.s.ruid, c.s.luid)))
    case TcpDisconnected => ClosedSlot()
    case TcpClientDisconnected => ClosedSlot()
    case TcpClientConnected => Result(c.(s := c.s.(outgoing := false), transport := ServerWaitInitial), [])
    case TcpRelaySessionConnected => Drain(MachineOf(env), c.(transport := RelaySendSessionId))
  }

  /** wish_connection_init on a free slot. */
  function Allocate(c: Conn, luid: seq<byte>, ruid: seq<byte>, ringLen: nat): Conn {
    c.(s := c.s.(ctx := InMaking, proto := ProtoInitial, luid := luid, ruid := ruid),
       transport := TransportInitial, cap := ringLen)
  }
}
