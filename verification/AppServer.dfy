/** The framing of local applications (app_connection_feed in port/unix/app_server.c): a preamble,
    then length-prefixed frames. */
module AppServer {
  import opened Basics
  import opened Bytes
  import opened RingBuffer

  datatype Transport = Initial | WaitFrameLen | WaitPayload | Closing

  /** One application's slot. `login' is set once it has told its service id. */
  datatype App = App(transport: Transport, expected: nat, cap: nat, rx: seq<byte>, login: bool, wsid: seq<byte>)

  /** What the server reads out of a payload: the service id, and the length the payload claims. */
  datatype Reader = Reader(wsidOf: seq<byte> -> Option<seq<byte>>, sizeOf: seq<byte> -> int)

  datatype Message = Message(wsid: seq<byte>, payload: seq<byte>)

  datatype Result = Result(app: App, out: seq<Message>)

  const PLAIN: seq<byte> := [87, 46, 0x19]
  const SECURE: seq<byte> := [87, 46, 0x18]

  function Login(r: Reader, a: App, payload: seq<byte>): App {
    if a.login then a
    else match r.wsidOf(payload) case Some(wsid) => a.(wsid := wsid, login := true) case None => a
  }

  /** A frame whose document disagrees with its length ends the connection. */
  function Taken(r: Reader, a: App): Result
    requires a.expected <= |a.rx|
  {
    var payload := a.rx[..a.expected];
    var b := Login(r, a, payload).(rx := a.rx[a.expected..], transport := WaitFrameLen);
    if r.sizeOf(payload) != a.expected then Result(b.(transport := Closing), [])
    else Result(b, [Message(b.wsid, payload)])
  }

  function Then(out: seq<Message>, r: Result): Result { Result(r.app, out + r.out) }

  function Drain(r: Reader, a: App): (x: Result)
    ensures x.app.cap == a.cap && |x.app.rx| <= |a.rx|
    decreases |a.rx|, if a.transport == WaitPayload then 1 else 0
  {
    match a.transport
    case Initial =>
      if |a.rx| < 3 then Result(a, [])
      else
        var rest := a.(rx := a.rx[3..]);
        if a.rx[..3] == SECURE then Result(rest.(transport := Closing), [])
        else if a.rx[..3] == PLAIN then Drain(r, rest.(transport := WaitFrameLen))
        else Result(rest, [])
    case WaitFrameLen =>
      if |a.rx| < 2 then Result(a, [])
      else
        var n := FromBE16(a.rx[0], a.rx[1]);
        var b := a.(expected := n, rx := a.rx[2..]);
        if n == 0 then Drain(r, b)
        else if |b.rx| < n then Result(b.(transport := WaitPayload), [])
        else Drain(r, b.(transport := WaitPayload))
    case WaitPayload =>
      if |a.rx| < a.expected then Result(a, [])
      else
        var t := Taken(r, a);
        if t.app.transport == Closing || |t.app.rx| < 2 then t else Then(t.out, Drain(r, t.app))
    case Closing => Result(a, [])
  }

  /** What does not fit the ring buffer is lost. */
  function Fed(r: Reader, a: App, data: seq<byte>): Result
    requires |a.rx| <= a.cap
  {
    var n := if |data| <= a.cap - |a.rx| then |data| else a.cap - |a.rx|;
    Drain(r, a.(rx := a.rx + data[..n]))
  }

  // Chunks ---------------------------------------------------------------------------------------

  function More(a: App, data: seq<byte>): App { a.(rx := a.rx + data) }

  function Continue(r: Reader, x: Result, data: seq<byte>): Result { Then(x.out, Drain(r, More(x.app, data))) }

  lemma TakenMore(r: Reader, a: App, data: seq<byte>)
    requires a.expected <= |a.rx|
    ensures Taken(r, More(a, data)) == Result(More(Taken(r, a).app, data), Taken(r, a).out)
  {
    assert More(a, data).rx[..a.expected] == a.rx[..a.expected];
    assert More(a, data).rx[a.expected..] == a.rx[a.expected..] + data;
  }

  /** The test before `goto again' only saves an empty round. */
  lemma TakenThenDrain(r: Reader, a: App)
    requires a.transport == WaitPayload && a.expected <= |a.rx|
    ensures Drain(r, a) == Then(Taken(r, a).out, Drain(r, Taken(r, a).app))
  {
    var t := Taken(r, a);
    if t.app.transport == Closing || |t.app.rx| < 2 {
      assert Drain(r, t.app) == Result(t.app, []);
      assert t.out + [] == t.out;
    }
  }

  lemma SplitsAfterTaking(r: Reader, a: App, data: seq<byte>)
    requires a.transport == WaitPayload && a.expected <= |a.rx|
    requires var b := Taken(r, a).app; Drain(r, More(b, data)) == Continue(r, Drain(r, b), data)
    ensures Drain(r, More(a, data)) == Continue(r, Drain(r, a), data)
  {
    var t := Taken(r, a);
    TakenMore(r, a, data);
    TakenThenDrain(r, a);
    TakenThenDrain(r, More(a, data));
    var x := Drain(r, t.app);
    Assoc(t.out, x.out, Drain(r, More(x.app, data)).out);
  }

  lemma {:induction false} DrainSplits(r: Reader, a: App, data: seq<byte>)
    requires a.transport != Initial
    ensures Drain(r, More(a, data)) == Continue(r, Drain(r, a), data)
    decreases |a.rx|, if a.transport == WaitPayload then 1 else 0
  {
    var none: seq<Message> := [];
    assert none + Drain(r, More(a, data)).out == Drain(r, More(a, data)).out;
    if a.transport == WaitFrameLen && |a.rx| >= 2 {
      var n := FromBE16(a.rx[0], a.rx[1]);
      var b := a.(expected := n, rx := a.rx[2..]);
      assert More(a, data).rx[2..] == b.rx + data;
      if n == 0 {
        DrainSplits(r, b, data);
      } else {
        DrainSplits(r, b.(transport := WaitPayload), data);
      }
    } else if a.transport == WaitPayload && a.expected <= |a.rx| {
      DrainSplits(r, Taken(r, a).app, data);
      SplitsAfterTaking(r, a, data);
    }
  }

  lemma {:induction false} DrainSettles(r: Reader, a: App)
    requires a.transport != Initial
    ensures var b := Drain(r, a).app; b.transport != Initial && Drain(r, b) == Result(b, [])
    decreases |a.rx|, if a.transport == WaitPayload then 1 else 0
  {
    if a.transport == WaitFrameLen && |a.rx| >= 2 {
      var n := FromBE16(a.rx[0], a.rx[1]);
      var b := a.(expected := n, rx := a.rx[2..]);
      if n == 0 {
        DrainSettles(r, b);
      } else if |b.rx| >= n {
        DrainSettles(r, b.(transport := WaitPayload));
      }
    } else if a.transport == WaitPayload && a.expected <= |a.rx| {
      TakenThenDrain(r, a);
      DrainSettles(r, Taken(r, a).app);
    }
  }

  /** Feeding chunk by chunk. */
  function Deliver(r: Reader, a: App, chunks: seq<seq<byte>>): Result
    requires |a.rx| <= a.cap
    decreases |chunks|
  {
    if chunks == [] then Result(a, [])
    else
      var d := Fed(r, a, chunks[0]);
      Then(d.out, Deliver(r, d.app, chunks[1..]))
  }

  /** Each chunk finds room when it arrives. */
  predicate Fits(r: Reader, a: App, chunks: seq<seq<byte>>)
    requires |a.rx| <= a.cap
    decreases |chunks|
  {
    chunks == [] || (|a.rx| + |chunks[0]| <= a.cap && Fits(r, Fed(r, a, chunks[0]).app, chunks[1..]))
  }

  lemma FeedThatFits(r: Reader, a: App, data: seq<byte>)
    requires |a.rx| + |data| <= a.cap
    ensures Fed(r, a, data) == Drain(r, More(a, data))
  {
    assert data[..|data|] == data;
  }

  /** A stream that fits the ring as a whole fits it in any chunks. */
  lemma {:induction false} WholeFits(r: Reader, a: App, chunks: seq<seq<byte>>)
    requires |a.rx| + |Flatten(chunks)| <= a.cap
    ensures Fits(r, a, chunks)
    decreases |chunks|
  {
    if chunks != [] {
      FeedThatFits(r, a, chunks[0]);
      WholeFits(r, Fed(r, a, chunks[0]).app, chunks[1..]);
    }
  }

  lemma MoreMore(a: App, x: seq<byte>, y: seq<byte>)
    ensures More(More(a, x), y) == More(a, x + y)
  {
    assert (a.rx + x) + y == a.rx + (x + y);
  }

  /** Behind the preamble a stream in chunks has the effect of the whole stream. */
  lemma {:induction false} ChunksAreOneStream(r: Reader, a: App, chunks: seq<seq<byte>>)
    requires a.transport != Initial && Drain(r, a) == Result(a, [])
    requires |a.rx| <= a.cap && Fits(r, a, chunks)
    ensures Deliver(r, a, chunks) == Drain(r, More(a, Flatten(chunks)))
    decreases |chunks|
  {
    if chunks == [] {
      assert a.rx + [] == a.rx;
    } else {
      var one, rest := More(a, chunks[0]), Flatten(chunks[1..]);
      FeedThatFits(r, a, chunks[0]);
      MoreMore(a, chunks[0], rest);
      DrainSplits(r, one, rest);
      DrainSettles(r, one);
      ChunksAreOneStream(r, Drain(r, one).app, chunks[1..]);
    }
  }

  /** Behind the preamble any two ways of cutting the same stream deliver the same, while chunks fit. */
  lemma ChunkingDoesNotMatter(r: Reader, a: App, x: seq<seq<byte>>, y: seq<seq<byte>>)
    requires a.transport != Initial && Drain(r, a) == Result(a, []) && |a.rx| <= a.cap
    requires Fits(r, a, x) && Fits(r, a, y) && Flatten(x) == Flatten(y)
    ensures Deliver(r, a, x) == Deliver(r, a, y)
  {
    ChunksAreOneStream(r, a, x);
    ChunksAreOneStream(r, a, y);
  }

  // The preamble ----------------------------------------------------------------------------------

  predicate Known(s: seq<byte>) { |s| >= 3 && (s[..3] == PLAIN || s[..3] == SECURE) }

  /** The state behind a preamble that is known. */
  function Greeted(a: App): App
    requires Known(a.rx)
  {
    a.(rx := a.rx[3..], transport := if a.rx[..3] == PLAIN then WaitFrameLen else Closing)
  }

  lemma DrainsGreeted(r: Reader, a: App)
    requires a.transport == Initial && Known(a.rx)
    ensures Drain(r, a) == Drain(r, Greeted(a))
  {
    assert PLAIN[2] != SECURE[2];
  }

  /** The three first bytes: 'W', '.', and 0x19 for plain frames; 0x18 asks for what is not there and ends the
      connection; any other three are dropped, and the rest waits. */
  lemma PreambleMeans(r: Reader, a: App, rest: seq<byte>)
    requires a.transport == Initial && 3 <= |a.rx| && rest == a.rx[3..]
    ensures Drain(r, a) ==
            if a.rx[..3] == [87, 46, 0x19] then Drain(r, a.(rx := rest, transport := WaitFrameLen))
            else if a.rx[..3] == [87, 46, 0x18] then Result(a.(rx := rest, transport := Closing), [])
            else Result(a.(rx := rest), [])
  {
  }

  lemma KnownFirst(r: Reader, a: App, data: seq<byte>, chunks: seq<seq<byte>>)
    requires a.transport == Initial && Known(a.rx + data)
    requires |a.rx| + |data| + |Flatten(chunks)| <= a.cap
    ensures var d := Drain(r, More(a, data));
            Then(d.out, Deliver(r, d.app, chunks)) == Drain(r, More(a, data + Flatten(chunks)))
  {
    var one, rest := More(a, data), Flatten(chunks);
    var all := More(one, rest);
    MoreMore(a, data, rest);
    assert all.rx[..3] == one.rx[..3] && all.rx[3..] == one.rx[3..] + rest;
    assert Greeted(all) == More(Greeted(one), rest);
    DrainsGreeted(r, one);
    DrainsGreeted(r, all);
    DrainSplits(r, Greeted(one), rest);
    DrainSettles(r, Greeted(one));
    WholeFits(r, Drain(r, one).app, chunks);
    ChunksAreOneStream(r, Drain(r, one).app, chunks);
  }

  /** From the start a stream has the effect of its chunks if its preamble is known, or too little follows
      an unknown one for a second try. */
  lemma {:induction false} ChunksFromStart(r: Reader, a: App, chunks: seq<seq<byte>>)
    requires a.transport == Initial && |a.rx| < 3
    requires var all := a.rx + Flatten(chunks); |all| <= a.cap && (|all| < 6 || Known(all))
    ensures Deliver(r, a, chunks) == Drain(r, More(a, Flatten(chunks)))
    decreases |chunks|
  {
    if chunks == [] {
      assert a.rx + [] == a.rx;
    } else {
      var data, rest := chunks[0], Flatten(chunks[1..]);
      var one := More(a, data);
      FeedThatFits(r, a, data);
      MoreMore(a, data, rest);
      assert a.rx + Flatten(chunks) == one.rx + rest;
      if |one.rx| < 3 {
        ChunksFromStart(r, one, chunks[1..]);
        var none: seq<Message> := [];
        assert none + Deliver(r, one, chunks[1..]).out == Deliver(r, one, chunks[1..]).out;
      } else if Known(one.rx) {
        KnownFirst(r, a, data, chunks[1..]);
      } else {
        assert (one.rx + rest)[..3] == one.rx[..3];
        UnknownFirst(r, one, chunks[1..]);
      }
    }
  }

  /** Behind an unknown preamble, with less than three bytes to come, nothing happens. */
  lemma UnknownFirst(r: Reader, one: App, chunks: seq<seq<byte>>)
    requires one.transport == Initial && 3 <= |one.rx| && !Known(one.rx)
    requires |one.rx + Flatten(chunks)| < 6 && |one.rx + Flatten(chunks)| <= one.cap
    ensures var d := Drain(r, one);
            Then(d.out, Deliver(r, d.app, chunks)) == Drain(r, More(one, Flatten(chunks)))
  {
    var all, b := More(one, Flatten(chunks)), one.(rx := one.rx[3..]);
    assert all.rx[..3] == one.rx[..3] && all.rx[3..] == b.rx + Flatten(chunks);
    assert Drain(r, one) == Result(b, []) && Drain(r, all) == Result(More(b, Flatten(chunks)), []);
    FewBytes(r, b, chunks);
  }

  lemma {:induction false} FewBytes(r: Reader, a: App, chunks: seq<seq<byte>>)
    requires a.transport == Initial && |a.rx + Flatten(chunks)| < 3 && |a.rx + Flatten(chunks)| <= a.cap
    ensures Deliver(r, a, chunks) == Result(More(a, Flatten(chunks)), [])
    decreases |chunks|
  {
    if chunks == [] {
      assert a.rx + [] == a.rx;
    } else {
      FeedThatFits(r, a, chunks[0]);
      MoreMore(a, chunks[0], Flatten(chunks[1..]));
      assert |a.rx + Flatten(chunks)| == |More(a, chunks[0]).rx + Flatten(chunks[1..])|;
      FewBytes(r, More(a, chunks[0]), chunks[1..]);
    }
  }

  lemma {:induction false} DrainShrinks(r: Reader, a: App)
    ensures |Drain(r, a).app.rx| <= if a.transport == Initial && |a.rx| >= 3 then |a.rx| - 3 else |a.rx|
    decreases |a.rx|, if a.transport == WaitPayload then 1 else 0
  {
    if a.transport == Initial && Known(a.rx) {
      if a.rx[..3] == PLAIN {
        DrainShrinks(r, Greeted(a));
      }
    } else if a.transport == WaitFrameLen && |a.rx| >= 2 {
      var n := FromBE16(a.rx[0], a.rx[1]);
      var b := a.(expected := n, rx := a.rx[2..]);
      DrainShrinks(r, b);
      DrainShrinks(r, b.(transport := WaitPayload));
    } else if a.transport == WaitPayload && a.expected <= |a.rx| {
      DrainShrinks(r, Taken(r, a).app);
    }
  }

  /** Chunking makes no difference at all. */
  ghost predicate Indifferent(r: Reader, a: App, s: seq<byte>)
    requires |a.rx| <= a.cap
  {
    forall x, y :: Flatten(x) == s && Flatten(y) == s ==> Deliver(r, a, x) == Deliver(r, a, y)
  }

  /** From a fresh slot chunking makes no difference if and only if the stream fits the ring and starts with
      a known preamble or is shorter than two preambles (an unknown preamble is dropped without going on), or
      the ring cannot even hold a preamble. */
  lemma ChunkingIff(r: Reader, a: App, s: seq<byte>)
    requires a.transport == Initial && a.rx == []
    ensures Indifferent(r, a, s) <==> a.cap < 3 || (|s| <= a.cap && (|s| < 6 || Known(s)))
  {
    assert a.rx + s == s;
    if a.cap < 3 {
      forall x, y | Flatten(x) == s && Flatten(y) == s ensures Deliver(r, a, x) == Deliver(r, a, y) {
        TooSmall(r, a, x);
        TooSmall(r, a, y);
      }
    } else if |s| > a.cap {
      OverflowMatters(r, a, s);
    } else if |s| < 6 || Known(s) {
      forall x, y | Flatten(x) == s && Flatten(y) == s ensures Deliver(r, a, x) == Deliver(r, a, y) {
        ChunksFromStart(r, a, x);
        ChunksFromStart(r, a, y);
      }
    } else {
      UnknownMatters(r, a, s);
    }
  }

  lemma OneChunk(r: Reader, a: App, x: seq<byte>)
    requires |a.rx| <= a.cap
    ensures Flatten([x]) == x && Deliver(r, a, [x]).app == Fed(r, a, x).app
  {
    var none: seq<seq<byte>> := [];
    assert [x][1..] == none;
    assert x + Flatten(none) == x;
  }

  lemma TwoChunks(r: Reader, a: App, x: seq<byte>, y: seq<byte>)
    requires |a.rx| <= a.cap
    ensures Flatten([x, y]) == x + y
    ensures Deliver(r, a, [x, y]).app == Fed(r, Fed(r, a, x).app, y).app
  {
    assert [x, y][1..] == [y];
    OneChunk(r, Fed(r, a, x).app, y);
  }

  lemma UnknownDrains(r: Reader, a: App, x: seq<byte>)
    requires a.transport == Initial && a.rx == [] && 3 <= |x| <= a.cap && !Known(x)
    ensures Fed(r, a, x) == Result(a.(rx := x[3..]), [])
  {
    FeedThatFits(r, a, x);
    assert More(a, x).rx == x;
  }

  lemma WholeLeaves(r: Reader, a: App, s: seq<byte>)
    requires a.transport == Initial && a.rx == [] && 6 <= |s| <= a.cap && !Known(s)
    ensures Flatten([s]) == s && |Deliver(r, a, [s]).app.rx| == |s| - 3
  {
    OneChunk(r, a, s);
    UnknownDrains(r, a, s);
  }

  lemma CutLeaves(r: Reader, a: App, s: seq<byte>)
    requires a.transport == Initial && a.rx == [] && 6 <= |s| <= a.cap && !Known(s)
    ensures Flatten([s[..3], s[3..]]) == s && |Deliver(r, a, [s[..3], s[3..]]).app.rx| <= |s| - 6
  {
    var x, y := s[..3], s[3..];
    assert x[..3] == x && s == x + y;
    TwoChunks(r, a, x, y);
    UnknownDrains(r, a, x);
    assert x[3..] == a.rx;
    FeedThatFits(r, a, y);
    assert More(a, y).rx == y;
    DrainShrinks(r, More(a, y));
  }

  lemma UnknownMatters(r: Reader, a: App, s: seq<byte>)
    requires a.transport == Initial && a.rx == [] && 6 <= |s| <= a.cap && !Known(s)
    ensures !Indifferent(r, a, s)
  {
    WholeLeaves(r, a, s);
    CutLeaves(r, a, s);
  }

  // Streams larger than the ring ---------------------------------------------------------------------

  function Kept(a: App, s: seq<byte>): seq<byte> { if |s| <= a.cap then s else s[..a.cap] }

  lemma FillsUp(r: Reader, a: App, data: seq<byte>)
    requires a.transport == Initial && |a.rx| <= a.cap < 3
    ensures Fed(r, a, data) == Result(a.(rx := Kept(a, a.rx + data)), [])
  {
    var n := if |data| <= a.cap - |a.rx| then |data| else a.cap - |a.rx|;
    assert a.rx + data[..n] == Kept(a, a.rx + data);
  }

  lemma KeptOnce(a: App, x: seq<byte>, y: seq<byte>)
    ensures Kept(a, Kept(a, x) + y) == Kept(a, x + y)
  {
  }

  /** A ring too small for a preamble just fills up. */
  lemma {:induction false} TooSmall(r: Reader, a: App, chunks: seq<seq<byte>>)
    requires a.transport == Initial && |a.rx| <= a.cap < 3
    ensures Deliver(r, a, chunks) == Result(a.(rx := Kept(a, a.rx + Flatten(chunks))), [])
    decreases |chunks|
  {
    if chunks == [] {
      assert a.rx + [] == a.rx;
    } else {
      var c, rest := chunks[0], Flatten(chunks[1..]);
      FillsUp(r, a, c);
      TooSmall(r, Fed(r, a, c).app, chunks[1..]);
      KeptOnce(a, a.rx + c, rest);
      MoreMore(a, c, rest);
    }
  }

  /** One more byte always changes what is left. */
  lemma OneMoreByteShows(r: Reader, a: App, b: byte)
    requires a.transport == Initial || Drain(r, a) == Result(a, [])
    ensures Drain(r, More(a, [b])).app != a
  {
    var m := More(a, [b]);
    if a.transport == Initial {
      if Known(m.rx) {
        DrainsGreeted(r, m);
        DrainSettles(r, Greeted(m));
      }
    } else if a.transport == WaitPayload {
      if |a.rx| >= a.expected {
        TakenThenDrain(r, a);
      } else if |m.rx| == a.expected {
        TakenThenDrain(r, m);
        var t := Taken(r, m).app;
        assert t.rx == [] && Drain(r, t) == Result(t, []);
      }
    }
  }

  lemma LeavesRoom(r: Reader, a: App, s: seq<byte>)
    requires a.transport == Initial && a.rx == [] && 3 <= a.cap <= |s|
    ensures Fed(r, a, s) == Drain(r, a.(rx := s[..a.cap]))
    ensures var d := Fed(r, a, s).app; |d.rx| < d.cap && (d.transport == Initial || Drain(r, d) == Result(d, []))
  {
    var one := a.(rx := s[..a.cap]);
    assert a.rx + s[..a.cap] == one.rx;
    DrainShrinks(r, one);
    if Known(one.rx) {
      DrainsGreeted(r, one);
      DrainSettles(r, Greeted(one));
    }
  }

  /** Cutting off the last byte of a stream that overflows the ring saves that byte. */
  lemma LastByteSaved(r: Reader, a: App, x: seq<byte>, b: byte)
    requires a.transport == Initial && a.rx == [] && 3 <= a.cap <= |x|
    ensures Deliver(r, a, [x + [b]]).app != Deliver(r, a, [x, [b]]).app
  {
    var s := x + [b];
    OneChunk(r, a, s);
    TwoChunks(r, a, x, [b]);
    assert x[..a.cap] == s[..a.cap];
    LeavesRoom(r, a, s);
    LeavesRoom(r, a, x);
    FeedThatFits(r, Fed(r, a, x).app, [b]);
    OneMoreByteShows(r, Fed(r, a, x).app, b);
  }

  lemma OverflowMatters(r: Reader, a: App, s: seq<byte>)
    requires a.transport == Initial && a.rx == [] && 3 <= a.cap < |s|
    ensures !Indifferent(r, a, s)
  {
    var x, b := s[..|s| - 1], s[|s| - 1];
    assert s == x + [b];
    OneChunk(r, a, s);
    TwoChunks(r, a, x, [b]);
    LastByteSaved(r, a, x, b);
  }

  // Frames ------------------------------------------------------------------------------------------

  /** Empty frames are skipped. */
  function NonEmpty(ps: seq<seq<byte>>): seq<seq<byte>> {
    if ps == [] then [] else (if ps[0] == [] then [] else [ps[0]]) + NonEmpty(ps[1..])
  }

  function Payloads(out: seq<Message>): seq<seq<byte>> {
    if out == [] then [] else [out[0].payload] + Payloads(out[1..])
  }

  predicate Sendable(r: Reader, ps: seq<seq<byte>>) {
    forall i :: 0 <= i < |ps| ==> |ps[i]| < 0x1_0000 && (ps[i] != [] ==> r.sizeOf(ps[i]) == |ps[i]|)
  }

  lemma FrameIsRead(r: Reader, a: App, q: seq<byte>, rest: seq<byte>)
    requires a.transport == WaitFrameLen && a.rx == Frame(q) + rest && 0 < |q| < 0x1_0000
    ensures Drain(r, a) == Drain(r, a.(expected := |q|, rx := q + rest, transport := WaitPayload))
  {
    BE16RoundTrip(|q|);
    assert a.rx[2..] == q + rest && a.rx[0] == BE16(|q|)[0] && a.rx[1] == BE16(|q|)[1];
  }

  lemma DrainFrame(r: Reader, a: App, p: seq<byte>, rest: seq<byte>)
    requires a.transport == WaitFrameLen && 0 < |p| < 0x1_0000 && r.sizeOf(p) == |p| && a.rx == Frame(p) + rest
    ensures var b := Login(r, a, p).(expected := |p|, rx := rest);
            Drain(r, a) == Then([Message(b.wsid, p)], Drain(r, b))
  {
    var c := a.(expected := |p|, rx := p + rest, transport := WaitPayload);
    FrameIsRead(r, a, p, rest);
    assert c.rx[..|p|] == p && c.rx[|p|..] == rest;
    TakenThenDrain(r, c);
  }

  lemma DrainEmptyFrame(r: Reader, a: App, rest: seq<byte>)
    requires a.transport == WaitFrameLen && a.rx == BE16(0) + rest
    ensures Drain(r, a) == Drain(r, a.(expected := 0, rx := rest))
  {
    assert a.rx[2..] == rest && a.rx[0] == 0 && a.rx[1] == 0;
  }

  /** Every message carries the first service id that a document up to it has told, or the one known before;
      later ids are ignored. */
  predicate FirstIds(r: Reader, login: bool, wsid: seq<byte>, out: seq<Message>) {
    && (forall i :: 0 <= i < |out| && (login || NoneTold(r, out[..i + 1])) ==> out[i].wsid == wsid)
    && (!login ==> forall i, j :: 0 <= j <= i < |out| && NoneTold(r, out[..j]) ==>
                     match r.wsidOf(out[j].payload) case Some(id) => out[i].wsid == id case None => true)
  }

  predicate NoneTold(r: Reader, out: seq<Message>) {
    forall j :: 0 <= j < |out| ==> r.wsidOf(out[j].payload).None?
  }

  lemma NoneToldFrom(r: Reader, m: Message, out: seq<Message>, n: nat)
    requires 1 <= n <= |out| + 1
    ensures NoneTold(r, ([m] + out)[..n]) <==> r.wsidOf(m.payload).None? && NoneTold(r, out[..n - 1])
  {
    var all, o := ([m] + out)[..n], out[..n - 1];
    assert all[0] == m && forall j :: 1 <= j < n ==> all[j] == o[j - 1];
    if NoneTold(r, all) {
      forall j | 0 <= j < |o| ensures r.wsidOf(o[j].payload).None? {
        assert all[j + 1] == o[j];
      }
    }
  }

  /** One more message in front. */
  lemma FirstIdsFrom(r: Reader, a: App, p: seq<byte>, out: seq<Message>)
    requires var b := Login(r, a, p); FirstIds(r, b.login, b.wsid, out)
    ensures FirstIds(r, a.login, a.wsid, [Message(Login(r, a, p).wsid, p)] + out)
  {
    var b := Login(r, a, p);
    var m := Message(b.wsid, p);
    var all := [m] + out;
    forall i | 0 <= i < |all| && (a.login || NoneTold(r, all[..i + 1])) ensures all[i].wsid == a.wsid {
      NoneToldFrom(r, m, out, i + 1);
      assert i > 0 ==> all[i] == out[i - 1];
    }
    if !a.login {
      forall i, j | 0 <= j <= i < |all| && NoneTold(r, all[..j])
        ensures match r.wsidOf(all[j].payload) case Some(id) => all[i].wsid == id case None => true
      {
        if j > 0 {
          NoneToldFrom(r, m, out, j);
        }
        assert i > 0 ==> all[i] == out[i - 1];
        assert j > 0 ==> all[j] == out[j - 1];
      }
    }
  }

  /** Whole documents in frames come out one by one, in order, and what follows them is still to be read. */
  lemma {:induction false} FramesThen(r: Reader, a: App, ps: seq<seq<byte>>, rest: seq<byte>)
    returns (out: seq<Message>, b: App)
    requires a.transport == WaitFrameLen && a.rx == EncodeFrames(ps) + rest && Sendable(r, ps)
    ensures Drain(r, a) == Then(out, Drain(r, b)) && b.rx == rest && b.transport == WaitFrameLen
    ensures Payloads(out) == NonEmpty(ps) && FirstIds(r, a.login, a.wsid, out)
    decreases |ps|
  {
    if ps == [] {
      out, b := [], a;
      assert out + Drain(r, b).out == Drain(r, b).out && EncodeFrames(ps) + rest == rest;
    } else {
      var p, more := ps[0], EncodeFrames(ps[1..]) + rest;
      assert a.rx == Frame(p) + more;
      if p == [] {
        assert a.rx == BE16(0) + more;
        DrainEmptyFrame(r, a, more);
        out, b := FramesThen(r, a.(expected := 0, rx := more), ps[1..], rest);
      } else {
        DrainFrame(r, a, p, more);
        var c := Login(r, a, p);
        var tail: seq<Message>;
        tail, b := FramesThen(r, c.(expected := |p|, rx := more), ps[1..], rest);
        out := [Message(c.wsid, p)] + tail;
        FirstIdsFrom(r, a, p, tail);
        assert out[1..] == tail;
        Assoc([Message(c.wsid, p)], tail, Drain(r, b).out);
      }
    }
  }

  /** Whole documents in frames come back one by one, in order, under the first id that one of them told. */
  lemma FramesComeBack(r: Reader, a: App, ps: seq<seq<byte>>)
    requires a.transport == WaitFrameLen && a.rx == EncodeFrames(ps) && Sendable(r, ps)
    ensures var x := Drain(r, a);
            && Payloads(x.out) == NonEmpty(ps) && FirstIds(r, a.login, a.wsid, x.out)
            && x.app.rx == [] && x.app.transport == WaitFrameLen
  {
    assert EncodeFrames(ps) + [] == EncodeFrames(ps);
    var out, b := FramesThen(r, a, ps, []);
    assert Drain(r, b) == Result(b, []) && out + [] == out;
  }

  /** A document that disagrees with the length of its frame ends the connection: it is not delivered, nor is
      anything behind it. */
  lemma WrongLengthEnds(r: Reader, a: App, ps: seq<seq<byte>>, q: seq<byte>, rest: seq<byte>)
    requires a.transport == WaitFrameLen && a.rx == EncodeFrames(ps) + (Frame(q) + rest) && Sendable(r, ps)
    requires 0 < |q| < 0x1_0000 && r.sizeOf(q) != |q|
    ensures Payloads(Drain(r, a).out) == NonEmpty(ps) && Drain(r, a).app.transport == Closing
  {
    var out, b := FramesThen(r, a, ps, Frame(q) + rest);
    WrongFrame(r, b, q, rest);
    assert out + [] == out;
  }

  lemma WrongFrame(r: Reader, a: App, q: seq<byte>, rest: seq<byte>)
    requires a.transport == WaitFrameLen && a.rx == Frame(q) + rest && 0 < |q| < 0x1_0000 && r.sizeOf(q) != |q|
    ensures Drain(r, a).out == [] && Drain(r, a).app.transport == Closing
  {
    var c := a.(expected := |q|, rx := q + rest, transport := WaitPayload);
    FrameIsRead(r, a, q, rest);
    assert c.rx[..|q|] == q;
    assert Taken(r, c).out == [] && Taken(r, c).app.transport == Closing;
  }

  /** A connection that is ending delivers nothing, however much arrives. */
  lemma {:induction false} ClosingIsSilent(r: Reader, a: App, chunks: seq<seq<byte>>)
    requires a.transport == Closing && |a.rx| <= a.cap
    ensures Deliver(r, a, chunks).out == [] && Deliver(r, a, chunks).app.transport == Closing
    decreases |chunks|
  {
    if chunks != [] {
      ClosingIsSilent(r, Fed(r, a, chunks[0]).app, chunks[1..]);
    }
  }

  function Counted(a: App): (b: App)
    requires |a.rx| >= 2
  {
    var n := FromBE16(a.rx[0], a.rx[1]);
    a.(expected := n, rx := a.rx[2..], transport := if n == 0 then WaitFrameLen else WaitPayload)
  }

  lemma LengthTaken(r: Reader, a: App)
    requires a.transport == WaitFrameLen
    ensures |a.rx| < 2 ==> Drain(r, a) == Result(a, [])
    ensures |a.rx| >= 2 ==> Drain(r, a) == Drain(r, Counted(a)) && Size(Counted(a)) < Size(a)
    ensures |a.rx| >= 2 && 0 < Counted(a).expected && |a.rx| - 2 < Counted(a).expected
            ==> Drain(r, a) == Result(Counted(a), [])
  {
  }

  // In place -------------------------------------------------------------------------------------------

  class AppConnection {
    var transport: Transport
    var expected: nat
    const ring: Ring
    var login: bool
    var wsid: seq<byte>
    /** What the core has been given. */
    var received: seq<Message>

    ghost predicate Valid()
      reads this, ring
    {
      ring.Valid()
    }

    ghost function Slot(): App
      reads this, ring, ring.data
      requires Valid()
    {
      App(transport, expected, ring.maxLen, ring.Contents(), login, wsid)
    }

    constructor (size: u16)
      requires 0 < size
      ensures Valid() && Slot() == App(Initial, 0, size, [], false, []) && received == []
    {
      var mem := new byte[size];
      ring := new Ring.Init(mem);
      transport, expected, login, wsid, received := Initial, 0, false, [], [];
    }

    /** One round of the loop: it is over, or the rest of the work is what remains. */
    twostate predicate Round(r: Reader, again: bool)
      reads this, ring, ring.data
      requires old(Valid()) && Valid()
    {
      && old(received) <= received
      && var out := received[|old(received)|..];
         if again then Drain(r, old(Slot())) == Then(out, Drain(r, Slot())) && Size(Slot()) < Size(old(Slot()))
         else Drain(r, old(Slot())) == Result(Slot(), out)
    }

    method Read(n: nat) returns (bytes: seq<byte>)
      requires Valid() && n <= |Slot().rx|
      modifies ring
      ensures Valid()
      ensures bytes == old(Slot().rx)[..n] && Slot() == old(Slot()).(rx := old(Slot().rx)[n..])
    {
      var buf := new byte[n];
      var _ := ring.Read(buf, n);
      bytes := buf[..n];
    }

    method TakeLength(ghost r: Reader) returns (again: bool)
      requires Valid() && transport == WaitFrameLen
      modifies this, ring
      ensures Valid() && Round(r, again)
    {
      again := false;
      LengthTaken(r, Slot());
      if ring.Length() >= 2 {
        var bytes := Read(2);
        expected := FromBE16(bytes[0], bytes[1]);
        if expected == 0 {
          return true;
        }
        transport := WaitPayload;
        again := ring.Length() >= expected;
      }
    }

    method TakePreamble(ghost r: Reader) returns (again: bool)
      requires Valid() && transport == Initial
      modifies this, ring
      ensures Valid() && Round(r, again)
    {
      again := false;
      if ring.Length() >= 3 {
        var preamble := Read(3);
        if preamble == SECURE {
          transport := Closing;
        } else if preamble == PLAIN {
          transport := WaitFrameLen;
          again := TakeLength(r);
        }
      }
    }

    /** A complete payload: login, the check of its length, and the delivery. */
    method TakeWhole(r: Reader)
      requires Valid() && transport == WaitPayload && expected <= |Slot().rx|
      modifies this, ring
      ensures Valid()
      ensures var t := Taken(r, old(Slot())); Slot() == t.app && received == old(received) + t.out
    {
      var payload := Read(expected);
      transport := WaitFrameLen;
      if !login {
        var id := r.wsidOf(payload);
        if id.Some? {
          wsid := id.value;
          login := true;
        }
      }
      if r.sizeOf(payload) != expected {
        transport := Closing;
        return;
      }
      received := received + [Message(wsid, payload)];
    }

    method TakePayload(r: Reader) returns (again: bool)
      requires Valid() && transport == WaitPayload
      modifies this, ring
      ensures Valid() && Round(r, again)
    {
      again := false;
      if ring.Length() >= expected {
        TakeWhole(r);
        again := transport != Closing && ring.Length() >= 2;
      }
    }

    method TakeRound(r: Reader) returns (again: bool)
      requires Valid()
      modifies this, ring
      ensures Valid() && Round(r, again)
    {
      again := false;
      match transport
      case Initial => again := TakePreamble(r);
      case WaitFrameLen => again := TakeLength(r);
      case WaitPayload => again := TakePayload(r);
      case Closing =>
    }

    /** app_connection_feed */
    method Feed(r: Reader, data: seq<byte>)
      requires Valid() && |data| < 0x1_0000
      modifies this, ring, ring.data
      ensures Valid()
      ensures var x := Fed(r, old(Slot()), data); Slot() == x.app && received == old(received) + x.out
    {
      var n := ring.Write(data, |data|);
      var again := true;
      ghost var whole, out := Drain(r, Slot()), [];
      assert whole == Then(out, whole);
      while again
        invariant Valid() && received == old(received) + out
        invariant again ==> whole == Then(out, Drain(r, Slot()))
        invariant !again ==> whole == Result(Slot(), out)
        decreases if again then Size(Slot()) + 1 else 0
      {
        ghost var before, mid := received, Drain(r, Slot());
        again := TakeRound(r);
        ghost var delta := received[|before|..];
        assert received == before + delta;
        Assoc(old(received), out, delta);
        if again {
          Assoc(out, delta, Drain(r, Slot()).out);
        }
        out := out + delta;
      }
    }
  }

  function Size(a: App): nat { 2 * |a.rx| + if a.transport == WaitPayload then 1 else 0 }
}
