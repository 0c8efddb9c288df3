/** Streams of documents from a local application, cut into reads (port/unix/app_server.c and the reading loop
    of port/unix/app.c): when every document comes out. */
module AppReads {
  import opened Basics
  import opened Bytes
  import opened AppServer

  // Delivery ----------------------------------------------------------------------------------------

  /** Every document is delivered, under the first service id that has been told, and nothing is left. */
  predicate Delivered(r: Reader, a: App, d: Result, ps: seq<seq<byte>>) {
    && Payloads(d.out) == NonEmpty(ps) && FirstIds(r, a.login, a.wsid, d.out)
    && d.app.rx == [] && d.app.transport == WaitFrameLen
  }

  /** The state and the messages behind the first bytes `x` of a stream. */
  function Behind(r: Reader, a: App, x: seq<byte>): Result { Drain(r, a.(rx := x)) }

  lemma BehindMore(r: Reader, a: App, x: seq<byte>, c: seq<byte>)
    requires a.transport == Initial && (|x| < 3 || Known(x))
    ensures Behind(r, a, x + c) == Continue(r, Behind(r, a, x), c)
  {
    var one := a.(rx := x);
    assert More(one, c) == a.(rx := x + c);
    if |x| < 3 {
      var none: seq<Message> := [];
      assert none + Behind(r, a, x + c).out == Behind(r, a, x + c).out;
    } else {
      assert (x + c)[..3] == x[..3] && (x + c)[3..] == x[3..] + c;
      assert Greeted(More(one, c)) == More(Greeted(one), c);
      DrainsGreeted(r, one);
      DrainsGreeted(r, More(one, c));
      DrainSplits(r, Greeted(one), c);
    }
  }

  lemma PartIsKnown(x: seq<byte>, s: seq<byte>)
    requires x <= PLAIN + s
    ensures |x| < 3 || (Known(x) && x[..3] == PLAIN && x[3..] <= s)
  {
    if |x| >= 3 {
      assert x[..3] == (PLAIN + s)[..3] == PLAIN;
      assert x[3..] == (PLAIN + s)[3..][..|x| - 3] == s[..|x| - 3];
    }
  }

  lemma {:induction false} FittingIsOneStream(r: Reader, a: App, x: seq<byte>, chunks: seq<seq<byte>>, s: seq<byte>)
    requires a.transport == Initial && x + Flatten(chunks) == PLAIN + s
    requires |Behind(r, a, x).app.rx| <= a.cap && Fits(r, Behind(r, a, x).app, chunks)
    ensures var b := Behind(r, a, x);
            Then(b.out, Deliver(r, b.app, chunks)) == Behind(r, a, PLAIN + s)
    decreases |chunks|
  {
    var b := Behind(r, a, x);
    if chunks == [] {
      assert x + [] == x && b.out + [] == b.out;
    } else {
      var c, rest := chunks[0], Flatten(chunks[1..]);
      assert x + Flatten(chunks) == (x + c) + rest;
      PartIsKnown(x, s);
      BehindMore(r, a, x, c);
      FeedThatFits(r, b.app, c);
      FittingIsOneStream(r, a, x + c, chunks[1..], s);
      var d := Drain(r, More(b.app, c));
      Assoc(b.out, d.out, Deliver(r, d.app, chunks[1..]).out);
    }
  }

  lemma FittingDelivers(r: Reader, a: App, ps: seq<seq<byte>>, chunks: seq<seq<byte>>)
    requires a.transport == Initial && a.rx == [] && Sendable(r, ps)
    requires Flatten(chunks) == PLAIN + EncodeFrames(ps) && Fits(r, a, chunks)
    ensures Delivered(r, a, Deliver(r, a, chunks), ps)
  {
    var s := PLAIN + EncodeFrames(ps);
    assert [] + Flatten(chunks) == s;
    PartIsKnown(s, EncodeFrames(ps));
    assert s[3..] == EncodeFrames(ps);
    FittingIsOneStream(r, a, [], chunks, EncodeFrames(ps));
    var none: seq<Message> := [];
    assert none + Deliver(r, a, chunks).out == Deliver(r, a, chunks).out;
    DrainsGreeted(r, a.(rx := s));
    FramesComeBack(r, Greeted(a.(rx := s)), ps);
  }

  /** What has been read for the present state, but not yet handed up. */
  function Held(a: App): nat {
    |a.rx| + (if a.transport == Initial then 0 else 3) + (if a.transport == WaitPayload then 2 else 0)
  }

  function Cost(out: seq<Message>): nat { |EncodeFrames(Payloads(out))| }

  lemma {:induction false} CostAdds(x: seq<Message>, y: seq<Message>)
    ensures Cost(x + y) == Cost(x) + Cost(y)
    decreases |x|
  {
    if x == [] {
      assert x + y == y;
    } else {
      CostAdds(x[1..], y);
      assert (x + y)[1..] == x[1..] + y;
      CostOfFirst(x);
      CostOfFirst(x + y);
    }
  }

  lemma CostOfFirst(x: seq<Message>)
    requires x != []
    ensures Cost(x) == 2 + |x[0].payload| + Cost(x[1..])
  {
    var ps := Payloads(x);
    assert ps[0] == x[0].payload && ps[1..] == Payloads(x[1..]);
    assert |Frame(ps[0])| == 2 + |ps[0]|;
  }

  lemma TakenCosts(r: Reader, a: App)
    requires a.transport == WaitPayload && a.expected <= |a.rx|
    ensures Cost(Taken(r, a).out) + Held(Taken(r, a).app) <= Held(a)
  {
    var t := Taken(r, a);
    if t.out != [] {
      CostOfFirst(t.out);
    }
  }

  /** Messages cost the bytes of their frames. */
  lemma {:induction false} DrainCosts(r: Reader, a: App)
    ensures Cost(Drain(r, a).out) + Held(Drain(r, a).app) <= Held(a)
    decreases |a.rx|, if a.transport == WaitPayload then 1 else 0
  {
    if a.transport == Initial && Known(a.rx) {
      DrainsGreeted(r, a);
      if Greeted(a).transport == WaitFrameLen {
        DrainCosts(r, Greeted(a));
      }
    } else if a.transport == WaitFrameLen && |a.rx| >= 2 {
      var n := FromBE16(a.rx[0], a.rx[1]);
      var b := a.(expected := n, rx := a.rx[2..]);
      if n == 0 {
        DrainCosts(r, b);
      } else if |b.rx| >= n {
        DrainCosts(r, b.(transport := WaitPayload));
      }
    } else if a.transport == WaitPayload && a.expected <= |a.rx| {
      var t := Taken(r, a);
      TakenThenDrain(r, a);
      TakenCosts(r, a);
      DrainCosts(r, t.app);
      CostAdds(t.out, Drain(r, t.app).out);
    }
  }

  lemma FedCosts(r: Reader, a: App, c: seq<byte>)
    requires |a.rx| <= a.cap
    ensures var d := Fed(r, a, c);
            Cost(d.out) + Held(d.app) + (if |a.rx| + |c| <= a.cap then 0 else 1) <= Held(a) + |c|
  {
    var n := if |c| <= a.cap - |a.rx| then |c| else a.cap - |a.rx|;
    DrainCosts(r, More(a, c[..n]));
  }

  /** A chunk that does not fit costs at least one byte. */
  lemma {:induction false} DeliverCosts(r: Reader, a: App, chunks: seq<seq<byte>>)
    requires |a.rx| <= a.cap
    ensures var d := Deliver(r, a, chunks);
            Cost(d.out) + Held(d.app) + (if Fits(r, a, chunks) then 0 else 1) <= Held(a) + |Flatten(chunks)|
    decreases |chunks|
  {
    if chunks != [] {
      var d := Fed(r, a, chunks[0]);
      FedCosts(r, a, chunks[0]);
      DeliverCosts(r, d.app, chunks[1..]);
      CostAdds(d.out, Deliver(r, d.app, chunks[1..]).out);
    }
  }

  predicate AllNonEmpty(ps: seq<seq<byte>>) { forall i :: 0 <= i < |ps| ==> ps[i] != [] }

  lemma {:induction false} NonEmptyIsAll(ps: seq<seq<byte>>)
    requires AllNonEmpty(ps)
    ensures NonEmpty(ps) == ps
    decreases |ps|
  {
    if ps != [] {
      NonEmptyIsAll(ps[1..]);
      assert ps == [ps[0]] + ps[1..];
    }
  }

  /** From a fresh slot a stream of documents is delivered if and only if every chunk finds room. */
  lemma DeliveredIffFits(r: Reader, a: App, ps: seq<seq<byte>>, chunks: seq<seq<byte>>)
    requires a.transport == Initial && a.rx == [] && Sendable(r, ps) && AllNonEmpty(ps)
    requires Flatten(chunks) == PLAIN + EncodeFrames(ps)
    ensures Delivered(r, a, Deliver(r, a, chunks), ps) <==> Fits(r, a, chunks)
  {
    if Fits(r, a, chunks) {
      FittingDelivers(r, a, ps, chunks);
    } else {
      DeliverCosts(r, a, chunks);
      NonEmptyIsAll(ps);
    }
  }

  // Reads of a bounded size ------------------------------------------------------------------------------

  function Min(x: nat, y: nat): nat { if x <= y then x else y }

  predicate Reads(chunks: seq<seq<byte>>, m: nat) { forall i :: 0 <= i < |chunks| ==> |chunks[i]| <= m }

  /** Next to a document that lacks one byte there is room for the read that brings it. */
  predicate DocsFit(ps: seq<seq<byte>>, cap: nat, m: nat) {
    ps != [] ==> |ps[0]| + Min(m, 1 + |EncodeFrames(ps[1..])|) <= cap + 1 && DocsFit(ps[1..], cap, m)
  }

  /** So there is, next to two bytes of the preamble. */
  predicate StreamFits(ps: seq<seq<byte>>, cap: nat, m: nat) {
    2 + Min(m, 1 + |EncodeFrames(ps)|) <= cap && DocsFit(ps, cap, m)
  }

  lemma PartOfFrame(r: Reader, a: App, p: seq<byte>, y: seq<byte>)
    requires a.transport == WaitFrameLen && |p| < 0x1_0000 && |y| < |Frame(p)| && y <= Frame(p)
    ensures |Drain(r, a.(rx := y)).app.rx| == if |y| < 2 then |y| else |y| - 2
  {
    BE16RoundTrip(|p|);
    if |y| >= 2 {
      assert y[0] == Frame(p)[0] && y[1] == Frame(p)[1];
    }
  }

  /** The state behind a first frame is one that waits for the next. */
  function AfterFrame(r: Reader, a: App, p: seq<byte>): App {
    if p == [] then a.(expected := 0) else Login(r, a, p).(expected := |p|)
  }

  lemma BehindFrame(r: Reader, a: App, p: seq<byte>, z: seq<byte>)
    requires a.transport == WaitFrameLen && |p| < 0x1_0000 && (p != [] ==> r.sizeOf(p) == |p|)
    ensures Drain(r, a.(rx := Frame(p) + z)).app == Drain(r, AfterFrame(r, a, p).(rx := z)).app
  {
    if p == [] {
      assert Frame(p) + z == BE16(0) + z;
      DrainEmptyFrame(r, a.(rx := Frame(p) + z), z);
    } else {
      DrainFrame(r, a.(rx := Frame(p) + z), p, z);
    }
  }

  lemma PartSplits(f: seq<byte>, rest: seq<byte>, y: seq<byte>)
    requires y <= f + rest
    ensures |y| < |f| ==> y <= f
    ensures |y| >= |f| ==> y == f + y[|f|..] && y[|f|..] <= rest
  {
    if |y| >= |f| {
      assert y[..|f|] == (f + rest)[..|f|] == f;
      assert y[|f|..] == (f + rest)[|f|..][..|y| - |f|];
    } else {
      assert y == (f + rest)[..|y|] == f[..|y|];
    }
  }

  lemma PartOfFrameFits(r: Reader, a: App, p: seq<byte>, y: seq<byte>, rest: nat, m: nat)
    requires a.transport == WaitFrameLen && |p| < 0x1_0000 && |y| < |Frame(p)| && y <= Frame(p)
    requires |p| + Min(m, 1 + rest) <= a.cap + 1 && 2 + Min(m, 3 + |p| + rest) <= a.cap
    ensures |Drain(r, a.(rx := y)).app.rx| + Min(m, 2 + |p| + rest - |y|) <= a.cap
  {
    PartOfFrame(r, a, p, y);
    assert |Frame(p)| == 2 + |p|;
  }

  lemma FirstDocument(r: Reader, ps: seq<seq<byte>>, cap: nat, m: nat)
    requires ps != [] && Sendable(r, ps) && StreamFits(ps, cap, m)
    ensures Sendable(r, ps[1..]) && StreamFits(ps[1..], cap, m)
    ensures |EncodeFrames(ps)| == 2 + |ps[0]| + |EncodeFrames(ps[1..])|
  {
    assert |Frame(ps[0])| == 2 + |ps[0]|;
    assert forall i :: 0 <= i < |ps[1..]| ==> ps[1..][i] == ps[i + 1];
  }

  /** After any part of such a stream there is room for the next read. */
  lemma {:induction false} PartLeavesRoom(r: Reader, a: App, ps: seq<seq<byte>>, y: seq<byte>, m: nat)
    requires a.transport == WaitFrameLen && y <= EncodeFrames(ps) && Sendable(r, ps) && StreamFits(ps, a.cap, m)
    ensures |Drain(r, a.(rx := y)).app.rx| + Min(m, |EncodeFrames(ps)| - |y|) <= a.cap
    decreases |ps|
  {
    if ps != [] {
      var p, rest := ps[0], EncodeFrames(ps[1..]);
      FirstDocument(r, ps, a.cap, m);
      PartSplits(Frame(p), rest, y);
      if |y| < |Frame(p)| {
        PartOfFrameFits(r, a, p, y, |rest|, m);
      } else {
        RestLeavesRoom(r, a, ps, y[|Frame(p)|..], m);
      }
    }
  }

  lemma {:induction false} RestLeavesRoom(r: Reader, a: App, ps: seq<seq<byte>>, z: seq<byte>, m: nat)
    requires ps != [] && Sendable(r, ps) && StreamFits(ps, a.cap, m)
    requires a.transport == WaitFrameLen && z <= EncodeFrames(ps[1..])
    ensures |Drain(r, a.(rx := Frame(ps[0]) + z)).app.rx| + Min(m, |EncodeFrames(ps[1..])| - |z|) <= a.cap
    decreases |ps|, 0
  {
    FirstDocument(r, ps, a.cap, m);
    BehindFrame(r, a, ps[0], z);
    PartLeavesRoom(r, AfterFrame(r, a, ps[0]), ps[1..], z, m);
  }

  lemma GreetedLeavesRoom(r: Reader, a: App, ps: seq<seq<byte>>, x: seq<byte>, m: nat)
    requires a.transport == Initial && x <= PLAIN + EncodeFrames(ps) && Sendable(r, ps) && StreamFits(ps, a.cap, m)
    ensures |Behind(r, a, x).app.rx| + Min(m, 3 + |EncodeFrames(ps)| - |x|) <= a.cap
  {
    PartIsKnown(x, EncodeFrames(ps));
    if |x| >= 3 {
      DrainsGreeted(r, a.(rx := x));
      PartLeavesRoom(r, a.(transport := WaitFrameLen), ps, x[3..], m);
    }
  }

  lemma {:induction false} ReadsFit(r: Reader, a: App, ps: seq<seq<byte>>, x: seq<byte>, chunks: seq<seq<byte>>, m: nat)
    requires a.transport == Initial && Sendable(r, ps) && StreamFits(ps, a.cap, m) && Reads(chunks, m)
    requires x + Flatten(chunks) == PLAIN + EncodeFrames(ps)
    ensures var b := Behind(r, a, x).app; |b.rx| <= a.cap && Fits(r, b, chunks)
    decreases |chunks|
  {
    GreetedLeavesRoom(r, a, ps, x, m);
    if chunks != [] {
      var c, rest := chunks[0], Flatten(chunks[1..]);
      assert x + Flatten(chunks) == (x + c) + rest;
      PartIsKnown(x, EncodeFrames(ps));
      BehindMore(r, a, x, c);
      FeedThatFits(r, Behind(r, a, x).app, c);
      ReadsFit(r, a, ps, x + c, chunks[1..], m);
    }
  }

  lemma LacksOneByte(r: Reader, a: App, p: seq<byte>, rest: seq<byte>) returns (y: seq<byte>)
    requires a.transport == WaitFrameLen && 0 < |p| < 0x1_0000
    ensures y < Frame(p) + rest && |y| == 1 + |p| && |Drain(r, a.(rx := y)).app.rx| == |p| - 1
  {
    var f := Frame(p);
    assert |f| == 2 + |p|;
    y := f[..|f| - 1];
    assert y == (f + rest)[..|y|];
    PartOfFrame(r, a, p, y);
  }

  lemma BehindFrameWithin(f: seq<byte>, z: seq<byte>, rest: seq<byte>)
    requires z < rest
    ensures f + z < f + rest
  {
    assert z == rest[..|z|] && f + z == (f + rest)[..|f + z|];
  }

  /** If the condition fails there is a part of the stream behind which a read finds no room. */
  lemma {:induction false} PartWithoutRoom(r: Reader, a: App, ps: seq<seq<byte>>, m: nat) returns (y: seq<byte>)
    requires a.transport == WaitFrameLen && Sendable(r, ps) && AllNonEmpty(ps) && !DocsFit(ps, a.cap, m)
    ensures y < EncodeFrames(ps)
    ensures |Drain(r, a.(rx := y)).app.rx| + Min(m, |EncodeFrames(ps)| - |y|) > a.cap
    decreases |ps|
  {
    var p, rest := ps[0], EncodeFrames(ps[1..]);
    assert |EncodeFrames(ps)| == 2 + |p| + |rest|;
    if |p| + Min(m, 1 + |rest|) > a.cap + 1 {
      y := LacksOneByte(r, a, p, rest);
    } else {
      var z := PartWithoutRoom(r, AfterFrame(r, a, p), ps[1..], m);
      y := Frame(p) + z;
      BehindFrameWithin(Frame(p), z, rest);
      BehindFrame(r, a, p, z);
    }
  }

  function Ones(x: seq<byte>): seq<seq<byte>> { if x == [] then [] else [[x[0]]] + Ones(x[1..]) }

  lemma {:induction false} OnesAreBytes(x: seq<byte>, m: nat)
    requires 1 <= m
    ensures Flatten(Ones(x)) == x && Reads(Ones(x), m)
    decreases |x|
  {
    if x != [] {
      OnesAreBytes(x[1..], m);
      var o := Ones(x[1..]);
      assert Ones(x)[1..] == o && x == [x[0]] + x[1..];
      assert forall i :: 1 <= i < |Ones(x)| ==> Ones(x)[i] == o[i - 1];
    }
  }

  lemma {:induction false} FlattenConcat(x: seq<seq<byte>>, y: seq<seq<byte>>)
    ensures Flatten(x + y) == Flatten(x) + Flatten(y)
    decreases |x|
  {
    if x == [] {
      assert x + y == y;
    } else {
      FlattenConcat(x[1..], y);
      assert (x + y)[1..] == x[1..] + y;
    }
  }

  /** Single bytes, one chunk, and single bytes again. */
  lemma AroundOne(x: seq<byte>, c: seq<byte>, rest: seq<byte>, m: nat) returns (chunks: seq<seq<byte>>)
    requires 1 <= m && |c| <= m
    ensures Flatten(chunks) == x + (c + rest) && Reads(chunks, m) && chunks == Ones(x) + ([c] + Ones(rest))
  {
    OnesAreBytes(x, m);
    OnesAreBytes(rest, m);
    var tail := [c] + Ones(rest);
    assert tail[1..] == Ones(rest);
    FlattenConcat(Ones(x), tail);
    chunks := Ones(x) + tail;
  }

  /** Chunks that fit behind single bytes fit in the state behind these bytes. */
  lemma {:induction false} FitsBehind(r: Reader, a: App, x: seq<byte>, y: seq<byte>, tail: seq<seq<byte>>, s: seq<byte>)
    requires a.transport == Initial && x + y <= PLAIN + s
    requires |Behind(r, a, x).app.rx| <= a.cap && Fits(r, Behind(r, a, x).app, Ones(y) + tail)
    ensures var b := Behind(r, a, x + y).app; |b.rx| <= a.cap && Fits(r, b, tail)
    decreases |y|
  {
    if y == [] {
      assert x + y == x && Ones(y) + tail == tail;
    } else {
      var c := [y[0]];
      assert (Ones(y) + tail)[1..] == Ones(y[1..]) + tail && (Ones(y) + tail)[0] == c;
      assert (x + c) + y[1..] == x + y;
      assert x <= x + y;
      PartIsKnown(x, s);
      BehindMore(r, a, x, c);
      FeedThatFits(r, Behind(r, a, x).app, c);
      FitsBehind(r, a, x + c, y[1..], tail, s);
    }
  }

  lemma NoRoomIsFatal(r: Reader, a: App, s: seq<byte>, x: seq<byte>, m: nat) returns (chunks: seq<seq<byte>>)
    requires a.transport == Initial && a.rx == [] && 1 <= m && x <= PLAIN + s
    requires |Behind(r, a, x).app.rx| + Min(m, |PLAIN + s| - |x|) > a.cap
    ensures Reads(chunks, m) && Flatten(chunks) == PLAIN + s && !Fits(r, a, chunks)
  {
    var c, rest := NextRead(x, PLAIN + s, m);
    chunks := AroundOne(x, c, rest, m);
    var none: seq<byte> := [];
    assert a.(rx := none) == a && none + x == x;
    if Fits(r, a, chunks) {
      FitsBehind(r, a, none, x, [c] + Ones(rest), s);
    }
  }

  lemma NextRead(x: seq<byte>, s: seq<byte>, m: nat) returns (c: seq<byte>, rest: seq<byte>)
    requires x <= s
    ensures x + (c + rest) == s && |c| == Min(m, |s| - |x|)
  {
    var n := Min(m, |s| - |x|);
    c, rest := s[|x|..|x| + n], s[|x| + n..];
  }

  ghost predicate AllReadsDeliver(r: Reader, a: App, ps: seq<seq<byte>>, m: nat)
    requires |a.rx| <= a.cap
  {
    forall chunks :: Reads(chunks, m) && Flatten(chunks) == PLAIN + EncodeFrames(ps) ==>
      Delivered(r, a, Deliver(r, a, chunks), ps)
  }

  lemma WithoutRoomBreaks(r: Reader, a: App, ps: seq<seq<byte>>, m: nat)
    requires a.transport == Initial && a.rx == [] && Sendable(r, ps) && AllNonEmpty(ps) && 1 <= m
    requires !StreamFits(ps, a.cap, m)
    ensures !AllReadsDeliver(r, a, ps, m)
  {
    var e := EncodeFrames(ps);
    var x := PLAIN[..2];
    if 2 + Min(m, 1 + |e|) <= a.cap {
      var y := PartWithoutRoom(r, a.(transport := WaitFrameLen), ps, m);
      x := PLAIN + y;
      assert x == (PLAIN + e)[..|x|];
      PartIsKnown(x, e);
      assert x[3..] == y;
      DrainsGreeted(r, a.(rx := x));
    } else {
      assert x == (PLAIN + e)[..2];
    }
    var chunks := NoRoomIsFatal(r, a, e, x, m);
    DeliveredIffFits(r, a, ps, chunks);
  }

  /** However reads of up to `m` bytes cut the preamble and a number of documents, every document comes out
      whole and in order, if and only if the ring always has room for a read. */
  lemma ReadsDeliverIff(r: Reader, a: App, ps: seq<seq<byte>>, m: nat)
    requires a.transport == Initial && a.rx == [] && Sendable(r, ps) && AllNonEmpty(ps) && 1 <= m
    ensures AllReadsDeliver(r, a, ps, m) <==> StreamFits(ps, a.cap, m)
  {
    if StreamFits(ps, a.cap, m) {
      forall chunks | Reads(chunks, m) && Flatten(chunks) == PLAIN + EncodeFrames(ps)
        ensures Delivered(r, a, Deliver(r, a, chunks), ps)
      {
        var none: seq<byte> := [];
        assert none + Flatten(chunks) == Flatten(chunks) && a.(rx := none) == a;
        ReadsFit(r, a, ps, none, chunks, m);
        FittingDelivers(r, a, ps, chunks);
      }
    } else {
      WithoutRoomBreaks(r, a, ps, m);
    }
  }

  /** Documents that leave room for a whole read: in the Unix port those of at most 65436 bytes. */
  lemma {:induction false} SmallDocumentsFit(ps: seq<seq<byte>>, cap: nat, m: nat)
    requires m + 2 <= cap && forall i :: 0 <= i < |ps| ==> |ps[i]| + m <= cap + 1
    ensures StreamFits(ps, cap, m)
    decreases |ps|
  {
    if ps != [] {
      SmallDocumentsFit(ps[1..], cap, m);
    }
  }
}
