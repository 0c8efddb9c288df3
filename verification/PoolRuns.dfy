/** Runs of the connection pool and its timers: seconds pass, slots are taken and closed, handshakes
    finish, input arrives. */
module PoolRuns {
  import opened Basics
  import opened Bytes
  import opened Protocol
  import opened Pool
  import T = Timers
  import TimerSweep

  type World = T.Db<State>

  /** Connections to be attempted: local and remote user of each. */
  type Attempts = seq<(seq<byte>, seq<byte>)>

  /** The first free slot, or the size of the pool. */
  function FirstFree(slots: seq<Slot>): (i: nat)
    ensures i <= |slots|
    ensures forall j :: 0 <= j < i ==> slots[j].ctx != Free
    ensures i < |slots| ==> slots[i].ctx == Free
  {
    if slots == [] || slots[0].ctx == Free then 0 else 1 + FirstFree(slots[1..])
  }

  function Opened(now: nat, st: State, luid: seq<byte>, ruid: seq<byte>): State {
    var i := FirstFree(st.slots);
    if i < |st.slots| then AllocatedAt(now, i, luid, ruid, st) else st
  }

  function OpenedAll(now: nat, st: State, opens: Attempts): State
    decreases |opens|
  {
    if opens == [] then st else OpenedAll(now, Opened(now, st, opens[0].0, opens[0].1), opens[1..])
  }

  /** The callbacks, by the identity of their timers, that attempt connections in a certain second: the
      periodic function of the relay clients takes a slot for every session it is told of. */
  type Calls = map<nat, Attempts>

  function Attempted(calls: Calls, id: nat): Attempts { if id in calls then calls[id] else [] }

  /** What a callback does to the pool. */
  function Act(calls: Calls, st: State, now: nat, t: T.Timer): (State, seq<T.Request>) {
    match t.req.cb
    case CheckLiveliness => (Checked(now, 0, st), [])
    case CloseParallel(x) => (ParallelClosed(x, st), [])
    case Other(_) => (OpenedAll(now, st, Attempted(calls, t.id)), [])
  }

  function Acting(calls: Calls): (State, nat, T.Timer) -> (State, seq<T.Request>) {
    (st: State, now: nat, t: T.Timer) => Act(calls, st, now, t)
  }

  /** A second passes: `opens` are the attempts of wish_connections_check, once a minute, before the
      timers, and `calls` those of the timers' other callbacks. */
  datatype Step =
    | Second(opens: Attempts, calls: Calls)
    | Init(luid: seq<byte>, ruid: seq<byte>)
    | Learn(slot: nat, luid: seq<byte>, ruid: seq<byte>, rhid: seq<byte>)
    | Hear(slot: nat)
    | Open(slot: nat)
    | Drop(slot: nat)
    | SetOther(which: nat, interval: T.pos, singleShot: bool)

  const CHECK: T.Request := T.Request(T.CheckLiveliness, 1, false)

  function CloseRequest(i: nat): T.Request { T.Request(T.CloseParallel(i), 1, true) }

  /** This core runs the check of parallel connections towards that host. */
  predicate Closer(local: seq<byte>, c: Slot) { |c.rhid| == |local| && Less(c.rhid, local) }

  predicate InState(st: State, i: nat, ctx: ContextState) { i < |st.slots| && st.slots[i].ctx == ctx }

  function ConnectedAt(st: State, i: nat): State
    requires i < |st.slots|
  {
    st.(slots := st.slots[i := st.slots[i].(ctx := Connected)])
  }

  function LearnedAt(st: State, i: nat, luid: seq<byte>, ruid: seq<byte>, rhid: seq<byte>): State
    requires i < |st.slots|
  {
    st.(slots := st.slots[i := st.slots[i].(luid := luid, ruid := ruid, rhid := rhid)])
  }

  function HeardAt(now: nat, st: State, i: nat): State
    requires i < |st.slots|
  {
    State(st.slots[i := st.slots[i].(latest := now)], st.log + [Heard(i)])
  }

  function Apply(local: seq<byte>, w: World, step: Step): World {
    var st := w.state;
    match step
    case Second(opens, calls) => T.Tick(Acting(calls), w.(state := OpenedAll(w.now + 1, st, opens)))
    case Init(luid, ruid) => w.(state := Opened(w.now, st, luid, ruid))
    case Learn(i, luid, ruid, rhid) =>
      if InState(st, i, InMaking) then w.(state := LearnedAt(st, i, luid, ruid, rhid)) else w
    case Hear(i) =>
      if InState(st, i, InMaking) || InState(st, i, Connected) then w.(state := HeardAt(w.now, st, i)) else w
    case Open(i) =>
      if InState(st, i, InMaking) then
        var w' := w.(state := ConnectedAt(st, i));
        if Closer(local, st.slots[i]) then T.Set(w', CloseRequest(i)) else w'
      else w
    case Drop(i) => if i < |st.slots| then w.(state := CloseSlot(st, i)) else w
    case SetOther(which, interval, singleShot) => T.Set(w, T.Request(T.Other(which), interval, singleShot))
  }

  /** The open event in wish_message_processor_task, on the timer list with the pool as its core. */
  method NewCoreConnection(core: TimerSweep.TimerList<State>, local: seq<byte>, i: nat)
    requires InState(core.state, i, InMaking)
    modifies core
    ensures core.Contents() == Apply(local, old(core.Contents()), Open(i))
  {
    var rhid := core.state.slots[i].rhid;
    core.state := ConnectedAt(core.state, i);
    if |rhid| == |local| && Less(rhid, local) {
      core.SetTimer(T.CloseParallel(i), 1, true);
    }
  }

  function Run(local: seq<byte>, w: World, steps: seq<Step>): World
    decreases |steps|
  {
    if steps == [] then w else Run(local, Apply(local, w, steps[0]), steps[1..])
  }

  /** An empty pool, and the periodic check of wish_connections_init. */
  function Start(size: nat): World {
    T.Set(T.Db(0, [], 0, [], State(Empty(size), [])), CHECK)
  }

  function Empty(size: nat): (s: seq<Slot>)
    ensures |s| == size && forall i :: 0 <= i < size ==> s[i] == FREE
  {
    if size == 0 then [] else [FREE] + Empty(size - 1)
  }

  // The sweep, on the state alone -------------------------------------------------------------------

  function Folded(calls: Calls, now: nat, st: State, ts: seq<T.Timer>): State
    decreases |ts|
  {
    if ts == [] then st
    else Folded(calls, now, if now < ts[0].time then st else Act(calls, st, now, ts[0]).0, ts[1..])
  }

  lemma {:induction false} SweepFolds(calls: Calls, now: nat, made: nat, st: State, ts: seq<T.Timer>)
    ensures var r := T.Sweep(Acting(calls), now, made, st, ts); r.state == Folded(calls, now, st, ts) && r.added == []
    decreases |ts|
  {
    if ts != [] {
      if now < ts[0].time {
        SweepFolds(calls, now, made, st, ts[1..]);
      } else {
        var a := Act(calls, st, now, ts[0]);
        assert Acting(calls)(st, now, ts[0]) == a;
        SweepFolds(calls, now, made + |a.1|, a.0, ts[1..]);
      }
    }
  }

  lemma TickFolds(calls: Calls, w: World)
    ensures var next := T.Tick(Acting(calls), w);
            && next.now == w.now + 1 && next.made == w.made
            && next.timers == T.Kept(w.now + 1, w.timers)
            && next.state == Folded(calls, w.now + 1, w.state, w.timers)
  {
    SweepFolds(calls, w.now + 1, w.made, w.state, w.timers);
    T.SweepIs(Acting(calls), w.now + 1, w.made, w.state, w.timers);
  }

  // Liveness ------------------------------------------------------------------------------------------

  predicate InUse(c: Slot) { c.ctx == Connected || c.ctx == InMaking }

  /** What holds of a slot at all times. */
  predicate SlotOk(now: nat, c: Slot) {
    && c.ctx != Closing && (c.ctx == Free ==> c == FREE)
    && c.latest <= now && c.ping <= now && (c.ping > c.latest ==> c.ping > c.latest + PING_INTERVAL)
  }

  ghost predicate SlotsOk(now: nat, st: State) { forall i :: 0 <= i < |st.slots| ==> SlotOk(now, st.slots[i]) }

  /** No slot in use has been silent for more than 40 seconds. */
  ghost predicate Lively(now: nat, st: State) {
    forall i :: 0 <= i < |st.slots| && InUse(st.slots[i]) ==> now <= st.slots[i].latest + PING_TIMEOUT
  }

  ghost predicate PingsOk(st: State) {
    forall i :: 0 <= i < |st.slots| && InUse(st.slots[i]) ==>
      PingsSince(st.log, i) == if st.slots[i].ping > st.slots[i].latest then 1 else 0
  }

  lemma OpenedIsOk(now: nat, st: State, luid: seq<byte>, ruid: seq<byte>)
    requires SlotsOk(now, st) && PingsOk(st)
    ensures var r := Opened(now, st, luid, ruid);
            SlotsOk(now, r) && PingsOk(r) && (Lively(now, st) ==> Lively(now, r))
  {
    var i, r := FirstFree(st.slots), Opened(now, st, luid, ruid);
    if i < |st.slots| {
      forall k | 0 <= k < |st.slots|
        ensures PingsSince(r.log, k) == if k == i then 0 else PingsSince(st.log, k)
      {
        PingsAfter(st.log, Allocated(i), k);
      }
    }
  }

  lemma {:induction false} OpenedAllIsOk(now: nat, st: State, opens: Attempts)
    requires SlotsOk(now, st) && PingsOk(st)
    ensures var r := OpenedAll(now, st, opens);
            SlotsOk(now, r) && PingsOk(r) && (Lively(now, st) ==> Lively(now, r))
    decreases |opens|
  {
    if opens != [] {
      OpenedIsOk(now, st, opens[0].0, opens[0].1);
      OpenedAllIsOk(now, Opened(now, st, opens[0].0, opens[0].1), opens[1..]);
    }
  }

  lemma ActKeepsSlots(calls: Calls, st: State, now: nat, t: T.Timer)
    requires SlotsOk(now, st) && PingsOk(st)
    ensures SlotsOk(now, Act(calls, st, now, t).0)
    ensures Lively(now, st) || t.req.cb.CheckLiveliness? ==> Lively(now, Act(calls, st, now, t).0)
  {
    match t.req.cb
    case CheckLiveliness => CheckedSlots(now, 0, st);
    case CloseParallel(x) =>
      if x < |st.slots| {
        ClosedSlots(x, 0, st);
      }
    case Other(_) => OpenedAllIsOk(now, st, Attempted(calls, t.id));
  }

  lemma CheckKeepsPings(now: nat, st: State, i: nat)
    requires SlotsOk(now, st) && PingsOk(st) && i < |st.slots|
    requires InUse(CheckedSlot(now, st.slots[i]))
    ensures var c := CheckedSlot(now, st.slots[i]);
            PingsSince(Checked(now, 0, st).log, i) == if c.ping > c.latest then 1 else 0
  {
    CheckedPings(now, 0, st, i);
  }

  lemma ActKeepsPings(calls: Calls, st: State, now: nat, t: T.Timer)
    requires SlotsOk(now, st) && PingsOk(st)
    ensures PingsOk(Act(calls, st, now, t).0)
  {
    match t.req.cb
    case CheckLiveliness =>
      CheckedSlots(now, 0, st);
      forall i | 0 <= i < |st.slots| && InUse(CheckedSlot(now, st.slots[i]))
        ensures var c := CheckedSlot(now, st.slots[i]);
                PingsSince(Checked(now, 0, st).log, i) == if c.ping > c.latest then 1 else 0
      {
        CheckKeepsPings(now, st, i);
      }
    case CloseParallel(x) =>
      if x < |st.slots| {
        ClosedSlots(x, 0, st);
        forall i | 0 <= i < |st.slots|
          ensures PingsSince(ClosedFrom(x, 0, st).log, i) == PingsSince(st.log, i)
        {
          ClosedPings(x, 0, st, i);
        }
      }
    case Other(_) => OpenedAllIsOk(now, st, Attempted(calls, t.id));
  }

  /** The liveness check is the first timer of the list and due next. */
  predicate CheckFirst(now: nat, ts: seq<T.Timer>) { ts != [] && ts[0].req == CHECK && ts[0].time == now }

  lemma {:induction false} FoldIsLively(calls: Calls, now: nat, st: State, ts: seq<T.Timer>)
    requires SlotsOk(now, st) && PingsOk(st) && (Lively(now, st) || CheckFirst(now, ts))
    ensures var r := Folded(calls, now, st, ts); SlotsOk(now, r) && PingsOk(r) && Lively(now, r)
    decreases |ts|
  {
    if ts != [] {
      var next := if now < ts[0].time then st else Act(calls, st, now, ts[0]).0;
      if now >= ts[0].time {
        ActKeepsSlots(calls, st, now, ts[0]);
        ActKeepsPings(calls, st, now, ts[0]);
      }
      FoldIsLively(calls, now, next, ts[1..]);
    }
  }

  // Parallel connections ---------------------------------------------------------------------------------

  ghost predicate Pending(ts: seq<T.Timer>, i: nat) { exists t :: t in ts && t.req.cb == T.CloseParallel(i) }

  predicate Twins(st: State, i: nat, j: nat) {
    && i < |st.slots| && j < |st.slots| && i != j
    && st.slots[i].ctx == Connected && st.slots[j].ctx == Connected && SameClass(st.slots[i], st.slots[j])
  }

  /** Of two connected members of a class, on the core that checks it, one still has its check to come. */
  ghost predicate Covered(local: seq<byte>, st: State, ts: seq<T.Timer>) {
    forall i: nat, j: nat :: Twins(st, i, j) && Closer(local, st.slots[i]) ==> Pending(ts, i) || Pending(ts, j)
  }

  /** Checks of parallel connections happen once, a second after the connection opened. */
  ghost predicate ClosesAt(time: nat, ts: seq<T.Timer>) {
    forall t :: t in ts && t.req.cb.CloseParallel? ==> t.time == time && t.req.singleShot
  }

  /** Connected slots of the one are connected slots of the other. */
  ghost predicate NoneConnects(st: State, st': State) {
    && |st'.slots| == |st.slots|
    && forall i :: 0 <= i < |st.slots| && st'.slots[i].ctx == Connected ==>
         st.slots[i].ctx == Connected && SameClass(st.slots[i], st'.slots[i])
  }

  /** Connected slots stay, and no other joins them. */
  ghost predicate SameConnected(st: State, st': State) {
    && |st'.slots| == |st.slots|
    && forall i :: 0 <= i < |st.slots| && (st.slots[i].ctx == Connected || st'.slots[i].ctx == Connected) ==>
         st'.slots[i] == st.slots[i]
  }

  lemma {:induction false} OpensConnectNone(now: nat, st: State, opens: Attempts)
    ensures SameConnected(st, OpenedAll(now, st, opens))
    decreases |opens|
  {
    if opens != [] {
      OpensConnectNone(now, Opened(now, st, opens[0].0, opens[0].1), opens[1..]);
    }
  }

  lemma CoveredStays(local: seq<byte>, st: State, st': State, ts: seq<T.Timer>)
    requires Covered(local, st, ts) && NoneConnects(st, st')
    ensures Covered(local, st', ts)
  {
    forall i: nat, j: nat | Twins(st', i, j) && Closer(local, st'.slots[i]) ensures Pending(ts, i) || Pending(ts, j) {
      assert Twins(st, i, j);
    }
  }

  lemma ActConnectsNone(calls: Calls, st: State, now: nat, t: T.Timer)
    ensures NoneConnects(st, Act(calls, st, now, t).0)
  {
    match t.req.cb
    case CheckLiveliness => CheckedSlots(now, 0, st);
    case CloseParallel(x) =>
      if x < |st.slots| {
        ClosedSlots(x, 0, st);
      }
    case Other(_) => OpensConnectNone(now, st, Attempted(calls, t.id));
  }

  /** The check for slot x leaves no twins of it. */
  lemma NoTwinsLeft(st: State, x: nat, j: nat)
    ensures !Twins(ParallelClosed(x, st), x, j) && !Twins(ParallelClosed(x, st), j, x)
  {
    if x < |st.slots| && st.slots[x].ctx == Connected {
      ClosedSlots(x, 0, st);
    }
  }

  lemma PendingTail(ts: seq<T.Timer>, i: nat)
    requires ts != [] && Pending(ts, i)
    ensures Pending(ts[1..], i) || ts[0].req.cb == T.CloseParallel(i)
  {
    var t :| t in ts && t.req.cb == T.CloseParallel(i);
    if t != ts[0] {
      assert t in ts[1..];
    }
  }

  lemma ActKeepsCovered(calls: Calls, local: seq<byte>, st: State, now: nat, ts: seq<T.Timer>)
    requires ts != [] && Covered(local, st, ts)
    ensures Covered(local, Act(calls, st, now, ts[0]).0, ts[1..])
  {
    var st' := Act(calls, st, now, ts[0]).0;
    ActConnectsNone(calls, st, now, ts[0]);
    CoveredStays(local, st, st', ts);
    forall i: nat, j: nat | Twins(st', i, j) && Closer(local, st'.slots[i])
      ensures Pending(ts[1..], i) || Pending(ts[1..], j)
    {
      if ts[0].req.cb == T.CloseParallel(i) {
        NoTwinsLeft(st, i, j);
      } else if ts[0].req.cb == T.CloseParallel(j) {
        NoTwinsLeft(st, j, i);
      } else if Pending(ts, i) {
        PendingTail(ts, i);
      } else {
        PendingTail(ts, j);
      }
    }
  }

  lemma SkipKeepsCovered(local: seq<byte>, st: State, ts: seq<T.Timer>)
    requires ts != [] && Covered(local, st, ts) && !ts[0].req.cb.CloseParallel?
    ensures Covered(local, st, ts[1..])
  {
    forall i: nat, j: nat | Twins(st, i, j) && Closer(local, st.slots[i])
      ensures Pending(ts[1..], i) || Pending(ts[1..], j)
    {
      if Pending(ts, i) {
        PendingTail(ts, i);
      } else {
        PendingTail(ts, j);
      }
    }
  }

  /** When all checks have been made, no class has two members. */
  lemma {:induction false} FoldCovers(calls: Calls, local: seq<byte>, now: nat, st: State, ts: seq<T.Timer>)
    requires Covered(local, st, ts) && ClosesAt(now, ts)
    ensures Covered(local, Folded(calls, now, st, ts), [])
    decreases |ts|
  {
    if ts != [] {
      if now < ts[0].time {
        SkipKeepsCovered(local, st, ts);
        FoldCovers(calls, local, now, st, ts[1..]);
      } else {
        ActKeepsCovered(calls, local, st, now, ts);
        FoldCovers(calls, local, now, Act(calls, st, now, ts[0]).0, ts[1..]);
      }
    }
  }

  lemma {:induction false} KeptClosesNothing(now: nat, ts: seq<T.Timer>)
    requires ClosesAt(now, ts)
    ensures forall t :: t in T.Kept(now, ts) ==> !t.req.cb.CloseParallel?
  {
    if ts != [] {
      KeptClosesNothing(now, ts[1..]);
    }
  }

  // The invariant -------------------------------------------------------------------------------------------

  ghost predicate StateInv(local: seq<byte>, now: nat, st: State, ts: seq<T.Timer>) {
    SlotsOk(now, st) && Lively(now, st) && PingsOk(st) && Covered(local, st, ts)
  }

  ghost predicate TimersInv(w: World) {
    T.Good(w) && CheckFirst(w.now + 1, w.timers) && ClosesAt(w.now + 1, w.timers)
  }

  ghost predicate Inv(local: seq<byte>, w: World) { TimersInv(w) && StateInv(local, w.now, w.state, w.timers) }

  lemma NoneLeft(local: seq<byte>, st: State, ts: seq<T.Timer>)
    requires Covered(local, st, [])
    ensures Covered(local, st, ts)
  {
  }

  lemma SecondOfState(calls: Calls, local: seq<byte>, now: nat, was: State, ts: seq<T.Timer>, opens: Attempts)
    requires now > 0 && StateInv(local, now - 1, was, ts) && CheckFirst(now, ts) && ClosesAt(now, ts)
    ensures StateInv(local, now, Folded(calls, now, OpenedAll(now, was, opens), ts), [])
  {
    var st := OpenedAll(now, was, opens);
    OpenedAllIsOk(now, was, opens);
    OpensConnectNone(now, was, opens);
    CoveredStays(local, was, st, ts);
    FoldIsLively(calls, now, st, ts);
    FoldCovers(calls, local, now, st, ts);
  }

  lemma SecondOfTimers(now: nat, ts: seq<T.Timer>)
    requires CheckFirst(now, ts) && ClosesAt(now, ts)
    ensures CheckFirst(now + 1, T.Kept(now, ts)) && ClosesAt(now + 1, T.Kept(now, ts))
  {
    KeptClosesNothing(now, ts);
    assert T.Kept(now, ts)[0] == ts[0].(time := now + 1);
  }

  /** A second keeps the invariant, and leaves no check of parallel connections to come. */
  lemma SecondIsOk(local: seq<byte>, w: World, opens: Attempts, calls: Calls)
    requires Inv(local, w)
    ensures var next := Apply(local, w, Second(opens, calls)); Inv(local, next) && Covered(local, next.state, [])
  {
    var now, w' := w.now + 1, w.(state := OpenedAll(w.now + 1, w.state, opens));
    TickFolds(calls, w');
    T.TickIsGood(Acting(calls), w');
    SecondOfState(calls, local, now, w.state, w.timers, opens);
    SecondOfTimers(now, w.timers);
    NoneLeft(local, T.Tick(Acting(calls), w').state, T.Tick(Acting(calls), w').timers);
  }

  lemma InitIsOk(local: seq<byte>, w: World, luid: seq<byte>, ruid: seq<byte>)
    requires Inv(local, w)
    ensures Inv(local, Apply(local, w, Init(luid, ruid)))
  {
    OpenedIsOk(w.now, w.state, luid, ruid);
    CoveredStays(local, w.state, Opened(w.now, w.state, luid, ruid), w.timers);
  }

  lemma HearIsOk(local: seq<byte>, w: World, i: nat)
    requires Inv(local, w) && (InState(w.state, i, InMaking) || InState(w.state, i, Connected))
    ensures Inv(local, Apply(local, w, Hear(i)))
  {
    var r := HeardAt(w.now, w.state, i);
    forall k | 0 <= k < |r.slots| ensures PingsSince(r.log, k) == if k == i then 0 else PingsSince(w.state.log, k) {
      PingsAfter(w.state.log, Heard(i), k);
    }
    CoveredStays(local, w.state, r, w.timers);
  }

  lemma DropIsOk(local: seq<byte>, w: World, i: nat)
    requires Inv(local, w) && i < |w.state.slots|
    ensures Inv(local, Apply(local, w, Drop(i)))
  {
    var r := CloseSlot(w.state, i);
    forall k | 0 <= k < |r.slots| ensures PingsSince(r.log, k) == PingsSince(w.state.log, k) {
      PingsAfter(w.state.log, Dropped(i), k);
    }
    CoveredStays(local, w.state, r, w.timers);
  }

  lemma LearnIsOk(local: seq<byte>, w: World, i: nat, luid: seq<byte>, ruid: seq<byte>, rhid: seq<byte>)
    requires Inv(local, w) && InState(w.state, i, InMaking)
    ensures Inv(local, Apply(local, w, Learn(i, luid, ruid, rhid)))
  {
    CoveredStays(local, w.state, LearnedAt(w.state, i, luid, ruid, rhid), w.timers);
  }

  lemma SetIsOk(w: World, req: T.Request)
    requires TimersInv(w) && (req.cb.CloseParallel? ==> req.interval == 1 && req.singleShot)
    ensures TimersInv(T.Set(w, req))
    ensures forall i: nat ::
              Pending(w.timers, i) || req.cb == T.CloseParallel(i) <==> Pending(T.Set(w, req).timers, i)
  {
    T.SetIsGood(w, req);
    var born := T.Timer(w.made, w.now + req.interval, req);
    assert T.Set(w, req).timers == w.timers + [born];
    assert born in T.Set(w, req).timers;
    forall t | t in w.timers ensures t in T.Set(w, req).timers {}
  }

  /** The slot that opens has its check to come, if this core is to check it at all. */
  lemma OpenCovers(local: seq<byte>, st: State, i: nat, ts: seq<T.Timer>, ts': seq<T.Timer>)
    requires InState(st, i, InMaking) && Covered(local, st, ts)
    requires forall k: nat :: Pending(ts, k) || (k == i && Closer(local, st.slots[i])) ==> Pending(ts', k)
    ensures Covered(local, ConnectedAt(st, i), ts')
  {
    var st' := ConnectedAt(st, i);
    forall x: nat, y: nat | Twins(st', x, y) && Closer(local, st'.slots[x])
      ensures Pending(ts', x) || Pending(ts', y)
    {
      if x != i && y != i {
        assert Twins(st, x, y);
      }
    }
  }

  lemma OpenKeepsState(now: nat, st: State, i: nat)
    requires InState(st, i, InMaking) && SlotsOk(now, st) && Lively(now, st) && PingsOk(st)
    ensures SlotsOk(now, ConnectedAt(st, i)) && Lively(now, ConnectedAt(st, i)) && PingsOk(ConnectedAt(st, i))
  {
  }

  lemma OpenIsOk(local: seq<byte>, w: World, i: nat)
    requires Inv(local, w) && InState(w.state, i, InMaking)
    ensures Inv(local, Apply(local, w, Open(i)))
  {
    var w' := w.(state := ConnectedAt(w.state, i));
    OpenKeepsState(w.now, w.state, i);
    if Closer(local, w.state.slots[i]) {
      SetIsOk(w', CloseRequest(i));
    }
    OpenCovers(local, w.state, i, w.timers, Apply(local, w, Open(i)).timers);
  }

  lemma SetOtherIsOk(local: seq<byte>, w: World, which: nat, interval: T.pos, singleShot: bool)
    requires Inv(local, w)
    ensures Inv(local, Apply(local, w, SetOther(which, interval, singleShot)))
  {
    var req := T.Request(T.Other(which), interval, singleShot);
    SetIsOk(w, req);
    var ts := T.Set(w, req).timers;
    forall x: nat, y: nat | Twins(w.state, x, y) && Closer(local, w.state.slots[x])
      ensures Pending(ts, x) || Pending(ts, y)
    {}
  }

  lemma StepIsOk(local: seq<byte>, w: World, step: Step)
    requires Inv(local, w)
    ensures Inv(local, Apply(local, w, step))
  {
    match step
    case Second(opens, calls) => SecondIsOk(local, w, opens, calls);
    case Init(luid, ruid) => InitIsOk(local, w, luid, ruid);
    case Learn(i, luid, ruid, rhid) =>
      if InState(w.state, i, InMaking) {
        LearnIsOk(local, w, i, luid, ruid, rhid);
      }
    case Hear(i) =>
      if InState(w.state, i, InMaking) || InState(w.state, i, Connected) {
        HearIsOk(local, w, i);
      }
    case Open(i) =>
      if InState(w.state, i, InMaking) {
        OpenIsOk(local, w, i);
      }
    case Drop(i) =>
      if i < |w.state.slots| {
        DropIsOk(local, w, i);
      }
    case SetOther(which, interval, singleShot) => SetOtherIsOk(local, w, which, interval, singleShot);
  }

  lemma {:induction false} RunIsOk(local: seq<byte>, w: World, steps: seq<Step>)
    requires Inv(local, w)
    ensures Inv(local, Run(local, w, steps))
    decreases |steps|
  {
    if steps != [] {
      StepIsOk(local, w, steps[0]);
      RunIsOk(local, Apply(local, w, steps[0]), steps[1..]);
    }
  }

  lemma StartIsOk(local: seq<byte>, size: nat)
    ensures Inv(local, Start(size))
  {
    var w: World := T.Db(0, [], 0, [], State(Empty(size), []));
    T.SetIsGood(w, CHECK);
    assert Start(size).timers == [T.Timer(0, 1, CHECK)];
  }

  lemma ReachableIsOk(local: seq<byte>, size: nat, steps: seq<Step>)
    ensures Inv(local, Run(local, Start(size), steps))
  {
    StartIsOk(local, size);
    RunIsOk(local, Start(size), steps);
  }

  // Who survives a second ------------------------------------------------------------------------------------

  predicate Member(st: State, k: nat, key: Slot) {
    k < |st.slots| && st.slots[k].ctx == Connected && SameClass(st.slots[k], key)
  }

  /** A member of the class that has been heard of in time. */
  predicate Timely(now: nat, st: State, k: nat, key: Slot) {
    Member(st, k, key) && now <= st.slots[k].latest + PING_TIMEOUT
  }

  /** The slot of the first pending check that finds a timely member of the class in its slot. */
  function FirstChecked(now: nat, st: State, ts: seq<T.Timer>, key: Slot): (x: Option<nat>)
    ensures x.Some? ==> Timely(now, st, x.value, key) && exists t :: t in ts && t.req.cb == T.CloseParallel(x.value)
  {
    if ts == [] then None
    else if ts[0].req.cb.CloseParallel? && Timely(now, st, ts[0].req.cb.slot, key) then Some(ts[0].req.cb.slot)
    else
      var x := FirstChecked(now, st, ts[1..], key);
      assert x.Some? ==> forall t :: t in ts[1..] ==> t in ts;
      x
  }

  ghost predicate SameTimely(now: nat, st: State, st': State, key: Slot) {
    forall k: nat :: Timely(now, st, k, key) <==> Timely(now, st', k, key)
  }

  lemma {:induction false} FirstCheckedStays(now: nat, st: State, st': State, ts: seq<T.Timer>, key: Slot)
    requires SameTimely(now, st, st', key)
    ensures FirstChecked(now, st, ts, key) == FirstChecked(now, st', ts, key)
    decreases |ts|
  {
    if ts != [] {
      FirstCheckedStays(now, st, st', ts[1..], key);
    }
  }

  /** Only the check of a timely member of the class changes which members it has. */
  lemma ActKeepsTimely(calls: Calls, now: nat, st: State, t: T.Timer, key: Slot)
    requires t.req.cb.CloseParallel? ==> !Member(st, t.req.cb.slot, key)
    ensures SameTimely(now, st, Act(calls, st, now, t).0, key)
  {
    match t.req.cb
    case CheckLiveliness => CheckedSlots(now, 0, st);
    case CloseParallel(x) =>
      if x < |st.slots| {
        ClosedSlots(x, 0, st);
      }
    case Other(_) => OpensConnectNone(now, st, Attempted(calls, t.id));
  }

  lemma {:induction false} FoldConnectsNone(calls: Calls, now: nat, st: State, ts: seq<T.Timer>)
    ensures NoneConnects(st, Folded(calls, now, st, ts))
    decreases |ts|
  {
    if ts != [] {
      if now >= ts[0].time {
        ActConnectsNone(calls, st, now, ts[0]);
      }
      FoldConnectsNone(calls, now, if now < ts[0].time then st else Act(calls, st, now, ts[0]).0, ts[1..]);
    }
  }

  /** All members of the class have been heard of in time. */
  ghost predicate AllTimely(now: nat, st: State, key: Slot) {
    forall k: nat :: Member(st, k, key) ==> Timely(now, st, k, key)
  }

  /** The check for a member leaves it as the only one. */
  lemma CheckLeavesOne(now: nat, st: State, x: nat, key: Slot)
    requires Timely(now, st, x, key)
    ensures forall k: nat :: Member(ParallelClosed(x, st), k, key) <==> k == x
    ensures Timely(now, ParallelClosed(x, st), x, key)
  {
    ClosedSlots(x, 0, st);
  }

  lemma FirstIsOnly(now: nat, st: State, ts: seq<T.Timer>, x: nat, key: Slot)
    requires forall k: nat :: Member(st, k, key) ==> k == x
    ensures var f := FirstChecked(now, st, ts, key); f.None? || f.value == x
  {
  }

  /** A timely member survives the timers exactly if the first pending check that finds a member of its
      class is its own, or there is none. */
  lemma {:induction false} FoldSurvives(calls: Calls, now: nat, st: State, ts: seq<T.Timer>, k: nat, key: Slot)
    requires ClosesAt(now, ts) && AllTimely(now, st, key) && Member(st, k, key)
    ensures var f := FirstChecked(now, st, ts, key);
            Member(Folded(calls, now, st, ts), k, key) <==> f.None? || f.value == k
    decreases |ts|
  {
    if ts != [] {
      var st' := if now < ts[0].time then st else Act(calls, st, now, ts[0]).0;
      if ts[0].req.cb.CloseParallel? && Member(st, ts[0].req.cb.slot, key) {
        var x := ts[0].req.cb.slot;
        CheckLeavesOne(now, st, x, key);
        if x == k {
          FirstIsOnly(now, st', ts[1..], k, key);
          FoldSurvives(calls, now, st', ts[1..], k, key);
        } else {
          assert Timely(now, st, x, key) && st' == ParallelClosed(x, st);
          FoldConnectsNone(calls, now, st', ts[1..]);
          assert !Member(st', k, key);
        }
      } else {
        if now >= ts[0].time {
          ActKeepsTimely(calls, now, st, ts[0], key);
          ActConnectsNone(calls, st, now, ts[0]);
        }
        FirstCheckedStays(now, st, st', ts[1..], key);
        FoldKeepsAllTimely(now, st, st', key);
        FoldSurvives(calls, now, st', ts[1..], k, key);
      }
    }
  }

  lemma FoldKeepsAllTimely(now: nat, st: State, st': State, key: Slot)
    requires AllTimely(now, st, key) && SameTimely(now, st, st', key) && NoneConnects(st, st')
    ensures AllTimely(now, st', key)
  {
    forall k: nat | Member(st', k, key) ensures Timely(now, st', k, key) {
      assert Member(st, k, key);
    }
  }

  /** What the liveness check, which comes first, leaves of a class: its timely members. */
  lemma CheckLeavesTimely(now: nat, was: State, opens: Attempts, key: Slot)
    requires SlotsOk(now, was)
    ensures var st := Checked(now, 0, OpenedAll(now, was, opens));
            && AllTimely(now, st, key) && SameTimely(now, was, st, key) && NoneConnects(was, st)
  {
    var st := OpenedAll(now, was, opens);
    OpensConnectNone(now, was, opens);
    CheckedSlots(now, 0, st);
  }

  lemma SecondIs(local: seq<byte>, w: World, opens: Attempts, calls: Calls)
    requires CheckFirst(w.now + 1, w.timers)
    ensures Apply(local, w, Second(opens, calls)).state ==
            Folded(calls, w.now + 1, Checked(w.now + 1, 0, OpenedAll(w.now + 1, w.state, opens)), w.timers[1..])
  {
    TickFolds(calls, w.(state := OpenedAll(w.now + 1, w.state, opens)));
  }

  lemma SurvivesSecond(local: seq<byte>, w: World, opens: Attempts, calls: Calls, k: nat, key: Slot)
    requires TimersInv(w) && SlotsOk(w.now + 1, w.state) && Member(w.state, k, key)
    ensures var f := FirstChecked(w.now + 1, w.state, w.timers, key);
            Member(Apply(local, w, Second(opens, calls)).state, k, key) <==>
              Timely(w.now + 1, w.state, k, key) && (f.None? || f.value == k)
  {
    var now, ts := w.now + 1, w.timers[1..];
    var st := Checked(now, 0, OpenedAll(now, w.state, opens));
    SecondIs(local, w, opens, calls);
    CheckLeavesTimely(now, w.state, opens, key);
    FirstCheckedStays(now, w.state, st, ts, key);
    if Timely(now, w.state, k, key) {
      FoldSurvives(calls, now, st, ts, k, key);
    } else {
      FoldConnectsNone(calls, now, st, ts);
    }
  }

  lemma SecondConnectsNone(local: seq<byte>, w: World, opens: Attempts, calls: Calls)
    requires CheckFirst(w.now + 1, w.timers) && SlotsOk(w.now + 1, w.state)
    ensures NoneConnects(w.state, Apply(local, w, Second(opens, calls)).state)
  {
    var now := w.now + 1;
    SecondIs(local, w, opens, calls);
    CheckLeavesTimely(now, w.state, opens, FREE);
    FoldConnectsNone(calls, now, Checked(now, 0, OpenedAll(now, w.state, opens)), w.timers[1..]);
  }

  /** Heard of in time, and of the pending checks the first that finds a timely member of the class is the
      slot's own, or there is none. */
  predicate Survives(now: nat, st: State, ts: seq<T.Timer>, k: nat)
    requires k < |st.slots|
  {
    && now <= st.slots[k].latest + PING_TIMEOUT
    && var f := FirstChecked(now, st, ts, st.slots[k]); f.None? || f.value == k
  }

  lemma StaysIffSurvives(local: seq<byte>, w: World, opens: Attempts, calls: Calls, k: nat)
    requires Inv(local, w) && InState(w.state, k, Connected)
    ensures InState(Apply(local, w, Second(opens, calls)).state, k, Connected) <==>
            Survives(w.now + 1, w.state, w.timers, k)
  {
    assert SlotsOk(w.now + 1, w.state);
    SurvivesSecond(local, w, opens, calls, k, w.state.slots[k]);
    SecondConnectsNone(local, w, opens, calls);
  }

  /** Exactly when a connection survives a second, in every run: a condition on the pool and the timers
      before it. */
  lemma SurvivesIff(local: seq<byte>, size: nat, steps: seq<Step>, opens: Attempts, calls: Calls, k: nat)
    ensures var w := Run(local, Start(size), steps);
            InState(w.state, k, Connected) ==>
              (InState(Apply(local, w, Second(opens, calls)).state, k, Connected) <==>
               Survives(w.now + 1, w.state, w.timers, k))
  {
    ReachableIsOk(local, size, steps);
    var w := Run(local, Start(size), steps);
    if InState(w.state, k, Connected) {
      StaysIffSurvives(local, w, opens, calls, k);
    }
  }

  // The results ------------------------------------------------------------------------------------------------

  /** At every moment of every run a connection in use has been heard of within 40 seconds. */
  lemma LivenessBound(local: seq<byte>, size: nat, steps: seq<Step>, i: nat)
    ensures var w := Run(local, Start(size), steps);
            i < |w.state.slots| && InUse(w.state.slots[i]) ==>
              w.state.slots[i].latest <= w.now <= w.state.slots[i].latest + 40
  {
    ReachableIsOk(local, size, steps);
  }

  /** Between two inputs at most one ping is sent. */
  lemma OnePingBetweenInputs(local: seq<byte>, size: nat, steps: seq<Step>, i: nat)
    ensures var w := Run(local, Start(size), steps);
            i < |w.state.slots| && InUse(w.state.slots[i]) ==> PingsSince(w.state.log, i) <= 1
  {
    ReachableIsOk(local, size, steps);
  }

  /** At most one connected member of a class that this core checks lacks a pending check. */
  lemma OneMemberUnchecked(local: seq<byte>, size: nat, steps: seq<Step>, i: nat, j: nat)
    ensures var w := Run(local, Start(size), steps);
            Twins(w.state, i, j) && Closer(local, w.state.slots[i]) ==> Pending(w.timers, i) || Pending(w.timers, j)
  {
    ReachableIsOk(local, size, steps);
  }

  lemma CoveredIsSingle(local: seq<byte>, st: State, key: Slot, i: nat, j: nat)
    requires Covered(local, st, []) && Closer(local, key) && Member(st, i, key) && Member(st, j, key)
    ensures i == j
  {
    assert !Pending([], i) && !Pending([], j);
    assert i == j || Twins(st, i, j);
  }

  lemma SecondLeavesNone(local: seq<byte>, w: World, opens: Attempts, calls: Calls, i: nat)
    requires ClosesAt(w.now + 1, w.timers)
    ensures !Pending(Apply(local, w, Second(opens, calls)).timers, i)
  {
    SecondKeeps(local, w, opens, calls);
    KeptClosesNothing(w.now + 1, w.timers);
  }

  lemma SecondKeeps(local: seq<byte>, w: World, opens: Attempts, calls: Calls)
    ensures Apply(local, w, Second(opens, calls)).timers == T.Kept(w.now + 1, w.timers)
  {
    TickFolds(calls, w.(state := OpenedAll(w.now + 1, w.state, opens)));
  }

  ghost predicate HasMember(st: State, key: Slot) { exists k: nat :: Member(st, k, key) }

  ghost predicate HasTimely(now: nat, st: State, key: Slot) { exists k: nat :: Timely(now, st, k, key) }

  /** A class has a member after a second exactly if one was heard of in time. */
  lemma SecondKeepsOne(local: seq<byte>, w: World, opens: Attempts, calls: Calls, key: Slot)
    requires TimersInv(w) && SlotsOk(w.now + 1, w.state)
    ensures HasMember(Apply(local, w, Second(opens, calls)).state, key) <==> HasTimely(w.now + 1, w.state, key)
  {
    var now, next := w.now + 1, Apply(local, w, Second(opens, calls)).state;
    if HasTimely(now, w.state, key) {
      var k: nat :| Timely(now, w.state, k, key);
      var f := FirstChecked(now, w.state, w.timers, key);
      var x := if f.Some? then f.value else k;
      SurvivesSecond(local, w, opens, calls, x, key);
      assert Member(next, x, key);
    }
    if HasMember(next, key) {
      var k: nat :| Member(next, k, key);
      SecondConnectsNone(local, w, opens, calls);
      SurvivesSecond(local, w, opens, calls, k, key);
      assert Timely(now, w.state, k, key);
    }
  }

  /** After every second no check is pending, and a class that this core checks has at most one member;
      it has one if and only if some member had been heard of in time. */
  lemma OneMemberAfterSecond(local: seq<byte>, size: nat, steps: seq<Step>, opens: Attempts, calls: Calls, key: Slot)
    requires Closer(local, key)
    ensures var w := Run(local, Start(size), steps);
            var next := Apply(local, w, Second(opens, calls));
            && (forall i: nat :: !Pending(next.timers, i))
            && (forall i: nat, j: nat :: Member(next.state, i, key) && Member(next.state, j, key) ==> i == j)
            && (HasMember(next.state, key) <==> HasTimely(w.now + 1, w.state, key))
  {
    ReachableIsOk(local, size, steps);
    var w := Run(local, Start(size), steps);
    SecondIsOk(local, w, opens, calls);
    var next := Apply(local, w, Second(opens, calls));
    forall i: nat ensures !Pending(next.timers, i) {
      SecondLeavesNone(local, w, opens, calls, i);
    }
    forall i: nat, j: nat | Member(next.state, i, key) && Member(next.state, j, key) ensures i == j {
      CoveredIsSingle(local, next.state, key, i, j);
    }
    SecondKeepsOne(local, w, opens, calls, key);
  }

  // Why connections are closed ---------------------------------------------------------------------------------

  /** The log tells of a drop of the slot with exactly one ping since its last input. */
  ghost predicate DroppedPinged(was: seq<Event>, log: seq<Event>, k: nat) {
    exists j :: |was| <= j < |log| && log[j] == Dropped(k) && PingsSince(log[..j], k) == 1
  }

  lemma DroppedPingedStays(was: seq<Event>, mid: seq<Event>, log: seq<Event>, k: nat)
    requires DroppedPinged(was, mid, k) && mid <= log
    ensures DroppedPinged(was, log, k)
  {
    var j :| |was| <= j < |mid| && mid[j] == Dropped(k) && PingsSince(mid[..j], k) == 1;
    assert log[j] == mid[j] && log[..j] == mid[..j];
  }

  lemma {:induction false} OpensGrowLog(now: nat, st: State, opens: Attempts, k: nat)
    requires InState(st, k, Connected)
    ensures st.log <= OpenedAll(now, st, opens).log
    ensures PingsSince(OpenedAll(now, st, opens).log, k) == PingsSince(st.log, k)
    decreases |opens|
  {
    if opens != [] {
      PingsAfter(st.log, Allocated(FirstFree(st.slots)), k);
      OpensGrowLog(now, Opened(now, st, opens[0].0, opens[0].1), opens[1..], k);
    }
  }

  lemma {:induction false} OpensOnlyGrowLog(now: nat, st: State, opens: Attempts)
    ensures st.log <= OpenedAll(now, st, opens).log
    decreases |opens|
  {
    if opens != [] {
      OpensOnlyGrowLog(now, Opened(now, st, opens[0].0, opens[0].1), opens[1..]);
    }
  }

  lemma {:induction false} ClosingGrowsLog(x: nat, i: nat, st: State)
    requires x < |st.slots| && i <= |st.slots|
    ensures st.log <= ClosedFrom(x, i, st).log
    decreases |st.slots| - i
  {
    if i < |st.slots| {
      ClosingGrowsLog(x, i + 1, if Parallel(st, x, i) then CloseSlot(st, i) else st);
    }
  }

  lemma {:induction false} CheckGrowsLog(now: nat, i: nat, st: State)
    requires i <= |st.slots|
    ensures st.log <= Checked(now, i, st).log
    decreases |st.slots| - i
  {
    if i < |st.slots| {
      var c := st.slots[i];
      CheckGrowsLog(now, i + 1, State(st.slots[i := CheckedSlot(now, c)], st.log + CheckEvents(now, i, c)));
    }
  }

  lemma {:induction false} FoldGrowsLog(calls: Calls, now: nat, st: State, ts: seq<T.Timer>)
    ensures st.log <= Folded(calls, now, st, ts).log
    decreases |ts|
  {
    if ts != [] {
      if now >= ts[0].time {
        match ts[0].req.cb {
          case CheckLiveliness => CheckGrowsLog(now, 0, st);
          case CloseParallel(x) =>
            if x < |st.slots| {
              ClosingGrowsLog(x, 0, st);
            }
          case Other(_) => OpensOnlyGrowLog(now, st, Attempted(calls, ts[0].id));
        }
      }
      FoldGrowsLog(calls, now, if now < ts[0].time then st else Act(calls, st, now, ts[0]).0, ts[1..]);
    }
  }

  /** The liveness check drops a slot that has been silent for too long with a ping since its last input. */
  lemma {:induction false} CheckDropsPinged(now: nat, i: nat, st: State, k: nat)
    requires i <= k < |st.slots| && TooSilent(now, AfterPing(now, st.slots[k])) && st.slots[k].ctx == Connected
    requires PingsSince(st.log, k) == if st.slots[k].ping > st.slots[k].latest then 1 else 0
    ensures DroppedPinged(st.log, Checked(now, i, st).log, k)
    decreases |st.slots| - i
  {
    var c := st.slots[i];
    var next := State(st.slots[i := CheckedSlot(now, c)], st.log + CheckEvents(now, i, c));
    if i == k {
      DropIsLast(now, st.log, k, c);
      CheckGrowsLog(now, i + 1, next);
      DroppedPingedStays(st.log, next.log, Checked(now, i, st).log, k);
    } else {
      PingsAfterCheck(now, st.log, i, c, k);
      CheckDropsPinged(now, i + 1, next, k);
      var log := Checked(now, i, st).log;
      var j :| |next.log| <= j < |log| && log[j] == Dropped(k) && PingsSince(log[..j], k) == 1;
    }
  }

  lemma DropIsLast(now: nat, log: seq<Event>, k: nat, c: Slot)
    requires TooSilent(now, AfterPing(now, c)) && c.ctx == Connected
    requires PingsSince(log, k) == if c.ping > c.latest then 1 else 0
    ensures DroppedPinged(log, log + CheckEvents(now, k, c), k)
  {
    var before := log + (if NeedsPing(now, c) then [Pinged(k)] else []);
    PingsAfter(log, Pinged(k), k);
    assert log + [] == log;
    var all := log + CheckEvents(now, k, c);
    assert all == before + [Dropped(k)] && all[..|before|] == before && all[|before|] == Dropped(k);
  }

  lemma SilentIsDropped(local: seq<byte>, w: World, opens: Attempts, calls: Calls, k: nat)
    requires CheckFirst(w.now + 1, w.timers) && PingsOk(w.state) && InState(w.state, k, Connected)
    requires w.now + 1 > w.state.slots[k].latest + PING_TIMEOUT
    ensures DroppedPinged(w.state.log, Apply(local, w, Second(opens, calls)).state.log, k)
  {
    var now, st := w.now + 1, OpenedAll(w.now + 1, w.state, opens);
    SecondIs(local, w, opens, calls);
    OpensGrowLog(now, w.state, opens, k);
    OpensConnectNone(now, w.state, opens);
    CheckDropsPinged(now, 0, st, k);
    var st1 := Checked(now, 0, st);
    FoldGrowsLog(calls, now, st1, w.timers[1..]);
    DroppedPingedStays(st.log, st1.log, Folded(calls, now, st1, w.timers[1..]).log, k);
    DroppedSince(w.state.log, st.log, Folded(calls, now, st1, w.timers[1..]).log, k);
  }

  lemma DroppedSince(was: seq<Event>, mid: seq<Event>, log: seq<Event>, k: nat)
    requires was <= mid && DroppedPinged(mid, log, k)
    ensures DroppedPinged(was, log, k)
  {
  }

  /** In every run a second closes a connection only after more than 40 silent seconds, and then with
      exactly one ping since its last input, or because the first check that finds a timely member of its
      class belongs to another one. */
  lemma ClosedForAReason(local: seq<byte>, size: nat, steps: seq<Step>, opens: Attempts, calls: Calls, k: nat)
    ensures var w := Run(local, Start(size), steps);
            var next := Apply(local, w, Second(opens, calls)).state;
            InState(w.state, k, Connected) && !InState(next, k, Connected) ==>
              if w.now + 1 > w.state.slots[k].latest + PING_TIMEOUT then DroppedPinged(w.state.log, next.log, k)
              else var f := FirstChecked(w.now + 1, w.state, w.timers, w.state.slots[k]); f.Some? && f.value != k
  {
    ReachableIsOk(local, size, steps);
    var w := Run(local, Start(size), steps);
    if InState(w.state, k, Connected) {
      StaysIffSurvives(local, w, opens, calls, k);
      if w.now + 1 > w.state.slots[k].latest + PING_TIMEOUT {
        SilentIsDropped(local, w, opens, calls, k);
      }
    }
  }

  // Who closes ---------------------------------------------------------------------------------------------------

  /** A slot that opens while a check from its earlier use is still to come is one this core checks. */
  ghost predicate Guarded(local: seq<byte>, w: World, step: Step) {
    step.Open? && InState(w.state, step.slot, InMaking) && Pending(w.timers, step.slot) ==>
      Closer(local, w.state.slots[step.slot])
  }

  ghost predicate GuardedRun(local: seq<byte>, w: World, steps: seq<Step>)
    decreases |steps|
  {
    steps == [] || (Guarded(local, w, steps[0]) && GuardedRun(local, Apply(local, w, steps[0]), steps[1..]))
  }

  /** Checks that are to come concern classes this core checks. */
  ghost predicate NoneStale(local: seq<byte>, st: State, ts: seq<T.Timer>) {
    forall i: nat :: Pending(ts, i) && InState(st, i, Connected) ==> Closer(local, st.slots[i])
  }

  lemma NoneStaleStays(local: seq<byte>, st: State, st': State, ts: seq<T.Timer>)
    requires NoneStale(local, st, ts) && NoneConnects(st, st')
    ensures NoneStale(local, st', ts)
  {
  }

  lemma OpenKeepsNoneStale(local: seq<byte>, w: World, i: nat)
    requires TimersInv(w) && NoneStale(local, w.state, w.timers)
    requires InState(w.state, i, InMaking) && Guarded(local, w, Open(i))
    ensures var next := Apply(local, w, Open(i)); NoneStale(local, next.state, next.timers)
  {
    var w' := w.(state := ConnectedAt(w.state, i));
    if Closer(local, w.state.slots[i]) {
      SetIsOk(w', CloseRequest(i));
    }
  }

  lemma StepKeepsNoneStale(local: seq<byte>, w: World, step: Step)
    requires Inv(local, w) && NoneStale(local, w.state, w.timers) && Guarded(local, w, step)
    ensures var next := Apply(local, w, step); NoneStale(local, next.state, next.timers)
  {
    match step
    case Second(opens, calls) =>
      forall i: nat ensures !Pending(Apply(local, w, step).timers, i) {
        SecondLeavesNone(local, w, opens, calls, i);
      }
    case Init(luid, ruid) => NoneStaleStays(local, w.state, Opened(w.now, w.state, luid, ruid), w.timers);
    case Learn(_, _, _, _) => NoneStaleStays(local, w.state, Apply(local, w, step).state, w.timers);
    case Hear(_) => NoneStaleStays(local, w.state, Apply(local, w, step).state, w.timers);
    case Open(i) =>
      if InState(w.state, i, InMaking) {
        OpenKeepsNoneStale(local, w, i);
      }
    case Drop(_) => NoneStaleStays(local, w.state, Apply(local, w, step).state, w.timers);
    case SetOther(which, interval, singleShot) => SetIsOk(w, T.Request(T.Other(which), interval, singleShot));
  }

  lemma {:induction false} RunKeepsNoneStale(local: seq<byte>, w: World, steps: seq<Step>)
    requires Inv(local, w) && NoneStale(local, w.state, w.timers) && GuardedRun(local, w, steps)
    ensures var end := Run(local, w, steps); Inv(local, end) && NoneStale(local, end.state, end.timers)
    decreases |steps|
  {
    if steps != [] {
      StepIsOk(local, w, steps[0]);
      StepKeepsNoneStale(local, w, steps[0]);
      RunKeepsNoneStale(local, Apply(local, w, steps[0]), steps[1..]);
    }
  }

  /** A connected slot of a class that this core does not check, heard of in time. */
  predicate Foreign(local: seq<byte>, now: nat, st: State, k: nat) {
    InState(st, k, Connected) && !Closer(local, st.slots[k]) && now <= st.slots[k].latest + PING_TIMEOUT
  }

  /** A connection whose duplicates are the peer's to close is closed by this core exactly if the first check
      that finds a timely member of its class is another one's. */
  lemma ForeignClosedIff(local: seq<byte>, size: nat, steps: seq<Step>, opens: Attempts, calls: Calls, k: nat)
    ensures var w := Run(local, Start(size), steps);
            Foreign(local, w.now + 1, w.state, k) ==>
              var f := FirstChecked(w.now + 1, w.state, w.timers, w.state.slots[k]);
              (!InState(Apply(local, w, Second(opens, calls)).state, k, Connected) <==> f.Some? && f.value != k)
  {
    SurvivesIff(local, size, steps, opens, calls, k);
  }

  /** While no slot opens with a check from an earlier use still to come, a core closes no connection
      whose duplicates are its peer's to close. */
  lemma OnlyTheCloserCloses(local: seq<byte>, size: nat, steps: seq<Step>, opens: Attempts, calls: Calls, k: nat)
    requires GuardedRun(local, Start(size), steps)
    ensures var w := Run(local, Start(size), steps);
            Foreign(local, w.now + 1, w.state, k) ==>
              InState(Apply(local, w, Second(opens, calls)).state, k, Connected)
  {
    StartIsOk(local, size);
    RunKeepsNoneStale(local, Start(size), steps);
    ForeignClosedIff(local, size, steps, opens, calls, k);
    var w := Run(local, Start(size), steps);
    if Foreign(local, w.now + 1, w.state, k) {
      NoForeignCheck(local, w, k);
    }
  }

  lemma NoForeignCheck(local: seq<byte>, w: World, k: nat)
    requires NoneStale(local, w.state, w.timers) && Foreign(local, w.now + 1, w.state, k)
    ensures FirstChecked(w.now + 1, w.state, w.timers, w.state.slots[k]).None?
  {
    var f := FirstChecked(w.now + 1, w.state, w.timers, w.state.slots[k]);
    assert f.Some? ==> Pending(w.timers, f.value);
  }

  // The guard is needed: the timer keeps a pointer to its slot, and the slot may be taken again. -----------------

  /** Host ids of 32 bytes, one on either side of the local one, and the users of the connections. */
  datatype Ids = Ids(local: seq<byte>, smaller: seq<byte>, bigger: seq<byte>, luid: seq<byte>, ruid: seq<byte>)

  predicate IdsOk(x: Ids) {
    && |x.local| == |x.smaller| == |x.bigger| == |x.luid| == |x.ruid| == ID_LEN
    && Less(x.smaller, x.local) && Less(x.local, x.bigger)
  }

  function Used(x: Ids, ctx: ContextState, rhid: seq<byte>): Slot { Slot(ctx, x.luid, x.ruid, rhid, 0, 0) }

  function Pair(ts: seq<T.Timer>, a: Slot, b: Slot, log: seq<Event>): World {
    T.Db(0, ts, |ts|, [], State([a, b], log))
  }

  function Put(ts: seq<T.Timer>, a: Slot, b: Slot, log: seq<Event>, i: nat, c: Slot): World {
    if i == 0 then Pair(ts, c, b, log) else Pair(ts, a, c, log)
  }

  lemma {:induction false} RunThen(local: seq<byte>, w: World, steps: seq<Step>, step: Step)
    ensures Run(local, w, steps + [step]) == Apply(local, Run(local, w, steps), step)
    decreases |steps|
  {
    if steps != [] {
      assert (steps + [step])[1..] == steps[1..] + [step];
      RunThen(local, Apply(local, w, steps[0]), steps[1..], step);
    } else {
      assert [step][1..] == [];
    }
  }

  lemma PutSlots(ts: seq<T.Timer>, a: Slot, b: Slot, log: seq<Event>, i: nat, c: Slot, d: Slot)
    requires i < 2
    ensures Put(ts, a, b, log, i, c).state.slots[i] == c
    ensures Put(ts, a, b, log, i, c).state.slots[i := d] == Put(ts, a, b, log, i, d).state.slots
  {
    assert Put(ts, a, b, log, i, c).state.slots[i := d] == (if i == 0 then [d, b] else [a, d]);
  }

  lemma TakeSlot(x: Ids, ts: seq<T.Timer>, a: Slot, b: Slot, log: seq<Event>, i: nat)
    requires i < 2 && (if i == 0 then a == FREE else a.ctx != Free && b == FREE)
    ensures Apply(x.local, Pair(ts, a, b, log), Init(x.luid, x.ruid)) ==
            Put(ts, a, b, log + [Allocated(i)], i, Used(x, InMaking, ZERO_ID))
  {
    assert [a, b][1..] == [b];
    assert FirstFree([a, b]) == i;
    assert Pair(ts, a, b, log) == Put(ts, a, b, log, i, FREE);
    PutSlots(ts, a, b, log, i, FREE, Used(x, InMaking, ZERO_ID));
  }

  lemma LearnSlot(x: Ids, ts: seq<T.Timer>, a: Slot, b: Slot, log: seq<Event>, i: nat, rhid: seq<byte>)
    requires i < 2
    ensures Apply(x.local, Put(ts, a, b, log, i, Used(x, InMaking, ZERO_ID)), Learn(i, x.luid, x.ruid, rhid)) ==
            Put(ts, a, b, log, i, Used(x, InMaking, rhid))
  {
    PutSlots(ts, a, b, log, i, Used(x, InMaking, ZERO_ID), Used(x, InMaking, rhid));
  }

  function Checks(x: Ids, ts: seq<T.Timer>, i: nat, rhid: seq<byte>): seq<T.Timer>
    requires |rhid| == |x.local|
  {
    if Less(rhid, x.local) then ts + [T.Timer(|ts|, 1, CloseRequest(i))] else ts
  }

  lemma OpenSlot(x: Ids, ts: seq<T.Timer>, a: Slot, b: Slot, log: seq<Event>, i: nat, rhid: seq<byte>)
    requires i < 2 && |rhid| == |x.local|
    ensures Apply(x.local, Put(ts, a, b, log, i, Used(x, InMaking, rhid)), Open(i)) ==
            Put(Checks(x, ts, i, rhid), a, b, log, i, Used(x, Connected, rhid))
  {
    PutSlots(ts, a, b, log, i, Used(x, InMaking, rhid), Used(x, Connected, rhid));
  }

  /** A slot is taken, learns its peer and opens. */
  lemma UseSlot(x: Ids, steps: seq<Step>, ts: seq<T.Timer>, a: Slot, b: Slot, log: seq<Event>, i: nat, rhid: seq<byte>)
    returns (more: seq<Step>)
    requires Run(x.local, Start(2), steps) == Pair(ts, a, b, log)
    requires i < 2 && |rhid| == |x.local| && (if i == 0 then a == FREE else a.ctx != Free && b == FREE)
    ensures Run(x.local, Start(2), more) ==
            Put(Checks(x, ts, i, rhid), a, b, log + [Allocated(i)], i, Used(x, Connected, rhid))
  {
    TakeSlot(x, ts, a, b, log, i);
    LearnSlot(x, ts, a, b, log + [Allocated(i)], i, rhid);
    OpenSlot(x, ts, a, b, log + [Allocated(i)], i, rhid);
    var s1 := steps + [Init(x.luid, x.ruid)];
    var s2 := s1 + [Learn(i, x.luid, x.ruid, rhid)];
    more := s2 + [Open(i)];
    RunThen(x.local, Start(2), steps, Init(x.luid, x.ruid));
    RunThen(x.local, Start(2), s1, Learn(i, x.luid, x.ruid, rhid));
    RunThen(x.local, Start(2), s2, Open(i));
  }

  lemma StartOfTwo() returns (w: World)
    ensures w == Start(2) && w == Pair([T.Timer(0, 1, CHECK)], FREE, FREE, [])
  {
    assert Empty(1) == [FREE] && Empty(2) == [FREE, FREE];
    w := Start(2);
    assert w.timers == [T.Timer(0, 1, CHECK)];
  }

  lemma DropFirst(x: Ids, steps: seq<Step>, ts: seq<T.Timer>, a: Slot, b: Slot, log: seq<Event>)
    returns (more: seq<Step>)
    requires Run(x.local, Start(2), steps) == Pair(ts, a, b, log)
    ensures Run(x.local, Start(2), more) == Pair(ts, FREE, b, log + [Dropped(0)])
  {
    more := steps + [Drop(0)];
    RunThen(x.local, Start(2), steps, Drop(0));
    assert [a, b][0 := FREE] == [FREE, b];
  }

  /** Slot 0 is used for a smaller host id and again, within the second, for a bigger one; slot 1 is a
      duplicate of the second use. The check of the first use is still to come. */
  lemma StaleRun(x: Ids) returns (steps: seq<Step>)
    requires IdsOk(x)
    ensures var w := Run(x.local, Start(2), steps);
            && w.timers == [T.Timer(0, 1, CHECK), T.Timer(1, 1, CloseRequest(0))] && w.now == 0
            && w.state.slots == [Used(x, Connected, x.bigger), Used(x, Connected, x.bigger)]
  {
    var w := StartOfTwo();
    LessIsStrict(x.local);
    BiggerIsNotSmaller(x.local, x.bigger);
    var ts := [T.Timer(0, 1, CHECK)];
    var both := Checks(x, ts, 0, x.smaller);
    steps := UseSlot(x, [], ts, FREE, FREE, [], 0, x.smaller);
    steps := DropFirst(x, steps, both, Used(x, Connected, x.smaller), FREE, [] + [Allocated(0)]);
    var log := [] + [Allocated(0)] + [Dropped(0)];
    steps := UseSlot(x, steps, both, FREE, FREE, log, 0, x.bigger);
    steps := UseSlot(x, steps, both, Used(x, Connected, x.bigger), FREE, log + [Allocated(0)], 1, x.bigger);
  }

  lemma BiggerIsNotSmaller(a: seq<byte>, b: seq<byte>)
    requires |a| == |b| && Less(a, b)
    ensures !Less(b, a)
  {
    if a == b {
      LessIsStrict(a);
    } else {
      ExactlyOneCloser(a, b);
    }
  }

  /** So, whatever its host id is, with one smaller and one bigger around, a core can close a connection
      whose duplicates are its peer's to close. */
  lemma StaleCheckCloses(x: Ids)
    requires IdsOk(x)
    ensures exists steps :: var w := Run(x.local, Start(2), steps);
            && Foreign(x.local, w.now + 1, w.state, 1)
            && !InState(Apply(x.local, w, Second([], map[])).state, 1, Connected)
  {
    var steps := StaleRun(x);
    var w := Run(x.local, Start(2), steps);
    BiggerIsNotSmaller(x.local, x.bigger);
    ForeignClosedIff(x.local, 2, steps, [], map[], 1);
    assert w.timers[1..] == [T.Timer(1, 1, CloseRequest(0))];
    assert FirstChecked(1, w.state, w.timers, w.state.slots[1]) == Some(0);
  }
}
