/** When silent connections are pinged and dropped, in seconds, over all runs of the pool. */
module PoolPings {
  import opened Bytes
  import P = Protocol
  import opened Pool
  import opened PoolRuns
  import T = Timers

  /** A connected slot that has been silent for more than ten seconds, and not pinged since its last input. */
  predicate Overdue(now: nat, st: State, k: nat) {
    InState(st, k, P.Connected) && now > st.slots[k].latest + 10 && st.slots[k].ping <= st.slots[k].latest
  }

  ghost predicate NoneOverdue(now: nat, st: State) { forall k: nat :: !Overdue(now, st, k) }

  lemma CheckLeavesNone(now: nat, st: State)
    requires SlotsOk(now, st)
    ensures NoneOverdue(now, Checked(now, 0, st))
  {
    CheckedSlots(now, 0, st);
  }

  lemma ActKeepsNone(calls: Calls, now: nat, st: State, t: T.Timer)
    requires NoneOverdue(now, st) && SlotsOk(now, st)
    ensures NoneOverdue(now, Act(calls, st, now, t).0)
  {
    match t.req.cb
    case CheckLiveliness => CheckLeavesNone(now, st);
    case CloseParallel(x) =>
      if x < |st.slots| {
        ClosedSlots(x, 0, st);
        StillNone(now, st, ClosedFrom(x, 0, st));
      }
    case Other(_) =>
      OpensConnectNone(now, st, Attempted(calls, t.id));
      StillNone(now, st, OpenedAll(now, st, Attempted(calls, t.id)));
  }

  lemma StillNone(now: nat, st: State, st': State)
    requires NoneOverdue(now, st)
    requires forall k: nat :: InState(st', k, P.Connected) ==> k < |st.slots| && st'.slots[k] == st.slots[k]
    ensures NoneOverdue(now, st')
  {
    forall k: nat ensures !Overdue(now, st', k) {
      assert !Overdue(now, st, k);
    }
  }

  lemma {:induction false} FoldLeavesNone(calls: Calls, now: nat, st: State, ts: seq<T.Timer>)
    requires SlotsOk(now, st) && PingsOk(st) && (NoneOverdue(now, st) || CheckFirst(now, ts))
    ensures NoneOverdue(now, Folded(calls, now, st, ts))
    decreases |ts|
  {
    if ts != [] {
      if now >= ts[0].time {
        ActKeepsSlots(calls, st, now, ts[0]);
        ActKeepsPings(calls, st, now, ts[0]);
        if CheckFirst(now, ts) {
          CheckLeavesNone(now, st);
        } else {
          ActKeepsNone(calls, now, st, ts[0]);
        }
      }
      FoldLeavesNone(calls, now, if now < ts[0].time then st else Act(calls, st, now, ts[0]).0, ts[1..]);
    }
  }

  lemma SecondOfPings(calls: Calls, now: nat, was: State, ts: seq<T.Timer>, opens: Attempts)
    requires SlotsOk(now, was) && PingsOk(was) && CheckFirst(now, ts)
    ensures NoneOverdue(now, Folded(calls, now, OpenedAll(now, was, opens), ts))
  {
    OpenedAllIsOk(now, was, opens);
    FoldLeavesNone(calls, now, OpenedAll(now, was, opens), ts);
  }

  lemma LaterSlotsOk(now: nat, st: State)
    requires SlotsOk(now, st)
    ensures SlotsOk(now + 1, st)
  {
  }

  lemma SecondLeavesNoneOverdue(local: seq<byte>, w: World, opens: Attempts, calls: Calls)
    requires Inv(local, w)
    ensures var next := Apply(local, w, Second(opens, calls));
            next.now == w.now + 1 && NoneOverdue(next.now, next.state)
  {
    LaterSlotsOk(w.now, w.state);
    SecondOfPings(calls, w.now + 1, w.state, w.timers, opens);
    TickFolds(calls, w.(state := OpenedAll(w.now + 1, w.state, opens)));
  }

  lemma NotOverdueIsPinged(local: seq<byte>, w: World, k: nat)
    requires Inv(local, w) && InState(w.state, k, P.Connected) && w.now > w.state.slots[k].latest + 10
    ensures PingsSince(w.state.log, k) == if Overdue(w.now, w.state, k) then 0 else 1
  {
  }

  /** After every second of every run, each connection that has been silent for more than ten seconds has been
      pinged exactly once since its last input. */
  lemma PingedInTime(local: seq<byte>, size: nat, steps: seq<Step>, opens: Attempts, calls: Calls, k: nat)
    ensures var next := Apply(local, Run(local, Start(size), steps), Second(opens, calls));
            InState(next.state, k, P.Connected) && next.now > next.state.slots[k].latest + 10 ==>
              PingsSince(next.state.log, k) == 1
  {
    ReachableIsOk(local, size, steps);
    var w := Run(local, Start(size), steps);
    SecondIsOk(local, w, opens, calls);
    SecondLeavesNoneOverdue(local, w, opens, calls);
    var next := Apply(local, w, Second(opens, calls));
    if InState(next.state, k, P.Connected) && next.now > next.state.slots[k].latest + 10 {
      NotOverdueIsPinged(local, next, k);
    }
  }

  /** No connection is pinged that has been heard of within ten seconds. */
  lemma NotPingedEarly(local: seq<byte>, size: nat, steps: seq<Step>, k: nat)
    ensures var w := Run(local, Start(size), steps);
            InState(w.state, k, P.Connected) && w.now <= w.state.slots[k].latest + 10 ==>
              PingsSince(w.state.log, k) == 0
  {
    ReachableIsOk(local, size, steps);
  }

  lemma MakingStays(local: seq<byte>, w: World, opens: Attempts, calls: Calls, k: nat)
    requires InState(w.state, k, P.InMaking) && w.now + 1 <= w.state.slots[k].latest + 40
    ensures var next := Apply(local, w, Second(opens, calls)).state;
            InState(next, k, P.InMaking) && next.slots[k] == w.state.slots[k]
  {
    var now, st := w.now + 1, OpenedAll(w.now + 1, w.state, opens);
    TickFolds(calls, w.(state := st));
    OpensKeepUsed(now, w.state, opens, k);
    FoldKeepsMaking(calls, now, st, w.timers, k);
  }

  /** A connection in the making is given 40 seconds from its last input: until then no second of any run drops
      it, and no later than then it is dropped (PoolRuns.LivenessBound). */
  lemma MakingIsGivenTime(local: seq<byte>, size: nat, steps: seq<Step>, opens: Attempts, calls: Calls, k: nat)
    ensures var w := Run(local, Start(size), steps);
            var next := Apply(local, w, Second(opens, calls)).state;
            InState(w.state, k, P.InMaking) && w.now + 1 <= w.state.slots[k].latest + 40 ==>
              InState(next, k, P.InMaking) && next.slots[k] == w.state.slots[k]
  {
    var w := Run(local, Start(size), steps);
    if InState(w.state, k, P.InMaking) && w.now + 1 <= w.state.slots[k].latest + 40 {
      MakingStays(local, w, opens, calls, k);
    }
  }

  lemma {:induction false} OpensKeepUsed(now: nat, st: State, opens: Attempts, k: nat)
    requires InState(st, k, P.InMaking)
    ensures var r := OpenedAll(now, st, opens); InState(r, k, P.InMaking) && r.slots[k] == st.slots[k]
    decreases |opens|
  {
    if opens != [] {
      OpensKeepUsed(now, Opened(now, st, opens[0].0, opens[0].1), opens[1..], k);
    }
  }

  lemma {:induction false} FoldKeepsMaking(calls: Calls, now: nat, st: State, ts: seq<T.Timer>, k: nat)
    requires InState(st, k, P.InMaking) && now <= st.slots[k].latest + 40
    ensures var r := Folded(calls, now, st, ts); InState(r, k, P.InMaking) && r.slots[k] == st.slots[k]
    decreases |ts|
  {
    if ts != [] {
      if now >= ts[0].time {
        match ts[0].req.cb {
          case CheckLiveliness => CheckedSlots(now, 0, st);
          case CloseParallel(x) =>
            if x < |st.slots| {
              ClosedSlots(x, 0, st);
            }
          case Other(_) => OpensKeepUsed(now, st, Attempted(calls, ts[0].id), k);
        }
      }
      FoldKeepsMaking(calls, now, if now < ts[0].time then st else Act(calls, st, now, ts[0]).0, ts[1..], k);
    }
  }

  // Since the last second --------------------------------------------------------------------------------

  /** The slot opened after the last full second. */
  ghost predicate JustOpened(steps: seq<Step>, k: nat) {
    exists j :: 0 <= j < |steps| && steps[j] == Open(k) && forall i :: j < i < |steps| ==> !steps[i].Second?
  }

  lemma JustOpenedStays(steps: seq<Step>, step: Step, k: nat)
    requires JustOpened(steps, k) && !step.Second?
    ensures JustOpened(steps + [step], k)
  {
    var j :| 0 <= j < |steps| && steps[j] == Open(k) && forall i :: j < i < |steps| ==> !steps[i].Second?;
    assert (steps + [step])[j] == Open(k);
  }

  lemma StepMakesOverdue(local: seq<byte>, w: World, step: Step, k: nat)
    requires Inv(local, w) && Overdue(Apply(local, w, step).now, Apply(local, w, step).state, k)
    ensures !step.Second? && (step == Open(k) || Overdue(w.now, w.state, k))
  {
    match step
    case Second(opens, calls) =>
      SecondLeavesNoneOverdue(local, w, opens, calls);
    case _ =>
  }

  /** Only a slot that opened after the last full second can be silent for more than ten seconds without a ping:
      it was silent already while the handshake went on. */
  lemma {:induction false} OverdueIsJustOpened(local: seq<byte>, size: nat, steps: seq<Step>, k: nat)
    requires var w := Run(local, Start(size), steps); Overdue(w.now, w.state, k)
    ensures JustOpened(steps, k)
    decreases |steps|
  {
    if steps != [] {
      var front, last := steps[..|steps| - 1], steps[|steps| - 1];
      assert steps == front + [last];
      var w := Run(local, Start(size), front);
      ReachableIsOk(local, size, front);
      RunThen(local, Start(size), front, last);
      StepMakesOverdue(local, w, last, k);
      if last == Open(k) {
        assert steps[|steps| - 1] == Open(k);
      } else {
        OverdueIsJustOpened(local, size, front, k);
        JustOpenedStays(front, last, k);
      }
    }
  }

  /** A connection is dropped for silence by the second that makes it 41 seconds, and it was pinged in an earlier
      second, unless it opened after the last one. */
  lemma DropMeansPinged(local: seq<byte>, size: nat, steps: seq<Step>, k: nat)
    ensures var w := Run(local, Start(size), steps);
            InState(w.state, k, P.Connected) && w.now + 1 > w.state.slots[k].latest + 40 ==>
              && w.now + 1 == w.state.slots[k].latest + 41
              && (PingsSince(w.state.log, k) == 1 || (PingsSince(w.state.log, k) == 0 && JustOpened(steps, k)))
  {
    var w := Run(local, Start(size), steps);
    ReachableIsOk(local, size, steps);
    if InState(w.state, k, P.Connected) && w.now + 1 > w.state.slots[k].latest + 40 {
      NotOverdueIsPinged(local, w, k);
      if Overdue(w.now, w.state, k) {
        OverdueIsJustOpened(local, size, steps, k);
      }
    }
  }

  /** A connection that was there at the first second past its ten silent ones was pinged by then, and has 30
      seconds to answer before it is dropped. */
  lemma ThirtySecondsToAnswer(local: seq<byte>, size: nat, before: seq<Step>, opens: Attempts, calls: Calls,
                              after: seq<Step>, k: nat)
    ensures var u := Apply(local, Run(local, Start(size), before), Second(opens, calls));
            var w := Run(local, u, after);
            InState(u.state, k, P.Connected) && u.now == u.state.slots[k].latest + 11 &&
            InState(w.state, k, P.Connected) && w.state.slots[k].latest == u.state.slots[k].latest &&
            w.now + 1 > w.state.slots[k].latest + 40 ==>
              PingsSince(u.state.log, k) == 1 && w.now + 1 == u.now + 30
  {
    PingedInTime(local, size, before, opens, calls, k);
    ReachableIsOk(local, size, before);
    var v := Run(local, Start(size), before);
    SecondIsOk(local, v, opens, calls);
    RunIsOk(local, Apply(local, v, Second(opens, calls)), after);
  }
}
