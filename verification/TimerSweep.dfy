/** The timer list of src/wish_time.c, swept in place. */
module TimerSweep {
  import opened Basics
  import opened Timers

  class TimerList<C(0)> {
    var coreTime: nat
    /** The linked list, from its head. */
    var timers: seq<Timer>
    var made: nat
    var fired: seq<Firing>
    var state: C

    function Contents(): Db<C>
      reads this
    {
      Db(coreTime, timers, made, fired, state)
    }

    /** wish_core_time_set_interval and wish_core_time_set_timeout */
    method SetTimer(cb: Callback, interval: pos, singleShot: bool)
      modifies this
      ensures Contents() == Set(old(Contents()), Request(cb, interval, singleShot))
    {
      timers := timers + [Timer(made, coreTime + interval, Request(cb, interval, singleShot))];
      made := made + 1;
    }

    /** The callback's own calls of SetTimer. */
    method Call(act: (C, nat, Timer) -> (C, seq<Request>), t: Timer)
      modifies this
      ensures var a := act(old(state), coreTime, t);
              && state == a.0
              && timers == old(timers) + Created(coreTime, old(made), a.1)
              && made == old(made) + |a.1| && coreTime == old(coreTime)
      ensures fired == old(fired) + [Firing(t.id, coreTime)]
    {
      var a := act(state, coreTime, t);
      state := a.0;
      timers := timers + Created(coreTime, made, a.1);
      made := made + |a.1|;
      fired := fired + [Firing(t.id, coreTime)];
    }

    /** Calls back a timer that is due, and unlinks it or sets it anew. */
    method Fire(act: (C, nat, Timer) -> (C, seq<Request>), i: nat) returns (next: nat)
      requires i < |timers| && timers[i].time <= coreTime
      modifies this
      ensures var t := old(timers[i]);
              var a := act(old(state), coreTime, t);
              && state == a.0
              && timers == old(timers[..i]) + Rearmed(coreTime, t) +
                 (old(timers[i + 1..]) + Created(coreTime, old(made), a.1))
              && made == old(made) + |a.1| && coreTime == old(coreTime)
              && fired == old(fired) + [Firing(t.id, coreTime)]
              && next == i + |Rearmed(coreTime, t)|
    {
      var t := timers[i];
      ghost var born := Created(coreTime, made, act(state, coreTime, t).1);
      Unlinked(timers, i, born, t.(time := coreTime + t.req.interval));
      Call(act, t);
      if t.req.singleShot {
        timers := timers[..i] + timers[i + 1..];
        next := i;
      } else {
        timers := timers[i := t.(time := coreTime + t.req.interval)];
        next := i + 1;
      }
    }

    /** Where a sweep is: timers kept, timers still to visit, timers added by callbacks, firings. */
    ghost predicate Sweeping(act: (C, nat, Timer) -> (C, seq<Request>), whole: Swept<C>, before: seq<Firing>,
                             kept: seq<Timer>, rest: seq<Timer>, added: seq<Timer>, log: seq<Firing>)
      reads this
    {
      && timers == kept + rest + added && fired == before + log
      && (forall k :: 0 <= k < |added| ==> coreTime < added[k].time)
      && Remains(whole, kept, added, log, Sweep(act, coreTime, made, state, rest))
    }

    method VisitDue(act: (C, nat, Timer) -> (C, seq<Request>), i: nat, ghost whole: Swept<C>, ghost before: seq<Firing>,
                    ghost kept: seq<Timer>, ghost rest: seq<Timer>, ghost added: seq<Timer>, ghost log: seq<Firing>)
      returns (next: nat, ghost kept': seq<Timer>, ghost added': seq<Timer>, ghost log': seq<Firing>)
      requires Sweeping(act, whole, before, kept, rest, added, log)
      requires rest != [] && i == |kept| && rest[0].time <= coreTime
      modifies this
      ensures coreTime == old(coreTime) && next == |kept'|
      ensures Sweeping(act, whole, before, kept', rest[1..], added', log')
    {
      NextOf(kept, rest, added);
      RemainsAfter(act, whole, kept, added, log, coreTime, made, state, rest);
      ghost var t, born := rest[0], Created(coreTime, made, act(state, coreTime, rest[0]).1);
      next := Fire(act, i);
      FiredInside(kept, rest, added, born, Rearmed(coreTime, t));
      Assoc(before, log, [Firing(t.id, coreTime)]);
      kept', added', log' := kept + Rearmed(coreTime, t), added + born, log + [Firing(t.id, coreTime)];
    }

    /** wish_time_report_periodic: one second has passed. The successor of a timer is looked up before
        its callback runs. */
    method ReportPeriodic(act: (C, nat, Timer) -> (C, seq<Request>))
      modifies this
      ensures Contents() == Tick(act, old(Contents()))
    {
      coreTime := coreTime + 1;
      var i, more := 0, timers != [];
      ghost var whole := Sweep(act, coreTime, made, state, timers);
      ghost var kept, rest, added, log := [], timers, [], [];
      while more
        invariant coreTime == old(coreTime) + 1
        invariant Sweeping(act, whole, old(fired), kept, rest, added, log)
        invariant if rest != [] then more && i == |kept| else |kept| <= i && (more ==> i < |timers|)
        decreases |rest|, |timers| - i, more
      {
        more := i + 1 < |timers|;
        if rest == [] {
          assert timers[i] == added[i - |kept|];
        } else {
          NextOf(kept, rest, added);
        }
        if coreTime >= timers[i].time {
          i, kept, added, log := VisitDue(act, i, whole, old(fired), kept, rest, added, log);
          rest := rest[1..];
        } else {
          i := i + 1;
          if rest != [] {
            RemainsAfter(act, whole, kept, added, log, coreTime, made, state, rest);
            kept, rest := kept + [rest[0]], rest[1..];
          }
        }
      }
    }
  }

  /** Removing or setting anew one timer of a longer list. */
  lemma Unlinked(ts: seq<Timer>, i: nat, more: seq<Timer>, t: Timer)
    requires i < |ts|
    ensures (ts + more)[..i] + (ts + more)[i + 1..] == ts[..i] + [] + (ts[i + 1..] + more)
    ensures (ts + more)[i := t] == ts[..i] + [t] + (ts[i + 1..] + more)
  {
    var all := ts + more;
    assert all[..i] == ts[..i] && all[i + 1..] == ts[i + 1..] + more;
    assert all[i := t] == all[..i] + [t] + all[i + 1..];
  }
}
