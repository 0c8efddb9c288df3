/** The timer list of src/wish_time.c. Callbacks may change the rest of the core, which is a value of
    type C here, and may set further timers while the list is being swept. */
module Timers {
  import opened Basics

  type pos = n: nat | 1 <= n witness 1

  /** What is called back, on which slot of the connection pool. */
  datatype Callback = CheckLiveliness | CloseParallel(slot: nat) | Other(which: nat)

  datatype Request = Request(cb: Callback, interval: pos, singleShot: bool)

  datatype Timer = Timer(id: nat, time: nat, req: Request)

  datatype Firing = Firing(id: nat, at: nat)

  /** The timers that `reqs` create at time `now`, when `made` timers have been made before. */
  function Created(now: nat, made: nat, reqs: seq<Request>): (ts: seq<Timer>)
    ensures |ts| == |reqs|
    ensures forall i :: 0 <= i < |ts| ==> ts[i] == Timer(made + i, now + reqs[i].interval, reqs[i])
    decreases |reqs|
  {
    if reqs == [] then []
    else [Timer(made, now + reqs[0].interval, reqs[0])] + Created(now, made + 1, reqs[1..])
  }

  function Rearmed(now: nat, t: Timer): seq<Timer> {
    if t.req.singleShot then [] else [t.(time := now + t.req.interval)]
  }

  datatype Swept<C> = Swept(state: C, kept: seq<Timer>, added: seq<Timer>, fired: seq<Firing>, made: nat)

  /** Running over a list of timers that nobody changes meanwhile. */
  function Sweep<C>(act: (C, nat, Timer) -> (C, seq<Request>), now: nat, made: nat, state: C,
                    ts: seq<Timer>): (r: Swept<C>)
    ensures r.made == made + |r.added|
    decreases |ts|
  {
    if ts == [] then Swept(state, [], [], [], made)
    else if now < ts[0].time then
      var r := Sweep(act, now, made, state, ts[1..]);
      r.(kept := [ts[0]] + r.kept)
    else
      var a := act(state, now, ts[0]);
      var r := Sweep(act, now, made + |a.1|, a.0, ts[1..]);
      Swept(r.state, Rearmed(now, ts[0]) + r.kept, Created(now, made, a.1) + r.added, [Firing(ts[0].id, now)] + r.fired,
            r.made)
  }

  /** The whole state: timers, the rest of the core, and a record of what has fired. */
  datatype Db<C> = Db(now: nat, timers: seq<Timer>, made: nat, fired: seq<Firing>, state: C)

  function Tick<C>(act: (C, nat, Timer) -> (C, seq<Request>), db: Db<C>): Db<C> {
    var r := Sweep(act, db.now + 1, db.made, db.state, db.timers);
    Db(db.now + 1, r.kept + r.added, r.made, db.fired + r.fired, r.state)
  }

  function Set<C>(db: Db<C>, req: Request): Db<C> {
    db.(timers := db.timers + [Timer(db.made, db.now + req.interval, req)], made := db.made + 1)
  }

  /** What the sweep of the remaining timers adds completes the whole. */
  predicate Remains<C(==)>(whole: Swept<C>, kept: seq<Timer>, added: seq<Timer>, log: seq<Firing>, rest: Swept<C>) {
    whole == Swept(rest.state, kept + rest.kept, added + rest.added, log + rest.fired, rest.made)
  }

  lemma RemainsAfter<C>(act: (C, nat, Timer) -> (C, seq<Request>), whole: Swept<C>, kept: seq<Timer>, added: seq<Timer>,
                        log: seq<Firing>, now: nat, made: nat, state: C, ts: seq<Timer>)
    requires ts != []
    requires Remains(whole, kept, added, log, Sweep(act, now, made, state, ts))
    ensures if now < ts[0].time then
              Remains(whole, kept + [ts[0]], added, log, Sweep(act, now, made, state, ts[1..]))
            else
              var a := act(state, now, ts[0]);
              Remains(whole, kept + Rearmed(now, ts[0]), added + Created(now, made, a.1), log + [Firing(ts[0].id, now)],
                      Sweep(act, now, made + |a.1|, a.0, ts[1..]))
  {
    if now < ts[0].time {
      Assoc(kept, [ts[0]], Sweep(act, now, made, state, ts[1..]).kept);
    } else {
      var a := act(state, now, ts[0]);
      var r := Sweep(act, now, made + |a.1|, a.0, ts[1..]);
      Assoc(kept, Rearmed(now, ts[0]), r.kept);
      Assoc(added, Created(now, made, a.1), r.added);
      Assoc(log, [Firing(ts[0].id, now)], r.fired);
    }
  }

  lemma NextOf<T>(kept: seq<T>, rest: seq<T>, added: seq<T>)
    requires rest != []
    ensures var ts := kept + rest + added;
            && ts[|kept|] == rest[0]
            && ts[..|kept|] == kept && ts[|kept| + 1..] == rest[1..] + added
            && ts == (kept + [rest[0]]) + rest[1..] + added
  {
  }

  lemma FiredInside<T>(kept: seq<T>, rest: seq<T>, added: seq<T>, born: seq<T>, again: seq<T>)
    requires rest != []
    ensures var ts := kept + rest + added;
            ts[..|kept|] + again + (ts[|kept| + 1..] + born) == (kept + again) + rest[1..] + (added + born)
  {
    NextOf(kept, rest, added);
    assert (rest[1..] + added) + born == rest[1..] + (added + born);
  }

  // When timers fire ---------------------------------------------------------------------------

  /** What becomes of the timers of a list, whatever the callbacks do. */
  function Kept(now: nat, ts: seq<Timer>): seq<Timer> {
    if ts == [] then [] else (if now < ts[0].time then [ts[0]] else Rearmed(now, ts[0])) + Kept(now, ts[1..])
  }

  function Firings(now: nat, ts: seq<Timer>): seq<Firing> {
    if ts == [] then [] else (if now < ts[0].time then [] else [Firing(ts[0].id, now)]) + Firings(now, ts[1..])
  }

  function Ids(ts: seq<Timer>): set<nat> {
    if ts == [] then {} else {ts[0].id} + Ids(ts[1..])
  }

  predicate Distinct(ts: seq<Timer>) {
    ts == [] || (ts[0].id !in Ids(ts[1..]) && Distinct(ts[1..]))
  }

  predicate Within(ids: set<nat>, lo: nat, hi: nat) { forall id :: id in ids ==> lo <= id < hi }

  predicate Later(now: nat, ts: seq<Timer>) { forall i :: 0 <= i < |ts| ==> now < ts[i].time }

  /** Between ticks: every timer lies in the future, and no two are the same. */
  predicate Good<C>(db: Db<C>) {
    && Distinct(db.timers) && Within(Ids(db.timers), 0, db.made) && Later(db.now, db.timers)
    && forall i :: 0 <= i < |db.fired| ==> db.fired[i].id < db.made && db.fired[i].at <= db.now
  }

  lemma {:induction false} IdsOfBoth(a: seq<Timer>, b: seq<Timer>)
    ensures Ids(a + b) == Ids(a) + Ids(b)
    ensures Distinct(a) && Distinct(b) && Ids(a) !! Ids(b) ==> Distinct(a + b)
  {
    if a == [] {
      assert a + b == b;
    } else {
      assert (a + b)[1..] == a[1..] + b;
      IdsOfBoth(a[1..], b);
    }
  }

  lemma {:induction false} IdIn(ts: seq<Timer>, t: Timer)
    requires t in ts
    ensures t.id in Ids(ts)
  {
    if ts[0] != t {
      IdIn(ts[1..], t);
    }
  }

  lemma {:induction false} CreatedAreGood(now: nat, made: nat, reqs: seq<Request>)
    ensures var ts := Created(now, made, reqs);
            Distinct(ts) && Within(Ids(ts), made, made + |reqs|) && Later(now, ts)
    decreases |reqs|
  {
    if reqs != [] {
      CreatedAreGood(now, made + 1, reqs[1..]);
      assert Created(now, made, reqs)[1..] == Created(now, made + 1, reqs[1..]);
    }
  }

  lemma {:induction false} KeptAreGood(now: nat, ts: seq<Timer>)
    requires Distinct(ts)
    ensures Distinct(Kept(now, ts)) && Ids(Kept(now, ts)) <= Ids(ts) && Later(now, Kept(now, ts))
  {
    if ts != [] {
      KeptAreGood(now, ts[1..]);
      var first := if now < ts[0].time then [ts[0]] else Rearmed(now, ts[0]);
      assert |first| <= 1 && (first != [] ==> first[1..] == [] && first[0].id == ts[0].id);
      IdsOfBoth(first, Kept(now, ts[1..]));
    }
  }

  /** The sweep in closed form: what is kept and what fires. */
  lemma {:induction false} SweepIs<C>(act: (C, nat, Timer) -> (C, seq<Request>), now: nat, made: nat, state: C,
                                      ts: seq<Timer>)
    ensures var r := Sweep(act, now, made, state, ts); r.kept == Kept(now, ts) && r.fired == Firings(now, ts)
    decreases |ts|
  {
    if ts != [] {
      if now < ts[0].time {
        SweepIs(act, now, made, state, ts[1..]);
      } else {
        var a := act(state, now, ts[0]);
        SweepIs(act, now, made + |a.1|, a.0, ts[1..]);
      }
    }
  }

  /** What callbacks add is new and not due. */
  predicate Fresh(now: nat, lo: nat, hi: nat, ts: seq<Timer>) {
    Distinct(ts) && Within(Ids(ts), lo, hi) && Later(now, ts)
  }

  lemma {:induction false} AddedAreFresh<C>(act: (C, nat, Timer) -> (C, seq<Request>), now: nat, made: nat, state: C,
                                            ts: seq<Timer>)
    ensures var r := Sweep(act, now, made, state, ts); Fresh(now, made, r.made, r.added)
    decreases |ts|
  {
    if ts != [] {
      if now < ts[0].time {
        AddedAreFresh(act, now, made, state, ts[1..]);
      } else {
        var a := act(state, now, ts[0]);
        AddedAreFresh(act, now, made + |a.1|, a.0, ts[1..]);
        CreatedAreGood(now, made, a.1);
        BothAreFresh(now, made, made + |a.1|, Created(now, made, a.1), Sweep(act, now, made + |a.1|, a.0, ts[1..]).made,
                     Sweep(act, now, made + |a.1|, a.0, ts[1..]).added);
      }
    }
  }

  lemma BothAreFresh(now: nat, lo: nat, mid: nat, a: seq<Timer>, hi: nat, b: seq<Timer>)
    requires lo <= mid <= hi && Fresh(now, lo, mid, a) && Fresh(now, mid, hi, b)
    ensures Fresh(now, lo, hi, a + b)
  {
    IdsOfBoth(a, b);
  }

  lemma TickIs<C>(act: (C, nat, Timer) -> (C, seq<Request>), db: Db<C>) returns (added: seq<Timer>)
    ensures var next := Tick(act, db);
            && next.now == db.now + 1 && next.made >= db.made
            && next.timers == Kept(next.now, db.timers) + added && Fresh(next.now, db.made, next.made, added)
            && next.fired == db.fired + Firings(next.now, db.timers)
  {
    SweepIs(act, db.now + 1, db.made, db.state, db.timers);
    AddedAreFresh(act, db.now + 1, db.made, db.state, db.timers);
    added := Sweep(act, db.now + 1, db.made, db.state, db.timers).added;
  }

  lemma {:induction false} FiringsAreNow(now: nat, ts: seq<Timer>)
    ensures forall i :: 0 <= i < |Firings(now, ts)| ==>
              Firings(now, ts)[i].at == now && Firings(now, ts)[i].id in Ids(ts)
  {
    if ts != [] {
      FiringsAreNow(now, ts[1..]);
    }
  }

  lemma TickIsGood<C>(act: (C, nat, Timer) -> (C, seq<Request>), db: Db<C>)
    requires Good(db)
    ensures Good(Tick(act, db))
  {
    var added := TickIs(act, db);
    KeptAreGood(db.now + 1, db.timers);
    IdsOfBoth(Kept(db.now + 1, db.timers), added);
    FiringsAreNow(db.now + 1, db.timers);
  }

  lemma SetIsGood<C>(db: Db<C>, req: Request)
    requires Good(db)
    ensures Good(Set(db, req))
  {
    var one := [Timer(db.made, db.now + req.interval, req)];
    assert one[1..] == [] && Ids(one) == {db.made} && Distinct(one);
    IdsOfBoth(db.timers, one);
  }

  // Runs -----------------------------------------------------------------------------------------

  datatype Step<C> = SecondPasses | SetTimer(req: Request) | Elsewhere(state: C)

  function Apply<C>(act: (C, nat, Timer) -> (C, seq<Request>), db: Db<C>, step: Step<C>): Db<C> {
    match step
    case SecondPasses => Tick(act, db)
    case SetTimer(req) => Set(db, req)
    case Elsewhere(state) => db.(state := state)
  }

  function Run<C>(act: (C, nat, Timer) -> (C, seq<Request>), db: Db<C>, steps: seq<Step<C>>): Db<C>
    decreases |steps|
  {
    if steps == [] then db else Run(act, Apply(act, db, steps[0]), steps[1..])
  }

  /** How often a timer has fired at a time. */
  function Count(fired: seq<Firing>, id: nat, at: nat): nat { multiset(fired)[Firing(id, at)] }

  lemma CountOfBoth(a: seq<Firing>, b: seq<Firing>, id: nat, at: nat)
    ensures Count(a + b, id, at) == Count(a, id, at) + Count(b, id, at)
  {
    assert multiset(a + b) == multiset(a) + multiset(b);
  }

  lemma {:induction false} NoFiring(now: nat, ts: seq<Timer>, id: nat, at: nat)
    requires id !in Ids(ts)
    ensures Count(Firings(now, ts), id, at) == 0
  {
    if ts != [] {
      NoFiring(now, ts[1..], id, at);
      CountOfBoth(if now < ts[0].time then [] else [Firing(ts[0].id, now)], Firings(now, ts[1..]), id, at);
    }
  }

  lemma {:induction false} OneFiring(now: nat, ts: seq<Timer>, t: Timer, at: nat)
    requires t in ts && Distinct(ts)
    ensures Count(Firings(now, ts), t.id, at) == if at == now && t.time <= now then 1 else 0
  {
    var first := if now < ts[0].time then [] else [Firing(ts[0].id, now)];
    CountOfBoth(first, Firings(now, ts[1..]), t.id, at);
    if ts[0] == t {
      NoFiring(now, ts[1..], t.id, at);
    } else {
      IdIn(ts[1..], t);
      OneFiring(now, ts[1..], t, at);
    }
  }

  lemma {:induction false} OneKept(now: nat, ts: seq<Timer>, t: Timer)
    requires t in ts && Distinct(ts)
    ensures now < t.time ==> t in Kept(now, ts)
    ensures t.time <= now ==>
              if t.req.singleShot then t.id !in Ids(Kept(now, ts))
              else t.(time := now + t.req.interval) in Kept(now, ts)
  {
    var first := if now < ts[0].time then [ts[0]] else Rearmed(now, ts[0]);
    IdsOfBoth(first, Kept(now, ts[1..]));
    KeptAreGood(now, ts[1..]);
    if ts[0] != t {
      IdIn(ts[1..], t);
      OneKept(now, ts[1..], t);
      assert Ids(first) <= {ts[0].id};
    }
  }

  /** The times at which a timer is to fire, from its next one on. */
  predicate Due(t: Timer, at: nat) {
    if t.req.singleShot then at == t.time else at >= t.time && (at - t.time) % t.req.interval == 0
  }

  lemma DueAgain(t: Timer, at: nat)
    requires !t.req.singleShot && t.time < at
    ensures Due(t, at) <==> Due(t.(time := t.time + t.req.interval), at)
  {
    var n, d := t.req.interval, at - t.time;
    if d < n {
      assert d % n == d;
    } else {
      assert d == (d - n) + n;
      ModOfMore(d - n, n);
    }
  }

  lemma ModOfMore(d: nat, n: pos)
    ensures (d + n) % n == d % n
  {
    var k := (d + n) / n - d / n - 1;
    assert k * n == d % n - (d + n) % n;
    if k >= 1 {
      AtLeast(k, n);
    } else if k <= -1 {
      AtLeast(-k, n);
    }
  }

  lemma AtLeast(k: int, n: pos)
    requires k >= 1
    ensures k * n >= n
  {
    assert k * n == n + (k - 1) * n;
  }

  /** A timer that is no longer in the list never fires again. */
  lemma {:induction false} GoneIsQuiet<C>(act: (C, nat, Timer) -> (C, seq<Request>), db: Db<C>, id: nat,
                                          steps: seq<Step<C>>, at: nat)
    requires Good(db) && id < db.made && id !in Ids(db.timers)
    ensures Count(Run(act, db, steps).fired, id, at) == Count(db.fired, id, at)
    decreases |steps|
  {
    if steps != [] {
      var next := Apply(act, db, steps[0]);
      match steps[0] {
        case SecondPasses =>
          TickIsGood(act, db);
          TickGone(act, db, id, at);
        case SetTimer(req) =>
          SetIsGood(db, req);
          IdsOfBoth(db.timers, [Timer(db.made, db.now + req.interval, req)]);
        case Elsewhere(_) =>
      }
      GoneIsQuiet(act, next, id, steps[1..], at);
    }
  }

  lemma TickGone<C>(act: (C, nat, Timer) -> (C, seq<Request>), db: Db<C>, id: nat, at: nat)
    requires Good(db) && id < db.made && id !in Ids(db.timers)
    ensures id !in Ids(Tick(act, db).timers) && Count(Tick(act, db).fired, id, at) == Count(db.fired, id, at)
  {
    var now := db.now + 1;
    var added := TickIs(act, db);
    KeptAreGood(now, db.timers);
    IdsOfBoth(Kept(now, db.timers), added);
    NoFiring(now, db.timers, id, at);
    CountOfBoth(db.fired, Firings(now, db.timers), id, at);
  }

  /** One second in the life of a timer. */
  lemma TickFires<C>(act: (C, nat, Timer) -> (C, seq<Request>), db: Db<C>, t: Timer, at: nat)
    requires Good(db) && t in db.timers
    ensures var next := Tick(act, db);
            && Count(next.fired, t.id, at) == Count(db.fired, t.id, at) + (if at == next.now == t.time then 1 else 0)
            && if next.now < t.time then t in next.timers
               else t.time == next.now && if t.req.singleShot then t.id !in Ids(next.timers)
                    else t.(time := t.time + t.req.interval) in next.timers
  {
    var now := db.now + 1;
    var added := TickIs(act, db);
    OneFiring(now, db.timers, t, at);
    CountOfBoth(db.fired, Firings(now, db.timers), t.id, at);
    var i :| 0 <= i < |db.timers| && db.timers[i] == t;
    OneStays(now, db.timers, t, added, db.made);
  }

  lemma OneStays(now: nat, ts: seq<Timer>, t: Timer, added: seq<Timer>, made: nat)
    requires t in ts && Distinct(ts) && Within(Ids(ts), 0, made) && (forall id :: id in Ids(added) ==> made <= id)
    ensures var all := Kept(now, ts) + added;
            if now < t.time then t in all
            else if t.req.singleShot then t.id !in Ids(all) else t.(time := now + t.req.interval) in all
  {
    IdIn(ts, t);
    IdsOfBoth(Kept(now, ts), added);
    OneKept(now, ts, t);
  }

  predicate Passed<C>(db: Db<C>, end: Db<C>, at: nat) { db.now < at <= end.now }

  lemma {:induction false} TimePasses<C>(act: (C, nat, Timer) -> (C, seq<Request>), db: Db<C>, steps: seq<Step<C>>)
    ensures db.now <= Run(act, db, steps).now
    decreases |steps|
  {
    if steps != [] {
      TimePasses(act, Apply(act, db, steps[0]), steps[1..]);
    }
  }

  /** A timer fires once at each time at which it is due, and at no other, whatever happens meanwhile. */
  lemma {:induction false} FiresExactly<C>(act: (C, nat, Timer) -> (C, seq<Request>), db: Db<C>, t: Timer,
                                           steps: seq<Step<C>>, at: nat)
    requires Good(db) && t in db.timers
    ensures var end := Run(act, db, steps);
            Count(end.fired, t.id, at) == Count(db.fired, t.id, at) +
              (if Passed(db, end, at) && Due(t, at) then 1 else 0)
    decreases |steps|
  {
    if steps != [] {
      var next := Apply(act, db, steps[0]);
      TimePasses(act, next, steps[1..]);
      match steps[0] {
        case SecondPasses =>
          TickIsGood(act, db);
          TickFires(act, db, t, at);
          if next.now < t.time {
            FiresExactly(act, next, t, steps[1..], at);
          } else if t.req.singleShot {
            IdIn(db.timers, t);
            GoneIsQuiet(act, next, t.id, steps[1..], at);
          } else {
            var again := t.(time := t.time + t.req.interval);
            FiresExactly(act, next, again, steps[1..], at);
            if t.time < at {
              DueAgain(t, at);
            }
          }
        case SetTimer(req) =>
          SetIsGood(db, req);
          FiresExactly(act, next, t, steps[1..], at);
        case Elsewhere(_) =>
          FiresExactly(act, next, t, steps[1..], at);
      }
    }
  }

  lemma {:induction false} NeverFired(fired: seq<Firing>, id: nat, at: nat)
    requires forall i :: 0 <= i < |fired| ==> fired[i].id != id
    ensures Count(fired, id, at) == 0
  {
  }

  /** A new single-shot timer fires once, its interval later; a new periodic one at every multiple of
      its interval. */
  lemma TimersAreExact<C>(act: (C, nat, Timer) -> (C, seq<Request>), db: Db<C>, req: Request, steps: seq<Step<C>>,
                          at: nat)
    requires Good(db)
    ensures var end := Run(act, Set(db, req), steps);
            Count(end.fired, db.made, at) ==
            if Passed(db, end, at)
               && (if req.singleShot then at == db.now + req.interval else (at - db.now) % req.interval == 0)
            then 1 else 0
  {
    var t := Timer(db.made, db.now + req.interval, req);
    SetIsGood(db, req);
    FiresExactly(act, Set(db, req), t, steps, at);
    NeverFired(db.fired, db.made, at);
    if !req.singleShot && db.now < at {
      DueAgain(t.(time := db.now), at);
    }
  }
}
