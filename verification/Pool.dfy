/** The pool of connections: allocation, liveness and parallel connections (src/wish_connection.c,
    src/wish_connection_mgr.c, src/wish_event.c). */
module Pool {
  import opened Basics
  import opened Bytes
  import opened Protocol

  const PING_INTERVAL: nat := 10
  const PING_TIMEOUT: nat := PING_INTERVAL + 30
  const SETUP_TIMEOUT: nat := PING_TIMEOUT

  /** What the pool's own functions look at in a slot. */
  datatype Slot = Slot(ctx: ContextState, luid: seq<byte>, ruid: seq<byte>, rhid: seq<byte>, latest: nat, ping: nat)

  /** A slot after it has been closed. */
  const FREE: Slot := Slot(Free, ZERO_ID, ZERO_ID, ZERO_ID, 0, 0)

  datatype Event =
    | Allocated(slot: nat)
    | Heard(slot: nat)
    | Pinged(slot: nat)
    | Dropped(slot: nat)

  datatype State = State(slots: seq<Slot>, log: seq<Event>)

  // Host ids -----------------------------------------------------------------------------------

  /** memcmp(a, b) < 0 */
  predicate Less(a: seq<byte>, b: seq<byte>)
    requires |a| == |b|
  {
    a != [] && (a[0] < b[0] || (a[0] == b[0] && Less(a[1..], b[1..])))
  }

  /** Of two cores with different host ids exactly one finds the other's id smaller. */
  lemma {:induction false} ExactlyOneCloser(a: seq<byte>, b: seq<byte>)
    requires |a| == |b| && a != b
    ensures Less(a, b) <==> !Less(b, a)
  {
    if a[0] == b[0] {
      assert a == [a[0]] + a[1..] && b == [b[0]] + b[1..];
      ExactlyOneCloser(a[1..], b[1..]);
    }
  }

  /** The first byte that differs decides. */
  lemma {:induction false} LessMeans(a: seq<byte>, b: seq<byte>)
    requires |a| == |b|
    ensures Less(a, b) <==> exists i :: 0 <= i < |a| && a[i] < b[i] && a[..i] == b[..i]
  {
    if a != [] {
      LessMeans(a[1..], b[1..]);
      if a[0] == b[0] && Less(a[1..], b[1..]) {
        var i :| 0 <= i < |a[1..]| && a[1..][i] < b[1..][i] && a[1..][..i] == b[1..][..i];
        assert a[..i + 1] == [a[0]] + a[1..][..i] && b[..i + 1] == [b[0]] + b[1..][..i];
        assert a[i + 1] < b[i + 1];
      }
      if a[0] < b[0] {
        assert a[..0] == b[..0];
      }
      if i :| 0 <= i < |a| && a[i] < b[i] && a[..i] == b[..i] {
        FirstAgrees(a, b, i);
      }
    }
  }

  lemma FirstAgrees(a: seq<byte>, b: seq<byte>, i: nat)
    requires i < |a| == |b| && a[i] < b[i] && a[..i] == b[..i]
    ensures i == 0 ==> a[0] < b[0]
    ensures i > 0 ==> a[0] == b[0] && a[1..][i - 1] < b[1..][i - 1] && a[1..][..i - 1] == b[1..][..i - 1]
  {
    if i > 0 {
      assert a[0] == a[..i][0] && b[0] == b[..i][0];
      assert a[1..][..i - 1] == a[..i][1..] && b[1..][..i - 1] == b[..i][1..];
    }
  }

  lemma {:induction false} LessIsStrict(a: seq<byte>)
    ensures !Less(a, a)
  {
    if a != [] {
      LessIsStrict(a[1..]);
    }
  }

  // Specifications -------------------------------------------------------------------------------

  predicate SameClass(a: Slot, b: Slot) { a.luid == b.luid && a.ruid == b.ruid && a.rhid == b.rhid }

  predicate NeedsPing(now: nat, c: Slot) { c.ctx == Connected && now > c.latest + PING_INTERVAL && c.ping <= c.latest }

  predicate TooSilent(now: nat, c: Slot) {
    match c.ctx
    case Connected => now > c.latest + PING_TIMEOUT && c.ping > c.latest
    case InMaking => now > c.latest + SETUP_TIMEOUT
    case Closing => true
    case Free => false
  }

  function AfterPing(now: nat, c: Slot): Slot { if NeedsPing(now, c) then c.(ping := now) else c }

  function CheckedSlot(now: nat, c: Slot): Slot {
    if TooSilent(now, AfterPing(now, c)) then FREE else AfterPing(now, c)
  }

  function CheckEvents(now: nat, i: nat, c: Slot): seq<Event> {
    (if NeedsPing(now, c) then [Pinged(i)] else []) + (if TooSilent(now, AfterPing(now, c)) then [Dropped(i)] else [])
  }

  /** check_connection_liveliness from slot number i on. */
  function Checked(now: nat, i: nat, st: State): State
    requires i <= |st.slots|
    decreases |st.slots| - i
  {
    if i == |st.slots| then st
    else
      var c := st.slots[i];
      Checked(now, i + 1, State(st.slots[i := CheckedSlot(now, c)], st.log + CheckEvents(now, i, c)))
  }

  predicate Parallel(st: State, x: nat, i: nat)
    requires x < |st.slots| && i < |st.slots|
  {
    i != x && st.slots[i].ctx == Connected && SameClass(st.slots[i], st.slots[x])
  }

  /** The loop of wish_close_parallel_connections for slot x, from slot number i on. */
  function ClosedFrom(x: nat, i: nat, st: State): State
    requires x < |st.slots| && i <= |st.slots|
    decreases |st.slots| - i
  {
    if i == |st.slots| then st
    else ClosedFrom(x, i + 1, if Parallel(st, x, i) then CloseSlot(st, i) else st)
  }

  function CloseSlot(st: State, i: nat): State
    requires i < |st.slots|
  {
    State(st.slots[i := FREE], st.log + [Dropped(i)])
  }

  function ParallelClosed(x: nat, st: State): State {
    if x < |st.slots| && st.slots[x].ctx == Connected then ClosedFrom(x, 0, st) else st
  }

  // In place ---------------------------------------------------------------------------------------

  class ConnectionPool {
    const slots: array<Slot>
    var log: seq<Event>

    constructor (size: nat)
      ensures fresh(slots) && slots.Length == size && log == []
      ensures forall i :: 0 <= i < size ==> slots[i] == FREE
    {
      slots := new Slot[size](i => FREE);
      log := [];
    }

    function Contents(): State
      reads this, slots
    {
      State(slots[..], log)
    }

    /** wish_close_connection */
    method Close(i: nat)
      requires i < slots.Length
      modifies this, slots
      ensures Contents() == CloseSlot(old(Contents()), i)
    {
      slots[i] := FREE;
      log := log + [Dropped(i)];
    }

    /** wish_connection_init: the first free slot, if there is one. */
    method Allocate(now: nat, luid: seq<byte>, ruid: seq<byte>) returns (i: nat)
      modifies this, slots
      ensures i <= slots.Length
      ensures forall j :: 0 <= j < i ==> old(slots[j].ctx) != Free
      ensures if i == slots.Length then Contents() == old(Contents())
              else old(slots[i].ctx) == Free && Contents() == AllocatedAt(now, i, luid, ruid, old(Contents()))
    {
      i := 0;
      while i < slots.Length
        invariant i <= slots.Length
        invariant forall j :: 0 <= j < i ==> slots[j].ctx != Free
        invariant Contents() == old(Contents())
      {
        if slots[i].ctx == Free {
          slots[i] := slots[i].(ctx := InMaking, latest := now);
          slots[i] := slots[i].(luid := luid, ruid := ruid);
          log := log + [Allocated(i)];
          return;
        }
        i := i + 1;
      }
    }

    /** check_connection_liveliness */
    method CheckLiveliness(now: nat)
      modifies this, slots
      ensures Contents() == Checked(now, 0, old(Contents()))
    {
      ghost var was := Contents();
      for i := 0 to slots.Length
        invariant Checked(now, i, Contents()) == Checked(now, 0, was)
      {
        var c := slots[i];
        ghost var before := Contents();
        match c.ctx {
          case Connected =>
            if now > c.latest + PING_INTERVAL && c.ping <= c.latest {
              log := log + [Pinged(i)];
              slots[i] := c.(ping := now);
            }
            if now > slots[i].latest + PING_TIMEOUT && slots[i].ping > slots[i].latest {
              Close(i);
            }
          case InMaking =>
            if now > c.latest + SETUP_TIMEOUT {
              Close(i);
            }
          case Closing => Close(i);
          case Free =>
        }
        assert Contents() == State(before.slots[i := CheckedSlot(now, c)], before.log + CheckEvents(now, i, c));
      }
    }

    /** wish_close_parallel_connections */
    method CloseParallel(x: nat)
      requires x < slots.Length
      modifies this, slots
      ensures Contents() == ParallelClosed(x, old(Contents()))
    {
      if slots[x].ctx != Connected {
        return;
      }
      ghost var was := Contents();
      for i := 0 to slots.Length
        invariant ClosedFrom(x, i, Contents()) == ClosedFrom(x, 0, was)
      {
        if i == x {
          continue;
        }
        var c := slots[i];
        if c.luid == slots[x].luid && c.ruid == slots[x].ruid && c.rhid == slots[x].rhid && c.ctx == Connected {
          Close(i);
        }
      }
    }
  }

  function AllocatedAt(now: nat, i: nat, luid: seq<byte>, ruid: seq<byte>, st: State): State
    requires i < |st.slots|
  {
    State(st.slots[i := st.slots[i].(ctx := InMaking, latest := now, luid := luid, ruid := ruid)],
          st.log + [Allocated(i)])
  }

  // What the specifications mean, slot by slot -------------------------------------------------------

  lemma {:induction false} CheckedSlots(now: nat, i: nat, st: State)
    requires i <= |st.slots|
    ensures var r := Checked(now, i, st);
            && |r.slots| == |st.slots|
            && (forall k :: 0 <= k < |st.slots| ==>
                  r.slots[k] == if k < i then st.slots[k] else CheckedSlot(now, st.slots[k]))
    decreases |st.slots| - i
  {
    if i < |st.slots| {
      var slots, log := st.slots[i := CheckedSlot(now, st.slots[i])], st.log + CheckEvents(now, i, st.slots[i]);
      CheckedSlots(now, i + 1, State(slots, log));
    }
  }

  lemma {:induction false} ClosedSlots(x: nat, i: nat, st: State)
    requires x < |st.slots| && i <= |st.slots|
    ensures var r := ClosedFrom(x, i, st);
            && |r.slots| == |st.slots|
            && (forall k :: 0 <= k < |st.slots| ==>
                  r.slots[k] == if i <= k && Parallel(st, x, k) then FREE else st.slots[k])
    decreases |st.slots| - i
  {
    if i < |st.slots| {
      var next := if Parallel(st, x, i) then CloseSlot(st, i) else st;
      ClosedSlots(x, i + 1, next);
      assert forall k :: i < k < |st.slots| ==> Parallel(next, x, k) == Parallel(st, x, k);
    }
  }

  /** A check of parallel connections never empties a class. */
  lemma CloseKeepsOne(x: nat, st: State, k: nat)
    requires x < |st.slots| && k < |st.slots| && st.slots[k].ctx == Connected
    ensures var r := ParallelClosed(x, st);
            && |r.slots| == |st.slots|
            && exists k' :: 0 <= k' < |st.slots| && r.slots[k'] == st.slots[k'] &&
                            st.slots[k'].ctx == Connected && SameClass(st.slots[k'], st.slots[k])
  {
    if st.slots[x].ctx == Connected {
      ClosedSlots(x, 0, st);
      var k' := if Parallel(st, x, k) then x else k;
      assert ParallelClosed(x, st).slots[k'] == st.slots[k'];
    }
  }

  /** A check of liveness, slot by slot: a connected one is closed after more than 40 silent seconds, and then
      it has been pinged since its last input; it is pinged after more than ten, once; one in the making is
      closed after more than 40 seconds; one that is closing is closed. */
  lemma CheckMeans(now: nat, c: Slot)
    ensures var r := CheckedSlot(now, c);
            && (c.ctx == Connected ==> (r == FREE <==> now > c.latest + 40))
            && (c.ctx == Connected && r != FREE ==>
                  r == if now > c.latest + 10 && c.ping <= c.latest then c.(ping := now) else c)
            && (c.ctx == Connected && r == FREE ==> AfterPing(now, c).ping > c.latest)
            && (c.ctx == InMaking ==> r == if now > c.latest + 40 then FREE else c)
            && (c.ctx == Free ==> r == c) && (c.ctx == Closing ==> r == FREE)
  {
  }

  /** A slot that is taken: between whom, and since when. */
  lemma AllocateMeans(now: nat, i: nat, luid: seq<byte>, ruid: seq<byte>, st: State, k: nat)
    requires i < |st.slots| && k < |st.slots|
    ensures var r := AllocatedAt(now, i, luid, ruid, st);
            && r.slots[k] == (if k == i then Slot(InMaking, luid, ruid, st.slots[i].rhid, now, st.slots[i].ping)
                              else st.slots[k])
            && r.log == st.log + [Allocated(i)]
  {
  }

  /** The check of slot x closes exactly the other connections between the same two users with the same host. */
  lemma CloseMeans(x: nat, st: State, k: nat)
    requires x < |st.slots| && k < |st.slots|
    ensures var c, d := st.slots[x], st.slots[k];
            |ParallelClosed(x, st).slots| == |st.slots| &&
            ParallelClosed(x, st).slots[k] ==
              if c.ctx == Connected && d.ctx == Connected && k != x &&
                 d.luid == c.luid && d.ruid == c.ruid && d.rhid == c.rhid
              then FREE else d
  {
    if st.slots[x].ctx == Connected {
      ClosedSlots(x, 0, st);
    }
  }

  // Pings ------------------------------------------------------------------------------------------------

  /** The pings on a slot since its last input or its allocation. */
  function PingsSince(log: seq<Event>, k: nat): nat {
    if log == [] then 0
    else
      var before, last := log[..|log| - 1], log[|log| - 1];
      if last == Heard(k) || last == Allocated(k) then 0
      else PingsSince(before, k) + (if last == Pinged(k) then 1 else 0)
  }

  lemma PingsAfter(log: seq<Event>, e: Event, k: nat)
    ensures PingsSince(log + [e], k) ==
            if e == Heard(k) || e == Allocated(k) then 0 else PingsSince(log, k) + (if e == Pinged(k) then 1 else 0)
  {
    assert (log + [e])[..|log|] == log;
  }

  lemma PingsAfterCheck(now: nat, log: seq<Event>, i: nat, c: Slot, k: nat)
    ensures PingsSince(log + CheckEvents(now, i, c), k) ==
            PingsSince(log, k) + (if k == i && NeedsPing(now, c) then 1 else 0)
  {
    var a := if NeedsPing(now, c) then [Pinged(i)] else [];
    var b := if TooSilent(now, AfterPing(now, c)) then [Dropped(i)] else [];
    PingsAfter(log, Pinged(i), k);
    PingsAfter(log + a, Dropped(i), k);
    assert log + (a + b) == (log + a) + b;
    assert log + [] == log && (log + a) + [] == log + a;
  }

  lemma {:induction false} CheckedPings(now: nat, i: nat, st: State, k: nat)
    requires i <= |st.slots| && k < |st.slots|
    ensures PingsSince(Checked(now, i, st).log, k) ==
            PingsSince(st.log, k) + (if i <= k && NeedsPing(now, st.slots[k]) then 1 else 0)
    decreases |st.slots| - i
  {
    if i < |st.slots| {
      var c := st.slots[i];
      var next := State(st.slots[i := CheckedSlot(now, c)], st.log + CheckEvents(now, i, c));
      PingsAfterCheck(now, st.log, i, c, k);
      assert k != i ==> next.slots[k] == st.slots[k];
      CheckedPings(now, i + 1, next, k);
    }
  }

  lemma {:induction false} ClosedPings(x: nat, i: nat, st: State, k: nat)
    requires x < |st.slots| && i <= |st.slots|
    ensures PingsSince(ClosedFrom(x, i, st).log, k) == PingsSince(st.log, k)
    decreases |st.slots| - i
  {
    if i < |st.slots| {
      PingsAfter(st.log, Dropped(i), k);
      ClosedPings(x, i + 1, if Parallel(st, x, i) then CloseSlot(st, i) else st, k);
    }
  }
}
