/** The sweeper: how long an idle entry can stay in memory, and which entries it takes. */
module Sweeping {
  import opened Types
  import opened BodyBuffers
  import opened Memory
  import opened StoreSpec
  import Stores

  const FIVE_SECONDS := 5 * NS_PER_SECOND
  const ONE_MINUTE := 60 * NS_PER_SECOND

  function Max(a: int, b: int): int { if a >= b then a else b }

  /** Time between two sweeps. */
  function Interval(timeout: int): int {
    Max(FIVE_SECONDS, Min(timeout / 2, ONE_MINUTE))
  }

  method SweepInterval(timeout: int) returns (interval: int)
    ensures interval == Interval(timeout)
    ensures FIVE_SECONDS <= interval <= ONE_MINUTE
    ensures 2 * FIVE_SECONDS <= timeout <= 2 * ONE_MINUTE ==> 2 * interval <= timeout < 2 * interval + 2
  {
    interval := if timeout >= 0 then timeout / 2 else -((-timeout) / 2);
    if interval < FIVE_SECONDS {
      interval := FIVE_SECONDS;
    }
    if interval > ONE_MINUTE {
      interval := ONE_MINUTE;
    }
  }

  predicate AreSweeps(ops: seq<Op>, timeout: int, message: string, ticks: seq<int>) {
    && |ops| == |ticks|
    && forall i :: 0 <= i < |ops| ==> ops[i].OpSweep? && ops[i] == OpSweep(ops[i].order, timeout, message, ticks[i])
  }

  /** The loop over the ticks: one sweep at each. */
  method SweepTicks(st: Stores.Store, timeout: int, message: string, ticks: seq<int>) returns (ghost ops: seq<Op>)
    requires st.Valid()
    modifies st.Footprint()
    ensures st.Valid() && AreSweeps(ops, timeout, message, ticks)
    ensures st.State() == Run(st.cfg, old(st.State()), ops)
  {
    ops := [];
    for i := 0 to |ticks|
      invariant st.Valid() && st.SameObjects()
      invariant AreSweeps(ops, timeout, message, ticks[..i])
      invariant st.State() == Run(st.cfg, old(st.State()), ops)
    {
      ghost var s := st.State();
      var n, order := st.SweepPending(timeout, message, ticks[i]);
      ghost var op := OpSweep(order, timeout, message, ticks[i]);
      RunOne(st.cfg, s, op);
      RunAppend(st.cfg, old(st.State()), ops, [op]);
      ops := ops + [op];
    }
    assert ticks[..|ticks|] == ticks;
  }

  // --- One sweep ---

  /** The notification that an entry ended. */
  predicate Announced(events: seq<Event>, e: Entry) {
    Updated(e.id, e) in events
  }

  lemma {:induction false} EventsOnlyGrow(cfg: Config, s: State, ids: seq<string>, fn: Edit, now: int)
    ensures s.events <= FinalizeAll(cfg, s, ids, fn, now).events
    decreases |ids|
  {
    if ids != [] {
      EventsOnlyGrow(cfg, Finalize(cfg, s, ids[0], fn, now), ids[1..], fn, now);
    }
  }

  lemma {:induction false} SweptIsAnnounced(cfg: Config, s: State, ids: seq<string>, fn: Edit, now: int, id: string)
    requires Inv(s) && NoDup(ids) && id in ids && id in s.mem
    ensures Announced(FinalizeAll(cfg, s, ids, fn, now).events, Snapshot(Finished(s.mem[id], fn, now)))
    decreases |ids|
  {
    var s1 := Finalize(cfg, s, ids[0], fn, now);
    var e := Snapshot(Finished(s.mem[id], fn, now));
    FinalizeKeepsInv(cfg, s, ids[0], fn, now);
    if ids[0] == id {
      assert s1.events[|s.events|] == Updated(e.id, e);
      EventsOnlyGrow(cfg, s1, ids[1..], fn, now);
      assert FinalizeAll(cfg, s1, ids[1..], fn, now).events[|s.events|] == Updated(e.id, e);
    } else {
      SweptIsAnnounced(cfg, s1, ids[1..], fn, now, id);
    }
  }

  /** A sweep takes exactly the entries idle for longer than the timeout, leaves the others untouched, and announces
      each one taken as failed, with the timeout message unless it already carried an error. */
  lemma SweepTakesTheIdle(cfg: Config, s: State, order: seq<string>, timeout: int, message: string, now: int, id: string)
    requires Inv(s) && Enumerates(order, StaleIds(s, timeout, now)) && id in s.mem
    ensures var s' := Sweep(cfg, s, order, message, now);
            if now - s.mem[id].lastSeen > timeout then
              && id !in s'.mem
              && var e := Snapshot(Finished(s.mem[id], TimeoutEdit(message), now));
              && Announced(s'.events, e)
              && e.id == id && e.status == Error
              && e.error == (if s.mem[id].entry.error == "" then message else s.mem[id].entry.error)
            else id in s'.mem && s'.mem[id] == s.mem[id]
  {
    SweepEmptiesMemory(cfg, s, order, TimeoutEdit(message), now);
    if now - s.mem[id].lastSeen > timeout {
      assert id in StaleIds(s, timeout, now);
      SweptIsAnnounced(cfg, s, order, TimeoutEdit(message), now, id);
    } else {
      assert id !in StaleIds(s, timeout, now);
    }
  }

  // --- Runs against the clock ---

  /** When an operation reads the clock, if it does. */
  function TimeOf(op: Op): Option<int> {
    match op
    case OpPut(_, _, now) => Some(now)
    case OpAppendResponse(_, _, _, now) => Some(now)
    case OpUpdate(_, _, now) => Some(now)
    case OpFinalize(_, _, now) => Some(now)
    case OpSweep(_, _, _, now) => Some(now)
    case _ => None
  }

  /** The time now, and the time of the next tick. */
  datatype Clock = Clock(now: int, next: int)

  function Advance(timeout: int, c: Clock, op: Op): Clock {
    match TimeOf(op)
    case None => c
    case Some(t) => Clock(t, if op.OpSweep? then t + Interval(timeout) else c.next)
  }

  /** Time does not run backwards, and sweeps happen at the ticks, all of them and with the given timeout. */
  predicate OnTime(timeout: int, c: Clock, op: Op) {
    match TimeOf(op)
    case None => true
    case Some(t) => c.now <= t <= c.next && (op.OpSweep? ==> t == c.next && op.timeout == timeout)
  }

  ghost predicate TimedRun(cfg: Config, timeout: int, s: State, c: Clock, ops: seq<Op>)
    decreases |ops|
  {
    ops == [] ||
    (&& Enabled(s, ops[0])
     && OnTime(timeout, c, ops[0])
     && TimedRun(cfg, timeout, Step(cfg, s, ops[0]), Advance(timeout, c, ops[0]), ops[1..]))
  }

  function ClockAfter(timeout: int, c: Clock, ops: seq<Op>): Clock
    decreases |ops|
  {
    if ops == [] then c else ClockAfter(timeout, Advance(timeout, c, ops[0]), ops[1..])
  }

  /** The next tick comes soon enough for every entry still in memory. */
  ghost predicate InTime(timeout: int, s: State, c: Clock) {
    && c.now <= c.next <= c.now + Interval(timeout)
    && forall id :: id in s.mem ==> s.mem[id].lastSeen <= c.now && c.next <= s.mem[id].lastSeen + timeout + Interval(timeout)
  }

  lemma StepInTime(cfg: Config, timeout: int, s: State, c: Clock, op: Op)
    requires timeout > 0 && Inv(s) && InTime(timeout, s, c) && Enabled(s, op) && OnTime(timeout, c, op)
    ensures InTime(timeout, Step(cfg, s, op), Advance(timeout, c, op))
  {
    if op.OpSweep? {
      SweepEmptiesMemory(cfg, s, op.order, TimeoutEdit(op.message), op.now);
      forall id | id in Step(cfg, s, op).mem
        ensures s.mem[id].lastSeen >= op.now - timeout
      {
        assert id !in Elements(op.order);
      }
    }
  }

  /** In every timed run, an entry found in memory was active within timeout + max(5s, min(timeout/2, 60s)): without
      further activity it has left memory by then. */
  lemma {:induction false} IdleEntriesLeave(cfg: Config, timeout: int, s: State, c: Clock, ops: seq<Op>, id: string)
    requires timeout > 0 && Inv(s) && InTime(timeout, s, c) && TimedRun(cfg, timeout, s, c, ops)
    ensures var s', c' := Run(cfg, s, ops), ClockAfter(timeout, c, ops);
            id in s'.mem ==>
              s'.mem[id].lastSeen <= c'.now <= s'.mem[id].lastSeen + timeout + Max(FIVE_SECONDS, Min(timeout / 2, ONE_MINUTE))
    decreases |ops|
  {
    if ops != [] {
      StepInTime(cfg, timeout, s, c, ops[0]);
      StepKeepsInv(cfg, s, ops[0]);
      IdleEntriesLeave(cfg, timeout, Step(cfg, s, ops[0]), Advance(timeout, c, ops[0]), ops[1..], id);
    }
  }

  /** Registration, a response chunk or an update: what counts as activity of an entry. */
  predicate Touches(op: Op, id: string) {
    match op
    case OpPut(e, newId, _) => AssignedId(e, newId) == id
    case OpAppendResponse(x, _, _, _) => x == id
    case OpUpdate(x, _, _) => x == id
    case _ => false
  }

  /** When an entry was last active in a run, `seen` if it was not. */
  function LastActivity(ops: seq<Op>, id: string, seen: int): int {
    if ops == [] then seen
    else LastActivity(ops[1..], id, if Touches(ops[0], id) then TimeOf(ops[0]).value else seen)
  }

  /** The idle time is counted from the last activity. */
  lemma {:induction false} LastSeenIsLastActivity(cfg: Config, s: State, ops: seq<Op>, id: string, seen: int)
    requires id in s.mem ==> s.mem[id].lastSeen == seen
    ensures id in Run(cfg, s, ops).mem ==> Run(cfg, s, ops).mem[id].lastSeen == LastActivity(ops, id, seen)
    decreases |ops|
  {
    if ops != [] {
      var op := ops[0];
      if op.OpSweep? {
        SweepEmptiesMemory(cfg, s, op.order, TimeoutEdit(op.message), op.now);
      }
      LastSeenIsLastActivity(cfg, Step(cfg, s, op), ops[1..], id, if Touches(op, id) then TimeOf(op).value else seen);
    }
  }

  /** The bound is reached: an entry idle for exactly the timeout at one tick waits for the next. */
  lemma BoundIsTight(cfg: Config, timeout: int, s: State, c: Clock, id: string, order: seq<string>, message: string)
    requires timeout > 0 && Inv(s) && id in s.mem && s.mem[id].lastSeen + timeout == c.next && c.now <= c.next
    requires Enumerates(order, StaleIds(s, timeout, c.next))
    ensures var op := OpSweep(order, timeout, message, c.next);
            && OnTime(timeout, c, op) && id in Step(cfg, s, op).mem
            && Advance(timeout, c, op).next == Step(cfg, s, op).mem[id].lastSeen + timeout + Interval(timeout)
  {
    SweepEmptiesMemory(cfg, s, order, TimeoutEdit(message), c.next);
    assert id !in Elements(order);
  }
}
