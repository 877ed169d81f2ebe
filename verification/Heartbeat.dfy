/** The heartbeat sweep over the hub, stateful/heartbeat.go.

    Time is an integer clock that never goes back.  A sweep fixes its `now` once and then walks the hub shard by shard,
    one connection at a time: it reads the connection's metadata, and later closes the connection if what it
    read had expired.  Hub operations, activity updates and ticks happen in between, also between such a read
    and its close, except that the shard being walked is read-locked.
 */
module Heartbeat {
  import opened HubModel
  import opened Sharded

  datatype Due = Nobody | Due(c: Conn)

  /** A sweep in progress: shard `next` is being walked, with `pending` connections to check, once `walking`;
      `due` was read as expired and is about to be closed. */
  datatype Sweep = Idle | Sweeping(now: int, next: nat, walking: bool, pending: set<Conn>, due: Due)

  datatype State = State(hub: HubState, clock: int, last: map<Conn, int>, closed: set<Conn>, sweep: Sweep)

  datatype Step =
    | Tick(d: nat)
    | HubStep(op: Op)
    | UpdateActivity(c: Conn)
    | BeginSweep
    | BeginShard
    | ReadActivity(c: Conn)
    | CloseDue
    | EndShard
    | EndSweep

  predicate Expired(s: State, now: int, c: Conn, timeout: int)
  {
    c in s.last && now - s.last[c] > timeout
  }

  predicate Enabled(s: State, st: Step)
  {
    match st
    case Tick(_) => true
    case HubStep(op) =>
      s.sweep.Sweeping? && s.sweep.walking && !op.SetUser? ==> s.hub.home(op.c.id) != s.sweep.next
    case UpdateActivity(_) => true
    case BeginSweep => s.sweep.Idle?
    case BeginShard => s.sweep.Sweeping? && !s.sweep.walking && s.sweep.next < |s.hub.shards|
    case ReadActivity(c) => s.sweep.Sweeping? && s.sweep.walking && s.sweep.due.Nobody? && c in s.sweep.pending
    case CloseDue => s.sweep.Sweeping? && s.sweep.due.Due?
    case EndShard => s.sweep.Sweeping? && s.sweep.walking && s.sweep.due.Nobody? && s.sweep.pending == {}
    case EndSweep => s.sweep.Sweeping? && !s.sweep.walking && s.sweep.next == |s.hub.shards|
  }

  ghost function Apply(s: State, st: Step, timeout: int): State
    requires Ranged(s.hub) && Enabled(s, st)
  {
    match st
    case Tick(d) => s.(clock := s.clock + d)
    case HubStep(op) => s.(hub := HubModel.Apply(s.hub, op))
    case UpdateActivity(c) => s.(last := s.last[c := s.clock])
    case BeginSweep => s.(sweep := Sweeping(s.clock, 0, false, {}, Nobody))
    case BeginShard =>
      s.(sweep := s.sweep.(walking := true, pending := s.hub.shards[s.sweep.next].connections.Values))
    case ReadActivity(c) =>
      s.(sweep := s.sweep.(pending := s.sweep.pending - {c},
                           due := if Expired(s, s.sweep.now, c, timeout) then Due(c) else Nobody))
    case CloseDue => s.(closed := s.closed + {s.sweep.due.c}, sweep := s.sweep.(due := Nobody))
    case EndShard => s.(sweep := s.sweep.(walking := false, next := s.sweep.next + 1))
    case EndSweep => s.(sweep := Idle)
  }

  /** `closed` only ever holds what sweeps closed; no sweep is in progress at the start. */
  ghost predicate IsRun(states: seq<State>, steps: seq<Step>, timeout: int)
  {
    && |states| == |steps| + 1 && HubModel.Valid(states[0].hub) && states[0].closed == {} && states[0].sweep.Idle?
    && forall i :: 0 <= i < |steps| ==>
         && Ranged(states[i].hub)
         && Enabled(states[i], steps[i])
         && states[i + 1] == Apply(states[i], steps[i], timeout)
  }

  lemma {:induction false} HubStaysValid(states: seq<State>, steps: seq<Step>, timeout: int, i: nat)
    requires IsRun(states, steps, timeout) && i < |states|
    ensures HubModel.Valid(states[i].hub) && states[i].hub.home == states[0].hub.home
    decreases i
  {
    if i > 0 {
      HubStaysValid(states, steps, timeout, i - 1);
      if steps[i - 1].HubStep? { StepRefines(states[i - 1].hub, steps[i - 1].op); }
    }
  }

  ghost predicate RegisteredAt(s: State, c: Conn)
  {
    c.id in Flatten(s.hub).conns && Flatten(s.hub).conns[c.id] == c
  }

  lemma RegisteredInShard(s: State, c: Conn)
    requires HubModel.Valid(s.hub) && RegisteredAt(s, c)
    ensures var h := s.hub.home(c.id);
            h < |s.hub.shards| && c in s.hub.shards[h].connections.Values
  {
    MergeLookup(ConnShards(s.hub), s.hub.home, c.id);
    var shard := s.hub.shards[s.hub.home(c.id)].connections;
    assert c.id in shard && shard[c.id] == c;
  }

  // ---------------------------------------------------------------- never too early

  /** Step `j` is the read, by the sweep that is still going on at `i`, that made `c` due. */
  ghost predicate ReadExpired(states: seq<State>, steps: seq<Step>, timeout: int, j: nat, i: nat, c: Conn)
  {
    && j < i <= |steps| && |states| == |steps| + 1
    && steps[j] == ReadActivity(c)
    && states[j].sweep.Sweeping? && states[i].sweep.Sweeping? && states[j].sweep.now == states[i].sweep.now
    && Expired(states[j], states[j].sweep.now, c, timeout)
    && forall k :: j < k < i ==> !steps[k].ReadActivity? && !steps[k].CloseDue?
  }

  lemma DueStep(s: State, st: Step, timeout: int)
    requires Ranged(s.hub) && Enabled(s, st)
    requires s.sweep.Sweeping? && s.sweep.due.Due? ==> s.sweep.walking
    ensures var t := Apply(s, st, timeout);
            t.sweep.Sweeping? && t.sweep.due.Due? ==>
              && t.sweep.walking
              && (st.ReadActivity? ==>
                    t.sweep.due.c == st.c && s.sweep.Sweeping? && t.sweep.now == s.sweep.now
                    && Expired(s, s.sweep.now, st.c, timeout))
              && (!st.ReadActivity? ==>
                    !st.CloseDue? && s.sweep.Sweeping? && s.sweep.due == t.sweep.due && s.sweep.now == t.sweep.now)
  {
  }

  /** Whatever is due was read as expired, by this sweep. */
  lemma {:induction false} DueWasRead(states: seq<State>, steps: seq<Step>, timeout: int, i: nat) returns (j: nat)
    requires IsRun(states, steps, timeout) && i < |states|
    ensures states[i].sweep.Sweeping? && states[i].sweep.due.Due? ==>
              states[i].sweep.walking && ReadExpired(states, steps, timeout, j, i, states[i].sweep.due.c)
    decreases i
  {
    j := 0;
    if i > 0 {
      var before := DueWasRead(states, steps, timeout, i - 1);
      DueStep(states[i - 1], steps[i - 1], timeout);
      j := if steps[i - 1].ReadActivity? then i - 1 else before;
    }
  }

  /** A sweep closes only what it read as expired: before the close there is its read of this connection, at which the
      connection's activity time was more than `timeout` before the sweep's `now`.  So a sweep that began at or before
      `t + timeout` never closes a connection that it finds last active at `t`. */
  lemma ClosedOnlyWhenExpired(states: seq<State>, steps: seq<Step>, timeout: int, i: nat, c: Conn) returns (j: nat)
    requires IsRun(states, steps, timeout) && i < |steps|
    requires c in states[i + 1].closed && c !in states[i].closed
    ensures steps[i].CloseDue? && ReadExpired(states, steps, timeout, j, i, c)
    ensures c in states[j].last && states[i].sweep.now > states[j].last[c] + timeout
  {
    j := DueWasRead(states, steps, timeout, i);
  }

  /** A connection that never gets an activity time is never closed. */
  lemma {:induction false} SilentNeverClosed(states: seq<State>, steps: seq<Step>, timeout: int, i: nat, c: Conn)
    requires IsRun(states, steps, timeout) && i < |states|
    requires forall j :: 0 <= j < |states| ==> c !in states[j].last
    ensures c !in states[i].closed
    decreases i
  {
    if i > 0 {
      SilentNeverClosed(states, steps, timeout, i - 1, c);
      if c in states[i].closed {
        var j := ClosedOnlyWhenExpired(states, steps, timeout, i - 1, c);
        assert false;
      }
    }
  }

  // ---------------------------------------------------------------- activity between the read and the close

  lemma {:induction false} SweepStartedBefore(states: seq<State>, steps: seq<Step>, timeout: int, i: nat)
    requires IsRun(states, steps, timeout) && i < |states|
    ensures states[i].sweep.Sweeping? ==> states[i].sweep.now <= states[i].clock
    decreases i
  {
    if i > 0 { SweepStartedBefore(states, steps, timeout, i - 1); }
  }

  ghost predicate UpdatedIn(steps: seq<Step>, c: Conn, j: nat, k: nat)
  {
    exists m :: j <= m < k <= |steps| && steps[m] == UpdateActivity(c)
  }

  /** From `j` on, the activity time of `c` is the old one until `c` is updated, and not before the sweep after that. */
  lemma {:induction false} LastActivity(states: seq<State>, steps: seq<Step>, timeout: int, j: nat, k: nat, c: Conn,
                                        now: int)
    requires IsRun(states, steps, timeout) && j <= k < |states| && c in states[j].last && now <= states[j].clock
    ensures c in states[k].last && now <= states[k].clock
    ensures if UpdatedIn(steps, c, j, k) then now <= states[k].last[c] else states[k].last[c] == states[j].last[c]
    decreases k
  {
    if j < k {
      LastActivity(states, steps, timeout, j, k - 1, c, now);
      if steps[k - 1] == UpdateActivity(c) {
        assert UpdatedIn(steps, c, j, k);
      } else {
        assert UpdatedIn(steps, c, j, k) == UpdatedIn(steps, c, j, k - 1);
      }
    }
  }

  /** The exact law: what a sweep closes is still expired at that moment if and only if its activity was not updated
      between the sweep's read and its close. */
  lemma StillExpiredIff(states: seq<State>, steps: seq<Step>, timeout: int, j: nat, i: nat, c: Conn)
    requires IsRun(states, steps, timeout) && timeout >= 0 && i < |steps|
    requires ReadExpired(states, steps, timeout, j, i, c) && steps[i].CloseDue?
    ensures Expired(states[i], states[i].sweep.now, c, timeout) <==> !UpdatedIn(steps, c, j, i)
  {
    SweepStartedBefore(states, steps, timeout, j);
    LastActivity(states, steps, timeout, j, i, c, states[j].sweep.now);
  }

  lemma GoOn(states: seq<State>, steps: seq<Step>, timeout: int, st: Step)
    returns (states': seq<State>, steps': seq<Step>)
    requires IsRun(states, steps, timeout) && Ranged(states[|steps|].hub) && Enabled(states[|steps|], st)
    ensures IsRun(states', steps', timeout) && states <= states' && steps' == steps + [st]
    ensures states'[|steps'|] == Apply(states[|steps|], st, timeout)
  {
    states', steps' := states + [Apply(states[|steps|], st, timeout)], steps + [st];
  }

  /** A hub of one shard that holds `c` alone. */
  ghost function OneConn(c: Conn): HubState { HubModel.Apply(Empty(1), Register(c)) }

  lemma OneConnShard(c: Conn)
    ensures HubModel.Valid(OneConn(c)) && |OneConn(c).shards| == 1 && OneConn(c).shards[0].connections.Values == {c}
  {
    EmptyIsValid(1);
    HomeInRange(1, c.id);
    StepRefines(Empty(1), Register(c));
    assert OneConn(c).shards[0].connections == map[c.id := c];
  }

  /** A sweep under way that has just read `c`, last active at zero, as expired. */
  lemma SweepReads(c: Conn, timeout: nat) returns (states: seq<State>, steps: seq<Step>)
    ensures IsRun(states, steps, timeout)
    ensures states[|steps|]
         == State(OneConn(c), timeout + 1, map[c := 0], {}, Sweeping(timeout + 1, 0, true, {}, Due(c)))
  {
    OneConnShard(c);
    states, steps := [State(OneConn(c), 0, map[c := 0], {}, Idle)], [];
    states, steps := GoOn(states, steps, timeout, Tick(timeout + 1));
    states, steps := GoOn(states, steps, timeout, BeginSweep);
    states, steps := GoOn(states, steps, timeout, BeginShard);
    assert states[|steps|].sweep == Sweeping(timeout + 1, 0, true, {c}, Nobody);
    states, steps := GoOn(states, steps, timeout, ReadActivity(c));
    assert {c} - {c} == {};
  }

  /** It happens, for every timeout: a connection is closed although it is active at that very moment. */
  lemma ActiveIsClosed(c: Conn, timeout: nat) returns (states: seq<State>, steps: seq<Step>)
    ensures IsRun(states, steps, timeout)
    ensures var s := states[|steps|]; c in s.closed && RegisteredAt(s, c) && c in s.last && s.last[c] == s.clock
  {
    OneConnShard(c);
    states, steps := SweepReads(c, timeout);
    states, steps := GoOn(states, steps, timeout, UpdateActivity(c));
    states, steps := GoOn(states, steps, timeout, CloseDue);
    EmptyIsValid(1);
    StepRefines(Empty(1), Register(c));
  }

  // ---------------------------------------------------------------- and not too late

  /** Steps `a .. b` are one sweep, from its start to its end. */
  ghost predicate IsSweep(steps: seq<Step>, a: nat, b: nat)
  {
    && a < b < |steps| && steps[a].BeginSweep? && steps[b].EndSweep?
    && forall k :: a < k < b ==> !steps[k].BeginSweep? && !steps[k].EndSweep?
  }

  /** From step `a` to step `b`, `c` stays registered and its last activity stays at `t`. */
  ghost predicate QuietDuring(states: seq<State>, c: Conn, t: int, a: nat, b: nat)
  {
    forall k :: a <= k <= b < |states| ==> RegisteredAt(states[k], c) && c in states[k].last && states[k].last[c] == t
  }

  /** How far the sweep must have dealt with `c`, whose home is shard `h`. */
  ghost predicate Progress(s: State, c: Conn, h: nat, now: int)
  {
    && s.sweep.Sweeping? && s.sweep.now == now
    && (h < s.sweep.next ==> c in s.closed)
    && (h == s.sweep.next && s.sweep.walking ==> c in s.closed || c in s.sweep.pending || s.sweep.due == Due(c))
  }

  /** What `QuietDuring` and a valid hub give at one moment, for a connection whose home is shard `h`. */
  ghost predicate QuietIn(s: State, c: Conn, h: nat, t: int)
  {
    h < |s.hub.shards| && c in s.hub.shards[h].connections.Values && c in s.last && s.last[c] == t
  }

  lemma ProgressStep(s: State, st: Step, timeout: int, c: Conn, h: nat, t: int, now: int)
    requires QuietIn(s, c, h, t) && Ranged(s.hub) && Enabled(s, st) && !st.BeginSweep? && !st.EndSweep?
    requires now - t > timeout && Progress(s, c, h, now)
    ensures Progress(Apply(s, st, timeout), c, h, now)
  {
  }

  lemma ProgressStart(s: State, st: Step, timeout: int, c: Conn, h: nat)
    requires Ranged(s.hub) && Enabled(s, st) && st.BeginSweep?
    ensures Progress(Apply(s, st, timeout), c, h, s.clock)
  {
  }

  lemma QuietAt(states: seq<State>, steps: seq<Step>, timeout: int, c: Conn, t: int, a: nat, b: nat, k: nat)
    requires IsRun(states, steps, timeout) && QuietDuring(states, c, t, a, b) && a <= k <= b < |states|
    ensures QuietIn(states[k], c, states[0].hub.home(c.id), t)
  {
    HubStaysValid(states, steps, timeout, k);
    RegisteredInShard(states[k], c);
  }

  lemma {:induction false} SweepProgress(states: seq<State>, steps: seq<Step>, timeout: int, a: nat, b: nat, k: nat,
                                         c: Conn, h: nat, t: int)
    requires IsRun(states, steps, timeout) && IsSweep(steps, a, b) && a < k <= b
    requires forall j :: a <= j <= b ==> QuietIn(states[j], c, h, t)
    requires states[a].clock - t > timeout
    ensures Progress(states[k], c, h, states[a].clock)
    decreases k
  {
    if k == a + 1 {
      ProgressStart(states[a], steps[a], timeout, c, h);
    } else {
      SweepProgress(states, steps, timeout, a, b, k - 1, c, h, t);
      assert QuietIn(states[k - 1], c, h, t);
      ProgressStep(states[k - 1], steps[k - 1], timeout, c, h, t, states[a].clock);
    }
  }

  /** A complete sweep closes every connection that is registered throughout it and expired by its clock. */
  lemma SweepCloses(states: seq<State>, steps: seq<Step>, timeout: int, a: nat, b: nat, c: Conn, t: int)
    requires IsRun(states, steps, timeout) && IsSweep(steps, a, b)
    requires QuietDuring(states, c, t, a, b) && states[a].clock - t > timeout
    ensures c in states[b].closed
  {
    var h := states[0].hub.home(c.id);
    forall j | a <= j <= b ensures QuietIn(states[j], c, h, t) { QuietAt(states, steps, timeout, c, t, a, b, j); }
    SweepProgress(states, steps, timeout, a, b, b, c, h, t);
    assert QuietIn(states[b], c, h, t);
  }

  /** Consecutive complete sweeps, given by where each starts and ends, begin at most `interval` apart. */
  ghost predicate Regular(states: seq<State>, steps: seq<Step>, starts: seq<nat>, ends: seq<nat>, interval: int)
  {
    && |starts| == |ends|
    && (forall k :: 0 <= k < |starts| ==>
          starts[k] < ends[k] < |steps| < |states| && IsSweep(steps, starts[k], ends[k]))
    && (forall k :: 0 < k < |starts| ==> states[starts[k]].clock - states[starts[k - 1]].clock <= interval)
  }

  /** A sequence of times that starts at or before a limit, ends after it and moves on by at most `interval`
      has a member just after the limit. */
  lemma {:induction false} FirstAfter(times: seq<int>, limit: int, interval: int) returns (k: nat)
    requires times != [] && times[0] <= limit < times[|times| - 1]
    requires forall j :: 0 < j < |times| ==> times[j] - times[j - 1] <= interval
    ensures 0 < k < |times| && limit < times[k] <= limit + interval
    decreases |times|
  {
    var n := |times| - 1;
    if times[n - 1] <= limit { k := n; } else { k := FirstAfter(times[..n], limit, interval); }
  }

  lemma SweepJustAfter(states: seq<State>, steps: seq<Step>, starts: seq<nat>, ends: seq<nat>, interval: int,
                       limit: int)
    returns (k: nat)
    requires Regular(states, steps, starts, ends, interval)
    requires |starts| >= 1 && states[starts[0]].clock <= limit < states[starts[|starts| - 1]].clock
    ensures k < |starts| && limit < states[starts[k]].clock <= limit + interval
    ensures IsSweep(steps, starts[k], ends[k]) && starts[k] < ends[k] < |steps| < |states|
  {
    var times := seq(|starts|, j requires 0 <= j < |starts| => states[starts[j]].clock);
    k := FirstAfter(times, limit, interval);
  }

  /** The window: if the sweeps begin at most `interval` apart, one at or before `t + timeout` and some one after it,
      then a connection that stays registered with its last activity at `t` is closed by a sweep
      begun after `t + timeout` and no later than `t + timeout + interval`. */
  lemma ClosedWithinWindow(states: seq<State>, steps: seq<Step>, timeout: int, interval: int,
                           starts: seq<nat>, ends: seq<nat>, c: Conn, t: int) returns (k: nat)
    requires IsRun(states, steps, timeout) && Regular(states, steps, starts, ends, interval)
    requires |starts| >= 1 && states[starts[0]].clock <= t + timeout < states[starts[|starts| - 1]].clock
    requires forall j :: 0 <= j < |starts| ==> QuietDuring(states, c, t, starts[j], ends[j])
    ensures k < |starts| && t + timeout < states[starts[k]].clock <= t + timeout + interval
    ensures c in states[ends[k]].closed
  {
    k := SweepJustAfter(states, steps, starts, ends, interval, t + timeout);
    assert QuietDuring(states, c, t, starts[k], ends[k]);
    SweepCloses(states, steps, timeout, starts[k], ends[k], c, t);
  }

  // ---------------------------------------------------------------- the code

  class HeartbeatManager {
    const timeout: int
    const hub: Hub
    /** Each connection's `lastActivity` metadata, and the connections closed so far. */
    var lastActivity: map<Conn, int>
    var closed: set<Conn>

    constructor (hub: Hub, timeout: int)
      ensures this.hub == hub && this.timeout == timeout && lastActivity == map[] && closed == {}
    {
      this.hub, this.timeout, lastActivity, closed := hub, timeout, map[], {};
    }

    method UpdateActivity(c: Conn, now: int)
      modifies this
      ensures lastActivity == old(lastActivity)[c := now] && closed == old(closed)
    {
      lastActivity := lastActivity[c := now];
    }

    /** A sweep that nothing interrupts closes exactly the registered connections that have expired. */
    method CheckConnections(now: int)
      requires hub.Ok()
      modifies this
      ensures lastActivity == old(lastActivity)
      ensures forall c :: c in closed <==>
                c in old(closed) ||
                (c in Flatten(hub.State()).conns.Values && c in lastActivity && now - lastActivity[c] > timeout)
    {
      var visited := hub.ForEach(c => true);
      VisitedAll(Flatten(hub.State()).conns, visited);
      closed := CloseExpired(visited, lastActivity, now, timeout, closed);
    }

    static method CloseExpired(visited: seq<Conn>, lastActivity: map<Conn, int>, now: int, timeout: int,
                               already: set<Conn>)
      returns (closed: set<Conn>)
      ensures forall c :: c in closed <==>
                c in already || (c in visited && c in lastActivity && now - lastActivity[c] > timeout)
    {
      closed := already;
      for i := 0 to |visited|
        invariant forall c :: c in closed <==>
                    c in already || (c in visited[..i] && c in lastActivity && now - lastActivity[c] > timeout)
      {
        var c := visited[i];
        if c in lastActivity && now - lastActivity[c] > timeout {
          closed := closed + {c};
        }
      }
    }
  }

  lemma VisitedAll(conns: map<string, Conn>, visited: seq<Conn>)
    requires ListsAll(visited, conns)
    ensures forall c :: c in visited <==> c in conns.Values
  {
  }
}
