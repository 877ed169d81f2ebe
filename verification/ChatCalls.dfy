/** The chat handler's calls taken apart, example/internal/chat/handler.go.

    A call first reads, and a join sets, its connection's user ID and room, and only then takes the lock and changes the
    maps, with what it read.  Over WebSocket one connection's calls come one after the other; over
    WebTransport every stream makes its own, so the calls of one connection may be interleaved as well.
 */
module ChatCalls {
  import opened NestedMap
  import opened ChatRooms

  /** A call and how far it is; the user a message names is the connection's own if the message names none. */
  datatype Call =
    | JoinStart(c: Conn, msgUser: string, room: string)
    | JoinNaming(c: Conn, msgUser: string, room: string)               // no user ID yet; before it is set
    | JoinTagging(c: Conn, msgUser: string, room: string, u: string)   // before the room is set on the connection
    | JoinIndexing(c: Conn, msgUser: string, room: string, u: string)  // before the lock
    | LeaveStart(c: Conn, msgUser: string)
    | LeaveNaming(c: Conn, msgUser: string, room: string)              // room read; before the user ID is read
    | LeaveIndexing(c: Conn, msgUser: string, room: string, u: string) // before the lock
    | DisconnectStart(c: Conn)
    | DisconnectIndexing(c: Conn, u: string)                           // before the lock
    | Over(c: Conn)

  datatype System = System(s: State, calls: map<nat, Call>)

  datatype Step = Begin(k: nat, call: Call) | Advance(k: nat)

  const EMPTY := State(map[], map[], map[], map[])

  predicate Starts(call: Call) { call.JoinStart? || call.LeaveStart? || call.DisconnectStart? }

  predicate Enabled(x: System, st: Step)
  {
    match st
    case Begin(k, call) => k !in x.calls && Starts(call)
    case Advance(k) => k in x.calls && !x.calls[k].Over?
  }

  function NextCall(s: State, call: Call): Call
  {
    match call
    case JoinStart(c, m, room) =>
      if UserID(s, c) == "" then JoinNaming(c, m, room) else JoinTagging(c, m, room, UserID(s, c))
    case JoinNaming(c, m, room) => JoinTagging(c, m, room, m)
    case JoinTagging(c, m, room, u) => JoinIndexing(c, m, room, u)
    case LeaveStart(c, m) => if RoomID(s, c) == "" then Over(c) else LeaveNaming(c, m, RoomID(s, c))
    case LeaveNaming(c, m, room) => LeaveIndexing(c, m, room, if UserID(s, c) != "" then UserID(s, c) else m)
    case DisconnectStart(c) => if UserID(s, c) == "" then Over(c) else DisconnectIndexing(c, UserID(s, c))
    case _ => Over(call.c)
  }

  /** What the next step of a call does to the maps. */
  function ChangeBy(call: Call): Change
  {
    match call
    case JoinIndexing(c, _, room, u) => Enter(c, u, room)
    case LeaveIndexing(_, _, room, u) => Exit(u, room)
    case DisconnectIndexing(_, u) => Vanish(u)
    case _ => Nothing
  }

  function NextState(s: State, call: Call): State
  {
    match call
    case JoinNaming(c, m, _) => s.(userOf := s.userOf[c := m])
    case JoinTagging(c, _, room, _) => s.(roomOf := s.roomOf[c := room])
    case _ => Changed(s, ChangeBy(call))
  }

  function Next(x: System, st: Step): System
    requires Enabled(x, st)
  {
    match st
    case Begin(k, call) => x.(calls := x.calls[k := call])
    case Advance(k) => System(NextState(x.s, x.calls[k]), x.calls[k := NextCall(x.s, x.calls[k])])
  }

  ghost predicate IsRun(states: seq<System>, steps: seq<Step>)
  {
    && |states| == |steps| + 1 && states[0] == System(EMPTY, map[])
    && forall i :: 0 <= i < |steps| ==> Enabled(states[i], steps[i]) && states[i + 1] == Next(states[i], steps[i])
  }

  // ---------------------------------------------------------------- any interleaving

  /** However the calls are interleaved, no room is empty and whoever has a room is in it. */
  lemma {:induction false} InterleavedConsistent(states: seq<System>, steps: seq<Step>, i: nat)
    requires IsRun(states, steps) && i < |states|
    ensures Consistent(states[i].s)
    decreases i
  {
    if i > 0 {
      InterleavedConsistent(states, steps, i - 1);
      var x, st := states[i - 1], steps[i - 1];
      if st.Advance? { ChangeConsistent(x.s, ChangeBy(x.calls[st.k])); }
    }
  }

  /** What step `i` does to the maps, with what its call read before, fits the state it meets. */
  ghost predicate FitsAt(states: seq<System>, steps: seq<Step>, i: nat)
    requires IsRun(states, steps) && i < |steps|
  {
    steps[i].Advance? ==> ChangeRespects(states[i].s, ChangeBy(states[i].calls[steps[i].k]))
  }

  lemma FitsIff(states: seq<System>, steps: seq<Step>, i: nat)
    requires IsRun(states, steps) && i < |steps| && Inverse(states[i].s)
    ensures Inverse(states[i + 1].s) <==> FitsAt(states, steps, i)
  {
    if steps[i].Advance? { ChangeInverseIff(states[i].s, ChangeBy(states[i].calls[steps[i].k])); }
  }

  lemma {:induction false} FitsMeansInverse(states: seq<System>, steps: seq<Step>, i: nat)
    requires IsRun(states, steps) && i < |states|
    requires forall j :: 0 <= j < |steps| ==> FitsAt(states, steps, j)
    ensures Inverse(states[i].s)
    decreases i
  {
    if i > 0 {
      FitsMeansInverse(states, steps, i - 1);
      FitsIff(states, steps, i - 1);
    }
  }

  /** And the two maps are inverse in every state if and only if, whenever a call takes the lock, the user and room it
      read before still fit: a user who enters is in no other room, and one who exits is not in another one. */
  lemma InterleavedInverseIff(states: seq<System>, steps: seq<Step>)
    requires IsRun(states, steps)
    ensures (forall i :: 0 <= i < |states| ==> Inverse(states[i].s))
       <==> (forall i :: 0 <= i < |steps| ==> FitsAt(states, steps, i))
  {
    if forall i :: 0 <= i < |states| ==> Inverse(states[i].s) {
      forall i | 0 <= i < |steps| ensures FitsAt(states, steps, i) {
        assert Inverse(states[i].s) && Inverse(states[i + 1].s);
        FitsIff(states, steps, i);
      }
    } else {
      var i :| 0 <= i < |states| && !Inverse(states[i].s);
      if forall j :: 0 <= j < |steps| ==> FitsAt(states, steps, j) { FitsMeansInverse(states, steps, i); }
    }
  }

  // ---------------------------------------------------------------- calls one after the other

  predicate Open(x: System, k: nat, c: Conn) { k in x.calls && !x.calls[k].Over? && x.calls[k].c == c }

  /** The calls on any one connection come one after the other. */
  ghost predicate Serial(states: seq<System>, steps: seq<Step>)
    requires |states| == |steps| + 1
  {
    forall i, k :: 0 <= i < |steps| && steps[i].Begin? ==> !Open(states[i], k, steps[i].call.c)
  }

  /** The whole call, as the atomic model has it, that a step under the lock stands for. */
  function CallAt(call: Call): seq<Op>
  {
    match call
    case JoinIndexing(c, m, room, _) => [Join(c, m, room)]
    case LeaveIndexing(c, m, _, _) => [Leave(c, m)]
    case DisconnectIndexing(c, _) => [Disconnect(c)]
    case _ => []
  }

  /** The calls in the order in which they took the lock. */
  ghost function CallsUpTo(states: seq<System>, steps: seq<Step>, i: nat): seq<Op>
    requires IsRun(states, steps) && i < |states|
    decreases i
  {
    if i == 0 then []
    else CallsUpTo(states, steps, i - 1)
         + if steps[i - 1].Advance? then CallAt(states[i - 1].calls[steps[i - 1].k]) else []
  }

  /** The same for connection `c` in both. */
  predicate Agree(s: State, t: State, c: Conn) { UserID(s, c) == UserID(t, c) && RoomID(s, c) == RoomID(t, c) }

  /** Where an open call is, given the real state and the one in which it has not happened yet. */
  predicate Matches(s: State, t: State, call: Call)
  {
    match call
    case JoinNaming(c, _, _) => Agree(s, t, c) && UserID(t, c) == ""
    case JoinTagging(c, m, room, u) => UserID(s, c) == u == Actor(t, Join(c, m, room))
    case JoinIndexing(c, m, room, u) => UserID(s, c) == u == Actor(t, Join(c, m, room)) && RoomID(s, c) == room
    case LeaveNaming(c, m, room) => Agree(s, t, c) && RoomID(t, c) == room != ""
    case LeaveIndexing(c, m, room, u) => Agree(s, t, c) && RoomID(t, c) == room != "" && u == Actor(t, Leave(c, m))
    case DisconnectIndexing(c, u) => Agree(s, t, c) && UserID(t, c) == u != ""
    case _ => Agree(s, t, call.c)
  }

  ghost predicate Simulates(x: System, t: State)
  {
    && x.s.rooms == t.rooms && x.s.userToRoom == t.userToRoom
    && (forall c :: (forall k :: !Open(x, k, c)) ==> Agree(x.s, t, c))
    && (forall k :: k in x.calls && !x.calls[k].Over? ==> Matches(x.s, t, x.calls[k]))
    && (forall k, l, c :: Open(x, k, c) && Open(x, l, c) ==> k == l)
  }

  lemma BeginSimulates(x: System, t: State, st: Step)
    requires Simulates(x, t) && Enabled(x, st) && st.Begin? && forall k :: !Open(x, k, st.call.c)
    ensures Simulates(Next(x, st), t)
  {
    var y := Next(x, st);
    forall k, c | k != st.k ensures Open(y, k, c) == Open(x, k, c) { }
    assert Open(y, st.k, st.call.c);
    forall c | forall k :: !Open(y, k, c) ensures Agree(x.s, t, c) {
      forall k ensures !Open(x, k, c) { assert !Open(y, k, c); }
    }
  }

  /** The state of the atomic model after one step of a call. */
  function After(t: State, call: Call): State
  {
    if CallAt(call) == [] then t else ChatRooms.Apply(t, CallAt(call)[0])
  }

  lemma JoinMatches(s: State, t: State, call: Call)
    requires Matches(s, t, call) && (call.JoinStart? || call.JoinNaming? || call.JoinTagging?)
    ensures NextCall(s, call).c == call.c && Matches(NextState(s, call), t, NextCall(s, call))
  {
  }

  lemma LeaveMatches(s: State, t: State, call: Call)
    requires Matches(s, t, call) && (call.LeaveStart? || call.LeaveNaming? || call.DisconnectStart?)
    ensures NextCall(s, call).c == call.c && Matches(NextState(s, call), t, NextCall(s, call))
  {
  }

  lemma LockMatches(s: State, t: State, call: Call)
    requires Matches(s, t, call) && (call.JoinIndexing? || call.LeaveIndexing? || call.DisconnectIndexing?)
    ensures CallAt(call) != [] && CallAt(call)[0].c == call.c && ChangeBy(call) == ChangeOf(t, CallAt(call)[0])
    ensures Agree(NextState(s, call), ChatRooms.Apply(t, CallAt(call)[0]), call.c)
  {
  }

  /** One step of an open call, seen from its own connection. */
  lemma CallMatches(s: State, t: State, call: Call)
    requires Matches(s, t, call) && !call.Over? && s.rooms == t.rooms && s.userToRoom == t.userToRoom
    ensures var s', t', next := NextState(s, call), After(t, call), NextCall(s, call);
            && s'.rooms == t'.rooms && s'.userToRoom == t'.userToRoom && next.c == call.c && Matches(s', t', next)
  {
    if call.JoinStart? || call.JoinNaming? || call.JoinTagging? {
      JoinMatches(s, t, call);
    } else if call.LeaveStart? || call.LeaveNaming? || call.DisconnectStart? {
      LeaveMatches(s, t, call);
    } else {
      LockMatches(s, t, call);
    }
  }

  lemma ChangeUntouched(s: State, ch: Change)
    ensures Changed(s, ch).userOf == s.userOf && Changed(s, ch).roomOf == s.roomOf
  {
  }

  /** And from any other connection. */
  lemma OthersUntouched(s: State, t: State, call: Call, d: Conn)
    requires d != call.c
    ensures UserID(NextState(s, call), d) == UserID(s, d) && RoomID(NextState(s, call), d) == RoomID(s, d)
    ensures UserID(After(t, call), d) == UserID(t, d) && RoomID(After(t, call), d) == RoomID(t, d)
  {
    ChangeUntouched(s, ChangeBy(call));
    if CallAt(call) != [] { ChangeUntouched(t, ChangeOf(t, CallAt(call)[0])); }
  }

  lemma MatchesKept(s: State, t: State, s': State, t': State, call: Call)
    requires Matches(s, t, call)
    requires UserID(s', call.c) == UserID(s, call.c) && RoomID(s', call.c) == RoomID(s, call.c)
    requires UserID(t', call.c) == UserID(t, call.c) && RoomID(t', call.c) == RoomID(t, call.c)
    ensures Matches(s', t', call)
  {
  }

  lemma AdvanceSimulates(x: System, t: State, k: nat)
    requires Simulates(x, t) && Enabled(x, Advance(k))
    ensures Simulates(Next(x, Advance(k)), After(t, x.calls[k]))
  {
    var y, t', call := Next(x, Advance(k)), After(t, x.calls[k]), x.calls[k];
    CallMatches(x.s, t, call);
    assert Open(x, k, call.c);
    forall l, c | l != k ensures Open(y, l, c) == Open(x, l, c) { }
    forall l | l in y.calls && !y.calls[l].Over? ensures Matches(y.s, t', y.calls[l]) {
      if l != k {
        assert Open(x, l, x.calls[l].c);
        OthersUntouched(x.s, t, call, x.calls[l].c);
        MatchesKept(x.s, t, y.s, t', x.calls[l]);
      }
    }
    forall c | forall l :: !Open(y, l, c) ensures Agree(y.s, t', c) {
      if c == call.c {
        assert !Open(y, k, c) && y.calls[k].c == c;
        assert Matches(y.s, t', y.calls[k]);
      } else {
        forall l ensures !Open(x, l, c) { assert !Open(y, l, c); }
        assert Agree(x.s, t, c);
        OthersUntouched(x.s, t, call, c);
      }
    }
    forall a, b, c | Open(y, a, c) && Open(y, b, c) ensures a == b {
      assert Open(x, a, c) && Open(x, b, c);
    }
  }

  /** If they do, the run is the run of the atomic model on the same calls, in the order in which they took the lock:
      the maps are the same at every moment, and so is what a connection carries whenever it has no call in progress. */
  lemma {:induction false} SerialIsAtomic(states: seq<System>, steps: seq<Step>, i: nat)
    requires IsRun(states, steps) && Serial(states, steps) && i < |states|
    ensures Simulates(states[i], Exec(EMPTY, CallsUpTo(states, steps, i)))
    decreases i
  {
    if i > 0 {
      SerialIsAtomic(states, steps, i - 1);
      var x, st, before := states[i - 1], steps[i - 1], CallsUpTo(states, steps, i - 1);
      if st.Begin? {
        forall k ensures !Open(x, k, st.call.c) { }
        BeginSimulates(x, Exec(EMPTY, before), st);
        assert before + [] == before;
      } else {
        var call := x.calls[st.k];
        AdvanceSimulates(x, Exec(EMPTY, before), st.k);
        ExecMore(before, call);
      }
    }
  }

  ghost predicate AllDisciplined(ops: seq<Op>)
  {
    forall j :: 0 <= j < |ops| ==> Disciplined(Exec(EMPTY, ops[..j]), ops[j])
  }

  lemma EmptyIsOwned()
    ensures Consistent(EMPTY) && Inverse(EMPTY) && Owned(EMPTY)
  {
  }

  lemma DisciplinedFromEmpty(ops: seq<Op>)
    requires AllDisciplined(ops)
    ensures Consistent(Exec(EMPTY, ops)) && Inverse(Exec(EMPTY, ops))
  {
    EmptyIsOwned();
    DisciplinedRun(EMPTY, ops);
  }

  lemma SameMaps(s: State, t: State)
    requires s.rooms == t.rooms && s.userToRoom == t.userToRoom && Consistent(t) && Inverse(t)
    ensures Consistent(s) && Inverse(s)
  {
  }

  /** So what the rules for joins give holds for serial calls, at every moment of them. */
  lemma SerialDisciplinedRun(states: seq<System>, steps: seq<Step>, i: nat)
    requires IsRun(states, steps) && Serial(states, steps) && i < |states|
    requires AllDisciplined(CallsUpTo(states, steps, i))
    ensures Consistent(states[i].s) && Inverse(states[i].s)
  {
    SerialIsAtomic(states, steps, i);
    DisciplinedFromEmpty(CallsUpTo(states, steps, i));
    SameMaps(states[i].s, Exec(EMPTY, CallsUpTo(states, steps, i)));
  }

  lemma ExecMore(before: seq<Op>, call: Call)
    ensures Exec(EMPTY, before + CallAt(call)) == After(Exec(EMPTY, before), call)
  {
    if CallAt(call) == [] {
      assert before + CallAt(call) == before;
    } else {
      assert (before + CallAt(call))[..|before|] == before;
    }
  }

  // ---------------------------------------------------------------- two streams of one connection

  lemma GoOn(states: seq<System>, steps: seq<Step>, st: Step) returns (states': seq<System>, steps': seq<Step>)
    requires IsRun(states, steps) && JoinsFindNoRoom(states, steps) && Enabled(states[|steps|], st)
    requires st.Advance? && states[|steps|].calls[st.k].JoinIndexing? ==>
               InNoRoom(states[|steps|].s, states[|steps|].calls[st.k].u)
    ensures IsRun(states', steps') && JoinsFindNoRoom(states', steps')
    ensures states'[|steps'|] == Next(states[|steps|], st)
  {
    states', steps' := states + [Next(states[|steps|], st)], steps + [st];
  }

  ghost predicate InNoRoom(s: State, u: string)
  {
    u !in s.userToRoom && forall r :: !Has(s.rooms, r, u)
  }

  /** Whenever a join takes the lock, its user is in no room. */
  ghost predicate JoinsFindNoRoom(states: seq<System>, steps: seq<Step>)
    requires |states| == |steps| + 1
  {
    forall i :: 0 <= i < |steps| && steps[i].Advance? && steps[i].k in states[i].calls
                && states[i].calls[steps[i].k].JoinIndexing? ==>
      InNoRoom(states[i].s, states[i].calls[steps[i].k].u)
  }

  /** A first join, of a connection without a user, from beginning to end. */
  lemma FirstJoin(u: string, room: string) returns (states: seq<System>, steps: seq<Step>)
    requires u != "" && room != ""
    ensures IsRun(states, steps) && JoinsFindNoRoom(states, steps)
    ensures states[|steps|] == System(State(map[room := map[u := 1]], map[u := room], map[1 := u], map[1 := room]),
                                      map[0 := Over(1)])
  {
    states, steps := [System(EMPTY, map[])], [];
    states, steps := GoOn(states, steps, Begin(0, JoinStart(1, u, room)));
    states, steps := GoOn(states, steps, Advance(0));
    states, steps := GoOn(states, steps, Advance(0));
    states, steps := GoOn(states, steps, Advance(0));
    states, steps := GoOn(states, steps, Advance(0));
  }

  /** A leave that has read its room and user, and not yet taken the lock. */
  lemma LeaveReads(states: seq<System>, steps: seq<Step>, k: nat, u: string, room: string)
    returns (states': seq<System>, steps': seq<Step>)
    requires IsRun(states, steps) && JoinsFindNoRoom(states, steps) && k !in states[|steps|].calls
    requires UserID(states[|steps|].s, 1) == u != "" && RoomID(states[|steps|].s, 1) == room != ""
    ensures IsRun(states', steps') && JoinsFindNoRoom(states', steps')
    ensures states'[|steps'|].s == states[|steps|].s
    ensures states'[|steps'|].calls == states[|steps|].calls[k := LeaveIndexing(1, u, room, u)]
  {
    states', steps' := GoOn(states, steps, Begin(k, LeaveStart(1, u)));
    states', steps' := GoOn(states', steps', Advance(k));
    states', steps' := GoOn(states', steps', Advance(k));
  }

  /** A join by a connection that has its user already, from beginning to end. */
  lemma JoinAgain(states: seq<System>, steps: seq<Step>, k: nat, u: string, room: string)
    returns (states': seq<System>, steps': seq<Step>)
    requires IsRun(states, steps) && JoinsFindNoRoom(states, steps) && k !in states[|steps|].calls
    requires states[|steps|].s == State(map[], map[], map[1 := u], states[|steps|].s.roomOf) && u != ""
    ensures IsRun(states', steps') && JoinsFindNoRoom(states', steps')
    ensures states'[|steps'|].s.rooms == map[room := map[u := 1]] && states'[|steps'|].s.userToRoom == map[u := room]
    ensures states'[|steps'|].calls == states[|steps|].calls[k := Over(1)]
  {
    states', steps' := GoOn(states, steps, Begin(k, JoinStart(1, u, room)));
    states', steps' := GoOn(states', steps', Advance(k));
    states', steps' := GoOn(states', steps', Advance(k));
    states', steps' := GoOn(states', steps', Advance(k));
  }

  /** Stream one is about to leave; stream two has left. */
  lemma TwoLeaves(u: string, room: string) returns (states: seq<System>, steps: seq<Step>)
    requires u != "" && room != ""
    ensures IsRun(states, steps) && JoinsFindNoRoom(states, steps)
    ensures states[|steps|].s == State(map[], map[], map[1 := u], map[1 := room])
    ensures states[|steps|].calls == map[0 := Over(1), 1 := LeaveIndexing(1, u, room, u), 2 := Over(1)]
  {
    states, steps := FirstJoin(u, room);
    states, steps := LeaveReads(states, steps, 1, u, room);
    states, steps := LeaveReads(states, steps, 2, u, room);
    states, steps := GoOn(states, steps, Advance(2));
    assert map[u := 1] - {u} == map[];
  }

  /** Without it the rules for joins are not enough: with one user and one connection, and although every join finds
      the user in no room, a leave that acts on what it read too early leaves the user in a room that
      `userToRoom` knows nothing about. */
  lemma StaleLeaveLosesUser(u: string, first: string, second: string) returns (states: seq<System>, steps: seq<Step>)
    requires u != "" && first != "" && second != first
    ensures IsRun(states, steps) && JoinsFindNoRoom(states, steps)
    ensures states[|steps|].s.rooms == map[second := map[u := 1]] && states[|steps|].s.userToRoom == map[]
    ensures !Inverse(states[|steps|].s)
  {
    states, steps := TwoLeaves(u, first);
    states, steps := JoinAgain(states, steps, 3, u, second);
    states, steps := GoOn(states, steps, Advance(1));
    assert Has(states[|steps|].s.rooms, second, u);
  }
}
