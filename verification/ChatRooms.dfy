/** The chat example's room index, example/internal/chat/handler.go.

    A call reads and sets its connection's user ID and room, and changes the maps in one critical section.  Here one
    step is one whole call, which is right as long as the calls on any one connection come one after
    the other, as they do over WebSocket; `ChatCalls` takes the calls apart and proves that.
 */
module ChatRooms {
  import opened NestedMap
  import opened Tally

  type Conn = nat

  /** The handler's two maps, and the user ID and `roomId` metadata each connection carries. */
  datatype State = State(
    rooms: Nested<string, string, Conn>, userToRoom: map<string, string>,
    userOf: map<Conn, string>, roomOf: map<Conn, string>)

  datatype Op =
    | Join(c: Conn, msgUser: string, room: string)
    | Leave(c: Conn, msgUser: string)
    | Disconnect(c: Conn)

  function UserID(s: State, c: Conn): string { if c in s.userOf then s.userOf[c] else "" }
  function RoomID(s: State, c: Conn): string { if c in s.roomOf then s.roomOf[c] else "" }

  /** The user an operation acts for: the connection's own, or else the one the message names. */
  function Actor(s: State, op: Op): string
  {
    if UserID(s, op.c) != "" then UserID(s, op.c)
    else if op.Disconnect? then "" else op.msgUser
  }

  /** What one critical section does to the two maps, for a user and a room determined before. */
  datatype Change =
    | Nothing
    | Enter(c: Conn, u: string, room: string)
    | Exit(u: string, room: string)
    | Vanish(u: string)

  function Changed(s: State, ch: Change): State
  {
    match ch
    case Nothing => s
    case Enter(c, u, room) => s.(rooms := Put(s.rooms, room, u, c), userToRoom := s.userToRoom[u := room])
    case Exit(u, room) => s.(rooms := Drop(s.rooms, room, u), userToRoom := s.userToRoom - {u})
    case Vanish(u) =>
      if u !in s.userToRoom then s
      else s.(rooms := Drop(s.rooms, s.userToRoom[u], u), userToRoom := s.userToRoom - {u})
  }

  function ChangeOf(s: State, op: Op): Change
  {
    var u := Actor(s, op);
    match op
    case Join(c, _, room) => Enter(c, u, room)
    case Leave(c, _) => if RoomID(s, c) == "" then Nothing else Exit(u, RoomID(s, c))
    case Disconnect(c) => if u == "" then Nothing else Vanish(u)
  }

  function Apply(s: State, op: Op): State
  {
    var t := Changed(s, ChangeOf(s, op));
    if op.Join? then t.(userOf := s.userOf[op.c := Actor(s, op)], roomOf := s.roomOf[op.c := op.room]) else t
  }

  function Exec(s: State, ops: seq<Op>): State
  {
    if ops == [] then s else Apply(Exec(s, ops[..|ops| - 1]), ops[|ops| - 1])
  }

  /** No room is empty, and whoever has a room is in it. */
  ghost predicate Consistent(s: State)
  {
    && NoEmpty(s.rooms)
    && forall u :: u in s.userToRoom ==> Has(s.rooms, s.userToRoom[u], u)
  }

  /** The two maps are exact inverses. */
  ghost predicate Inverse(s: State) { InverseMaps(s.rooms, s.userToRoom) }

  ghost predicate InverseMaps(rooms: Nested<string, string, Conn>, where: map<string, string>)
  {
    forall r, u :: Has(rooms, r, u) <==> u in where && where[u] == r
  }

  lemma PutKeepsConsistent(rooms: Nested<string, string, Conn>, where: map<string, string>, room: string, u: string,
                           c: Conn)
    requires NoEmpty(rooms) && forall v :: v in where ==> Has(rooms, where[v], v)
    ensures NoEmpty(Put(rooms, room, u, c))
    ensures var after := where[u := room]; forall v :: v in after ==> Has(Put(rooms, room, u, c), after[v], v)
  {
    PutEffect(rooms, room, u, c);
  }

  lemma DropKeepsConsistent(rooms: Nested<string, string, Conn>, where: map<string, string>, room: string, u: string)
    requires NoEmpty(rooms) && forall v :: v in where ==> Has(rooms, where[v], v)
    ensures NoEmpty(Drop(rooms, room, u))
    ensures forall v :: v in where - {u} ==> Has(Drop(rooms, room, u), where[v], v)
  {
    DropEffect(rooms, room, u);
  }

  lemma ChangeConsistent(s: State, ch: Change)
    requires Consistent(s)
    ensures Consistent(Changed(s, ch))
  {
    match ch
    case Nothing =>
    case Enter(c, u, room) => PutKeepsConsistent(s.rooms, s.userToRoom, room, u, c);
    case Exit(u, room) => DropKeepsConsistent(s.rooms, s.userToRoom, room, u);
    case Vanish(u) =>
      if u in s.userToRoom { DropKeepsConsistent(s.rooms, s.userToRoom, s.userToRoom[u], u); }
  }

  lemma StepConsistent(s: State, op: Op)
    requires Consistent(s)
    ensures Consistent(Apply(s, op))
  {
    ChangeConsistent(s, ChangeOf(s, op));
  }

  /** In every run, with no hypothesis. */
  lemma {:induction false} AlwaysConsistent(s: State, ops: seq<Op>)
    requires Consistent(s)
    ensures Consistent(Exec(s, ops))
    decreases |ops|
  {
    if ops != [] {
      AlwaysConsistent(s, ops[..|ops| - 1]);
      StepConsistent(Exec(s, ops[..|ops| - 1]), ops[|ops| - 1]);
    }
  }

  // ---------------------------------------------------------------- when the maps are inverses

  /** What a change must respect: a user who enters a room is in no other room,
      and a user who exits a room is not in another one. */
  predicate ChangeRespects(s: State, ch: Change)
  {
    match ch
    case Nothing => true
    case Enter(_, u, room) => u !in s.userToRoom || s.userToRoom[u] == room
    case Exit(u, room) => u !in s.userToRoom || s.userToRoom[u] == room
    case Vanish(_) => true
  }

  predicate Respects(s: State, op: Op) { ChangeRespects(s, ChangeOf(s, op)) }

  lemma EnterInverseIff(rooms: Nested<string, string, Conn>, where: map<string, string>, room: string, u: string,
                        c: Conn)
    requires InverseMaps(rooms, where)
    ensures InverseMaps(Put(rooms, room, u, c), where[u := room]) <==> u !in where || where[u] == room
  {
    forall r, v ensures Has(Put(rooms, room, u, c), r, v) <==> Has(rooms, r, v) || (r == room && v == u) {
      PutHas(rooms, room, u, c, r, v);
    }
    if u in where && where[u] != room { assert Has(rooms, where[u], u); }
  }

  lemma ExitInverseIff(rooms: Nested<string, string, Conn>, where: map<string, string>, room: string, u: string)
    requires InverseMaps(rooms, where)
    ensures InverseMaps(Drop(rooms, room, u), where - {u}) <==> u !in where || where[u] == room
  {
    forall r, v ensures Has(Drop(rooms, room, u), r, v) <==> Has(rooms, r, v) && !(r == room && v == u) {
      DropHas(rooms, room, u, r, v);
    }
    if u in where && where[u] != room { assert Has(rooms, where[u], u); }
  }

  lemma VanishKeepsInverse(s: State, u: string)
    requires Inverse(s)
    ensures Inverse(Changed(s, Vanish(u))) && forall r :: !Has(Changed(s, Vanish(u)).rooms, r, u)
  {
    var s' := Changed(s, Vanish(u));
    if u in s.userToRoom { ExitInverseIff(s.rooms, s.userToRoom, s.userToRoom[u], u); }
    assert u !in s'.userToRoom;
  }

  /** One change keeps the maps inverse exactly when it respects that rule. */
  lemma ChangeInverseIff(s: State, ch: Change)
    requires Inverse(s)
    ensures Inverse(Changed(s, ch)) <==> ChangeRespects(s, ch)
  {
    match ch
    case Nothing =>
    case Enter(c, u, room) => EnterInverseIff(s.rooms, s.userToRoom, room, u, c);
    case Exit(u, room) => ExitInverseIff(s.rooms, s.userToRoom, room, u);
    case Vanish(u) => VanishKeepsInverse(s, u);
  }

  lemma StepInverseIff(s: State, op: Op)
    requires Inverse(s)
    ensures Inverse(Apply(s, op)) <==> Respects(s, op)
  {
    ChangeInverseIff(s, ChangeOf(s, op));
  }

  /** The maps are inverse in every state of the run. */
  ghost predicate AlwaysInverse(s: State, ops: seq<Op>)
  {
    Inverse(Exec(s, ops)) && (ops == [] || AlwaysInverse(s, ops[..|ops| - 1]))
  }

  /** Every step of the run respects the rule in the state it is taken in. */
  ghost predicate AlwaysRespects(s: State, ops: seq<Op>)
  {
    ops == [] ||
    (AlwaysRespects(s, ops[..|ops| - 1]) && Respects(Exec(s, ops[..|ops| - 1]), ops[|ops| - 1]))
  }

  /** Over a whole run: the maps are inverse in every state if and only if every step respects the rule when it is
      taken. */
  lemma {:induction false} InverseIff(s: State, ops: seq<Op>)
    requires Inverse(s)
    ensures AlwaysInverse(s, ops) <==> AlwaysRespects(s, ops)
    decreases |ops|
  {
    if ops != [] {
      var before, op := ops[..|ops| - 1], ops[|ops| - 1];
      InverseIff(s, before);
      if AlwaysInverse(s, before) { StepInverseIff(Exec(s, before), op); }
    }
  }

  // ---------------------------------------------------------------- a discipline callers can follow

  /** Every user belongs to one connection, which remembers the room its user is in. */
  ghost predicate Owned(s: State)
  {
    && (forall c, d :: UserID(s, c) == UserID(s, d) != "" ==> c == d)
    && (forall c :: RoomID(s, c) != "" ==> UserID(s, c) != "")
    && (forall c :: UserID(s, c) != "" && UserID(s, c) in s.userToRoom ==> s.userToRoom[UserID(s, c)] == RoomID(s, c))
  }

  /** A join is made for a named user that no other connection carries and that is in no room. */
  ghost predicate Disciplined(s: State, op: Op)
  {
    op.Join? ==>
      && Actor(s, op) != ""
      && (forall d :: d != op.c ==> UserID(s, d) != Actor(s, op))
      && (forall r :: !Has(s.rooms, r, Actor(s, op)))
  }

  lemma EntryOf(s: State, u: string)
    requires Inverse(s)
    ensures u in s.userToRoom ==> Has(s.rooms, s.userToRoom[u], u)
  {
  }

  lemma JoinKeepsOwned(s: State, op: Op)
    requires Inverse(s) && Owned(s) && Disciplined(s, op) && op.Join?
    ensures Actor(s, op) !in s.userToRoom && Owned(Apply(s, op))
  {
    var u, s' := Actor(s, op), Apply(s, op);
    EntryOf(s, u);
    forall c ensures UserID(s', c) == (if c == op.c then u else UserID(s, c))
             ensures RoomID(s', c) == (if c == op.c then op.room else RoomID(s, c)) {
    }
  }

  lemma OtherKeepsOwned(s: State, op: Op)
    requires Owned(s) && !op.Join?
    ensures Owned(Apply(s, op))
  {
    assert forall c :: UserID(Apply(s, op), c) == UserID(s, c) && RoomID(Apply(s, op), c) == RoomID(s, c);
  }

  lemma DisciplineStep(s: State, op: Op)
    requires Consistent(s) && Inverse(s) && Owned(s) && Disciplined(s, op)
    ensures Respects(s, op)
    ensures Consistent(Apply(s, op)) && Inverse(Apply(s, op)) && Owned(Apply(s, op))
  {
    if op.Join? { JoinKeepsOwned(s, op); } else { OtherKeepsOwned(s, op); }
    StepConsistent(s, op);
    StepInverseIff(s, op);
  }

  /** In every run that follows the discipline the two maps stay exact inverses, and no room is ever empty. */
  lemma {:induction false} DisciplinedRun(s: State, ops: seq<Op>)
    requires Consistent(s) && Inverse(s) && Owned(s)
    requires forall i :: 0 <= i < |ops| ==> Disciplined(Exec(s, ops[..i]), ops[i])
    ensures var t := Exec(s, ops); Consistent(t) && Inverse(t) && Owned(t)
    decreases |ops|
  {
    if ops != [] {
      var n := |ops| - 1;
      var before := ops[..n];
      forall i | 0 <= i < n ensures Disciplined(Exec(s, before[..i]), before[i]) {
        assert before[..i] == ops[..i];
      }
      DisciplinedRun(s, before);
      assert Disciplined(Exec(s, ops[..n]), ops[n]);
      DisciplineStep(Exec(s, before), ops[n]);
    }
  }

  /** And a user whose connection has just disconnected is then in no room at all. */
  lemma DisconnectedInNoRoom(s: State, ops: seq<Op>, c: Conn)
    requires Consistent(s) && Inverse(s) && Owned(s)
    requires forall i :: 0 <= i < |ops| ==> Disciplined(Exec(s, ops[..i]), ops[i])
    ensures var t := Exec(s, ops + [Disconnect(c)]);
            UserID(t, c) != "" ==> UserID(t, c) !in t.userToRoom && forall r :: !Has(t.rooms, r, UserID(t, c))
  {
    DisciplinedRun(s, ops);
    assert (ops + [Disconnect(c)])[..|ops|] == ops;
    var t := Exec(s, ops);
    if UserID(t, c) != "" { VanishKeepsInverse(t, UserID(t, c)); }
  }

  /** The rule is not idle: joining a second room without leaving the first leaves the user in both,
      and disconnecting then removes only the second. */
  lemma SecondJoinLeavesGhost()
    ensures var s := State(map[], map[], map[], map[]);
            var t := Apply(Apply(Apply(s, Join(1, "ann", "red")), Join(1, "ann", "blue")), Disconnect(1));
            t.rooms == map["red" := map["ann" := 1]] && t.userToRoom == map[]
  {
    var s := State(map[], map[], map[], map[]);
    var a := Apply(s, Join(1, "ann", "red"));
    assert a.rooms == map["red" := map["ann" := 1]] && UserID(a, 1) == "ann";
    var b := Apply(a, Join(1, "ann", "blue"));
    assert "red"[0] != "blue"[0];
    assert b.rooms == map["red" := map["ann" := 1], "blue" := map["ann" := 1]] && UserID(b, 1) == "ann";
    assert b.userToRoom == map["ann" := "blue"];
    var inner := map["ann" := 1] - {"ann"};
    assert inner == map[];
  }

  /** What takes a user out of a room, exactly. */
  lemma ChangeRemovesIff(s: State, ch: Change, room: string, u: string)
    requires Has(s.rooms, room, u)
    ensures !Has(Changed(s, ch).rooms, room, u) <==>
              || ch == Exit(u, room)
              || (ch == Vanish(u) && u in s.userToRoom && s.userToRoom[u] == room)
  {
    match ch
    case Nothing =>
    case Enter(c, v, r) => PutEffect(s.rooms, r, v, c);
    case Exit(v, r) => DropEffect(s.rooms, r, v);
    case Vanish(v) => if v in s.userToRoom { DropEffect(s.rooms, s.userToRoom[v], v); }
  }

  /** So, by calls: a leave by a connection whose own room that is, or a disconnect while
      the user's room is that one.  Nothing else removes a ghost. */
  lemma EntryRemovedIff(s: State, op: Op, room: string, u: string)
    requires Has(s.rooms, room, u)
    ensures !Has(Apply(s, op).rooms, room, u) <==>
              && Actor(s, op) == u
              && match op
                 case Join(_, _, _) => false
                 case Leave(c, _) => room != "" && RoomID(s, c) == room
                 case Disconnect(c) => u != "" && u in s.userToRoom && s.userToRoom[u] == room
  {
    ChangeRemovesIff(s, ChangeOf(s, op), room, u);
  }

  // ---------------------------------------------------------------- entries, from the history alone

  /** Step `i` puts `u` into `room` as the user of connection `c`. */
  ghost predicate EntersAt(s: State, ops: seq<Op>, i: nat, room: string, u: string)
    requires i < |ops|
  {
    ops[i].Join? && ops[i].room == room && Actor(Exec(s, ops[..i]), ops[i]) == u
  }

  /** Step `i` is a leave or disconnect that acts for `u` and on `room`. */
  ghost predicate LeavesAt(s: State, ops: seq<Op>, i: nat, room: string, u: string)
    requires i < |ops|
  {
    var t := Exec(s, ops[..i]);
    && Actor(t, ops[i]) == u
    && match ops[i]
       case Join(_, _, _) => false
       case Leave(c, _) => room != "" && RoomID(t, c) == room
       case Disconnect(c) => u != "" && u in t.userToRoom && t.userToRoom[u] == room
  }

  /** Step `i` is the last to put `u` into `room`, and nothing after it takes `u` out. */
  ghost predicate EnteredLast(s: State, ops: seq<Op>, i: nat, room: string, u: string)
    requires i < |ops|
  {
    && EntersAt(s, ops, i, room, u)
    && forall j :: i < j < |ops| ==> !EntersAt(s, ops, j, room, u) && !LeavesAt(s, ops, j, room, u)
  }

  lemma EntryAfter(s: State, op: Op, room: string, u: string)
    ensures var s', enters := Apply(s, op), op.Join? && op.room == room && Actor(s, op) == u;
            && (Has(s'.rooms, room, u) <==>
                  enters || (Has(s.rooms, room, u) && !LeavesAt(s, [op], 0, room, u)))
            && (enters ==> s'.rooms[room][u] == op.c)
            && (!enters && Has(s'.rooms, room, u) ==> s'.rooms[room][u] == s.rooms[room][u])
  {
    assert [op][..0] == [];
    var ch := ChangeOf(s, op);
    match ch
    case Nothing =>
    case Enter(c, v, r) => PutHas(s.rooms, r, v, c, room, u);
    case Exit(v, r) => DropHas(s.rooms, r, v, room, u);
    case Vanish(v) => if v in s.userToRoom { DropHas(s.rooms, s.userToRoom[v], v, room, u); }
  }

  lemma SameBefore(s: State, ops: seq<Op>, j: nat, room: string, u: string)
    requires j < |ops| - 1
    ensures var before := ops[..|ops| - 1];
            && EntersAt(s, before, j, room, u) == EntersAt(s, ops, j, room, u)
            && LeavesAt(s, before, j, room, u) == LeavesAt(s, ops, j, room, u)
  {
    assert ops[..|ops| - 1][..j] == ops[..j];
  }

  lemma EnteredLastStep(s: State, ops: seq<Op>, i: nat, room: string, u: string)
    requires i < |ops| - 1
    ensures var n := |ops| - 1;
            EnteredLast(s, ops, i, room, u) <==>
              EnteredLast(s, ops[..n], i, room, u) && !EntersAt(s, ops, n, room, u) && !LeavesAt(s, ops, n, room, u)
  {
    var n := |ops| - 1;
    forall j: nat | j < n
      ensures EntersAt(s, ops[..n], j, room, u) == EntersAt(s, ops, j, room, u)
      ensures LeavesAt(s, ops[..n], j, room, u) == LeavesAt(s, ops, j, room, u)
    {
      SameBefore(s, ops, j, room, u);
    }
  }

  /** Some connection's join put `u` into `room` last, and it was `c`. */
  ghost predicate InBy(s: State, ops: seq<Op>, room: string, u: string, c: Conn)
  {
    exists i :: 0 <= i < |ops| && EnteredLast(s, ops, i, room, u) && ops[i].c == c
  }

  lemma InByStep(s: State, ops: seq<Op>, room: string, u: string, c: Conn)
    requires ops != []
    ensures var n := |ops| - 1;
            InBy(s, ops, room, u, c) <==>
              if EntersAt(s, ops, n, room, u) then ops[n].c == c
              else InBy(s, ops[..n], room, u, c) && !LeavesAt(s, ops, n, room, u)
  {
    var n := |ops| - 1;
    forall i: nat | i < n
      ensures EnteredLast(s, ops, i, room, u) <==>
              EnteredLast(s, ops[..n], i, room, u) && !EntersAt(s, ops, n, room, u) && !LeavesAt(s, ops, n, room, u)
    {
      EnteredLastStep(s, ops, i, room, u);
    }
    assert EnteredLast(s, ops, n, room, u) <==> EntersAt(s, ops, n, room, u);
    if InBy(s, ops[..n], room, u, c) {
      var i :| 0 <= i < n && EnteredLast(s, ops[..n], i, room, u) && ops[..n][i].c == c;
      assert EnteredLast(s, ops, i, room, u) <==> !EntersAt(s, ops, n, room, u) && !LeavesAt(s, ops, n, room, u);
    }
  }

  /** What a room holds, from the calls alone: a user is in it exactly if some join put the user there and nothing has
      taken the user out since, and the entry names the connection of the last such join. */
  lemma {:induction false} EntryLaw(s: State, ops: seq<Op>, room: string, u: string, c: Conn)
    requires s.rooms == map[]
    ensures var t := Exec(s, ops);
            Has(t.rooms, room, u) && t.rooms[room][u] == c <==>
              exists i :: 0 <= i < |ops| && EnteredLast(s, ops, i, room, u) && ops[i].c == c
    decreases |ops|
  {
    if ops != [] {
      var n := |ops| - 1;
      EntryLaw(s, ops[..n], room, u, c);
      EntryAfter(Exec(s, ops[..n]), ops[n], room, u);
      LeavesNow(s, ops, room, u);
      assert InBy(s, ops[..n], room, u, c) <==>
             Has(Exec(s, ops[..n]).rooms, room, u) && Exec(s, ops[..n]).rooms[room][u] == c;
      InByStep(s, ops, room, u, c);
      assert InBy(s, ops, room, u, c) <==> Has(Exec(s, ops).rooms, room, u) && Exec(s, ops).rooms[room][u] == c;
    }
  }

  lemma LeavesNow(s: State, ops: seq<Op>, room: string, u: string)
    requires ops != []
    ensures var n := |ops| - 1;
            LeavesAt(s, ops, n, room, u) == LeavesAt(Exec(s, ops[..n]), [ops[n]], 0, room, u)
  {
    assert [ops[|ops| - 1]][..0] == [];
  }

  // ---------------------------------------------------------------- the code

  class Handler {
    var rooms: Nested<string, string, Conn>
    var userToRoom: map<string, string>
    var userOf: map<Conn, string>
    var roomOf: map<Conn, string>

    ghost function Snapshot(): State
      reads this
    {
      State(rooms, userToRoom, userOf, roomOf)
    }

    constructor ()
      ensures Snapshot() == State(map[], map[], map[], map[])
      ensures Consistent(Snapshot()) && Inverse(Snapshot())
    {
      rooms, userToRoom, userOf, roomOf := map[], map[], map[], map[];
    }

    method HandleJoin(c: Conn, msgUser: string, room: string)
      modifies this
      ensures Snapshot() == Apply(old(Snapshot()), Join(c, msgUser, room))
      ensures var own := UserID(old(Snapshot()), c);
              var u := if own != "" then own else msgUser;
              && Has(rooms, room, u) && rooms[room][u] == c
              && userToRoom == old(userToRoom)[u := room]
              && userOf == old(userOf)[c := u] && roomOf == old(roomOf)[c := room]
    {
      var u := if c in userOf then userOf[c] else "";
      if u == "" { u := msgUser; }
      userOf := userOf[c := u];
      roomOf := roomOf[c := room];
      if room !in rooms { rooms := rooms[room := map[]]; }
      var members: map<string, Conn> := rooms[room];
      members := members[u := c];
      rooms := rooms[room := members];
      userToRoom := userToRoom[u := room];
      assert rooms == Put(old(rooms), room, u, c);
    }

    method HandleLeave(c: Conn, msgUser: string)
      modifies this
      ensures Snapshot() == Apply(old(Snapshot()), Leave(c, msgUser))
      ensures var own, room := UserID(old(Snapshot()), c), RoomID(old(Snapshot()), c);
              var u := if own != "" then own else msgUser;
              if room == "" then Snapshot() == old(Snapshot())
              else userToRoom == old(userToRoom) - {u} && rooms == Drop(old(rooms), room, u)
    {
      var room := if c in roomOf then roomOf[c] else "";
      if room == "" { return; }
      var u := if c in userOf then userOf[c] else "";
      if u == "" { u := msgUser; }
      Remove(u, room);
    }

    /** The part of a leave or a disconnect that runs under the lock. */
    method Remove(u: string, room: string)
      modifies this
      ensures Snapshot() == Changed(old(Snapshot()), Exit(u, room))
    {
      if room in rooms {
        var members := rooms[room] - {u};
        if |members| == 0 { rooms := rooms - {room}; } else { rooms := rooms[room := members]; }
      }
      userToRoom := userToRoom - {u};
    }

    method OnDisconnect(c: Conn)
      modifies this
      ensures Snapshot() == Apply(old(Snapshot()), Disconnect(c))
      ensures var u := UserID(old(Snapshot()), c);
              if u == "" || u !in old(userToRoom) then Snapshot() == old(Snapshot())
              else userToRoom == old(userToRoom) - {u} && rooms == Drop(old(rooms), old(userToRoom)[u], u)
    {
      var u := if c in userOf then userOf[c] else "";
      if u == "" { return; }
      if u in userToRoom { Remove(u, userToRoom[u]); }
    }

    /** The connections a broadcast goes to, in map order: each as often as there are members it stands for. */
    method BroadcastTargets(room: string) returns (conns: seq<Conn>)
      ensures forall c :: multiset(conns)[c] == Count(Inner(rooms, room), Is(c))
    {
      conns := [];
      ghost var done: map<string, Conn> := map[];
      CountsNone();
      if room !in rooms { return; }
      var rest := rooms[room].Keys;
      while rest != {}
        invariant rest <= rooms[room].Keys && done == rooms[room] - rest
        invariant forall c :: multiset(conns)[c] == Count(done, Is(c))
        decreases |rest|
      {
        var u :| u in rest;
        OneMoreTarget(done, u, rooms[room][u], conns);
        conns, rest, done := conns + [rooms[room][u]], rest - {u}, done[u := rooms[room][u]];
      }
      assert done == Inner(rooms, room);
    }
  }

  ghost function Is(c: Conn): Conn -> bool { x => x == c }

  lemma CountsNone()
    ensures forall c :: Count<string, Conn>(map[], Is(c)) == 0
  {
    forall c ensures Count<string, Conn>(map[], Is(c)) == 0 { CountEmpty<string, Conn>(Is(c)); }
  }

  lemma OneMoreTarget(done: map<string, Conn>, u: string, v: Conn, conns: seq<Conn>)
    requires u !in done && forall c :: multiset(conns)[c] == Count(done, Is(c))
    ensures forall c :: multiset(conns + [v])[c] == Count(done[u := v], Is(c))
  {
    forall c ensures multiset(conns + [v])[c] == Count(done[u := v], Is(c)) { CountUpdate(done, u, v, Is(c)); }
  }
}
