/** The sharded connection hub, stateful/hub.go.

    `HubState` and `Apply` describe one critical section at a time, so a sequence of operations
    is any interleaving of concurrent callers.  The class `Hub` is the code itself, each
    method proved against these functions; the flat state is what a caller should be able
    to imagine instead of the shards.
 */
module HubModel {
  import opened NestedMap
  import opened Sharded
  import ShardHash

  /** A connection object.  Two objects with the same ID differ in `ref`. */
  datatype Conn = Conn(id: string, ref: nat)

  datatype Shard = Shard(connections: map<string, Conn>, userConns: Nested<string, string, Conn>)

  /** The shards, the user ID each connection object carries, and the function that names the shard of an ID.
      Nothing below depends on how that function hashes; `Empty` fixes it to the code's. */
  datatype HubState = HubState(shards: seq<Shard>, userOf: map<Conn, string>, home: string -> nat)

  /** One atomic step.  `BindUser` is `SetUser` followed, later, by `Bind`. */
  datatype Op =
    | Register(c: Conn)
    | Unregister(c: Conn)
    | SetUser(c: Conn, u: string)
    | Bind(c: Conn, u: string)

  function UserID(userOf: map<Conn, string>, c: Conn): string
  {
    if c in userOf then userOf[c] else ""
  }

  /** The shard the code selects among `n`. */
  function HomeOf(n: nat): string -> nat
    requires n > 0
  {
    key => ShardHash.ShardIndex(key, n - 1)
  }

  lemma HomeInRange(n: nat, key: string)
    requires n > 0
    ensures HomeOf(n)(key) < n
  {
  }

  /** With a shard count as `NewHub` computes it from at most 2^32, that is the hash modulo the count. */
  lemma HomeIsRemainder(n: nat, key: string)
    requires ShardHash.IsShardCount(n)
    ensures n > 0 && HomeOf(n)(key) == ShardHash.Hash(key) % n
  {
    ShardHash.IndexIsRemainder(key, n);
  }

  ghost predicate Ranged(s: HubState)
  {
    s.shards != [] && forall key :: s.home(key) < |s.shards|
  }

  function ApplyToShard(sh: Shard, userOf: map<Conn, string>, op: Op): Shard
  {
    match op
    case Register(c) => sh.(connections := sh.connections[c.id := c])
    case Unregister(c) =>
      var u := UserID(userOf, c);
      Shard(sh.connections - {c.id}, if u != "" then Drop(sh.userConns, u, c.id) else sh.userConns)
    case SetUser(c, u) => sh
    case Bind(c, u) => sh.(userConns := Put(sh.userConns, u, c.id, c))
  }

  function Apply(s: HubState, op: Op): HubState
    requires s.home(op.c.id) < |s.shards|
  {
    var h := s.home(op.c.id);
    HubState(s.shards[h := ApplyToShard(s.shards[h], s.userOf, op)],
             if op.SetUser? then s.userOf[op.c := op.u] else s.userOf,
             s.home)
  }

  ghost function Exec(s: HubState, ops: seq<Op>): (t: HubState)
    requires Ranged(s)
    ensures Ranged(t) && |t.shards| == |s.shards|
  {
    if ops == [] then s else Apply(Exec(s, ops[..|ops| - 1]), ops[|ops| - 1])
  }

  /** A hub as `NewHub` leaves it. */
  function Empty(n: nat): HubState
    requires n > 0
  {
    HubState(seq(n, i => Shard(map[], map[])), map[], HomeOf(n))
  }

  // ---------------------------------------------------------------- the shard families

  function ConnShards(s: HubState): Shards<string, Conn>
  {
    seq(|s.shards|, i requires 0 <= i < |s.shards| => s.shards[i].connections)
  }

  function BindingShards(s: HubState): Shards<(string, string), Conn>
  {
    seq(|s.shards|, i requires 0 <= i < |s.shards| => Pairs(s.shards[i].userConns))
  }

  function UserShards(s: HubState, u: string): Shards<string, Conn>
  {
    seq(|s.shards|, i requires 0 <= i < |s.shards| => Inner(s.shards[i].userConns, u))
  }

  function PairHome(home: string -> nat): ((string, string)) -> nat
  {
    (pair: (string, string)) => home(pair.1)
  }

  /** Every ID sits only in its own shard, in both indexes, and no inner user map is empty. */
  ghost predicate Valid(s: HubState)
  {
    && Ranged(s)
    && Placed(ConnShards(s), s.home)
    && Placed(BindingShards(s), PairHome(s.home))
    && forall i :: 0 <= i < |s.shards| ==> NoEmpty(s.shards[i].userConns)
  }

  // ---------------------------------------------------------------- the flat hub

  /** What callers should see: one map of connections and one of (user, connection ID) bindings. */
  datatype Flat = Flat(conns: map<string, Conn>, bindings: map<(string, string), Conn>, userOf: map<Conn, string>)

  function FlatApply(f: Flat, op: Op): Flat
  {
    match op
    case Register(c) => f.(conns := f.conns[c.id := c])
    case Unregister(c) =>
      var u := UserID(f.userOf, c);
      Flat(f.conns - {c.id}, if u != "" then f.bindings - {(u, c.id)} else f.bindings, f.userOf)
    case SetUser(c, u) => f.(userOf := f.userOf[c := u])
    case Bind(c, u) => f.(bindings := f.bindings[(u, c.id) := c])
  }

  function FlatExec(ops: seq<Op>): Flat
  {
    if ops == [] then Flat(map[], map[], map[])
    else FlatApply(FlatExec(ops[..|ops| - 1]), ops[|ops| - 1])
  }

  function Flatten(s: HubState): Flat
  {
    Flat(Merge(ConnShards(s)), Merge(BindingShards(s)), s.userOf)
  }

  lemma ConnShardsStep(s: HubState, op: Op)
    requires Valid(s)
    ensures Placed(ConnShards(Apply(s, op)), s.home)
    ensures Merge(ConnShards(Apply(s, op))) == FlatApply(Flatten(s), op).conns
  {
    var home, k := s.home, op.c.id;
    var m, m' := ConnShards(s), ConnShards(Apply(s, op));
    match op
    case Register(c) =>
      assert m' == m[home(k) := m[home(k)][k := c]];
      MergePut(m, home, k, c);
    case Unregister(c) =>
      assert m' == m[home(k) := m[home(k)] - {k}];
      MergeDelete(m, home, k);
    case SetUser(c, u) => assert m' == m;
    case Bind(c, u) => assert m' == m;
  }

  lemma BindingShardsAfter(s: HubState, op: Op)
    requires s.home(op.c.id) < |s.shards|
    ensures var h := s.home(op.c.id);
            BindingShards(Apply(s, op))
            == BindingShards(s)[h := Pairs(ApplyToShard(s.shards[h], s.userOf, op).userConns)]
  {
  }

  lemma PairsAfter(sh: Shard, userOf: map<Conn, string>, op: Op)
    ensures var p, p' := Pairs(sh.userConns), Pairs(ApplyToShard(sh, userOf, op).userConns);
            p' == match op
                  case Bind(c, u) => p[(u, c.id) := c]
                  case Unregister(c) => if UserID(userOf, c) != "" then p - {(UserID(userOf, c), c.id)} else p
                  case _ => p
  {
    match op
    case Unregister(c) => DropEffect(sh.userConns, UserID(userOf, c), c.id);
    case Bind(c, u) => PutEffect(sh.userConns, u, c.id, c);
    case _ =>
  }

  lemma BindingShardsStep(s: HubState, op: Op)
    requires Valid(s)
    ensures Placed(BindingShards(Apply(s, op)), PairHome(s.home))
    ensures Merge(BindingShards(Apply(s, op))) == FlatApply(Flatten(s), op).bindings
  {
    var id, home, m := op.c.id, PairHome(s.home), BindingShards(s);
    BindingShardsAfter(s, op);
    var h := s.home(id);
    PairsAfter(s.shards[h], s.userOf, op);
    assert m[h] == Pairs(s.shards[h].userConns) && m[h := m[h]] == m;
    match op
    case Unregister(c) =>
      var u := UserID(s.userOf, c);
      if u != "" { MergeDelete(m, home, (u, id)); }
    case Bind(c, u) => MergePut(m, home, (u, id), c);
    case _ =>
  }

  /** Each step on the shards is the step on the flat hub, and keeps every ID in its own shard. */
  lemma StepRefines(s: HubState, op: Op)
    requires Valid(s)
    ensures Valid(Apply(s, op))
    ensures Flatten(Apply(s, op)) == FlatApply(Flatten(s), op)
  {
    ConnShardsStep(s, op);
    BindingShardsStep(s, op);
    var sh := s.shards[s.home(op.c.id)];
    match op
    case Register(c) =>
    case SetUser(c, u) =>
    case Unregister(c) => DropEffect(sh.userConns, UserID(s.userOf, c), c.id);
    case Bind(c, u) => PutEffect(sh.userConns, u, c.id, c);
  }

  lemma EmptyShards(n: nat)
    requires n > 0
    ensures var s := Empty(n);
            && (forall i :: 0 <= i < n ==> ConnShards(s)[i] == map[])
            && (forall i :: 0 <= i < n ==> BindingShards(s)[i] == map[])
  {
    forall i | 0 <= i < n
      ensures ConnShards(Empty(n))[i] == map[]
      ensures BindingShards(Empty(n))[i] == map[]
    {
      assert Empty(n).shards[i] == Shard(map[], map[]);
      PairsOfNone();
    }
  }

  lemma PairsOfNone()
    ensures var none: Nested<string, string, Conn> := map[]; Pairs(none) == map[]
  {
  }

  lemma EmptyIsRanged(n: nat)
    requires n > 0
    ensures Ranged(Empty(n))
  {
    forall key ensures Empty(n).home(key) < n { HomeInRange(n, key); }
  }

  lemma EmptyIsValid(n: nat)
    requires n > 0
    ensures Valid(Empty(n))
    ensures Flatten(Empty(n)) == Flat(map[], map[], map[])
  {
    EmptyShards(n);
    EmptyIsRanged(n);
    var conns, bindings := ConnShards(Empty(n)), BindingShards(Empty(n));
    assert Placed(conns, HomeOf(n)) && Placed(bindings, PairHome(HomeOf(n)));
    MergeOfEmpties(conns);
    MergeOfEmpties(bindings);
  }

  lemma {:induction false} MergeOfEmpties<K, V>(m: Shards<K, V>)
    requires forall i :: 0 <= i < |m| ==> m[i] == map[]
    ensures Merge(m) == map[]
    decreases |m|
  {
    if m != [] { MergeOfEmpties(m[..|m| - 1]); }
  }

  /** In every reachable state the sharded hub is well placed and stands for the flat hub. */
  lemma {:induction false} HubRefinesFlat(n: nat, ops: seq<Op>)
    requires n > 0
    ensures Ranged(Empty(n))
    ensures Valid(Exec(Empty(n), ops))
    ensures Flatten(Exec(Empty(n), ops)) == FlatExec(ops)
    decreases |ops|
  {
    if ops == [] {
      EmptyIsValid(n);
    } else {
      HubRefinesFlat(n, ops[..|ops| - 1]);
      StepRefines(Exec(Empty(n), ops[..|ops| - 1]), ops[|ops| - 1]);
    }
  }

  // ---------------------------------------------------------------- the user index, from the history alone

  /** Step `j` deletes the binding of `id` to `u`. */
  ghost predicate RemovesAt(ops: seq<Op>, j: nat, u: string, id: string)
    requires j < |ops|
  {
    ops[j].Unregister? && ops[j].c.id == id && u != "" && UserID(FlatExec(ops[..j]).userOf, ops[j].c) == u
  }

  /** Step `i` binds `id` to `u`, and nothing after it deletes that binding. */
  ghost predicate BoundSince(ops: seq<Op>, i: nat, u: string, id: string)
    requires i < |ops|
  {
    && ops[i].Bind? && ops[i].u == u && ops[i].c.id == id
    && forall j :: i < j < |ops| ==> !RemovesAt(ops, j, u, id)
  }

  lemma RemovesAtPrefix(ops: seq<Op>, j: nat, u: string, id: string)
    requires j < |ops| - 1
    ensures RemovesAt(ops[..|ops| - 1], j, u, id) == RemovesAt(ops, j, u, id)
  {
    assert ops[..|ops| - 1][..j] == ops[..j];
  }

  /** With no hypothesis at all: a binding is present exactly when some `Bind` made it and no later
      `Unregister` of a connection carrying that user removed it. */
  lemma {:induction false} BindingLaw(ops: seq<Op>, u: string, id: string)
    ensures (u, id) in FlatExec(ops).bindings <==> exists i :: 0 <= i < |ops| && BoundSince(ops, i, u, id)
    decreases |ops|
  {
    if ops != [] {
      var n := |ops| - 1;
      var before, op := ops[..n], ops[n];
      BindingLaw(before, u, id);
      forall i | 0 <= i < n
        ensures BoundSince(ops, i, u, id) <==> BoundSince(before, i, u, id) && !RemovesAt(ops, n, u, id)
      {
        BoundSinceStep(ops, i, u, id);
      }
      if op.Bind? && op.u == u && op.c.id == id {
        assert BoundSince(ops, n, u, id);
      } else {
        assert !BoundSince(ops, n, u, id);
        if (u, id) in FlatExec(ops).bindings {
          var i :| 0 <= i < |before| && BoundSince(before, i, u, id);
          assert BoundSince(ops, i, u, id);
        }
      }
    }
  }

  lemma BoundSinceStep(ops: seq<Op>, i: nat, u: string, id: string)
    requires i < |ops| - 1
    ensures BoundSince(ops, i, u, id) <==>
            BoundSince(ops[..|ops| - 1], i, u, id) && !RemovesAt(ops, |ops| - 1, u, id)
  {
    var before := ops[..|ops| - 1];
    forall j | i < j < |before| ensures RemovesAt(before, j, u, id) == RemovesAt(ops, j, u, id) {
      RemovesAtPrefix(ops, j, u, id);
    }
    if BoundSince(before, i, u, id) && !RemovesAt(ops, |ops| - 1, u, id) {
      forall j | i < j < |ops| ensures !RemovesAt(ops, j, u, id) {
        if j < |ops| - 1 { assert !RemovesAt(before, j, u, id); }
      }
    }
  }

  /** The discipline under which the user index is exact: connection IDs name one object, a connection
      is only ever given one non-empty user, its user ID is set before it is indexed, and nothing binds it once
      an `Unregister` of it has run. */
  ghost predicate SingleBinding(ops: seq<Op>)
  {
    && (forall i, j :: 0 <= i < |ops| && 0 <= j < |ops| && ops[i].c.id == ops[j].c.id ==> ops[i].c == ops[j].c)
    && (forall i, j :: 0 <= i < |ops| && 0 <= j < |ops| && Binds(ops[i]) && Binds(ops[j]) && ops[i].c == ops[j].c
          ==> ops[i].u == ops[j].u != "")
    && (forall i :: 0 <= i < |ops| && ops[i].Bind? ==> SetBefore(ops, i))
    && (forall i, j :: 0 <= i < j < |ops| && ops[i].Unregister? && Binds(ops[j]) ==> ops[i].c != ops[j].c)
  }

  predicate Binds(op: Op) { op.SetUser? || op.Bind? }

  ghost predicate SetBefore(ops: seq<Op>, i: nat)
    requires i < |ops| && ops[i].Bind?
  {
    exists h :: 0 <= h < i && ops[h] == SetUser(ops[i].c, ops[i].u)
  }

  lemma {:induction false} UserIDStable(ops: seq<Op>, c: Conn, u: string, h: nat, n: nat)
    requires h < n <= |ops| && ops[h] == SetUser(c, u)
    requires forall i :: 0 <= i < |ops| && ops[i].SetUser? && ops[i].c == c ==> ops[i].u == u
    ensures UserID(FlatExec(ops[..n]).userOf, c) == u
    decreases n
  {
    assert ops[..n][..n - 1] == ops[..n - 1];
    if n > h + 1 { UserIDStable(ops, c, u, h, n - 1); }
  }

  lemma UnregisterRemoves(ops: seq<Op>, k: nat, j: nat, c: Conn, u: string)
    requires SingleBinding(ops) && k < |ops| && j < |ops| && ops[k] == Bind(c, u) && ops[j] == Unregister(c)
    ensures k < j && RemovesAt(ops, j, u, c.id)
  {
    assert Binds(ops[k]);
    assert SetBefore(ops, k);
    var h :| 0 <= h < k && ops[h] == SetUser(c, u);
    assert Binds(ops[h]);
    forall i | 0 <= i < |ops| && ops[i].SetUser? && ops[i].c == c ensures ops[i].u == u { assert Binds(ops[i]); }
    UserIDStable(ops, c, u, h, j);
  }

  /** Under that discipline the index holds exactly the bound connections that have not been unregistered. */
  lemma SingleBindingLaw(ops: seq<Op>, c: Conn, u: string)
    requires SingleBinding(ops)
    requires exists i :: 0 <= i < |ops| && ops[i] == Bind(c, u)
    ensures (u, c.id) in FlatExec(ops).bindings
       <==> forall j :: 0 <= j < |ops| ==> ops[j] != Unregister(c)
  {
    BindingLaw(ops, u, c.id);
    var i :| 0 <= i < |ops| && ops[i] == Bind(c, u);
    if j :| 0 <= j < |ops| && ops[j] == Unregister(c) {
      forall k | 0 <= k < |ops| ensures !BoundSince(ops, k, u, c.id) {
        if ops[k].Bind? && ops[k].u == u && ops[k].c.id == c.id {
          assert ops[k].c == ops[i].c;
          UnregisterRemoves(ops, k, j, c, u);
        }
      }
    } else {
      assert BoundSince(ops, i, u, c.id) by {
        forall j | i < j < |ops| ensures !RemovesAt(ops, j, u, c.id) {
          assert ops[j].c.id == c.id ==> ops[j].c == ops[i].c;
        }
      }
    }
  }

  /** Without it the index goes stale: a connection bound to two users in turn leaves the first
      binding behind when it unregisters. */
  lemma RebindingLeaksBinding()
    ensures var c := Conn("1", 0);
            var ops := [SetUser(c, "ann"), Bind(c, "ann"), SetUser(c, "bob"), Bind(c, "bob"), Unregister(c)];
            FlatExec(ops).bindings == map[("ann", "1") := c]
  {
    var c := Conn("1", 0);
    assert "ann"[0] != "bob"[0];
    var a, b := [SetUser(c, "ann"), Bind(c, "ann")], [SetUser(c, "ann"), Bind(c, "ann"), SetUser(c, "bob")];
    var d := [SetUser(c, "ann"), Bind(c, "ann"), SetUser(c, "bob"), Bind(c, "bob")];
    FlatExecAppend([SetUser(c, "ann")], Bind(c, "ann"));
    assert [SetUser(c, "ann")] + [Bind(c, "ann")] == a;
    FlatExecAppend(a, SetUser(c, "bob"));
    assert a + [SetUser(c, "bob")] == b;
    FlatExecAppend(b, Bind(c, "bob"));
    assert b + [Bind(c, "bob")] == d;
    FlatExecAppend(d, Unregister(c));
    assert d + [Unregister(c)]
        == [SetUser(c, "ann"), Bind(c, "ann"), SetUser(c, "bob"), Bind(c, "bob"), Unregister(c)];
    assert FlatExec(d).bindings == map[("ann", "1") := c, ("bob", "1") := c];
  }

  lemma FlatExecAppend(ops: seq<Op>, op: Op)
    ensures FlatExec(ops + [op]) == FlatApply(FlatExec(ops), op)
  {
    assert (ops + [op])[..|ops|] == ops;
  }

  // ---------------------------------------------------------------- statistics

  function TotalUsers(s: HubState): nat
  {
    SumUsers(s.shards)
  }

  function SumUsers(shards: seq<Shard>): nat
  {
    if shards == [] then 0 else SumUsers(shards[..|shards| - 1]) + |shards[|shards| - 1].userConns|
  }

  ghost function Users(shards: seq<Shard>): set<string>
  {
    set i, u | 0 <= i < |shards| && u in shards[i].userConns :: u
  }

  lemma UsersStep(shards: seq<Shard>)
    requires shards != []
    ensures Users(shards) == Users(shards[..|shards| - 1]) + shards[|shards| - 1].userConns.Keys
  {
    var init, last := shards[..|shards| - 1], shards[|shards| - 1];
    forall u | u in Users(shards) ensures u in Users(init) + last.userConns.Keys {
      var i :| 0 <= i < |shards| && u in shards[i].userConns;
      if i < |init| { assert u in init[i].userConns; }
    }
    forall u | u in Users(init) ensures u in Users(shards) {
      var i :| 0 <= i < |init| && u in init[i].userConns;
      assert u in shards[i].userConns;
    }
    forall u | u in last.userConns.Keys ensures u in Users(shards) {
      assert u in shards[|shards| - 1].userConns;
    }
  }

  /** The users of each shard, shard by shard. */
  ghost function ShardUsers(shards: seq<Shard>): set<(int, string)>
  {
    set i, u | 0 <= i < |shards| && u in shards[i].userConns :: (i, u)
  }

  lemma TagSize(i: int, users: set<string>)
    ensures |set u | u in users :: (i, u)| == |users|
    decreases |users|
  {
    var tagged := set u | u in users :: (i, u);
    if users == {} {
      assert tagged == {};
    } else {
      var v :| v in users;
      TagSize(i, users - {v});
      assert tagged == (set u | u in users - {v} :: (i, u)) + {(i, v)};
    }
  }

  lemma ShardUsersStep(shards: seq<Shard>)
    requires shards != []
    ensures var n := |shards| - 1;
            var last := set u | u in shards[n].userConns.Keys :: (n, u);
            ShardUsers(shards) == ShardUsers(shards[..n]) + last && ShardUsers(shards[..n]) !! last
  {
    var n := |shards| - 1;
    var init, last := shards[..n], set u | u in shards[n].userConns.Keys :: (n, u);
    forall i, u ensures (i, u) in ShardUsers(shards) <==> (i, u) in ShardUsers(init) + last {
      InShardUsers(shards, i, u);
      InShardUsers(init, i, u);
    }
    forall i, u | (i, u) in ShardUsers(init) ensures (i, u) !in last { InShardUsers(init, i, u); }
  }

  lemma InShardUsers(shards: seq<Shard>, i: int, u: string)
    ensures (i, u) in ShardUsers(shards) <==> 0 <= i < |shards| && u in shards[i].userConns
  {
  }

  lemma {:induction false} SumIsShardUsers(shards: seq<Shard>)
    ensures SumUsers(shards) == |ShardUsers(shards)|
    decreases |shards|
  {
    if shards == [] {
      assert ShardUsers(shards) == {};
    } else {
      var n := |shards| - 1;
      SumIsShardUsers(shards[..n]);
      ShardUsersStep(shards);
      TagSize(n, shards[n].userConns.Keys);
    }
  }

  lemma {:induction false} UsersAtMostSum(shards: seq<Shard>)
    ensures |Users(shards)| <= SumUsers(shards)
    decreases |shards|
  {
    if shards == [] {
      assert Users(shards) == {};
    } else {
      UsersAtMostSum(shards[..|shards| - 1]);
      UsersStep(shards);
      UnionSize(Users(shards[..|shards| - 1]), shards[|shards| - 1].userConns.Keys);
    }
  }

  lemma UnionSize<T>(a: set<T>, b: set<T>)
    ensures |a + b| <= |a| + |b|
  {
    assert a + b == a + (b - a);
    SubsetSize(b - a, b);
  }

  lemma {:induction false} SumUsersAtMostPairs(shards: seq<Shard>, pairs: Shards<(string, string), Conn>)
    requires |pairs| == |shards|
    requires forall i :: 0 <= i < |shards| ==> NoEmpty(shards[i].userConns) && pairs[i] == Pairs(shards[i].userConns)
    ensures SumUsers(shards) <= SumSizes(pairs)
    decreases |shards|
  {
    if shards != [] {
      SumUsersAtMostPairs(shards[..|shards| - 1], pairs[..|shards| - 1]);
      OuterAtMostPairs(shards[|shards| - 1].userConns);
    }
  }

  /** `Stats.TotalUsers` counts a user once per shard: at least the distinct users, at most the bindings. */
  lemma TotalUsersBounds(s: HubState)
    requires Valid(s)
    ensures TotalUsers(s) == |ShardUsers(s.shards)|
    ensures |Users(s.shards)| <= TotalUsers(s) <= |Flatten(s).bindings|
  {
    SumIsShardUsers(s.shards);
    UsersAtMostSum(s.shards);
    SumUsersAtMostPairs(s.shards, BindingShards(s));
    MergeSize(BindingShards(s), PairHome(s.home));
  }

  /** One user's entries over all shards are exactly the bindings of that user, each once. */
  lemma UserShardsLaw(s: HubState, u: string, id: string)
    requires Valid(s)
    ensures Placed(UserShards(s, u), s.home)
    ensures id in Merge(UserShards(s, u)) <==> (u, id) in Flatten(s).bindings
    ensures id in Merge(UserShards(s, u)) ==> Merge(UserShards(s, u))[id] == Flatten(s).bindings[(u, id)]
  {
    var m, p := UserShards(s, u), BindingShards(s);
    forall i, k | 0 <= i < |m| && k in m[i] ensures s.home(k) == i {
      assert (u, k) in p[i];
      assert PairHome(s.home)((u, k)) == i;
    }
    MergeLookup(m, s.home, id);
    MergeLookup(p, PairHome(s.home), (u, id));
  }

  // ---------------------------------------------------------------- scans while the hub changes

  /** The states the hub goes through while `ops` run. */
  ghost predicate IsHistory(states: seq<HubState>, ops: seq<Op>)
  {
    && |states| == |ops| + 1 && Valid(states[0])
    && forall t :: 0 <= t < |ops| ==> Ranged(states[t]) && states[t + 1] == Apply(states[t], ops[t])
  }

  lemma {:induction false} HistoryValid(states: seq<HubState>, ops: seq<Op>, t: nat)
    requires IsHistory(states, ops) && t < |states|
    ensures Valid(states[t]) && |states[t].shards| == |states[0].shards| && states[t].home == states[0].home
    decreases t
  {
    if t > 0 {
      HistoryValid(states, ops, t - 1);
      StepRefines(states[t - 1], ops[t - 1]);
    }
  }

  function ConnHistory(states: seq<HubState>): seq<Shards<string, Conn>>
  {
    seq(|states|, t requires 0 <= t < |states| => ConnShards(states[t]))
  }

  function UserHistory(states: seq<HubState>, u: string): seq<Shards<string, Conn>>
  {
    seq(|states|, t requires 0 <= t < |states| => UserShards(states[t], u))
  }

  lemma ConnHistoryPlaced(states: seq<HubState>, ops: seq<Op>)
    requires IsHistory(states, ops)
    ensures AllPlaced(ConnHistory(states), states[0].home, |states[0].shards|)
  {
    forall t | 0 <= t < |states|
      ensures Valid(states[t]) && |states[t].shards| == |states[0].shards| && states[t].home == states[0].home
    {
      HistoryValid(states, ops, t);
    }
  }

  /** A full `ForEach` or `Count` that overlaps any register, unregister and bind steps: it never visits an ID
      twice, counts what it visits, and visits an ID exactly if that ID is registered when its shard is visited. */
  lemma ForEachWhileChanging(states: seq<HubState>, ops: seq<Op>, visits: seq<nat>, pages: seq<seq<string>>)
    requires IsHistory(states, ops) && |visits| == |states[0].shards|
    requires IsScan(ConnHistory(states), visits, pages)
    ensures forall a, b :: 0 <= a < b < |Concat(pages)| ==> Concat(pages)[a] != Concat(pages)[b]
    ensures |Concat(pages)| == CountAt(ConnHistory(states), visits)
    ensures forall id :: id in Concat(pages) <==>
              id in Flatten(states[visits[states[0].home(id)]]).conns
  {
    var n := |states[0].shards|;
    var hist, home, out := ConnHistory(states), states[0].home, Concat(pages);
    ConnHistoryPlaced(states, ops);
    ScanNoDuplicates(hist, home, n, visits, pages);
    ScanCount(hist, visits, pages);
    forall id ensures id in out <==> id in Flatten(states[visits[home(id)]]).conns {
      if id in out { ScanSound(hist, home, n, visits, pages, id); }
      if id in Flatten(states[visits[home(id)]]).conns { ScanComplete(hist, home, n, visits, pages, id); }
    }
  }

  /** So an ID that is registered from the first visit to the last is visited exactly once,
      and one that is never registered in between is not visited. */
  lemma RegisteredThroughout(states: seq<HubState>, ops: seq<Op>, visits: seq<nat>, pages: seq<seq<string>>, id: string)
    requires IsHistory(states, ops) && |visits| == |states[0].shards|
    requires IsScan(ConnHistory(states), visits, pages)
    ensures (forall t :: visits[0] <= t <= visits[|visits| - 1] ==> id in Flatten(states[t]).conns)
        ==> multiset(Concat(pages))[id] == 1
    ensures (forall t :: visits[0] <= t <= visits[|visits| - 1] ==> id !in Flatten(states[t]).conns)
        ==> multiset(Concat(pages))[id] == 0
  {
    ForEachWhileChanging(states, ops, visits, pages);
    var t := visits[states[0].home(id)];
    assert visits[0] <= t <= visits[|visits| - 1];
    Multiplicity(Concat(pages), id);
  }

  lemma {:induction false} Multiplicity<K>(out: seq<K>, k: K)
    requires forall a, b :: 0 <= a < b < |out| ==> out[a] != out[b]
    ensures multiset(out)[k] == if k in out then 1 else 0
  {
    if k in out {
      var a :| 0 <= a < |out| && out[a] == k;
      assert out == out[..a] + [k] + out[a + 1..];
      assert k !in out[..a] && k !in out[a + 1..];
      assert multiset(out) == multiset(out[..a]) + multiset{k} + multiset(out[a + 1..]);
    }
  }

  /** With registrations (and binds) only, the count lies between the sizes before and after. */
  lemma CountWhileGrowing(states: seq<HubState>, ops: seq<Op>, visits: seq<nat>, pages: seq<seq<string>>)
    requires IsHistory(states, ops) && |visits| == |states[0].shards|
    requires IsScan(ConnHistory(states), visits, pages)
    requires forall t :: 0 <= t < |ops| ==> !ops[t].Unregister?
    ensures |Flatten(states[0]).conns| <= CountAt(ConnHistory(states), visits)
    ensures CountAt(ConnHistory(states), visits) <= |Flatten(states[|ops|]).conns|
  {
    ConnHistoryPlaced(states, ops);
    HistoryGrows(states, ops);
    CountBetween(ConnHistory(states), states[0].home, |states[0].shards|, visits, pages,
                 Flatten(states[0]).conns, Flatten(states[|ops|]).conns);
  }

  lemma CountBetween(hist: seq<Shards<string, Conn>>, home: string -> nat, n: nat, visits: seq<nat>,
                     pages: seq<seq<string>>, first: map<string, Conn>, last: map<string, Conn>)
    requires AllPlaced(hist, home, n) && IsScan(hist, visits, pages) && |visits| == n && hist != []
    requires GrowsThroughout(hist) && first == Merge(hist[0]) && last == Merge(hist[|hist| - 1])
    ensures |first| <= CountAt(hist, visits) <= |last|
  {
    ScanCountBounds(hist, home, n, visits, pages);
  }

  ghost predicate GrowsThroughout(hist: seq<Shards<string, Conn>>)
    requires hist != []
  {
    && (forall t :: 0 <= t < |hist| ==> Merge(hist[0]).Keys <= Merge(hist[t]).Keys)
    && (forall t :: 0 <= t < |hist| ==> Merge(hist[t]).Keys <= Merge(hist[|hist| - 1]).Keys)
  }

  lemma {:induction false} ChainGrows(keys: seq<set<string>>, t: nat, u: nat)
    requires forall i :: 0 < i < |keys| ==> keys[i - 1] <= keys[i]
    requires t <= u < |keys|
    ensures keys[t] <= keys[u]
    decreases u
  {
    if t < u { ChainGrows(keys, t, u - 1); }
  }

  lemma HistoryGrows(states: seq<HubState>, ops: seq<Op>)
    requires IsHistory(states, ops)
    requires forall t :: 0 <= t < |ops| ==> !ops[t].Unregister?
    ensures GrowsThroughout(ConnHistory(states))
  {
    var hist := ConnHistory(states);
    var keys := seq(|states|, t requires 0 <= t < |states| => Merge(hist[t]).Keys);
    forall i | 0 < i < |states| ensures keys[i - 1] <= keys[i] {
      HistoryValid(states, ops, i - 1);
      GrowStep(states[i - 1], ops[i - 1]);
    }
    forall t | 0 <= t < |states| ensures keys[0] <= keys[t] && keys[t] <= keys[|ops|] {
      ChainGrows(keys, 0, t);
      ChainGrows(keys, t, |ops|);
    }
    assert forall t :: 0 <= t < |states| ==> keys[t] == Merge(hist[t]).Keys;
  }

  lemma GrowStep(s: HubState, op: Op)
    requires Valid(s) && !op.Unregister?
    ensures Merge(ConnShards(s)).Keys <= Merge(ConnShards(Apply(s, op))).Keys
  {
    ConnShardsStep(s, op);
  }

  lemma UserHistoryPlaced(states: seq<HubState>, ops: seq<Op>, u: string)
    requires IsHistory(states, ops)
    ensures AllPlaced(UserHistory(states, u), states[0].home, |states[0].shards|)
    ensures forall t, id :: 0 <= t < |states| ==>
              (id in Merge(UserHistory(states, u)[t]) <==> (u, id) in Flatten(states[t]).bindings)
  {
    forall t | 0 <= t < |states|
      ensures |UserHistory(states, u)[t]| == |states[0].shards| && Placed(UserHistory(states, u)[t], states[0].home)
    {
      HistoryValid(states, ops, t);
      UserShardsLaw(states[t], u, "");
    }
    forall t, id | 0 <= t < |states|
      ensures id in Merge(UserHistory(states, u)[t]) <==> (u, id) in Flatten(states[t]).bindings
    {
      HistoryValid(states, ops, t);
      UserShardsLaw(states[t], u, id);
    }
  }

  /** `GetByUser` is such a scan over one user's entries: it lists no connection twice, and lists an ID exactly if
      it is bound to the user when its shard is visited. */
  lemma GetByUserWhileChanging(states: seq<HubState>, ops: seq<Op>, u: string, visits: seq<nat>,
                               pages: seq<seq<string>>)
    requires IsHistory(states, ops) && |visits| == |states[0].shards|
    requires IsScan(UserHistory(states, u), visits, pages)
    ensures forall a, b :: 0 <= a < b < |Concat(pages)| ==> Concat(pages)[a] != Concat(pages)[b]
    ensures forall id :: id in Concat(pages) <==>
              (u, id) in Flatten(states[visits[states[0].home(id)]]).bindings
  {
    var n := |states[0].shards|;
    var hist, home, out := UserHistory(states, u), states[0].home, Concat(pages);
    UserHistoryPlaced(states, ops, u);
    ScanNoDuplicates(hist, home, n, visits, pages);
    forall id ensures id in out <==> (u, id) in Flatten(states[visits[home(id)]]).bindings {
      if id in out { ScanSound(hist, home, n, visits, pages, id); }
      if (u, id) in Flatten(states[visits[home(id)]]).bindings {
        ScanComplete(hist, home, n, visits, pages, id);
      }
    }
  }

  // ---------------------------------------------------------------- the code

  /** `vals` are the values of the listed keys, page by page. */
  ghost predicate ValuesOf(pages: seq<seq<string>>, m: Shards<string, Conn>, vals: seq<Conn>)
    requires |pages| <= |m|
    decreases |pages|
  {
    |vals| == |Concat(pages)| &&
    if pages == [] then true
    else
      var j := |pages| - 1;
      var k := |Concat(pages[..j])|;
      && ValuesOf(pages[..j], m, vals[..k])
      && forall a :: 0 <= a < |pages[j]| ==> pages[j][a] in m[j] && vals[k..][a] == m[j][pages[j][a]]
  }

  lemma AppendPage(pages: seq<seq<string>>, m: Shards<string, Conn>, vals: seq<Conn>, page: seq<string>,
                   more: seq<Conn>)
    requires |pages| < |m| && ValuesOf(pages, m, vals) && |more| == |page|
    requires forall a :: 0 <= a < |page| ==> page[a] in m[|pages|] && more[a] == m[|pages|][page[a]]
    ensures ValuesOf(pages + [page], m, vals + more)
  {
    var all, j := pages + [page], |pages|;
    assert all[..j] == pages && all[j] == page;
    assert (vals + more)[..|vals|] == vals && (vals + more)[|vals|..] == more;
  }

  /** The callback accepted every visited value but, when the visit was stopped, the last. */
  ghost predicate StopsAtRefusal(visited: seq<Conn>, keepGoing: Conn -> bool, stopped: bool)
  {
    && (forall a :: 0 <= a < |visited| - 1 ==> keepGoing(visited[a]))
    && (stopped ==> visited != [])
    && (visited != [] ==> keepGoing(visited[|visited| - 1]) == !stopped)
  }

  lemma VisitOn(visited: seq<Conn>, more: seq<Conn>, keepGoing: Conn -> bool, stopped: bool)
    requires StopsAtRefusal(visited, keepGoing, false) && StopsAtRefusal(more, keepGoing, stopped)
    ensures StopsAtRefusal(visited + more, keepGoing, stopped)
  {
  }

  lemma {:induction false} FromPages(pages: seq<seq<string>>, m: Shards<string, Conn>, home: string -> nat,
                                     vals: seq<Conn>, a: nat)
    requires Placed(m, home) && |pages| <= |m| && ValuesOf(pages, m, vals) && a < |vals|
    ensures Concat(pages)[a] in Merge(m) && vals[a] == Merge(m)[Concat(pages)[a]]
    decreases |pages|
  {
    var j := |pages| - 1;
    var k := |Concat(pages[..j])|;
    if a < k {
      FromPages(pages[..j], m, home, vals[..k], a);
    } else {
      var key := pages[j][a - k];
      assert vals[k..][a - k] == m[j][key];
      MergeLookup(m, home, key);
    }
  }

  /** Both flat maps file a connection under its own ID. */
  ghost predicate Keyed(f: Flat)
  {
    && (forall id :: id in f.conns ==> f.conns[id].id == id)
    && (forall u, id :: (u, id) in f.bindings ==> f.bindings[(u, id)].id == id)
  }

  lemma StepKeepsKeyed(f: Flat, op: Op)
    requires Keyed(f)
    ensures Keyed(FlatApply(f, op))
  {
  }

  lemma SetUserRefines(s: HubState, c: Conn, u: string)
    requires Valid(s)
    ensures Apply(s, SetUser(c, u)) == s.(userOf := s.userOf[c := u])
    ensures Valid(s.(userOf := s.userOf[c := u]))
    ensures Flatten(s.(userOf := s.userOf[c := u])) == Flatten(s).(userOf := s.userOf[c := u])
  {
    var h := s.home(c.id);
    assert s.shards[h := s.shards[h]] == s.shards;
    StepRefines(s, SetUser(c, u));
  }

  /** The state that `BindUser` leaves, given the shard it has updated. */
  lemma BindRefines(s: HubState, c: Conn, u: string, sh: Shard)
    requires Valid(s) && Keyed(Flatten(s))
    requires s.home(c.id) < |s.shards| && sh == ApplyToShard(s.shards[s.home(c.id)], s.userOf[c := u], Bind(c, u))
    ensures var t := HubState(s.shards[s.home(c.id) := sh], s.userOf[c := u], s.home);
            && t == Apply(Apply(s, SetUser(c, u)), Bind(c, u))
            && Valid(t) && Keyed(Flatten(t))
            && Flatten(t).conns == Flatten(s).conns
            && Flatten(t).bindings == Flatten(s).bindings[(u, c.id) := c]
  {
    SetUserRefines(s, c, u);
    var mid := s.(userOf := s.userOf[c := u]);
    StepRefines(mid, Bind(c, u));
    StepKeepsKeyed(Flatten(mid), Bind(c, u));
  }

  /** The bindings without the one of `id` to `u`; an anonymous connection has none to remove. */
  function Unbound(bindings: map<(string, string), Conn>, u: string, id: string): map<(string, string), Conn>
  {
    if u == "" then bindings else bindings - {(u, id)}
  }

  lemma UnregisterRefines(s: HubState, c: Conn, i: nat)
    requires Valid(s) && i == s.home(c.id)
    ensures var t := Apply(s, Op.Unregister(c));
            && Valid(t) && t.home == s.home && t.userOf == s.userOf
            && t.shards == s.shards[i := ApplyToShard(s.shards[i], s.userOf, Op.Unregister(c))]
            && Flatten(t).conns == Flatten(s).conns - {c.id}
            && Flatten(t).bindings == Unbound(Flatten(s).bindings, UserID(s.userOf, c), c.id)
  {
    StepRefines(s, Op.Unregister(c));
  }

  /** No two listed connections have the same ID, and each is the one filed under its ID. */
  ghost predicate Lists(listed: seq<Conn>, m: map<string, Conn>)
  {
    && (forall a, b :: 0 <= a < b < |listed| ==> listed[a].id != listed[b].id)
    && (forall c :: c in listed ==> c.id in m && m[c.id] == c)
  }

  ghost predicate ListsAll(listed: seq<Conn>, m: map<string, Conn>)
  {
    Lists(listed, m) && forall id :: id in m ==> m[id] in listed
  }

  lemma ListedUnderOwnId(m: map<string, Conn>, ids: seq<string>, listed: seq<Conn>)
    requires |listed| == |ids| && forall a, b :: 0 <= a < b < |ids| ==> ids[a] != ids[b]
    requires forall a :: 0 <= a < |ids| ==> ids[a] in m && listed[a] == m[ids[a]]
    requires forall id :: id in m ==> m[id].id == id
    ensures Lists(listed, m)
    ensures (forall id :: id in m ==> id in ids) ==> ListsAll(listed, m)
  {
    forall id | id in m && id in ids ensures m[id] in listed {
      var a :| 0 <= a < |ids| && ids[a] == id;
      assert listed[a] == m[id];
    }
  }

  lemma PagesList(pages: seq<seq<string>>, m: Shards<string, Conn>, home: string -> nat, vals: seq<Conn>)
    requires Placed(m, home) && PagesOf(pages, m) && ValuesOf(pages, m, vals)
    requires forall id :: id in Merge(m) ==> Merge(m)[id].id == id
    ensures Lists(vals, Merge(m))
    ensures (forall id :: id in Merge(m) ==> id in Concat(pages)) ==> ListsAll(vals, Merge(m))
  {
    PagesDistinct(pages, m, home);
    forall a | 0 <= a < |vals| ensures Concat(pages)[a] in Merge(m) && vals[a] == Merge(m)[Concat(pages)[a]] {
      FromPages(pages, m, home, vals, a);
    }
    ListedUnderOwnId(Merge(m), Concat(pages), vals);
  }

  lemma FullPagesList(pages: seq<seq<string>>, m: Shards<string, Conn>, home: string -> nat, vals: seq<Conn>)
    requires Placed(m, home) && |pages| == |m| && FullPages(pages, m) && ValuesOf(pages, m, vals)
    requires forall id :: id in Merge(m) ==> Merge(m)[id].id == id
    ensures ListsAll(vals, Merge(m))
  {
    FullPagesArePages(pages, m);
    forall id | id in Merge(m) ensures id in Concat(pages) { PagesComplete(pages, m, home, id); }
    PagesList(pages, m, home, vals);
  }

  class Hub {
    var shards: seq<Shard>
    var shardMask: nat
    /** The user ID each connection object carries, set by `SetUserID` on the connection itself. */
    var userOf: map<Conn, string>

    ghost function State(): HubState
      reads this
    {
      HubState(shards, userOf, home)
    }

    /** The shard selection that `shardMask` induces. */
    ghost var home: string -> nat

    ghost predicate Ok()
      reads this
    {
      && Valid(State()) && Keyed(Flatten(State()))
      && shardMask == |shards| - 1 && home == HomeOf(|shards|)
    }

    /** `NewHub`.  Beyond 2^62 the shard count is too large for `make`, or has overflowed, and the code panics. */
    constructor (wanted: int)
      requires wanted <= ShardHash.TWO_62
      ensures Ok() && shards != [] && State() == Empty(|shards|)
      ensures wanted <= ShardHash.TWO_32 ==>
                && ShardHash.IsLeastPowerOf2(|shards|, if wanted <= 0 then 32 else wanted)
                && ShardHash.IsShardCount(|shards|)
    {
      var n := if wanted <= 0 then 32 else wanted;
      if wanted <= ShardHash.TWO_32 { ShardHash.CountsFit(n); }
      n := ShardHash.NextPowerOf2(n);
      var made: seq<Shard> := [];
      while |made| < n
        invariant |made| <= n
        invariant forall i :: 0 <= i < |made| ==> made[i] == Shard(map[], map[])
      {
        made := made + [Shard(map[], map[])];
      }
      shards, shardMask, userOf, home := made, n - 1, map[], HomeOf(n);
      new;
      assert State() == Empty(n);
      EmptyIsValid(n);
    }

    method GetShard(key: string) returns (i: nat)
      requires Ok()
      ensures i == home(key) < |shards|
    {
      i := ShardHash.GetShardIndex(key, shardMask);
    }

    method Register(c: Conn)
      requires Ok()
      modifies this`shards
      ensures Ok() && State() == Apply(old(State()), Op.Register(c))
      ensures Flatten(State()).conns == old(Flatten(State()).conns)[c.id := c]
      ensures Flatten(State()).bindings == old(Flatten(State()).bindings)
    {
      var i := GetShard(c.id);
      StepRefines(State(), Op.Register(c));
      StepKeepsKeyed(Flatten(State()), Op.Register(c));
      shards := shards[i := shards[i].(connections := shards[i].connections[c.id := c])];
    }

    method Unregister(c: Conn)
      requires Ok()
      modifies this`shards
      ensures Ok() && State() == Apply(old(State()), Op.Unregister(c))
      ensures Flatten(State()).conns == old(Flatten(State()).conns) - {c.id}
      ensures Flatten(State()).bindings == Unbound(old(Flatten(State()).bindings), UserID(userOf, c), c.id)
    {
      var i := GetShard(c.id);
      UnregisterRefines(State(), c, i);
      StepKeepsKeyed(Flatten(State()), Op.Unregister(c));
      var sh := UnregisterIn(shards[i], c, userOf);
      shards := shards[i := sh];
    }

    static method UnregisterIn(shard: Shard, c: Conn, userOf: map<Conn, string>) returns (sh: Shard)
      ensures sh == ApplyToShard(shard, userOf, Op.Unregister(c))
    {
      sh := shard.(connections := shard.connections - {c.id});
      var u := UserID(userOf, c);
      if u != "" {
        if u in sh.userConns {
          var conns := sh.userConns[u] - {c.id};
          if |conns| == 0 {
            sh := sh.(userConns := sh.userConns - {u});
          } else {
            sh := sh.(userConns := sh.userConns[u := conns]);
          }
        }
      }
    }

    method BindUser(c: Conn, u: string)
      requires Ok()
      modifies this`shards, this`userOf
      ensures Ok() && State() == Apply(Apply(old(State()), SetUser(c, u)), Bind(c, u))
      ensures userOf == old(userOf)[c := u]
      ensures Flatten(State()).conns == old(Flatten(State()).conns)
      ensures Flatten(State()).bindings == old(Flatten(State()).bindings)[(u, c.id) := c]
    {
      var i := GetShard(c.id);
      var sh := BindIn(shards[i], c, u);
      assert sh == ApplyToShard(shards[i], userOf[c := u], Bind(c, u));
      BindRefines(State(), c, u, sh);
      userOf := userOf[c := u];
      shards := shards[i := sh];
    }

    static method BindIn(shard: Shard, c: Conn, u: string) returns (sh: Shard)
      ensures forall users :: sh == ApplyToShard(shard, users, Bind(c, u))
    {
      sh := shard;
      if u !in sh.userConns {
        sh := sh.(userConns := sh.userConns[u := map[]]);
      }
      sh := sh.(userConns := sh.userConns[u := sh.userConns[u][c.id := c]]);
      assert sh.userConns == Put(shard.userConns, u, c.id, c);
    }

    method Get(id: string) returns (c: Conn, ok: bool)
      requires Ok()
      ensures ok == (id in Flatten(State()).conns)
      ensures ok ==> c == Flatten(State()).conns[id]
    {
      MergeLookup(ConnShards(State()), home, id);
      var i := GetShard(id);
      ok := id in shards[i].connections;
      c := if ok then shards[i].connections[id] else Conn("", 0);
    }

    method Count() returns (count: nat)
      requires Ok()
      ensures count == |Flatten(State()).conns|
    {
      count := 0;
      ghost var m := ConnShards(State());
      for i := 0 to |shards|
        invariant count == SumSizes(m[..i])
      {
        assert m[..i + 1][..i] == m[..i];
        count := count + |shards[i].connections|;
      }
      assert m[..|shards|] == m;
      MergeSize(m, home);
    }

    /** One map iteration with a callback that answers `keepGoing`; it stops right after the first refusal. */
    static method VisitMap(m: map<string, Conn>, keepGoing: Conn -> bool)
      returns (ghost keys: seq<string>, out: seq<Conn>, stopped: bool)
      ensures PartOf(keys, m)
      ensures |out| == |keys| && forall a :: 0 <= a < |out| ==> keys[a] in m && out[a] == m[keys[a]]
      ensures StopsAtRefusal(out, keepGoing, stopped)
      ensures !stopped ==> Enumerates(keys, m)
    {
      keys, out, stopped := [], [], false;
      var rest := m.Keys;
      while rest != {}
        invariant rest <= m.Keys
        invariant forall a, b :: 0 <= a < b < |keys| ==> keys[a] != keys[b]
        invariant forall k :: k in keys <==> k in m && k !in rest
        invariant |out| == |keys| && forall a :: 0 <= a < |out| ==> keys[a] in m && out[a] == m[keys[a]]
        invariant forall a :: 0 <= a < |out| ==> keepGoing(out[a])
        decreases |rest|
      {
        var k :| k in rest;
        keys, out, rest := keys + [k], out + [m[k]], rest - {k};
        if !keepGoing(m[k]) {
          stopped := true;
          return;
        }
      }
    }

    /** Every connection bound to `u`, each once, whatever shards they are in. */
    method GetByUser(u: string) returns (result: seq<Conn>)
      requires Ok()
      ensures forall a, b :: 0 <= a < b < |result| ==> result[a].id != result[b].id
      ensures forall c :: c in result <==>
                (u, c.id) in Flatten(State()).bindings && Flatten(State()).bindings[(u, c.id)] == c
    {
      ghost var m := UserShards(State(), u);
      ghost var pages;
      pages, result := CollectUser(shards, u, m);
      forall id ensures id in Merge(m) <==> (u, id) in Flatten(State()).bindings
                ensures id in Merge(m) ==> Merge(m)[id] == Flatten(State()).bindings[(u, id)]
      {
        UserShardsLaw(State(), u, id);
      }
      UserShardsLaw(State(), u, "");
      FullPagesList(pages, m, home, result);
    }

    static method UserPage(shard: Shard, u: string) returns (ghost page: seq<string>, vals: seq<Conn>)
      ensures Enumerates(page, Inner(shard.userConns, u)) && |vals| == |page|
      ensures forall a :: 0 <= a < |page| ==>
                page[a] in Inner(shard.userConns, u) && vals[a] == Inner(shard.userConns, u)[page[a]]
    {
      page, vals := [], [];
      if u in shard.userConns {
        var stopped;
        page, vals, stopped := VisitMap(shard.userConns[u], c => true);
      }
    }

    static method CollectUser(shards: seq<Shard>, u: string, ghost m: Shards<string, Conn>)
      returns (ghost pages: seq<seq<string>>, result: seq<Conn>)
      requires |m| == |shards| && forall i :: 0 <= i < |shards| ==> m[i] == Inner(shards[i].userConns, u)
      ensures |pages| == |m| && FullPages(pages, m)
      ensures ValuesOf(pages, m, result)
    {
      pages, result := [], [];
      for i := 0 to |shards|
        invariant |pages| == i && FullPages(pages, m)
        invariant ValuesOf(pages, m, result)
      {
        ghost var page: seq<string>;
        var vals: seq<Conn>;
        page, vals := UserPage(shards[i], u);
        AppendPage(pages, m, result, page, vals);
        NextPage(pages, m, page);
        result, pages := result + vals, pages + [page];
      }
    }

    /** `ForEach` with a callback that answers `keepGoing`. */
    method ForEach(keepGoing: Conn -> bool) returns (visited: seq<Conn>)
      requires Ok()
      ensures Lists(visited, Flatten(State()).conns)
      ensures forall a :: 0 <= a < |visited| - 1 ==> keepGoing(visited[a])
      ensures ListsAll(visited, Flatten(State()).conns) || (visited != [] && !keepGoing(visited[|visited| - 1]))
    {
      ghost var m := ConnShards(State());
      ghost var pages;
      var stopped;
      pages, visited, stopped := VisitShards(shards, keepGoing, m);
      PagesList(pages, m, home, visited);
      if !stopped { FullPagesList(pages, m, home, visited); }
    }

    static method VisitShards(shards: seq<Shard>, keepGoing: Conn -> bool, ghost m: Shards<string, Conn>)
      returns (ghost pages: seq<seq<string>>, visited: seq<Conn>, stopped: bool)
      requires |m| == |shards| && forall i :: 0 <= i < |shards| ==> m[i] == shards[i].connections
      ensures PagesOf(pages, m)
      ensures ValuesOf(pages, m, visited) && StopsAtRefusal(visited, keepGoing, stopped)
      ensures !stopped ==> |pages| == |m| && FullPages(pages, m)
    {
      pages, visited, stopped := [], [], false;
      for i := 0 to |shards|
        invariant |pages| == i && PagesOf(pages, m)
        invariant ValuesOf(pages, m, visited) && StopsAtRefusal(visited, keepGoing, stopped)
        invariant FullPages(pages, m) && !stopped
      {
        ghost var page: seq<string>;
        var vals: seq<Conn>;
        page, vals, stopped := VisitMap(shards[i].connections, keepGoing);
        AppendPage(pages, m, visited, page, vals);
        VisitOn(visited, vals, keepGoing, stopped);
        NextPage(pages, m, page);
        visited, pages := visited + vals, pages + [page];
        if stopped { return; }
      }
    }

    method Stats() returns (totalConnections: nat, totalUsers: nat, perShard: seq<(nat, nat)>)
      requires Ok()
      ensures totalConnections == |Flatten(State()).conns|
      ensures |Users(shards)| <= totalUsers <= |Flatten(State()).bindings|
      ensures totalUsers == |set i, u | 0 <= i < |shards| && u in shards[i].userConns :: (i, u)|
      ensures |perShard| == |shards|
      ensures forall i :: 0 <= i < |shards| ==> perShard[i] == (|shards[i].connections|, |shards[i].userConns|)
    {
      ghost var m := ConnShards(State());
      totalConnections, totalUsers, perShard := SumStats(shards, m);
      MergeSize(m, home);
      TotalUsersBounds(State());
      SumIsShardUsers(shards);
    }

    static method SumStats(shards: seq<Shard>, ghost m: Shards<string, Conn>)
      returns (totalConnections: nat, totalUsers: nat, perShard: seq<(nat, nat)>)
      requires |m| == |shards| && forall i :: 0 <= i < |shards| ==> m[i] == shards[i].connections
      ensures totalConnections == SumSizes(m) && totalUsers == SumUsers(shards)
      ensures |perShard| == |shards|
      ensures forall i :: 0 <= i < |shards| ==> perShard[i] == (|shards[i].connections|, |shards[i].userConns|)
    {
      totalConnections, totalUsers, perShard := 0, 0, [];
      for i := 0 to |shards|
        invariant totalConnections == SumSizes(m[..i]) && totalUsers == SumUsers(shards[..i])
        invariant |perShard| == i
        invariant forall j :: 0 <= j < i ==> perShard[j] == (|shards[j].connections|, |shards[j].userConns|)
      {
        assert m[..i + 1][..i] == m[..i] && shards[..i + 1][..i] == shards[..i];
        perShard := perShard + [(|shards[i].connections|, |shards[i].userConns|)];
        totalConnections := totalConnections + |shards[i].connections|;
        totalUsers := totalUsers + |shards[i].userConns|;
      }
      assert m[..|shards|] == m && shards[..|shards|] == shards;
    }
  }
}
