/** Protocol selection and its statistics, hybrid/fallback.go.

    A history is any sequence of critical sections.  `RecordFallback` is two of them, first the count and later the
    statistics, so histories include every overlap of concurrent calls.
 */
module Fallback {

  const WEB_SOCKET := "websocket"
  const WEB_TRANSPORT := "webtransport"
  const AUTO := "auto"

  const MAX_TRACKED := 10000

  datatype Stats = Stats(
    totalConnections: nat, webSocketOnly: nat, webTransportOnly: nat,
    webTransportSuccess: nat, webTransportFailed: nat, fallbackToWS: nat)

  datatype State = State(counts: map<string, nat>, stats: Stats)

  datatype Op =
    | CountFallback(id: string)
    | TallyFallback(from: string)
    | RecordConnection(proto: string)
    | Reset(id: string)
    | Cleanup

  const INIT := State(map[], Stats(0, 0, 0, 0, 0, 0))

  function CountOf(counts: map<string, nat>, id: string): nat
  {
    if id in counts then counts[id] else 0
  }

  function Apply(s: State, op: Op): State
  {
    match op
    case CountFallback(id) => s.(counts := s.counts[id := CountOf(s.counts, id) + 1])
    case TallyFallback(from) =>
      s.(stats := s.stats.(fallbackToWS := s.stats.fallbackToWS + 1,
                           webTransportFailed := s.stats.webTransportFailed + if from == WEB_TRANSPORT then 1 else 0))
    case RecordConnection(proto) =>
      s.(stats := s.stats.(totalConnections := s.stats.totalConnections + 1,
                           webSocketOnly := s.stats.webSocketOnly + (if proto == WEB_SOCKET then 1 else 0),
                           webTransportSuccess :=
                             s.stats.webTransportSuccess + if proto == WEB_TRANSPORT then 1 else 0))
    case Reset(id) => s.(counts := s.counts - {id})
    case Cleanup => if |s.counts| > MAX_TRACKED then s.(counts := map[]) else s
  }

  function Exec(ops: seq<Op>): State
  {
    if ops == [] then INIT else Apply(Exec(ops[..|ops| - 1]), ops[|ops| - 1])
  }

  // ---------------------------------------------------------------- counts, from the history alone

  /** Step `j` makes the manager forget client `id`: its own reset, or a cleanup that finds too many clients. */
  ghost predicate ForgetsAt(ops: seq<Op>, j: nat, id: string)
    requires j < |ops|
  {
    ops[j] == Reset(id) || (ops[j].Cleanup? && |Exec(ops[..j]).counts| > MAX_TRACKED)
  }

  /** Step `i` counted a fallback of `id` that nothing has forgotten since. */
  ghost predicate RememberedAt(ops: seq<Op>, i: nat, id: string)
    requires i < |ops|
  {
    ops[i] == CountFallback(id) && forall j :: i < j < |ops| ==> !ForgetsAt(ops, j, id)
  }

  /** The fallbacks of `id` since it was last forgotten. */
  ghost function Remembered(ops: seq<Op>, id: string): set<int>
  {
    set i | 0 <= i < |ops| && RememberedAt(ops, i, id)
  }

  lemma RememberedStep(ops: seq<Op>, i: nat, id: string)
    requires i < |ops| - 1
    ensures RememberedAt(ops, i, id) <==>
            RememberedAt(ops[..|ops| - 1], i, id) && !ForgetsAt(ops, |ops| - 1, id)
  {
    var before := ops[..|ops| - 1];
    forall j | i < j < |before| ensures ForgetsAt(before, j, id) == ForgetsAt(ops, j, id) {
      assert before[..j] == ops[..j];
    }
    if RememberedAt(before, i, id) && !ForgetsAt(ops, |ops| - 1, id) {
      forall j | i < j < |ops| ensures !ForgetsAt(ops, j, id) {
        if j < |ops| - 1 { assert !ForgetsAt(before, j, id); }
      }
    }
  }

  lemma RememberedSetStep(ops: seq<Op>, id: string)
    requires ops != []
    ensures var n := |ops| - 1;
            Remembered(ops, id) ==
              if ForgetsAt(ops, n, id) then {}
              else if ops[n] == CountFallback(id) then Remembered(ops[..n], id) + {n}
              else Remembered(ops[..n], id)
  {
    var n := |ops| - 1;
    var before := ops[..n];
    forall i | 0 <= i < n
      ensures RememberedAt(ops, i, id) <==> RememberedAt(before, i, id) && !ForgetsAt(ops, n, id)
    {
      RememberedStep(ops, i, id);
    }
    assert RememberedAt(ops, n, id) <==> ops[n] == CountFallback(id);
  }

  /** The stored count of a client is the number of its fallbacks since it was last reset or the map was last wiped. */
  lemma {:induction false} CountIsHistory(ops: seq<Op>, id: string)
    ensures CountOf(Exec(ops).counts, id) == |Remembered(ops, id)|
    decreases |ops|
  {
    if ops == [] {
      assert Remembered(ops, id) == {};
    } else {
      var n := |ops| - 1;
      CountIsHistory(ops[..n], id);
      RememberedSetStep(ops, id);
      assert n !in Remembered(ops[..n], id);
    }
  }

  // ---------------------------------------------------------------- statistics

  ghost function Occurrences(ops: seq<Op>, p: Op -> bool): nat
  {
    if ops == [] then 0 else Occurrences(ops[..|ops| - 1], p) + if p(ops[|ops| - 1]) then 1 else 0
  }

  predicate IsConnection(op: Op) { op.RecordConnection? }
  predicate IsOtherConnection(op: Op)
  {
    op.RecordConnection? && op.proto != WEB_SOCKET && op.proto != WEB_TRANSPORT
  }
  predicate IsCount(op: Op) { op.CountFallback? }
  predicate IsTally(op: Op) { op.TallyFallback? }

  lemma ProtocolsDiffer()
    ensures WEB_SOCKET != WEB_TRANSPORT
  {
    assert WEB_SOCKET[3] != WEB_TRANSPORT[3];
  }

  /** Total connections are the two protocols' counts plus anything recorded under another name; so they
      are exactly the two together if and only if no other name was recorded. */
  lemma {:induction false} ConnectionTotals(ops: seq<Op>)
    ensures var st := Exec(ops).stats;
            && st.totalConnections == Occurrences(ops, IsConnection)
            && st.totalConnections == st.webSocketOnly + st.webTransportSuccess + Occurrences(ops, IsOtherConnection)
            && st.webTransportOnly == 0
    decreases |ops|
  {
    if ops != [] {
      ConnectionTotals(ops[..|ops| - 1]);
      ProtocolsDiffer();
    }
  }

  predicate IsWebSocket(op: Op) { op == RecordConnection("websocket") }
  predicate IsWebTransport(op: Op) { op == RecordConnection("webtransport") }
  predicate IsFailure(op: Op) { op == TallyFallback("webtransport") }

  /** Each statistic is the number of calls that concern it. */
  lemma {:induction false} StatsAreHistory(ops: seq<Op>)
    ensures var st := Exec(ops).stats;
            && st.totalConnections == Occurrences(ops, IsConnection)
            && st.webSocketOnly == Occurrences(ops, IsWebSocket)
            && st.webTransportSuccess == Occurrences(ops, IsWebTransport)
            && st.fallbackToWS == Occurrences(ops, IsTally)
            && st.webTransportFailed == Occurrences(ops, IsFailure)
            && st.webTransportOnly == 0
    decreases |ops|
  {
    if ops != [] {
      StatsAreHistory(ops[..|ops| - 1]);
      ProtocolsDiffer();
    }
  }

  ghost function Sum(m: map<string, nat>): nat
    decreases |m|
  {
    if m == map[] then 0
    else
      var k :| k in m;
      m[k] + Sum(m - {k})
  }

  lemma {:induction false} SumRemove(m: map<string, nat>, k: string)
    requires k in m
    ensures Sum(m) == m[k] + Sum(m - {k})
    decreases |m|
  {
    var j :| j in m && Sum(m) == m[j] + Sum(m - {j});
    if j != k {
      SumRemove(m - {j}, k);
      SumRemove(m - {k}, j);
      assert m - {j} - {k} == m - {k} - {j};
    }
  }

  lemma SumIncrement(m: map<string, nat>, k: string)
    ensures Sum(m[k := CountOf(m, k) + 1]) == Sum(m) + 1
  {
    var m' := m[k := CountOf(m, k) + 1];
    SumRemove(m', k);
    if k in m {
      SumRemove(m, k);
      assert m' - {k} == m - {k};
    } else {
      assert m' - {k} == m;
    }
  }

  /** The stored counts never add up to more than the fallbacks tallied plus those counted and not yet tallied;
      and failures never outnumber fallbacks. */
  lemma {:induction false} FallbackTotals(ops: seq<Op>)
    ensures var s := Exec(ops);
            && s.stats.fallbackToWS == Occurrences(ops, IsTally)
            && s.stats.webTransportFailed <= s.stats.fallbackToWS
            && Sum(s.counts) <= Occurrences(ops, IsCount)
            && (Occurrences(ops, IsCount) == Occurrences(ops, IsTally) ==> Sum(s.counts) <= s.stats.fallbackToWS)
    decreases |ops|
  {
    if ops != [] {
      var before, op := ops[..|ops| - 1], ops[|ops| - 1];
      FallbackTotals(before);
      var s := Exec(before);
      match op
      case CountFallback(id) => SumIncrement(s.counts, id);
      case Reset(id) =>
        if id in s.counts { SumRemove(s.counts, id); } else { assert s.counts - {id} == s.counts; }
      case Cleanup =>
      case TallyFallback(_) =>
      case RecordConnection(_) =>
    }
  }

  // ---------------------------------------------------------------- selection

  datatype Hello = Hello(clientID: string, supportsWT: bool)

  function Select(counts: map<string, nat>, mode: string, maxRetries: int, hasWt: bool, hello: Hello): string
  {
    if mode == WEB_SOCKET then WEB_SOCKET
    else if mode == WEB_TRANSPORT then (if !hello.supportsWT then WEB_SOCKET else WEB_TRANSPORT)
    else if mode == AUTO then
      if !hello.supportsWT then WEB_SOCKET
      else if CountOf(counts, hello.clientID) >= maxRetries then WEB_SOCKET
      else if hasWt then WEB_TRANSPORT
      else WEB_SOCKET
    else WEB_SOCKET
  }

  lemma ModesDiffer()
    ensures WEB_SOCKET != WEB_TRANSPORT && AUTO != WEB_SOCKET && AUTO != WEB_TRANSPORT
  {
    ProtocolsDiffer();
    assert AUTO[0] != WEB_SOCKET[0] && AUTO[0] != WEB_TRANSPORT[0];
  }

  /** In automatic mode, after any history, WebTransport is chosen exactly when the client supports it, a server for
      it exists, and the client's fallbacks since it was last forgotten are fewer than the retry limit. */
  lemma AutoSelection(ops: seq<Op>, maxRetries: int, hasWt: bool, hello: Hello)
    ensures Select(Exec(ops).counts, AUTO, maxRetries, hasWt, hello) == WEB_TRANSPORT <==>
            hello.supportsWT && hasWt && |Remembered(ops, hello.clientID)| < maxRetries
    ensures Select(Exec(ops).counts, AUTO, maxRetries, hasWt, hello) in {WEB_SOCKET, WEB_TRANSPORT}
  {
    CountIsHistory(ops, hello.clientID);
    ModesDiffer();
  }

  class FallbackManager {
    const mode: string
    const maxRetries: int
    const hasWt: bool
    var counts: map<string, nat>
    var stats: Stats

    ghost function Snapshot(): State
      reads this
    {
      State.State(counts, stats)
    }

    constructor (mode: string, maxRetries: int, hasWt: bool)
      ensures Snapshot() == INIT
      ensures this.mode == mode && this.maxRetries == maxRetries && this.hasWt == hasWt
    {
      this.mode, this.maxRetries, this.hasWt := mode, maxRetries, hasWt;
      counts, stats := map[], Stats(0, 0, 0, 0, 0, 0);
    }

    method SelectProtocol(hello: Hello) returns (proto: string)
      ensures proto == Select(counts, mode, maxRetries, hasWt, hello)
      ensures proto == "websocket" || proto == "webtransport"
      ensures mode == "websocket" ==> proto == "websocket"
      ensures mode == "webtransport" ==> (proto == "webtransport" <==> hello.supportsWT)
      ensures mode == "auto" ==>
                (proto == "webtransport" <==>
                   hello.supportsWT && hasWt
                   && (if hello.clientID in counts then counts[hello.clientID] else 0) < maxRetries)
      ensures mode != "webtransport" && mode != "auto" ==> proto == "websocket"
    {
      ModesDiffer();
      if mode == WEB_SOCKET {
        proto := WEB_SOCKET;
      } else if mode == WEB_TRANSPORT {
        if !hello.supportsWT { return WEB_SOCKET; }
        proto := WEB_TRANSPORT;
      } else if mode == AUTO {
        proto := SelectAutoProtocol(hello);
      } else {
        proto := WEB_SOCKET;
      }
    }

    method SelectAutoProtocol(hello: Hello) returns (proto: string)
      ensures proto == Select(counts, AUTO, maxRetries, hasWt, hello)
    {
      ModesDiffer();
      if !hello.supportsWT { return WEB_SOCKET; }
      var fallbackCount := CountOf(counts, hello.clientID);
      if fallbackCount >= maxRetries { return WEB_SOCKET; }
      if hasWt { return WEB_TRANSPORT; }
      proto := WEB_SOCKET;
    }

    method RecordFallback(id: string, from: string)
      modifies this
      ensures Snapshot() == Apply(Apply(old(Snapshot()), CountFallback(id)), TallyFallback(from))
      ensures counts == old(counts)[id := (if id in old(counts) then old(counts)[id] else 0) + 1]
      ensures stats == old(stats).(fallbackToWS := old(stats).fallbackToWS + 1,
                                   webTransportFailed := stats.webTransportFailed)
      ensures stats.webTransportFailed == old(stats).webTransportFailed + if from == "webtransport" then 1 else 0
    {
      counts := counts[id := CountOf(counts, id) + 1];
      stats := stats.(fallbackToWS := stats.fallbackToWS + 1);
      if from == WEB_TRANSPORT {
        stats := stats.(webTransportFailed := stats.webTransportFailed + 1);
      }
    }

    method RecordConnection(proto: string)
      modifies this
      ensures Snapshot() == Apply(old(Snapshot()), Op.RecordConnection(proto))
      ensures counts == old(counts) && stats.totalConnections == old(stats).totalConnections + 1
      ensures stats.webSocketOnly == old(stats).webSocketOnly + if proto == "websocket" then 1 else 0
      ensures stats.webTransportSuccess == old(stats).webTransportSuccess + if proto == "webtransport" then 1 else 0
    {
      ProtocolsDiffer();
      stats := stats.(totalConnections := stats.totalConnections + 1);
      if proto == WEB_SOCKET {
        stats := stats.(webSocketOnly := stats.webSocketOnly + 1);
      } else if proto == WEB_TRANSPORT {
        stats := stats.(webTransportSuccess := stats.webTransportSuccess + 1);
      }
    }

    method ResetFallbackCount(id: string)
      modifies this
      ensures Snapshot() == Apply(old(Snapshot()), Reset(id))
      ensures counts == old(counts) - {id} && stats == old(stats)
    {
      counts := counts - {id};
    }

    method CleanupStaleClients()
      modifies this
      ensures Snapshot() == Apply(old(Snapshot()), Cleanup)
      ensures counts == (if |old(counts)| > 10000 then map[] else old(counts)) && stats == old(stats)
    {
      if |counts| > MAX_TRACKED { counts := map[]; }
    }
  }
}
