/** The WebSocket server as a transition system: ws/server.go and ws/connection.go.

    Every request is a handler with a program counter.  One step is one atomic action - a load or add on the
    counter, one critical section, one channel operation, one foreign call returning - so a
    sequence of steps is any interleaving of any number of handlers, their two pumps, and the
    application, which may send on, close and bind any connection at any time.
    Connection IDs are taken to be unique, so a handler's number is also its connection's ID.
 */
module WsServer {
  import opened NestedMap
  import opened Tally

  type Id = nat
  type Msg = string

  const CHANNEL_SIZE := 256

  datatype Event = ConnectOk | ConnectFailed | Message(m: Msg) | Disconnect

  datatype Pc =
    | Rejected            // over the limit
    | Checked             // under the limit; upgrading
    | UpgradeFailed
    | Created             // upgraded, connection object made
    | Counted             // counter incremented; authenticating
    | AuthFailed          // before the connection is closed
    | AuthClosed          // before the counter is decremented
    | AuthGone
    | Authenticated(u: string)  // a user was named; not yet set on the connection
    | Binding(u: string)  // set on the connection; not yet in the user index
    | Ready               // before registerConnection
    | Registered          // in `connections`; OnConnect running
    | ConnectRefused      // OnConnect failed; before the connection is closed
    | Pumping             // both pumps started
    | Leaving             // deferred unregister, before the delete from `connections`
    | Deleted             // before the user ID is read
    | Unbinding(u: string)  // user ID read; not yet removed from the user index
    | Uncounting          // before the counter is decremented
    | Gone

  /** The write pump. */
  datatype WPc = WOff | WSelect | WHolding(m: Msg) | WClosing | WDone

  /** The read pump. */
  datatype RPc = ROff | RReading | RInMessage | RInDisconnect | RClosing | RDone

  /** A handler with its connection, and the history the laws speak about:
      what `Send` accepted, what was written, what a failing write dropped, the callbacks made, and the users under
      which the connection was indexed before and after its unregister was done with the user index. */
  datatype Handler = Handler(
    pc: Pc, w: WPc, r: RPc,
    userID: string, done: bool, send: seq<Msg>,
    accepted: seq<Msg>, written: seq<Msg>, dropped: seq<Msg>,
    events: seq<Event>,
    boundBefore: set<string>, boundAfter: set<string>, unbound: string)

  /** `binds` holds the `BindUser` calls made by the application that have set the user ID;
      each may update the index later. */
  datatype State = State(
    handlers: map<Id, Handler>, connCount: int,
    connections: set<Id>, userConns: Nested<string, Id, Id>,
    binds: set<(Id, string)>, stopped: bool)

  datatype Config = Config(maxConnections: int, auth: bool)

  datatype Auth = Skipped | Anonymous | User(u: string) | Failed

  datatype Step =
    | Arrive(h: Id)
    | Upgrade(h: Id, ok: bool)
    | Count(h: Id)
    | Authenticate(h: Id, res: Auth)
    | AuthClose(h: Id)
    | AuthUncount(h: Id)
    | SetUser(h: Id)
    | IndexUser(h: Id)
    | Register(h: Id)
    | ConnectReturns(h: Id, ok: bool)
    | CloseRefused(h: Id)
    | WTake(h: Id)
    | WWrite(h: Id, ok: bool)
    | WPing(h: Id, ok: bool)
    | WStop(h: Id)
    | WClose(h: Id)
    | RRead(h: Id, m: Msg)
    | RReturn(h: Id)
    | RFail(h: Id)
    | RDisconnected(h: Id)
    | RClose(h: Id)
    | Join(h: Id)
    | Delete(h: Id)
    | ReadUser(h: Id)
    | Unindex(h: Id)
    | Uncount(h: Id)
    // the application, at any time
    | Send(h: Id, m: Msg)
    | Close(h: Id)
    | SetUserID(h: Id, u: string)
    | BindStart(h: Id, u: string)
    | BindFinish(h: Id, u: string)
    | Stop(h: Id)  // the server is told to stop; `h` is any request seen so far

  const INIT := State(map[], 0, {}, map[], {}, false)

  function NewHandler(pc: Pc): Handler
  {
    Handler(pc, WOff, ROff, "", false, [], [], [], [], [], {}, {}, "")
  }

  predicate HasConnection(pc: Pc)
  {
    !pc.Rejected? && !pc.Checked? && !pc.UpgradeFailed?
  }

  predicate OverLimit(cfg: Config, s: State)
  {
    cfg.maxConnections > 0 && s.connCount >= cfg.maxConnections
  }

  /** When a handler step may happen, given the handler. */
  predicate LocallyEnabled(cfg: Config, hd: Handler, stopped: bool, st: Step)
  {
    match st
    case Arrive(_) => false
    case Upgrade(_, _) => hd.pc.Checked?
    case Count(_) => hd.pc.Created?
    case Authenticate(_, res) => hd.pc.Counted? && (cfg.auth <==> !res.Skipped?) && (res.User? ==> res.u != "")
    case AuthClose(_) => hd.pc.AuthFailed?
    case AuthUncount(_) => hd.pc.AuthClosed?
    case SetUser(_) => hd.pc.Authenticated?
    case IndexUser(_) => hd.pc.Binding?
    case Register(_) => hd.pc.Ready?
    case ConnectReturns(_, _) => hd.pc.Registered?
    case CloseRefused(_) => hd.pc.ConnectRefused?
    case WTake(_) => hd.w.WSelect? && hd.send != []
    case WWrite(_, _) => hd.w.WHolding?
    case WPing(_, _) => hd.w.WSelect?
    case WStop(_) => hd.w.WSelect? && (stopped || hd.done)
    case WClose(_) => hd.w.WClosing?
    case RRead(_, _) => hd.r.RReading?
    case RReturn(_) => hd.r.RInMessage?
    case RFail(_) => hd.r.RReading?
    case RDisconnected(_) => hd.r.RInDisconnect?
    case RClose(_) => hd.r.RClosing?
    case Join(_) => hd.pc.Pumping? && hd.w.WDone? && hd.r.RDone?
    case Delete(_) => hd.pc.Leaving?
    case ReadUser(_) => hd.pc.Deleted?
    case Unindex(_) => hd.pc.Unbinding?
    case Uncount(_) => hd.pc.Uncounting?
    case Send(_, _) => HasConnection(hd.pc) && |hd.send| < CHANNEL_SIZE
    case Close(_) => HasConnection(hd.pc)
    case SetUserID(_, _) => HasConnection(hd.pc)
    case BindStart(_, _) => HasConnection(hd.pc)
    case BindFinish(_, _) => HasConnection(hd.pc)
    case Stop(_) => true
  }

  predicate Enabled(cfg: Config, s: State, st: Step)
  {
    if st.Arrive? then st.h !in s.handlers
    else
      && st.h in s.handlers
      && LocallyEnabled(cfg, s.handlers[st.h], s.stopped, st)
      && (st.BindFinish? ==> (st.h, st.u) in s.binds)
  }

  predicate Cleaned(pc: Pc) { pc.Uncounting? || pc.Gone? }

  function Indexed(hd: Handler, u: string): Handler
  {
    if Cleaned(hd.pc) then hd.(boundAfter := hd.boundAfter + {u}) else hd.(boundBefore := hd.boundBefore + {u})
  }

  /** The handler after one of its own or the application's steps on it. */
  function NextHandler(hd: Handler, st: Step): Handler
  {
    match st
    case Arrive(_) => hd
    case Upgrade(_, ok) => hd.(pc := if ok then Created else UpgradeFailed)
    case Count(_) => hd.(pc := Counted)
    case Authenticate(_, res) =>
      hd.(pc := match res case Failed => AuthFailed case User(u) => Authenticated(u) case _ => Ready)
    case AuthClose(_) => hd.(pc := AuthClosed, done := true)
    case AuthUncount(_) => hd.(pc := AuthGone)
    case SetUser(_) => if hd.pc.Authenticated? then hd.(pc := Binding(hd.pc.u), userID := hd.pc.u) else hd
    case IndexUser(_) => if hd.pc.Binding? then Indexed(hd, hd.pc.u).(pc := Ready) else hd
    case Register(_) => hd.(pc := Registered)
    case ConnectReturns(_, ok) =>
      if ok then hd.(pc := Pumping, w := WSelect, r := RReading, events := hd.events + [ConnectOk])
      else hd.(pc := ConnectRefused, events := hd.events + [ConnectFailed])
    case CloseRefused(_) => hd.(pc := Leaving, done := true)
    case WTake(_) => if hd.send != [] then hd.(w := WHolding(hd.send[0]), send := hd.send[1..]) else hd
    case WWrite(_, ok) =>
      if !hd.w.WHolding? then hd
      else if ok then hd.(w := WSelect, written := hd.written + [hd.w.m])
      else hd.(w := WClosing, dropped := hd.dropped + [hd.w.m])
    case WPing(_, ok) => if ok then hd else hd.(w := WClosing)
    case WStop(_) => hd.(w := WClosing)
    case WClose(_) => hd.(w := WDone, done := true)
    case RRead(_, m) => hd.(r := RInMessage, events := hd.events + [Message(m)])
    case RReturn(_) => hd.(r := RReading)
    case RFail(_) => hd.(r := RInDisconnect, events := hd.events + [Disconnect])
    case RDisconnected(_) => hd.(r := RClosing)
    case RClose(_) => hd.(r := RDone, done := true)
    case Join(_) => hd.(pc := Leaving)
    case Delete(_) => hd.(pc := Deleted)
    case ReadUser(_) => hd.(pc := if hd.userID != "" then Unbinding(hd.userID) else Uncounting)
    case Unindex(_) => if hd.pc.Unbinding? then hd.(pc := Uncounting, unbound := hd.pc.u) else hd
    case Uncount(_) => hd.(pc := Gone)
    case Send(_, m) => hd.(send := hd.send + [m], accepted := hd.accepted + [m])
    case Close(_) => hd.(done := true)
    case SetUserID(_, u) => hd.(userID := u)
    case BindStart(_, u) => hd.(userID := u)
    case BindFinish(_, u) => Indexed(hd, u)
    case Stop(_) => hd
  }

  function CountDelta(st: Step): int
  {
    if st.Count? then 1 else if st.Uncount? || st.AuthUncount? then -1 else 0
  }

  function NextConnections(s: State, st: Step): set<Id>
  {
    if st.Register? then s.connections + {st.h} else if st.Delete? then s.connections - {st.h} else s.connections
  }

  datatype IndexChange = Same | Added(u: string) | Removed(u: string)

  /** What a step does to this connection's entries in the user index. */
  function ChangeOf(hd: Handler, st: Step): IndexChange
  {
    if st.IndexUser? && hd.pc.Binding? then Added(hd.pc.u)
    else if st.BindFinish? then Added(st.u)
    else if st.Unindex? && hd.pc.Unbinding? then Removed(hd.pc.u)
    else Same
  }

  function NextIndex(index: Nested<string, Id, Id>, h: Id, change: IndexChange): Nested<string, Id, Id>
  {
    match change
    case Same => index
    case Added(u) => Put(index, u, h, h)
    case Removed(u) => Drop(index, u, h)
  }

  function Apply(cfg: Config, s: State, st: Step): State
    requires Enabled(cfg, s, st)
  {
    if st.Arrive? then
      s.(handlers := s.handlers[st.h := NewHandler(if OverLimit(cfg, s) then Rejected else Checked)])
    else
      var hd := s.handlers[st.h];
      State(s.handlers[st.h := NextHandler(hd, st)],
            s.connCount + CountDelta(st),
            NextConnections(s, st),
            NextIndex(s.userConns, st.h, ChangeOf(hd, st)),
            if st.BindStart? then s.binds + {(st.h, st.u)} else s.binds,
            s.stopped || st.Stop?)
  }

  // ---------------------------------------------------------------- runs

  ghost predicate IsRun(cfg: Config, states: seq<State>, steps: seq<Step>)
  {
    && |states| == |steps| + 1 && states[0] == INIT
    && forall i :: 0 <= i < |steps| ==>
         Enabled(cfg, states[i], steps[i]) && states[i + 1] == Apply(cfg, states[i], steps[i])
  }

  lemma ExtendRun(cfg: Config, states: seq<State>, steps: seq<Step>, st: Step)
    requires IsRun(cfg, states, steps) && Enabled(cfg, states[|steps|], st)
    ensures IsRun(cfg, states + [Apply(cfg, states[|steps|], st)], steps + [st])
  {
  }

  // ---------------------------------------------------------------- one handler

  /** What the pump holds in its hand. */
  function InHand(hd: Handler): seq<Msg>
  {
    if hd.w.WHolding? then [hd.w.m] else []
  }

  /** Connect-ok followed by messages only. */
  ghost predicate MidTrace(events: seq<Event>)
  {
    events != [] && events[0].ConnectOk? && forall i :: 1 <= i < |events| ==> events[i].Message?
  }

  /** A callback history the handler interface allows. */
  ghost predicate LegalTrace(events: seq<Event>)
  {
    || events == []
    || events == [ConnectFailed]
    || MidTrace(events)
    || DisconnectTrace(events)
  }

  predicate BeforeConnect(pc: Pc)
  {
    || pc.Rejected? || pc.Checked? || pc.UpgradeFailed? || pc.Created? || pc.Counted? || pc.AuthFailed?
    || pc.AuthClosed? || pc.AuthGone? || pc.Authenticated? || pc.Binding? || pc.Ready? || pc.Registered?
  }

  predicate AfterPumps(pc: Pc)
  {
    pc.Leaving? || pc.Deleted? || pc.Unbinding? || pc.Uncounting? || pc.Gone?
  }

  predicate Disconnecting(r: RPc) { r.RInDisconnect? || r.RClosing? || r.RDone? }

  /** Where the pumps are, given the handler's program counter. */
  predicate PhasesMatch(hd: Handler)
  {
    if BeforeConnect(hd.pc) || hd.pc.ConnectRefused? then hd.r.ROff? && hd.w.WOff?
    else if hd.pc.Pumping? then !hd.r.ROff? && !hd.w.WOff?
    else (hd.r.ROff? && hd.w.WOff?) || (hd.w.WDone? && hd.r.RDone?)
  }

  ghost predicate DisconnectTrace(events: seq<Event>)
  {
    |events| >= 2 && events[|events| - 1].Disconnect? && MidTrace(events[..|events| - 1])
  }

  /** Which callbacks have been made, given where the handler and its read pump are. */
  ghost predicate TraceMatches(hd: Handler)
  {
    && PhasesMatch(hd)
    && (BeforeConnect(hd.pc) ==> hd.events == [])
    && (!BeforeConnect(hd.pc) && hd.r.ROff? ==> hd.events == [ConnectFailed])
    && (hd.r.RReading? || hd.r.RInMessage? ==> MidTrace(hd.events))
    && (Disconnecting(hd.r) ==> DisconnectTrace(hd.events))
  }

  ghost predicate Conserves(hd: Handler)
  {
    && hd.accepted == hd.written + (hd.dropped + InHand(hd)) + hd.send
    && |hd.send| <= CHANNEL_SIZE
    && |hd.dropped| <= 1
    && (hd.dropped != [] ==> hd.w.WClosing? || hd.w.WDone?)
  }

  ghost predicate ClosedInTime(hd: Handler)
  {
    && (hd.w.WDone? || hd.r.RDone? ==> hd.done)
    && (AfterPumps(hd.pc) || hd.pc.AuthClosed? || hd.pc.AuthGone? ==> hd.done)
  }

  ghost predicate BindingPhases(hd: Handler)
  {
    && (!Cleaned(hd.pc) ==> hd.boundAfter == {} && hd.unbound == "")
    && (hd.pc.Unbinding? ==> hd.pc.u != "")
  }

  ghost predicate LocalInv(hd: Handler)
  {
    TraceMatches(hd) && Conserves(hd) && ClosedInTime(hd) && BindingPhases(hd)
  }

  // Steps come in three groups, and each group leaves part of the handler alone.

  predicate IsApp(st: Step)
  {
    st.Send? || st.Close? || st.SetUserID? || st.BindStart? || st.BindFinish? || st.Stop?
  }

  predicate IsPump(st: Step)
  {
    || st.WTake? || st.WWrite? || st.WPing? || st.WStop? || st.WClose?
    || st.RRead? || st.RReturn? || st.RFail? || st.RDisconnected? || st.RClose?
  }

  predicate IsControl(st: Step) { !IsApp(st) && !IsPump(st) }

  lemma AppFrame(hd: Handler, st: Step)
    requires IsApp(st)
    ensures var next := NextHandler(hd, st);
            && next.pc == hd.pc && next.w == hd.w && next.r == hd.r && next.events == hd.events
            && next.unbound == hd.unbound && (hd.done ==> next.done)
  {
  }

  lemma PumpFrame(hd: Handler, st: Step)
    requires IsPump(st)
    ensures var next := NextHandler(hd, st);
            && next.pc == hd.pc && next.userID == hd.userID && (hd.done ==> next.done)
            && next.boundBefore == hd.boundBefore && next.boundAfter == hd.boundAfter && next.unbound == hd.unbound
  {
  }

  lemma ControlFrame(hd: Handler, st: Step)
    requires IsControl(st)
    ensures var next := NextHandler(hd, st);
            && (!st.ConnectReturns? ==> next.w == hd.w && next.r == hd.r && next.events == hd.events)
            && (hd.done ==> next.done)
  {
  }

  lemma PumpKeepsPhases(cfg: Config, hd: Handler, stopped: bool, st: Step)
    requires IsPump(st) && PhasesMatch(hd) && LocallyEnabled(cfg, hd, stopped, st)
    ensures hd.pc.Pumping? && !NextHandler(hd, st).w.WOff? && !NextHandler(hd, st).r.ROff?
  {
  }

  lemma ControlKeepsPhases(cfg: Config, hd: Handler, stopped: bool, st: Step)
    requires IsControl(st) && PhasesMatch(hd) && LocallyEnabled(cfg, hd, stopped, st)
    ensures PhasesMatch(NextHandler(hd, st))
  {
  }

  lemma StepKeepsPhasesOfPumps(cfg: Config, hd: Handler, stopped: bool, st: Step)
    requires PhasesMatch(hd) && LocallyEnabled(cfg, hd, stopped, st)
    ensures PhasesMatch(NextHandler(hd, st))
  {
    if IsApp(st) {
      AppFrame(hd, st);
    } else if IsPump(st) {
      PumpFrame(hd, st);
      PumpKeepsPhases(cfg, hd, stopped, st);
    } else {
      ControlKeepsPhases(cfg, hd, stopped, st);
    }
  }

  lemma MessageExtendsTrace(events: seq<Event>, m: Msg)
    requires MidTrace(events)
    ensures MidTrace(events + [Message(m)])
  {
  }

  lemma DisconnectEndsTrace(events: seq<Event>)
    requires MidTrace(events)
    ensures DisconnectTrace(events + [Disconnect])
  {
    assert (events + [Disconnect])[..|events|] == events;
  }

  predicate MakesNoCallback(st: Step)
  {
    !st.ConnectReturns? && !st.RRead? && !st.RFail?
  }

  lemma PumpEventsKept(cfg: Config, hd: Handler, stopped: bool, st: Step)
    requires IsPump(st) && MakesNoCallback(st) && LocallyEnabled(cfg, hd, stopped, st)
    ensures var next := NextHandler(hd, st);
            && next.events == hd.events
            && next.r.ROff? == hd.r.ROff?
            && (next.r.RReading? || next.r.RInMessage?) == (hd.r.RReading? || hd.r.RInMessage?)
            && Disconnecting(next.r) == Disconnecting(hd.r)
  {
  }

  lemma ControlEventsKept(cfg: Config, hd: Handler, stopped: bool, st: Step)
    requires IsControl(st) && MakesNoCallback(st) && LocallyEnabled(cfg, hd, stopped, st)
    ensures BeforeConnect(NextHandler(hd, st).pc) == BeforeConnect(hd.pc)
  {
  }

  lemma EventsKept(cfg: Config, hd: Handler, stopped: bool, st: Step)
    requires MakesNoCallback(st) && LocallyEnabled(cfg, hd, stopped, st)
    ensures var next := NextHandler(hd, st);
            && next.events == hd.events
            && BeforeConnect(next.pc) == BeforeConnect(hd.pc)
            && next.r.ROff? == hd.r.ROff?
            && (next.r.RReading? || next.r.RInMessage?) == (hd.r.RReading? || hd.r.RInMessage?)
            && Disconnecting(next.r) == Disconnecting(hd.r)
  {
    if IsApp(st) {
      AppFrame(hd, st);
    } else if IsPump(st) {
      PumpFrame(hd, st);
      PumpEventsKept(cfg, hd, stopped, st);
    } else {
      ControlFrame(hd, st);
      ControlEventsKept(cfg, hd, stopped, st);
    }
  }

  lemma ConnectTrace(hd: Handler, st: Step)
    requires TraceMatches(hd) && hd.pc.Registered? && st.ConnectReturns?
    ensures TraceMatches(NextHandler(hd, st))
  {
    assert NextHandler(hd, st).events == [if st.ok then ConnectOk else ConnectFailed];
  }

  lemma ReadTrace(hd: Handler, st: Step)
    requires TraceMatches(hd) && hd.r.RReading? && st.RRead?
    ensures TraceMatches(NextHandler(hd, st))
  {
    assert hd.pc.Pumping?;
    MessageExtendsTrace(hd.events, st.m);
  }

  lemma FailTrace(hd: Handler, st: Step)
    requires TraceMatches(hd) && hd.r.RReading? && st.RFail?
    ensures TraceMatches(NextHandler(hd, st))
  {
    assert hd.pc.Pumping?;
    DisconnectEndsTrace(hd.events);
  }

  lemma StepKeepsTrace(cfg: Config, hd: Handler, stopped: bool, st: Step)
    requires TraceMatches(hd) && LocallyEnabled(cfg, hd, stopped, st)
    ensures TraceMatches(NextHandler(hd, st))
  {
    StepKeepsPhasesOfPumps(cfg, hd, stopped, st);
    if MakesNoCallback(st) {
      EventsKept(cfg, hd, stopped, st);
    } else if st.ConnectReturns? {
      ConnectTrace(hd, st);
    } else if st.RRead? {
      ReadTrace(hd, st);
    } else {
      FailTrace(hd, st);
    }
  }

  /** Steps that touch none of the message fields. */
  predicate MovesNoMessage(st: Step)
  {
    !st.WTake? && !st.WWrite? && !st.Send? && !st.WPing? && !st.WStop? && !st.WClose? && !st.ConnectReturns?
  }

  lemma MessageFieldsKept(hd: Handler, st: Step)
    requires MovesNoMessage(st)
    ensures var next := NextHandler(hd, st);
            && next.w == hd.w && next.send == hd.send && next.accepted == hd.accepted
            && next.written == hd.written && next.dropped == hd.dropped
  {
  }

  lemma TakeConserves(hd: Handler)
    requires Conserves(hd) && hd.w.WSelect? && hd.send != []
    ensures Conserves(hd.(w := WHolding(hd.send[0]), send := hd.send[1..]))
  {
    assert hd.send == [hd.send[0]] + hd.send[1..];
  }

  lemma WriteConserves(hd: Handler)
    requires Conserves(hd) && hd.w.WHolding?
    ensures Conserves(hd.(w := WSelect, written := hd.written + [hd.w.m]))
  {
    assert hd.dropped == [];
  }

  lemma DropConserves(hd: Handler)
    requires Conserves(hd) && hd.w.WHolding?
    ensures Conserves(hd.(w := WClosing, dropped := hd.dropped + [hd.w.m]))
  {
    assert hd.dropped == [];
  }

  lemma SendConserves(hd: Handler, m: Msg)
    requires Conserves(hd) && |hd.send| < CHANNEL_SIZE
    ensures Conserves(hd.(send := hd.send + [m], accepted := hd.accepted + [m]))
  {
    assert hd.accepted + [m] == hd.written + (hd.dropped + InHand(hd)) + (hd.send + [m]);
  }

  lemma StepConserves(cfg: Config, hd: Handler, stopped: bool, st: Step)
    requires PhasesMatch(hd) && Conserves(hd) && LocallyEnabled(cfg, hd, stopped, st)
    ensures Conserves(NextHandler(hd, st))
  {
    if MovesNoMessage(st) {
      MessageFieldsKept(hd, st);
    } else if st.WTake? {
      TakeConserves(hd);
    } else if st.WWrite? {
      WriteConserves(hd);
      DropConserves(hd);
    } else if st.Send? {
      SendConserves(hd, st.m);
    }
  }

  lemma PumpCloses(cfg: Config, hd: Handler, stopped: bool, st: Step)
    requires IsPump(st) && ClosedInTime(hd) && LocallyEnabled(cfg, hd, stopped, st)
    ensures NextHandler(hd, st).w.WDone? || NextHandler(hd, st).r.RDone? ==> NextHandler(hd, st).done
  {
  }

  lemma ControlCloses(cfg: Config, hd: Handler, stopped: bool, st: Step)
    requires IsControl(st) && ClosedInTime(hd) && LocallyEnabled(cfg, hd, stopped, st)
    ensures ClosedInTime(NextHandler(hd, st))
  {
  }

  lemma StepCloses(cfg: Config, hd: Handler, stopped: bool, st: Step)
    requires ClosedInTime(hd) && LocallyEnabled(cfg, hd, stopped, st)
    ensures ClosedInTime(NextHandler(hd, st))
  {
    if IsApp(st) {
      AppFrame(hd, st);
    } else if IsPump(st) {
      PumpFrame(hd, st);
      PumpCloses(cfg, hd, stopped, st);
    } else {
      ControlCloses(cfg, hd, stopped, st);
    }
  }

  lemma OtherKeepsPhases(cfg: Config, hd: Handler, stopped: bool, st: Step)
    requires !IsPump(st) && BindingPhases(hd) && LocallyEnabled(cfg, hd, stopped, st)
    ensures BindingPhases(NextHandler(hd, st))
  {
  }

  lemma StepKeepsPhases(cfg: Config, hd: Handler, stopped: bool, st: Step)
    requires BindingPhases(hd) && LocallyEnabled(cfg, hd, stopped, st)
    ensures BindingPhases(NextHandler(hd, st))
  {
    if IsPump(st) { PumpFrame(hd, st); } else { OtherKeepsPhases(cfg, hd, stopped, st); }
  }

  lemma StepKeepsLocal(cfg: Config, hd: Handler, stopped: bool, st: Step)
    requires LocalInv(hd) && LocallyEnabled(cfg, hd, stopped, st)
    ensures LocalInv(NextHandler(hd, st))
  {
    StepKeepsTrace(cfg, hd, stopped, st);
    StepConserves(cfg, hd, stopped, st);
    StepCloses(cfg, hd, stopped, st);
    StepKeepsPhases(cfg, hd, stopped, st);
  }

  // ---------------------------------------------------------------- the shared state

  /** Between its increment and its decrement. */
  predicate InCount(hd: Handler)
  {
    HasConnection(hd.pc) && !hd.pc.Created? && !hd.pc.AuthGone? && !hd.pc.Gone?
  }

  /** Between its limit check and its increment. */
  predicate InWindow(hd: Handler) { hd.pc.Checked? || hd.pc.Created? }

  predicate InTable(hd: Handler)
  {
    hd.pc.Registered? || hd.pc.ConnectRefused? || hd.pc.Pumping? || hd.pc.Leaving?
  }

  /** Where the user index should mention this connection, from its history alone. */
  predicate ShouldIndex(hd: Handler, u: string)
  {
    || (u in hd.boundBefore && !(Cleaned(hd.pc) && u == hd.unbound != ""))
    || u in hd.boundAfter
  }

  ghost predicate IndexExact(s: State)
  {
    forall u, h :: Has(s.userConns, u, h) <==> h in s.handlers && ShouldIndex(s.handlers[h], u)
  }

  ghost predicate AllLocal(s: State)
  {
    forall h :: h in s.handlers ==> LocalInv(s.handlers[h])
  }

  ghost predicate CountExact(s: State)
  {
    s.connCount == Tally.Count(s.handlers, InCount)
  }

  ghost predicate TableExact(s: State)
  {
    s.connections == Where(s.handlers, InTable)
  }

  ghost predicate Inv(s: State)
  {
    AllLocal(s) && CountExact(s) && TableExact(s) && IndexExact(s) && NoEmpty(s.userConns)
  }

  lemma InitInv()
    ensures Inv(INIT)
  {
    CountEmpty<Id, Handler>(InCount);
    assert Where(INIT.handlers, InTable) == {};
  }

  lemma LocalCount(cfg: Config, hd: Handler, stopped: bool, st: Step)
    requires LocallyEnabled(cfg, hd, stopped, st)
    ensures AsOne(InCount(NextHandler(hd, st))) == AsOne(InCount(hd)) + CountDelta(st)
  {
  }

  lemma StepKeepsCount(cfg: Config, s: State, st: Step)
    requires CountExact(s) && Enabled(cfg, s, st)
    ensures CountExact(Apply(cfg, s, st))
  {
    if st.Arrive? {
      CountUpdate(s.handlers, st.h, NewHandler(if OverLimit(cfg, s) then Rejected else Checked), InCount);
    } else {
      var hd := s.handlers[st.h];
      LocalCount(cfg, hd, s.stopped, st);
      CountUpdate(s.handlers, st.h, NextHandler(hd, st), InCount);
    }
  }

  lemma LocalTable(cfg: Config, hd: Handler, stopped: bool, st: Step)
    requires LocallyEnabled(cfg, hd, stopped, st)
    ensures InTable(NextHandler(hd, st)) == (st.Register? || (InTable(hd) && !st.Delete?))
  {
  }

  lemma TableAfter(handlers: map<Id, Handler>, table: set<Id>, h: Id, next: Handler, added: bool, removed: bool)
    requires table == Where(handlers, InTable)
    requires InTable(next) == (added || (h in handlers && InTable(handlers[h]) && !removed))
    requires !(added && removed)
    ensures (if added then table + {h} else if removed then table - {h} else table)
         == Where(handlers[h := next], InTable)
  {
    CountUpdate(handlers, h, next, InTable);
  }

  lemma StepKeepsTable(cfg: Config, s: State, st: Step)
    requires TableExact(s) && Enabled(cfg, s, st)
    ensures TableExact(Apply(cfg, s, st))
  {
    if st.Arrive? {
      TableAfter(s.handlers, s.connections, st.h, Apply(cfg, s, st).handlers[st.h], false, false);
    } else {
      LocalTable(cfg, s.handlers[st.h], s.stopped, st);
      TableAfter(s.handlers, s.connections, st.h, Apply(cfg, s, st).handlers[st.h], st.Register?, st.Delete?);
    }
  }

  predicate After(c: IndexChange, before: bool, u: string)
  {
    match c case Same => before case Added(v) => before || u == v case Removed(v) => before && u != v
  }

  lemma OtherIndex(cfg: Config, hd: Handler, stopped: bool, st: Step, u: string)
    requires !IsPump(st) && BindingPhases(hd) && LocallyEnabled(cfg, hd, stopped, st)
    ensures ShouldIndex(NextHandler(hd, st), u) == After(ChangeOf(hd, st), ShouldIndex(hd, u), u)
  {
  }

  lemma LocalIndex(cfg: Config, hd: Handler, stopped: bool, st: Step, u: string)
    requires BindingPhases(hd) && LocallyEnabled(cfg, hd, stopped, st)
    ensures ShouldIndex(NextHandler(hd, st), u) == After(ChangeOf(hd, st), ShouldIndex(hd, u), u)
  {
    if IsPump(st) { PumpFrame(hd, st); } else { OtherIndex(cfg, hd, stopped, st, u); }
  }

  lemma IndexAfter(index: Nested<string, Id, Id>, h: Id, c: IndexChange)
    ensures forall u, g :: Has(NextIndex(index, h, c), u, g) <==>
              if g == h then After(c, Has(index, u, h), u) else Has(index, u, g)
    ensures NoEmpty(index) ==> NoEmpty(NextIndex(index, h, c))
  {
    match c
    case Same =>
    case Added(u) => PutEffect(index, u, h, h);
    case Removed(u) => DropEffect(index, u, h);
  }

  lemma IndexExactAfter(handlers: map<Id, Handler>, index: Nested<string, Id, Id>, index': Nested<string, Id, Id>,
                        h: Id, next: Handler, c: IndexChange)
    requires h in handlers
    requires forall u, g :: Has(index, u, g) <==> g in handlers && ShouldIndex(handlers[g], u)
    requires forall u, g :: Has(index', u, g) <==> if g == h then After(c, Has(index, u, h), u) else Has(index, u, g)
    requires forall u :: ShouldIndex(next, u) == After(c, ShouldIndex(handlers[h], u), u)
    ensures forall u, g :: Has(index', u, g) <==> g in handlers[h := next] && ShouldIndex(handlers[h := next][g], u)
  {
    forall u, g ensures Has(index', u, g) <==> g in handlers[h := next] && ShouldIndex(handlers[h := next][g], u) {
      assert Has(index, u, g) <==> g in handlers && ShouldIndex(handlers[g], u);
      if g == h { assert ShouldIndex(next, u) == After(c, ShouldIndex(handlers[h], u), u); }
    }
  }

  lemma StepKeepsIndex(cfg: Config, s: State, st: Step)
    requires IndexExact(s) && NoEmpty(s.userConns) && Enabled(cfg, s, st)
    requires st.h in s.handlers ==> BindingPhases(s.handlers[st.h])
    ensures IndexExact(Apply(cfg, s, st)) && NoEmpty(Apply(cfg, s, st).userConns)
  {
    if st.Arrive? {
      forall u, g ensures Has(s.userConns, u, g) <==>
                          g in Apply(cfg, s, st).handlers && ShouldIndex(Apply(cfg, s, st).handlers[g], u) {
      }
    } else {
      var hd := s.handlers[st.h];
      var next, c := NextHandler(hd, st), ChangeOf(hd, st);
      forall u ensures ShouldIndex(next, u) == After(c, ShouldIndex(hd, u), u) {
        LocalIndex(cfg, hd, s.stopped, st, u);
      }
      IndexAfter(s.userConns, st.h, c);
      IndexExactAfter(s.handlers, s.userConns, NextIndex(s.userConns, st.h, c), st.h, next, c);
    }
  }

  lemma FreshLocal(pc: Pc)
    requires pc.Rejected? || pc.Checked?
    ensures LocalInv(NewHandler(pc))
  {
  }

  lemma StepKeepsAllLocal(cfg: Config, s: State, st: Step)
    requires AllLocal(s) && Enabled(cfg, s, st)
    ensures AllLocal(Apply(cfg, s, st))
  {
    if st.Arrive? {
      FreshLocal(if OverLimit(cfg, s) then Rejected else Checked);
    } else {
      StepKeepsLocal(cfg, s.handlers[st.h], s.stopped, st);
    }
  }

  lemma StepKeepsInv(cfg: Config, s: State, st: Step)
    requires Inv(s) && Enabled(cfg, s, st)
    ensures Inv(Apply(cfg, s, st))
  {
    assert st.h in s.handlers ==> LocalInv(s.handlers[st.h]);
    StepKeepsAllLocal(cfg, s, st);
    StepKeepsCount(cfg, s, st);
    StepKeepsTable(cfg, s, st);
    StepKeepsIndex(cfg, s, st);
  }

  lemma {:induction false} ReachableInv(cfg: Config, states: seq<State>, steps: seq<Step>, i: nat)
    requires IsRun(cfg, states, steps) && i < |states|
    ensures Inv(states[i])
    decreases i
  {
    if i == 0 {
      InitInv();
    } else {
      ReachableInv(cfg, states, steps, i - 1);
      StepKeepsInv(cfg, states[i - 1], steps[i - 1]);
    }
  }

  // ---------------------------------------------------------------- admission

  lemma LocalWindow(cfg: Config, hd: Handler, stopped: bool, st: Step)
    requires LocallyEnabled(cfg, hd, stopped, st)
    ensures AsOne(InWindow(NextHandler(hd, st))) + CountDelta(st) <= AsOne(InWindow(hd))
    ensures AsOne(InWindow(NextHandler(hd, st))) <= AsOne(InWindow(hd))
  {
  }

  /** Only passing the limit check can raise the counter plus the handlers on their way to it. */
  lemma AdmissionStep(cfg: Config, s: State, st: Step)
    requires Enabled(cfg, s, st)
    ensures var s' := Apply(cfg, s, st);
            || s'.connCount + Tally.Count(s'.handlers, InWindow) <= s.connCount + Tally.Count(s.handlers, InWindow)
            || (st.Arrive? && !OverLimit(cfg, s) && s'.connCount == s.connCount)
  {
    var s' := Apply(cfg, s, st);
    CountUpdate(s.handlers, st.h, s'.handlers[st.h], InWindow);
    if !st.Arrive? { LocalWindow(cfg, s.handlers[st.h], s.stopped, st); }
  }

  /** The counter is exactly the number of handlers between their increment and their decrement; and if never more than
      `w` handlers are between the limit check and the increment, counter and window together stay at
      or below the limit less one plus `w`. */
  lemma {:induction false} AdmissionLaw(cfg: Config, states: seq<State>, steps: seq<Step>, w: nat, i: nat)
    requires IsRun(cfg, states, steps) && i < |states| && cfg.maxConnections >= 1
    requires forall j :: 0 <= j < |states| ==> Tally.Count(states[j].handlers, InWindow) <= w
    ensures states[i].connCount == Tally.Count(states[i].handlers, InCount)
    ensures states[i].connCount + Tally.Count(states[i].handlers, InWindow) <= cfg.maxConnections - 1 + w
    decreases i
  {
    ReachableInv(cfg, states, steps, i);
    if i == 0 {
      CountEmpty<Id, Handler>(InWindow);
    } else {
      AdmissionLaw(cfg, states, steps, w, i - 1);
      AdmissionStep(cfg, states[i - 1], steps[i - 1]);
      assert Tally.Count(states[i].handlers, InWindow) <= w;
    }
  }

  /** Requests admitted one at a time never exceed the limit. */
  lemma SerialAdmission(cfg: Config, states: seq<State>, steps: seq<Step>, i: nat)
    requires IsRun(cfg, states, steps) && i < |states| && cfg.maxConnections >= 1
    requires forall j :: 0 <= j < |states| ==> Tally.Count(states[j].handlers, InWindow) <= 1
    ensures states[i].connCount <= cfg.maxConnections
  {
    AdmissionLaw(cfg, states, steps, 1, i);
  }

  // ---------------------------------------------------------------- the bound is reached

  ghost predicate WindowAtMost(states: seq<State>, w: nat)
  {
    forall j :: 0 <= j < |states| ==> Tally.Count(states[j].handlers, InWindow) <= w
  }

  /** Requests `0 .. arrived` have passed the check, the first `counted` of them are counted. */
  ghost predicate Burst(s: State, counted: nat, arrived: nat)
  {
    && s.connCount == counted <= arrived
    && Tally.Count(s.handlers, InWindow) == arrived - counted
    && (forall h: Id :: h in s.handlers <==> h < arrived)
    && forall h :: h in s.handlers ==> if h < counted then s.handlers[h].pc.Counted? else s.handlers[h].pc.Checked?
  }

  lemma TakeStep(cfg: Config, states: seq<State>, steps: seq<Step>, st: Step, w: nat)
    returns (states': seq<State>, steps': seq<Step>)
    requires IsRun(cfg, states, steps) && WindowAtMost(states, w) && Enabled(cfg, states[|steps|], st)
    requires Tally.Count(Apply(cfg, states[|steps|], st).handlers, InWindow) <= w
    ensures IsRun(cfg, states', steps') && WindowAtMost(states', w)
    ensures states'[|steps'|] == Apply(cfg, states[|steps|], st)
  {
    ExtendRun(cfg, states, steps, st);
    states', steps' := states + [Apply(cfg, states[|steps|], st)], steps + [st];
  }

  lemma ArriveInBurst(cfg: Config, s: State, counted: nat, arrived: nat)
    requires Burst(s, counted, arrived) && counted < cfg.maxConnections
    ensures Enabled(cfg, s, Arrive(arrived)) && Burst(Apply(cfg, s, Arrive(arrived)), counted, arrived + 1)
  {
    CountUpdate(s.handlers, arrived, NewHandler(Checked), InWindow);
  }

  lemma UpgradeInBurst(cfg: Config, s: State, counted: nat, arrived: nat)
    requires Burst(s, counted, arrived) && counted < arrived
    ensures Enabled(cfg, s, Upgrade(counted, true))
    ensures var mid := Apply(cfg, s, Upgrade(counted, true));
            && mid.handlers == s.handlers[counted := s.handlers[counted].(pc := Created)]
            && mid.connCount == s.connCount
            && Tally.Count(mid.handlers, InWindow) == Tally.Count(s.handlers, InWindow)
  {
    CountUpdate(s.handlers, counted, s.handlers[counted].(pc := Created), InWindow);
  }

  lemma CountInBurst(cfg: Config, s: State, mid: State, counted: nat, arrived: nat)
    requires Burst(s, counted, arrived) && counted < arrived
    requires mid.handlers == s.handlers[counted := s.handlers[counted].(pc := Created)] && mid.connCount == s.connCount
    requires Tally.Count(mid.handlers, InWindow) == Tally.Count(s.handlers, InWindow)
    ensures Enabled(cfg, mid, Step.Count(counted)) && Burst(Apply(cfg, mid, Step.Count(counted)), counted + 1, arrived)
  {
    CountUpdate(mid.handlers, counted, mid.handlers[counted].(pc := Counted), InWindow);
  }

  lemma BurstArrive(cfg: Config, states: seq<State>, steps: seq<Step>, counted: nat, arrived: nat, w: nat)
    returns (states': seq<State>, steps': seq<Step>)
    requires IsRun(cfg, states, steps) && WindowAtMost(states, w) && Burst(states[|steps|], counted, arrived)
    requires counted < cfg.maxConnections && arrived + 1 - counted <= w
    ensures IsRun(cfg, states', steps') && WindowAtMost(states', w) && Burst(states'[|steps'|], counted, arrived + 1)
  {
    ArriveInBurst(cfg, states[|steps|], counted, arrived);
    states', steps' := TakeStep(cfg, states, steps, Arrive(arrived), w);
  }

  lemma BurstCount(cfg: Config, states: seq<State>, steps: seq<Step>, counted: nat, arrived: nat, w: nat)
    returns (states': seq<State>, steps': seq<Step>)
    requires IsRun(cfg, states, steps) && WindowAtMost(states, w) && Burst(states[|steps|], counted, arrived)
    requires counted < arrived
    ensures IsRun(cfg, states', steps') && WindowAtMost(states', w) && Burst(states'[|steps'|], counted + 1, arrived)
  {
    var s := states[|steps|];
    assert Tally.Count(s.handlers, InWindow) <= w;
    UpgradeInBurst(cfg, s, counted, arrived);
    states', steps' := TakeStep(cfg, states, steps, Upgrade(counted, true), w);
    CountInBurst(cfg, s, states'[|steps'|], counted, arrived);
    states', steps' := TakeStep(cfg, states', steps', Step.Count(counted), w);
  }

  /** The admission bound is reached, for every limit and every window width: some run with never more than `w`
      handlers in the window lets the counter climb to the limit less one plus `w`. */
  lemma AdmissionBoundIsReached(cfg: Config, w: nat) returns (states: seq<State>, steps: seq<Step>)
    requires cfg.maxConnections >= 1 && w >= 1
    ensures IsRun(cfg, states, steps) && WindowAtMost(states, w)
    ensures states[|steps|].connCount == cfg.maxConnections - 1 + w
  {
    states, steps := [INIT], [];
    CountEmpty<Id, Handler>(InWindow);
    var n := 0;
    while n < cfg.maxConnections - 1
      invariant 0 <= n <= cfg.maxConnections - 1
      invariant IsRun(cfg, states, steps) && WindowAtMost(states, w) && Burst(states[|steps|], n, n)
    {
      states, steps := BurstArrive(cfg, states, steps, n, n, w);
      states, steps := BurstCount(cfg, states, steps, n, n + 1, w);
      n := n + 1;
    }
    var a := n;
    while a < n + w
      invariant n <= a <= n + w
      invariant IsRun(cfg, states, steps) && WindowAtMost(states, w) && Burst(states[|steps|], n, a)
    {
      states, steps := BurstArrive(cfg, states, steps, n, a, w);
      a := a + 1;
    }
    var c := n;
    while c < a
      invariant n <= c <= a
      invariant IsRun(cfg, states, steps) && WindowAtMost(states, w) && Burst(states[|steps|], c, a)
    {
      states, steps := BurstCount(cfg, states, steps, c, a, w);
      c := c + 1;
    }
  }

  // ---------------------------------------------------------------- senders

  /** In every reachable state past a successful OnConnect the write pump is still running or the
      connection is closed; and every exit after the connection exists leaves it closed first. */
  lemma NeverStranded(cfg: Config, states: seq<State>, steps: seq<Step>, i: nat, h: Id)
    requires IsRun(cfg, states, steps) && i < |states| && h in states[i].handlers
    ensures var hd := states[i].handlers[h];
            && (hd.pc.Pumping? ==> !hd.w.WDone? || hd.done)
            && (AfterPumps(hd.pc) || hd.pc.AuthClosed? || hd.pc.AuthGone? ==> hd.done)
  {
    ReachableInv(cfg, states, steps, i);
    assert LocalInv(states[i].handlers[h]);
  }

  /** The write pump's next move for a connection with pending messages; `ok` is how a write ends. */
  function PumpMove(h: Id, hd: Handler, ok: bool): Step
  {
    match hd.w
    case WHolding(_) => WWrite(h, ok)
    case WClosing => WClose(h)
    case _ => WTake(h)
  }

  predicate CanProceed(hd: Handler) { |hd.send| < CHANNEL_SIZE || hd.done }

  lemma PumpFrees(cfg: Config, hd: Handler, stopped: bool, h: Id, ok: bool)
    requires hd.pc.Pumping? && PhasesMatch(hd) && ClosedInTime(hd) && !CanProceed(hd) && |hd.send| <= CHANNEL_SIZE
    ensures var st := PumpMove(h, hd, ok);
            && LocallyEnabled(cfg, hd, stopped, st) && st.h == h && !st.Arrive? && !st.BindFinish? && !st.Stop?
            && var next := NextHandler(hd, st);
               || CanProceed(next)
               || var st' := PumpMove(h, next, ok);
                  && LocallyEnabled(cfg, next, stopped, st') && st'.h == h && !st'.Arrive? && !st'.BindFinish?
                  && CanProceed(NextHandler(next, st'))
  {
    match hd.w
    case WSelect =>
    case WHolding(m) =>
    case WClosing =>
    case _ =>
  }

  /** A sender blocked on a full channel of a connection past OnConnect is freed by at most two moves of that
      connection's own pump, whichever way a pending write ends. */
  lemma BlockedSenderFreed(cfg: Config, states: seq<State>, steps: seq<Step>, i: nat, h: Id, ok: bool)
    requires IsRun(cfg, states, steps) && i < |states| && h in states[i].handlers
    requires states[i].handlers[h].pc.Pumping? && !CanProceed(states[i].handlers[h])
    ensures var s := states[i];
            var st := PumpMove(h, s.handlers[h], ok);
            && Enabled(cfg, s, st)
            && var s' := Apply(cfg, s, st);
               || CanProceed(s'.handlers[h])
               || var st' := PumpMove(h, s'.handlers[h], ok);
                  Enabled(cfg, s', st') && CanProceed(Apply(cfg, s', st').handlers[h])
  {
    ReachableInv(cfg, states, steps, i);
    Unblocks(cfg, states[i], h, ok);
  }

  lemma Unblocks(cfg: Config, s: State, h: Id, ok: bool)
    requires AllLocal(s) && h in s.handlers && s.handlers[h].pc.Pumping? && !CanProceed(s.handlers[h])
    ensures var st := PumpMove(h, s.handlers[h], ok);
            && Enabled(cfg, s, st)
            && var s' := Apply(cfg, s, st);
               || CanProceed(s'.handlers[h])
               || var st' := PumpMove(h, s'.handlers[h], ok);
                  Enabled(cfg, s', st') && CanProceed(Apply(cfg, s', st').handlers[h])
  {
    var hd := s.handlers[h];
    assert LocalInv(hd);
    PumpFrees(cfg, hd, s.stopped, h, ok);
    var st := PumpMove(h, hd, ok);
    assert Apply(cfg, s, st).handlers[h] == NextHandler(hd, st) && Apply(cfg, s, st).stopped == s.stopped;
  }

  /** Until the pump starts, everything accepted is still in the channel. */
  predicate Undrained(hd: Handler)
  {
    hd.w.WOff? ==> hd.written == [] && hd.send == hd.accepted
  }

  lemma LocalUndrained(cfg: Config, hd: Handler, stopped: bool, st: Step)
    requires Undrained(hd) && LocallyEnabled(cfg, hd, stopped, st)
    ensures Undrained(NextHandler(hd, st))
  {
    if IsApp(st) { AppFrame(hd, st); }
  }

  lemma {:induction false} ReachableUndrained(cfg: Config, states: seq<State>, steps: seq<Step>, i: nat, h: Id)
    requires IsRun(cfg, states, steps) && i < |states| && h in states[i].handlers
    ensures Undrained(states[i].handlers[h])
    decreases i
  {
    if i > 0 {
      var s, st := states[i - 1], steps[i - 1];
      if h in s.handlers {
        ReachableUndrained(cfg, states, steps, i - 1, h);
        if st.h == h { LocalUndrained(cfg, s.handlers[h], s.stopped, st); }
      }
    }
  }

  /** Before OnConnect returns there is no such guarantee.  Exactly: a sender can then proceed if and only if fewer
      messages than the channel holds have been accepted, or the connection is closed. */
  lemma SendDuringOnConnect(cfg: Config, states: seq<State>, steps: seq<Step>, i: nat, h: Id)
    requires IsRun(cfg, states, steps) && i < |states| && h in states[i].handlers
    requires BeforeConnect(states[i].handlers[h].pc)
    ensures var hd := states[i].handlers[h];
            CanProceed(hd) <==> |hd.accepted| < CHANNEL_SIZE || hd.done
  {
    ReachableInv(cfg, states, steps, i);
    assert LocalInv(states[i].handlers[h]);
    ReachableUndrained(cfg, states, steps, i, h);
  }

  /** A continuation of `s`, any length, in which OnConnect of `h` does not return and nobody closes the connection. */
  ghost predicate InsideOnConnect(cfg: Config, s: State, h: Id, states: seq<State>, steps: seq<Step>)
  {
    && |states| == |steps| + 1 && states[0] == s
    && (forall i :: 0 <= i < |steps| ==>
          Enabled(cfg, states[i], steps[i]) && states[i + 1] == Apply(cfg, states[i], steps[i]))
    && (forall i :: 0 <= i < |steps| ==> !((steps[i].ConnectReturns? || steps[i].Close?) && steps[i].h == h))
  }

  lemma LocalStuck(cfg: Config, hd: Handler, stopped: bool, st: Step)
    requires LocallyEnabled(cfg, hd, stopped, st) && hd.pc.Registered? && PhasesMatch(hd) && !CanProceed(hd)
    requires !st.ConnectReturns? && !st.Close?
    ensures var next := NextHandler(hd, st); next.pc.Registered? && PhasesMatch(next) && !CanProceed(next)
  {
  }

  /** So an OnConnect that waits for its own send on a full channel waits for ever, unless somebody closes the
      connection: no continuation in which it has not returned lets that send proceed. */
  lemma {:induction false} OnConnectBlocksItself(cfg: Config, s: State, h: Id, states: seq<State>, steps: seq<Step>,
                                                 i: nat)
    requires h in s.handlers && s.handlers[h].pc.Registered? && PhasesMatch(s.handlers[h]) && !CanProceed(s.handlers[h])
    requires InsideOnConnect(cfg, s, h, states, steps) && i < |states|
    ensures h in states[i].handlers && states[i].handlers[h].pc.Registered? && PhasesMatch(states[i].handlers[h])
    ensures !CanProceed(states[i].handlers[h])
    decreases i
  {
    if i > 0 {
      OnConnectBlocksItself(cfg, s, h, states, steps, i - 1);
      var s0, st := states[i - 1], steps[i - 1];
      if st.h == h { LocalStuck(cfg, s0.handlers[h], s0.stopped, st); }
    }
  }

  ghost predicate WaitsForEver(cfg: Config, s: State, h: Id)
  {
    forall path: seq<State>, moves: seq<Step> :: InsideOnConnect(cfg, s, h, path, moves) ==>
      h in path[|moves|].handlers && !CanProceed(path[|moves|].handlers[h])
  }

  /** It happens: an OnConnect that sends more messages than the channel holds gets there. */
  lemma FullDuringOnConnect(cfg: Config) returns (states: seq<State>, steps: seq<Step>)
    requires !cfg.auth
    ensures IsRun(cfg, states, steps)
    ensures var s := states[|steps|];
            && 0 in s.handlers && s.handlers[0].pc.Registered? && |s.handlers[0].accepted| == CHANNEL_SIZE
            && WaitsForEver(cfg, s, 0)
  {
    states, steps := FirstRegistered(cfg);
    var full;
    states, steps, full := FillChannel(cfg, states, steps, NewHandler(Registered));
    FullStaysFull(cfg, states, steps, full);
  }

  lemma FullStaysFull(cfg: Config, states: seq<State>, steps: seq<Step>, full: Handler)
    requires IsRun(cfg, states, steps) && states[|steps|].handlers == map[0 := full]
    requires full.pc.Registered? && !CanProceed(full) && |full.send| == CHANNEL_SIZE
    ensures |full.accepted| == CHANNEL_SIZE
    ensures WaitsForEver(cfg, states[|steps|], 0)
  {
    var s := states[|steps|];
    ReachableUndrained(cfg, states, steps, |steps|, 0);
    ReachableInv(cfg, states, steps, |steps|);
    assert LocalInv(s.handlers[0]);
    forall path: seq<State>, moves: seq<Step> | InsideOnConnect(cfg, s, 0, path, moves)
      ensures 0 in path[|moves|].handlers && !CanProceed(path[|moves|].handlers[0])
    {
      OnConnectBlocksItself(cfg, s, 0, path, moves, |moves|);
    }
  }

  /** One step of the only handler there is, given the handler it leads to. */
  lemma Alone(cfg: Config, states: seq<State>, steps: seq<Step>, hd: Handler, st: Step, next: Handler)
    returns (states': seq<State>, steps': seq<Step>)
    requires IsRun(cfg, states, steps) && st.h == 0 && !st.Arrive? && !st.BindFinish?
    requires states[|steps|].handlers == map[0 := hd]
    requires LocallyEnabled(cfg, hd, states[|steps|].stopped, st) && next == NextHandler(hd, st)
    ensures IsRun(cfg, states', steps')
    ensures states'[|steps'|].handlers == map[0 := next]
  {
    states', steps' := GoOn(cfg, states, steps, st);
  }

  lemma FirstCounted(cfg: Config) returns (states: seq<State>, steps: seq<Step>)
    ensures IsRun(cfg, states, steps) && states[|steps|].handlers == map[0 := NewHandler(Counted)]
  {
    states, steps := [INIT], [];
    states, steps := GoOn(cfg, states, steps, Arrive(0));
    states, steps := Alone(cfg, states, steps, NewHandler(Checked), Upgrade(0, true), NewHandler(Created));
    states, steps := Alone(cfg, states, steps, NewHandler(Created), Step.Count(0), NewHandler(Counted));
  }

  lemma FirstRegistered(cfg: Config) returns (states: seq<State>, steps: seq<Step>)
    requires !cfg.auth
    ensures IsRun(cfg, states, steps) && states[|steps|].handlers == map[0 := NewHandler(Registered)]
  {
    states, steps := FirstCounted(cfg);
    states, steps := Alone(cfg, states, steps, NewHandler(Counted), Authenticate(0, Skipped), NewHandler(Ready));
    states, steps := Alone(cfg, states, steps, NewHandler(Ready), Register(0), NewHandler(Registered));
  }

  lemma FillChannel(cfg: Config, states: seq<State>, steps: seq<Step>, hd: Handler)
    returns (states': seq<State>, steps': seq<Step>, full: Handler)
    requires IsRun(cfg, states, steps) && states[|steps|].handlers == map[0 := hd]
    requires HasConnection(hd.pc) && |hd.send| <= CHANNEL_SIZE
    ensures IsRun(cfg, states', steps') && states'[|steps'|].handlers == map[0 := full]
    ensures full.pc == hd.pc && full.w == hd.w && full.done == hd.done && |full.send| == CHANNEL_SIZE
    decreases CHANNEL_SIZE - |hd.send|
  {
    states', steps', full := states, steps, hd;
    if |hd.send| < CHANNEL_SIZE {
      var next := hd.(send := hd.send + [""], accepted := hd.accepted + [""]);
      states', steps' := Alone(cfg, states, steps, hd, Send(0, ""), next);
      states', steps', full := FillChannel(cfg, states', steps', next);
    }
  }

  lemma GoOn(cfg: Config, states: seq<State>, steps: seq<Step>, st: Step) returns (states': seq<State>,
             steps': seq<Step>)
    requires IsRun(cfg, states, steps) && Enabled(cfg, states[|steps|], st)
    ensures IsRun(cfg, states', steps') && |steps'| == |steps| + 1
    ensures states'[|steps'|] == Apply(cfg, states[|steps|], st)
  {
    ExtendRun(cfg, states, steps, st);
    states', steps' := states + [Apply(cfg, states[|steps|], st)], steps + [st];
  }

  // ---------------------------------------------------------------- messages and callbacks

  /** Nothing is lost, duplicated or reordered on the way to the socket: what was accepted is what was written,
      then what the pump holds or a failing write dropped, then the channel, which never exceeds its 256 slots. */
  lemma FifoConservation(cfg: Config, states: seq<State>, steps: seq<Step>, i: nat, h: Id)
    requires IsRun(cfg, states, steps) && i < |states| && h in states[i].handlers
    ensures var hd := states[i].handlers[h];
            && hd.accepted == hd.written + (hd.dropped + InHand(hd)) + hd.send
            && hd.written <= hd.accepted
            && |hd.send| <= CHANNEL_SIZE && |hd.dropped| <= 1
  {
    ReachableInv(cfg, states, steps, i);
    assert LocalInv(states[i].handlers[h]);
  }

  /** Nothing is written after a failed write. */
  lemma {:induction false} NothingAfterFailedWrite(cfg: Config, states: seq<State>, steps: seq<Step>, i: nat, j: nat,
                                                   h: Id)
    requires IsRun(cfg, states, steps) && i <= j < |states|
    requires h in states[i].handlers && states[i].handlers[h].dropped != []
    ensures h in states[j].handlers && states[j].handlers[h].written == states[i].handlers[h].written
    ensures states[j].handlers[h].dropped == states[i].handlers[h].dropped
    decreases j
  {
    if i < j {
      NothingAfterFailedWrite(cfg, states, steps, i, j - 1, h);
      ReachableInv(cfg, states, steps, j - 1);
      StepAfterFailedWrite(cfg, states[j - 1], steps[j - 1], h);
    }
  }

  lemma StepAfterFailedWrite(cfg: Config, s: State, st: Step, h: Id)
    requires AllLocal(s) && h in s.handlers && s.handlers[h].dropped != [] && Enabled(cfg, s, st)
    ensures var s' := Apply(cfg, s, st);
            && h in s'.handlers && s'.handlers[h].written == s.handlers[h].written
            && s'.handlers[h].dropped == s.handlers[h].dropped
  {
    assert LocalInv(s.handlers[h]);
    if st.h == h { WriteNeedsNoDrop(cfg, s.handlers[h], s.stopped, st); }
  }

  lemma WriteNeedsNoDrop(cfg: Config, hd: Handler, stopped: bool, st: Step)
    requires Conserves(hd) && hd.dropped != [] && LocallyEnabled(cfg, hd, stopped, st)
    ensures NextHandler(hd, st).written == hd.written && NextHandler(hd, st).dropped == hd.dropped
  {
  }

  lemma LocalTraces(hd: Handler)
    requires LocalInv(hd)
    ensures LegalTrace(hd.events)
    ensures AfterPumps(hd.pc) ==> hd.events == [ConnectFailed] || DisconnectTrace(hd.events)
    ensures BeforeConnect(hd.pc) ==> hd.events == []
  {
  }

  /** Every connection's callbacks are a prefix of connect-failed, or of connect-ok, messages, one disconnect;
      and a session that connected and is over was told about its disconnect exactly once. */
  lemma CallbackTraces(cfg: Config, states: seq<State>, steps: seq<Step>, i: nat, h: Id)
    requires IsRun(cfg, states, steps) && i < |states| && h in states[i].handlers
    ensures var hd := states[i].handlers[h];
            && LegalTrace(hd.events)
            && (AfterPumps(hd.pc) ==> hd.events == [ConnectFailed] || DisconnectTrace(hd.events))
            && (BeforeConnect(hd.pc) ==> hd.events == [])
  {
    ReachableInv(cfg, states, steps, i);
    assert LocalInv(states[i].handlers[h]);
    LocalTraces(states[i].handlers[h]);
  }

  // ---------------------------------------------------------------- cleanup

  /** Once a handler is gone, `connections` does not mention it, and the user index mentions it exactly where it was
      bound under a user other than the one its unregister removed, or was bound after that. */
  lemma CleanupLaw(cfg: Config, states: seq<State>, steps: seq<Step>, i: nat, h: Id)
    requires IsRun(cfg, states, steps) && i < |states| && h in states[i].handlers && states[i].handlers[h].pc.Gone?
    ensures h !in states[i].connections && NoEmpty(states[i].userConns)
    ensures var hd := states[i].handlers[h];
            (forall u :: !Has(states[i].userConns, u, h))
            <==> (forall u :: u in hd.boundBefore ==> u == hd.unbound != "") && hd.boundAfter == {}
  {
    ReachableInv(cfg, states, steps, i);
    var s, hd := states[i], states[i].handlers[h];
    forall u ensures Has(s.userConns, u, h) <==> ShouldIndex(hd, u) {
      assert IndexExact(s);
    }
    if hd.boundAfter != {} {
      var u :| u in hd.boundAfter;
      assert ShouldIndex(hd, u);
    }
    if u :| u in hd.boundBefore && !(u == hd.unbound != "") { assert ShouldIndex(hd, u); }
  }

  /** The application binds the only connection to a user. */
  lemma BindAlone(cfg: Config, states: seq<State>, steps: seq<Step>, hd: Handler, u: string)
    returns (states': seq<State>, steps': seq<Step>)
    requires IsRun(cfg, states, steps) && states[|steps|].handlers == map[0 := hd] && HasConnection(hd.pc)
    ensures IsRun(cfg, states', steps') && states'[|steps'|].handlers == map[0 := Indexed(hd.(userID := u), u)]
  {
    states', steps' := GoOn(cfg, states, steps, BindStart(0, u));
    states', steps' := GoOn(cfg, states', steps', BindFinish(0, u));
  }

  /** A connection bound to two users in turn, in its OnConnect. */
  lemma BoundTwice(cfg: Config, u: string, v: string) returns (states: seq<State>, steps: seq<Step>, hd: Handler)
    requires !cfg.auth && u != v
    ensures IsRun(cfg, states, steps) && states[|steps|].handlers == map[0 := hd]
    ensures hd.pc.Registered? && hd.userID == v && hd.boundBefore == {u, v} && hd.boundAfter == {}
  {
    states, steps := FirstRegistered(cfg);
    hd := NewHandler(Registered);
    states, steps := BindAlone(cfg, states, steps, hd, u);
    hd := Indexed(hd.(userID := u), u);
    states, steps := BindAlone(cfg, states, steps, hd, v);
    hd := Indexed(hd.(userID := v), v);
  }

  /** The way out of a handler whose OnConnect fails. */
  lemma RefusedUnbinds(cfg: Config, states: seq<State>, steps: seq<Step>, hd: Handler)
    returns (states': seq<State>, steps': seq<Step>, next: Handler)
    requires IsRun(cfg, states, steps) && states[|steps|].handlers == map[0 := hd]
    requires hd.pc.Registered? && hd.userID != ""
    ensures IsRun(cfg, states', steps') && states'[|steps'|].handlers == map[0 := next]
    ensures next.pc == Unbinding(hd.userID) && next.boundBefore == hd.boundBefore && next.boundAfter == hd.boundAfter
  {
    var a := hd.(pc := ConnectRefused, events := hd.events + [ConnectFailed]);
    states', steps' := Alone(cfg, states, steps, hd, ConnectReturns(0, false), a);
    var b := a.(pc := Leaving, done := true);
    states', steps' := Alone(cfg, states', steps', a, CloseRefused(0), b);
    states', steps' := Alone(cfg, states', steps', b, Delete(0), b.(pc := Deleted));
    next := b.(pc := Unbinding(hd.userID));
    states', steps' := Alone(cfg, states', steps', b.(pc := Deleted), ReadUser(0), next);
  }

  /** Rebinding does leave an entry behind: the handler is gone, and the user index still lists its connection under
      the first of its two users. */
  lemma RebindingLeaksEntry(cfg: Config, u: string, v: string) returns (states: seq<State>, steps: seq<Step>)
    requires !cfg.auth && u != v && v != ""
    ensures IsRun(cfg, states, steps)
    ensures var s := states[|steps|];
            && 0 in s.handlers && s.handlers[0].pc.Gone? && s.connections == {}
            && forall w :: Has(s.userConns, w, 0) <==> w == u
  {
    var hd, next;
    states, steps, hd := BoundTwice(cfg, u, v);
    states, steps, next := RefusedUnbinds(cfg, states, steps, hd);
    var after := next.(pc := Uncounting, unbound := v);
    states, steps := Alone(cfg, states, steps, next, Unindex(0), after);
    states, steps := Alone(cfg, states, steps, after, Uncount(0), after.(pc := Gone));
    GoneLeaves(cfg, states, steps, after.(pc := Gone), u, v);
  }

  lemma GoneLeaves(cfg: Config, states: seq<State>, steps: seq<Step>, hd: Handler, u: string, v: string)
    requires IsRun(cfg, states, steps) && states[|steps|].handlers == map[0 := hd] && hd.pc.Gone? && u != v && v != ""
    requires hd.boundBefore == {u, v} && hd.boundAfter == {} && hd.unbound == v
    ensures states[|steps|].connections == {}
    ensures forall w :: Has(states[|steps|].userConns, w, 0) <==> w == u
  {
    var s := states[|steps|];
    ReachableInv(cfg, states, steps, |steps|);
    assert Where(s.handlers, InTable) == {};
    forall w ensures Has(s.userConns, w, 0) <==> w == u {
      assert Has(s.userConns, w, 0) <==> ShouldIndex(hd, w);
    }
  }

  /** The discipline that makes cleanup complete: a non-empty user ID never changes, application binds name a user,
      and none of them updates the index once unregistering has begun. */
  ghost predicate Disciplined(states: seq<State>, steps: seq<Step>, h: Id)
    requires |states| == |steps| + 1
  {
    forall i :: 0 <= i < |steps| && steps[i].h == h && h in states[i].handlers ==>
      DisciplinedStep(states[i].handlers[h], steps[i])
  }

  /** What the discipline preserves for one handler, given the users its pending `BindUser` calls name. */
  ghost predicate LocalOneUser(hd: Handler, pending: set<string>)
  {
    && (forall u :: u in hd.boundBefore ==> u == hd.userID != "")
    && (forall u :: u in pending ==> u == hd.userID != "")
    && (hd.pc.Binding? ==> hd.pc.u == hd.userID != "")
    && (hd.pc.Authenticated? ==> hd.pc.u != "")
    && (hd.pc.Unbinding? ==> hd.pc.u == hd.userID != "")
    && hd.boundAfter == {}
    && (forall u :: u in hd.boundBefore && Cleaned(hd.pc) ==> u == hd.unbound)
  }

  ghost predicate DisciplinedStep(hd: Handler, st: Step)
  {
    && (hd.userID != "" ==> NextHandler(hd, st).userID == hd.userID)
    && (st.BindStart? ==> st.u != "")
    && (st.BindFinish? ==> !AfterPumps(hd.pc))
  }

  lemma AppOneUserStep(cfg: Config, hd: Handler, stopped: bool, st: Step, pending: set<string>)
    requires IsApp(st) && LocalOneUser(hd, pending) && LocallyEnabled(cfg, hd, stopped, st) && DisciplinedStep(hd, st)
    requires st.BindFinish? ==> st.u in pending
    ensures LocalOneUser(NextHandler(hd, st), if st.BindStart? then pending + {st.u} else pending)
  {
  }

  lemma ControlOneUserStep(cfg: Config, hd: Handler, stopped: bool, st: Step, pending: set<string>)
    requires IsControl(st) && LocalOneUser(hd, pending)
    requires LocallyEnabled(cfg, hd, stopped, st) && DisciplinedStep(hd, st)
    ensures LocalOneUser(NextHandler(hd, st), pending)
  {
  }

  lemma LocalOneUserStep(cfg: Config, hd: Handler, stopped: bool, st: Step, pending: set<string>)
    requires LocalOneUser(hd, pending) && LocallyEnabled(cfg, hd, stopped, st) && DisciplinedStep(hd, st)
    requires st.BindFinish? ==> st.u in pending
    ensures LocalOneUser(NextHandler(hd, st), if st.BindStart? then pending + {st.u} else pending)
  {
    if IsApp(st) {
      AppOneUserStep(cfg, hd, stopped, st, pending);
    } else if IsPump(st) {
      PumpFrame(hd, st);
    } else {
      ControlOneUserStep(cfg, hd, stopped, st, pending);
    }
  }

  ghost function Pending(s: State, h: Id): set<string>
  {
    set b | b in s.binds && b.0 == h :: b.1
  }

  ghost predicate OneUser(s: State, h: Id)
  {
    if h in s.handlers then LocalOneUser(s.handlers[h], Pending(s, h)) else Pending(s, h) == {}
  }

  lemma PendingStep(cfg: Config, s: State, st: Step, h: Id)
    requires Enabled(cfg, s, st)
    ensures Pending(Apply(cfg, s, st), h)
         == if st.BindStart? && st.h == h then Pending(s, h) + {st.u} else Pending(s, h)
  {
    var s' := Apply(cfg, s, st);
    if st.BindStart? && st.h == h {
      assert (h, st.u) in s'.binds;
      forall u | u in Pending(s, h) ensures u in Pending(s', h) { assert (h, u) in s'.binds; }
    } else {
      forall u | u in Pending(s, h) ensures u in Pending(s', h) { assert (h, u) in s'.binds; }
    }
  }

  lemma OneUserStep(cfg: Config, s: State, st: Step, h: Id)
    requires Enabled(cfg, s, st) && OneUser(s, h)
    requires st.h == h && h in s.handlers ==> DisciplinedStep(s.handlers[h], st)
    ensures OneUser(Apply(cfg, s, st), h)
  {
    PendingStep(cfg, s, st, h);
    if st.h == h && !st.Arrive? {
      if st.BindFinish? { assert st.u in Pending(s, h); }
      LocalOneUserStep(cfg, s.handlers[h], s.stopped, st, Pending(s, h));
    }
  }

  lemma {:induction false} DisciplineKeepsOneUser(cfg: Config, states: seq<State>, steps: seq<Step>, i: nat, h: Id)
    requires IsRun(cfg, states, steps) && i < |states| && Disciplined(states, steps, h)
    ensures OneUser(states[i], h)
    decreases i
  {
    if i > 0 {
      DisciplineKeepsOneUser(cfg, states, steps, i - 1, h);
      OneUserStep(cfg, states[i - 1], steps[i - 1], h);
    }
  }

  /** Under that discipline nothing mentions a connection once its handler is gone. */
  lemma CleanupComplete(cfg: Config, states: seq<State>, steps: seq<Step>, i: nat, h: Id)
    requires IsRun(cfg, states, steps) && i < |states| && h in states[i].handlers && states[i].handlers[h].pc.Gone?
    requires Disciplined(states, steps, h)
    ensures h !in states[i].connections && forall u :: !Has(states[i].userConns, u, h)
  {
    CleanupLaw(cfg, states, steps, i, h);
    DisciplineKeepsOneUser(cfg, states, steps, i, h);
  }
}
