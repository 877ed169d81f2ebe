/** The WebTransport server as a transition system: wt/server.go and wt/connection.go.

    Conventions are those of the WebSocket model.  The differences are the point: the connection counter is
    incremented twice and decremented once, messages arrive on any number of concurrent streams, the
    write pump waits for the first of them, and some exits leave the connection open.
    The user index is maintained by the same code as in ws/server.go and is left to that model.
 */
module WtServer {
  import opened Tally
  import opened Wrappers
  import Ws = WsServer

  type Id = Ws.Id
  type Msg = Ws.Msg
  type StreamId = nat

  datatype Pc =
    | Rejected
    | Checked             // under the limit; upgrading
    | UpgradeFailed
    | Created             // upgraded, connection object made; authenticating and binding
    | AuthGone            // the session is closed, the connection object is not
    | Ready               // before the first increment
    | CountedOnce         // before the insert into `connections`
    | Inserted            // before the second increment
    | Registered          // OnConnect running
    | ConnectRefused      // before the connection is closed
    | Looping             // write pump started; at the head of the accept loop
    | Accepting           // inside AcceptStream
    | Leaving             // deferred unregister, before the delete from `connections`
    | Deleted             // before the decrement
    | Gone

  datatype WPc =
    | WOff
    | WWaiting            // for the first stream
    | WSelect
    | WTaken(m: Msg)      // received; response stream not yet looked up
    | WHolding(m: Msg, to: StreamId)
    | WNoStream(m: Msg)   // the "no response stream" exit
    | WDone

  /** One `handleStream` goroutine; at `SLooping` it is at the head of its read loop, at `SReading` inside Read. */
  datatype SPc = SAccepted | SLooping | SReading | SInMessage | SDone

  /** `readyCloses` counts the closes of the `streamReady` channel; a second one would panic.
      `writtenTo` records the stream each written message went to. */
  datatype Handler = Handler(
    pc: Pc, w: WPc, streams: map<StreamId, SPc>,
    responseStream: Option<StreamId>, readyCloses: nat,
    done: bool, send: seq<Msg>,
    accepted: seq<Msg>, written: seq<Msg>, writtenTo: seq<StreamId>, dropped: seq<Msg>,
    events: seq<Ws.Event>)

  datatype State = State(handlers: map<Id, Handler>, connCount: int, connections: set<Id>, stopped: bool)

  datatype Step =
    | Arrive(h: Id)
    | Upgrade(h: Id, ok: bool)
    | Authenticate(h: Id, ok: bool)
    | CountFirst(h: Id)
    | Insert(h: Id)
    | CountSecond(h: Id)
    | ConnectReturns(h: Id, ok: bool)
    | CloseRefused(h: Id)
    | EnterAccept(h: Id)
    | AcceptStream(h: Id, sid: StreamId)
    | StopAccepting(h: Id)
    | Delete(h: Id)
    | Uncount(h: Id)
    | WReady(h: Id)
    | WQuit(h: Id)
    | WTake(h: Id)
    | WLookup(h: Id)
    | WWrite(h: Id, ok: bool)
    | SSet(h: Id, sid: StreamId)
    | SEnter(h: Id, sid: StreamId)
    | SRead(h: Id, sid: StreamId, m: Msg)
    | SReturn(h: Id, sid: StreamId)
    | SQuit(h: Id, sid: StreamId)
    // the application, at any time
    | Send(h: Id, m: Msg)
    | Close(h: Id)
    | Stop(h: Id)  // the server is told to stop; `h` is any request seen so far

  const INIT := State(map[], 0, {}, false)

  function NewHandler(pc: Pc): Handler
  {
    Handler(pc, WOff, map[], None, 0, false, [], [], [], [], [], [])
  }

  predicate HasConnection(pc: Pc)
  {
    !pc.Rejected? && !pc.Checked? && !pc.UpgradeFailed?
  }

  predicate OverLimit(cfg: Ws.Config, s: State)
  {
    cfg.maxConnections > 0 && s.connCount >= cfg.maxConnections
  }

  predicate StreamAt(hd: Handler, sid: StreamId, at: SPc)
  {
    sid in hd.streams && hd.streams[sid] == at
  }

  predicate LocallyEnabled(cfg: Ws.Config, hd: Handler, stopped: bool, st: Step)
  {
    match st
    case Arrive(_) => false
    case Upgrade(_, _) => hd.pc.Checked?
    case Authenticate(_, ok) => hd.pc.Created? && (!ok ==> cfg.auth)
    case CountFirst(_) => hd.pc.Ready?
    case Insert(_) => hd.pc.CountedOnce?
    case CountSecond(_) => hd.pc.Inserted?
    case ConnectReturns(_, _) => hd.pc.Registered?
    case CloseRefused(_) => hd.pc.ConnectRefused?
    case EnterAccept(_) => hd.pc.Looping? && !stopped && !hd.done
    case AcceptStream(_, sid) => hd.pc.Accepting? && sid !in hd.streams
    case StopAccepting(_) => hd.pc.Accepting? || (hd.pc.Looping? && (stopped || hd.done))
    case Delete(_) => hd.pc.Leaving?
    case Uncount(_) => hd.pc.Deleted?
    case WReady(_) => hd.w.WWaiting? && hd.readyCloses > 0
    case WQuit(_) => (hd.w.WWaiting? || hd.w.WSelect?) && (stopped || hd.done)
    case WTake(_) => hd.w.WSelect? && hd.send != []
    case WLookup(_) => hd.w.WTaken?
    case WWrite(_, _) => hd.w.WHolding?
    case SSet(_, sid) => StreamAt(hd, sid, SAccepted)
    case SEnter(_, sid) => StreamAt(hd, sid, SLooping) && !stopped && !hd.done
    case SRead(_, sid, _) => StreamAt(hd, sid, SReading)
    case SReturn(_, sid) => StreamAt(hd, sid, SInMessage)
    case SQuit(_, sid) => StreamAt(hd, sid, SReading) || (StreamAt(hd, sid, SLooping) && (stopped || hd.done))
    case Send(_, _) => HasConnection(hd.pc) && |hd.send| < Ws.CHANNEL_SIZE
    case Close(_) => HasConnection(hd.pc)
    case Stop(_) => true
  }

  predicate Enabled(cfg: Ws.Config, s: State, st: Step)
  {
    if st.Arrive? then st.h !in s.handlers
    else st.h in s.handlers && LocallyEnabled(cfg, s.handlers[st.h], s.stopped, st)
  }

  /** `SetResponseStream`: the first stream wins, and only then is `streamReady` closed. */
  function SetResponseStream(hd: Handler, sid: StreamId): Handler
  {
    if hd.responseStream.None? then hd.(responseStream := Some(sid), readyCloses := hd.readyCloses + 1) else hd
  }

  function NextHandler(hd: Handler, st: Step): Handler
  {
    match st
    case Arrive(_) => hd
    case Upgrade(_, ok) => hd.(pc := if ok then Created else UpgradeFailed)
    case Authenticate(_, ok) => hd.(pc := if ok then Ready else AuthGone)
    case CountFirst(_) => hd.(pc := CountedOnce)
    case Insert(_) => hd.(pc := Inserted)
    case CountSecond(_) => hd.(pc := Registered)
    case ConnectReturns(_, ok) =>
      if ok then hd.(pc := Looping, w := WWaiting, events := hd.events + [Ws.ConnectOk])
      else hd.(pc := ConnectRefused, events := hd.events + [Ws.ConnectFailed])
    case CloseRefused(_) => hd.(pc := Leaving, done := true)
    case EnterAccept(_) => hd.(pc := Accepting)
    case AcceptStream(_, sid) => hd.(pc := Looping, streams := hd.streams[sid := SAccepted])
    case StopAccepting(_) => hd.(pc := Leaving)
    case Delete(_) => hd.(pc := Deleted)
    case Uncount(_) => hd.(pc := Gone)
    case WReady(_) => hd.(w := WSelect)
    case WQuit(_) => hd.(w := WDone)
    case WTake(_) => if hd.send != [] then hd.(w := WTaken(hd.send[0]), send := hd.send[1..]) else hd
    case WLookup(_) =>
      if !hd.w.WTaken? then hd
      else if hd.responseStream.None? then hd.(w := WNoStream(hd.w.m))
      else hd.(w := WHolding(hd.w.m, hd.responseStream.value))
    case WWrite(_, ok) =>
      if !hd.w.WHolding? then hd
      else if ok then hd.(w := WSelect, written := hd.written + [hd.w.m], writtenTo := hd.writtenTo + [hd.w.to])
      else hd.(w := WDone, dropped := hd.dropped + [hd.w.m])
    case SSet(_, sid) => SetResponseStream(hd, sid).(streams := hd.streams[sid := SLooping])
    case SEnter(_, sid) => hd.(streams := hd.streams[sid := SReading])
    case SRead(_, sid, m) => hd.(streams := hd.streams[sid := SInMessage], events := hd.events + [Ws.Message(m)])
    case SReturn(_, sid) => hd.(streams := hd.streams[sid := SLooping])
    case SQuit(_, sid) => hd.(streams := hd.streams[sid := SDone])
    case Send(_, m) => hd.(send := hd.send + [m], accepted := hd.accepted + [m])
    case Close(_) => hd.(done := true)
    case Stop(_) => hd
  }

  function CountDelta(st: Step): int
  {
    if st.CountFirst? || st.CountSecond? then 1 else if st.Uncount? then -1 else 0
  }

  function Apply(cfg: Ws.Config, s: State, st: Step): State
    requires Enabled(cfg, s, st)
  {
    if st.Arrive? then
      s.(handlers := s.handlers[st.h := NewHandler(if OverLimit(cfg, s) then Rejected else Checked)])
    else
      State(s.handlers[st.h := NextHandler(s.handlers[st.h], st)],
            s.connCount + CountDelta(st),
            if st.Insert? then s.connections + {st.h} else if st.Delete? then s.connections - {st.h} else s.connections,
            s.stopped || st.Stop?)
  }

  ghost predicate IsRun(cfg: Ws.Config, states: seq<State>, steps: seq<Step>)
  {
    && |states| == |steps| + 1 && states[0] == INIT
    && forall i :: 0 <= i < |steps| ==>
         Enabled(cfg, states[i], steps[i]) && states[i + 1] == Apply(cfg, states[i], steps[i])
  }

  lemma GoOn(cfg: Ws.Config, states: seq<State>, steps: seq<Step>, st: Step)
    returns (states': seq<State>, steps': seq<Step>)
    requires IsRun(cfg, states, steps) && Enabled(cfg, states[|steps|], st)
    ensures IsRun(cfg, states', steps') && |steps'| == |steps| + 1
    ensures states'[|steps'|] == Apply(cfg, states[|steps|], st)
    ensures states <= states'
  {
    states', steps' := states + [Apply(cfg, states[|steps|], st)], steps + [st];
  }

  // ---------------------------------------------------------------- one handler

  function InHand(hd: Handler): seq<Msg>
  {
    if hd.w.WTaken? || hd.w.WHolding? || hd.w.WNoStream? then [hd.w.m] else []
  }

  ghost predicate Conserves(hd: Handler)
  {
    && hd.accepted == hd.written + (hd.dropped + InHand(hd)) + hd.send
    && |hd.send| <= Ws.CHANNEL_SIZE
    && |hd.dropped| <= 1
    && (hd.dropped != [] ==> hd.w.WDone?)
  }

  /** The response stream is set once, its signal is closed with it, and all writing goes to it. */
  ghost predicate StreamLaw(hd: Handler)
  {
    && hd.readyCloses == AsOne(hd.responseStream.Some?)
    && (hd.w.WSelect? || hd.w.WTaken? || hd.w.WHolding? ==> hd.responseStream.Some?)
    && (hd.w.WHolding? ==> hd.responseStream == Some(hd.w.to))
    && |hd.writtenTo| == |hd.written|
    && (forall i :: 0 <= i < |hd.writtenTo| ==> hd.responseStream == Some(hd.writtenTo[i]))
    && !hd.w.WNoStream?
    && (hd.responseStream.Some? ==> hd.responseStream.value in hd.streams)
  }

  predicate BeforeConnect(pc: Pc)
  {
    || pc.Rejected? || pc.Checked? || pc.UpgradeFailed? || pc.Created? || pc.AuthGone?
    || pc.Ready? || pc.CountedOnce? || pc.Inserted? || pc.Registered?
  }

  ghost predicate TraceMatches(hd: Handler)
  {
    && (BeforeConnect(hd.pc) ==> hd.events == [] && hd.w.WOff? && hd.streams == map[])
    && (hd.pc.ConnectRefused? ==> hd.events == [Ws.ConnectFailed] && hd.w.WOff? && hd.streams == map[])
    && (hd.pc.Looping? || hd.pc.Accepting? ==> !hd.w.WOff?)
    && (!BeforeConnect(hd.pc) && hd.w.WOff? ==> hd.events == [Ws.ConnectFailed] && hd.streams == map[])
    && (!hd.w.WOff? ==> Ws.MidTrace(hd.events))
  }

  ghost predicate LocalInv(hd: Handler)
  {
    Conserves(hd) && StreamLaw(hd) && TraceMatches(hd) && RefusedIsClosed(hd)
  }

  /** A connection that OnConnect refused is closed before its handler leaves. */
  predicate RefusedIsClosed(hd: Handler)
  {
    hd.w.WOff? && !BeforeConnect(hd.pc) && !hd.pc.ConnectRefused? ==> hd.done
  }

  predicate MovesNoMessage(st: Step)
  {
    !st.WTake? && !st.WWrite? && !st.WLookup? && !st.WReady? && !st.WQuit? && !st.Send? && !st.ConnectReturns?
  }

  lemma MessageFieldsKept(hd: Handler, st: Step)
    requires MovesNoMessage(st)
    ensures var next := NextHandler(hd, st);
            && next.w == hd.w && next.send == hd.send && next.accepted == hd.accepted
            && next.written == hd.written && next.dropped == hd.dropped
  {
  }

  lemma TakeConserves(hd: Handler)
    requires Conserves(hd) && hd.w.WSelect? && hd.send != []
    ensures Conserves(hd.(w := WTaken(hd.send[0]), send := hd.send[1..]))
  {
    assert hd.send == [hd.send[0]] + hd.send[1..];
  }

  lemma LookupConserves(hd: Handler)
    requires Conserves(hd) && hd.w.WTaken?
    ensures Conserves(NextHandler(hd, WLookup(0)))
  {
  }

  lemma WriteConserves(hd: Handler)
    requires Conserves(hd) && hd.w.WHolding?
    ensures Conserves(hd.(w := WSelect, written := hd.written + [hd.w.m], writtenTo := hd.writtenTo + [hd.w.to]))
    ensures Conserves(hd.(w := WDone, dropped := hd.dropped + [hd.w.m]))
  {
    assert hd.dropped == [];
  }

  lemma SendConserves(hd: Handler, m: Msg)
    requires Conserves(hd) && |hd.send| < Ws.CHANNEL_SIZE
    ensures Conserves(hd.(send := hd.send + [m], accepted := hd.accepted + [m]))
  {
    assert hd.accepted + [m] == hd.written + (hd.dropped + InHand(hd)) + (hd.send + [m]);
  }

  lemma StepConserves(cfg: Ws.Config, hd: Handler, stopped: bool, st: Step)
    requires Conserves(hd) && TraceMatches(hd) && LocallyEnabled(cfg, hd, stopped, st)
    ensures Conserves(NextHandler(hd, st))
  {
    if MovesNoMessage(st) {
      MessageFieldsKept(hd, st);
    } else if st.WTake? {
      TakeConserves(hd);
    } else if st.WLookup? {
      LookupConserves(hd);
      assert NextHandler(hd, st) == NextHandler(hd, WLookup(0));
    } else if st.WWrite? {
      WriteConserves(hd);
    } else if st.Send? {
      SendConserves(hd, st.m);
    }
  }

  /** Steps that touch neither the pump nor the response stream. */
  predicate LeavesPump(st: Step)
  {
    && !st.WReady? && !st.WQuit? && !st.WTake? && !st.WLookup? && !st.WWrite? && !st.ConnectReturns?
    && !st.SSet? && !st.AcceptStream? && !st.SEnter? && !st.SRead? && !st.SReturn? && !st.SQuit?
  }

  lemma PumpFieldsKept(hd: Handler, st: Step)
    requires LeavesPump(st)
    ensures var next := NextHandler(hd, st);
            && next.w == hd.w && next.responseStream == hd.responseStream && next.readyCloses == hd.readyCloses
            && next.written == hd.written && next.writtenTo == hd.writtenTo && next.streams == hd.streams
  {
  }

  lemma StreamStepLaw(cfg: Ws.Config, hd: Handler, stopped: bool, st: Step)
    requires StreamLaw(hd) && LocallyEnabled(cfg, hd, stopped, st)
    requires st.SSet? || st.AcceptStream? || st.SEnter? || st.SRead? || st.SReturn? || st.SQuit?
    ensures StreamLaw(NextHandler(hd, st))
  {
    var next := NextHandler(hd, st);
    assert next.w == hd.w && next.written == hd.written && next.writtenTo == hd.writtenTo;
    assert hd.streams.Keys <= next.streams.Keys;
    assert hd.responseStream.Some? ==> next.responseStream == hd.responseStream && next.readyCloses == hd.readyCloses;
  }

  lemma StepKeepsStreamLaw(cfg: Ws.Config, hd: Handler, stopped: bool, st: Step)
    requires StreamLaw(hd) && LocallyEnabled(cfg, hd, stopped, st)
    ensures StreamLaw(NextHandler(hd, st))
  {
    if LeavesPump(st) {
      PumpFieldsKept(hd, st);
    } else if st.SSet? || st.AcceptStream? || st.SEnter? || st.SRead? || st.SReturn? || st.SQuit? {
      StreamStepLaw(cfg, hd, stopped, st);
    } else {
      PumpStepLaw(cfg, hd, stopped, st);
    }
  }

  lemma PumpStepLaw(cfg: Ws.Config, hd: Handler, stopped: bool, st: Step)
    requires StreamLaw(hd) && LocallyEnabled(cfg, hd, stopped, st)
    requires st.WReady? || st.WQuit? || st.WTake? || st.WLookup? || st.WWrite? || st.ConnectReturns?
    ensures StreamLaw(NextHandler(hd, st))
  {
    var next := NextHandler(hd, st);
    assert next.responseStream == hd.responseStream && next.readyCloses == hd.readyCloses && next.streams == hd.streams;
    if !st.WWrite? { assert next.written == hd.written && next.writtenTo == hd.writtenTo; }
  }

  lemma ReadTrace(hd: Handler, st: Step)
    requires TraceMatches(hd) && st.SRead? && hd.streams != map[]
    ensures TraceMatches(NextHandler(hd, st))
  {
    assert forall i :: 1 <= i < |hd.events| ==> NextHandler(hd, st).events[i] == hd.events[i];
  }

  lemma ConnectTrace(hd: Handler, st: Step)
    requires TraceMatches(hd) && st.ConnectReturns? && hd.pc.Registered?
    ensures TraceMatches(NextHandler(hd, st))
  {
    assert NextHandler(hd, st).events == [if st.ok then Ws.ConnectOk else Ws.ConnectFailed];
  }

  lemma QuietTrace(cfg: Ws.Config, hd: Handler, stopped: bool, st: Step)
    requires TraceMatches(hd) && StreamLaw(hd) && LocallyEnabled(cfg, hd, stopped, st)
    requires !st.SRead? && !st.ConnectReturns?
    ensures TraceMatches(NextHandler(hd, st))
  {
    assert NextHandler(hd, st).events == hd.events;
  }

  lemma StepKeepsTrace(cfg: Ws.Config, hd: Handler, stopped: bool, st: Step)
    requires TraceMatches(hd) && StreamLaw(hd) && LocallyEnabled(cfg, hd, stopped, st)
    ensures TraceMatches(NextHandler(hd, st))
  {
    if st.SRead? {
      ReadTrace(hd, st);
    } else if st.ConnectReturns? {
      ConnectTrace(hd, st);
    } else {
      QuietTrace(cfg, hd, stopped, st);
    }
  }

  lemma StepClosesRefused(cfg: Ws.Config, hd: Handler, stopped: bool, st: Step)
    requires RefusedIsClosed(hd) && TraceMatches(hd) && LocallyEnabled(cfg, hd, stopped, st)
    ensures RefusedIsClosed(NextHandler(hd, st))
  {
  }

  // ---------------------------------------------------------------- the shared state

  /** Past the first increment, for ever. */
  predicate Admitted(hd: Handler)
  {
    || hd.pc.CountedOnce? || hd.pc.Inserted? || hd.pc.Registered? || hd.pc.ConnectRefused?
    || hd.pc.Looping? || hd.pc.Accepting? || hd.pc.Leaving? || hd.pc.Deleted? || hd.pc.Gone?
  }

  /** Between the second increment and the decrement. */
  predicate FullyRegistered(hd: Handler)
  {
    || hd.pc.Registered? || hd.pc.ConnectRefused? || hd.pc.Looping? || hd.pc.Accepting?
    || hd.pc.Leaving? || hd.pc.Deleted?
  }

  predicate BetweenIncrements(hd: Handler) { hd.pc.CountedOnce? || hd.pc.Inserted? }
  predicate Finished(hd: Handler) { hd.pc.Gone? }
  predicate LiveSession(hd: Handler) { Admitted(hd) && !Finished(hd) }
  predicate PastSecond(hd: Handler) { FullyRegistered(hd) || Finished(hd) }

  /** Between the limit check and the first increment. */
  predicate InWindow(hd: Handler) { hd.pc.Checked? || hd.pc.Created? || hd.pc.Ready? }

  predicate InTable(hd: Handler)
  {
    || hd.pc.Inserted? || hd.pc.Registered? || hd.pc.ConnectRefused?
    || hd.pc.Looping? || hd.pc.Accepting? || hd.pc.Leaving?
  }

  ghost predicate AllLocal(s: State)
  {
    forall h :: h in s.handlers ==> LocalInv(s.handlers[h])
  }

  ghost predicate CountExact(s: State)
  {
    s.connCount == Count(s.handlers, Admitted) + Count(s.handlers, FullyRegistered)
  }

  ghost predicate TableExact(s: State)
  {
    s.connections == Where(s.handlers, InTable)
  }

  ghost predicate Inv(s: State)
  {
    AllLocal(s) && CountExact(s) && TableExact(s)
  }

  lemma LocalCount(cfg: Ws.Config, hd: Handler, stopped: bool, st: Step)
    requires LocallyEnabled(cfg, hd, stopped, st)
    ensures AsOne(Admitted(NextHandler(hd, st))) + AsOne(FullyRegistered(NextHandler(hd, st)))
         == AsOne(Admitted(hd)) + AsOne(FullyRegistered(hd)) + CountDelta(st)
  {
  }

  lemma LocalAdmission(cfg: Ws.Config, hd: Handler, stopped: bool, st: Step)
    requires LocallyEnabled(cfg, hd, stopped, st)
    ensures Admitted(hd) ==> Admitted(NextHandler(hd, st))
    ensures Admitted(NextHandler(hd, st)) || InWindow(NextHandler(hd, st)) ==> Admitted(hd) || InWindow(hd)
  {
  }

  lemma LocalTable(cfg: Ws.Config, hd: Handler, stopped: bool, st: Step)
    requires LocallyEnabled(cfg, hd, stopped, st)
    ensures InTable(NextHandler(hd, st)) == (st.Insert? || (InTable(hd) && !st.Delete?))
  {
  }

  /** What replacing one handler does to the law, whatever the step was. */
  lemma CountAfter(handlers: map<Id, Handler>, h: Id, next: Handler, delta: int)
    requires AsOne(Admitted(next)) + AsOne(FullyRegistered(next))
          == AsOne(h in handlers && Admitted(handlers[h])) + AsOne(h in handlers && FullyRegistered(handlers[h]))
             + delta
    ensures Count(handlers[h := next], Admitted) + Count(handlers[h := next], FullyRegistered)
         == Count(handlers, Admitted) + Count(handlers, FullyRegistered) + delta
  {
    CountUpdate(handlers, h, next, Admitted);
    CountUpdate(handlers, h, next, FullyRegistered);
  }

  lemma ArriveKeepsCount(cfg: Ws.Config, s: State, st: Step)
    requires CountExact(s) && Enabled(cfg, s, st) && st.Arrive?
    ensures CountExact(Apply(cfg, s, st))
  {
    CountAfter(s.handlers, st.h, NewHandler(if OverLimit(cfg, s) then Rejected else Checked), 0);
  }

  lemma StepKeepsCount(cfg: Ws.Config, s: State, st: Step)
    requires CountExact(s) && Enabled(cfg, s, st)
    ensures CountExact(Apply(cfg, s, st))
  {
    if st.Arrive? {
      ArriveKeepsCount(cfg, s, st);
    } else {
      var next := Apply(cfg, s, st).handlers[st.h];
      LocalCount(cfg, s.handlers[st.h], s.stopped, st);
      CountAfter(s.handlers, st.h, next, CountDelta(st));
    }
  }

  lemma TableAfter(handlers: map<Id, Handler>, table: set<Id>, h: Id, next: Handler, added: bool, removed: bool)
    requires table == Where(handlers, InTable)
    requires InTable(next) == (added || (h in handlers && InTable(handlers[h]) && !removed))
    requires !(added && removed)
    ensures (if added then table + {h} else if removed then table - {h} else table)
         == Where(handlers[h := next], InTable)
  {
    CountUpdate(handlers, h, next, InTable);
  }

  lemma StepKeepsTable(cfg: Ws.Config, s: State, st: Step)
    requires TableExact(s) && Enabled(cfg, s, st)
    ensures TableExact(Apply(cfg, s, st))
  {
    if st.Arrive? {
      TableAfter(s.handlers, s.connections, st.h, Apply(cfg, s, st).handlers[st.h], false, false);
    } else {
      LocalTable(cfg, s.handlers[st.h], s.stopped, st);
      TableAfter(s.handlers, s.connections, st.h, Apply(cfg, s, st).handlers[st.h], st.Insert?, st.Delete?);
    }
  }

  lemma StepKeepsLocal(cfg: Ws.Config, hd: Handler, stopped: bool, st: Step)
    requires LocalInv(hd) && LocallyEnabled(cfg, hd, stopped, st)
    ensures LocalInv(NextHandler(hd, st))
  {
    StepConserves(cfg, hd, stopped, st);
    StepKeepsStreamLaw(cfg, hd, stopped, st);
    StepKeepsTrace(cfg, hd, stopped, st);
    StepClosesRefused(cfg, hd, stopped, st);
  }

  lemma FreshLocal(pc: Pc)
    requires pc.Rejected? || pc.Checked?
    ensures LocalInv(NewHandler(pc))
  {
  }

  lemma StepKeepsAllLocal(cfg: Ws.Config, s: State, st: Step)
    requires AllLocal(s) && Enabled(cfg, s, st)
    ensures AllLocal(Apply(cfg, s, st))
  {
    if st.Arrive? {
      FreshLocal(if OverLimit(cfg, s) then Rejected else Checked);
    } else {
      StepKeepsLocal(cfg, s.handlers[st.h], s.stopped, st);
    }
  }

  lemma StepKeepsInv(cfg: Ws.Config, s: State, st: Step)
    requires Inv(s) && Enabled(cfg, s, st)
    ensures Inv(Apply(cfg, s, st))
  {
    StepKeepsAllLocal(cfg, s, st);
    StepKeepsCount(cfg, s, st);
    StepKeepsTable(cfg, s, st);
  }

  lemma InitInv()
    ensures Inv(INIT)
  {
    CountEmpty<Id, Handler>(Admitted);
    CountEmpty<Id, Handler>(FullyRegistered);
    assert Where(INIT.handlers, InTable) == {};
  }

  lemma {:induction false} ReachableInv(cfg: Ws.Config, states: seq<State>, steps: seq<Step>, i: nat)
    requires IsRun(cfg, states, steps) && i < |states|
    ensures Inv(states[i])
    decreases i
  {
    if i == 0 {
      InitInv();
    } else {
      ReachableInv(cfg, states, steps, i - 1);
      StepKeepsInv(cfg, states[i - 1], steps[i - 1]);
    }
  }

  lemma ReachableCount(cfg: Ws.Config, states: seq<State>, steps: seq<Step>, i: nat)
    requires IsRun(cfg, states, steps) && i < |states|
    ensures CountExact(states[i])
  {
    ReachableInv(cfg, states, steps, i);
  }

  // ---------------------------------------------------------------- the counter

  /** What the counter really is: twice the fully registered sessions, plus those between the two increments, plus
      every session that ever finished. */
  lemma CounterLaw(cfg: Ws.Config, states: seq<State>, steps: seq<Step>, i: nat)
    requires IsRun(cfg, states, steps) && i < |states|
    ensures var hs := states[i].handlers;
            states[i].connCount == 2 * Count(hs, FullyRegistered) + Count(hs, BetweenIncrements) + Count(hs, Finished)
  {
    ReachableCount(cfg, states, steps, i);
    var hs := states[i].handlers;
    CountSplit(hs, LiveSession, Finished, Admitted);
    CountSplit(hs, FullyRegistered, BetweenIncrements, LiveSession);
  }

  /** It is the number of live sessions, as intended, exactly as long as no session has reached its second increment. */
  lemma CountsLiveSessionsIff(cfg: Ws.Config, states: seq<State>, steps: seq<Step>, i: nat)
    requires IsRun(cfg, states, steps) && i < |states|
    ensures var hs := states[i].handlers;
            states[i].connCount == Count(hs, LiveSession) <==> Count(hs, PastSecond) == 0
  {
    CounterLaw(cfg, states, steps, i);
    var hs := states[i].handlers;
    CountSplit(hs, FullyRegistered, BetweenIncrements, LiveSession);
    CountSplit(hs, FullyRegistered, Finished, PastSecond);
  }

  lemma AdmittedAfter(handlers: map<Id, Handler>, h: Id, next: Handler)
    requires h in handlers && Admitted(handlers[h]) ==> Admitted(next)
    ensures Count(handlers, Admitted) <= Count(handlers[h := next], Admitted)
    ensures (Admitted(next) || InWindow(next) ==> h in handlers && (Admitted(handlers[h]) || InWindow(handlers[h]))) ==>
              Count(handlers[h := next], Admitted) + Count(handlers[h := next], InWindow)
              <= Count(handlers, Admitted) + Count(handlers, InWindow)
    ensures h !in handlers && !Admitted(next) ==> Count(handlers[h := next], Admitted) == Count(handlers, Admitted)
  {
    CountUpdate(handlers, h, next, Admitted);
    CountUpdate(handlers, h, next, InWindow);
  }

  /** Admissions and handlers in the window grow together only when a request passes the check. */
  lemma AdmittedStep(cfg: Ws.Config, s: State, st: Step)
    requires Enabled(cfg, s, st)
    ensures var s' := Apply(cfg, s, st);
            && Count(s.handlers, Admitted) <= Count(s'.handlers, Admitted)
            && ((st.Arrive? && !OverLimit(cfg, s))
                || Count(s'.handlers, Admitted) + Count(s'.handlers, InWindow)
                   <= Count(s.handlers, Admitted) + Count(s.handlers, InWindow))
            && (st.Arrive? ==> Count(s'.handlers, Admitted) == Count(s.handlers, Admitted))
  {
    if st.Arrive? {
      AdmittedAfter(s.handlers, st.h, NewHandler(if OverLimit(cfg, s) then Rejected else Checked));
    } else {
      LocalAdmission(cfg, s.handlers[st.h], s.stopped, st);
      AdmittedAfter(s.handlers, st.h, NextHandler(s.handlers[st.h], st));
    }
  }

  lemma LifetimeStep(cfg: Ws.Config, s: State, st: Step, w: nat)
    requires Enabled(cfg, s, st) && CountExact(s) && cfg.maxConnections >= 1
    requires Count(s.handlers, Admitted) + Count(s.handlers, InWindow) <= cfg.maxConnections - 1 + w
    requires Count(Apply(cfg, s, st).handlers, InWindow) <= w
    ensures var s' := Apply(cfg, s, st);
            Count(s'.handlers, Admitted) + Count(s'.handlers, InWindow) <= cfg.maxConnections - 1 + w
  {
    AdmittedStep(cfg, s, st);
  }

  ghost predicate WindowWithin(states: seq<State>, w: nat)
  {
    forall j :: 0 <= j < |states| ==> Count(states[j].handlers, InWindow) <= w
  }

  /** With a limit, the sessions admitted over the server's whole lifetime are bounded. */
  lemma {:induction false} LifetimeAdmissions(cfg: Ws.Config, states: seq<State>, steps: seq<Step>, w: nat, i: nat)
    requires IsRun(cfg, states, steps) && i < |states| && cfg.maxConnections >= 1 && WindowWithin(states, w)
    ensures Count(states[i].handlers, Admitted) + Count(states[i].handlers, InWindow) <= cfg.maxConnections - 1 + w
    decreases i
  {
    if i == 0 {
      CountEmpty<Id, Handler>(InWindow);
      CountEmpty<Id, Handler>(Admitted);
      assert states[0].handlers == map[];
    } else {
      LifetimeAdmissions(cfg, states, steps, w, i - 1);
      ReachableCount(cfg, states, steps, i - 1);
      assert Count(states[i].handlers, InWindow) <= w;
      LifetimeStep(cfg, states[i - 1], steps[i - 1], w);
    }
  }

  /** Requests `0 .. arrived` have passed the check, the first `counted` of them are counted once. */
  ghost predicate Burst(s: State, counted: nat, arrived: nat)
  {
    && s.connCount == counted <= arrived
    && Count(s.handlers, InWindow) == arrived - counted && Count(s.handlers, Admitted) == counted
    && (forall h: Id :: h in s.handlers <==> h < arrived)
    && forall h :: h in s.handlers ==> if h < counted then s.handlers[h].pc.CountedOnce? else s.handlers[h].pc.Checked?
  }

  /** `mid` is `s` with the next handler to be counted further on, but still in the window. */
  ghost predicate Between(s: State, mid: State, counted: nat, pc: Pc)
    requires counted in s.handlers
  {
    && mid.handlers == s.handlers[counted := s.handlers[counted].(pc := pc)] && mid.connCount == s.connCount
    && Count(mid.handlers, InWindow) == Count(s.handlers, InWindow)
    && Count(mid.handlers, Admitted) == Count(s.handlers, Admitted)
  }

  lemma TakeStep(cfg: Ws.Config, states: seq<State>, steps: seq<Step>, st: Step, w: nat)
    returns (states': seq<State>, steps': seq<Step>)
    requires IsRun(cfg, states, steps) && WindowWithin(states, w) && Enabled(cfg, states[|steps|], st)
    requires Count(Apply(cfg, states[|steps|], st).handlers, InWindow) <= w
    ensures IsRun(cfg, states', steps') && WindowWithin(states', w)
    ensures states'[|steps'|] == Apply(cfg, states[|steps|], st)
  {
    states', steps' := states + [Apply(cfg, states[|steps|], st)], steps + [st];
  }

  lemma EntersWindow(handlers: map<Id, Handler>, h: Id)
    requires h !in handlers
    ensures Count(handlers[h := NewHandler(Checked)], InWindow) == Count(handlers, InWindow) + 1
    ensures Count(handlers[h := NewHandler(Checked)], Admitted) == Count(handlers, Admitted)
  {
    CountUpdate(handlers, h, NewHandler(Checked), InWindow);
    CountUpdate(handlers, h, NewHandler(Checked), Admitted);
  }

  lemma LeavesWindow(handlers: map<Id, Handler>, h: Id, next: Handler)
    requires h in handlers && handlers[h].pc.Ready? && next.pc.CountedOnce?
    ensures Count(handlers[h := next], InWindow) == Count(handlers, InWindow) - 1
    ensures Count(handlers[h := next], Admitted) == Count(handlers, Admitted) + 1
  {
    CountUpdate(handlers, h, next, InWindow);
    CountUpdate(handlers, h, next, Admitted);
  }

  lemma ArriveInBurst(cfg: Ws.Config, s: State, counted: nat, arrived: nat)
    requires Burst(s, counted, arrived) && counted < cfg.maxConnections
    ensures Enabled(cfg, s, Arrive(arrived)) && Burst(Apply(cfg, s, Arrive(arrived)), counted, arrived + 1)
  {
    EntersWindow(s.handlers, arrived);
  }

  lemma MovesInWindow(s: State, counted: nat, pc: Pc)
    requires counted in s.handlers && s.handlers[counted].pc.Checked? && (pc.Created? || pc.Ready?)
    ensures var handlers := s.handlers[counted := s.handlers[counted].(pc := pc)];
            && Count(handlers, InWindow) == Count(s.handlers, InWindow)
            && Count(handlers, Admitted) == Count(s.handlers, Admitted)
  {
    CountUpdate(s.handlers, counted, s.handlers[counted].(pc := pc), InWindow);
    CountUpdate(s.handlers, counted, s.handlers[counted].(pc := pc), Admitted);
  }

  lemma UpgradeInBurst(cfg: Ws.Config, s: State, counted: nat)
    requires counted in s.handlers && s.handlers[counted].pc.Checked?
    ensures Enabled(cfg, s, Upgrade(counted, true))
    ensures Between(s, Apply(cfg, s, Upgrade(counted, true)), counted, Created)
  {
    MovesInWindow(s, counted, Created);
  }

  lemma AuthenticateInBurst(cfg: Ws.Config, s: State, mid: State, counted: nat)
    requires counted in s.handlers && s.handlers[counted].pc.Checked? && Between(s, mid, counted, Created)
    ensures Enabled(cfg, mid, Authenticate(counted, true))
    ensures Between(s, Apply(cfg, mid, Authenticate(counted, true)), counted, Ready)
  {
    MovesInWindow(s, counted, Ready);
    assert Apply(cfg, mid, Authenticate(counted, true)).handlers
        == s.handlers[counted := s.handlers[counted].(pc := Ready)];
  }

  lemma CountInBurst(cfg: Ws.Config, s: State, mid: State, counted: nat, arrived: nat)
    requires Burst(s, counted, arrived) && counted < arrived && Between(s, mid, counted, Ready)
    ensures Enabled(cfg, mid, CountFirst(counted)) && Burst(Apply(cfg, mid, CountFirst(counted)), counted + 1, arrived)
  {
    LeavesWindow(mid.handlers, counted, mid.handlers[counted].(pc := CountedOnce));
  }

  lemma BurstArrive(cfg: Ws.Config, states: seq<State>, steps: seq<Step>, counted: nat, arrived: nat, w: nat)
    returns (states': seq<State>, steps': seq<Step>)
    requires IsRun(cfg, states, steps) && WindowWithin(states, w) && Burst(states[|steps|], counted, arrived)
    requires counted < cfg.maxConnections && arrived + 1 - counted <= w
    ensures IsRun(cfg, states', steps') && WindowWithin(states', w) && Burst(states'[|steps'|], counted, arrived + 1)
  {
    ArriveInBurst(cfg, states[|steps|], counted, arrived);
    states', steps' := TakeStep(cfg, states, steps, Arrive(arrived), w);
  }

  lemma BurstCount(cfg: Ws.Config, states: seq<State>, steps: seq<Step>, counted: nat, arrived: nat, w: nat)
    returns (states': seq<State>, steps': seq<Step>)
    requires IsRun(cfg, states, steps) && WindowWithin(states, w) && Burst(states[|steps|], counted, arrived)
    requires counted < arrived
    ensures IsRun(cfg, states', steps') && WindowWithin(states', w) && Burst(states'[|steps'|], counted + 1, arrived)
  {
    var s := states[|steps|];
    assert Count(s.handlers, InWindow) <= w;
    UpgradeInBurst(cfg, s, counted);
    states', steps' := TakeStep(cfg, states, steps, Upgrade(counted, true), w);
    AuthenticateInBurst(cfg, s, states'[|steps'|], counted);
    states', steps' := TakeStep(cfg, states', steps', Authenticate(counted, true), w);
    CountInBurst(cfg, s, states'[|steps'|], counted, arrived);
    states', steps' := TakeStep(cfg, states', steps', CountFirst(counted), w);
  }

  /** And the bound is reached, for every limit and every window width. */
  lemma LifetimeBoundIsReached(cfg: Ws.Config, w: nat) returns (states: seq<State>, steps: seq<Step>)
    requires cfg.maxConnections >= 1 && w >= 1
    ensures IsRun(cfg, states, steps) && WindowWithin(states, w)
    ensures Count(states[|steps|].handlers, Admitted) == cfg.maxConnections - 1 + w
  {
    states, steps := [INIT], [];
    CountEmpty<Id, Handler>(InWindow);
    CountEmpty<Id, Handler>(Admitted);
    var n := 0;
    while n < cfg.maxConnections - 1
      invariant 0 <= n <= cfg.maxConnections - 1
      invariant IsRun(cfg, states, steps) && WindowWithin(states, w) && Burst(states[|steps|], n, n)
    {
      states, steps := BurstArrive(cfg, states, steps, n, n, w);
      states, steps := BurstCount(cfg, states, steps, n, n + 1, w);
      n := n + 1;
    }
    var a := n;
    while a < n + w
      invariant n <= a <= n + w
      invariant IsRun(cfg, states, steps) && WindowWithin(states, w) && Burst(states[|steps|], n, a)
    {
      states, steps := BurstArrive(cfg, states, steps, n, a, w);
      a := a + 1;
    }
    var c := n;
    while c < a
      invariant n <= c <= a
      invariant IsRun(cfg, states, steps) && WindowWithin(states, w) && Burst(states[|steps|], c, a)
    {
      states, steps := BurstCount(cfg, states, steps, c, a, w);
      c := c + 1;
    }
  }

  /** Once as many sessions as the limit have been admitted, every later request is rejected, for ever. */
  lemma RejectionIsPermanent(cfg: Ws.Config, states: seq<State>, steps: seq<Step>, i: nat, j: nat)
    requires IsRun(cfg, states, steps) && i <= j < |states| && cfg.maxConnections >= 1
    requires Count(states[i].handlers, Admitted) >= cfg.maxConnections
    ensures Count(states[j].handlers, Admitted) >= cfg.maxConnections
    ensures OverLimit(cfg, states[j])
    ensures j < |steps| && steps[j].Arrive? ==> states[j + 1].handlers[steps[j].h].pc.Rejected?
  {
    AdmittedForEver(cfg, states, steps, i, j);
    ReachableCount(cfg, states, steps, j);
  }

  lemma {:induction false} AdmittedForEver(cfg: Ws.Config, states: seq<State>, steps: seq<Step>, i: nat, j: nat)
    requires IsRun(cfg, states, steps) && i <= j < |states|
    ensures Count(states[i].handlers, Admitted) <= Count(states[j].handlers, Admitted)
    decreases j
  {
    if i < j {
      AdmittedForEver(cfg, states, steps, i, j - 1);
      AdmittedStep(cfg, states[j - 1], steps[j - 1]);
    }
  }

  /** The quickest way out for a live session: its next own step. */
  function FinishMove(h: Id, hd: Handler, stopped: bool): Step
  {
    match hd.pc
    case CountedOnce => Insert(h)
    case Inserted => CountSecond(h)
    case Registered => ConnectReturns(h, false)
    case ConnectRefused => CloseRefused(h)
    case Looping => if stopped || hd.done then StopAccepting(h) else EnterAccept(h)
    case Accepting => StopAccepting(h)
    case Leaving => Delete(h)
    case _ => Uncount(h)
  }

  function Remaining(pc: Pc): nat
  {
    match pc
    case CountedOnce => 7 case Inserted => 6 case Registered => 5 case ConnectRefused => 3
    case Looping => 4 case Accepting => 3 case Leaving => 2 case Deleted => 1 case _ => 0
  }

  lemma FinishMoveProgress(cfg: Ws.Config, h: Id, hd: Handler, stopped: bool)
    requires LiveSession(hd)
    ensures LocallyEnabled(cfg, hd, stopped, FinishMove(h, hd, stopped)) && FinishMove(h, hd, stopped).h == h
    ensures var next := NextHandler(hd, FinishMove(h, hd, stopped));
            Admitted(next) && Remaining(next.pc) < Remaining(hd.pc) && (LiveSession(next) || Finished(next))
  {
  }

  lemma {:induction false} FinishSession(cfg: Ws.Config, states: seq<State>, steps: seq<Step>, h: Id)
    returns (states': seq<State>, steps': seq<Step>)
    requires IsRun(cfg, states, steps) && h in states[|steps|].handlers && LiveSession(states[|steps|].handlers[h])
    ensures IsRun(cfg, states', steps') && states <= states'
    ensures var s, s' := states[|steps|], states'[|steps'|];
            && Where(s'.handlers, LiveSession) == Where(s.handlers, LiveSession) - {h}
            && Count(s'.handlers, Admitted) == Count(s.handlers, Admitted)
    decreases Remaining(states[|steps|].handlers[h].pc)
  {
    var s := states[|steps|];
    var hd := s.handlers[h];
    var st := FinishMove(h, hd, s.stopped);
    FinishMoveProgress(cfg, h, hd, s.stopped);
    var next := NextHandler(hd, st);
    CountUpdate(s.handlers, h, next, LiveSession);
    CountUpdate(s.handlers, h, next, Admitted);
    states', steps' := GoOn(cfg, states, steps, st);
    assert states'[|steps'|].handlers == s.handlers[h := next];
    if LiveSession(next) {
      states', steps' := FinishSession(cfg, states', steps', h);
    }
  }

  lemma {:induction false} FinishAll(cfg: Ws.Config, states: seq<State>, steps: seq<Step>)
    returns (states': seq<State>, steps': seq<Step>)
    requires IsRun(cfg, states, steps)
    ensures IsRun(cfg, states', steps') && states <= states'
    ensures Count(states'[|steps'|].handlers, LiveSession) == 0
    ensures Count(states'[|steps'|].handlers, Admitted) == Count(states[|steps|].handlers, Admitted)
    decreases Count(states[|steps|].handlers, LiveSession)
  {
    states', steps' := states, steps;
    var live := Where(states[|steps|].handlers, LiveSession);
    if live != {} {
      var h :| h in live;
      states', steps' := FinishSession(cfg, states, steps, h);
      states', steps' := FinishAll(cfg, states', steps');
    }
  }

  lemma {:induction false} UpperBound(ids: set<Id>) returns (b: Id)
    ensures forall x :: x in ids ==> x < b
    decreases |ids|
  {
    b := 0;
    if ids != {} {
      var x :| x in ids;
      var rest := UpperBound(ids - {x});
      b := if x < rest then rest else x + 1;
      assert forall y :: y in ids ==> y == x || y in ids - {x};
    }
  }

  /** And only then: while fewer sessions than the limit have ever been admitted, the run can go on to a state where the
      live ones have left and a new request passes the check. */
  lemma ServiceCanResume(cfg: Ws.Config, states: seq<State>, steps: seq<Step>)
    returns (states': seq<State>, steps': seq<Step>, h: Id)
    requires IsRun(cfg, states, steps) && cfg.maxConnections >= 1
    requires Count(states[|steps|].handlers, Admitted) < cfg.maxConnections
    ensures IsRun(cfg, states', steps') && states <= states'
    ensures h !in states[|steps|].handlers
    ensures h in states'[|steps'|].handlers && states'[|steps'|].handlers[h].pc.Checked?
  {
    states', steps' := FinishAll(cfg, states, steps);
    var s := states'[|steps'|];
    CounterLaw(cfg, states', steps', |steps'|);
    CountSplit(s.handlers, LiveSession, Finished, Admitted);
    CountSplit(s.handlers, FullyRegistered, BetweenIncrements, LiveSession);
    h := UpperBound(s.handlers.Keys + states[|steps|].handlers.Keys);
    states', steps' := GoOn(cfg, states', steps', Arrive(h));
  }

  /** One step of the only handler there is, given the handler it leads to. */
  lemma Alone(cfg: Ws.Config, states: seq<State>, steps: seq<Step>, hd: Handler, st: Step, next: Handler, count: int)
    returns (states': seq<State>, steps': seq<Step>)
    requires IsRun(cfg, states, steps) && st.h == 0 && !st.Arrive?
    requires states[|steps|].handlers == map[0 := hd] && states[|steps|].connCount == count
    requires LocallyEnabled(cfg, hd, states[|steps|].stopped, st) && next == NextHandler(hd, st)
    ensures IsRun(cfg, states', steps')
    ensures states'[|steps'|].handlers == map[0 := next]
    ensures states'[|steps'|].connCount == count + CountDelta(st)
    ensures states'[|steps'|].stopped == (states[|steps|].stopped || st.Stop?)
  {
    states', steps' := GoOn(cfg, states, steps, st);
  }

  lemma FirstChecked(cfg: Ws.Config) returns (states: seq<State>, steps: seq<Step>)
    requires 0 <= cfg.maxConnections
    ensures IsRun(cfg, states, steps) && states[|steps|].connCount == 0 && !states[|steps|].stopped
    ensures states[|steps|].handlers == map[0 := NewHandler(Checked)]
  {
    states, steps := [INIT], [];
    states, steps := GoOn(cfg, states, steps, Arrive(0));
  }

  lemma ToCountedOnce(cfg: Ws.Config, states: seq<State>, steps: seq<Step>)
    returns (states': seq<State>, steps': seq<Step>)
    requires IsRun(cfg, states, steps) && states[|steps|].connCount == 0
    requires states[|steps|].handlers == map[0 := NewHandler(Checked)]
    ensures IsRun(cfg, states', steps') && states'[|steps'|].connCount == 1
    ensures states'[|steps'|].stopped == states[|steps|].stopped
    ensures states'[|steps'|].handlers == map[0 := NewHandler(CountedOnce)]
  {
    states', steps' := Alone(cfg, states, steps, NewHandler(Checked), Upgrade(0, true), NewHandler(Created), 0);
    states', steps' := Alone(cfg, states', steps', NewHandler(Created), Authenticate(0, true), NewHandler(Ready), 0);
    states', steps' := Alone(cfg, states', steps', NewHandler(Ready), CountFirst(0), NewHandler(CountedOnce), 0);
  }

  lemma ToRegistered(cfg: Ws.Config, states: seq<State>, steps: seq<Step>)
    returns (states': seq<State>, steps': seq<Step>)
    requires IsRun(cfg, states, steps) && states[|steps|].connCount == 0
    requires states[|steps|].handlers == map[0 := NewHandler(Checked)]
    ensures IsRun(cfg, states', steps') && states'[|steps'|].connCount == 2
    ensures states'[|steps'|].stopped == states[|steps|].stopped
    ensures states'[|steps'|].handlers == map[0 := NewHandler(Registered)]
  {
    states', steps' := ToCountedOnce(cfg, states, steps);
    states', steps' := Alone(cfg, states', steps', NewHandler(CountedOnce), Insert(0), NewHandler(Inserted), 1);
    states', steps' := Alone(cfg, states', steps', NewHandler(Inserted), CountSecond(0), NewHandler(Registered), 1);
  }

  /** The first session's handler once connected, as long as it has no stream. */
  function WithoutStream(pc: Pc): Handler
  {
    NewHandler(pc).(w := WWaiting, events := [Ws.ConnectOk])
  }

  /** A first session up to its accept loop. */
  lemma FirstSession(cfg: Ws.Config) returns (states: seq<State>, steps: seq<Step>)
    requires 0 <= cfg.maxConnections
    ensures IsRun(cfg, states, steps) && !states[|steps|].stopped
    ensures states[|steps|].connCount == 2
    ensures states[|steps|].handlers == map[0 := WithoutStream(Looping)]
  {
    states, steps := FirstChecked(cfg);
    states, steps := ToRegistered(cfg, states, steps);
    states, steps := Alone(cfg, states, steps, NewHandler(Registered), ConnectReturns(0, true), WithoutStream(Looping),
                           2);
  }

  lemma FirstLeaving(cfg: Ws.Config) returns (states: seq<State>, steps: seq<Step>)
    requires 0 <= cfg.maxConnections
    ensures IsRun(cfg, states, steps) && states[|steps|].connCount == 2
    ensures states[|steps|].handlers == map[0 := WithoutStream(Leaving)]
  {
    states, steps := FirstSession(cfg);
    states, steps := Alone(cfg, states, steps, WithoutStream(Looping), EnterAccept(0), WithoutStream(Accepting), 2);
    states, steps := Alone(cfg, states, steps, WithoutStream(Accepting), StopAccepting(0), WithoutStream(Leaving), 2);
  }

  lemma FirstGone(cfg: Ws.Config) returns (states: seq<State>, steps: seq<Step>)
    requires 0 <= cfg.maxConnections
    ensures IsRun(cfg, states, steps) && states[|steps|].connCount == 1
    ensures states[|steps|].handlers == map[0 := WithoutStream(Gone)]
  {
    states, steps := FirstLeaving(cfg);
    states, steps := Alone(cfg, states, steps, WithoutStream(Leaving), Delete(0), WithoutStream(Deleted), 2);
    states, steps := Alone(cfg, states, steps, WithoutStream(Deleted), Uncount(0), WithoutStream(Gone), 2);
  }

  /** The shortest such run: with a limit of one, a single session comes and goes; nobody is connected, and the counter
      stays at the limit. */
  lemma OneSessionExhaustsServer() returns (states: seq<State>, steps: seq<Step>)
    ensures var cfg := Ws.Config(1, false);
            && IsRun(cfg, states, steps)
            && var s := states[|steps|];
               && s.handlers.Keys == {0} && s.handlers[0].pc.Gone? && s.connections == {}
               && s.connCount == 1 && OverLimit(cfg, s)
               && !s.handlers[0].done && s.handlers[0].w.WWaiting?
  {
    var cfg := Ws.Config(1, false);
    states, steps := FirstGone(cfg);
    ReachableInv(cfg, states, steps, |steps|);
    assert Where(states[|steps|].handlers, InTable) == {};
  }

  // ---------------------------------------------------------------- streams and messages

  /** Over any number of concurrent streams: `streamReady` is closed exactly when the response stream is set, never
      twice; every write goes to that stream; and the "no response stream" exit is never taken. */
  lemma ResponseStreamLaw(cfg: Ws.Config, states: seq<State>, steps: seq<Step>, i: nat, h: Id)
    requires IsRun(cfg, states, steps) && i < |states| && h in states[i].handlers
    ensures var hd := states[i].handlers[h];
            && (hd.readyCloses > 0 <==> hd.responseStream.Some?)
            && hd.readyCloses <= 1
            && |hd.writtenTo| == |hd.written|
            && (forall k :: 0 <= k < |hd.writtenTo| ==> hd.responseStream == Some(hd.writtenTo[k]))
            && !hd.w.WNoStream?
  {
    ReachableInv(cfg, states, steps, i);
    assert LocalInv(states[i].handlers[h]);
  }

  /** Once set, the response stream never changes. */
  lemma {:induction false} ResponseStreamIsFinal(cfg: Ws.Config, states: seq<State>, steps: seq<Step>, i: nat, j: nat,
                                                 h: Id)
    requires IsRun(cfg, states, steps) && i <= j < |states|
    requires h in states[i].handlers && states[i].handlers[h].responseStream.Some?
    ensures h in states[j].handlers && states[j].handlers[h].responseStream == states[i].handlers[h].responseStream
    decreases j
  {
    if i < j {
      ResponseStreamIsFinal(cfg, states, steps, i, j - 1, h);
      if steps[j - 1].h == h { FirstStreamWins(states[j - 1].handlers[h], steps[j - 1]); }
    }
  }

  lemma FirstStreamWins(hd: Handler, st: Step)
    requires hd.responseStream.Some?
    ensures NextHandler(hd, st).responseStream == hd.responseStream
  {
  }

  /** First in, first out, as for WebSocket connections. */
  lemma FifoConservation(cfg: Ws.Config, states: seq<State>, steps: seq<Step>, i: nat, h: Id)
    requires IsRun(cfg, states, steps) && i < |states| && h in states[i].handlers
    ensures var hd := states[i].handlers[h];
            && hd.accepted == hd.written + (hd.dropped + InHand(hd)) + hd.send
            && hd.written <= hd.accepted
            && |hd.send| <= Ws.CHANNEL_SIZE && |hd.dropped| <= 1
            && (hd.dropped != [] ==> hd.w.WDone?)
  {
    ReachableInv(cfg, states, steps, i);
    assert LocalInv(states[i].handlers[h]);
  }

  /** Nothing is written after a failed write. */
  lemma {:induction false} NothingAfterFailedWrite(cfg: Ws.Config, states: seq<State>, steps: seq<Step>, i: nat,
                                                   j: nat, h: Id)
    requires IsRun(cfg, states, steps) && i <= j < |states|
    requires h in states[i].handlers && states[i].handlers[h].dropped != []
    ensures h in states[j].handlers && states[j].handlers[h].written == states[i].handlers[h].written
    ensures states[j].handlers[h].dropped == states[i].handlers[h].dropped
    decreases j
  {
    if i < j {
      NothingAfterFailedWrite(cfg, states, steps, i, j - 1, h);
      ReachableInv(cfg, states, steps, j - 1);
      var hd, st := states[j - 1].handlers[h], steps[j - 1];
      assert LocalInv(hd);
      if st.h == h { WriteNeedsNoDrop(cfg, hd, states[j - 1].stopped, st); }
    }
  }

  lemma WriteNeedsNoDrop(cfg: Ws.Config, hd: Handler, stopped: bool, st: Step)
    requires Conserves(hd) && hd.dropped != [] && LocallyEnabled(cfg, hd, stopped, st)
    ensures NextHandler(hd, st).written == hd.written && NextHandler(hd, st).dropped == hd.dropped
  {
  }

  /** The application hears about a connect and about messages, never about a disconnect. */
  lemma NeverDisconnects(cfg: Ws.Config, states: seq<State>, steps: seq<Step>, i: nat, h: Id)
    requires IsRun(cfg, states, steps) && i < |states| && h in states[i].handlers
    ensures var events := states[i].handlers[h].events;
            events == [] || events == [Ws.ConnectFailed] || Ws.MidTrace(events)
    ensures Ws.Disconnect !in states[i].handlers[h].events
  {
    ReachableInv(cfg, states, steps, i);
    assert LocalInv(states[i].handlers[h]);
    LegalWtTrace(states[i].handlers[h]);
  }

  lemma LegalWtTrace(hd: Handler)
    requires TraceMatches(hd)
    ensures hd.events == [] || hd.events == [Ws.ConnectFailed] || Ws.MidTrace(hd.events)
    ensures Ws.Disconnect !in hd.events
  {
  }

  ghost predicate PumpEnded(s: State)
  {
    forall h :: h in s.handlers && s.handlers[h].w.WDone? ==>
      s.handlers[h].done || s.stopped || s.handlers[h].dropped != []
  }

  lemma LocalPumpEnd(cfg: Ws.Config, hd: Handler, stopped: bool, st: Step)
    requires LocallyEnabled(cfg, hd, stopped, st) && (hd.w.WDone? ==> hd.done || stopped || hd.dropped != [])
    ensures var next := NextHandler(hd, st); next.w.WDone? ==> next.done || stopped || next.dropped != []
  {
  }

  lemma {:induction false} ReachablePumpEnded(cfg: Ws.Config, states: seq<State>, steps: seq<Step>, i: nat)
    requires IsRun(cfg, states, steps) && i < |states|
    ensures PumpEnded(states[i])
    decreases i
  {
    if i > 0 {
      ReachablePumpEnded(cfg, states, steps, i - 1);
      var s, st := states[i - 1], steps[i - 1];
      if !st.Arrive? { LocalPumpEnd(cfg, s.handlers[st.h], s.stopped, st); }
    }
  }

  /** Unlike ws, the pump of an open connection can be gone.  While the server runs that happens
      exactly when a write has failed. */
  lemma PumpGoneIffWriteFailed(cfg: Ws.Config, states: seq<State>, steps: seq<Step>, i: nat, h: Id)
    requires IsRun(cfg, states, steps) && i < |states| && h in states[i].handlers
    requires !states[i].stopped && !states[i].handlers[h].done
    ensures states[i].handlers[h].w.WDone? <==> states[i].handlers[h].dropped != []
  {
    ReachablePumpEnded(cfg, states, steps, i);
    ReachableInv(cfg, states, steps, i);
    assert LocalInv(states[i].handlers[h]);
  }

  // ---------------------------------------------------------------- senders

  /** A sender is not blocked: there is room in the channel, or the connection is closed. */
  predicate CanProceed(hd: Handler) { |hd.send| < Ws.CHANNEL_SIZE || hd.done }

  predicate StreamPending(hd: Handler) { exists sid :: sid in hd.streams && hd.streams[sid] == SAccepted }

  /** The accept loop may still take a stream: inside AcceptStream always, at its head unless the server is stopped. */
  predicate MayAccept(hd: Handler, stopped: bool) { hd.pc.Accepting? || (hd.pc.Looping? && !stopped) }

  /** Nothing will ever drain this channel: its pump has ended; or waits for a first stream although none is on its way
      and the accept loop takes no more; or is never started, because authentication failed. */
  predicate Stranded(hd: Handler, stopped: bool)
  {
    || hd.w.WDone?
    || (hd.w.WWaiting? && hd.responseStream.None? && !StreamPending(hd) && !MayAccept(hd, stopped))
    || hd.pc.AuthGone?
  }

  /** A continuation of `s`, any length, in which nobody but the handler itself closes connection `h`. */
  ghost predicate Continues(cfg: Ws.Config, s: State, h: Id, states: seq<State>, steps: seq<Step>)
  {
    && |states| == |steps| + 1 && states[0] == s
    && (forall i :: 0 <= i < |steps| ==>
          Enabled(cfg, states[i], steps[i]) && states[i + 1] == Apply(cfg, states[i], steps[i]))
    && (forall i :: 0 <= i < |steps| ==> steps[i] != Close(h))
  }

  lemma LocalStranded(cfg: Ws.Config, hd: Handler, stopped: bool, st: Step)
    requires LocalInv(hd) && Stranded(hd, stopped) && !CanProceed(hd)
    requires LocallyEnabled(cfg, hd, stopped, st) && !st.Close?
    ensures Stranded(NextHandler(hd, st), stopped) && !CanProceed(NextHandler(hd, st))
  {
  }

  lemma StepKeepsStranded(cfg: Ws.Config, s: State, st: Step, h: Id)
    requires AllLocal(s) && h in s.handlers && Stranded(s.handlers[h], s.stopped) && !CanProceed(s.handlers[h])
    requires Enabled(cfg, s, st) && st != Close(h)
    ensures var s' := Apply(cfg, s, st);
            h in s'.handlers && Stranded(s'.handlers[h], s'.stopped) && !CanProceed(s'.handlers[h])
  {
    if st.h == h {
      assert LocalInv(s.handlers[h]);
      LocalStranded(cfg, s.handlers[h], s.stopped, st);
    }
  }

  /** Whatever happens, a stranded sender stays blocked. */
  lemma {:induction false} StrandedForEver(cfg: Ws.Config, s: State, h: Id, states: seq<State>, steps: seq<Step>,
                                           i: nat)
    requires AllLocal(s) && h in s.handlers && Stranded(s.handlers[h], s.stopped) && !CanProceed(s.handlers[h])
    requires Continues(cfg, s, h, states, steps) && i < |states|
    ensures AllLocal(states[i]) && h in states[i].handlers
    ensures Stranded(states[i].handlers[h], states[i].stopped) && !CanProceed(states[i].handlers[h])
    decreases i
  {
    if i > 0 {
      StrandedForEver(cfg, s, h, states, steps, i - 1);
      StepKeepsAllLocal(cfg, states[i - 1], steps[i - 1]);
      StepKeepsStranded(cfg, states[i - 1], steps[i - 1], h);
    }
  }

  /** A way out for a blocked sender that is not stranded: the next step towards it.
      `unused` is a stream the client has not opened yet. */
  ghost function FreeMove(h: Id, hd: Handler, stopped: bool, unused: StreamId): Step
  {
    match hd.w
    case WSelect => WTake(h)
    case WHolding(_, _) => WWrite(h, true)
    case WTaken(_) => WLookup(h)
    case WWaiting =>
      if hd.responseStream.Some? then WReady(h)
      else if StreamPending(hd) then
        var sid :| sid in hd.streams && hd.streams[sid] == SAccepted;
        SSet(h, sid)
      else if hd.pc.Looping? then EnterAccept(h)
      else AcceptStream(h, unused)
    case _ =>
      match hd.pc
      case Created => Authenticate(h, true)
      case Ready => CountFirst(h)
      case _ => FinishMove(h, hd, stopped)
  }

  ghost function ToFreedom(hd: Handler): nat
  {
    match hd.w
    case WSelect => 1
    case WHolding(_, _) => 2
    case WTaken(_) => 3
    case WWaiting =>
      if hd.responseStream.Some? then 2 else if StreamPending(hd) then 3 else if hd.pc.Accepting? then 4 else 5
    case _ => if hd.pc.Created? then 9 else if hd.pc.Ready? then 8 else Remaining(hd.pc)
  }

  ghost predicate Progress(cfg: Ws.Config, h: Id, hd: Handler, stopped: bool, st: Step)
  {
    && LocallyEnabled(cfg, hd, stopped, st) && st.h == h && !st.Arrive? && !st.Close? && !st.Stop?
    && var next := NextHandler(hd, st);
       && HasConnection(next.pc)
       && (CanProceed(next) || (!Stranded(next, stopped) && ToFreedom(next) < ToFreedom(hd)))
  }

  lemma PumpProgress(cfg: Ws.Config, h: Id, hd: Handler, stopped: bool, unused: StreamId)
    requires LocalInv(hd) && HasConnection(hd.pc) && !Stranded(hd, stopped) && !CanProceed(hd)
    requires hd.w.WSelect? || hd.w.WHolding? || hd.w.WTaken?
    ensures Progress(cfg, h, hd, stopped, FreeMove(h, hd, stopped, unused))
  {
  }

  lemma WaitingProgress(cfg: Ws.Config, h: Id, hd: Handler, stopped: bool, unused: StreamId)
    requires LocalInv(hd) && HasConnection(hd.pc) && !Stranded(hd, stopped) && !CanProceed(hd) && hd.w.WWaiting?
    requires unused !in hd.streams
    ensures Progress(cfg, h, hd, stopped, FreeMove(h, hd, stopped, unused))
  {
    if hd.responseStream.None? && !StreamPending(hd) && hd.pc.Accepting? {
      var next := NextHandler(hd, AcceptStream(h, unused));
      assert unused in next.streams && next.streams[unused] == SAccepted;
      assert StreamPending(next);
    }
  }

  lemma OffProgress(cfg: Ws.Config, h: Id, hd: Handler, stopped: bool, unused: StreamId)
    requires LocalInv(hd) && HasConnection(hd.pc) && !Stranded(hd, stopped) && !CanProceed(hd) && hd.w.WOff?
    ensures Progress(cfg, h, hd, stopped, FreeMove(h, hd, stopped, unused))
  {
  }

  lemma FreeMoveProgress(cfg: Ws.Config, h: Id, hd: Handler, stopped: bool, unused: StreamId)
    requires LocalInv(hd) && HasConnection(hd.pc) && !Stranded(hd, stopped) && !CanProceed(hd)
    requires unused !in hd.streams
    ensures Progress(cfg, h, hd, stopped, FreeMove(h, hd, stopped, unused))
  {
    if hd.w.WOff? {
      OffProgress(cfg, h, hd, stopped, unused);
    } else if hd.w.WWaiting? {
      WaitingProgress(cfg, h, hd, stopped, unused);
    } else {
      PumpProgress(cfg, h, hd, stopped, unused);
    }
  }

  ghost predicate IsFreed(cfg: Ws.Config, s: State, h: Id, states: seq<State>, steps: seq<Step>)
  {
    && Continues(cfg, s, h, states, steps)
    && h in states[|steps|].handlers && CanProceed(states[|steps|].handlers[h])
  }

  lemma Prepend(cfg: Ws.Config, s: State, h: Id, st: Step, states: seq<State>, steps: seq<Step>)
    requires Enabled(cfg, s, st) && st != Close(h) && IsFreed(cfg, Apply(cfg, s, st), h, states, steps)
    ensures IsFreed(cfg, s, h, [s] + states, [st] + steps)
  {
    var states', steps' := [s] + states, [st] + steps;
    forall i | 0 <= i < |steps'|
      ensures Enabled(cfg, states'[i], steps'[i]) && states'[i + 1] == Apply(cfg, states'[i], steps'[i])
      ensures steps'[i] != Close(h)
    {
      if i > 0 { assert steps'[i] == steps[i - 1] && states'[i] == states[i - 1] && states'[i + 1] == states[i]; }
    }
  }

  /** Otherwise a few steps of the server, or of the client opening a stream, free it. */
  lemma {:induction false} WayOut(cfg: Ws.Config, s: State, h: Id) returns (states: seq<State>, steps: seq<Step>)
    requires AllLocal(s) && h in s.handlers && HasConnection(s.handlers[h].pc)
    requires !Stranded(s.handlers[h], s.stopped)
    ensures IsFreed(cfg, s, h, states, steps)
    decreases ToFreedom(s.handlers[h])
  {
    var hd := s.handlers[h];
    if CanProceed(hd) {
      states, steps := [s], [];
    } else {
      assert LocalInv(hd);
      var unused := UpperBound(hd.streams.Keys);
      var st := FreeMove(h, hd, s.stopped, unused);
      FreeMoveProgress(cfg, h, hd, s.stopped, unused);
      StepKeepsAllLocal(cfg, s, st);
      var s' := Apply(cfg, s, st);
      assert s'.handlers[h] == NextHandler(hd, st);
      if CanProceed(s'.handlers[h]) {
        states, steps := [s'], [];
      } else {
        states, steps := WayOut(cfg, s', h);
      }
      Prepend(cfg, s, h, st, states, steps);
      states, steps := [s] + states, [st] + steps;
    }
  }

  /** The exact law of blocked senders, in every reachable state: some continuation in which nobody else closes the
      connection lets a sender on a full, open connection proceed if and only if the sender is not stranded. */
  lemma FreedIffNotStranded(cfg: Ws.Config, states: seq<State>, steps: seq<Step>, i: nat, h: Id)
    requires IsRun(cfg, states, steps) && i < |states| && h in states[i].handlers
    requires HasConnection(states[i].handlers[h].pc) && !CanProceed(states[i].handlers[h])
    ensures (exists path, moves :: IsFreed(cfg, states[i], h, path, moves)) 
        <==> !Stranded(states[i].handlers[h], states[i].stopped)
  {
    ReachableInv(cfg, states, steps, i);
    var s := states[i];
    if Stranded(s.handlers[h], s.stopped) {
      forall path, moves | Continues(cfg, s, h, path, moves) ensures !IsFreed(cfg, s, h, path, moves) {
        StrandedForEver(cfg, s, h, path, moves, |moves|);
      }
    } else {
      var path, moves := WayOut(cfg, s, h);
    }
  }

  lemma FillChannel(cfg: Ws.Config, states: seq<State>, steps: seq<Step>, hd: Handler)
    returns (states': seq<State>, steps': seq<Step>, full: Handler)
    requires IsRun(cfg, states, steps) && states[|steps|].handlers == map[0 := hd]
    requires HasConnection(hd.pc) && |hd.send| <= Ws.CHANNEL_SIZE
    ensures IsRun(cfg, states', steps') && states'[|steps'|].handlers == map[0 := full]
    ensures full.pc == hd.pc && full.w == hd.w && full.done == hd.done && full.dropped == hd.dropped
    ensures full.responseStream == hd.responseStream && full.streams == hd.streams && full.events == hd.events
    ensures states'[|steps'|].stopped == states[|steps|].stopped
    ensures |full.send| == Ws.CHANNEL_SIZE
    decreases Ws.CHANNEL_SIZE - |hd.send|
  {
    states', steps', full := states, steps, hd;
    if |hd.send| < Ws.CHANNEL_SIZE {
      var next := hd.(send := hd.send + [""], accepted := hd.accepted + [""]);
      states', steps' := Alone(cfg, states, steps, hd, Send(0, ""), next, states[|steps|].connCount);
      states', steps', full := FillChannel(cfg, states', steps', next);
    }
  }

  lemma FirstAccepted(cfg: Ws.Config) returns (states: seq<State>, steps: seq<Step>)
    requires 0 <= cfg.maxConnections
    ensures IsRun(cfg, states, steps) && states[|steps|].connCount == 2
    ensures states[|steps|].handlers == map[0 := WithoutStream(Looping).(streams := map[7 := SAccepted])]
  {
    states, steps := FirstSession(cfg);
    states, steps := Alone(cfg, states, steps, WithoutStream(Looping), EnterAccept(0), WithoutStream(Accepting), 2);
    states, steps := Alone(cfg, states, steps, WithoutStream(Accepting), AcceptStream(0, 7),
                           WithoutStream(Looping).(streams := map[7 := SAccepted]), 2);
  }

  lemma FirstStream(cfg: Ws.Config) returns (states: seq<State>, steps: seq<Step>, hd: Handler)
    requires 0 <= cfg.maxConnections
    ensures IsRun(cfg, states, steps) && states[|steps|].handlers == map[0 := hd] && states[|steps|].connCount == 2
    ensures hd.pc.Looping? && hd.w.WSelect? && hd.responseStream == Some(7) && !hd.done
    ensures hd.send == [] && hd.dropped == []
  {
    states, steps := FirstAccepted(cfg);
    var b := WithoutStream(Looping).(streams := map[7 := SAccepted]);
    var c := b.(streams := map[7 := SLooping], responseStream := Some(7), readyCloses := 1);
    states, steps := Alone(cfg, states, steps, b, SSet(0, 7), c, 2);
    hd := c.(w := WSelect);
    states, steps := Alone(cfg, states, steps, c, WReady(0), hd, 2);
  }

  lemma FirstTaken(cfg: Ws.Config) returns (states: seq<State>, steps: seq<Step>, hd: Handler)
    requires 0 <= cfg.maxConnections
    ensures IsRun(cfg, states, steps) && states[|steps|].handlers == map[0 := hd] && states[|steps|].connCount == 2
    ensures hd.pc.Looping? && hd.w == WTaken("") && hd.responseStream == Some(7) && !hd.done
    ensures hd.send == [] && hd.dropped == []
  {
    var a;
    states, steps, a := FirstStream(cfg);
    var b := a.(send := [""], accepted := a.accepted + [""]);
    states, steps := Alone(cfg, states, steps, a, Send(0, ""), b, 2);
    hd := b.(w := WTaken(""), send := []);
    states, steps := Alone(cfg, states, steps, b, WTake(0), hd, 2);
  }

  lemma FirstFailedWrite(cfg: Ws.Config) returns (states: seq<State>, steps: seq<Step>, hd: Handler)
    requires 0 <= cfg.maxConnections
    ensures IsRun(cfg, states, steps) && states[|steps|].handlers == map[0 := hd]
    ensures hd.pc.Looping? && hd.w.WDone? && !hd.done && hd.send == []
  {
    var c;
    states, steps, c := FirstTaken(cfg);
    var d := c.(w := WHolding("", 7));
    states, steps := Alone(cfg, states, steps, c, WLookup(0), d, 2);
    hd := d.(w := WDone, dropped := [""]);
    states, steps := Alone(cfg, states, steps, d, WWrite(0, false), hd, 2);
  }

  ghost predicate NeverFreed(cfg: Ws.Config, s: State, h: Id)
  {
    forall path, moves :: !IsFreed(cfg, s, h, path, moves)
  }

  lemma StrandedIsNeverFreed(cfg: Ws.Config, states: seq<State>, steps: seq<Step>, hd: Handler)
    requires IsRun(cfg, states, steps) && states[|steps|].handlers == map[0 := hd]
    requires HasConnection(hd.pc) && !CanProceed(hd) && Stranded(hd, states[|steps|].stopped)
    ensures NeverFreed(cfg, states[|steps|], 0)
  {
    FreedIffNotStranded(cfg, states, steps, |steps|, 0);
  }

  /** It happens after a failed write, while the session is still accepting streams. */
  lemma FailedWriteStrandsSenders(cfg: Ws.Config) returns (states: seq<State>, steps: seq<Step>)
    requires 0 <= cfg.maxConnections
    ensures IsRun(cfg, states, steps)
    ensures var s := states[|steps|];
            && 0 in s.handlers && s.handlers[0].pc.Looping? && s.handlers[0].w.WDone?
            && !CanProceed(s.handlers[0]) && NeverFreed(cfg, s, 0)
  {
    var hd, full;
    states, steps, hd := FirstFailedWrite(cfg);
    states, steps, full := FillChannel(cfg, states, steps, hd);
    StrandedIsNeverFreed(cfg, states, steps, full);
  }

  /** And without any failed write, when a session ends before its first stream: the pump of
      the connection, which nobody closed, waits for a stream that can no longer come. */
  lemma NoStreamStrandsSenders(cfg: Ws.Config) returns (states: seq<State>, steps: seq<Step>)
    requires 0 <= cfg.maxConnections
    ensures IsRun(cfg, states, steps)
    ensures var s := states[|steps|];
            && 0 in s.handlers && s.handlers[0].pc.Gone? && s.handlers[0].w.WWaiting? && s.handlers[0].dropped == []
            && !CanProceed(s.handlers[0]) && NeverFreed(cfg, s, 0)
  {
    var full;
    states, steps := FirstGone(cfg);
    states, steps, full := FillChannel(cfg, states, steps, WithoutStream(Gone));
    StrandedIsNeverFreed(cfg, states, steps, full);
  }

  /** And after `Stop`, when it misses a session that was still on its way in: the pump has not even ended, but the
      accept loop, back at its head, takes no stream from a stopped server. */
  lemma StopStrandsSenders(cfg: Ws.Config) returns (states: seq<State>, steps: seq<Step>)
    requires 0 <= cfg.maxConnections
    ensures IsRun(cfg, states, steps)
    ensures var s := states[|steps|];
            && s.stopped && 0 in s.handlers && s.handlers[0].pc.Looping? && s.handlers[0].w.WWaiting?
            && s.handlers[0].dropped == [] && !CanProceed(s.handlers[0]) && NeverFreed(cfg, s, 0)
  {
    var full;
    states, steps := FirstChecked(cfg);
    states, steps := Alone(cfg, states, steps, NewHandler(Checked), Stop(0), NewHandler(Checked), 0);
    states, steps := ToRegistered(cfg, states, steps);
    states, steps := Alone(cfg, states, steps, NewHandler(Registered), ConnectReturns(0, true), WithoutStream(Looping),
                           2);
    states, steps, full := FillChannel(cfg, states, steps, WithoutStream(Looping));
    StrandedIsNeverFreed(cfg, states, steps, full);
  }

  // ---------------------------------------------------------------- inside OnConnect

  /** Until the pump starts, everything accepted is still in the channel. */
  predicate Undrained(hd: Handler)
  {
    hd.w.WOff? ==> hd.written == [] && hd.send == hd.accepted
  }

  lemma LocalUndrained(cfg: Ws.Config, hd: Handler, stopped: bool, st: Step)
    requires Undrained(hd) && LocallyEnabled(cfg, hd, stopped, st)
    ensures Undrained(NextHandler(hd, st))
  {
  }

  lemma {:induction false} ReachableUndrained(cfg: Ws.Config, states: seq<State>, steps: seq<Step>, i: nat, h: Id)
    requires IsRun(cfg, states, steps) && i < |states| && h in states[i].handlers
    ensures Undrained(states[i].handlers[h])
    decreases i
  {
    if i > 0 {
      var s, st := states[i - 1], steps[i - 1];
      if h in s.handlers {
        ReachableUndrained(cfg, states, steps, i - 1, h);
        if st.h == h { LocalUndrained(cfg, s.handlers[h], s.stopped, st); }
      }
    }
  }

  /** Until OnConnect returns, a sender can proceed if and only if fewer messages than the channel holds
      have been accepted, or the connection is closed. */
  lemma SendDuringOnConnect(cfg: Ws.Config, states: seq<State>, steps: seq<Step>, i: nat, h: Id)
    requires IsRun(cfg, states, steps) && i < |states| && h in states[i].handlers
    requires BeforeConnect(states[i].handlers[h].pc)
    ensures var hd := states[i].handlers[h];
            CanProceed(hd) <==> |hd.accepted| < Ws.CHANNEL_SIZE || hd.done
  {
    ReachableInv(cfg, states, steps, i);
    assert LocalInv(states[i].handlers[h]);
    ReachableUndrained(cfg, states, steps, i, h);
  }

  /** A continuation of `s`, any length, in which OnConnect of `h` does not return and nobody closes the connection. */
  ghost predicate InsideOnConnect(cfg: Ws.Config, s: State, h: Id, states: seq<State>, steps: seq<Step>)
  {
    && Continues(cfg, s, h, states, steps)
    && forall i :: 0 <= i < |steps| ==> !(steps[i].ConnectReturns? && steps[i].h == h)
  }

  lemma LocalStuck(cfg: Ws.Config, hd: Handler, stopped: bool, st: Step)
    requires LocalInv(hd) && hd.pc.Registered? && !CanProceed(hd)
    requires LocallyEnabled(cfg, hd, stopped, st) && !st.Close? && !st.ConnectReturns?
    ensures NextHandler(hd, st).pc.Registered? && !CanProceed(NextHandler(hd, st))
  {
  }

  /** The way out of a full channel before the pump starts leads through OnConnect returning; so, as in ws, an OnConnect
      that waits for its own send on a full channel waits for ever unless somebody closes the connection. */
  lemma {:induction false} OnConnectBlocksItself(cfg: Ws.Config, s: State, h: Id, states: seq<State>, steps: seq<Step>,
                                                 i: nat)
    requires AllLocal(s) && h in s.handlers && s.handlers[h].pc.Registered? && !CanProceed(s.handlers[h])
    requires InsideOnConnect(cfg, s, h, states, steps) && i < |states|
    ensures AllLocal(states[i]) && h in states[i].handlers
    ensures states[i].handlers[h].pc.Registered? && !CanProceed(states[i].handlers[h])
    decreases i
  {
    if i > 0 {
      OnConnectBlocksItself(cfg, s, h, states, steps, i - 1);
      var s0, st := states[i - 1], steps[i - 1];
      StepKeepsAllLocal(cfg, s0, st);
      if st.h == h { LocalStuck(cfg, s0.handlers[h], s0.stopped, st); }
    }
  }
  ghost predicate WaitsForEver(cfg: Ws.Config, s: State, h: Id)
  {
    forall path: seq<State>, moves: seq<Step> :: InsideOnConnect(cfg, s, h, path, moves) ==>
      h in path[|moves|].handlers && !CanProceed(path[|moves|].handlers[h])
  }

  /** It happens: an OnConnect that sends more messages than the channel holds gets there. */
  lemma FullDuringOnConnect(cfg: Ws.Config) returns (states: seq<State>, steps: seq<Step>)
    requires 0 <= cfg.maxConnections
    ensures IsRun(cfg, states, steps)
    ensures var s := states[|steps|];
            && 0 in s.handlers && s.handlers[0].pc.Registered? && |s.handlers[0].accepted| == Ws.CHANNEL_SIZE
            && WaitsForEver(cfg, s, 0)
  {
    var full;
    states, steps := FirstChecked(cfg);
    states, steps := ToRegistered(cfg, states, steps);
    states, steps, full := FillChannel(cfg, states, steps, NewHandler(Registered));
    ReachableUndrained(cfg, states, steps, |steps|, 0);
    FullStaysFull(cfg, states, steps, full);
  }

  lemma FullStaysFull(cfg: Ws.Config, states: seq<State>, steps: seq<Step>, full: Handler)
    requires IsRun(cfg, states, steps) && states[|steps|].handlers == map[0 := full]
    requires full.pc.Registered? && !CanProceed(full)
    ensures WaitsForEver(cfg, states[|steps|], 0)
  {
    var s := states[|steps|];
    ReachableInv(cfg, states, steps, |steps|);
    forall path: seq<State>, moves: seq<Step> | InsideOnConnect(cfg, s, 0, path, moves)
      ensures 0 in path[|moves|].handlers && !CanProceed(path[|moves|].handlers[0])
    {
      OnConnectBlocksItself(cfg, s, 0, path, moves, |moves|);
    }
  }
}
