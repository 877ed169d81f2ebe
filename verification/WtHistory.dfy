/** The WebTransport server from its history: what the state is, and which step may come next, as a function of the
    steps taken so far and of nothing else.  The plan is that of `WsHistory`.
 */
module WtHistory {
  import opened Wrappers
  import opened WtServer
  import Ws = WsServer

  // ---------------------------------------------------------------- what happened

  predicate IsControl(st: Step) { !IsWriter(st) && !IsStream(st) && !IsApp(st) }

  predicate IsWriter(st: Step) { st.WReady? || st.WQuit? || st.WTake? || st.WLookup? || st.WWrite? }

  predicate IsStream(st: Step) { st.SSet? || st.SEnter? || st.SRead? || st.SReturn? || st.SQuit? }

  predicate IsApp(st: Step) { st.Send? || st.Close? || st.Stop? }

  /** The last step of the handler of `h` itself, of its write pump, and of one of its streams. */
  function LastControl(past: seq<Step>, h: Id): Option<Step>
  {
    if past == [] then None
    else
      var st := past[|past| - 1];
      if st.h == h && IsControl(st) then Some(st) else LastControl(past[..|past| - 1], h)
  }

  function LastWriter(past: seq<Step>, h: Id): Option<Step>
  {
    if past == [] then None
    else
      var st := past[|past| - 1];
      if st.h == h && IsWriter(st) then Some(st) else LastWriter(past[..|past| - 1], h)
  }

  function LastOnStream(past: seq<Step>, h: Id, sid: StreamId): Option<Step>
  {
    if past == [] then None
    else
      var st := past[|past| - 1];
      if st.h == h && IsStream(st) && st.sid == sid then Some(st) else LastOnStream(past[..|past| - 1], h, sid)
  }

  /** The messages given to `Send` of `h` and accepted, in order. */
  function SentTo(past: seq<Step>, h: Id): seq<Msg>
  {
    if past == [] then []
    else
      var st := past[|past| - 1];
      SentTo(past[..|past| - 1], h) + if st.Send? && st.h == h then [st.m] else []
  }

  function Taken(past: seq<Step>, h: Id): nat
  {
    if past == [] then 0
    else Taken(past[..|past| - 1], h) + if past[|past| - 1] == WTake(h) then 1 else 0
  }

  function Written(past: seq<Step>, h: Id): nat
  {
    if past == [] then 0
    else Written(past[..|past| - 1], h) + if past[|past| - 1] == WWrite(h, true) then 1 else 0
  }

  /** The callbacks made for `h`, in order; a message callback carries what was read, on whatever stream. */
  function CallbacksOf(past: seq<Step>, h: Id): seq<Ws.Event>
  {
    if past == [] then []
    else
      var st := past[|past| - 1];
      CallbacksOf(past[..|past| - 1], h)
      + if st.h != h then []
        else match st
             case ConnectReturns(_, ok) => [if ok then Ws.ConnectOk else Ws.ConnectFailed]
             case SRead(_, _, m) => [Ws.Message(m)]
             case _ => []
  }

  predicate ClosedIn(past: seq<Step>, h: Id)
  {
    past != [] &&
    var st := past[|past| - 1];
    st == Close(h) || st == CloseRefused(h) || ClosedIn(past[..|past| - 1], h)
  }

  predicate UpgradedIn(past: seq<Step>, h: Id)
  {
    past != [] && (past[|past| - 1] == Upgrade(h, true) || UpgradedIn(past[..|past| - 1], h))
  }

  predicate ConnectedIn(past: seq<Step>, h: Id)
  {
    past != [] && (past[|past| - 1] == ConnectReturns(h, true) || ConnectedIn(past[..|past| - 1], h))
  }

  predicate StoppedIn(past: seq<Step>)
  {
    past != [] && (past[|past| - 1].Stop? || StoppedIn(past[..|past| - 1]))
  }

  predicate OpenedIn(past: seq<Step>, h: Id, sid: StreamId)
  {
    past != [] && (past[|past| - 1] == AcceptStream(h, sid) || OpenedIn(past[..|past| - 1], h, sid))
  }

  /** The first stream whose goroutine called `SetResponseStream`. */
  function FirstSet(past: seq<Step>, h: Id): Option<StreamId>
  {
    if past == [] then None
    else
      var before, st := FirstSet(past[..|past| - 1], h), past[|past| - 1];
      if before.None? && st.SSet? && st.h == h then Some(st.sid) else before
  }

  /** Increments less decrements of the counter, over all handlers. */
  function Counted(past: seq<Step>): int
  {
    if past == [] then 0
    else
      var st := past[|past| - 1];
      Counted(past[..|past| - 1]) + if st.CountFirst? || st.CountSecond? then 1 else if st.Uncount? then -1 else 0
  }

  /** `h` arrived when there was no limit, or the counter was below it. */
  predicate AdmittedIn(cfg: Ws.Config, past: seq<Step>, h: Id)
  {
    past != [] &&
    if past[|past| - 1] == Arrive(h)
    then cfg.maxConnections <= 0 || Counted(past[..|past| - 1]) < cfg.maxConnections
    else AdmittedIn(cfg, past[..|past| - 1], h)
  }

  predicate InsertedIn(past: seq<Step>, h: Id)
  {
    past != [] &&
    var st := past[|past| - 1];
    st == Insert(h) || (st != Delete(h) && InsertedIn(past[..|past| - 1], h))
  }

  // ---------------------------------------------------------------- what may happen next

  predicate AtSelect(past: seq<Step>, h: Id)
  {
    LastWriter(past, h) == Some(WReady(h)) || LastWriter(past, h) == Some(WWrite(h, true))
  }

  predicate AtWait(past: seq<Step>, h: Id) { ConnectedIn(past, h) && LastWriter(past, h).None? }

  predicate AtLoop(past: seq<Step>, h: Id)
  {
    var c := LastControl(past, h);
    c == Some(ConnectReturns(h, true)) || (c.Some? && c.value.AcceptStream?)
  }

  predicate AtReadLoop(past: seq<Step>, h: Id, sid: StreamId)
  {
    LastOnStream(past, h, sid) == Some(SSet(h, sid)) || LastOnStream(past, h, sid) == Some(SReturn(h, sid))
  }

  predicate ControlAllowed(cfg: Ws.Config, past: seq<Step>, st: Step)
    requires IsControl(st)
  {
    var h := st.h;
    var c := LastControl(past, h);
    var over := StoppedIn(past) || ClosedIn(past, h);
    match st
    case Arrive(_) => c.None?
    case Upgrade(_, _) => c == Some(Arrive(h)) && AdmittedIn(cfg, past, h)
    case Authenticate(_, ok) => c == Some(Upgrade(h, true)) && (ok || cfg.auth)
    case CountFirst(_) => c == Some(Authenticate(h, true))
    case Insert(_) => c == Some(CountFirst(h))
    case CountSecond(_) => c == Some(Insert(h))
    case ConnectReturns(_, _) => c == Some(CountSecond(h))
    case CloseRefused(_) => c == Some(ConnectReturns(h, false))
    case EnterAccept(_) => AtLoop(past, h) && !over
    case AcceptStream(_, sid) => c == Some(EnterAccept(h)) && !OpenedIn(past, h, sid)
    case StopAccepting(_) => c == Some(EnterAccept(h)) || (AtLoop(past, h) && over)
    case Delete(_) => c == Some(CloseRefused(h)) || c == Some(StopAccepting(h))
    case Uncount(_) => c == Some(Delete(h))
  }

  predicate WriterAllowed(past: seq<Step>, st: Step)
    requires IsWriter(st)
  {
    var h := st.h;
    match st
    case WReady(_) => AtWait(past, h) && FirstSet(past, h).Some?
    case WQuit(_) => (AtWait(past, h) || AtSelect(past, h)) && (StoppedIn(past) || ClosedIn(past, h))
    case WTake(_) => AtSelect(past, h) && Taken(past, h) < |SentTo(past, h)|
    case WLookup(_) => LastWriter(past, h) == Some(WTake(h))
    case WWrite(_, _) => LastWriter(past, h) == Some(WLookup(h))
  }

  predicate StreamAllowed(past: seq<Step>, st: Step)
    requires IsStream(st)
  {
    var h, sid := st.h, st.sid;
    var s := LastOnStream(past, h, sid);
    var over := StoppedIn(past) || ClosedIn(past, h);
    match st
    case SSet(_, _) => OpenedIn(past, h, sid) && s.None?
    case SEnter(_, _) => AtReadLoop(past, h, sid) && !over
    case SRead(_, _, _) => s == Some(SEnter(h, sid))
    case SReturn(_, _) => s.Some? && s.value.SRead?
    case SQuit(_, _) => s == Some(SEnter(h, sid)) || (AtReadLoop(past, h, sid) && over)
  }

  predicate AppAllowed(past: seq<Step>, st: Step)
    requires IsApp(st)
  {
    match st
    case Send(h, _) => UpgradedIn(past, h) && |SentTo(past, h)| - Taken(past, h) < 256
    case Close(h) => UpgradedIn(past, h)
    case Stop(h) => LastControl(past, h).Some?
  }

  /** Whether `st` may be the next step after `past`. */
  predicate Allowed(cfg: Ws.Config, past: seq<Step>, st: Step)
  {
    if IsControl(st) then ControlAllowed(cfg, past, st)
    else if IsWriter(st) then WriterAllowed(past, st)
    else if IsStream(st) then StreamAllowed(past, st)
    else AppAllowed(past, st)
  }

  // ---------------------------------------------------------------- the state is the history

  /** The facts of the past that determine where a handler and its pump are. */
  datatype Facts = Facts(control: Option<Step>, writer: Option<Step>, connected: bool, admitted: bool)

  function FactsOf(cfg: Ws.Config, past: seq<Step>, h: Id): Facts
  {
    Facts(LastControl(past, h), LastWriter(past, h), ConnectedIn(past, h), AdmittedIn(cfg, past, h))
  }

  function PcAfter(f: Facts): Pc
  {
    match f.control
    case None => Gone
    case Some(st) =>
      match st
      case Arrive(_) => if f.admitted then Checked else Rejected
      case Upgrade(_, ok) => if ok then Created else UpgradeFailed
      case Authenticate(_, ok) => if ok then Ready else AuthGone
      case CountFirst(_) => CountedOnce
      case Insert(_) => Inserted
      case CountSecond(_) => Registered
      case ConnectReturns(_, ok) => if ok then Looping else ConnectRefused
      case CloseRefused(_) => Leaving
      case EnterAccept(_) => Accepting
      case AcceptStream(_, _) => Looping
      case StopAccepting(_) => Leaving
      case Delete(_) => Deleted
      case _ => Gone
  }

  predicate WriterIs(f: Facts, w: WPc)
  {
    match f.writer
    case None => w == if f.connected then WWaiting else WOff
    case Some(st) =>
      match st
      case WReady(_) => w.WSelect?
      case WTake(_) => w.WTaken?
      case WLookup(_) => w.WHolding?
      case WWrite(_, ok) => if ok then w.WSelect? else w.WDone?
      case _ => w.WDone?
  }

  predicate PlaceIs(f: Facts, hd: Handler)
  {
    && f.control.Some? && hd.pc == PcAfter(f) && WriterIs(f, hd.w)
    && (f.connected <==> !BeforeConnect(hd.pc) && !hd.pc.ConnectRefused? && !hd.w.WOff?)
  }

  function StreamPc(last: Option<Step>): SPc
  {
    if last.None? then SAccepted
    else
      match last.value
      case SSet(_, _) => SLooping
      case SReturn(_, _) => SLooping
      case SEnter(_, _) => SReading
      case SRead(_, _, _) => SInMessage
      case _ => SDone
  }

  ghost predicate StreamsMatch(past: seq<Step>, h: Id, streams: map<StreamId, SPc>)
  {
    && (forall sid: StreamId :: sid in streams <==> OpenedIn(past, h, sid))
    && (forall sid: StreamId :: sid in streams ==> streams[sid] == StreamPc(LastOnStream(past, h, sid)))
    && (forall sid: StreamId :: sid !in streams ==> LastOnStream(past, h, sid).None?)
  }

  predicate MessagesMatch(past: seq<Step>, h: Id, hd: Handler)
  {
    && hd.accepted == SentTo(past, h)
    && |hd.accepted| == Taken(past, h) + |hd.send|
    && |hd.written| == Written(past, h)
  }

  ghost predicate HandlerMatches(cfg: Ws.Config, past: seq<Step>, h: Id, hd: Handler)
  {
    && MessagesMatch(past, h, hd) && hd.events == CallbacksOf(past, h)
    && hd.done == ClosedIn(past, h) && HasConnection(hd.pc) == UpgradedIn(past, h)
    && hd.responseStream == FirstSet(past, h)
    && StreamsMatch(past, h, hd.streams)
    && PlaceIs(FactsOf(cfg, past, h), hd)
  }

  lemma MessagesStep(cfg: Ws.Config, past: seq<Step>, st: Step, hd: Handler, stopped: bool)
    requires MessagesMatch(past, st.h, hd) && LocallyEnabled(cfg, hd, stopped, st)
    ensures MessagesMatch(past + [st], st.h, NextHandler(hd, st))
  {
    assert (past + [st])[..|past|] == past;
  }

  lemma CallbacksStep(cfg: Ws.Config, past: seq<Step>, st: Step, hd: Handler, stopped: bool)
    requires hd.events == CallbacksOf(past, st.h) && LocallyEnabled(cfg, hd, stopped, st)
    ensures NextHandler(hd, st).events == CallbacksOf(past + [st], st.h)
  {
    assert (past + [st])[..|past|] == past;
  }

  lemma ClosedStep(cfg: Ws.Config, past: seq<Step>, st: Step, hd: Handler, stopped: bool)
    requires hd.done == ClosedIn(past, st.h) && LocallyEnabled(cfg, hd, stopped, st)
    ensures NextHandler(hd, st).done == ClosedIn(past + [st], st.h)
  {
    assert (past + [st])[..|past|] == past;
  }

  lemma UpgradedStep(cfg: Ws.Config, past: seq<Step>, st: Step, hd: Handler, stopped: bool)
    requires HasConnection(hd.pc) == UpgradedIn(past, st.h) && LocallyEnabled(cfg, hd, stopped, st)
    ensures HasConnection(NextHandler(hd, st).pc) == UpgradedIn(past + [st], st.h)
  {
    assert (past + [st])[..|past|] == past;
  }

  lemma ResponseStep(cfg: Ws.Config, past: seq<Step>, st: Step, hd: Handler, stopped: bool)
    requires hd.responseStream == FirstSet(past, st.h) && LocallyEnabled(cfg, hd, stopped, st)
    ensures NextHandler(hd, st).responseStream == FirstSet(past + [st], st.h)
  {
    assert (past + [st])[..|past|] == past;
  }

  lemma StreamFacts(past: seq<Step>, st: Step, h: Id, sid: StreamId)
    ensures OpenedIn(past + [st], h, sid) == (st == AcceptStream(h, sid) || OpenedIn(past, h, sid))
    ensures LastOnStream(past + [st], h, sid)
         == if st.h == h && IsStream(st) && st.sid == sid then Some(st) else LastOnStream(past, h, sid)
  {
    assert (past + [st])[..|past|] == past;
  }

  lemma StreamsAfter(cfg: Ws.Config, hd: Handler, stopped: bool, st: Step)
    requires LocallyEnabled(cfg, hd, stopped, st)
    ensures NextHandler(hd, st).streams ==
            if st.AcceptStream? then hd.streams[st.sid := SAccepted]
            else if IsStream(st) then hd.streams[st.sid := StreamPc(Some(st))]
            else hd.streams
    ensures IsStream(st) ==> st.sid in hd.streams
    ensures st.AcceptStream? ==> st.sid !in hd.streams
  {
  }

  lemma StreamsStep(cfg: Ws.Config, past: seq<Step>, st: Step, hd: Handler, stopped: bool)
    requires StreamsMatch(past, st.h, hd.streams) && LocallyEnabled(cfg, hd, stopped, st)
    ensures StreamsMatch(past + [st], st.h, NextHandler(hd, st).streams)
  {
    StreamsAfter(cfg, hd, stopped, st);
    forall sid { StreamFacts(past, st, st.h, sid); }
  }

  /** What one step of `h` does to the facts. */
  function NextFacts(f: Facts, st: Step, admits: bool): Facts
  {
    Facts(if IsControl(st) then Some(st) else f.control,
          if IsWriter(st) then Some(st) else f.writer,
          f.connected || st == ConnectReturns(st.h, true),
          if st.Arrive? then admits else f.admitted)
  }

  lemma FactsStep(cfg: Ws.Config, past: seq<Step>, st: Step)
    ensures FactsOf(cfg, past + [st], st.h) ==
            NextFacts(FactsOf(cfg, past, st.h), st, cfg.maxConnections <= 0 || Counted(past) < cfg.maxConnections)
  {
    assert (past + [st])[..|past|] == past;
  }

  lemma ControlPlace(cfg: Ws.Config, f: Facts, st: Step, hd: Handler, stopped: bool, admits: bool)
    requires IsControl(st) && PlaceIs(f, hd) && TraceMatches(hd) && LocallyEnabled(cfg, hd, stopped, st)
    ensures PlaceIs(NextFacts(f, st, admits), NextHandler(hd, st))
  {
  }

  lemma WriterPlace(cfg: Ws.Config, f: Facts, st: Step, hd: Handler, stopped: bool, admits: bool)
    requires IsWriter(st) && PlaceIs(f, hd) && StreamLaw(hd) && TraceMatches(hd) && LocallyEnabled(cfg, hd, stopped, st)
    ensures PlaceIs(NextFacts(f, st, admits), NextHandler(hd, st))
  {
  }

  lemma OtherPlace(f: Facts, st: Step, hd: Handler, admits: bool)
    requires !IsControl(st) && !IsWriter(st) && PlaceIs(f, hd)
    ensures PlaceIs(NextFacts(f, st, admits), NextHandler(hd, st))
  {
    assert NextHandler(hd, st).pc == hd.pc && NextHandler(hd, st).w == hd.w;
  }

  lemma PlaceStep(cfg: Ws.Config, f: Facts, st: Step, hd: Handler, stopped: bool, admits: bool)
    requires PlaceIs(f, hd) && LocalInv(hd) && LocallyEnabled(cfg, hd, stopped, st)
    ensures PlaceIs(NextFacts(f, st, admits), NextHandler(hd, st))
  {
    if IsControl(st) {
      ControlPlace(cfg, f, st, hd, stopped, admits);
    } else if IsWriter(st) {
      WriterPlace(cfg, f, st, hd, stopped, admits);
    } else {
      OtherPlace(f, st, hd, admits);
    }
  }

  lemma HandlerStep(cfg: Ws.Config, past: seq<Step>, st: Step, hd: Handler, stopped: bool)
    requires HandlerMatches(cfg, past, st.h, hd) && LocalInv(hd) && LocallyEnabled(cfg, hd, stopped, st)
    ensures HandlerMatches(cfg, past + [st], st.h, NextHandler(hd, st))
  {
    MessagesStep(cfg, past, st, hd, stopped);
    CallbacksStep(cfg, past, st, hd, stopped);
    ClosedStep(cfg, past, st, hd, stopped);
    UpgradedStep(cfg, past, st, hd, stopped);
    ResponseStep(cfg, past, st, hd, stopped);
    StreamsStep(cfg, past, st, hd, stopped);
    FactsStep(cfg, past, st);
    PlaceStep(cfg, FactsOf(cfg, past, st.h), st, hd, stopped,
              cfg.maxConnections <= 0 || Counted(past) < cfg.maxConnections);
  }

  // ---------------------------------------------------------------- all handlers together

  /** A step of another handler changes nothing that is said about `h`. */
  lemma Elsewhere(cfg: Ws.Config, past: seq<Step>, st: Step, h: Id)
    requires st.h != h
    ensures var all := past + [st];
            && SentTo(all, h) == SentTo(past, h) && CallbacksOf(all, h) == CallbacksOf(past, h)
            && Taken(all, h) == Taken(past, h) && Written(all, h) == Written(past, h)
            && ClosedIn(all, h) == ClosedIn(past, h) && UpgradedIn(all, h) == UpgradedIn(past, h)
            && FirstSet(all, h) == FirstSet(past, h) && InsertedIn(all, h) == InsertedIn(past, h)
            && FactsOf(cfg, all, h) == FactsOf(cfg, past, h)
  {
    assert (past + [st])[..|past|] == past;
  }

  lemma Unmoved(cfg: Ws.Config, past: seq<Step>, st: Step, h: Id, hd: Handler)
    requires st.h != h && HandlerMatches(cfg, past, h, hd)
    ensures HandlerMatches(cfg, past + [st], h, hd)
  {
    Elsewhere(cfg, past, st, h);
    forall sid { StreamFacts(past, st, h, sid); }
  }

  ghost predicate Untouched(past: seq<Step>, h: Id)
  {
    forall i :: 0 <= i < |past| ==> past[i].h != h
  }

  lemma {:induction false} UntouchedIsBlank(cfg: Ws.Config, past: seq<Step>, h: Id)
    requires Untouched(past, h)
    ensures SentTo(past, h) == [] && CallbacksOf(past, h) == [] && Taken(past, h) == 0 && Written(past, h) == 0
    ensures !ClosedIn(past, h) && !UpgradedIn(past, h) && !ConnectedIn(past, h) && !InsertedIn(past, h)
    ensures FirstSet(past, h).None? && LastControl(past, h).None? && LastWriter(past, h).None?
    ensures forall sid :: !OpenedIn(past, h, sid) && LastOnStream(past, h, sid).None?
    decreases |past|
  {
    if past != [] {
      var before, st := past[..|past| - 1], past[|past| - 1];
      UntouchedIsBlank(cfg, before, h);
      assert before + [st] == past;
      Elsewhere(cfg, before, st, h);
      forall sid { StreamFacts(before, st, h, sid); }
    }
  }

  ghost predicate HandlersMatch(cfg: Ws.Config, past: seq<Step>, s: State)
  {
    && (forall h :: h in s.handlers ==> HandlerMatches(cfg, past, h, s.handlers[h]))
    && (forall h :: h !in s.handlers ==> Untouched(past, h))
  }

  /** Everything a state holds, as a function of the past. */
  ghost predicate StateMatches(cfg: Ws.Config, past: seq<Step>, s: State)
  {
    && HandlersMatch(cfg, past, s)
    && s.connCount == Counted(past) && s.stopped == StoppedIn(past)
    && (forall h: Id :: h in s.connections <==> InsertedIn(past, h))
  }

  lemma ArriveMatches(cfg: Ws.Config, past: seq<Step>, h: Id)
    requires Untouched(past, h)
    ensures var over := cfg.maxConnections > 0 && Counted(past) >= cfg.maxConnections;
            HandlerMatches(cfg, past + [Arrive(h)], h, NewHandler(if over then Rejected else Checked))
  {
    UntouchedIsBlank(cfg, past, h);
    FactsStep(cfg, past, Arrive(h));
    forall sid { StreamFacts(past, Arrive(h), h, sid); }
    assert (past + [Arrive(h)])[..|past|] == past;
  }

  lemma OwnMatches(cfg: Ws.Config, past: seq<Step>, s: State, st: Step)
    requires Enabled(cfg, s, st) && s.connCount == Counted(past)
    requires if st.Arrive? then Untouched(past, st.h)
             else HandlerMatches(cfg, past, st.h, s.handlers[st.h]) && LocalInv(s.handlers[st.h])
    ensures HandlerMatches(cfg, past + [st], st.h, Apply(cfg, s, st).handlers[st.h])
  {
    if st.Arrive? { ArriveMatches(cfg, past, st.h); } else { HandlerStep(cfg, past, st, s.handlers[st.h], s.stopped); }
  }

  lemma AllUnmoved(cfg: Ws.Config, past: seq<Step>, handlers: map<Id, Handler>, st: Step)
    requires forall h :: h in handlers ==> HandlerMatches(cfg, past, h, handlers[h])
    ensures forall h :: h in handlers && h != st.h ==> HandlerMatches(cfg, past + [st], h, handlers[h])
  {
    forall h | h in handlers && h != st.h ensures HandlerMatches(cfg, past + [st], h, handlers[h]) {
      Unmoved(cfg, past, st, h, handlers[h]);
    }
  }

  lemma StillUntouched(past: seq<Step>, st: Step, h: Id)
    requires st.h != h && Untouched(past, h)
    ensures Untouched(past + [st], h)
  {
  }

  lemma AllMatch(cfg: Ws.Config, all: seq<Step>, handlers: map<Id, Handler>, handlers': map<Id, Handler>, h: Id)
    requires h in handlers' && handlers' == handlers[h := handlers'[h]]
    requires forall g :: g in handlers && g != h ==> HandlerMatches(cfg, all, g, handlers[g])
    requires HandlerMatches(cfg, all, h, handlers'[h])
    ensures forall g :: g in handlers' ==> HandlerMatches(cfg, all, g, handlers'[g])
  {
  }

  lemma StepMatchesHandlers(cfg: Ws.Config, past: seq<Step>, s: State, st: Step)
    requires HandlersMatch(cfg, past, s) && s.connCount == Counted(past) && AllLocal(s) && Enabled(cfg, s, st)
    ensures HandlersMatch(cfg, past + [st], Apply(cfg, s, st))
  {
    OwnMatches(cfg, past, s, st);
    AllUnmoved(cfg, past, s.handlers, st);
    AllMatch(cfg, past + [st], s.handlers, Apply(cfg, s, st).handlers, st.h);
    forall h | h !in s.handlers && h != st.h ensures Untouched(past + [st], h) { StillUntouched(past, st, h); }
  }

  lemma StepMatchesShared(cfg: Ws.Config, past: seq<Step>, s: State, st: Step)
    requires s.connCount == Counted(past) && s.stopped == StoppedIn(past) && Enabled(cfg, s, st)
    requires forall h: Id :: h in s.connections <==> InsertedIn(past, h)
    ensures var s' := Apply(cfg, s, st);
            && s'.connCount == Counted(past + [st]) && s'.stopped == StoppedIn(past + [st])
            && forall h: Id :: h in s'.connections <==> InsertedIn(past + [st], h)
  {
    assert (past + [st])[..|past|] == past;
  }

  lemma StepMatches(cfg: Ws.Config, past: seq<Step>, s: State, st: Step)
    requires StateMatches(cfg, past, s) && AllLocal(s) && Enabled(cfg, s, st)
    ensures StateMatches(cfg, past + [st], Apply(cfg, s, st))
  {
    StepMatchesHandlers(cfg, past, s, st);
    StepMatchesShared(cfg, past, s, st);
  }

  lemma NothingYet(cfg: Ws.Config)
    ensures StateMatches(cfg, [], INIT)
  {
  }

  lemma PrefixGrows(steps: seq<Step>, j: nat)
    requires 0 < j <= |steps|
    ensures steps[..j] == steps[..j - 1] + [steps[j - 1]]
  {
  }

  /** In every run, the state is what the steps taken so far say it is. */
  lemma {:induction false} StateFromHistory(cfg: Ws.Config, states: seq<State>, steps: seq<Step>, i: nat)
    requires IsRun(cfg, states, steps) && i < |states|
    ensures StateMatches(cfg, steps[..i], states[i])
    decreases i
  {
    if i == 0 {
      NothingYet(cfg);
    } else {
      StateFromHistory(cfg, states, steps, i - 1);
      ReachableInv(cfg, states, steps, i - 1);
      PrefixGrows(steps, i);
      StepMatches(cfg, steps[..i - 1], states[i - 1], steps[i - 1]);
    }
  }

  // ---------------------------------------------------------------- and so is what may happen next

  lemma {:induction false} LastIsOwn(past: seq<Step>, h: Id)
    ensures LastControl(past, h).Some? ==> LastControl(past, h).value.h == h && IsControl(LastControl(past, h).value)
    ensures LastWriter(past, h).Some? ==> LastWriter(past, h).value.h == h && IsWriter(LastWriter(past, h).value)
    decreases |past|
  {
    if past != [] { LastIsOwn(past[..|past| - 1], h); }
  }

  lemma {:induction false} LastStreamIsOwn(past: seq<Step>, h: Id, sid: StreamId)
    ensures var last := LastOnStream(past, h, sid);
            last.Some? ==> last.value.h == h && IsStream(last.value) && last.value.sid == sid
    decreases |past|
  {
    if past != [] { LastStreamIsOwn(past[..|past| - 1], h, sid); }
  }

  lemma ControlAllowedIff(cfg: Ws.Config, past: seq<Step>, st: Step, hd: Handler, stopped: bool)
    requires IsControl(st) && !st.Arrive? && PlaceIs(FactsOf(cfg, past, st.h), hd)
    requires StreamsMatch(past, st.h, hd.streams)
    requires hd.done == ClosedIn(past, st.h) && stopped == StoppedIn(past)
    ensures LocallyEnabled(cfg, hd, stopped, st) <==> ControlAllowed(cfg, past, st)
  {
    LastIsOwn(past, st.h);
  }

  lemma WriterAllowedIff(cfg: Ws.Config, past: seq<Step>, st: Step, hd: Handler, stopped: bool)
    requires IsWriter(st) && PlaceIs(FactsOf(cfg, past, st.h), hd) && MessagesMatch(past, st.h, hd)
    requires hd.responseStream == FirstSet(past, st.h) && StreamLaw(hd)
    requires hd.done == ClosedIn(past, st.h) && stopped == StoppedIn(past)
    ensures LocallyEnabled(cfg, hd, stopped, st) <==> WriterAllowed(past, st)
  {
    LastIsOwn(past, st.h);
  }

  lemma StreamAllowedIff(cfg: Ws.Config, past: seq<Step>, st: Step, hd: Handler, stopped: bool)
    requires IsStream(st) && StreamsMatch(past, st.h, hd.streams)
    requires hd.done == ClosedIn(past, st.h) && stopped == StoppedIn(past)
    ensures LocallyEnabled(cfg, hd, stopped, st) <==> StreamAllowed(past, st)
  {
    LastStreamIsOwn(past, st.h, st.sid);
  }

  lemma AppAllowedIff(cfg: Ws.Config, past: seq<Step>, st: Step, hd: Handler, stopped: bool)
    requires IsApp(st) && PlaceIs(FactsOf(cfg, past, st.h), hd) && MessagesMatch(past, st.h, hd)
    requires HasConnection(hd.pc) == UpgradedIn(past, st.h)
    ensures LocallyEnabled(cfg, hd, stopped, st) <==> AppAllowed(past, st)
  {
  }

  lemma UnknownAllowedIff(cfg: Ws.Config, past: seq<Step>, st: Step)
    requires Untouched(past, st.h)
    ensures Allowed(cfg, past, st) <==> st.Arrive?
  {
    UntouchedIsBlank(cfg, past, st.h);
  }

  lemma KnownAllowedIff(cfg: Ws.Config, past: seq<Step>, st: Step, hd: Handler, stopped: bool)
    requires HandlerMatches(cfg, past, st.h, hd) && LocalInv(hd) && stopped == StoppedIn(past)
    ensures (!st.Arrive? && LocallyEnabled(cfg, hd, stopped, st)) <==> Allowed(cfg, past, st)
  {
    if IsControl(st) {
      if !st.Arrive? { ControlAllowedIff(cfg, past, st, hd, stopped); }
    } else if IsWriter(st) {
      WriterAllowedIff(cfg, past, st, hd, stopped);
    } else if IsStream(st) {
      StreamAllowedIff(cfg, past, st, hd, stopped);
    } else {
      AppAllowedIff(cfg, past, st, hd, stopped);
    }
  }

  /** And in every reachable state, a step is enabled exactly if the past allows it. */
  lemma EnabledFromHistory(cfg: Ws.Config, states: seq<State>, steps: seq<Step>, i: nat, st: Step)
    requires IsRun(cfg, states, steps) && i < |states|
    ensures Enabled(cfg, states[i], st) <==> Allowed(cfg, steps[..i], st)
  {
    StateFromHistory(cfg, states, steps, i);
    ReachableInv(cfg, states, steps, i);
    AllowedIff(cfg, steps[..i], states[i], st);
  }

  lemma AllowedIff(cfg: Ws.Config, past: seq<Step>, s: State, st: Step)
    requires StateMatches(cfg, past, s) && AllLocal(s)
    ensures Enabled(cfg, s, st) <==> Allowed(cfg, past, st)
  {
    if st.h !in s.handlers {
      UnknownAllowedIff(cfg, past, st);
    } else {
      assert HandlerMatches(cfg, past, st.h, s.handlers[st.h]) && LocalInv(s.handlers[st.h]);
      KnownAllowedIff(cfg, past, st, s.handlers[st.h], s.stopped);
    }
  }

  /** Every step is allowed by the steps before it. */
  ghost predicate IsHistory(cfg: Ws.Config, steps: seq<Step>)
  {
    forall i :: 0 <= i < |steps| ==> Allowed(cfg, steps[..i], steps[i])
  }

  lemma RunIsHistory(cfg: Ws.Config, states: seq<State>, steps: seq<Step>)
    requires IsRun(cfg, states, steps)
    ensures IsHistory(cfg, steps)
  {
    forall i | 0 <= i < |steps| ensures Allowed(cfg, steps[..i], steps[i]) {
      EnabledFromHistory(cfg, states, steps, i, steps[i]);
    }
  }

  // ---------------------------------------------------------------- what follows

  /** What is written is a prefix, as long as there were successful writes, of the messages given to `Send`; it all goes
      to the first stream that was set; and the callbacks are those of the steps taken. */
  lemma MessagesFromHistory(cfg: Ws.Config, states: seq<State>, steps: seq<Step>, i: nat, h: Id)
    requires IsRun(cfg, states, steps) && i < |states| && h in states[i].handlers
    ensures var hd := states[i].handlers[h];
            && hd.accepted == SentTo(steps[..i], h)
            && hd.written <= SentTo(steps[..i], h) && |hd.written| == Written(steps[..i], h)
            && hd.responseStream == FirstSet(steps[..i], h)
            && (forall k :: 0 <= k < |hd.writtenTo| ==> FirstSet(steps[..i], h) == Some(hd.writtenTo[k]))
            && hd.events == CallbacksOf(steps[..i], h)
  {
    StateFromHistory(cfg, states, steps, i);
    assert HandlerMatches(cfg, steps[..i], h, states[i].handlers[h]);
    FifoConservation(cfg, states, steps, i, h);
    ResponseStreamLaw(cfg, states, steps, i, h);
  }

  /** A request is turned away for good if and only if there is a positive limit and the counter has reached
      it when the request arrives; a limit of zero or less turns nobody away. */
  lemma {:induction false} RejectedIff(cfg: Ws.Config, states: seq<State>, steps: seq<Step>, i: nat, j: nat, h: Id)
    requires IsRun(cfg, states, steps) && i < j < |states| && steps[i] == Arrive(h)
    ensures h in states[j].handlers
    ensures states[j].handlers[h].pc.Rejected? <==> cfg.maxConnections > 0 && Counted(steps[..i]) >= cfg.maxConnections
    decreases j
  {
    StateFromHistory(cfg, states, steps, i);
    if i + 1 < j {
      RejectedIff(cfg, states, steps, i, j - 1, h);
      RejectedStays(cfg, states[j - 1], steps[j - 1], h);
    }
  }

  lemma LocalRejected(cfg: Ws.Config, hd: Handler, stopped: bool, st: Step)
    requires LocallyEnabled(cfg, hd, stopped, st)
    ensures NextHandler(hd, st).pc.Rejected? == hd.pc.Rejected?
  {
  }

  lemma RejectedStays(cfg: Ws.Config, s: State, st: Step, h: Id)
    requires h in s.handlers && Enabled(cfg, s, st)
    ensures var s' := Apply(cfg, s, st);
            h in s'.handlers && s'.handlers[h].pc.Rejected? == s.handlers[h].pc.Rejected?
  {
    if st.h == h { LocalRejected(cfg, s.handlers[h], s.stopped, st); }
  }

  lemma FailureStep(cfg: Ws.Config, all: seq<Step>, past: seq<Step>, st: Step, h: Id)
    requires all == past + [st] && Allowed(cfg, past, st)
    requires LastControl(past, h) == Some(Authenticate(h, false)) || st == Authenticate(h, false)
    ensures LastControl(all, h) == Some(Authenticate(h, false))
    ensures LastControl(past, h) == Some(Authenticate(h, false)) && st.h == h ==> !IsControl(st)
  {
    assert (past + [st])[..|past|] == past;
  }

  lemma {:induction false} FailureIsFinal(cfg: Ws.Config, steps: seq<Step>, i: nat, j: nat, h: Id)
    requires IsHistory(cfg, steps) && i < j <= |steps| && steps[i] == Authenticate(h, false)
    ensures LastControl(steps[..j], h) == Some(Authenticate(h, false))
    decreases j
  {
    if i + 1 < j { FailureIsFinal(cfg, steps, i, j - 1, h); }
    PrefixGrows(steps, j);
    FailureStep(cfg, steps[..j], steps[..j - 1], steps[j - 1], h);
  }

  lemma LocalOpen(cfg: Ws.Config, hd: Handler, stopped: bool, st: Step)
    requires LocallyEnabled(cfg, hd, stopped, st) && !st.Close?
    requires BeforeConnect(NextHandler(hd, st).pc) && NextHandler(hd, st).done
    ensures BeforeConnect(hd.pc) && hd.done
  {
  }

  /** Before OnConnect returns only the application closes a connection. */
  lemma {:induction false} ClosedByApplication(cfg: Ws.Config, states: seq<State>, steps: seq<Step>, j: nat, h: Id)
    returns (k: nat)
    requires IsRun(cfg, states, steps) && j < |states| && h in states[j].handlers
    requires BeforeConnect(states[j].handlers[h].pc) && states[j].handlers[h].done
    ensures k < j && steps[k] == Close(h)
    decreases j
  {
    var s, st := states[j - 1], steps[j - 1];
    k := j - 1;
    if st != Close(h) {
      if st.h == h { LocalOpen(cfg, s.handlers[h], s.stopped, st); }
      k := ClosedByApplication(cfg, states, steps, j - 1, h);
    }
  }

  /** A client that fails to authenticate is never counted, inserted or reported to the application: its handler takes
      no further step.  And nothing but the application ever closes its connection object. */
  lemma FailedAuthentication(cfg: Ws.Config, states: seq<State>, steps: seq<Step>, i: nat, j: nat, h: Id)
    requires IsRun(cfg, states, steps) && i < j < |states| && steps[i] == Authenticate(h, false)
    ensures h in states[j].handlers && states[j].handlers[h].pc.AuthGone?
    ensures h !in states[j].connections && states[j].handlers[h].events == []
    ensures states[j].handlers[h].done ==> exists k :: 0 <= k < j && steps[k] == Close(h)
    ensures j < |steps| && steps[j].h == h ==> !IsControl(steps[j])
  {
    RunIsHistory(cfg, states, steps);
    FailureIsFinal(cfg, steps, i, j, h);
    if j < |steps| { FailureStep(cfg, steps[..j] + [steps[j]], steps[..j], steps[j], h); }
    FailedIsOut(cfg, states, steps, j, h);
    if states[j].handlers[h].done { var k := ClosedByApplication(cfg, states, steps, j, h); }
  }

  lemma FailedIsOut(cfg: Ws.Config, states: seq<State>, steps: seq<Step>, j: nat, h: Id)
    requires IsRun(cfg, states, steps) && j < |states| && LastControl(steps[..j], h) == Some(Authenticate(h, false))
    ensures h in states[j].handlers && states[j].handlers[h].pc.AuthGone?
    ensures h !in states[j].connections && states[j].handlers[h].events == []
  {
    StateFromHistory(cfg, states, steps, j);
    ReachableInv(cfg, states, steps, j);
    FailedPc(cfg, steps[..j], states[j], h);
    NotInTable(states[j], h);
  }

  lemma FailedPc(cfg: Ws.Config, past: seq<Step>, s: State, h: Id)
    requires HandlersMatch(cfg, past, s) && LastControl(past, h) == Some(Authenticate(h, false))
    ensures h in s.handlers && s.handlers[h].pc.AuthGone?
  {
    if h !in s.handlers { UntouchedIsBlank(cfg, past, h); }
    assert HandlerMatches(cfg, past, h, s.handlers[h]);
  }

  lemma NotInTable(s: State, h: Id)
    requires TableExact(s) && AllLocal(s) && h in s.handlers && s.handlers[h].pc.AuthGone?
    ensures h !in s.connections && s.handlers[h].events == []
  {
    assert LocalInv(s.handlers[h]);
  }
}
