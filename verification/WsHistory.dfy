/** The WebSocket server from its history: what the state is, and which step may come next, as a function of the
    steps taken so far and of nothing else.

    Nothing in the first part mentions a state or the transition system.  It says what the code promises in
    terms of what happened: which messages a connection was given, which callbacks were made, what a handler's own
    last step was.  The second part proves that the transition system of `WsServer` is exactly that, in every run.
 */
module WsHistory {
  import opened NestedMap
  import opened Wrappers
  import opened WsServer

  // ---------------------------------------------------------------- what happened

  /** A handler and its two pumps. */
  datatype Thread = Control | Writer | Reader

  predicate InThread(st: Step, t: Thread)
  {
    match t
    case Control => IsControl(st)
    case Writer => st.WTake? || st.WWrite? || st.WPing? || st.WStop? || st.WClose?
    case Reader => st.RRead? || st.RReturn? || st.RFail? || st.RDisconnected? || st.RClose?
  }

  /** The last step of one thread of `h`. */
  function Last(past: seq<Step>, h: Id, t: Thread): Option<Step>
  {
    if past == [] then None
    else
      var st := past[|past| - 1];
      if st.h == h && InThread(st, t) then Some(st) else Last(past[..|past| - 1], h, t)
  }

  /** The messages given to `Send` of `h` and accepted, in order. */
  function SentTo(past: seq<Step>, h: Id): seq<Msg>
  {
    if past == [] then []
    else
      var st := past[|past| - 1];
      SentTo(past[..|past| - 1], h) + if st.Send? && st.h == h then [st.m] else []
  }

  /** How many of them the write pump received, and how many it wrote. */
  function Taken(past: seq<Step>, h: Id): nat
  {
    if past == [] then 0
    else Taken(past[..|past| - 1], h) + if past[|past| - 1] == WTake(h) then 1 else 0
  }

  function Written(past: seq<Step>, h: Id): nat
  {
    if past == [] then 0
    else Written(past[..|past| - 1], h) + if past[|past| - 1] == WWrite(h, true) then 1 else 0
  }

  /** The callbacks made for `h`, in order; a message callback carries what was read. */
  function CallbacksOf(past: seq<Step>, h: Id): seq<Event>
  {
    if past == [] then []
    else
      var st := past[|past| - 1];
      CallbacksOf(past[..|past| - 1], h)
      + if st.h != h then []
        else match st
             case ConnectReturns(_, ok) => [if ok then ConnectOk else ConnectFailed]
             case RRead(_, m) => [Message(m)]
             case RFail(_) => [Disconnect]
             case _ => []
  }

  predicate Closes(st: Step) { st.AuthClose? || st.CloseRefused? || st.WClose? || st.RClose? || st.Close? }

  predicate ClosedIn(past: seq<Step>, h: Id)
  {
    past != [] &&
    var st := past[|past| - 1];
    (st.h == h && Closes(st)) || ClosedIn(past[..|past| - 1], h)
  }

  predicate UpgradedIn(past: seq<Step>, h: Id)
  {
    past != [] && (past[|past| - 1] == Upgrade(h, true) || UpgradedIn(past[..|past| - 1], h))
  }

  predicate StoppedIn(past: seq<Step>)
  {
    past != [] && (past[|past| - 1].Stop? || StoppedIn(past[..|past| - 1]))
  }

  predicate BindStartedIn(past: seq<Step>, h: Id, u: string)
  {
    past != [] && (past[|past| - 1] == BindStart(h, u) || BindStartedIn(past[..|past| - 1], h, u))
  }

  /** Connections counted and not uncounted, over all handlers. */
  function Counted(past: seq<Step>): int
  {
    if past == [] then 0
    else
      var st := past[|past| - 1];
      Counted(past[..|past| - 1]) + if st.Count? then 1 else if st.Uncount? || st.AuthUncount? then -1 else 0
  }

  /** `h` arrived when there was no limit, or fewer connections were counted than it allows. */
  predicate Admitted(cfg: Config, past: seq<Step>, h: Id)
  {
    past != [] &&
    if past[|past| - 1] == Arrive(h)
    then cfg.maxConnections <= 0 || Counted(past[..|past| - 1]) < cfg.maxConnections
    else Admitted(cfg, past[..|past| - 1], h)
  }

  /** The user that authentication named. */
  function AuthUser(past: seq<Step>, h: Id): string
  {
    if past == [] then ""
    else
      var st := past[|past| - 1];
      if st.Authenticate? && st.h == h && st.res.User? then st.res.u else AuthUser(past[..|past| - 1], h)
  }

  /** The user ID last set on the connection. */
  function UserOf(past: seq<Step>, h: Id): string
  {
    if past == [] then ""
    else
      var st := past[|past| - 1];
      if (st.SetUserID? || st.BindStart?) && st.h == h then st.u
      else if st == SetUser(h) then AuthUser(past[..|past| - 1], h)
      else UserOf(past[..|past| - 1], h)
  }

  /** The user ID that unregistering read. */
  function UserRead(past: seq<Step>, h: Id): string
  {
    if past == [] then ""
    else if past[|past| - 1] == ReadUser(h) then UserOf(past[..|past| - 1], h)
    else UserRead(past[..|past| - 1], h)
  }

  /** The users under which the connection was put into the user index and not removed since. */
  function IndexedUnder(past: seq<Step>, h: Id): set<string>
  {
    if past == [] then {}
    else
      var before, st := past[..|past| - 1], past[|past| - 1];
      if st.BindFinish? && st.h == h then IndexedUnder(before, h) + {st.u}
      else if st == IndexUser(h) then IndexedUnder(before, h) + {AuthUser(before, h)}
      else if st == Unindex(h) then IndexedUnder(before, h) - {UserRead(before, h)}
      else IndexedUnder(before, h)
  }

  /** Registered and not yet deleted. */
  predicate RegisteredIn(past: seq<Step>, h: Id)
  {
    past != [] &&
    var st := past[|past| - 1];
    st == Register(h) || (st != Delete(h) && RegisteredIn(past[..|past| - 1], h))
  }

  // ---------------------------------------------------------------- what may happen next

  predicate AtSelect(past: seq<Step>, h: Id)
  {
    var w := Last(past, h, Writer);
    && Last(past, h, Control) == Some(ConnectReturns(h, true))
    && (w.None? || w == Some(WWrite(h, true)) || w == Some(WPing(h, true)))
  }

  predicate AtRead(past: seq<Step>, h: Id)
  {
    var r := Last(past, h, Reader);
    if r.None? then Last(past, h, Control) == Some(ConnectReturns(h, true)) else r == Some(RReturn(h))
  }

  predicate ControlAllowed(cfg: Config, past: seq<Step>, st: Step)
    requires IsControl(st)
  {
    var h := st.h;
    var c := Last(past, h, Control);
    match st
    case Arrive(_) => c.None?
    case Upgrade(_, _) => c == Some(Arrive(h)) && Admitted(cfg, past, h)
    case Count(_) => c == Some(Upgrade(h, true))
    case Authenticate(_, res) => c == Some(Step.Count(h)) && cfg.auth == !res.Skipped? && (res.User? ==> res.u != "")
    case AuthClose(_) => c == Some(Authenticate(h, Failed))
    case AuthUncount(_) => c == Some(AuthClose(h))
    case SetUser(_) => c.Some? && c.value.Authenticate? && c.value.res.User?
    case IndexUser(_) => c == Some(SetUser(h))
    case Register(_) =>
      c == Some(IndexUser(h)) || c == Some(Authenticate(h, Skipped)) || c == Some(Authenticate(h, Anonymous))
    case ConnectReturns(_, _) => c == Some(Register(h))
    case CloseRefused(_) => c == Some(ConnectReturns(h, false))
    case Join(_) =>
      && c == Some(ConnectReturns(h, true))
      && Last(past, h, Writer) == Some(WClose(h)) && Last(past, h, Reader) == Some(RClose(h))
    case Delete(_) => c == Some(CloseRefused(h)) || c == Some(Join(h))
    case ReadUser(_) => c == Some(Delete(h))
    case Unindex(_) => c == Some(ReadUser(h)) && UserRead(past, h) != ""
    case Uncount(_) => c == Some(Unindex(h)) || (c == Some(ReadUser(h)) && UserRead(past, h) == "")
  }

  predicate PumpAllowed(past: seq<Step>, st: Step)
    requires IsPump(st)
  {
    var h := st.h;
    var w, r := Last(past, h, Writer), Last(past, h, Reader);
    match st
    case WTake(_) => AtSelect(past, h) && Taken(past, h) < |SentTo(past, h)|
    case WWrite(_, _) => w == Some(WTake(h))
    case WPing(_, _) => AtSelect(past, h)
    case WStop(_) => AtSelect(past, h) && (StoppedIn(past) || ClosedIn(past, h))
    case WClose(_) => w == Some(WWrite(h, false)) || w == Some(WPing(h, false)) || w == Some(WStop(h))
    case RRead(_, _) => AtRead(past, h)
    case RReturn(_) => r.Some? && r.value.RRead?
    case RFail(_) => AtRead(past, h)
    case RDisconnected(_) => r == Some(RFail(h))
    case RClose(_) => r == Some(RDisconnected(h))
  }

  predicate AppAllowed(past: seq<Step>, st: Step)
    requires IsApp(st)
  {
    match st
    case Send(h, _) => UpgradedIn(past, h) && |SentTo(past, h)| - Taken(past, h) < 256
    case BindFinish(h, u) => UpgradedIn(past, h) && BindStartedIn(past, h, u)
    case Stop(h) => Last(past, h, Control).Some?
    case _ => UpgradedIn(past, st.h)
  }

  /** Whether `st` may be the next step after `past`. */
  predicate Allowed(cfg: Config, past: seq<Step>, st: Step)
  {
    if IsControl(st) then ControlAllowed(cfg, past, st)
    else if IsPump(st) then PumpAllowed(past, st)
    else AppAllowed(past, st)
  }

  // ---------------------------------------------------------------- the state is the history

  /** The facts of the past that determine where a handler and its pumps are. */
  datatype Facts = Facts(
    control: Option<Step>, writer: Option<Step>, reader: Option<Step>,
    connected: bool, admitted: bool, authUser: string, userRead: string)

  function FactsOf(cfg: Config, past: seq<Step>, h: Id): Facts
  {
    Facts(Last(past, h, Control), Last(past, h, Writer), Last(past, h, Reader),
          Last(past, h, Control) == Some(ConnectReturns(h, true)),
          Admitted(cfg, past, h), AuthUser(past, h), UserRead(past, h))
  }

  /** Where a handler is, given its own last step. */
  function PcAfter(f: Facts): Pc
  {
    match f.control
    case None => Gone
    case Some(st) =>
      match st
      case Arrive(_) => if f.admitted then Checked else Rejected
      case Upgrade(_, ok) => if ok then Created else UpgradeFailed
      case Count(_) => Pc.Counted
      case Authenticate(_, res) =>
        (match res case Failed => AuthFailed case User(u) => Authenticated(u) case _ => Ready)
      case AuthClose(_) => AuthClosed
      case AuthUncount(_) => AuthGone
      case SetUser(_) => Binding(f.authUser)
      case IndexUser(_) => Ready
      case Register(_) => Registered
      case ConnectReturns(_, ok) => if ok then Pumping else ConnectRefused
      case CloseRefused(_) => Leaving
      case Join(_) => Leaving
      case Delete(_) => Deleted
      case ReadUser(_) => if f.userRead != "" then Unbinding(f.userRead) else Uncounting
      case Unindex(_) => Uncounting
      case _ => Gone
  }

  predicate WriterIs(f: Facts, w: WPc)
  {
    match f.writer
    case None => w == if f.connected then WSelect else WOff
    case Some(st) =>
      match st
      case WTake(_) => w.WHolding?
      case WWrite(_, ok) => w == if ok then WSelect else WClosing
      case WPing(_, ok) => w == if ok then WSelect else WClosing
      case WStop(_) => w.WClosing?
      case _ => w.WDone?
  }

  predicate ReaderIs(f: Facts, r: RPc)
  {
    match f.reader
    case None => r == if f.connected then RReading else ROff
    case Some(st) =>
      match st
      case RRead(_, _) => r.RInMessage?
      case RReturn(_) => r.RReading?
      case RFail(_) => r.RInDisconnect?
      case RDisconnected(_) => r.RClosing?
      case _ => r.RDone?
  }

  predicate PlaceIs(f: Facts, hd: Handler)
  {
    f.control.Some? && hd.pc == PcAfter(f) && WriterIs(f, hd.w) && ReaderIs(f, hd.r)
  }

  predicate PlaceMatches(cfg: Config, past: seq<Step>, h: Id, hd: Handler) { PlaceIs(FactsOf(cfg, past, h), hd) }

  predicate MessagesMatch(past: seq<Step>, h: Id, hd: Handler)
  {
    && hd.accepted == SentTo(past, h)
    && |hd.accepted| == Taken(past, h) + |hd.send|
    && |hd.written| == Written(past, h)
  }

  predicate ConnectionMatches(past: seq<Step>, h: Id, hd: Handler)
  {
    && hd.done == ClosedIn(past, h)
    && hd.userID == UserOf(past, h)
    && (hd.pc.Authenticated? ==> hd.pc.u == AuthUser(past, h))
  }

  ghost predicate HandlerMatches(cfg: Config, past: seq<Step>, h: Id, hd: Handler)
  {
    && MessagesMatch(past, h, hd) && hd.events == CallbacksOf(past, h)
    && ConnectionMatches(past, h, hd) && HasConnection(hd.pc) == UpgradedIn(past, h)
    && PlaceMatches(cfg, past, h, hd)
  }

  /** A step of another handler changes nothing that is said about `h`. */
  lemma Elsewhere(cfg: Config, past: seq<Step>, st: Step, h: Id)
    requires st.h != h
    ensures var all := past + [st];
            && SentTo(all, h) == SentTo(past, h) && CallbacksOf(all, h) == CallbacksOf(past, h)
            && Taken(all, h) == Taken(past, h) && Written(all, h) == Written(past, h)
            && ClosedIn(all, h) == ClosedIn(past, h) && UpgradedIn(all, h) == UpgradedIn(past, h)
            && UserOf(all, h) == UserOf(past, h) && AuthUser(all, h) == AuthUser(past, h)
            && UserRead(all, h) == UserRead(past, h)
            && IndexedUnder(all, h) == IndexedUnder(past, h) && RegisteredIn(all, h) == RegisteredIn(past, h)
            && Admitted(cfg, all, h) == Admitted(cfg, past, h)
    ensures forall t :: Last(past + [st], h, t) == Last(past, h, t)
  {
    assert (past + [st])[..|past|] == past;
  }

  lemma MessagesStep(cfg: Config, past: seq<Step>, st: Step, hd: Handler, stopped: bool)
    requires MessagesMatch(past, st.h, hd) && LocallyEnabled(cfg, hd, stopped, st)
    ensures MessagesMatch(past + [st], st.h, NextHandler(hd, st))
  {
    assert (past + [st])[..|past|] == past;
  }

  lemma CallbacksStep(cfg: Config, past: seq<Step>, st: Step, hd: Handler, stopped: bool)
    requires hd.events == CallbacksOf(past, st.h) && LocallyEnabled(cfg, hd, stopped, st)
    ensures NextHandler(hd, st).events == CallbacksOf(past + [st], st.h)
  {
    assert (past + [st])[..|past|] == past;
  }

  lemma UpgradedStep(cfg: Config, past: seq<Step>, st: Step, hd: Handler, stopped: bool)
    requires HasConnection(hd.pc) == UpgradedIn(past, st.h) && LocallyEnabled(cfg, hd, stopped, st)
    ensures HasConnection(NextHandler(hd, st).pc) == UpgradedIn(past + [st], st.h)
  {
    assert (past + [st])[..|past|] == past;
  }

  lemma ClosedStep(cfg: Config, past: seq<Step>, st: Step, hd: Handler, stopped: bool)
    requires hd.done == ClosedIn(past, st.h) && LocallyEnabled(cfg, hd, stopped, st)
    ensures NextHandler(hd, st).done == ClosedIn(past + [st], st.h)
  {
    assert (past + [st])[..|past|] == past;
  }

  lemma UserStep(cfg: Config, past: seq<Step>, st: Step, hd: Handler, stopped: bool)
    requires hd.userID == UserOf(past, st.h) && (hd.pc.Authenticated? ==> hd.pc.u == AuthUser(past, st.h))
    requires LocallyEnabled(cfg, hd, stopped, st)
    ensures NextHandler(hd, st).userID == UserOf(past + [st], st.h)
    ensures NextHandler(hd, st).pc.Authenticated? ==> NextHandler(hd, st).pc.u == AuthUser(past + [st], st.h)
  {
    assert (past + [st])[..|past|] == past;
  }

  lemma {:induction false} LastIsOwn(past: seq<Step>, h: Id, t: Thread)
    ensures Last(past, h, t).Some? ==> Last(past, h, t).value.h == h && InThread(Last(past, h, t).value, t)
    decreases |past|
  {
    if past != [] { LastIsOwn(past[..|past| - 1], h, t); }
  }

  /** Steps of one thread leave the last steps of the other two alone. */
  lemma LastStep(past: seq<Step>, st: Step, t: Thread)
    ensures Last(past + [st], st.h, t) == if InThread(st, t) then Some(st) else Last(past, st.h, t)
  {
    assert (past + [st])[..|past|] == past;
  }

  /** What one step of `h` does to those facts. */
  function NextFacts(f: Facts, st: Step, admits: bool, user: string): Facts
  {
    Facts(if IsControl(st) then Some(st) else f.control,
          if InThread(st, Writer) then Some(st) else f.writer,
          if InThread(st, Reader) then Some(st) else f.reader,
          if IsControl(st) then st == ConnectReturns(st.h, true) else f.connected,
          if st.Arrive? then admits else f.admitted,
          if st.Authenticate? && st.res.User? then st.res.u else f.authUser,
          if st.ReadUser? then user else f.userRead)
  }

  lemma FactsStep(cfg: Config, past: seq<Step>, st: Step)
    ensures FactsOf(cfg, past + [st], st.h) ==
            NextFacts(FactsOf(cfg, past, st.h), st,
                      cfg.maxConnections <= 0 || Counted(past) < cfg.maxConnections, UserOf(past, st.h))
  {
    assert (past + [st])[..|past|] == past;
  }

  lemma FactsElsewhere(cfg: Config, past: seq<Step>, st: Step, h: Id)
    requires st.h != h
    ensures FactsOf(cfg, past + [st], h) == FactsOf(cfg, past, h)
  {
    assert (past + [st])[..|past|] == past;
  }

  lemma WriterPlace(cfg: Config, f: Facts, st: Step, hd: Handler, stopped: bool, admits: bool, user: string)
    requires IsPump(st) && WriterIs(f, hd.w) && LocallyEnabled(cfg, hd, stopped, st)
    ensures WriterIs(NextFacts(f, st, admits, user), NextHandler(hd, st).w)
  {
  }

  lemma ReaderPlace(cfg: Config, f: Facts, st: Step, hd: Handler, stopped: bool, admits: bool, user: string)
    requires IsPump(st) && ReaderIs(f, hd.r) && LocallyEnabled(cfg, hd, stopped, st)
    ensures ReaderIs(NextFacts(f, st, admits, user), NextHandler(hd, st).r)
  {
  }

  lemma PumpFacts(f: Facts, st: Step, admits: bool, user: string)
    requires IsPump(st)
    ensures var g := NextFacts(f, st, admits, user); g.control == f.control && PcAfter(g) == PcAfter(f)
  {
  }

  lemma PumpPlace(cfg: Config, f: Facts, st: Step, hd: Handler, stopped: bool, admits: bool, user: string)
    requires IsPump(st) && PlaceIs(f, hd) && LocallyEnabled(cfg, hd, stopped, st)
    ensures PlaceIs(NextFacts(f, st, admits, user), NextHandler(hd, st))
  {
    PumpFrame(hd, st);
    PumpFacts(f, st, admits, user);
    WriterPlace(cfg, f, st, hd, stopped, admits, user);
    ReaderPlace(cfg, f, st, hd, stopped, admits, user);
  }

  lemma ControlPlace(cfg: Config, f: Facts, st: Step, hd: Handler, stopped: bool, admits: bool)
    requires IsControl(st) && PlaceIs(f, hd) && PhasesMatch(hd) && LocallyEnabled(cfg, hd, stopped, st)
    requires hd.pc.Authenticated? ==> hd.pc.u == f.authUser
    ensures PlaceIs(NextFacts(f, st, admits, hd.userID), NextHandler(hd, st))
  {
  }

  lemma PlaceStep(cfg: Config, f: Facts, st: Step, hd: Handler, stopped: bool, admits: bool)
    requires PlaceIs(f, hd) && PhasesMatch(hd) && LocallyEnabled(cfg, hd, stopped, st)
    requires hd.pc.Authenticated? ==> hd.pc.u == f.authUser
    ensures PlaceIs(NextFacts(f, st, admits, hd.userID), NextHandler(hd, st))
  {
    if IsApp(st) {
      AppFrame(hd, st);
    } else if IsPump(st) {
      PumpPlace(cfg, f, st, hd, stopped, admits, hd.userID);
    } else {
      ControlPlace(cfg, f, st, hd, stopped, admits);
    }
  }

  lemma HandlerStep(cfg: Config, past: seq<Step>, st: Step, hd: Handler, stopped: bool)
    requires HandlerMatches(cfg, past, st.h, hd) && LocalInv(hd) && LocallyEnabled(cfg, hd, stopped, st)
    ensures HandlerMatches(cfg, past + [st], st.h, NextHandler(hd, st))
  {
    MessagesStep(cfg, past, st, hd, stopped);
    CallbacksStep(cfg, past, st, hd, stopped);
    ClosedStep(cfg, past, st, hd, stopped);
    UserStep(cfg, past, st, hd, stopped);
    UpgradedStep(cfg, past, st, hd, stopped);
    FactsStep(cfg, past, st);
    PlaceStep(cfg, FactsOf(cfg, past, st.h), st, hd, stopped,
              cfg.maxConnections <= 0 || Counted(past) < cfg.maxConnections);
  }

  // ---------------------------------------------------------------- all handlers together

  ghost predicate Untouched(past: seq<Step>, h: Id)
  {
    forall i :: 0 <= i < |past| ==> past[i].h != h
  }

  lemma {:induction false} UntouchedIsBlank(cfg: Config, past: seq<Step>, h: Id)
    requires Untouched(past, h)
    ensures SentTo(past, h) == [] && CallbacksOf(past, h) == [] && Taken(past, h) == 0 && Written(past, h) == 0
    ensures !ClosedIn(past, h) && !UpgradedIn(past, h) && UserOf(past, h) == "" && IndexedUnder(past, h) == {}
    ensures !RegisteredIn(past, h) && forall t :: Last(past, h, t).None?
    decreases |past|
  {
    if past != [] {
      UntouchedIsBlank(cfg, past[..|past| - 1], h);
      Elsewhere(cfg, past[..|past| - 1], past[|past| - 1], h);
      assert past[..|past| - 1] + [past[|past| - 1]] == past;
    }
  }

  ghost predicate HandlersMatch(cfg: Config, past: seq<Step>, s: State)
  {
    && (forall h :: h in s.handlers ==> HandlerMatches(cfg, past, h, s.handlers[h]))
    && (forall h :: h !in s.handlers ==> Untouched(past, h))
  }

  ghost predicate SharedMatches(past: seq<Step>, s: State)
  {
    && s.connCount == Counted(past) && s.stopped == StoppedIn(past)
    && (forall h :: h in s.connections <==> RegisteredIn(past, h))
    && (forall h: Id, u: string :: (h, u) in s.binds <==> BindStartedIn(past, h, u))
  }

  ghost predicate IndexMatches(past: seq<Step>, s: State)
  {
    forall h, u :: Has(s.userConns, u, h) <==> u in IndexedUnder(past, h)
  }

  /** Everything a state holds, as a function of the past. */
  ghost predicate StateMatches(cfg: Config, past: seq<Step>, s: State)
  {
    HandlersMatch(cfg, past, s) && SharedMatches(past, s) && IndexMatches(past, s)
  }

  lemma ArriveMatches(cfg: Config, past: seq<Step>, h: Id)
    requires Untouched(past, h)
    ensures var over := cfg.maxConnections > 0 && Counted(past) >= cfg.maxConnections;
            HandlerMatches(cfg, past + [Arrive(h)], h, NewHandler(if over then Rejected else Checked))
  {
    UntouchedIsBlank(cfg, past, h);
    FactsStep(cfg, past, Arrive(h));
    assert (past + [Arrive(h)])[..|past|] == past;
  }

  lemma StepMatchesHandlers(cfg: Config, past: seq<Step>, s: State, st: Step)
    requires HandlersMatch(cfg, past, s) && s.connCount == Counted(past) && AllLocal(s) && Enabled(cfg, s, st)
    ensures HandlersMatch(cfg, past + [st], Apply(cfg, s, st))
  {
    var s' := Apply(cfg, s, st);
    forall h | h in s'.handlers ensures HandlerMatches(cfg, past + [st], h, s'.handlers[h]) {
      if h != st.h {
        assert HandlerMatches(cfg, past, h, s.handlers[h]);
        Unmoved(cfg, past, st, h, s.handlers[h]);
      } else if st.Arrive? {
        ArriveMatches(cfg, past, h);
      } else {
        assert LocalInv(s.handlers[h]);
        HandlerStep(cfg, past, st, s.handlers[h], s.stopped);
      }
    }
    forall h | h !in s'.handlers ensures Untouched(past + [st], h) { assert Untouched(past, h); }
  }

  lemma PlaceUnmoved(cfg: Config, past: seq<Step>, st: Step, h: Id, hd: Handler)
    requires st.h != h && PlaceMatches(cfg, past, h, hd)
    ensures PlaceMatches(cfg, past + [st], h, hd)
  {
    FactsElsewhere(cfg, past, st, h);
  }

  lemma Unmoved(cfg: Config, past: seq<Step>, st: Step, h: Id, hd: Handler)
    requires st.h != h && HandlerMatches(cfg, past, h, hd)
    ensures HandlerMatches(cfg, past + [st], h, hd)
  {
    PlaceUnmoved(cfg, past, st, h, hd);
    Elsewhere(cfg, past, st, h);
  }

  lemma StepMatchesShared(cfg: Config, past: seq<Step>, s: State, st: Step)
    requires SharedMatches(past, s) && Enabled(cfg, s, st)
    ensures SharedMatches(past + [st], Apply(cfg, s, st))
  {
    assert (past + [st])[..|past|] == past;
  }

  lemma StepMatchesIndex(cfg: Config, past: seq<Step>, s: State, st: Step)
    requires IndexMatches(past, s) && HandlersMatch(cfg, past, s) && Enabled(cfg, s, st)
    ensures IndexMatches(past + [st], Apply(cfg, s, st))
  {
    forall h { IndexStep(past, st, h); }
    if !st.Arrive? {
      var hd := s.handlers[st.h];
      assert HandlerMatches(cfg, past, st.h, hd);
      ChangeIsHistory(cfg, past, st, hd, s.stopped);
      IndexAfter(s.userConns, st.h, ChangeOf(hd, st));
    }
  }

  lemma IndexStep(past: seq<Step>, st: Step, h: Id)
    ensures IndexedUnder(past + [st], h) ==
            if h != st.h then IndexedUnder(past, h)
            else if st.BindFinish? then IndexedUnder(past, h) + {st.u}
            else if st.IndexUser? then IndexedUnder(past, h) + {AuthUser(past, h)}
            else if st.Unindex? then IndexedUnder(past, h) - {UserRead(past, h)}
            else IndexedUnder(past, h)
  {
    assert (past + [st])[..|past|] == past;
  }

  lemma ChangeIsHistory(cfg: Config, past: seq<Step>, st: Step, hd: Handler, stopped: bool)
    requires PlaceMatches(cfg, past, st.h, hd) && LocallyEnabled(cfg, hd, stopped, st)
    ensures ChangeOf(hd, st) ==
            if st.BindFinish? then Added(st.u)
            else if st.IndexUser? then Added(AuthUser(past, st.h))
            else if st.Unindex? then Removed(UserRead(past, st.h))
            else Same
  {
  }

  lemma NothingYet(cfg: Config)
    ensures StateMatches(cfg, [], INIT)
  {
  }

  lemma StepMatches(cfg: Config, past: seq<Step>, s: State, st: Step)
    requires StateMatches(cfg, past, s) && AllLocal(s) && Enabled(cfg, s, st)
    ensures StateMatches(cfg, past + [st], Apply(cfg, s, st))
  {
    StepMatchesHandlers(cfg, past, s, st);
    StepMatchesShared(cfg, past, s, st);
    StepMatchesIndex(cfg, past, s, st);
  }

  lemma PrefixGrows(steps: seq<Step>, j: nat)
    requires 0 < j <= |steps|
    ensures steps[..j] == steps[..j - 1] + [steps[j - 1]]
  {
  }

  /** In every run, the state is what the steps taken so far say it is. */
  lemma {:induction false} StateFromHistory(cfg: Config, states: seq<State>, steps: seq<Step>, i: nat)
    requires IsRun(cfg, states, steps) && i < |states|
    ensures StateMatches(cfg, steps[..i], states[i])
    decreases i
  {
    if i == 0 {
      NothingYet(cfg);
    } else {
      StateFromHistory(cfg, states, steps, i - 1);
      ReachableInv(cfg, states, steps, i - 1);
      PrefixGrows(steps, i);
      StepMatches(cfg, steps[..i - 1], states[i - 1], steps[i - 1]);
    }
  }

  // ---------------------------------------------------------------- and so is what may happen next

  lemma ControlAllowedIff(cfg: Config, past: seq<Step>, st: Step, hd: Handler, stopped: bool)
    requires IsControl(st) && !st.Arrive? && PlaceMatches(cfg, past, st.h, hd) && PhasesMatch(hd)
    ensures LocallyEnabled(cfg, hd, stopped, st) <==> ControlAllowed(cfg, past, st)
  {
    LastIsOwn(past, st.h, Control);
    LastIsOwn(past, st.h, Writer);
    LastIsOwn(past, st.h, Reader);
  }

  lemma AtSelectIff(cfg: Config, past: seq<Step>, h: Id, hd: Handler)
    requires PlaceMatches(cfg, past, h, hd) && PhasesMatch(hd)
    ensures AtSelect(past, h) <==> hd.w.WSelect?
    ensures AtRead(past, h) <==> hd.r.RReading?
  {
    LastIsOwn(past, h, Control);
    LastIsOwn(past, h, Writer);
    LastIsOwn(past, h, Reader);
  }

  lemma PumpAllowedIff(cfg: Config, past: seq<Step>, st: Step, hd: Handler, stopped: bool)
    requires IsPump(st) && PlaceMatches(cfg, past, st.h, hd) && PhasesMatch(hd) && stopped == StoppedIn(past)
    requires MessagesMatch(past, st.h, hd) && hd.done == ClosedIn(past, st.h)
    ensures LocallyEnabled(cfg, hd, stopped, st) <==> PumpAllowed(past, st)
  {
    AtSelectIff(cfg, past, st.h, hd);
    LastIsOwn(past, st.h, Writer);
    LastIsOwn(past, st.h, Reader);
  }

  lemma AppAllowedIff(cfg: Config, past: seq<Step>, s: State, st: Step)
    requires IsApp(st) && st.h in s.handlers
    requires st.BindFinish? ==> ((st.h, st.u) in s.binds <==> BindStartedIn(past, st.h, st.u))
    requires PlaceMatches(cfg, past, st.h, s.handlers[st.h]) && MessagesMatch(past, st.h, s.handlers[st.h])
    requires HasConnection(s.handlers[st.h].pc) == UpgradedIn(past, st.h)
    ensures Enabled(cfg, s, st) <==> Allowed(cfg, past, st)
  {
  }

  lemma UnknownAllowedIff(cfg: Config, past: seq<Step>, st: Step)
    requires Untouched(past, st.h)
    ensures Allowed(cfg, past, st) <==> st.Arrive?
  {
    UntouchedIsBlank(cfg, past, st.h);
  }

  lemma AllowedIff(cfg: Config, past: seq<Step>, s: State, st: Step)
    requires StateMatches(cfg, past, s) && AllLocal(s)
    ensures Enabled(cfg, s, st) <==> Allowed(cfg, past, st)
  {
    if st.h !in s.handlers {
      UnknownAllowedIff(cfg, past, st);
    } else {
      Unpack(cfg, past, s, st.h);
      if IsControl(st) {
        KnownControl(cfg, past, s, st);
      } else if IsPump(st) {
        KnownPump(cfg, past, s, st);
      } else {
        AppAllowedIff(cfg, past, s, st);
      }
    }
  }

  lemma Unpack(cfg: Config, past: seq<Step>, s: State, h: Id)
    requires HandlersMatch(cfg, past, s) && AllLocal(s) && h in s.handlers
    ensures PlaceMatches(cfg, past, h, s.handlers[h]) && MessagesMatch(past, h, s.handlers[h])
    ensures s.handlers[h].done == ClosedIn(past, h) && PhasesMatch(s.handlers[h])
    ensures HasConnection(s.handlers[h].pc) == UpgradedIn(past, h)
  {
    assert HandlerMatches(cfg, past, h, s.handlers[h]) && LocalInv(s.handlers[h]);
  }

  lemma LocalCase(cfg: Config, s: State, st: Step)
    requires st.h in s.handlers && !st.Arrive? && !st.BindFinish?
    ensures Enabled(cfg, s, st) == LocallyEnabled(cfg, s.handlers[st.h], s.stopped, st)
  {
  }

  lemma KnownControl(cfg: Config, past: seq<Step>, s: State, st: Step)
    requires IsControl(st) && st.h in s.handlers && PlaceMatches(cfg, past, st.h, s.handlers[st.h])
    requires PhasesMatch(s.handlers[st.h])
    ensures Enabled(cfg, s, st) <==> Allowed(cfg, past, st)
  {
    if !st.Arrive? {
      LocalCase(cfg, s, st);
      ControlAllowedIff(cfg, past, st, s.handlers[st.h], s.stopped);
    }
  }

  lemma KnownPump(cfg: Config, past: seq<Step>, s: State, st: Step)
    requires IsPump(st) && st.h in s.handlers && PlaceMatches(cfg, past, st.h, s.handlers[st.h])
    requires PhasesMatch(s.handlers[st.h]) && MessagesMatch(past, st.h, s.handlers[st.h])
    requires s.handlers[st.h].done == ClosedIn(past, st.h) && s.stopped == StoppedIn(past)
    ensures Enabled(cfg, s, st) <==> Allowed(cfg, past, st)
  {
    LocalCase(cfg, s, st);
    PumpAllowedIff(cfg, past, st, s.handlers[st.h], s.stopped);
  }

  /** And in every reachable state, a step is enabled exactly if the past allows it. */
  lemma EnabledFromHistory(cfg: Config, states: seq<State>, steps: seq<Step>, i: nat, st: Step)
    requires IsRun(cfg, states, steps) && i < |states|
    ensures Enabled(cfg, states[i], st) <==> Allowed(cfg, steps[..i], st)
  {
    StateFromHistory(cfg, states, steps, i);
    ReachableInv(cfg, states, steps, i);
    AllowedIff(cfg, steps[..i], states[i], st);
  }

  /** Every step is allowed by the steps before it. */
  ghost predicate IsHistory(cfg: Config, steps: seq<Step>)
  {
    forall i :: 0 <= i < |steps| ==> Allowed(cfg, steps[..i], steps[i])
  }

  lemma RunIsHistory(cfg: Config, states: seq<State>, steps: seq<Step>)
    requires IsRun(cfg, states, steps)
    ensures IsHistory(cfg, steps)
  {
    forall i | 0 <= i < |steps| ensures Allowed(cfg, steps[..i], steps[i]) {
      EnabledFromHistory(cfg, states, steps, i, steps[i]);
    }
  }

  // ---------------------------------------------------------------- what follows

  /** What the client is written is a prefix, as long as there were successful writes, of the messages given to `Send`,
      and the callbacks are those of the steps taken, each message callback with the message that was read. */
  lemma MessagesFromHistory(cfg: Config, states: seq<State>, steps: seq<Step>, i: nat, h: Id)
    requires IsRun(cfg, states, steps) && i < |states| && h in states[i].handlers
    ensures var hd := states[i].handlers[h];
            && hd.accepted == SentTo(steps[..i], h)
            && hd.written <= SentTo(steps[..i], h) && |hd.written| == Written(steps[..i], h)
            && hd.events == CallbacksOf(steps[..i], h)
  {
    StateFromHistory(cfg, states, steps, i);
    assert HandlerMatches(cfg, steps[..i], h, states[i].handlers[h]);
    FifoConservation(cfg, states, steps, i, h);
  }

  /** The tables: which connections are registered, and under which users each is indexed. */
  lemma TablesFromHistory(cfg: Config, states: seq<State>, steps: seq<Step>, i: nat, h: Id)
    requires IsRun(cfg, states, steps) && i < |states|
    ensures h in states[i].connections <==> RegisteredIn(steps[..i], h)
    ensures forall u :: Has(states[i].userConns, u, h) <==> u in IndexedUnder(steps[..i], h)
    ensures states[i].connCount == Counted(steps[..i])
  {
    StateFromHistory(cfg, states, steps, i);
  }

  /** A request is turned away for good if and only if there is a positive limit and at least as many
      connections are counted when it arrives; a limit of zero or less turns nobody away. */
  lemma {:induction false} RejectedIff(cfg: Config, states: seq<State>, steps: seq<Step>, i: nat, j: nat, h: Id)
    requires IsRun(cfg, states, steps) && i < j < |states| && steps[i] == Arrive(h)
    ensures h in states[j].handlers
    ensures states[j].handlers[h].pc.Rejected? <==> cfg.maxConnections > 0 && Counted(steps[..i]) >= cfg.maxConnections
    decreases j
  {
    StateFromHistory(cfg, states, steps, i);
    if i + 1 < j {
      RejectedIff(cfg, states, steps, i, j - 1, h);
      RejectedStays(cfg, states[j - 1], steps[j - 1], h);
    }
  }

  lemma LocalRejected(cfg: Config, hd: Handler, stopped: bool, st: Step)
    requires LocallyEnabled(cfg, hd, stopped, st)
    ensures NextHandler(hd, st).pc.Rejected? == hd.pc.Rejected?
  {
  }

  lemma RejectedStays(cfg: Config, s: State, st: Step, h: Id)
    requires h in s.handlers && Enabled(cfg, s, st)
    ensures var s' := Apply(cfg, s, st);
            h in s'.handlers && s'.handlers[h].pc.Rejected? == s.handlers[h].pc.Rejected?
  {
    if st.h == h { LocalRejected(cfg, s.handlers[h], s.stopped, st); }
  }

  predicate AfterFailure(c: Option<Step>, h: Id)
  {
    c == Some(Authenticate(h, Failed)) || c == Some(AuthClose(h)) || c == Some(AuthUncount(h))
  }

  lemma AfterFailureStep(cfg: Config, past: seq<Step>, st: Step, h: Id)
    requires AfterFailure(Last(past, h, Control), h) && Allowed(cfg, past, st)
    ensures AfterFailure(Last(past + [st], h, Control), h)
    ensures st.h == h && IsControl(st) ==> st == AuthClose(h) || st == AuthUncount(h)
  {
    if st.h == h { LastStep(past, st, Control); } else { LastElsewhere(past, st, h); }
  }

  lemma LastElsewhere(past: seq<Step>, st: Step, h: Id)
    requires st.h != h
    ensures Last(past + [st], h, Control) == Last(past, h, Control)
    ensures AuthUser(past + [st], h) == AuthUser(past, h) && IndexedUnder(past + [st], h) == IndexedUnder(past, h)
  {
    assert (past + [st])[..|past|] == past;
  }

  lemma FailureStep(cfg: Config, all: seq<Step>, past: seq<Step>, st: Step, h: Id)
    requires all == past + [st] && Allowed(cfg, past, st)
    requires AfterFailure(Last(past, h, Control), h) || st == Authenticate(h, Failed)
    ensures AfterFailure(Last(all, h, Control), h)
  {
    if st == Authenticate(h, Failed) { LastStep(past, st, Control); } else { AfterFailureStep(cfg, past, st, h); }
  }

  lemma {:induction false} FailureIsFinal(cfg: Config, steps: seq<Step>, i: nat, j: nat, h: Id)
    requires IsHistory(cfg, steps) && i < j <= |steps| && steps[i] == Authenticate(h, Failed)
    ensures AfterFailure(Last(steps[..j], h, Control), h)
    decreases j
  {
    if i + 1 < j { FailureIsFinal(cfg, steps, i, j - 1, h); }
    PrefixGrows(steps, j);
    FailureStep(cfg, steps[..j], steps[..j - 1], steps[j - 1], h);
  }

  /** A client that fails to authenticate is never registered, never reported to the application, and all its
      handler still does is close the connection, take it out of the counter, and end. */
  lemma FailedAuthentication(cfg: Config, states: seq<State>, steps: seq<Step>, i: nat, j: nat, h: Id)
    requires IsRun(cfg, states, steps) && i < j < |states| && steps[i] == Authenticate(h, Failed)
    ensures h in states[j].handlers && h !in states[j].connections && states[j].handlers[h].events == []
    ensures states[j].handlers[h].pc.AuthGone? ==> states[j].handlers[h].done
    ensures j < |steps| && steps[j].h == h && IsControl(steps[j]) ==>
              steps[j] == AuthClose(h) || steps[j] == AuthUncount(h)
    ensures Enabled(cfg, states[j], AuthClose(h)) || Enabled(cfg, states[j], AuthUncount(h))
         || states[j].handlers[h].pc.AuthGone?
  {
    RunIsHistory(cfg, states, steps);
    FailureIsFinal(cfg, steps, i, j, h);
    if j < |steps| { AfterFailureStep(cfg, steps[..j], steps[j], h); }
    StaysOut(cfg, states, steps, j, h);
  }

  lemma StaysOut(cfg: Config, states: seq<State>, steps: seq<Step>, j: nat, h: Id)
    requires IsRun(cfg, states, steps) && j < |states| && AfterFailure(Last(steps[..j], h, Control), h)
    ensures h in states[j].handlers && h !in states[j].connections && states[j].handlers[h].events == []
    ensures states[j].handlers[h].pc.AuthGone? ==> states[j].handlers[h].done
    ensures Enabled(cfg, states[j], AuthClose(h)) || Enabled(cfg, states[j], AuthUncount(h))
         || states[j].handlers[h].pc.AuthGone?
  {
    StateFromHistory(cfg, states, steps, j);
    ReachableInv(cfg, states, steps, j);
    if h !in states[j].handlers { UntouchedIsBlank(cfg, steps[..j], h); }
    Unpack(cfg, steps[..j], states[j], h);
    FailedPc(cfg, steps[..j], h, states[j].handlers[h]);
    NotInTable(states[j], h);
    FailedMayEnd(cfg, states[j], h);
  }

  lemma FailedPc(cfg: Config, past: seq<Step>, h: Id, hd: Handler)
    requires PlaceMatches(cfg, past, h, hd) && AfterFailure(Last(past, h, Control), h)
    ensures hd.pc.AuthFailed? || hd.pc.AuthClosed? || hd.pc.AuthGone?
  {
  }

  lemma NotInTable(s: State, h: Id)
    requires TableExact(s) && AllLocal(s) && h in s.handlers
    requires s.handlers[h].pc.AuthFailed? || s.handlers[h].pc.AuthClosed? || s.handlers[h].pc.AuthGone?
    ensures h !in s.connections && s.handlers[h].events == [] && (s.handlers[h].pc.AuthGone? ==> s.handlers[h].done)
  {
    assert LocalInv(s.handlers[h]);
  }

  lemma FailedMayEnd(cfg: Config, s: State, h: Id)
    requires h in s.handlers
    requires s.handlers[h].pc.AuthFailed? || s.handlers[h].pc.AuthClosed? || s.handlers[h].pc.AuthGone?
    ensures Enabled(cfg, s, AuthClose(h)) || Enabled(cfg, s, AuthUncount(h)) || s.handlers[h].pc.AuthGone?
  {
  }

  /** On the way to registering as `u`; afterwards; or registered. */
  predicate AsUser(past: seq<Step>, h: Id, u: string)
  {
    var c := Last(past, h, Control);
    c.Some? &&
    match c.value
    case Authenticate(_, res) => res == User(u) && AuthUser(past, h) == u
    case SetUser(_) => AuthUser(past, h) == u
    case IndexUser(_) => AuthUser(past, h) == u && u in IndexedUnder(past, h)
    case Arrive(_) => false case Upgrade(_, _) => false case Count(_) => false
    case AuthClose(_) => false case AuthUncount(_) => false
    case _ => true
  }

  lemma AsUserStart(past: seq<Step>, h: Id, u: string)
    ensures AsUser(past + [Authenticate(h, User(u))], h, u)
  {
    assert (past + [Authenticate(h, User(u))])[..|past|] == past;
  }

  lemma AsUserGoesOn(cfg: Config, past: seq<Step>, st: Step, u: string)
    requires AsUser(past, st.h, u) && Allowed(cfg, past, st)
    ensures AsUser(past + [st], st.h, u)
  {
    LastStep(past, st, Control);
    IndexStep(past, st, st.h);
    AuthUserKept(past, st);
  }

  lemma AuthUserKept(past: seq<Step>, st: Step)
    ensures !st.Authenticate? ==> AuthUser(past + [st], st.h) == AuthUser(past, st.h)
  {
    assert (past + [st])[..|past|] == past;
  }

  lemma AsUserStep(cfg: Config, all: seq<Step>, past: seq<Step>, st: Step, h: Id, u: string)
    requires all == past + [st] && Allowed(cfg, past, st)
    requires AsUser(past, h, u) || st == Authenticate(h, User(u))
    ensures AsUser(all, h, u)
  {
    if st == Authenticate(h, User(u)) {
      AsUserStart(past, h, u);
    } else if st.h == h {
      AsUserGoesOn(cfg, past, st, u);
    } else {
      LastElsewhere(past, st, h);
    }
  }

  lemma {:induction false} AsUserUntil(cfg: Config, steps: seq<Step>, i: nat, j: nat, h: Id, u: string)
    requires IsHistory(cfg, steps) && i < j <= |steps| && steps[i] == Authenticate(h, User(u))
    ensures AsUser(steps[..j], h, u)
    decreases j
  {
    if i + 1 < j { AsUserUntil(cfg, steps, i, j - 1, h, u); }
    PrefixGrows(steps, j);
    AsUserStep(cfg, steps[..j], steps[..j - 1], steps[j - 1], h, u);
  }

  /** A client authenticated as `u` is in the user index under `u` by the time it is registered. */
  lemma AuthenticatedIsIndexed(cfg: Config, states: seq<State>, steps: seq<Step>, i: nat, j: nat, h: Id, u: string)
    requires IsRun(cfg, states, steps) && i < j < |steps|
    requires steps[i] == Authenticate(h, User(u)) && steps[j] == Register(h)
    ensures Has(states[j].userConns, u, h)
  {
    RunIsHistory(cfg, states, steps);
    AsUserUntil(cfg, steps, i, j, h, u);
    assert Allowed(cfg, steps[..j], steps[j]);
    TablesFromHistory(cfg, states, steps, j, h);
  }

  /** The last step of a thread happened, and was allowed. */
  lemma {:induction false} LastHappened(cfg: Config, steps: seq<Step>, j: nat, h: Id, t: Thread) returns (k: nat)
    requires IsHistory(cfg, steps) && j <= |steps| && Last(steps[..j], h, t).Some?
    ensures k < j && Last(steps[..j], h, t) == Some(steps[k]) && steps[k].h == h && Allowed(cfg, steps[..k], steps[k])
    decreases j
  {
    k := j - 1;
    assert steps[..j][..k] == steps[..k];
    if !(steps[k].h == h && InThread(steps[k], t)) { k := LastHappened(cfg, steps, k, h, t); }
  }

  /** With authentication on, nobody is registered without having passed it; with it off, nobody is asked. */
  lemma RegisteredIsAuthenticated(cfg: Config, steps: seq<Step>, j: nat, h: Id) returns (i: nat)
    requires IsHistory(cfg, steps) && j < |steps| && steps[j] == Register(h)
    ensures i < j && steps[i].Authenticate? && steps[i].h == h && !steps[i].res.Failed?
    ensures cfg.auth == !steps[i].res.Skipped?
  {
    assert Allowed(cfg, steps[..j], steps[j]);
    i := LastHappened(cfg, steps, j, h, Control);
    if steps[i].IndexUser? {
      i := LastHappened(cfg, steps, i, h, Control);
      i := LastHappened(cfg, steps, i, h, Control);
    }
  }
}
