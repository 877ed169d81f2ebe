/** The hybrid server's connection registry, hybrid/server.go, composed with both protocol servers.

    The wrappers around the application's handler run inside the protocol servers' callbacks: `RegisterConnection`
    inside OnConnect, `UnregisterConnection` inside OnDisconnect.  A hybrid run is therefore any interleaving of
    WebSocket steps, WebTransport steps and the two registry steps, where a callback returns only after its wrapper has
    done its part.  The registry's counter is a plain `int64` updated without synchronisation; each update is
    taken to be atomic and to happen together with the map update beside it.
 */
module Hybrid {
  import Ws = WsServer
  import Wt = WtServer

  datatype Ref = WsRef(h: Ws.Id) | WtRef(h: Wt.Id)

  /** `entered` and `left` record which sessions have run `RegisterConnection` and `UnregisterConnection`. */
  datatype State = State(
    ws: Ws.State, wt: Wt.State, connections: set<Ref>, connCount: int, entered: set<Ref>, left: set<Ref>)

  datatype Config = Config(ws: Ws.Config, wt: Ws.Config)

  datatype Step =
    | WsStep(ws: Ws.Step)
    | WtStep(wt: Wt.Step)
    | RegisterConnection(ref: Ref)
    | UnregisterConnection(ref: Ref)

  const INIT := State(Ws.INIT, Wt.INIT, {}, 0, {}, {})

  predicate Enabled(cfg: Config, s: State, st: Step)
  {
    match st
    case WsStep(w) =>
      && Ws.Enabled(cfg.ws, s.ws, w)
      && (w.ConnectReturns? ==> WsRef(w.h) in s.entered)
      && (w.RDisconnected? ==> WsRef(w.h) in s.left)
    case WtStep(w) =>
      && Wt.Enabled(cfg.wt, s.wt, w)
      && (w.ConnectReturns? ==> WtRef(w.h) in s.entered)
    case RegisterConnection(ref) =>
      && ref !in s.entered
      && (ref.WsRef? ==> ref.h in s.ws.handlers && s.ws.handlers[ref.h].pc.Registered?)
      && (ref.WtRef? ==> ref.h in s.wt.handlers && s.wt.handlers[ref.h].pc.Registered?)
    case UnregisterConnection(ref) =>
      && ref.WsRef? && ref !in s.left
      && ref.h in s.ws.handlers && s.ws.handlers[ref.h].r.RInDisconnect?
  }

  function Apply(cfg: Config, s: State, st: Step): State
    requires Enabled(cfg, s, st)
  {
    match st
    case WsStep(w) => s.(ws := Ws.Apply(cfg.ws, s.ws, w))
    case WtStep(w) => s.(wt := Wt.Apply(cfg.wt, s.wt, w))
    case RegisterConnection(ref) =>
      s.(connections := s.connections + {ref}, connCount := s.connCount + 1, entered := s.entered + {ref})
    case UnregisterConnection(ref) =>
      s.(connections := s.connections - {ref}, connCount := s.connCount - 1, left := s.left + {ref})
  }

  ghost predicate IsRun(cfg: Config, states: seq<State>, steps: seq<Step>)
  {
    && |states| == |steps| + 1 && states[0] == INIT
    && forall i :: 0 <= i < |steps| ==>
         Enabled(cfg, states[i], steps[i]) && states[i + 1] == Apply(cfg, states[i], steps[i])
  }

  // ---------------------------------------------------------------- invariant

  /** What one WebSocket handler's position says about its registry entries. */
  predicate WsPart(hd: Ws.Handler, entered: bool, left: bool)
  {
    && (!Ws.BeforeConnect(hd.pc) ==> entered)
    && (Ws.BeforeConnect(hd.pc) && !hd.pc.Registered? ==> !entered)
    && (left ==> entered && Ws.Disconnecting(hd.r))
    && (hd.r.RClosing? || hd.r.RDone? ==> left)
  }

  predicate WtPart(hd: Wt.Handler, entered: bool)
  {
    && (!Wt.BeforeConnect(hd.pc) ==> entered)
    && (Wt.BeforeConnect(hd.pc) && !hd.pc.Registered? ==> !entered)
  }

  ghost predicate Inv(s: State)
  {
    Ws.Inv(s.ws) && Wt.Inv(s.wt) && Registry(s) && WsParts(s) && WtParts(s)
  }

  ghost predicate Registry(s: State)
  {
    && s.connections == s.entered - s.left
    && s.connCount == |s.connections|
    && (forall h :: WsRef(h) in s.entered + s.left ==> h in s.ws.handlers)
    && (forall h :: WtRef(h) in s.entered ==> h in s.wt.handlers)
    && (forall h :: WtRef(h) !in s.left)
  }

  ghost predicate WsParts(s: State)
  {
    forall h :: h in s.ws.handlers ==> WsPart(s.ws.handlers[h], WsRef(h) in s.entered, WsRef(h) in s.left)
  }

  ghost predicate WtParts(s: State)
  {
    forall h :: h in s.wt.handlers ==> WtPart(s.wt.handlers[h], WtRef(h) in s.entered)
  }

  lemma WsPumpPart(cfg: Ws.Config, hd: Ws.Handler, stopped: bool, st: Ws.Step, entered: bool, left: bool)
    requires Ws.IsPump(st) && Ws.PhasesMatch(hd) && WsPart(hd, entered, left) && Ws.LocallyEnabled(cfg, hd, stopped, st)
    requires st.RDisconnected? ==> left
    ensures left ==> Ws.Disconnecting(Ws.NextHandler(hd, st).r)
    ensures Ws.NextHandler(hd, st).r.RClosing? || Ws.NextHandler(hd, st).r.RDone? ==> left
  {
  }

  lemma WsControlPart(cfg: Ws.Config, hd: Ws.Handler, stopped: bool, st: Ws.Step, entered: bool, left: bool)
    requires Ws.IsControl(st) && Ws.PhasesMatch(hd) && WsPart(hd, entered, left)
    requires Ws.LocallyEnabled(cfg, hd, stopped, st)
    requires st.ConnectReturns? ==> entered
    ensures WsPart(Ws.NextHandler(hd, st), entered, left)
  {
  }

  lemma WsPartStep(cfg: Ws.Config, hd: Ws.Handler, stopped: bool, st: Ws.Step, entered: bool, left: bool)
    requires Ws.PhasesMatch(hd) && WsPart(hd, entered, left) && Ws.LocallyEnabled(cfg, hd, stopped, st)
    requires st.ConnectReturns? ==> entered
    requires st.RDisconnected? ==> left
    ensures WsPart(Ws.NextHandler(hd, st), entered, left)
  {
    if Ws.IsApp(st) {
      Ws.AppFrame(hd, st);
    } else if Ws.IsPump(st) {
      Ws.PumpFrame(hd, st);
      WsPumpPart(cfg, hd, stopped, st, entered, left);
    } else {
      WsControlPart(cfg, hd, stopped, st, entered, left);
    }
  }

  lemma WtPartStep(cfg: Ws.Config, hd: Wt.Handler, stopped: bool, st: Wt.Step, entered: bool)
    requires WtPart(hd, entered) && Wt.LocallyEnabled(cfg, hd, stopped, st)
    requires st.ConnectReturns? ==> entered
    ensures WtPart(Wt.NextHandler(hd, st), entered)
  {
  }

  lemma WsStepKeepsParts(cfg: Config, s: State, w: Ws.Step)
    requires Registry(s) && WsParts(s) && Enabled(cfg, s, WsStep(w))
    requires w.h in s.ws.handlers ==> Ws.PhasesMatch(s.ws.handlers[w.h])
    ensures Registry(Apply(cfg, s, WsStep(w))) && WsParts(Apply(cfg, s, WsStep(w)))
  {
    var s' := Ws.Apply(cfg.ws, s.ws, w);
    if w.Arrive? {
      assert WsRef(w.h) !in s.entered + s.left;
      assert WsPart(s'.handlers[w.h], false, false);
    } else {
      var hd := s.ws.handlers[w.h];
      WsPartStep(cfg.ws, hd, s.ws.stopped, w, WsRef(w.h) in s.entered, WsRef(w.h) in s.left);
      assert s'.handlers[w.h] == Ws.NextHandler(hd, w);
    }
    assert forall h :: h in s'.handlers && h != w.h ==> h in s.ws.handlers && s'.handlers[h] == s.ws.handlers[h];
  }

  lemma WtStepKeepsParts(cfg: Config, s: State, w: Wt.Step)
    requires Registry(s) && WtParts(s) && Enabled(cfg, s, WtStep(w))
    ensures Registry(Apply(cfg, s, WtStep(w))) && WtParts(Apply(cfg, s, WtStep(w)))
  {
    var s' := Wt.Apply(cfg.wt, s.wt, w);
    if w.Arrive? {
      assert WtRef(w.h) !in s.entered;
      assert WtPart(s'.handlers[w.h], false);
    } else {
      var hd := s.wt.handlers[w.h];
      WtPartStep(cfg.wt, hd, s.wt.stopped, w, WtRef(w.h) in s.entered);
      assert s'.handlers[w.h] == Wt.NextHandler(hd, w);
    }
    assert forall h :: h in s'.handlers && h != w.h ==> h in s.wt.handlers && s'.handlers[h] == s.wt.handlers[h];
  }

  lemma EnterKeepsParts(cfg: Config, s: State, ref: Ref)
    requires Registry(s) && WsParts(s) && WtParts(s) && Enabled(cfg, s, RegisterConnection(ref))
    ensures var s' := Apply(cfg, s, RegisterConnection(ref)); Registry(s') && WsParts(s') && WtParts(s')
  {
    var s' := Apply(cfg, s, RegisterConnection(ref));
    if ref.WsRef? { assert WsPart(s.ws.handlers[ref.h], ref in s.entered, ref in s.left); }
    assert ref !in s.connections && ref !in s.left;
    assert s'.connections == s'.entered - s'.left;
  }

  lemma LeaveKeepsParts(cfg: Config, s: State, ref: Ref)
    requires Registry(s) && WsParts(s) && WtParts(s) && Enabled(cfg, s, UnregisterConnection(ref))
    requires Ws.PhasesMatch(s.ws.handlers[ref.h])
    ensures var s' := Apply(cfg, s, UnregisterConnection(ref)); Registry(s') && WsParts(s') && WtParts(s')
  {
    var s' := Apply(cfg, s, UnregisterConnection(ref));
    assert WsPart(s.ws.handlers[ref.h], ref in s.entered, ref in s.left);
    assert ref in s.connections;
    assert s'.connections == s'.entered - s'.left;
  }

  lemma InitInv()
    ensures Inv(INIT)
  {
    Ws.InitInv();
    Wt.InitInv();
  }

  lemma {:induction false} ReachableInv(cfg: Config, states: seq<State>, steps: seq<Step>, i: nat)
    requires IsRun(cfg, states, steps) && i < |states|
    ensures Inv(states[i])
    decreases i
  {
    if i == 0 {
      InitInv();
    } else {
      ReachableInv(cfg, states, steps, i - 1);
      StepKeepsInv(cfg, states[i - 1], steps[i - 1]);
    }
  }

  lemma StepKeepsInv(cfg: Config, s: State, st: Step)
    requires Inv(s) && Enabled(cfg, s, st)
    ensures Inv(Apply(cfg, s, st))
  {
    assert forall h :: h in s.ws.handlers ==> Ws.LocalInv(s.ws.handlers[h]);
    match st
    case WsStep(w) =>
      Ws.StepKeepsInv(cfg.ws, s.ws, w);
      WsStepKeepsParts(cfg, s, w);
    case WtStep(w) =>
      Wt.StepKeepsInv(cfg.wt, s.wt, w);
      WtStepKeepsParts(cfg, s, w);
    case RegisterConnection(ref) => EnterKeepsParts(cfg, s, ref);
    case UnregisterConnection(ref) => LeaveKeepsParts(cfg, s, ref);
  }

  // ---------------------------------------------------------------- the registry law

  /** A WebSocket session the registry must hold: connected and not yet told to disconnect, or refused by OnConnect. */
  predicate WsHeld(hd: Ws.Handler)
  {
    hd.r.RReading? || hd.r.RInMessage? || (!Ws.BeforeConnect(hd.pc) && hd.r.ROff?)
  }

  /** A callback that is running right now, in which the wrapper may or may not have acted yet. */
  predicate WsInCallback(hd: Ws.Handler) { hd.pc.Registered? || hd.r.RInDisconnect? }

  /** In every reachable state, outside the moments when OnConnect or OnDisconnect is running, the registry holds
      exactly the WebSocket sessions between the two, the ones whose OnConnect failed, and every WebTransport session
      that got as far as OnConnect; and its counter is its size. */
  lemma RegistryLaw(cfg: Config, states: seq<State>, steps: seq<Step>, i: nat)
    requires IsRun(cfg, states, steps) && i < |states|
    ensures var s := states[i];
            && s.connCount == |s.connections|
            && (forall h :: h in s.ws.handlers && !WsInCallback(s.ws.handlers[h]) ==>
                  (WsRef(h) in s.connections <==> WsHeld(s.ws.handlers[h])))
            && (forall h :: h in s.wt.handlers && !s.wt.handlers[h].pc.Registered? ==>
                  (WtRef(h) in s.connections <==> !Wt.BeforeConnect(s.wt.handlers[h].pc)))
            && (forall ref :: ref in s.connections ==>
                  if ref.WsRef? then ref.h in s.ws.handlers else ref.h in s.wt.handlers)
  {
    ReachableInv(cfg, states, steps, i);
    var s := states[i];
    forall h | h in s.ws.handlers && !WsInCallback(s.ws.handlers[h])
      ensures WsRef(h) in s.connections <==> WsHeld(s.ws.handlers[h])
    {
      assert WsPart(s.ws.handlers[h], WsRef(h) in s.entered, WsRef(h) in s.left);
      assert Ws.LocalInv(s.ws.handlers[h]);
    }
    forall ref | ref in s.connections ensures if ref.WsRef? then ref.h in s.ws.handlers else ref.h in s.wt.handlers {
      match ref
      case WsRef(h) => assert WsRef(h) in s.entered + s.left;
      case WtRef(h) => assert WtRef(h) in s.entered;
    }
  }

  /** A WebSocket session that connected is in the hybrid registry only while it is in the WebSocket server's own. */
  lemma HeldOnlyWhileInWs(cfg: Config, states: seq<State>, steps: seq<Step>, i: nat, h: Ws.Id)
    requires IsRun(cfg, states, steps) && i < |states|
    requires WsRef(h) in states[i].connections && h in states[i].ws.handlers
    requires !states[i].ws.handlers[h].r.ROff?
    ensures h in states[i].ws.connections
  {
    ReachableInv(cfg, states, steps, i);
    var s := states[i];
    var hd := s.ws.handlers[h];
    assert WsPart(hd, WsRef(h) in s.entered, WsRef(h) in s.left);
    assert Ws.LocalInv(hd);
    assert Ws.InTable(hd);
  }

  ghost predicate AllOver(s: State)
  {
    && (forall h :: h in s.ws.handlers ==> !Ws.InCount(s.ws.handlers[h]) && !Ws.InWindow(s.ws.handlers[h]))
    && (forall h :: h in s.wt.handlers ==> !Wt.LiveSession(s.wt.handlers[h]))
  }

  /** The leak, exactly: with every handler of both servers finished, the registry is empty if and only if no WebSocket
      OnConnect ever failed and no WebTransport session ever reached OnConnect. */
  lemma LeftoverLaw(cfg: Config, states: seq<State>, steps: seq<Step>, i: nat)
    requires IsRun(cfg, states, steps) && i < |states| && AllOver(states[i])
    ensures var s := states[i];
            s.connections == {} <==>
              && (forall h :: h in s.ws.handlers ==> s.ws.handlers[h].events != [Ws.ConnectFailed])
              && (forall h :: h in s.wt.handlers ==> !s.wt.handlers[h].pc.Gone?)
  {
    RegistryLaw(cfg, states, steps, i);
    ReachableInv(cfg, states, steps, i);
    var s := states[i];
    forall h | h in s.ws.handlers
      ensures WsRef(h) in s.connections <==> s.ws.handlers[h].events == [Ws.ConnectFailed]
    {
      assert Ws.LocalInv(s.ws.handlers[h]);
      assert !WsInCallback(s.ws.handlers[h]);
    }
    forall h | h in s.wt.handlers ensures WtRef(h) in s.connections <==> s.wt.handlers[h].pc.Gone? {
      assert !Wt.LiveSession(s.wt.handlers[h]);
    }
    if ref :| ref in s.connections {
      assert if ref.WsRef? then ref.h in s.ws.handlers else ref.h in s.wt.handlers;
    }
    if h :| h in s.ws.handlers && s.ws.handlers[h].events == [Ws.ConnectFailed] { assert WsRef(h) in s.connections; }
    if h :| h in s.wt.handlers && s.wt.handlers[h].pc.Gone? { assert WtRef(h) in s.connections; }
  }

  // ---------------------------------------------------------------- the leak happens

  lemma GoOn(cfg: Config, states: seq<State>, steps: seq<Step>, st: Step)
    returns (states': seq<State>, steps': seq<Step>)
    requires IsRun(cfg, states, steps) && Enabled(cfg, states[|steps|], st)
    ensures IsRun(cfg, states', steps')
    ensures states'[|steps'|] == Apply(cfg, states[|steps|], st)
  {
    states', steps' := states + [Apply(cfg, states[|steps|], st)], steps + [st];
  }

  /** One handler in all, of WebTransport, and what the registry holds. */
  ghost predicate OnlyWt(s: State, hd: Wt.Handler, held: set<Ref>)
  {
    && s.ws == Ws.INIT && !s.wt.stopped && s.wt.handlers == map[0 := hd]
    && s.connections == held == s.entered && s.left == {}
  }

  ghost predicate OnlyWs(s: State, hd: Ws.Handler, held: set<Ref>)
  {
    s.wt == Wt.INIT && s.ws.handlers == map[0 := hd] && s.connections == held == s.entered && s.left == {}
  }

  lemma WtAlone(cfg: Config, states: seq<State>, steps: seq<Step>, hd: Wt.Handler, w: Wt.Step, next: Wt.Handler,
                held: set<Ref>)
    returns (states': seq<State>, steps': seq<Step>)
    requires IsRun(cfg, states, steps) && OnlyWt(states[|steps|], hd, held)
    requires w.h == 0 && !w.Arrive? && !w.Stop? && (w.ConnectReturns? ==> WtRef(0) in held)
    requires Wt.LocallyEnabled(cfg.wt, hd, states[|steps|].wt.stopped, w) && next == Wt.NextHandler(hd, w)
    ensures IsRun(cfg, states', steps') && OnlyWt(states'[|steps'|], next, held)
  {
    states', steps' := GoOn(cfg, states, steps, WtStep(w));
  }

  lemma WsAlone(cfg: Config, states: seq<State>, steps: seq<Step>, hd: Ws.Handler, w: Ws.Step, next: Ws.Handler,
                held: set<Ref>)
    returns (states': seq<State>, steps': seq<Step>)
    requires IsRun(cfg, states, steps) && OnlyWs(states[|steps|], hd, held)
    requires w.h == 0 && !w.Arrive? && !w.BindFinish? && !w.RDisconnected? && (w.ConnectReturns? ==> WsRef(0) in held)
    requires Ws.LocallyEnabled(cfg.ws, hd, states[|steps|].ws.stopped, w) && next == Ws.NextHandler(hd, w)
    ensures IsRun(cfg, states', steps') && OnlyWs(states'[|steps'|], next, held)
  {
    states', steps' := GoOn(cfg, states, steps, WsStep(w));
  }

  lemma WtEnters(cfg: Config) returns (states: seq<State>, steps: seq<Step>)
    requires cfg.wt.maxConnections >= 0
    ensures IsRun(cfg, states, steps) && OnlyWt(states[|steps|], Wt.NewHandler(Wt.CountedOnce), {})
  {
    states, steps := GoOn(cfg, [INIT], [], WtStep(Wt.Arrive(0)));
    states, steps := WtAlone(cfg, states, steps, Wt.NewHandler(Wt.Checked), Wt.Upgrade(0, true),
                             Wt.NewHandler(Wt.Created), {});
    states, steps := WtAlone(cfg, states, steps, Wt.NewHandler(Wt.Created), Wt.Authenticate(0, true),
                             Wt.NewHandler(Wt.Ready), {});
    states, steps := WtAlone(cfg, states, steps, Wt.NewHandler(Wt.Ready), Wt.CountFirst(0),
                             Wt.NewHandler(Wt.CountedOnce), {});
  }

  lemma WtInOnConnect(cfg: Config) returns (states: seq<State>, steps: seq<Step>)
    requires cfg.wt.maxConnections >= 0
    ensures IsRun(cfg, states, steps) && OnlyWt(states[|steps|], Wt.NewHandler(Wt.Registered), {WtRef(0)})
  {
    states, steps := WtEnters(cfg);
    states, steps := WtAlone(cfg, states, steps, Wt.NewHandler(Wt.CountedOnce), Wt.Insert(0),
                             Wt.NewHandler(Wt.Inserted), {});
    states, steps := WtAlone(cfg, states, steps, Wt.NewHandler(Wt.Inserted), Wt.CountSecond(0),
                             Wt.NewHandler(Wt.Registered), {});
    states, steps := GoOn(cfg, states, steps, RegisterConnection(WtRef(0)));
  }

  /** The last steps of any handler in its accept loop. */
  lemma WtEnds(cfg: Config, states: seq<State>, steps: seq<Step>, hd: Wt.Handler, held: set<Ref>)
    returns (states': seq<State>, steps': seq<Step>)
    requires IsRun(cfg, states, steps) && OnlyWt(states[|steps|], hd, held) && hd.pc.Looping? && !hd.done
    ensures IsRun(cfg, states', steps') && OnlyWt(states'[|steps'|], hd.(pc := Wt.Gone), held)
  {
    var a, b, c := hd.(pc := Wt.Leaving), hd.(pc := Wt.Deleted), hd.(pc := Wt.Gone);
    var accepting := hd.(pc := Wt.Accepting);
    states', steps' := WtAlone(cfg, states, steps, hd, Wt.EnterAccept(0), accepting, held);
    states', steps' := WtAlone(cfg, states', steps', accepting, Wt.StopAccepting(0), a, held);
    states', steps' := WtAlone(cfg, states', steps', a, Wt.Delete(0), b, held);
    states', steps' := WtAlone(cfg, states', steps', b, Wt.Uncount(0), c, held);
  }

  /** A WebTransport session that connects and ends without any error stays in the registry. */
  lemma FinishedWtIsKept(cfg: Config) returns (states: seq<State>, steps: seq<Step>)
    requires cfg.wt.maxConnections >= 0
    ensures IsRun(cfg, states, steps) && AllOver(states[|steps|])
    ensures states[|steps|].connections == {WtRef(0)}
    ensures var hs := states[|steps|].wt.handlers; 0 in hs && hs[0].pc.Gone? && hs[0].events == [Ws.ConnectOk]
  {
    var held := {WtRef(0)};
    states, steps := WtInOnConnect(cfg);
    var hd := Wt.WithoutStream(Wt.Looping);
    states, steps := WtAlone(cfg, states, steps, Wt.NewHandler(Wt.Registered), Wt.ConnectReturns(0, true), hd, held);
    states, steps := WtEnds(cfg, states, steps, hd, held);
  }

  lemma WsEnters(cfg: Config) returns (states: seq<State>, steps: seq<Step>)
    requires cfg.ws.maxConnections >= 0 && !cfg.ws.auth
    ensures IsRun(cfg, states, steps) && OnlyWs(states[|steps|], Ws.NewHandler(Ws.Ready), {})
  {
    states, steps := GoOn(cfg, [INIT], [], WsStep(Ws.Arrive(0)));
    states, steps := WsAlone(cfg, states, steps, Ws.NewHandler(Ws.Checked), Ws.Upgrade(0, true),
                             Ws.NewHandler(Ws.Created), {});
    states, steps := WsAlone(cfg, states, steps, Ws.NewHandler(Ws.Created), Ws.Step.Count(0),
                             Ws.NewHandler(Ws.Counted), {});
    states, steps := WsAlone(cfg, states, steps, Ws.NewHandler(Ws.Counted), Ws.Authenticate(0, Ws.Skipped),
                             Ws.NewHandler(Ws.Ready), {});
  }

  lemma WsInOnConnect(cfg: Config) returns (states: seq<State>, steps: seq<Step>)
    requires cfg.ws.maxConnections >= 0 && !cfg.ws.auth
    ensures IsRun(cfg, states, steps) && OnlyWs(states[|steps|], Ws.NewHandler(Ws.Registered), {WsRef(0)})
  {
    states, steps := WsEnters(cfg);
    states, steps := WsAlone(cfg, states, steps, Ws.NewHandler(Ws.Ready), Ws.Register(0), Ws.NewHandler(Ws.Registered),
                             {});
    states, steps := GoOn(cfg, states, steps, RegisterConnection(WsRef(0)));
  }

  lemma WsIsRefused(cfg: Config) returns (states: seq<State>, steps: seq<Step>, hd: Ws.Handler)
    requires cfg.ws.maxConnections >= 0 && !cfg.ws.auth
    ensures IsRun(cfg, states, steps) && OnlyWs(states[|steps|], hd, {WsRef(0)})
    ensures hd.pc.Leaving? && hd.userID == "" && hd.done
  {
    var held := {WsRef(0)};
    states, steps := WsInOnConnect(cfg);
    var refused := Ws.NewHandler(Ws.ConnectRefused).(events := [Ws.ConnectFailed]);
    states, steps := WsAlone(cfg, states, steps, Ws.NewHandler(Ws.Registered), Ws.ConnectReturns(0, false), refused,
                             held);
    hd := refused.(pc := Ws.Leaving, done := true);
    states, steps := WsAlone(cfg, states, steps, refused, Ws.CloseRefused(0), hd, held);
  }

  /** The last steps of any handler of a connection without a user. */
  lemma WsEnds(cfg: Config, states: seq<State>, steps: seq<Step>, hd: Ws.Handler, held: set<Ref>)
    returns (states': seq<State>, steps': seq<Step>)
    requires IsRun(cfg, states, steps) && OnlyWs(states[|steps|], hd, held) && hd.pc.Leaving? && hd.userID == ""
    ensures IsRun(cfg, states', steps') && OnlyWs(states'[|steps'|], hd.(pc := Ws.Gone), held)
  {
    var a, b, c := hd.(pc := Ws.Deleted), hd.(pc := Ws.Uncounting), hd.(pc := Ws.Gone);
    states', steps' := WsAlone(cfg, states, steps, hd, Ws.Delete(0), a, held);
    states', steps' := WsAlone(cfg, states', steps', a, Ws.ReadUser(0), b, held);
    states', steps' := WsAlone(cfg, states', steps', b, Ws.Uncount(0), c, held);
  }

  /** A WebSocket session that OnConnect refused stays in the registry. */
  lemma RefusedWsIsKept(cfg: Config) returns (states: seq<State>, steps: seq<Step>)
    requires cfg.ws.maxConnections >= 0 && !cfg.ws.auth
    ensures IsRun(cfg, states, steps) && AllOver(states[|steps|])
    ensures states[|steps|].connections == {WsRef(0)}
    ensures var hs := states[|steps|].ws.handlers; 0 in hs && hs[0].pc.Gone? && hs[0].done
  {
    var hd;
    states, steps, hd := WsIsRefused(cfg);
    states, steps := WsEnds(cfg, states, steps, hd, {WsRef(0)});
  }
}
