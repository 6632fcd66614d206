/**
 Where packets go while the service runs (ProxifyVpnService.kt applyTrafficPolicy,
 startTunnel): what becomes of the policies the engine decides on, over whole runs.
 */
module ServiceTraffic {
  import opened Prelude
  import opened TunnelConfig
  import opened ReliabilityEngine
  import G = EngineGuarantees
  import opened EngineActions
  import opened TunnelService

  /** Without a tun packets take the normal route; with one they go to the backend, and
      nowhere if it is not running. */
  function Fate(l: Loop): Policy {
    if !l.tun then DIRECT else if l.backend then TUNNEL else BLOCK
  }

  predicate Halts(actions: seq<Action>) { StopTunnel in actions }

  lemma FirstOrLater(actions: seq<Action>, p: Policy)
    requires actions != []
    ensures SetsPolicy(actions) <==> actions[0].SetTrafficPolicy? || SetsPolicy(actions[1..])
    ensures OnlySets(actions, p) ==> OnlySets(actions[1..], p)
    ensures Halts(actions) <==> actions[0].StopTunnel? || Halts(actions[1..])
  {
    var rest := actions[1..];
    assert actions == [actions[0]] + rest;
    assert forall k | 0 <= k < |rest| :: rest[k] == actions[k + 1];
    if SetsPolicy(actions) {
      var k :| 0 <= k < |actions| && actions[k].SetTrafficPolicy?;
      if k > 0 { assert rest[k - 1].SetTrafficPolicy?; }
    }
    if SetsPolicy(rest) {
      var k :| 0 <= k < |rest| && rest[k].SetTrafficPolicy?;
      assert actions[k + 1].SetTrafficPolicy?;
    }
  }

  /** What the actions of one event do to the data path, all policies among them being p. */
  lemma {:induction false} WhatActionsDo(l: Loop, actions: seq<Action>, p: Policy)
    requires OnlySets(actions, p)
    ensures var l' := ExecuteAll(l, actions);
            && l'.carried == (if SetsPolicy(actions) then p else l.carried)
            && (l'.tun <==> l.tun && !(SetsPolicy(actions) && p == DIRECT))
            && (l'.backend <==> l.backend && !Halts(actions) && !(SetsPolicy(actions) && p != TUNNEL))
    decreases |actions|
  {
    if actions != [] {
      FirstOrLater(actions, p);
      WhatActionsDo(Execute(l, actions[0]), actions[1..], p);
    }
  }

  lemma WhatADispatchDoes(c: Settings, l: Loop, event: Event)
    ensures var (e, actions) := Handle(c, l.engine, event);
            var (l', p) := (Dispatch(c, l, event), e.state.policy);
            && l'.engine == e
            && l'.carried == (if SetsPolicy(actions) then p else l.carried)
            && (l'.tun <==> l.tun && !(SetsPolicy(actions) && p == DIRECT))
            && (l'.backend <==> l.backend && !Halts(actions) && !(SetsPolicy(actions) && p != TUNNEL))
  {
    var (e, actions) := Handle(c, l.engine, event);
    TheServiceIsToldThePolicyExactlyWhen(c, l.engine, event);
    WhatActionsDo(l.(engine := e), actions, e.state.policy);
    ActionsLeaveTheEngineAlone(l.(engine := e), actions);
  }

  // --------------------------------------------- the policy carried out

  /** The happening makes the service apply a policy. */
  predicate Applies(c: Settings, l: Loop, h: Happening) {
    var fed := Feeds(l, h);
    fed.Some? && SetsPolicy(Handle(c, fed.value.0.engine, fed.value.1).1)
  }

  /** The network went while traffic was not blocked, and no policy was applied since. */
  ghost predicate LostSince(c: Settings, l: Loop, hs: seq<Happening>) {
    hs != [] &&
    var (front, last) := (hs[..|hs| - 1], hs[|hs| - 1]);
    (last == NetworkDown && Run(c, l, front).engine.state.policy != BLOCK)
    || (LostSince(c, l, front) && !Applies(c, Run(c, l, front), last))
  }

  /** A pending grace timer means blocked traffic, in either mode. */
  ghost predicate InStep(l: Loop) {
    && (l.grace.Some? ==> l.engine.state.policy == BLOCK)
    && (l.carried != l.engine.state.policy ==> l.engine.state.policy == BLOCK)
  }

  lemma GraceMeansBlocked(c: Settings, l: Loop, event: Event)
    requires l.grace.Some? ==> l.engine.state.policy == BLOCK
    requires event != TrafficStalled && (event == GraceWindowExpired ==> l.grace == None)
    ensures var l' := Dispatch(c, l, event);
            l'.grace.Some? ==> l'.engine.state.policy == BLOCK
  {
    var (e, actions) := Handle(c, l.engine, event);
    ActionsLeaveTheEngineAlone(l.(engine := e), actions);
    GraceIs(l.(engine := e), actions);
    GraceUnrolled(l.grace, l.now, actions);
  }

  lemma DispatchStaysInStep(c: Settings, l: Loop, event: Event)
    requires InStep(l) && event != TrafficStalled && (event == GraceWindowExpired ==> l.grace == None)
    requires event == GraceWindowExpired ==> l.engine.state.policy == BLOCK
    ensures var l' := Dispatch(c, l, event);
            && InStep(l')
            && (l'.carried != l'.engine.state.policy <==>
                  (event == NetworkLost && l.engine.state.policy != BLOCK)
                  || (l.carried != l.engine.state.policy && !SetsPolicy(Handle(c, l.engine, event).1)))
  {
    GraceMeansBlocked(c, l, event);
    WhatADispatchDoes(c, l, event);
    TheServiceIsToldThePolicyExactlyWhen(c, l.engine, event);
  }

  lemma UnfedStaysInStep(c: Settings, l: Loop, h: Happening)
    requires InStep(l) && Feeds(l, h).None?
    ensures var l' := Step(c, l, h);
            InStep(l') && l'.carried == l.carried && l'.engine.state == l.engine.state && h != NetworkDown
  {
  }

  lemma FedStaysInStep(l: Loop, h: Happening)
    requires InStep(l) && Feeds(l, h).Some?
    ensures var (l', event) := Feeds(l, h).value;
            && InStep(l') && l'.carried == l.carried && l'.engine == l.engine
            && event != TrafficStalled && (event == NetworkLost <==> h == NetworkDown)
            && (event == GraceWindowExpired ==> l'.grace == None && l.engine.state.policy == BLOCK)
  {
  }

  lemma StepStaysInStep(c: Settings, l: Loop, h: Happening)
    requires InStep(l)
    ensures var l' := Step(c, l, h);
            && InStep(l')
            && (l'.carried != l'.engine.state.policy <==>
                  (h == NetworkDown && l.engine.state.policy != BLOCK)
                  || (l.carried != l.engine.state.policy && !Applies(c, l, h)))
  {
    var fed := Feeds(l, h);
    if fed.Some? {
      FedStaysInStep(l, h);
      assert Step(c, l, h) == Dispatch(c, fed.value.0, fed.value.1);
      DispatchStaysInStep(c, fed.value.0, fed.value.1);
    } else {
      UnfedStaysInStep(c, l, h);
    }
  }

  /** Over every run: the policy last applied is the engine's, except from the loss of a
      network while traffic was not blocked until the next policy applied. */
  lemma ThePolicyIsCarriedOutExactlyWhen(c: Settings, config: Option<Config>, now: int, hs: seq<Happening>)
    ensures var l := Run(c, Boot(config, now), hs);
            l.carried == l.engine.state.policy <==> !LostSince(c, Boot(config, now), hs)
  {
    InStepFrom(c, Boot(config, now), hs);
  }

  lemma {:induction false} InStepFrom(c: Settings, l: Loop, hs: seq<Happening>)
    requires InStep(l) && l.carried == l.engine.state.policy
    ensures var l' := Run(c, l, hs);
            InStep(l') && (l'.carried != l'.engine.state.policy <==> LostSince(c, l, hs))
    decreases |hs|
  {
    if hs != [] {
      var front, last := hs[..|hs| - 1], hs[|hs| - 1];
      assert hs == front + [last];
      InStepFrom(c, l, front);
      RunSnoc(c, l, front, last);
      StepStaysInStep(c, Run(c, l, front), last);
    }
  }

  /** A disconnect, a lost network and a terminal failure stop the backend and every
      timer. The first, and in soft mode the last, let traffic take the normal route. */
  lemma AnEndIsAnEnd(c: Settings, l: Loop, event: Event)
    requires event == DisconnectRequested || event == NetworkLost
             || (event.TunnelFailed? && event.reason.IsTerminal())
    ensures var l' := Dispatch(c, l, event);
            && !l'.backend && !l'.retry && !l'.stability && l'.grace == None
            && l'.attempts == l.attempts
            && l'.refreshes == l.refreshes + (if event.TunnelFailed? then 1 else 0)
            && if event == DisconnectRequested || (event.TunnelFailed? && c.mode == SOFT) then
                 l'.carried == DIRECT && !l'.tun
               else
                 l'.tun == l.tun && l'.carried == (if event == NetworkLost then l.carried else BLOCK)
  {
    Unroll(l.(engine := Handle(c, l.engine, event).0), Handle(c, l.engine, event).1);
  }

  /** A success ends the retries and the hold, leaves the data path as the attempt made
      it, and has the MTU judged in a minute and a half. */
  lemma ASuccessIsASuccess(c: Settings, l: Loop)
    ensures var l' := Dispatch(c, l, TunnelEstablished);
            && !l'.retry && l'.grace == None && l'.stability && l'.heldSince == None
            && l'.carried == TUNNEL && l'.tun == l.tun && l'.backend == l.backend
            && l'.attempts == l.attempts && l'.refreshes == l.refreshes
            && ScheduleStabilityCheck(90_000) in Handle(c, l.engine, TunnelEstablished).1
  {
    var (e, actions) := Handle(c, l.engine, TunnelEstablished);
    Unroll(l.(engine := e), actions);
    assert actions[2] == ScheduleStabilityCheck(90_000);
  }

  lemma NewWindows(c: Settings, e: Engine, event: Event, grace: Option<int>, now: int)
    ensures var (e', actions) := Handle(c, e, event);
            var grace' := GraceAfterAll(grace, now, actions);
            grace'.Some? && grace' != grace ==>
              && grace' == Some(now + c.graceWindowMillis)
              && !e.graceRunning && e'.graceRunning && e'.state.policy == BLOCK
  {
    GraceUnrolled(grace, now, Handle(c, e, event).1);
  }

  /** Either mode: a grace timer that is set is set to a full window from now, once traffic
      is held, and only by an engine that had no window running. */
  lemma AGraceWindowIsAFullOne(c: Settings, l: Loop, event: Event)
    ensures var l' := Dispatch(c, l, event);
            l'.grace.Some? && l'.grace != l.grace ==>
              && l'.grace == Some(l.now + c.graceWindowMillis)
              && !l.engine.graceRunning && l'.engine.graceRunning && l'.engine.state.policy == BLOCK
  {
    var (e, actions) := Handle(c, l.engine, event);
    ActionsLeaveTheEngineAlone(l.(engine := e), actions);
    GraceIs(l.(engine := e), actions);
    NewWindows(c, l.engine, event, l.grace, l.now);
  }

  // ------------------------------------------------ strict mode, in fact

  /** Some attempt opens the tun in the course of the run. */
  predicate ATunOpens(c: Settings, l: Loop, hs: seq<Happening>)
    decreases |hs|
  {
    hs != [] && ((hs[0] == TunOpens && l.attempts.begun > 0) || ATunOpens(c, Step(c, l, hs[0]), hs[1..]))
  }

  lemma StrictStep(c: Settings, l: Loop, h: Happening)
    requires c.mode == STRICT && l.engine.state.policy != DIRECT && h != UserDisconnects
    ensures var l' := Step(c, l, h);
            && l'.engine.state.policy != DIRECT
            && (l.carried != DIRECT ==> l'.carried != DIRECT)
            && (l'.tun <==> l.tun || (h == TunOpens && l.attempts.begun > 0))
  {
    var fed := Feeds(l, h);
    if fed.Some? {
      var (l1, event) := fed.value;
      G.TrafficTurnsDirectExactlyWhen(c, l1.engine, G.Deliver(event));
      WhatADispatchDoes(c, l1, event);
    }
  }

  /** In strict mode, once the engine does not let traffic out, nothing short of the
      user's disconnect has a direct policy applied; and from there packets go round the
      tunnel exactly for as long as no attempt has opened a tun. */
  lemma {:induction false} StrictModeHoldsExactlyOnceATunIsOpen(c: Settings, l: Loop, hs: seq<Happening>)
    requires c.mode == STRICT && l.engine.state.policy != DIRECT && UserDisconnects !in hs
    ensures var l' := Run(c, l, hs);
            && l'.engine.state.policy != DIRECT
            && (l.carried != DIRECT ==> l'.carried != DIRECT)
            && (Fate(l') == DIRECT <==> !l.tun && !ATunOpens(c, l, hs))
    decreases |hs|
  {
    if hs != [] {
      assert hs[0] in hs && forall h | h in hs[1..] :: h in hs;
      StrictStep(c, l, hs[0]);
      StrictModeHoldsExactlyOnceATunIsOpen(c, Step(c, l, hs[0]), hs[1..]);
    }
  }

  /** A first attempt, under way. */
  lemma AFirstAttempt(c: Settings, cfg: Config, n: Network)
    ensures var l := Run(c, Boot(Some(cfg), 0), [NetworkUp(n), UserConnects]);
            && l.engine.config.Some? && l.engine.wantsTunnel && l.engine.state.network.Some?
            && l.engine.state.status == CONNECTING && l.engine.graceRunning && l.engine.current.Some?
            && l.now == 0 && l.grace == Some(c.graceWindowMillis)
            && l.attempts == Attempts(1, 0, 0) && !l.retry && l.refreshes == 0
            && l.engine.state.policy == BLOCK == l.carried && !l.tun
  {
    var l0 := Boot(Some(cfg), 0);
    var hs := Extend(c, l0, [], NetworkUp(n));
    Played(c, l0, NetworkAvailable(n));
    var l1 := Run(c, l0, hs);
    var hs' := Extend(c, l0, hs, UserConnects);
    Played(c, l1, ConnectRequested);
    assert hs' == [NetworkUp(n), UserConnects];
  }

  /** So the first hold of all holds nothing yet: asked to connect, the engine blocks
      traffic, and packets take the normal route until the attempt has its tun. */
  lemma TheFirstHoldHoldsNothing(c: Settings, cfg: Config, n: Network)
    ensures var l := Run(c, Boot(Some(cfg), 0), [NetworkUp(n), UserConnects]);
            && l.engine.state.policy == BLOCK == l.carried && Fate(l) == DIRECT
            && Fate(Step(c, l, TunOpens)) != DIRECT
  {
    AFirstAttempt(c, cfg, n);
  }

  // ------------------------------------------------- connected, in fact

  predicate ConnectedIsTunnelled(l: Loop) { l.engine.state.status == CONNECTED ==> Fate(l) == TUNNEL }

  ghost predicate ConnectedIsTunnelledThroughout(c: Settings, l: Loop, hs: seq<Happening>)
    decreases |hs|
  {
    ConnectedIsTunnelled(l) && (hs != [] ==> ConnectedIsTunnelledThroughout(c, Step(c, l, hs[0]), hs[1..]))
  }

  /** An attempt reports success after what it brought up was stopped or closed again. */
  predicate IsOutrun(l: Loop, h: Happening) { h == AttemptSucceeds && l.attempts.up > 0 && Fate(l) != TUNNEL }

  ghost predicate NoneIsOutrun(c: Settings, l: Loop, hs: seq<Happening>)
    decreases |hs|
  {
    hs != [] ==> !IsOutrun(l, hs[0]) && NoneIsOutrun(c, Step(c, l, hs[0]), hs[1..])
  }

  /** The engine shows CONNECTED on hearing of a success, or because it did and goes on. */
  lemma ShowingConnectedStopsNothing(c: Settings, e: Engine, event: Event)
    requires G.Honest(c, e) && event != TrafficStalled && Handle(c, e, event).0.state.status == CONNECTED
    ensures event == TunnelEstablished || e.state.status == CONNECTED
    ensures !Halts(Handle(c, e, event).1) && Handle(c, e, event).0.state.policy == TUNNEL
  {
  }

  lemma DispatchKeepsTunnelled(c: Settings, l: Loop, event: Event)
    requires G.Honest(c, l.engine) && ConnectedIsTunnelled(l) && event != TrafficStalled
    ensures G.Honest(c, Dispatch(c, l, event).engine)
    ensures ConnectedIsTunnelled(Dispatch(c, l, event)) <==> !(event == TunnelEstablished && Fate(l) != TUNNEL)
  {
    WhatADispatchDoes(c, l, event);
    G.StepIsHonest(c, l.engine, G.Deliver(event));
    if Dispatch(c, l, event).engine.state.status == CONNECTED { ShowingConnectedStopsNothing(c, l.engine, event); }
  }

  lemma StepKeepsTunnelled(c: Settings, l: Loop, h: Happening)
    requires G.Honest(c, l.engine) && ConnectedIsTunnelled(l)
    ensures G.Honest(c, Step(c, l, h).engine)
    ensures ConnectedIsTunnelled(Step(c, l, h)) <==> !IsOutrun(l, h)
  {
    var fed := Feeds(l, h);
    if fed.Some? { DispatchKeepsTunnelled(c, fed.value.0, fed.value.1); }
  }

  lemma {:induction false} TunnelledFrom(c: Settings, l: Loop, hs: seq<Happening>)
    requires G.Honest(c, l.engine) && ConnectedIsTunnelled(l)
    ensures ConnectedIsTunnelledThroughout(c, l, hs) <==> NoneIsOutrun(c, l, hs)
    decreases |hs|
  {
    if hs != [] {
      var l' := Step(c, l, hs[0]);
      StepKeepsTunnelled(c, l, hs[0]);
      if IsOutrun(l, hs[0]) {
        assert !ConnectedIsTunnelledThroughout(c, l', hs[1..]);
      } else {
        TunnelledFrom(c, l', hs[1..]);
      }
    }
  }

  /** Over every run, CONNECTED means packets go through the tunnel at every point if and
      only if no attempt reports success after its backend was stopped or its tun closed. */
  lemma ConnectedMeansTunnelledExactlyWhen(c: Settings, config: Option<Config>, now: int, hs: seq<Happening>)
    ensures ConnectedIsTunnelledThroughout(c, Boot(config, now), hs) <==> NoneIsOutrun(c, Boot(config, now), hs)
  {
    TunnelledFrom(c, Boot(config, now), hs);
  }

  /** The network goes between an attempt's start of the backend and its report. */
  lemma TheNetworkGoesBeforeTheReport(c: Settings, l: Loop)
    requires l.engine.config.Some? && l.engine.wantsTunnel && !l.retry && l.refreshes == 0
    requires l.attempts == Attempts(0, 0, 1) && l.tun
    ensures var l' := Step(c, Step(c, l, NetworkDown), AttemptSucceeds);
            && l'.engine.config.Some? && l'.engine.wantsTunnel && l'.engine.state.network == None
            && l'.engine.state.status == CONNECTED && Fate(l') == BLOCK && !Trying(l') && l'.grace == None
  {
    var down := Step(c, l, NetworkDown);
    assert down == Dispatch(c, l, NetworkLost);
    AnEndIsAnEnd(c, l, NetworkLost);
    WhatADispatchDoes(c, l, NetworkLost);
    Played(c, down.(attempts := NONE_IN_FLIGHT), TunnelEstablished);
  }

  /** It comes to that in a first attempt. */
  lemma AStoppedBackendReportsSuccess(c: Settings, cfg: Config, n: Network) returns (hs: seq<Happening>)
    ensures var l := Run(c, Boot(Some(cfg), 0), hs);
            && l.engine.config.Some? && l.engine.wantsTunnel && l.engine.state.network == None
            && l.engine.state.status == CONNECTED && Fate(l) == BLOCK && !Trying(l) && l.grace == None
  {
    var l := Boot(Some(cfg), 0);
    hs := [NetworkUp(n), UserConnects];
    AFirstAttempt(c, cfg, n);
    hs := Extend(c, l, hs, TunOpens);
    hs := Extend(c, l, hs, BackendStarts);
    TheNetworkGoesBeforeTheReport(c, Run(c, l, hs));
    hs := Extend(c, l, hs, NetworkDown);
    hs := Extend(c, l, hs, AttemptSucceeds);
  }

  /** And once the network is back the phone shows CONNECTED, sends nothing and has
      nothing under way that would change it. */
  lemma ADeadTunnelCanShowConnected(c: Settings, cfg: Config, n: Network) returns (hs: seq<Happening>)
    ensures var l := Run(c, Boot(Some(cfg), 0), hs);
            && l.engine.state.status == CONNECTED && l.engine.state.network == Some(n) && l.engine.wantsTunnel
            && Fate(l) == BLOCK && !Trying(l) && l.grace == None
  {
    var l := Boot(Some(cfg), 0);
    hs := AStoppedBackendReportsSuccess(c, cfg, n);
    var l6 := Run(c, l, hs);
    hs := Extend(c, l, hs, NetworkUp(n));
    Played(c, l6, NetworkAvailable(n));
  }

  // --------------------------------------------------- direct, in fact

  predicate DirectIsOpen(l: Loop) { l.engine.state.policy == DIRECT ==> Fate(l) == DIRECT }

  ghost predicate DirectIsOpenThroughout(c: Settings, l: Loop, hs: seq<Happening>)
    decreases |hs|
  {
    DirectIsOpen(l) && (hs != [] ==> DirectIsOpenThroughout(c, Step(c, l, hs[0]), hs[1..]))
  }

  /** An attempt takes hold of the traffic that the engine lets out. */
  predicate Grabs(l: Loop, h: Happening) {
    h == TunOpens && l.attempts.begun > 0 && l.engine.state.policy == DIRECT
  }

  ghost predicate NothingGrabs(c: Settings, l: Loop, hs: seq<Happening>)
    decreases |hs|
  {
    hs != [] ==> !Grabs(l, hs[0]) && NothingGrabs(c, Step(c, l, hs[0]), hs[1..])
  }

  lemma StepKeepsDirectOpen(c: Settings, l: Loop, h: Happening)
    requires DirectIsOpen(l)
    ensures DirectIsOpen(Step(c, l, h)) <==> !Grabs(l, h)
  {
    var fed := Feeds(l, h);
    if fed.Some? {
      var (l1, event) := fed.value;
      WhatADispatchDoes(c, l1, event);
      TheServiceIsToldThePolicyExactlyWhen(c, l1.engine, event);
    }
  }

  /** Over every run, traffic the engine lets out does take the normal route, at every
      point, if and only if no attempt opens the tun meanwhile. */
  lemma DirectTrafficFlowsExactlyWhen(c: Settings, config: Option<Config>, now: int, hs: seq<Happening>)
    ensures DirectIsOpenThroughout(c, Boot(config, now), hs) <==> NothingGrabs(c, Boot(config, now), hs)
  {
    DirectFrom(c, Boot(config, now), hs);
  }

  lemma {:induction false} DirectFrom(c: Settings, l: Loop, hs: seq<Happening>)
    requires DirectIsOpen(l)
    ensures DirectIsOpenThroughout(c, l, hs) <==> NothingGrabs(c, l, hs)
    decreases |hs|
  {
    if hs != [] {
      var l' := Step(c, l, hs[0]);
      StepKeepsDirectOpen(c, l, hs[0]);
      if Grabs(l, hs[0]) {
        assert !DirectIsOpenThroughout(c, l', hs[1..]);
      } else {
        DirectFrom(c, l', hs[1..]);
      }
    }
  }

  lemma ItFails(c: Settings, l: Loop, draw: real)
    requires l.engine.config.Some? && l.engine.wantsTunnel && l.engine.graceRunning && l.refreshes == 0
    requires l.attempts == Attempts(1, 0, 0) && l.engine.state.network.Some?
    ensures var l' := Step(c, l, AttemptFails(false, false, draw));
            && l'.engine.config.Some? && l'.engine.wantsTunnel && l'.engine.state.network.Some?
            && l'.engine.state.status != CONNECTED && l'.now == l.now && l'.grace == l.grace
            && l'.attempts == NONE_IN_FLIGHT && l'.retry && l'.refreshes == 0
  {
    Played(c, l.(attempts := NONE_IN_FLIGHT), TunnelFailed(HANDSHAKE_TIMEOUT, draw));
  }

  /** The grace window runs out on it. */
  lemma TheWindowRunsOut(c: Settings, l: Loop)
    requires c.mode == SOFT && l.grace.Some? && l.grace.value >= l.now
    requires l.engine.wantsTunnel && l.engine.state.status != CONNECTED
    ensures var l' := Step(c, Step(c, l, TimePasses(l.grace.value)), GraceDue);
            && l'.engine == OnGraceExpired(c, l.engine).0 && l'.attempts == l.attempts
            && l'.retry == l.retry && l'.refreshes == l.refreshes
  {
    var late := Step(c, l, TimePasses(l.grace.value));
    Played(c, late.(grace := None), GraceWindowExpired);
  }

  lemma AnUnprotectedPhone(c: Settings, cfg: Config, n: Network, draw: real) returns (hs: seq<Happening>)
    requires c.mode == SOFT && c.graceWindowMillis >= 0
    ensures var l := Run(c, Boot(Some(cfg), 0), hs);
            && l.engine.config.Some? && l.engine.wantsTunnel && l.engine.state.network.Some?
            && l.engine.state.status == UNPROTECTED && l.engine.state.policy == DIRECT
            && l.attempts == NONE_IN_FLIGHT && l.retry && l.refreshes == 0
  {
    var l := Boot(Some(cfg), 0);
    hs := [NetworkUp(n), UserConnects];
    AFirstAttempt(c, cfg, n);
    ItFails(c, Run(c, l, hs), draw);
    hs := Extend(c, l, hs, AttemptFails(false, false, draw));
    TheWindowRunsOut(c, Run(c, l, hs));
    hs := Extend(c, l, hs, TimePasses(c.graceWindowMillis));
    hs := Extend(c, l, hs, GraceDue);
  }

  /** The next attempt gets its tun and then fails. */
  lemma TheNextOneGrabsAndFails(c: Settings, l: Loop, draw: real)
    requires l.engine.config.Some? && l.engine.wantsTunnel && l.engine.state.network.Some?
    requires l.engine.state.status == UNPROTECTED && l.engine.state.policy == DIRECT
    requires l.attempts == NONE_IN_FLIGHT && l.retry
    ensures var l' := Step(c, Step(c, Step(c, l, RetryDue), TunOpens), AttemptFails(true, false, draw));
            && l'.engine.state.status == UNPROTECTED && l'.engine.state.policy == DIRECT == l'.carried
            && Fate(l') == BLOCK && l'.attempts == NONE_IN_FLIGHT && l'.retry
  {
    Played(c, l.(retry := false), RetryTimerFired);
    var grabbed := Step(c, Step(c, l, RetryDue), TunOpens);
    assert grabbed.tun && !grabbed.backend && grabbed.attempts == Attempts(0, 1, 0);
    Played(c, grabbed.(attempts := NONE_IN_FLIGHT), TunnelFailed(HANDSHAKE_TIMEOUT, draw));
  }

  /** It comes to that when an attempt gets its tun and then fails: the phone says
      UNPROTECTED, and sends nothing until the retry after. */
  lemma AnUnprotectedPhoneCanBeBlocked(c: Settings, cfg: Config, n: Network, draw: real) returns (hs: seq<Happening>)
    requires c.mode == SOFT && c.graceWindowMillis >= 0
    ensures var l := Run(c, Boot(Some(cfg), 0), hs);
            && l.engine.state.status == UNPROTECTED && l.engine.state.policy == DIRECT == l.carried
            && Fate(l) == BLOCK && l.attempts == NONE_IN_FLIGHT && l.retry
  {
    var l := Boot(Some(cfg), 0);
    hs := AnUnprotectedPhone(c, cfg, n, draw);
    TheNextOneGrabsAndFails(c, Run(c, l, hs), draw);
    hs := Extend(c, l, hs, RetryDue);
    hs := Extend(c, l, hs, TunOpens);
    hs := Extend(c, l, hs, AttemptFails(true, false, draw));
  }
}
