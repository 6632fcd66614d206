/**
 The engine closed up with the service that runs it (ProxifyVpnService.kt): the
 actions it returns become timers, tunnel attempts and config refreshes, and
 those come back to it as events.
 */
module TunnelService {
  import opened Prelude
  import opened TunnelConfig
  import opened ReliabilityEngine
  import opened EngineGuarantees
  import opened EngineActions
  import M = MtuPolicy

  /** startTunnel coroutines in flight: about to look for the tun, holding it with the
      backend still to start, and past that with TunnelEstablished still to dispatch. */
  datatype Attempts = Attempts(begun: nat, ready: nat, up: nat) {
    function Count(): nat { begun + ready + up }
  }

  const NONE_IN_FLIGHT := Attempts(0, 0, 0)

  /** Time is in milliseconds. `heldSince` is history: since when traffic has been
      blocked with a network present and a tunnel wanted. */
  datatype Loop = Loop(
    engine: Engine,
    now: int,
    grace: Option<int>,        // when the pending grace timer is due
    retry: bool,               // a retry timer is pending
    stability: bool,           // a stability timer is pending
    attempts: Attempts,
    refreshes: nat,            // refreshConfig coroutines in flight
    carried: Policy,           // the policy last applied
    tun: bool,                 // the tun interface is open
    backend: bool,             // the backend has been started and not stopped since
    heldSince: Option<int>)

  function Boot(config: Option<Config>, now: int): Loop {
    Loop(Fresh(config), now, None, false, false, NONE_IN_FLIGHT, 0, DIRECT, false, false, None)
  }

  predicate Holding(e: Engine) {
    e.wantsTunnel && e.state.network.Some? && e.state.policy == BLOCK
  }

  // ------------------------------------------------------------- dispatch

  /** applyTrafficPolicy: blocking stops the backend, letting traffic out closes the tun too. */
  function ApplyPolicy(l: Loop, p: Policy): Loop {
    match p
    case TUNNEL => l.(carried := p)
    case BLOCK => l.(carried := p, backend := false)
    case DIRECT => l.(carried := p, backend := false, tun := false)
  }

  function Execute(l: Loop, a: Action): Loop {
    match a
    case StartTunnel(_, _) =>
      if l.engine.config.None? then l.(refreshes := l.refreshes + 1)
      else l.(attempts := l.attempts.(begun := l.attempts.begun + 1))
    case StopTunnel => l.(backend := false)
    case SetTrafficPolicy(p) => ApplyPolicy(l, p)
    case ScheduleRetry(_) => l.(retry := true)
    case ScheduleGraceExpiry(delay) => l.(grace := Some(l.now + delay))
    case ScheduleStabilityCheck(_) => l.(stability := true)
    case CancelTimers => l.(retry := false, grace := None, stability := false)
    case RefreshConfig => l.(refreshes := l.refreshes + 1)
  }

  function ExecuteAll(l: Loop, actions: seq<Action>): Loop
    decreases |actions|
  {
    if actions == [] then l else ExecuteAll(Execute(l, actions[0]), actions[1..])
  }

  function Watch(l: Loop): Loop {
    l.(heldSince := if !Holding(l.engine) then None
                    else if l.heldSince.Some? then l.heldSince else Some(l.now))
  }

  function Dispatch(c: Settings, l: Loop, event: Event): Loop {
    var (e, actions) := Handle(c, l.engine, event);
    Watch(ExecuteAll(l.(engine := e), actions))
  }

  /** Everything that can happen to the running service. It never reports stalls. */
  datatype Happening =
    | UserConnects
    | UserDisconnects
    | NetworkUp(network: Network)
    | NetworkDown
    | TunOpens                           // an attempt finds or opens the tun
    | BackendStarts                      // and then starts the backend
    | AttemptSucceeds                    // and then says so
    | AttemptFails(ready: bool, rejected: bool, draw: real)   // ready: it had its tun
    | RetryDue
    | GraceDue
    | StabilityDue
    | ConfigArrives(config: Config)      // a refresh succeeded: updateConfig, then it retries
    | RefreshRetries                     // a refresh ended in RetryTimerFired
    | RefreshRefused(entitled: bool)     // not entitled, or not authorized
    | TimePasses(to: int)

  /** The event a happening dispatches, and what the service looks like by then; none
      if its source is not there. */
  function Feeds(l: Loop, h: Happening): Option<(Loop, Event)> {
    match h
    case UserConnects => Some((l, ConnectRequested))
    case UserDisconnects => Some((l, DisconnectRequested))
    case NetworkUp(n) => Some((l, NetworkAvailable(n)))
    case NetworkDown => Some((l, NetworkLost))
    case TunOpens => None
    case BackendStarts => None
    case AttemptSucceeds =>
      if l.attempts.up > 0 then
        Some((l.(attempts := l.attempts.(up := l.attempts.up - 1)), TunnelEstablished))
      else None
    case AttemptFails(ready, rejected, draw) =>
      var event := TunnelFailed(if rejected then PEER_REJECTED else HANDSHAKE_TIMEOUT, draw);
      if ready && l.attempts.ready > 0 then
        Some((l.(attempts := l.attempts.(ready := l.attempts.ready - 1)), event))
      else if !ready && l.attempts.begun > 0 then
        Some((l.(attempts := l.attempts.(begun := l.attempts.begun - 1)), event))
      else None
    case RetryDue => if l.retry then Some((l.(retry := false), RetryTimerFired)) else None
    case GraceDue =>
      if l.grace.Some? && l.grace.value <= l.now then Some((l.(grace := None), GraceWindowExpired)) else None
    case StabilityDue => if l.stability then Some((l.(stability := false), StabilityTimerFired)) else None
    case ConfigArrives(_) => None
    case RefreshRetries =>
      if l.refreshes > 0 then Some((l.(refreshes := l.refreshes - 1), RetryTimerFired)) else None
    case RefreshRefused(entitled) =>
      if l.refreshes > 0 then
        Some((l.(refreshes := l.refreshes - 1),
              TunnelFailed(if entitled then CONFIG_INVALID else SUBSCRIPTION_EXPIRED, 0.0)))
      else None
    case TimePasses(_) => None
  }

  /** One step. Timers are prompt: time does not pass a pending grace deadline. */
  function Step(c: Settings, l: Loop, h: Happening): Loop {
    var fed := Feeds(l, h);
    if fed.Some? then Dispatch(c, fed.value.0, fed.value.1)
    else match h
      case TunOpens =>
        if l.attempts.begun == 0 then l
        else l.(attempts := l.attempts.(begun := l.attempts.begun - 1, ready := l.attempts.ready + 1), tun := true)
      case BackendStarts =>
        if l.attempts.ready == 0 then l
        else l.(attempts := l.attempts.(ready := l.attempts.ready - 1, up := l.attempts.up + 1), backend := true)
      case ConfigArrives(cfg) => if l.refreshes > 0 then l.(engine := l.engine.(config := Some(cfg))) else l
      case TimePasses(to) =>
        if to >= l.now && (l.grace.Some? ==> to <= l.grace.value) then l.(now := to) else l
      case _ => l
  }

  function Run(c: Settings, l: Loop, hs: seq<Happening>): Loop
    decreases |hs|
  {
    if hs == [] then l else Run(c, Step(c, l, hs[0]), hs[1..])
  }

  lemma Unroll(l: Loop, a: seq<Action>)
    ensures |a| == 0 ==> ExecuteAll(l, a) == l
    ensures |a| == 1 ==> ExecuteAll(l, a) == Execute(l, a[0])
    ensures |a| == 2 ==> ExecuteAll(l, a) == Execute(Execute(l, a[0]), a[1])
    ensures |a| == 3 ==> ExecuteAll(l, a) == Execute(Execute(Execute(l, a[0]), a[1]), a[2])
    ensures |a| == 4 ==> ExecuteAll(l, a) == Execute(Execute(Execute(Execute(l, a[0]), a[1]), a[2]), a[3])
  {
    if |a| >= 1 {
      var l1 := Execute(l, a[0]);
      if |a| >= 2 {
        var l2 := Execute(l1, a[1]);
        assert ExecuteAll(l1, a[1..]) == ExecuteAll(l2, a[2..]) by { assert a[1..][1..] == a[2..]; }
        if |a| >= 3 {
          var l3 := Execute(l2, a[2]);
          assert ExecuteAll(l2, a[2..]) == ExecuteAll(l3, a[3..]) by { assert a[2..][1..] == a[3..]; }
          if |a| == 4 {
            assert ExecuteAll(l3, a[3..]) == ExecuteAll(Execute(l3, a[3]), a[4..]) by { assert a[3..][1..] == a[4..]; }
          }
        }
      }
    }
  }

  // -------------------------------------------------------- the grace timer

  /** The engine's side: graceRunning means blocked, and held traffic means graceRunning. */
  ghost predicate GraceHonest(c: Settings, e: Engine) {
    && Honest(c, e) && e.config.Some?
    && (e.graceRunning ==> e.state.policy == BLOCK)
    && (Holding(e) ==> e.graceRunning)
  }

  /** The service's side: a timer is pending exactly while the window is running,
      never more than a window away, and traffic held since t is released by t + window. */
  ghost predicate GraceTimed(c: Settings, l: Loop) {
    && (l.grace.Some? <==> l.engine.graceRunning)
    && (l.grace.Some? ==> l.now <= l.grace.value <= l.now + c.graceWindowMillis)
    && (l.heldSince.Some? <==> Holding(l.engine))
    && (l.heldSince.Some? ==> l.heldSince.value <= l.now && l.grace.Some?
                              && l.grace.value <= l.heldSince.value + c.graceWindowMillis)
  }

  /** What a handler may do to the grace window, and what it tells the service. */
  lemma HandlerKeepsGrace(c: Settings, e: Engine, event: Event)
    requires c.mode == SOFT && GraceHonest(c, e) && event != TrafficStalled
    ensures GraceHonest(c, Handle(c, e, event).0)
  {
    StepIsHonest(c, e, Deliver(event));
  }

  /** What one action does to the grace timer. */
  function GraceAfter(grace: Option<int>, now: int, a: Action): Option<int> {
    match a
    case ScheduleGraceExpiry(delay) => Some(now + delay)
    case CancelTimers => None
    case _ => grace
  }

  function GraceAfterAll(grace: Option<int>, now: int, actions: seq<Action>): Option<int>
    decreases |actions|
  {
    if actions == [] then grace else GraceAfterAll(GraceAfter(grace, now, actions[0]), now, actions[1..])
  }

  lemma {:induction false} GraceIs(l: Loop, actions: seq<Action>)
    ensures ExecuteAll(l, actions).grace == GraceAfterAll(l.grace, l.now, actions)
    decreases |actions|
  {
    if actions != [] { GraceIs(Execute(l, actions[0]), actions[1..]); }
  }

  /** The timer after the few actions of an event. */
  lemma GraceUnrolled(g0: Option<int>, now: int, a: seq<Action>)
    requires |a| <= 4
    ensures var g1 := if |a| > 0 then GraceAfter(g0, now, a[0]) else g0;
            var g2 := if |a| > 1 then GraceAfter(g1, now, a[1]) else g1;
            var g3 := if |a| > 2 then GraceAfter(g2, now, a[2]) else g2;
            GraceAfterAll(g0, now, a) == if |a| > 3 then GraceAfter(g3, now, a[3]) else g3
  {
    if |a| > 0 {
      var g1 := GraceAfter(g0, now, a[0]);
      if |a| > 1 {
        assert a[1..][1..] == a[2..];
        var g2 := GraceAfter(g1, now, a[1]);
        assert GraceAfterAll(g1, now, a[1..]) == GraceAfterAll(g2, now, a[2..]);
        if |a| > 2 {
          assert a[2..][1..] == a[3..];
          var g3 := GraceAfter(g2, now, a[2]);
          assert GraceAfterAll(g2, now, a[2..]) == GraceAfterAll(g3, now, a[3..]);
          if |a| > 3 { assert a[3..][1..] == []; }
        }
      }
    }
  }

  /** What a handler tells the service about the grace timer is what the engine has in
      mind: events about the network and attempts first, then the others. */
  ghost predicate TellsGrace(c: Settings, e: Engine, event: Event, grace: Option<int>, now: int) {
    var (e', actions) := Handle(c, e, event);
    var grace' := GraceAfterAll(grace, now, actions);
    && (grace'.Some? <==> e'.graceRunning)
    && (grace'.Some? ==> grace' == if grace.Some? then grace else Some(now + c.graceWindowMillis))
  }

  lemma NetworkTellsGrace(c: Settings, e: Engine, event: Event, grace: Option<int>, now: int)
    requires GraceHonest(c, e) && (grace.Some? <==> e.graceRunning)
    requires event.NetworkAvailable? || event.NetworkLost? || event.TunnelFailed? || event.TunnelEstablished?
    ensures TellsGrace(c, e, event, grace, now)
  {
    GraceUnrolled(grace, now, Handle(c, e, event).1);
  }

  lemma OthersTellGrace(c: Settings, e: Engine, event: Event, grace: Option<int>, now: int)
    requires GraceHonest(c, e) && event != TrafficStalled
    requires if event == GraceWindowExpired then grace == None else grace.Some? <==> e.graceRunning
    requires !(event.NetworkAvailable? || event.NetworkLost? || event.TunnelFailed? || event.TunnelEstablished?)
    ensures TellsGrace(c, e, event, grace, now)
  {
    GraceUnrolled(grace, now, Handle(c, e, event).1);
  }

  lemma HandlerKeepsTimers(c: Settings, l: Loop, event: Event)
    requires c.mode == SOFT && c.graceWindowMillis >= 0
    requires GraceHonest(c, l.engine) && GraceHonest(c, Handle(c, l.engine, event).0) && event != TrafficStalled
    requires if event == GraceWindowExpired then l.grace == None else GraceTimed(c, l)
    requires TellsGrace(c, l.engine, event, l.grace, l.now)
    ensures GraceTimed(c, Dispatch(c, l, event))
    ensures l.grace.Some? && Dispatch(c, l, event).grace.Some? ==> Dispatch(c, l, event).grace == l.grace
  {
    var (e, actions) := Handle(c, l.engine, event);
    ActionsLeaveTheEngineAlone(l.(engine := e), actions);
    GraceIs(l.(engine := e), actions);
  }

  lemma DispatchKeepsGrace(c: Settings, l: Loop, event: Event)
    requires c.mode == SOFT && c.graceWindowMillis >= 0
    requires GraceHonest(c, l.engine) && event != TrafficStalled
    requires if event == GraceWindowExpired then l.grace == None else GraceTimed(c, l)
    ensures GraceHonest(c, Dispatch(c, l, event).engine)
    ensures GraceTimed(c, Dispatch(c, l, event))
    ensures l.grace.Some? && Dispatch(c, l, event).grace.Some? ==> Dispatch(c, l, event).grace == l.grace
  {
    HandlerKeepsGrace(c, l.engine, event);
    var (e, actions) := Handle(c, l.engine, event);
    ActionsLeaveTheEngineAlone(l.(engine := e), actions);
    if event.NetworkAvailable? || event.NetworkLost? || event.TunnelFailed? || event.TunnelEstablished? {
      NetworkTellsGrace(c, l.engine, event, l.grace, l.now);
    } else {
      OthersTellGrace(c, l.engine, event, l.grace, l.now);
    }
    HandlerKeepsTimers(c, l, event);
  }

  lemma UnfedKeepsGrace(c: Settings, l: Loop, h: Happening)
    requires c.mode == SOFT && c.graceWindowMillis >= 0
    requires GraceHonest(c, l.engine) && GraceTimed(c, l) && Feeds(l, h).None?
    ensures GraceHonest(c, Step(c, l, h).engine) && GraceTimed(c, Step(c, l, h))
    ensures Step(c, l, h).grace == l.grace
  {
  }

  /** Feeding an event touches nothing the grace window depends on but a timer that fires. */
  lemma FedKeepsGrace(c: Settings, l: Loop, h: Happening)
    requires Feeds(l, h).Some?
    ensures var (l', event) := Feeds(l, h).value;
            && event != TrafficStalled
            && l'.engine == l.engine && l'.now == l.now && l'.heldSince == l.heldSince
            && l'.grace == if event == GraceWindowExpired then None else l.grace
  {
  }

  lemma StepKeepsGrace(c: Settings, l: Loop, h: Happening)
    requires c.mode == SOFT && c.graceWindowMillis >= 0
    requires GraceHonest(c, l.engine) && GraceTimed(c, l)
    ensures GraceHonest(c, Step(c, l, h).engine) && GraceTimed(c, Step(c, l, h))
    ensures l.grace.Some? && Step(c, l, h).grace.Some? ==> Step(c, l, h).grace == l.grace
  {
    var fed := Feeds(l, h);
    if fed.Some? {
      var (l', event) := fed.value;
      FedKeepsGrace(c, l, h);
      assert Step(c, l, h) == Dispatch(c, l', event);
      DispatchKeepsGrace(c, l', event);
    } else {
      UnfedKeepsGrace(c, l, h);
    }
  }

  lemma {:induction false} GraceFrom(c: Settings, l: Loop, hs: seq<Happening>)
    requires c.mode == SOFT && c.graceWindowMillis >= 0
    requires GraceHonest(c, l.engine) && GraceTimed(c, l)
    ensures GraceHonest(c, Run(c, l, hs).engine) && GraceTimed(c, Run(c, l, hs))
    decreases |hs|
  {
    if hs != [] {
      StepKeepsGrace(c, l, hs[0]);
      GraceFrom(c, Step(c, l, hs[0]), hs[1..]);
    }
  }

  /** Soft mode, a config held from the start: over every run, the grace timer is
      pending exactly when the engine says so, traffic is blocked while it is, and
      no stretch of blocked traffic with a network outlasts the grace window. */
  lemma HeldTrafficIsReleasedInTime(c: Settings, cfg: Config, now: int, hs: seq<Happening>)
    requires c.mode == SOFT && c.graceWindowMillis >= 0
    ensures var l := Run(c, Boot(Some(cfg), now), hs);
            && (l.grace.Some? <==> l.engine.graceRunning)
            && (l.engine.graceRunning ==> l.engine.state.policy == BLOCK)
            && (Holding(l.engine) ==> l.engine.graceRunning)
            && (Holding(l.engine) ==> l.heldSince.Some? && l.now - l.heldSince.value <= c.graceWindowMillis)
  {
    GraceFrom(c, Boot(Some(cfg), now), hs);
  }

  /** heldSince is what it says: it is kept while the hold lasts and set when one begins. */
  lemma HeldSinceIsTheStartOfTheHold(c: Settings, l: Loop, event: Event)
    ensures var l' := Dispatch(c, l, event);
            && l'.now == l.now
            && (Holding(l'.engine) && l.heldSince.Some? ==> l'.heldSince == l.heldSince)
            && (Holding(l'.engine) && l.heldSince.None? ==> l'.heldSince == Some(l.now))
            && (!Holding(l'.engine) ==> l'.heldSince == None)
  {
    ActionsLeaveTheEngineAlone(l.(engine := Handle(c, l.engine, event).0), Handle(c, l.engine, event).1);
  }

  lemma OneActionLeavesTheEngineAlone(l: Loop, a: Action)
    ensures Execute(l, a).engine == l.engine && Execute(l, a).now == l.now && Execute(l, a).heldSince == l.heldSince
  {
  }

  lemma {:induction false} ActionsLeaveTheEngineAlone(l: Loop, actions: seq<Action>)
    ensures var l' := ExecuteAll(l, actions);
            l'.engine == l.engine && l'.now == l.now && l'.heldSince == l.heldSince
    decreases |actions|
  {
    if actions != [] {
      OneActionLeavesTheEngineAlone(l, actions[0]);
      ActionsLeaveTheEngineAlone(Execute(l, actions[0]), actions[1..]);
    }
  }

  /** Nothing that happens, failures and handoffs included, moves a pending grace
      deadline, at any point of any run. */
  lemma GraceDeadlineIsNeverExtended(c: Settings, cfg: Config, now: int, hs: seq<Happening>, h: Happening)
    requires c.mode == SOFT && c.graceWindowMillis >= 0
    ensures var l := Run(c, Boot(Some(cfg), now), hs);
            l.grace.Some? && Step(c, l, h).grace.Some? ==> Step(c, l, h).grace == l.grace
  {
    GraceFrom(c, Boot(Some(cfg), now), hs);
    StepKeepsGrace(c, Run(c, Boot(Some(cfg), now), hs), h);
  }

  // -------------------------------------------------------------- progress

  /** A tunnel is wanted, there is a network, and it is not up. */
  predicate Waiting(e: Engine) {
    e.wantsTunnel && e.state.network.Some? && e.state.status != CONNECTED
  }

  predicate Trying(l: Loop) { l.attempts.Count() > 0 || l.retry || l.refreshes > 0 }

  /** What one action does to that: busy with an attempt or a refresh, or a retry pending. */
  datatype Effort = Effort(busy: bool, retry: bool)

  function EffortOf(l: Loop): Effort { Effort(l.attempts.Count() > 0 || l.refreshes > 0, l.retry) }

  function EffortAfterOne(t: Effort, a: Action): Effort {
    match a
    case StartTunnel(_, _) => t.(busy := true)
    case RefreshConfig => t.(busy := true)
    case ScheduleRetry(_) => t.(retry := true)
    case CancelTimers => t.(retry := false)
    case _ => t
  }

  function EffortAfter(t: Effort, actions: seq<Action>): Effort
    decreases |actions|
  {
    if actions == [] then t else EffortAfter(EffortAfterOne(t, actions[0]), actions[1..])
  }

  lemma OneEffortIs(l: Loop, a: Action)
    ensures EffortOf(Execute(l, a)) == EffortAfterOne(EffortOf(l), a)
  {
  }

  lemma {:induction false} EffortIs(l: Loop, actions: seq<Action>)
    ensures EffortOf(ExecuteAll(l, actions)) == EffortAfter(EffortOf(l), actions)
    decreases |actions|
  {
    if actions != [] {
      OneEffortIs(l, actions[0]);
      EffortIs(Execute(l, actions[0]), actions[1..]);
    }
  }

  predicate SchedulesRetry(actions: seq<Action>) {
    exists k | 0 <= k < |actions| :: actions[k].ScheduleRetry?
  }

  lemma FirstOrLater(actions: seq<Action>)
    requires actions != []
    ensures Starts(actions) <==> actions[0].StartTunnel? || Starts(actions[1..])
    ensures SchedulesRetry(actions) <==> actions[0].ScheduleRetry? || SchedulesRetry(actions[1..])
    ensures forall a :: a in actions <==> a == actions[0] || a in actions[1..]
  {
    var rest := actions[1..];
    assert actions == [actions[0]] + rest;
    assert forall k | 0 <= k < |rest| :: rest[k] == actions[k + 1];
    assert forall k | 0 < k < |actions| :: actions[k] == rest[k - 1];
  }

  /** A start or a request for a config is an effort no action ends; a retry, one that
      only cancelling the timers does. */
  lemma {:induction false} EffortsLast(t: Effort, actions: seq<Action>)
    ensures t.busy || Starts(actions) || RefreshConfig in actions ==> EffortAfter(t, actions).busy
    ensures (t.retry || SchedulesRetry(actions)) && CancelTimers !in actions ==> EffortAfter(t, actions).retry
    decreases |actions|
  {
    if actions != [] {
      FirstOrLater(actions);
      EffortsLast(EffortAfterOne(t, actions[0]), actions[1..]);
    }
  }

  /** Whatever leaves a tunnel wanted and not up starts one, asks for a config, schedules
      a retry, or was no outcome and leaves alone what was under way. */
  lemma EveryEventLeavesAnEffort(c: Settings, e: Engine, event: Event)
    requires event != TrafficStalled
    ensures var (e', actions) := Handle(c, e, event);
            Waiting(e') ==>
              || Starts(actions) || RefreshConfig in actions
              || (SchedulesRetry(actions) && CancelTimers !in actions)
              || (Waiting(e) && CancelTimers !in actions
                  && !event.TunnelEstablished? && !event.TunnelFailed? && !event.RetryTimerFired?)
  {
    var (e', actions) := Handle(c, e, event);
    ATunnelIsStartedExactlyWhen(c, e, event);
    AConfigIsAskedForExactlyWhen(c, e, event);
    if event.TunnelFailed? && Waiting(e') && !CallsForRefresh(e, event) {
      assert actions[if actions[0].SetTrafficPolicy? then 2 else 0].ScheduleRetry?;
    }
  }

  lemma DispatchKeepsTrying(c: Settings, l: Loop, event: Event)
    requires event != TrafficStalled
    requires event.TunnelEstablished? || event.TunnelFailed? || event.RetryTimerFired?
             || (Waiting(l.engine) ==> Trying(l))
    ensures Waiting(Dispatch(c, l, event).engine) ==> Trying(Dispatch(c, l, event))
  {
    var (e, actions) := Handle(c, l.engine, event);
    EveryEventLeavesAnEffort(c, l.engine, event);
    ActionsLeaveTheEngineAlone(l.(engine := e), actions);
    EffortIs(l.(engine := e), actions);
    EffortsLast(EffortOf(l), actions);
  }

  lemma StepKeepsTrying(c: Settings, l: Loop, h: Happening)
    requires Waiting(l.engine) ==> Trying(l)
    ensures Waiting(Step(c, l, h).engine) ==> Trying(Step(c, l, h))
  {
    var fed := Feeds(l, h);
    if fed.Some? { DispatchKeepsTrying(c, fed.value.0, fed.value.1); }
  }

  lemma {:induction false} TryingFrom(c: Settings, l: Loop, hs: seq<Happening>)
    requires Waiting(l.engine) ==> Trying(l)
    ensures Waiting(Run(c, l, hs).engine) ==> Trying(Run(c, l, hs))
    decreases |hs|
  {
    if hs != [] {
      StepKeepsTrying(c, l, hs[0]);
      TryingFrom(c, Step(c, l, hs[0]), hs[1..]);
    }
  }

  /** Either mode, with or without a config, over every run: whenever a tunnel is
      wanted, a network is present and the tunnel is not up, an attempt is in
      flight, a retry is scheduled or a config refresh is outstanding. */
  lemma TheServiceIsNeverStuck(c: Settings, config: Option<Config>, now: int, hs: seq<Happening>)
    ensures var l := Run(c, Boot(config, now), hs);
            Waiting(l.engine) ==> l.attempts.Count() > 0 || l.retry || l.refreshes > 0
  {
    TryingFrom(c, Boot(config, now), hs);
  }

  lemma {:induction false} RunSnoc(c: Settings, l: Loop, hs: seq<Happening>, h: Happening)
    ensures Run(c, l, hs + [h]) == Step(c, Run(c, l, hs), h)
    decreases |hs|
  {
    if hs == [] {
      assert [h][1..] == [];
    } else {
      assert (hs + [h])[1..] == hs[1..] + [h];
      RunSnoc(c, Step(c, l, hs[0]), hs[1..], h);
    }
  }

  lemma Extend(c: Settings, l: Loop, hs: seq<Happening>, h: Happening) returns (hs': seq<Happening>)
    ensures hs' == hs + [h] && Run(c, l, hs') == Step(c, Run(c, l, hs), h)
  {
    hs' := hs + [h];
    RunSnoc(c, l, hs, h);
  }

  /** Dispatch, action by action. */
  lemma Played(c: Settings, l: Loop, event: Event)
    ensures var (e, a) := Handle(c, l.engine, event);
            var b := l.(engine := e);
            && (|a| == 0 ==> Dispatch(c, l, event) == Watch(b))
            && (|a| == 1 ==> Dispatch(c, l, event) == Watch(Execute(b, a[0])))
            && (|a| == 2 ==> Dispatch(c, l, event) == Watch(Execute(Execute(b, a[0]), a[1])))
            && (|a| == 3 ==> Dispatch(c, l, event) == Watch(Execute(Execute(Execute(b, a[0]), a[1]), a[2])))
  {
    Unroll(l.(engine := Handle(c, l.engine, event).0), Handle(c, l.engine, event).1);
  }

  /** An attempt that outlives a disconnect: the user starts one, gives up, loses the
      network and asks again while it is still under way. */
  lemma AnAttemptOutlivesItsRequest(c: Settings, cfg: Config, n: Network) returns (hs: seq<Happening>)
    ensures var l := Run(c, Boot(Some(cfg), 0), hs);
            && l.engine.config.Some? && l.engine.wantsTunnel && l.engine.state.network == None
              && l.engine.current == None
            && l.engine.state.mtu == 1280 && l.attempts == Attempts(1, 0, 0) && !l.retry && l.refreshes == 0
  {
    var l := Boot(Some(cfg), 0);
    hs := [];
    hs := Extend(c, l, hs, NetworkUp(n));
    Played(c, Boot(Some(cfg), 0), NetworkAvailable(n));
    hs := Extend(c, l, hs, UserConnects);
    var l2 := Run(c, l, hs);
    Played(c, Run(c, l, hs[..1]), ConnectRequested) by { assert hs[..1] == [NetworkUp(n)]; }
    assert hs == hs[..1] + [UserConnects];
    assert l2.attempts == Attempts(1, 0, 0);
    hs := Extend(c, l, hs, UserDisconnects);
    Played(c, l2, DisconnectRequested);
    var l3 := Run(c, l, hs);
    hs := Extend(c, l, hs, NetworkDown);
    Played(c, l3, NetworkLost);
    var l4 := Run(c, l, hs);
    hs := Extend(c, l, hs, UserConnects);
    Played(c, l4, ConnectRequested);
  }

  lemma ItSucceedsWithNoTransportChosen(c: Settings, l: Loop)
    requires l.engine.config.Some? && l.engine.wantsTunnel && l.engine.state.network == None
    requires l.engine.current == None && l.attempts == Attempts(1, 0, 0) && !l.retry && l.refreshes == 0
    ensures var l' := Step(c, Step(c, Step(c, l, TunOpens), BackendStarts), AttemptSucceeds);
            && l'.engine == OnEstablished(l.engine).0 && !Trying(l')
  {
    var up := Step(c, Step(c, l, TunOpens), BackendStarts);
    assert up.attempts == Attempts(0, 0, 1) && up.engine == l.engine;
    Played(c, up.(attempts := NONE_IN_FLIGHT), TunnelEstablished);
  }

  /** It can then bring the tunnel up with no transport chosen. */
  lemma ATunnelWithNoTransportChosen(c: Settings, cfg: Config, n: Network) returns (hs: seq<Happening>)
    ensures var l := Run(c, Boot(Some(cfg), 0), hs);
            && l.engine.config.Some? && l.engine.wantsTunnel && l.engine.state.network == Some(n)
              && l.engine.state.status == CONNECTED
            && l.engine.current == None && l.engine.state.mtu == 1280 && !Trying(l)
  {
    var l := Boot(Some(cfg), 0);
    hs := AnAttemptOutlivesItsRequest(c, cfg, n);
    ItSucceedsWithNoTransportChosen(c, Run(c, l, hs));
    hs := Extend(c, l, hs, TunOpens);
    hs := Extend(c, l, hs, BackendStarts);
    hs := Extend(c, l, hs, AttemptSucceeds);
    var l6 := Run(c, l, hs);
    hs := Extend(c, l, hs, NetworkUp(n));
    Played(c, l6, NetworkAvailable(n));
  }

  /** Were the service to report stalls, one would leave the engine waiting with
      nothing under way exactly when it lowers the MTU of a wanted tunnel that has a
      network but no transport chosen, and nothing was under way already. */
  lemma AStallStrandsExactlyWhen(c: Settings, l: Loop)
    requires Waiting(l.engine) ==> Trying(l)
    ensures var l' := Dispatch(c, l, TrafficStalled);
            Waiting(l'.engine) && !Trying(l') <==>
              && M.Lower(l.engine.state.mtu) != l.engine.state.mtu
              && l.engine.wantsTunnel && l.engine.state.network.Some?
              && l.engine.current == None && !Trying(l)
  {
    Played(c, l, TrafficStalled);
  }

  /** That the service never reports stalls matters: a stall there would leave the
      engine waiting with nothing under way. */
  lemma AStallCouldLeaveItStuck(c: Settings, cfg: Config, n: Network) returns (hs: seq<Happening>)
    ensures var l := Dispatch(c, Run(c, Boot(Some(cfg), 0), hs), TrafficStalled);
            Waiting(l.engine) && !Trying(l)
  {
    hs := ATunnelWithNoTransportChosen(c, cfg, n);
    assert M.RUNGS == [1420, 1380, 1340, 1280, 1240, 1200];
    M.LowerIsStrict(1280);
    AStallStrandsExactlyWhen(c, Run(c, Boot(Some(cfg), 0), hs));
  }

  // ----------------------------------------------- after a disconnect

  /** Disconnected, with no attempt in flight and so no tunnel to come. */
  ghost predicate AtRest(l: Loop) {
    Off(l.engine) && l.attempts == NONE_IN_FLIGHT && l.engine.state.status != CONNECTED
  }

  lemma {:induction false} OnlyStartsBeginAttempts(l: Loop, actions: seq<Action>)
    requires !Starts(actions)
    ensures ExecuteAll(l, actions).attempts == l.attempts
    decreases |actions|
  {
    if actions != [] {
      FirstOrLater(actions);
      OnlyStartsBeginAttempts(Execute(l, actions[0]), actions[1..]);
    }
  }

  lemma RestingDispatch(c: Settings, l: Loop, event: Event)
    requires AtRest(l) && event != ConnectRequested && event != TunnelEstablished && event != TrafficStalled
    ensures AtRest(Dispatch(c, l, event))
  {
    var (e, actions) := Handle(c, l.engine, event);
    ATunnelIsStartedExactlyWhen(c, l.engine, event);
    OnlyStartsBeginAttempts(l.(engine := e), actions);
    ActionsLeaveTheEngineAlone(l.(engine := e), actions);
  }

  lemma RestingStep(c: Settings, l: Loop, h: Happening)
    requires AtRest(l) && h != UserConnects
    ensures AtRest(Step(c, l, h))
  {
    var fed := Feeds(l, h);
    if fed.Some? { RestingDispatch(c, fed.value.0, fed.value.1); }
  }

  lemma {:induction false} RestsFrom(c: Settings, l: Loop, hs: seq<Happening>)
    requires AtRest(l) && forall h | h in hs :: h != UserConnects
    ensures AtRest(Run(c, l, hs))
    decreases |hs|
  {
    if hs != [] {
      assert hs[0] in hs && forall h | h in hs[1..] :: h in hs;
      RestingStep(c, l, hs[0]);
      RestsFrom(c, Step(c, l, hs[0]), hs[1..]);
    }
  }

  /** An attempt in flight, left to itself, succeeds. */
  lemma AnAttemptComesThrough(c: Settings, l: Loop) returns (hs: seq<Happening>)
    requires l.attempts != NONE_IN_FLIGHT
    ensures UserConnects !in hs && Run(c, l, hs).engine.state.status == CONNECTED
  {
    hs := [];
    if l.attempts.up == 0 && l.attempts.ready == 0 { hs := Extend(c, l, hs, TunOpens); }
    if l.attempts.up == 0 { hs := Extend(c, l, hs, BackendStarts); }
    var up := Run(c, l, hs);
    assert up.attempts.up > 0;
    hs := Extend(c, l, hs, AttemptSucceeds);
    ActionsLeaveTheEngineAlone(up.(attempts := up.attempts.(up := up.attempts.up - 1),
      engine := OnEstablished(up.engine).0), OnEstablished(up.engine).1);
  }

  /** The service does not call an attempt off: after a disconnect, and until the next
      connect, a run can show CONNECTED if and only if an attempt was in flight. */
  lemma ATunnelCanOutliveADisconnectExactlyWhen(c: Settings, l: Loop)
    ensures var off := Step(c, l, UserDisconnects);
            l.attempts != NONE_IN_FLIGHT <==>
              exists hs :: UserConnects !in hs && Run(c, off, hs).engine.state.status == CONNECTED
  {
    var off := Step(c, l, UserDisconnects);
    Played(c, l, DisconnectRequested);
    if l.attempts != NONE_IN_FLIGHT {
      var hs := AnAttemptComesThrough(c, off);
    } else {
      forall hs | UserConnects !in hs ensures Run(c, off, hs).engine.state.status != CONNECTED {
        RestsFrom(c, off, hs);
      }
    }
  }

  /** Every retry the engine schedules is due within 37.5 seconds. */
  lemma RetriesComeSoon(c: Settings, e: Engine, event: Event)
    requires event.TunnelFailed? ==> 0.0 <= event.draw < 1.0
    ensures forall k | 0 <= k < |Handle(c, e, event).1| && Handle(c, e, event).1[k].ScheduleRetry? ::
              0 <= Handle(c, e, event).1[k].delayMillis <= 37_500
  {
    if event.TunnelFailed? {
      RetryDelayRange(e.state.attempt + 1, event.draw);
    }
  }

  // ------------------------------------------------------------ the service

  /** dispatch and execute, over the engine object. */
  class Service {
    const engine: ReliabilityEngine
    ghost var now: int
    ghost var heldSince: Option<int>
    var grace: Option<int>
    var retry: bool
    var stability: bool
    var attempts: Attempts
    var refreshes: nat
    var carried: Policy
    var tun: bool
    var backend: bool

    ghost function View(): Loop
      reads this, engine, engine.ladder, engine.mtuPolicy
    {
      Loop(engine.View(), now, grace, retry, stability, attempts, refreshes, carried, tun, backend, heldSince)
    }

    constructor (config: Option<Config>, settings: Settings, ghost now: int)
      ensures View() == Boot(config, now)
      ensures engine.settings == settings
      ensures fresh(engine) && fresh(engine.ladder) && fresh(engine.mtuPolicy)
    {
      var e := new ReliabilityEngine(config, settings);
      engine := e;
      this.now := now;
      heldSince := None;
      grace, retry, stability := None, false, false;
      attempts, refreshes := NONE_IN_FLIGHT, 0;
      carried, tun, backend := DIRECT, false, false;
    }

    /** `clock` is the service's reading of the time, which the schedule calls use. */
    method DispatchEvent(event: Event, clock: int)
      requires clock == now
      modifies this, engine, engine.ladder, engine.mtuPolicy
      ensures View() == Dispatch(engine.settings, old(View()), event)
    {
      var actions := engine.HandleEvent(event);
      ghost var started := View();
      for i := 0 to |actions|
        invariant engine.View() == started.engine && now == old(now) && heldSince == old(heldSince)
        invariant ExecuteAll(View(), actions[i..]) == ExecuteAll(started, actions)
      {
        assert actions[i..][1..] == actions[i + 1..];
        ExecuteAction(actions[i], clock);
      }
      heldSince := Watch(View()).heldSince;
    }

    method ExecuteAction(a: Action, clock: int)
      requires clock == now
      modifies this`grace, this`retry, this`stability, this`attempts, this`refreshes
      modifies this`carried, this`tun, this`backend
      ensures View() == Execute(old(View()), a)
    {
      match a
      case StartTunnel(_, _) =>
        if engine.config == None {
          refreshes := refreshes + 1;
        } else {
          attempts := attempts.(begun := attempts.begun + 1);
        }
      case StopTunnel => backend := false;
      case SetTrafficPolicy(p) =>
        carried := p;
        if p != TUNNEL { backend := false; }
        if p == DIRECT { tun := false; }
      case ScheduleRetry(_) => retry := true;
      case ScheduleGraceExpiry(delay) => grace := Some(clock + delay);
      case ScheduleStabilityCheck(_) => stability := true;
      case CancelTimers => retry, grace, stability := false, None, false;
      case RefreshConfig => refreshes := refreshes + 1;
    }
  }
}
