/**
 The reliability state machine (ReliabilityEngine.kt, ReconnectPolicy.kt): events
 in, actions out. The functions give each handler's effect on the whole engine;
 the class handles events in place.
 */
module ReliabilityEngine {
  import opened Prelude
  import opened TunnelConfig
  import L = TransportLadder
  import M = MtuPolicy

  datatype Status = DISCONNECTED | CONNECTING | CONNECTED | RECONNECTING | UNPROTECTED | NO_NETWORK | FAILED

  datatype Policy = TUNNEL | BLOCK | DIRECT

  datatype KillSwitch = SOFT | STRICT

  datatype Connection = Connection(
    status: Status,
    policy: Policy,
    transport: Transport,
    mtu: int,
    serverCode: Option<string>,
    attempt: nat,
    network: Option<Network>)

  const DISCONNECTED_STATE := Connection(DISCONNECTED, DIRECT, UDP, M.SAFE_MTU, None, 0, None)

  datatype Reason = HANDSHAKE_TIMEOUT | NETWORK_ERROR | PEER_REJECTED | SUBSCRIPTION_EXPIRED | CONFIG_INVALID {
    predicate IsTerminal() { this == SUBSCRIPTION_EXPIRED || this == CONFIG_INVALID }
  }

  datatype Event =
    | ConnectRequested
    | DisconnectRequested
    | NetworkAvailable(network: Network)
    | NetworkLost
    | TunnelEstablished
    | TunnelFailed(reason: Reason, draw: real)   // draw: the jitter in [0, 1) of the retry it may schedule
    | RetryTimerFired
    | GraceWindowExpired
    | StabilityTimerFired
    | TrafficStalled

  datatype Action =
    | StartTunnel(fallback: Fallback, mtu: int)
    | StopTunnel
    | SetTrafficPolicy(policy: Policy)
    | ScheduleRetry(delayMillis: int)
    | ScheduleGraceExpiry(delayMillis: int)
    | ScheduleStabilityCheck(delayMillis: int)
    | CancelTimers
    | RefreshConfig

  datatype Settings = Settings(mode: KillSwitch, graceWindowMillis: int)

  datatype Engine = Engine(
    state: Connection,
    config: Option<Config>,
    wantsTunnel: bool,
    current: Option<Fallback>,
    graceRunning: bool,
    ladder: L.State,
    mtus: M.Memory)

  function Fresh(config: Option<Config>): Engine {
    Engine(DISCONNECTED_STATE, config, false, None, false, L.State(map[], 0), map[])
  }

  // ------------------------------------------------------- reconnect delays

  const STEPS: seq<int> := [250, 500, 1_000, 2_000, 4_000, 8_000, 15_000, 30_000]

  /** +/-25% around the step of this attempt; `draw` is the random number in [0, 1). */
  function RetryDelay(attempt: int, draw: real): int {
    if attempt <= 0 then 0
    else
      var base := STEPS[Min(attempt - 1, 7)];
      Max(0, (base as real * (1.0 + (draw * 0.5 - 0.25))).Floor)
  }

  /** Between three and five quarters of the attempt's step: never above 37.5 s. */
  lemma RetryDelayRange(attempt: int, draw: real)
    requires 0.0 <= draw < 1.0
    ensures 0 <= RetryDelay(attempt, draw) <= 37_500
    ensures attempt >= 1 ==> var base := STEPS[Min(attempt - 1, 7)];
                             3 * base <= 4 * RetryDelay(attempt, draw) + 3 && 4 * RetryDelay(attempt, draw) <= 5 * base
  {
    if attempt >= 1 {
      var base := STEPS[Min(attempt - 1, 7)];
      assert STEPS == [250, 500, 1_000, 2_000, 4_000, 8_000, 15_000, 30_000];
      assert 250 <= base <= 30_000;
      var f := 1.0 + (draw * 0.5 - 0.25);
      assert 0.75 <= f < 1.25;
      var b := base as real;
      assert b * 0.75 <= b * f <= b * 1.25;
    }
  }

  // ------------------------------------------------------------- handlers

  function StartActions(c: Settings, e: Engine, fallback: Fallback, mtu: int, startGrace: bool): (Engine, seq<Action>) {
    var actions := [SetTrafficPolicy(e.state.policy), StartTunnel(fallback, mtu)];
    if startGrace && !e.graceRunning then
      (e.(graceRunning := true), actions + [ScheduleGraceExpiry(c.graceWindowMillis)])
    else (e, actions)
  }

  function HoldWithoutNetwork(e: Engine): (Engine, seq<Action>) {
    (e.(state := e.state.(status := NO_NETWORK, policy := BLOCK)), [SetTrafficPolicy(BLOCK)])
  }

  function OnConnectRequested(c: Settings, e: Engine): (Engine, seq<Action>) {
    if e.config.None? then
      (e.(wantsTunnel := true, state := e.state.(status := CONNECTING, attempt := 0)), [RefreshConfig])
    else if e.state.network.None? then HoldWithoutNetwork(e.(wantsTunnel := true))
    else
      var cfg := e.config.value;
      var fallback := L.Preferred(e.ladder, cfg, e.state.network);
      var mtu := M.MtuFor(e.mtus, e.state.network, cfg.mtu);
      StartActions(c,
        e.(wantsTunnel := true, current := Some(fallback),
           state := e.state.(status := CONNECTING, policy := BLOCK, transport := fallback.transport, mtu := mtu,
                             serverCode := Some(cfg.serverCode), attempt := 1)),
        fallback, mtu, true)
  }

  function OnDisconnectRequested(e: Engine): (Engine, seq<Action>) {
    (e.(wantsTunnel := false, graceRunning := false, current := None,
        state := DISCONNECTED_STATE.(network := e.state.network)),
     [CancelTimers, StopTunnel, SetTrafficPolicy(DIRECT)])
  }

  function OnNetworkAvailable(c: Settings, e: Engine, network: Network): (Engine, seq<Action>) {
    var handoff := network.IsHandoffFrom(e.state.network);
    var wasOffline := e.state.status == NO_NETWORK;
    var moved := e.(state := e.state.(network := Some(network)));
    if !e.wantsTunnel then (moved, [])
    else if e.config.None? then (moved, [RefreshConfig])
    else if !handoff && !wasOffline && e.state.status == CONNECTED then (moved, [])
    else
      var cfg := e.config.value;
      var ladder := L.OnNetworkChanged(e.ladder);
      var fallback := L.Preferred(ladder, cfg, Some(network));
      var mtu := M.MtuFor(e.mtus, Some(network), cfg.mtu);
      StartActions(c,
        moved.(ladder := ladder, current := Some(fallback),
               state := moved.state.(status := if wasOffline then CONNECTING else RECONNECTING, policy := BLOCK,
                                     transport := fallback.transport, mtu := mtu, attempt := 1)),
        fallback, mtu, true)
  }

  function OnNetworkLost(e: Engine): (Engine, seq<Action>) {
    (e.(graceRunning := false,
        state := e.state.(status := if e.wantsTunnel then NO_NETWORK else DISCONNECTED, policy := BLOCK,
          network := None)),
     [CancelTimers, StopTunnel])
  }

  function OnEstablished(e: Engine): (Engine, seq<Action>) {
    (e.(ladder := if e.current.Some? then L.OnSuccess(e.ladder, e.state.network, e.current.value) else e.ladder,
        graceRunning := false,
        state := e.state.(status := CONNECTED, policy := TUNNEL, attempt := 0)),
     [CancelTimers, SetTrafficPolicy(TUNNEL), ScheduleStabilityCheck(M.STABLE_AFTER_MILLIS)])
  }

  function OnTerminalFailure(c: Settings, e: Engine): (Engine, seq<Action>) {
    var policy := if c.mode == STRICT then BLOCK else DIRECT;
    (e.(wantsTunnel := false, graceRunning := false, state := e.state.(status := FAILED, policy := policy,
      attempt := 0)),
     [CancelTimers, StopTunnel, SetTrafficPolicy(policy), RefreshConfig])
  }

  function OnFailed(c: Settings, e: Engine, reason: Reason, draw: real): (Engine, seq<Action>) {
    if reason.IsTerminal() then OnTerminalFailure(c, e)
    else if !e.wantsTunnel then (e, [])
    else if e.config.None? then (e, [RefreshConfig])
    else
      var cfg := e.config.value;
      var previous := if e.current.Some? then e.current.value else L.Preferred(e.ladder, cfg, e.state.network);
      var (ladder, next) := L.OnFailure(e.ladder, cfg, previous);
      var attempt := e.state.attempt + 1;
      var status := if e.state.status == UNPROTECTED then UNPROTECTED else RECONNECTING;
      var hold := !e.graceRunning && status != UNPROTECTED;
      (e.(ladder := ladder, current := Some(next), graceRunning := e.graceRunning || hold,
          state := e.state.(status := status, transport := next.transport, attempt := attempt,
                            policy := if hold then BLOCK else e.state.policy)),
       (if hold then [SetTrafficPolicy(BLOCK), ScheduleGraceExpiry(c.graceWindowMillis)] else [])
       + [ScheduleRetry(RetryDelay(attempt, draw))]
       + (if reason == PEER_REJECTED then [RefreshConfig] else []))
  }

  function OnRetry(c: Settings, e: Engine): (Engine, seq<Action>) {
    if !e.wantsTunnel then (e, [])
    else if e.config.None? then (e, [RefreshConfig])
    else if e.state.network.None? then HoldWithoutNetwork(e)
    else
      var fallback := if e.current.Some? then e.current.value else L.Preferred(e.ladder, e.config.value,
        e.state.network);
      StartActions(c, e.(current := Some(fallback), state := e.state.(transport := fallback.transport)),
                   fallback, e.state.mtu, false)
  }

  function OnGraceExpired(c: Settings, e: Engine): (Engine, seq<Action>) {
    var e' := e.(graceRunning := false);
    if !e.wantsTunnel || e.state.status == CONNECTED then (e', [])
    else match c.mode
      case SOFT => (e'.(state := e.state.(status := UNPROTECTED, policy := DIRECT)), [SetTrafficPolicy(DIRECT)])
      case STRICT => (e'.(state := e.state.(policy := BLOCK)), [])
  }

  function OnStable(e: Engine): (Engine, seq<Action>) {
    (e.(mtus := M.OnStable(e.mtus, e.state.network, e.state.mtu).0), [])
  }

  function OnStalled(e: Engine): (Engine, seq<Action>) {
    var (mtus, lower) := M.OnStall(e.mtus, e.state.network, e.state.mtu);
    if lower == e.state.mtu then (e.(mtus := mtus), [])
    else
      (e.(mtus := mtus, state := e.state.(status := RECONNECTING, mtu := lower)),
       if e.current.Some? then [StopTunnel, StartTunnel(e.current.value, lower)] else [])
  }

  function Handle(c: Settings, e: Engine, event: Event): (Engine, seq<Action>) {
    match event
    case ConnectRequested => OnConnectRequested(c, e)
    case DisconnectRequested => OnDisconnectRequested(e)
    case NetworkAvailable(n) => OnNetworkAvailable(c, e, n)
    case NetworkLost => OnNetworkLost(e)
    case TunnelEstablished => OnEstablished(e)
    case TunnelFailed(reason, draw) => OnFailed(c, e, reason, draw)
    case RetryTimerFired => OnRetry(c, e)
    case GraceWindowExpired => OnGraceExpired(c, e)
    case StabilityTimerFired => OnStable(e)
    case TrafficStalled => OnStalled(e)
  }

  // ---------------------------------------------------------- the machine

  class ReliabilityEngine {
    const settings: Settings
    const ladder: L.TransportLadder
    const mtuPolicy: M.MtuPolicy
    var config: Option<Config>
    var state: Connection
    var wantsTunnel: bool
    var currentFallback: Option<Fallback>
    var graceRunning: bool

    function View(): Engine
      reads this, ladder, mtuPolicy
    {
      Engine(state, config, wantsTunnel, currentFallback, graceRunning, ladder.View(), mtuPolicy.memory)
    }

    constructor (config: Option<Config>, settings: Settings)
      ensures View() == Fresh(config) && this.settings == settings
      ensures fresh(ladder) && fresh(mtuPolicy)
    {
      this.settings := settings;
      this.config := config;
      state := DISCONNECTED_STATE;
      wantsTunnel := false;
      currentFallback := None;
      graceRunning := false;
      var l := new L.TransportLadder(map[]);
      var m := new M.MtuPolicy(map[]);
      ladder := l;
      mtuPolicy := m;
    }

    method UpdateConfig(newConfig: Config)
      modifies this`config
      ensures View() == old(View()).(config := Some(newConfig))
    {
      config := Some(newConfig);
    }

    method HandleEvent(event: Event) returns (actions: seq<Action>)
      modifies this, ladder, mtuPolicy
      ensures (View(), actions) == Handle(settings, old(View()), event)
    {
      match event
      case ConnectRequested => actions := ConnectRequestedHandler();
      case DisconnectRequested => actions := DisconnectRequestedHandler();
      case NetworkAvailable(n) => actions := NetworkAvailableHandler(n);
      case NetworkLost => actions := NetworkLostHandler();
      case TunnelEstablished => actions := EstablishedHandler();
      case TunnelFailed(reason, draw) => actions := FailedHandler(reason, draw);
      case RetryTimerFired => actions := RetryHandler();
      case GraceWindowExpired => actions := GraceExpiredHandler();
      case StabilityTimerFired =>
        var _ := mtuPolicy.Stable(state.network, state.mtu);
        actions := [];
      case TrafficStalled => actions := StalledHandler();
    }

    method ConnectRequestedHandler() returns (actions: seq<Action>)
      modifies this
      ensures (View(), actions) == OnConnectRequested(settings, old(View()))
    {
      wantsTunnel := true;
      if config == None {
        state := state.(status := CONNECTING, attempt := 0);
        return [RefreshConfig];
      }
      if state.network == None {
        actions := Hold();
        return;
      }
      var fallback := ladder.PreferredRung(config.value, state.network);
      var mtu := mtuPolicy.For(state.network, config.value.mtu);
      currentFallback := Some(fallback);
      state := state.(status := CONNECTING, policy := BLOCK, transport := fallback.transport, mtu := mtu,
                      serverCode := Some(config.value.serverCode), attempt := 1);
      actions := Start(fallback, mtu, true);
    }

    method DisconnectRequestedHandler() returns (actions: seq<Action>)
      modifies this
      ensures (View(), actions) == OnDisconnectRequested(old(View()))
    {
      wantsTunnel := false;
      graceRunning := false;
      currentFallback := None;
      state := DISCONNECTED_STATE.(network := state.network);
      actions := [CancelTimers, StopTunnel, SetTrafficPolicy(DIRECT)];
    }

    method NetworkAvailableHandler(network: Network) returns (actions: seq<Action>)
      modifies this, ladder
      ensures (View(), actions) == OnNetworkAvailable(settings, old(View()), network)
    {
      var handoff := network.IsHandoffFrom(state.network);
      var wasOffline := state.status == NO_NETWORK;
      state := state.(network := Some(network));
      if !wantsTunnel {
        return [];
      }
      if config == None {
        return [RefreshConfig];
      }
      if !handoff && !wasOffline && state.status == CONNECTED {
        return [];
      }
      ladder.NetworkChanged();
      var fallback := ladder.PreferredRung(config.value, Some(network));
      var mtu := mtuPolicy.For(Some(network), config.value.mtu);
      currentFallback := Some(fallback);
      state := state.(status := if wasOffline then CONNECTING else RECONNECTING, policy := BLOCK,
                      transport := fallback.transport, mtu := mtu, attempt := 1);
      actions := Start(fallback, mtu, true);
    }

    method NetworkLostHandler() returns (actions: seq<Action>)
      modifies this
      ensures (View(), actions) == OnNetworkLost(old(View()))
    {
      state := state.(status := if wantsTunnel then NO_NETWORK else DISCONNECTED, policy := BLOCK, network := None);
      graceRunning := false;
      actions := [CancelTimers, StopTunnel];
    }

    method EstablishedHandler() returns (actions: seq<Action>)
      modifies this, ladder
      ensures (View(), actions) == OnEstablished(old(View()))
    {
      if currentFallback.Some? {
        ladder.Success(state.network, currentFallback.value);
      }
      graceRunning := false;
      state := state.(status := CONNECTED, policy := TUNNEL, attempt := 0);
      actions := [CancelTimers, SetTrafficPolicy(TUNNEL), ScheduleStabilityCheck(M.STABLE_AFTER_MILLIS)];
    }

    method FailedHandler(reason: Reason, draw: real) returns (actions: seq<Action>)
      modifies this, ladder
      ensures (View(), actions) == OnFailed(settings, old(View()), reason, draw)
    {
      if reason.IsTerminal() {
        wantsTunnel := false;
        graceRunning := false;
        state := state.(status := FAILED, policy := if settings.mode == STRICT then BLOCK else DIRECT, attempt := 0);
        return [CancelTimers, StopTunnel, SetTrafficPolicy(state.policy), RefreshConfig];
      }
      if !wantsTunnel {
        return [];
      }
      if config == None {
        return [RefreshConfig];
      }
      var previous;
      if currentFallback.Some? {
        previous := currentFallback.value;
      } else {
        previous := ladder.PreferredRung(config.value, state.network);
      }
      var next := ladder.Failure(config.value, previous);
      currentFallback := Some(next);
      var attempt := state.attempt + 1;
      state := state.(status := if state.status == UNPROTECTED then UNPROTECTED else RECONNECTING,
                      transport := next.transport, attempt := attempt);
      actions := [];
      if !graceRunning && state.status != UNPROTECTED {
        graceRunning := true;
        state := state.(policy := BLOCK);
        actions := [SetTrafficPolicy(BLOCK), ScheduleGraceExpiry(settings.graceWindowMillis)];
      }
      actions := actions + [ScheduleRetry(RetryDelay(attempt, draw))];
      if reason == PEER_REJECTED {
        actions := actions + [RefreshConfig];
      } else {
        assert actions == actions + [];
      }
    }

    method RetryHandler() returns (actions: seq<Action>)
      modifies this
      ensures (View(), actions) == OnRetry(settings, old(View()))
    {
      if !wantsTunnel {
        return [];
      }
      if config == None {
        return [RefreshConfig];
      }
      if state.network == None {
        actions := Hold();
        return;
      }
      var fallback;
      if currentFallback.Some? {
        fallback := currentFallback.value;
      } else {
        fallback := ladder.PreferredRung(config.value, state.network);
      }
      currentFallback := Some(fallback);
      state := state.(transport := fallback.transport);
      actions := Start(fallback, state.mtu, false);
    }

    method GraceExpiredHandler() returns (actions: seq<Action>)
      modifies this
      ensures (View(), actions) == OnGraceExpired(settings, old(View()))
    {
      graceRunning := false;
      if !wantsTunnel || state.status == CONNECTED {
        return [];
      }
      match settings.mode
      case SOFT =>
        state := state.(status := UNPROTECTED, policy := DIRECT);
        actions := [SetTrafficPolicy(DIRECT)];
      case STRICT =>
        state := state.(policy := BLOCK);
        actions := [];
    }

    method StalledHandler() returns (actions: seq<Action>)
      modifies this, mtuPolicy
      ensures (View(), actions) == OnStalled(old(View()))
    {
      var lower := mtuPolicy.Stall(state.network, state.mtu);
      if lower == state.mtu {
        return [];
      }
      state := state.(status := RECONNECTING, mtu := lower);
      if currentFallback == None {
        return [];
      }
      actions := [StopTunnel, StartTunnel(currentFallback.value, lower)];
    }

    method Start(fallback: Fallback, mtu: int, startGrace: bool) returns (actions: seq<Action>)
      modifies this
      ensures (View(), actions) == StartActions(settings, old(View()), fallback, mtu, startGrace)
    {
      actions := [SetTrafficPolicy(state.policy), StartTunnel(fallback, mtu)];
      if startGrace && !graceRunning {
        graceRunning := true;
        actions := actions + [ScheduleGraceExpiry(settings.graceWindowMillis)];
      }
    }

    method Hold() returns (actions: seq<Action>)
      modifies this
      ensures (View(), actions) == HoldWithoutNetwork(old(View()))
    {
      state := state.(status := NO_NETWORK, policy := BLOCK);
      actions := [SetTrafficPolicy(BLOCK)];
    }
  }
}
