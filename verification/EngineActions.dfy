/**
 What the reliability engine asks of the service that runs it: which actions come of
 which events, and which rung and delay a streak of failures leads to.
 */
module EngineActions {
  import opened Prelude
  import opened TunnelConfig
  import opened ReliabilityEngine
  import opened EngineGuarantees
  import L = TransportLadder
  import M = MtuPolicy

  predicate SetsPolicy(actions: seq<Action>) {
    exists k | 0 <= k < |actions| :: actions[k].SetTrafficPolicy?
  }

  predicate OnlySets(actions: seq<Action>, p: Policy) {
    forall k | 0 <= k < |actions| && actions[k].SetTrafficPolicy? :: actions[k].policy == p
  }

  predicate Starts(actions: seq<Action>) {
    exists k | 0 <= k < |actions| :: actions[k].StartTunnel?
  }

  // ----------------------------------------------------------- the policy

  /** The two events that change the policy and leave the service to find out: a lost
      network, and in strict mode the end of a grace window with traffic not yet blocked. */
  predicate ChangesPolicyUnasked(c: Settings, e: Engine, event: Event) {
    && e.state.policy != BLOCK
    && (event == NetworkLost
        || (event == GraceWindowExpired && c.mode == STRICT && e.wantsTunnel && e.state.status != CONNECTED))
  }

  lemma StartsSetThePolicy(c: Settings, e: Engine, event: Event)
    requires event == ConnectRequested || event.NetworkAvailable? || event == RetryTimerFired
    ensures var (e', actions) := Handle(c, e, event);
            && OnlySets(actions, e'.state.policy)
            && (e'.state.policy != e.state.policy ==> SetsPolicy(actions))
  {
    var (e', actions) := Handle(c, e, event);
    if e'.state.policy != e.state.policy { assert actions[0].SetTrafficPolicy?; }
  }

  lemma FailuresSetThePolicy(c: Settings, e: Engine, reason: Reason, draw: real)
    ensures var (e', actions) := OnFailed(c, e, reason, draw);
            && OnlySets(actions, e'.state.policy)
            && (e'.state.policy != e.state.policy ==> SetsPolicy(actions))
  {
    var (e', actions) := OnFailed(c, e, reason, draw);
    if reason.IsTerminal() {
      assert actions[2].SetTrafficPolicy?;
    } else if e'.state.policy != e.state.policy {
      assert actions[0].SetTrafficPolicy?;
    }
  }

  /** Every policy the service is told to apply is the one the state shows, and the
      state's policy changes without its being told at exactly those two events. */
  lemma TheServiceIsToldThePolicyExactlyWhen(c: Settings, e: Engine, event: Event)
    ensures var (e', actions) := Handle(c, e, event);
            && OnlySets(actions, e'.state.policy)
            && (e'.state.policy != e.state.policy && !SetsPolicy(actions) <==> ChangesPolicyUnasked(c, e, event))
  {
    var (e', actions) := Handle(c, e, event);
    match event
    case TunnelFailed(reason, draw) => FailuresSetThePolicy(c, e, reason, draw);
    case DisconnectRequested => assert actions[2].SetTrafficPolicy?;
    case TunnelEstablished => assert actions[1].SetTrafficPolicy?;
    case GraceWindowExpired => if actions != [] { assert actions[0].SetTrafficPolicy?; }
    case NetworkLost =>
    case StabilityTimerFired =>
    case TrafficStalled =>
    case _ => StartsSetThePolicy(c, e, event);
  }

  // ------------------------------------------------- starts and refreshes

  /** When a tunnel is started: on a request and on a retry with a config and a network,
      on a network other than the one a tunnel is up on, and with a lower MTU. */
  predicate CallsForStart(e: Engine, event: Event) {
    match event
    case ConnectRequested => e.config.Some? && e.state.network.Some?
    case RetryTimerFired => e.wantsTunnel && e.config.Some? && e.state.network.Some?
    case NetworkAvailable(n) =>
      e.wantsTunnel && e.config.Some? && (e.state.status != CONNECTED || n.IsHandoffFrom(e.state.network))
    case TrafficStalled => e.current.Some? && M.Lower(e.state.mtu) != e.state.mtu
    case _ => false
  }

  lemma ATunnelIsStartedExactlyWhen(c: Settings, e: Engine, event: Event)
    ensures var (e', actions) := Handle(c, e, event);
            && (Starts(actions) <==> CallsForStart(e, event))
            && (forall k | 0 <= k < |actions| && actions[k].StartTunnel? ::
                  e'.current == Some(actions[k].fallback) && actions[k].mtu == e'.state.mtu)
  {
    var (e', actions) := Handle(c, e, event);
    if CallsForStart(e, event) { assert actions[1].StartTunnel?; }
  }

  /** A new network or a new request forgets the failures before it and uses what the
      network has taught: the attempt count starts over, with traffic held, at the
      transport that worked there if the server still offers it, else at UDP, and with
      the MTU learned there, else the config's brought into range. */
  lemma AFreshStartUsesWhatWasLearned(c: Settings, e: Engine, event: Event)
    requires event == ConnectRequested || event.NetworkAvailable?
    requires CallsForStart(e, event)
    ensures var (e', _) := Handle(c, e, event);
            && e'.state.attempt == 1 && e'.state.policy == BLOCK && e'.state.network.Some?
            && e'.state.status == (if event == ConnectRequested || e.state.status == NO_NETWORK then CONNECTING
                                   else RECONNECTING)
            && e'.state.mtu == (var n := e'.state.network.value;
                                if n in e.mtus then e.mtus[n] else Max(1200, Min(e.config.value.mtu, 1420)))
            && (event.NetworkAvailable? ==> e'.ladder.failures == 0 && e'.state.network == Some(event.network))
            && e'.current.Some? && e'.current.value in Ladder(e.config.value)
            && e'.state.transport == e'.current.value.transport
            && e'.state.transport ==
                 var n := e'.state.network.value;
                 if n in e.ladder.memory && Offers(Ladder(e.config.value), e.ladder.memory[n])
                 then e.ladder.memory[n] else UDP
  {
    var network := if event.NetworkAvailable? then Some(event.network) else e.state.network;
    var ladder := if event.NetworkAvailable? then L.OnNetworkChanged(e.ladder) else e.ladder;
    L.RememberedElseUdp(ladder, e.config.value, network);
  }

  predicate CallsForRefresh(e: Engine, event: Event) {
    match event
    case ConnectRequested => e.config.None?
    case NetworkAvailable(_) => e.wantsTunnel && e.config.None?
    case RetryTimerFired => e.wantsTunnel && e.config.None?
    case TunnelFailed(reason, _) =>
      reason.IsTerminal() || (e.wantsTunnel && (e.config.None? || reason == PEER_REJECTED))
    case _ => false
  }

  /** The control plane is asked for a config whenever one is missing, once it was found
      wanting for good, and when the edge rejected the peer. */
  lemma AConfigIsAskedForExactlyWhen(c: Settings, e: Engine, event: Event)
    ensures RefreshConfig in Handle(c, e, event).1 <==> CallsForRefresh(e, event)
  {
    var (e', actions) := Handle(c, e, event);
    if CallsForRefresh(e, event) { assert actions[|actions| - 1] == RefreshConfig; }
  }

  // ------------------------------------------------ a streak of failures

  /** Inputs while an attempt keeps failing on one network, with nothing else new. */
  predicate Struggling(i: Input) {
    i.Deliver? &&
    match i.event
    case TunnelFailed(reason, _) => !reason.IsTerminal()
    case RetryTimerFired => true
    case GraceWindowExpired => true
    case StabilityTimerFired => true
    case TrafficStalled => true
    case _ => false
  }

  function Failures(inputs: seq<Input>): nat
    decreases |inputs|
  {
    if inputs == [] then 0
    else (if inputs[0].Deliver? && inputs[0].event.TunnelFailed? then 1 else 0) + Failures(inputs[1..])
  }

  predicate UnderWay(e: Engine) {
    e.wantsTunnel && e.config.Some? && e.state.network.Some? && e.current.Some?
  }

  lemma StruggleStep(c: Settings, e: Engine, i: Input)
    requires UnderWay(e) && Struggling(i)
    ensures var e' := Next(c, e, i).0;
            && UnderWay(e') && e'.config == e.config
            && if i.event.TunnelFailed? then
                 && (e'.ladder, e'.current.value) == L.OnFailure(e.ladder, e.config.value, e.current.value)
                 && e'.state.attempt == e.state.attempt + 1
               else e'.ladder == e.ladder && e'.current == e.current && e'.state.attempt == e.state.attempt
  {
  }

  lemma {:induction false} WhereFailuresLead(c: Settings, e: Engine, inputs: seq<Input>)
    requires UnderWay(e) && forall i | i in inputs :: Struggling(i)
    ensures var e' := Run(c, e, inputs);
            && UnderWay(e') && e'.config == e.config
            && (e'.ladder, e'.current.value) == L.Fail(e.ladder, e.config.value, e.current.value, Failures(inputs))
            && e'.state.attempt == e.state.attempt + Failures(inputs)
    decreases |inputs|
  {
    if inputs != [] {
      assert inputs[0] in inputs && forall i | i in inputs[1..] :: i in inputs;
      StruggleStep(c, e, inputs[0]);
      WhereFailuresLead(c, Next(c, e, inputs[0]).0, inputs[1..]);
    }
  }

  /** A success settles the account: the failure after it is the first of a new streak
      and leaves the transport alone. */
  lemma ASuccessForgivesOneFailure(c: Settings, e: Engine, reason: Reason, draw: real)
    requires UnderWay(e) && !reason.IsTerminal()
    ensures var up := Handle(c, e, TunnelEstablished).0;
            var down := Handle(c, up, TunnelFailed(reason, draw)).0;
            up.state.attempt == 0 && down.state.attempt == 1 && down.current == e.current
  {
  }

  /** Once the user has been told UNPROTECTED, that is what the phone says, and what it
      does, until something other than failures, retries and timers comes along. */
  lemma {:induction false} UnprotectedIsSaidThroughout(c: Settings, e: Engine, inputs: seq<Input>)
    requires UnderWay(e) && e.state.status == UNPROTECTED && e.state.policy == DIRECT && c.mode == SOFT
    requires forall i | i in inputs :: Struggling(i) && i != Deliver(TrafficStalled)
    ensures Run(c, e, inputs).state.status == UNPROTECTED && Run(c, e, inputs).state.policy == DIRECT
    decreases |inputs|
  {
    if inputs != [] {
      assert inputs[0] in inputs && forall i | i in inputs[1..] :: i in inputs;
      StruggleStep(c, e, inputs[0]);
      UnprotectedIsSaidThroughout(c, Next(c, e, inputs[0]).0, inputs[1..]);
    }
  }

  /** Whatever the failures, retries, timers and stalls of the streak, a retry starts the
      rung that so many failures of the ladder lead to, with the MTU of the moment. */
  lemma RetriesStartTheRungFailuresLedTo(c: Settings, e: Engine, inputs: seq<Input>)
    requires UnderWay(e) && forall i | i in inputs :: Struggling(i)
    ensures var e' := Run(c, e, inputs);
            var rung := L.Fail(e.ladder, e.config.value, e.current.value, Failures(inputs)).1;
            && Handle(c, e', RetryTimerFired).1 == [SetTrafficPolicy(e'.state.policy), StartTunnel(rung, e'.state.mtu)]
            && Handle(c, e', RetryTimerFired).0.state.transport == rung.transport
  {
    WhereFailuresLead(c, e, inputs);
  }

  /** So with no transport listed twice, 2n failures of a fresh start on rung i make the
      retry start rung i + n, round and round. */
  lemma PairsOfFailuresMoveUpTheLadder(c: Settings, e: Engine, inputs: seq<Input>, i: nat, n: nat)
    requires UnderWay(e) && forall input | input in inputs :: Struggling(input)
    requires DistinctTransports(Ladder(e.config.value)) && e.ladder.failures == 0
    requires i < |Ladder(e.config.value)| && e.current.value == Ladder(e.config.value)[i]
    requires Failures(inputs) == 2 * n
    ensures var e' := Run(c, e, inputs);
            var ladder := Ladder(e.config.value);
            Handle(c, e', RetryTimerFired).1
            == [SetTrafficPolicy(e'.state.policy), StartTunnel(ladder[(i + n) % |ladder|], e'.state.mtu)]
  {
    RetriesStartTheRungFailuresLedTo(c, e, inputs);
    L.FailuresWalkTheLadder(e.ladder, e.config.value, i, n);
  }

  /** The delays of a streak grow by the table: after k failures the next one schedules
      one retry, within a quarter of the table's step for the attempts so far. */
  lemma DelaysFollowTheTable(c: Settings, e: Engine, inputs: seq<Input>, reason: Reason, draw: real)
    requires UnderWay(e) && forall i | i in inputs :: Struggling(i)
    requires !reason.IsTerminal() && 0.0 <= draw < 1.0
    ensures var actions := Handle(c, Run(c, e, inputs), TunnelFailed(reason, draw)).1;
            var table := [250, 500, 1_000, 2_000, 4_000, 8_000, 15_000, 30_000];
            var step := table[Min(e.state.attempt + Failures(inputs), 7)];
            exists k | 0 <= k < |actions| ::
              && actions[k].ScheduleRetry?
              && 3 * step <= 4 * actions[k].delayMillis + 3 && 4 * actions[k].delayMillis <= 5 * step
              && forall j | 0 <= j < |actions| && j != k :: !actions[j].ScheduleRetry?
  {
    WhereFailuresLead(c, e, inputs);
    var e' := Run(c, e, inputs);
    RetryDelayRange(e'.state.attempt + 1, draw);
    var actions := Handle(c, e', TunnelFailed(reason, draw)).1;
    var k := if actions[0].SetTrafficPolicy? then 2 else 0;
    assert actions[k].ScheduleRetry?;
  }
}
