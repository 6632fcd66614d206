/**
 What the reliability engine guarantees whatever events reach it, in any order:
 the status shown to the user is honest, disconnecting is final, and every tunnel
 is started with a learned transport and an MTU inside the safe range.
 */
module EngineGuarantees {
  import opened Prelude
  import opened TunnelConfig
  import opened ReliabilityEngine
  import L = TransportLadder
  import M = MtuPolicy

  /** An input to the engine: an event, or a fresh config from the control plane. */
  datatype Input = Deliver(event: Event) | UpdateConfig(config: Config)

  function Next(c: Settings, e: Engine, i: Input): (Engine, seq<Action>) {
    match i
    case Deliver(event) => Handle(c, e, event)
    case UpdateConfig(cfg) => (e.(config := Some(cfg)), [])
  }

  function Run(c: Settings, e: Engine, inputs: seq<Input>): Engine
    decreases |inputs|
  {
    if inputs == [] then e else Run(c, Next(c, e, inputs[0]).0, inputs[1..])
  }

  ghost predicate Never(inputs: seq<Input>, event: Event) {
    forall k | 0 <= k < |inputs| :: inputs[k] != Deliver(event)
  }

  // --------------------------------------------------------- honest status

  /** CONNECTED means packets go through the tunnel, UNPROTECTED means they go
      around it, and strict mode never gets there. */
  ghost predicate Honest(c: Settings, e: Engine) {
    && (e.state.status == CONNECTED ==> e.state.policy == TUNNEL)
    && (e.state.status == UNPROTECTED ==> e.state.policy == DIRECT && c.mode == SOFT)
    && (e.graceRunning ==> e.wantsTunnel)
  }

  lemma NetworkIsHonest(c: Settings, e: Engine, event: Event)
    requires Honest(c, e) && (event.NetworkAvailable? || event.ConnectRequested? || event.TunnelFailed?)
    ensures Honest(c, Handle(c, e, event).0)
  {
  }

  lemma StepIsHonest(c: Settings, e: Engine, i: Input)
    requires Honest(c, e)
    ensures Honest(c, Next(c, e, i).0)
  {
    if i.Deliver? && (i.event.NetworkAvailable? || i.event.ConnectRequested? || i.event.TunnelFailed?) {
      NetworkIsHonest(c, e, i.event);
    }
  }

  lemma {:induction false} StatusIsHonest(c: Settings, config: Option<Config>, inputs: seq<Input>)
    ensures Honest(c, Run(c, Fresh(config), inputs))
  {
    HonestFrom(c, Fresh(config), inputs);
  }

  lemma {:induction false} HonestFrom(c: Settings, e: Engine, inputs: seq<Input>)
    requires Honest(c, e)
    ensures Honest(c, Run(c, e, inputs))
    decreases |inputs|
  {
    if inputs != [] {
      StepIsHonest(c, e, inputs[0]);
      HonestFrom(c, Next(c, e, inputs[0]).0, inputs[1..]);
    }
  }

  /** In strict mode, traffic once blocked or tunnelled is never let out directly
      until the user disconnects: over any inputs without DisconnectRequested. */
  lemma {:induction false} StrictModeNeverLeaks(c: Settings, e: Engine, inputs: seq<Input>)
    requires c.mode == STRICT && e.state.policy != DIRECT
    requires Never(inputs, DisconnectRequested)
    ensures Run(c, e, inputs).state.policy != DIRECT
    decreases |inputs|
  {
    if inputs != [] {
      StrictModeNeverLeaks(c, Next(c, e, inputs[0]).0, inputs[1..]);
    }
  }

  predicate Reconnects(a: Action) { a.StartTunnel? || a.ScheduleRetry? || a.ScheduleGraceExpiry? }

  ghost predicate Off(e: Engine) { !e.wantsTunnel && e.current == None && !e.graceRunning }

  /** After DisconnectRequested, whatever follows short of another ConnectRequested,
      no input makes the engine start a tunnel, schedule a retry or open a grace window. */
  lemma {:induction false} DisconnectIsFinal(c: Settings, e: Engine, inputs: seq<Input>, last: Input)
    requires Never(inputs, ConnectRequested)
    requires last != Deliver(ConnectRequested)
    ensures var off := Run(c, Next(c, e, Deliver(DisconnectRequested)).0, inputs);
            Off(off) && forall k | 0 <= k < |Next(c, off, last).1| :: !Reconnects(Next(c, off, last).1[k])
  {
    StaysOff(c, Next(c, e, Deliver(DisconnectRequested)).0, inputs);
  }

  lemma {:induction false} StaysOff(c: Settings, e: Engine, inputs: seq<Input>)
    requires Off(e) && Never(inputs, ConnectRequested)
    ensures Off(Run(c, e, inputs))
    decreases |inputs|
  {
    if inputs != [] {
      StaysOff(c, Next(c, e, inputs[0]).0, inputs[1..]);
    }
  }

  /** The inputs that end a tunnel nobody wants. */
  predicate Drops(e: Engine, i: Input) {
    i.Deliver? &&
    match i.event
    case NetworkLost => true
    case DisconnectRequested => true
    case TunnelFailed(reason, _) => reason.IsTerminal()
    case TrafficStalled => M.Lower(e.state.mtu) != e.state.mtu
    case _ => false
  }

  /** The tunnel came up, from an attempt started before the disconnect, and nothing
      since has dropped it. */
  ghost predicate CameUpSince(c: Settings, e: Engine, inputs: seq<Input>) {
    inputs != [] &&
    var (front, last) := (inputs[..|inputs| - 1], inputs[|inputs| - 1]);
    last == Deliver(TunnelEstablished) || (CameUpSince(c, e, front) && !Drops(Run(c, e, front), last))
  }

  lemma {:induction false} RunSnoc(c: Settings, e: Engine, inputs: seq<Input>, i: Input)
    ensures Run(c, e, inputs + [i]) == Next(c, Run(c, e, inputs), i).0
    decreases |inputs|
  {
    if inputs == [] {
      assert [i][1..] == [];
    } else {
      assert (inputs + [i])[1..] == inputs[1..] + [i];
      RunSnoc(c, Next(c, e, inputs[0]).0, inputs[1..], i);
    }
  }

  lemma OffStep(c: Settings, e: Engine, i: Input)
    requires Off(e) && i != Deliver(ConnectRequested)
    ensures var e' := Next(c, e, i).0;
            && Off(e')
            && (e'.state.status == CONNECTED <==>
                  i == Deliver(TunnelEstablished) || (e.state.status == CONNECTED && !Drops(e, i)))
  {
  }

  /** Disconnecting does not call off an attempt: until the next connect, the phone
      shows CONNECTED exactly while one that came up since has not been dropped. */
  lemma {:induction false} ADisconnectedPhoneShowsConnectedExactlyWhen(c: Settings, e: Engine, inputs: seq<Input>)
    requires Never(inputs, ConnectRequested)
    ensures var off := Handle(c, e, DisconnectRequested).0;
            && Off(Run(c, off, inputs))
            && (Run(c, off, inputs).state.status == CONNECTED <==> CameUpSince(c, off, inputs))
    decreases |inputs|
  {
    var off := Handle(c, e, DisconnectRequested).0;
    if inputs != [] {
      var front, last := inputs[..|inputs| - 1], inputs[|inputs| - 1];
      assert inputs == front + [last] && last in inputs;
      assert forall i | i in front :: i in inputs;
      ADisconnectedPhoneShowsConnectedExactlyWhen(c, e, front);
      RunSnoc(c, off, front, last);
      OffStep(c, Run(c, off, front), last);
    }
  }

  // ------------------------------------------------ traffic turns direct

  /** Traffic that was blocked or tunnelled turns direct at exactly three inputs: the
      user's disconnect; in soft mode a terminal failure, grace window or not; and in
      soft mode the end of a grace window with the tunnel wanted and not up. */
  lemma TrafficTurnsDirectExactlyWhen(c: Settings, e: Engine, i: Input)
    requires e.state.policy != DIRECT
    ensures Next(c, e, i).0.state.policy == DIRECT <==>
              i == Deliver(DisconnectRequested)
              || (c.mode == SOFT && i.Deliver? && i.event.TunnelFailed? && i.event.reason.IsTerminal())
              || (c.mode == SOFT && i == Deliver(GraceWindowExpired) && e.wantsTunnel && e.state.status != CONNECTED)
  {
  }

  /** So the end of the grace window is not the only way there: a lapsed subscription
      releases the traffic a running window holds. */
  lemma ALapsedSubscriptionEndsTheHold(c: Settings, cfg: Config, n: Network, draw: real)
    requires c.mode == SOFT
    ensures var inputs := [Deliver(NetworkAvailable(n)), Deliver(ConnectRequested)];
            var e := Run(c, Fresh(Some(cfg)), inputs);
            && e.graceRunning && e.state.policy == BLOCK
            && Handle(c, e, TunnelFailed(SUBSCRIPTION_EXPIRED, draw)).0.state.policy == DIRECT
  {
    var first := Deliver(NetworkAvailable(n));
    RunSnoc(c, Fresh(Some(cfg)), [], first);
    RunSnoc(c, Fresh(Some(cfg)), [first], Deliver(ConnectRequested));
    assert [] + [first] == [first];
    assert [first] + [Deliver(ConnectRequested)] == [first, Deliver(ConnectRequested)];
  }

  // ------------------------------------------- direct traffic is announced

  /** What the user is told about direct traffic: the status says so. */
  predicate Told(e: Engine) {
    e.state.policy == DIRECT ==> e.state.status in {DISCONNECTED, UNPROTECTED, FAILED}
  }

  ghost predicate Announced(c: Settings, e: Engine) {
    && Honest(c, e) && Told(e)
    && (e.graceRunning ==> e.state.policy == BLOCK)
    && (e.wantsTunnel ==> e.state.status != DISCONNECTED && e.state.status != FAILED)
  }

  /** The two inputs that change what is said while traffic stays direct: being asked
      to connect with no config, and a stall that lowers the MTU. */
  predicate Unmasks(e: Engine, i: Input) {
    && e.state.policy == DIRECT
    && ((i == Deliver(ConnectRequested) && e.config.None?)
        || (i == Deliver(TrafficStalled) && M.Lower(e.state.mtu) != e.state.mtu))
  }

  lemma UnmaskingEvents(c: Settings, e: Engine, event: Event)
    requires Announced(c, e) && Honest(c, Handle(c, e, event).0)
    requires event == ConnectRequested || event == TrafficStalled
    ensures Told(Handle(c, e, event).0) <==> !Unmasks(e, Deliver(event))
    ensures !Unmasks(e, Deliver(event)) ==> Announced(c, Handle(c, e, event).0)
  {
  }

  lemma OtherEventsAnnounce(c: Settings, e: Engine, event: Event)
    requires Announced(c, e) && Honest(c, Handle(c, e, event).0)
    requires event != ConnectRequested && event != TrafficStalled && !event.TunnelFailed? && !event.NetworkAvailable?
    ensures Announced(c, Handle(c, e, event).0)
  {
  }

  lemma NetworkAnnounces(c: Settings, e: Engine, n: Network)
    requires Announced(c, e) && Honest(c, Handle(c, e, NetworkAvailable(n)).0)
    ensures Announced(c, Handle(c, e, NetworkAvailable(n)).0)
  {
  }

  lemma FailureAnnounces(c: Settings, e: Engine, reason: Reason, draw: real)
    requires Announced(c, e) && Honest(c, Handle(c, e, TunnelFailed(reason, draw)).0)
    ensures Announced(c, Handle(c, e, TunnelFailed(reason, draw)).0)
  {
  }

  lemma StepAnnouncesUnlessUnmasked(c: Settings, e: Engine, i: Input)
    requires Announced(c, e)
    ensures Told(Next(c, e, i).0) <==> !Unmasks(e, i)
    ensures !Unmasks(e, i) ==> Announced(c, Next(c, e, i).0)
  {
    StepIsHonest(c, e, i);
    if i.Deliver? {
      match i.event
      case NetworkAvailable(n) => NetworkAnnounces(c, e, n);
      case TunnelFailed(reason, draw) => FailureAnnounces(c, e, reason, draw);
      case ConnectRequested => UnmaskingEvents(c, e, i.event);
      case TrafficStalled => UnmaskingEvents(c, e, i.event);
      case _ => OtherEventsAnnounce(c, e, i.event);
    }
  }

  /** Told now and after every input. */
  ghost predicate ToldThroughout(c: Settings, e: Engine, inputs: seq<Input>)
    decreases |inputs|
  {
    Told(e) && (inputs != [] ==> ToldThroughout(c, Next(c, e, inputs[0]).0, inputs[1..]))
  }

  ghost predicate NothingUnmasks(c: Settings, e: Engine, inputs: seq<Input>)
    decreases |inputs|
  {
    inputs != [] ==> !Unmasks(e, inputs[0]) && NothingUnmasks(c, Next(c, e, inputs[0]).0, inputs[1..])
  }

  /** Over every run, with or without a config: traffic goes around the tunnel only
      while the status says disconnected, unprotected or failed, at every point, if
      and only if the engine is never asked to connect without a config nor told of a
      stall above the MTU floor while traffic is direct. */
  lemma DirectTrafficIsAnnounced(c: Settings, config: Option<Config>, inputs: seq<Input>)
    ensures ToldThroughout(c, Fresh(config), inputs) <==> NothingUnmasks(c, Fresh(config), inputs)
  {
    AnnouncedFrom(c, Fresh(config), inputs);
  }

  lemma {:induction false} AnnouncedFrom(c: Settings, e: Engine, inputs: seq<Input>)
    requires Announced(c, e)
    ensures ToldThroughout(c, e, inputs) <==> NothingUnmasks(c, e, inputs)
    decreases |inputs|
  {
    if inputs != [] {
      var e' := Next(c, e, inputs[0]).0;
      StepAnnouncesUnlessUnmasked(c, e, inputs[0]);
      if Unmasks(e, inputs[0]) {
        assert !ToldThroughout(c, e', inputs[1..]);
      } else {
        AnnouncedFrom(c, e', inputs[1..]);
      }
    }
  }

  /** Stalls are reported only while connected. */
  ghost predicate StallsOnlyWhenConnected(c: Settings, e: Engine, inputs: seq<Input>)
    decreases |inputs|
  {
    inputs != [] ==>
      && (inputs[0] == Deliver(TrafficStalled) ==> e.state.status == CONNECTED)
      && StallsOnlyWhenConnected(c, Next(c, e, inputs[0]).0, inputs[1..])
  }

  /** A caller that has a config from the start and reports stalls only while
      connected never unmasks anything. */
  lemma {:induction false} ACarefulCallerNeverUnmasks(c: Settings, e: Engine, inputs: seq<Input>)
    requires Announced(c, e) && e.config.Some? && StallsOnlyWhenConnected(c, e, inputs)
    ensures NothingUnmasks(c, e, inputs)
    decreases |inputs|
  {
    if inputs != [] {
      StepAnnouncesUnlessUnmasked(c, e, inputs[0]);
      StepKeepsConfig(c, e, inputs[0]);
      ACarefulCallerNeverUnmasks(c, Next(c, e, inputs[0]).0, inputs[1..]);
    }
  }

  lemma StepKeepsConfig(c: Settings, e: Engine, i: Input)
    requires e.config.Some?
    ensures Next(c, e, i).0.config.Some?
  {
  }

  /** Asked to connect without a config, the engine leaves traffic direct while it
      says it is connecting. */
  lemma ConnectingWithoutAConfigIsNotAnnounced(c: Settings)
    ensures var e := Run(c, Fresh(None), [Deliver(ConnectRequested)]);
            e.state.status == CONNECTING && e.state.policy == DIRECT
  {
    var inputs := [Deliver(ConnectRequested)];
    assert inputs[1..] == [];
  }

  /** Told of a stall while unprotected, which a soft-mode engine gets to when its
      grace window runs out, it says reconnecting over direct traffic. */
  lemma AStallWhileUnprotectedIsNotAnnounced(c: Settings, cfg: Config, n: Network)
    requires c.mode == SOFT && cfg.mtu > 1200
    ensures var inputs := [Deliver(NetworkAvailable(n)), Deliver(ConnectRequested), Deliver(GraceWindowExpired)];
            var e := Run(c, Fresh(Some(cfg)), inputs);
            var e' := Handle(c, e, TrafficStalled).0;
            && e.state.status == UNPROTECTED && Unmasks(e, Deliver(TrafficStalled))
            && e'.state.status == RECONNECTING && e'.state.policy == DIRECT
  {
    var inputs := [Deliver(NetworkAvailable(n)), Deliver(ConnectRequested), Deliver(GraceWindowExpired)];
    var e1 := Next(c, Fresh(Some(cfg)), inputs[0]).0;
    var e2 := Next(c, e1, inputs[1]).0;
    var e3 := Next(c, e2, inputs[2]).0;
    assert 1200 < e2.state.mtu <= 1420 && e3.state.status == UNPROTECTED;
    assert inputs[1..][1..] == inputs[2..] && inputs[2..][1..] == [];
    assert Run(c, e1, inputs[1..]) == Run(c, e2, inputs[2..]) == Run(c, e3, []);
    M.LowerIsStrict(e3.state.mtu);
  }

  // ------------------------------------------------ learned transport, MTU

  ghost predicate MtusInRange(e: Engine) {
    M.InRange(e.state.mtu) && M.Sane(e.mtus)
  }

  predicate SafeStarts(actions: seq<Action>) {
    forall k | 0 <= k < |actions| && actions[k].StartTunnel? :: 1200 <= actions[k].mtu <= 1420
  }

  lemma StartingIsSafe(c: Settings, e: Engine, event: Event)
    requires MtusInRange(e) && (event.ConnectRequested? || event.NetworkAvailable? || event.RetryTimerFired?)
    ensures MtusInRange(Handle(c, e, event).0) && SafeStarts(Handle(c, e, event).1)
  {
  }

  lemma LearningIsSafe(c: Settings, e: Engine, event: Event)
    requires MtusInRange(e) && (event.StabilityTimerFired? || event.TrafficStalled?)
    ensures MtusInRange(Handle(c, e, event).0) && SafeStarts(Handle(c, e, event).1)
  {
    M.HigherIsOneRungUp(e.state.mtu);
    M.LowerIsStrict(e.state.mtu);
  }

  lemma StepKeepsMtusInRange(c: Settings, e: Engine, i: Input)
    requires MtusInRange(e)
    ensures MtusInRange(Next(c, e, i).0) && SafeStarts(Next(c, e, i).1)
  {
    if i.Deliver? {
      match i.event
      case ConnectRequested => StartingIsSafe(c, e, i.event);
      case NetworkAvailable(n) => StartingIsSafe(c, e, i.event);
      case RetryTimerFired => StartingIsSafe(c, e, i.event);
      case StabilityTimerFired => LearningIsSafe(c, e, i.event);
      case TrafficStalled => LearningIsSafe(c, e, i.event);
      case _ => assert Next(c, e, i).0.mtus == e.mtus;
    }
  }

  /** From empty memory, every tunnel ever started has an MTU in 1200..1420,
      whatever MTU any config asks for. */
  lemma {:induction false} EveryTunnelHasASafeMtu(c: Settings, config: Option<Config>, inputs: seq<Input>, last: Input)
    ensures MtusInRange(Run(c, Fresh(config), inputs))
    ensures SafeStarts(Next(c, Run(c, Fresh(config), inputs), last).1)
  {
    InRangeFrom(c, Fresh(config), inputs);
    StepKeepsMtusInRange(c, Run(c, Fresh(config), inputs), last);
  }

  lemma {:induction false} InRangeFrom(c: Settings, e: Engine, inputs: seq<Input>)
    requires MtusInRange(e)
    ensures MtusInRange(Run(c, e, inputs))
    decreases |inputs|
  {
    if inputs != [] {
      StepKeepsMtusInRange(c, e, inputs[0]);
      InRangeFrom(c, Next(c, e, inputs[0]).0, inputs[1..]);
    }
  }

  /** After any run from empty memory, a stall lowers the MTU strictly, and restarts
      the tunnel with the lower one if there is a tunnel; at 1200 it does neither. */
  lemma StallsLowerUntilTheFloor(c: Settings, config: Option<Config>, inputs: seq<Input>)
    ensures var e := Run(c, Fresh(config), inputs);
            var (e', actions) := Handle(c, e, TrafficStalled);
            && e.state.mtu >= 1200
            && (e.state.mtu > 1200 ==> e'.state.mtu < e.state.mtu)
            && (e.state.mtu > 1200 && e.current.Some? ==>
              actions == [StopTunnel, StartTunnel(e.current.value, e'.state.mtu)])
            && (e.state.mtu == 1200 ==> e'.state == e.state && actions == [])
            && (e.state.network.Some? ==> e'.mtus[e.state.network.value] == e'.state.mtu)
  {
    InRangeFrom(c, Fresh(config), inputs);
    M.LowerIsStrict(Run(c, Fresh(config), inputs).state.mtu);
  }

  /** After any run from empty memory, a stable tunnel is left alone; its network
      will be tried one rung up next time, no more. */
  lemma StabilityRemembersOneRungUp(c: Settings, config: Option<Config>, inputs: seq<Input>)
    ensures var e := Run(c, Fresh(config), inputs);
            var (e', actions) := Handle(c, e, StabilityTimerFired);
            && e' == e.(mtus := e'.mtus) && actions == []
            && (e.state.network.Some? ==>
                  var learned := e'.mtus[e.state.network.value];
                  && e.state.mtu <= learned <= 1420
                  && (e.state.mtu < 1420 ==> e.state.mtu < learned)
                  && forall r | r in M.RUNGS && r > e.state.mtu :: learned <= r)
  {
    InRangeFrom(c, Fresh(config), inputs);
    M.HigherIsOneRungUp(Run(c, Fresh(config), inputs).state.mtu);
  }

  ghost predicate SameAt<T>(m: map<Network, T>, m': map<Network, T>, n: Network) {
    (n in m' <==> n in m) && (n in m ==> m'[n] == m[n])
  }

  lemma StepLeavesOtherNetworks(c: Settings, e: Engine, i: Input, n: Network)
    requires e.state.network != Some(n)
    ensures SameAt(e.mtus, Next(c, e, i).0.mtus, n)
    ensures SameAt(e.ladder.memory, Next(c, e, i).0.ladder.memory, n)
  {
    if i.Deliver? {
      match i.event
      case TunnelEstablished => assert Next(c, e, i).0.mtus == e.mtus;
      case StabilityTimerFired => assert Next(c, e, i).0.ladder == e.ladder;
      case TrafficStalled => assert Next(c, e, i).0.ladder == e.ladder;
      case TunnelFailed(reason, draw) =>
        assert Next(c, e, i).0.mtus == e.mtus;
        assert Next(c, e, i).0.ladder.memory == e.ladder.memory;
      case _ =>
        assert Next(c, e, i).0.mtus == e.mtus;
        assert Next(c, e, i).0.ladder.memory == e.ladder.memory;
    }
  }

  /** The phone is on some other network than n, or none, at every input. */
  ghost predicate AwayFrom(c: Settings, e: Engine, inputs: seq<Input>, n: Network)
    decreases |inputs|
  {
    inputs != [] ==> e.state.network != Some(n) && AwayFrom(c, Next(c, e, inputs[0]).0, inputs[1..], n)
  }

  /** Nothing that happens on other networks, however long, changes what one has taught. */
  lemma {:induction false} OtherNetworksAreUntouched(c: Settings, e: Engine, inputs: seq<Input>, n: Network)
    requires AwayFrom(c, e, inputs, n)
    ensures SameAt(e.mtus, Run(c, e, inputs).mtus, n)
    ensures SameAt(e.ladder.memory, Run(c, e, inputs).ladder.memory, n)
    decreases |inputs|
  {
    if inputs != [] {
      StepLeavesOtherNetworks(c, e, inputs[0], n);
      OtherNetworksAreUntouched(c, Next(c, e, inputs[0]).0, inputs[1..], n);
    }
  }

  /** What worked on a network is what the phone starts with when it is back there,
      after any time on other networks, if the server still offers it. */
  lemma WorkingTransportIsTriedFirst(c: Settings, e: Engine, n: Network, away: seq<Input>)
    requires e.state.network == Some(n) && e.current.Some?
    requires var left := Next(c, Handle(c, e, TunnelEstablished).0, Deliver(NetworkLost)).0;
             && AwayFrom(c, left, away, n)
             && var back := Run(c, left, away);
             back.wantsTunnel && back.config.Some? && back.state.network != Some(n)
             && Offers(Ladder(back.config.value), e.current.value.transport)
    ensures var left := Next(c, Handle(c, e, TunnelEstablished).0, Deliver(NetworkLost)).0;
            var (again, actions) := Handle(c, Run(c, left, away), NetworkAvailable(n));
            again.state.status != CONNECTED ==>
              again.state.transport == e.current.value.transport
              && exists k | 0 <= k < |actions| ::
                actions[k].StartTunnel? && actions[k].fallback.transport == e.current.value.transport
  {
    var left := Next(c, Handle(c, e, TunnelEstablished).0, Deliver(NetworkLost)).0;
    OtherNetworksAreUntouched(c, left, away, n);
    var back := Run(c, left, away);
    var t := e.current.value.transport;
    var cfg := back.config.value;
    assert n in left.ladder.memory && left.ladder.memory[n] == t;
    var i :| 0 <= i < |Ladder(cfg)| && Ladder(cfg)[i].transport == t;
    assert L.Preferred(L.OnNetworkChanged(back.ladder), cfg, Some(n)).transport == t;
    var (again, actions) := Handle(c, back, NetworkAvailable(n));
    if again.state.status != CONNECTED {
      assert actions[1].StartTunnel? && actions[1].fallback.transport == t;
    }
  }
}
