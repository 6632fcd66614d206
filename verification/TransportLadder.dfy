/** Which transport to try, and what each network has taught (TransportLadder.kt). */
module TransportLadder {
  import opened Prelude
  import opened TunnelConfig

  const FAILURES_BEFORE_FALLBACK: nat := 2

  datatype State = State(memory: map<Network, Transport>, failures: nat)

  /** The first rung at or after `from` on this transport; |ladder| if there is none. */
  function IndexOf(ladder: seq<Fallback>, t: Transport, from: nat := 0): (i: nat)
    requires from <= |ladder|
    ensures from <= i <= |ladder|
    ensures i < |ladder| ==> ladder[i].transport == t
    ensures forall k | from <= k < i :: ladder[k].transport != t
    decreases |ladder| - from
  {
    if from == |ladder| then from
    else if ladder[from].transport == t then from
    else IndexOf(ladder, t, from + 1)
  }

  function Preferred(s: State, cfg: Config, network: Option<Network>): Fallback {
    var ladder := Ladder(cfg);
    if network.Some? && network.value in s.memory then
      var i := IndexOf(ladder, s.memory[network.value]);
      if i < |ladder| then ladder[i] else ladder[0]
    else ladder[0]
  }

  /** The rung after the first one on this transport, wrapping to the start. */
  function NextRung(ladder: seq<Fallback>, t: Transport): Fallback
    requires |ladder| >= 1
  {
    var i := IndexOf(ladder, t);
    if i >= |ladder| - 1 then ladder[0] else ladder[i + 1]
  }

  function OnFailure(s: State, cfg: Config, current: Fallback): (State, Fallback) {
    if s.failures + 1 < FAILURES_BEFORE_FALLBACK then (s.(failures := s.failures + 1), current)
    else (s.(failures := 0), NextRung(Ladder(cfg), current.transport))
  }

  function OnSuccess(s: State, network: Option<Network>, fallback: Fallback): State {
    State(if network.Some? then s.memory[network.value := fallback.transport] else s.memory, 0)
  }

  function OnNetworkChanged(s: State): State { s.(failures := 0) }

  /** What is tried first: the transport remembered for the network if the server still
      offers it, and otherwise plain UDP. */
  lemma RememberedElseUdp(s: State, cfg: Config, network: Option<Network>)
    ensures var r := Preferred(s, cfg, network);
            && r in Ladder(cfg)
            && r.transport == if network.Some? && network.value in s.memory
                                 && Offers(Ladder(cfg), s.memory[network.value])
                              then s.memory[network.value] else UDP
  {
    if network.Some? && network.value in s.memory && Offers(Ladder(cfg), s.memory[network.value]) {
      var i :| 0 <= i < |Ladder(cfg)| && Ladder(cfg)[i].transport == s.memory[network.value];
      assert IndexOf(Ladder(cfg), s.memory[network.value]) <= i;
    }
  }

  class TransportLadder {
    var memory: map<Network, Transport>
    var consecutiveFailures: nat

    function View(): State
      reads this
    {
      State(memory, consecutiveFailures)
    }

    constructor (memory: map<Network, Transport>)
      ensures View() == State(memory, 0)
    {
      this.memory := memory;
      consecutiveFailures := 0;
    }

    method PreferredRung(cfg: Config, network: Option<Network>) returns (r: Fallback)
      ensures r == Preferred(View(), cfg, network)
      // A remembered transport the server still offers is the one tried first.
      ensures network.Some? && network.value in memory
              && (exists i | 0 <= i < |Ladder(cfg)| :: Ladder(cfg)[i].transport == memory[network.value])
              ==> r.transport == memory[network.value]
    {
      var ladder := Ladder(cfg);
      if network.Some? && network.value in memory {
        for i := 0 to |ladder|
          invariant IndexOf(ladder, memory[network.value]) == IndexOf(ladder, memory[network.value], i)
        {
          if ladder[i].transport == memory[network.value] {
            return ladder[i];
          }
        }
      }
      return ladder[0];
    }

    method Failure(cfg: Config, current: Fallback) returns (next: Fallback)
      modifies this
      ensures (View(), next) == OnFailure(old(View()), cfg, current)
    {
      consecutiveFailures := consecutiveFailures + 1;
      if consecutiveFailures < FAILURES_BEFORE_FALLBACK {
        return current;
      }
      consecutiveFailures := 0;
      var ladder := Ladder(cfg);
      var idx := 0;
      while idx < |ladder| && ladder[idx].transport != current.transport
        invariant idx <= |ladder|
        invariant IndexOf(ladder, current.transport) == IndexOf(ladder, current.transport, idx)
      {
        idx := idx + 1;
      }
      next := if idx >= |ladder| - 1 then ladder[0] else ladder[idx + 1];
    }

    method Success(network: Option<Network>, fallback: Fallback)
      modifies this
      ensures View() == OnSuccess(old(View()), network, fallback)
    {
      consecutiveFailures := 0;
      if network.Some? {
        memory := memory[network.value := fallback.transport];
      }
    }

    method NetworkChanged()
      modifies this
      ensures View() == OnNetworkChanged(old(View()))
    {
      consecutiveFailures := 0;
    }
  }

  // ------------------------------------------------------- walking the ladder

  /** n consecutive failures, each on the rung the one before led to. */
  function Fail(s: State, cfg: Config, current: Fallback, n: nat): (State, Fallback)
    decreases n
  {
    if n == 0 then (s, current)
    else var (s', next) := OnFailure(s, cfg, current); Fail(s', cfg, next, n - 1)
  }

  lemma TwoFailures(s: State, cfg: Config, i: nat, n: nat)
    requires s.failures == 0 && i < |Ladder(cfg)| && n >= 1
    ensures Fail(s, cfg, Ladder(cfg)[i], 2 * n) ==
            Fail(s, cfg, NextRung(Ladder(cfg), Ladder(cfg)[i].transport), 2 * (n - 1))
  {
    var once := s.(failures := 1);
    assert Fail(s, cfg, Ladder(cfg)[i], 2 * n) == Fail(once, cfg, Ladder(cfg)[i], 2 * n - 1);
    assert once.(failures := 0) == s;
  }

  function Onward(i: nat, len: nat): (j: nat)
    requires i < len
    ensures j < len
  {
    if i == len - 1 then 0 else i + 1
  }

  function OnwardBy(i: nat, n: nat, len: nat): (j: nat)
    requires i < len
    ensures j < len
    decreases n
  {
    if n == 0 then i else OnwardBy(Onward(i, len), n - 1, len)
  }

  lemma ProductAtLeast(len: nat, d: int)
    ensures d >= 1 ==> len * d >= len
    ensures d <= -1 ==> len * d <= 0 - len
  {
    if d >= 1 {
      assert len * d == len + len * (d - 1);
    } else if d <= -1 {
      assert len * d == 0 - len + len * (d + 1);
    }
  }

  lemma AddLength(x: nat, len: nat)
    requires len > 0
    ensures (x + len) % len == x % len
  {
    var d := x / len + 1 - (x + len) / len;
    assert len * d == (x + len) % len - x % len by {
      assert x == len * (x / len) + x % len;
      assert x + len == len * ((x + len) / len) + (x + len) % len;
      assert len * d == len * (x / len) + len - len * ((x + len) / len);
    }
    ProductAtLeast(len, d);
  }

  lemma {:induction false} OnwardByIsModular(i: nat, n: nat, len: nat)
    requires i < len
    ensures OnwardBy(i, n, len) == (i + n) % len
    decreases n
  {
    if n > 0 {
      OnwardByIsModular(Onward(i, len), n - 1, len);
      if i == len - 1 {
        AddLength(n - 1, len);
        assert i + n == n - 1 + len;
      } else {
        assert i + 1 + (n - 1) == i + n;
      }
    }
  }

  lemma {:induction false} FailuresMoveOn(s: State, cfg: Config, i: nat, n: nat)
    requires DistinctTransports(Ladder(cfg))
    requires s.failures == 0 && i < |Ladder(cfg)|
    ensures Fail(s, cfg, Ladder(cfg)[i], 2 * n) == (s, Ladder(cfg)[OnwardBy(i, n, |Ladder(cfg)|)])
    decreases n
  {
    var ladder := Ladder(cfg);
    if n > 0 {
      TwoFailures(s, cfg, i, n);
      assert IndexOf(ladder, ladder[i].transport) == i;
      assert NextRung(ladder, ladder[i].transport) == ladder[Onward(i, |ladder|)];
      FailuresMoveOn(s, cfg, Onward(i, |ladder|), n - 1);
    }
  }

  /** With every transport on the ladder once, 2n failures move exactly n rungs on,
      wrapping: no rung is skipped and UDP always comes round again. */
  lemma FailuresWalkTheLadder(s: State, cfg: Config, i: nat, n: nat)
    requires DistinctTransports(Ladder(cfg))
    requires s.failures == 0 && i < |Ladder(cfg)|
    ensures Fail(s, cfg, Ladder(cfg)[i], 2 * n) == (s, Ladder(cfg)[(i + n) % |Ladder(cfg)|])
  {
    FailuresMoveOn(s, cfg, i, n);
    OnwardByIsModular(i, n, |Ladder(cfg)|);
  }

  /** Distinctness is needed. If a transport is listed twice, the rungs after its
      first place up to its first repetition form a trap: once there, however many
      failures follow, UDP is never tried again. */
  lemma {:induction false} RepeatedTransportTrapsTheWalk(s: State, cfg: Config, i: nat, j: nat, k: nat, n: nat)
    requires var l := Ladder(cfg);
             1 <= i < j < |l| && l[i].transport == l[j].transport && DistinctTransports(l[..j])
    requires s.failures == 0 && i < k <= j
    ensures Fail(s, cfg, Ladder(cfg)[k], 2 * n).1.transport != UDP
    decreases n
  {
    var l := Ladder(cfg);
    if n > 0 {
      TwoFailures(s, cfg, k, n);
      var at := IndexOf(l, l[k].transport);
      assert l[..j][i] == l[i];
      if k < j { assert l[..j][k] == l[k]; }
      if at < j { assert l[..j][at] == l[at]; }
      assert at == if k < j then k else i;
      RepeatedTransportTrapsTheWalk(s, cfg, i, j, at + 1, n - 1);
    }
  }

  /** Some number of pairs of failures brings UDP back from this rung. */
  ghost predicate ReturnsToUdp(s: State, cfg: Config, from: Fallback) {
    exists n: nat :: Fail(s, cfg, from, 2 * n).1.transport == UDP
  }

  lemma {:induction false} AllTheWayRound(i: nat, n: nat, len: nat)
    requires i < len && i + n == len
    ensures OnwardBy(i, n, len) == 0
    decreases n
  {
    if n == 1 {
      assert OnwardBy(i, 1, len) == OnwardBy(0, 0, len);
    } else {
      AllTheWayRound(i + 1, n - 1, len);
    }
  }

  lemma DistinctLadderReturns(s: State, cfg: Config, i: nat)
    requires s.failures == 0 && i < |Ladder(cfg)| && DistinctTransports(Ladder(cfg))
    ensures ReturnsToUdp(s, cfg, Ladder(cfg)[i])
  {
    var n := |Ladder(cfg)| - i;
    FailuresMoveOn(s, cfg, i, n);
    AllTheWayRound(i, n, |Ladder(cfg)|);
    assert Fail(s, cfg, Ladder(cfg)[i], 2 * n).1.transport == UDP;
  }

  lemma RepetitiveLadderTraps(s: State, cfg: Config) returns (j: nat)
    requires s.failures == 0 && !DistinctTransports(Ladder(cfg))
    ensures j < |Ladder(cfg)| && !ReturnsToUdp(s, cfg, Ladder(cfg)[j])
  {
    var l := Ladder(cfg);
    assert l[..|l|] == l;
    var i;
    i, j := FirstRepetition(l, |l|);
    forall n: nat ensures Fail(s, cfg, l[j], 2 * n).1.transport != UDP {
      RepeatedTransportTrapsTheWalk(s, cfg, i, j, j, n);
    }
  }

  /** So every rung gets back to UDP if and only if no transport is listed twice. */
  lemma UdpReturnsExactlyWhenDistinct(s: State, cfg: Config)
    requires s.failures == 0
    ensures DistinctTransports(Ladder(cfg)) <==>
            forall i | 0 <= i < |Ladder(cfg)| :: ReturnsToUdp(s, cfg, Ladder(cfg)[i])
  {
    if DistinctTransports(Ladder(cfg)) {
      forall i | 0 <= i < |Ladder(cfg)| ensures ReturnsToUdp(s, cfg, Ladder(cfg)[i]) {
        DistinctLadderReturns(s, cfg, i);
      }
    } else {
      var j := RepetitiveLadderTraps(s, cfg);
    }
  }

  lemma {:induction false} FirstRepetition(l: seq<Fallback>, len: nat) returns (i: nat, j: nat)
    requires len <= |l| && !DistinctTransports(l[..len])
    ensures i < j < len && l[i].transport == l[j].transport && DistinctTransports(l[..j])
    decreases len
  {
    var a, b :| 0 <= a < b < len && l[..len][a].transport == l[..len][b].transport;
    if DistinctTransports(l[..b]) {
      i, j := a, b;
    } else {
      i, j := FirstRepetition(l, b);
    }
  }
}
