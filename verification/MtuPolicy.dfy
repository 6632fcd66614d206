/** The tunnel MTU chosen per network, and what stability and stalls teach (MtuPolicy.kt). */
module MtuPolicy {
  import opened Prelude
  import opened TunnelConfig

  const RUNGS: seq<int> := [1420, 1380, 1340, 1280, 1240, 1200]
  const SAFE_MTU: int := 1280
  const MIN_MTU: int := 1200
  const STABLE_AFTER_MILLIS: int := 90_000

  type Memory = map<Network, int>

  /** Index of the first rung not above `current`; -1 if every rung is above it. */
  function RungAtOrBelow(current: int, from: nat := 0): (i: int)
    requires from <= 6
    ensures i == -1 || (from <= i < 6 && RUNGS[i] <= current)
    ensures i >= 0 ==> forall k | from <= k < i :: RUNGS[k] > current
    ensures i == -1 ==> forall k | from <= k < 6 :: RUNGS[k] > current
    decreases 6 - from
  {
    if from == 6 then -1
    else if RUNGS[from] <= current then from
    else RungAtOrBelow(current, from + 1)
  }

  function MtuFor(m: Memory, network: Option<Network>, configured: int): int {
    if network.Some? && network.value in m then m[network.value]
    else Max(MIN_MTU, Min(configured, RUNGS[0]))
  }

  function Higher(current: int): int {
    var i := RungAtOrBelow(current);
    if i <= 0 then RUNGS[0] else RUNGS[i - 1]
  }

  function Lower(current: int): int {
    var i := RungAtOrBelow(current);
    if i < 0 then SAFE_MTU else if i == 5 then RUNGS[5] else RUNGS[i + 1]
  }

  function Learn(m: Memory, network: Option<Network>, mtu: int): Memory {
    if network.Some? then m[network.value := mtu] else m
  }

  function OnStable(m: Memory, network: Option<Network>, current: int): (Memory, int) {
    if network.None? then (m, current) else (Learn(m, network, Higher(current)), Higher(current))
  }

  function OnStall(m: Memory, network: Option<Network>, current: int): (Memory, int) {
    (Learn(m, network, Lower(current)), Lower(current))
  }

  predicate InRange(mtu: int) { MIN_MTU <= mtu <= RUNGS[0] }

  ghost predicate Sane(m: Memory) { forall n | n in m :: InRange(m[n]) }

  /** The next rung up is the least rung above the current value, if there is one. */
  lemma HigherIsOneRungUp(current: int)
    requires InRange(current)
    ensures InRange(Higher(current)) && Higher(current) in RUNGS
    ensures current <= Higher(current)
    ensures forall r | r in RUNGS && r > current :: Higher(current) <= r
    ensures current < RUNGS[0] ==> current < Higher(current)
  {
    var i := RungAtOrBelow(current);
    assert RUNGS == [1420, 1380, 1340, 1280, 1240, 1200];
  }

  /** A stall always lowers the value, to a rung, until 1200 is reached. */
  lemma LowerIsStrict(current: int)
    requires InRange(current)
    ensures InRange(Lower(current)) && Lower(current) in RUNGS
    ensures current > MIN_MTU ==> Lower(current) < current
    ensures current == MIN_MTU ==> Lower(current) == MIN_MTU
  {
    var i := RungAtOrBelow(current);
    assert RUNGS == [1420, 1380, 1340, 1280, 1240, 1200];
  }

  class MtuPolicy {
    var memory: Memory

    constructor (memory: Memory)
      ensures this.memory == memory
    {
      this.memory := memory;
    }

    method For(network: Option<Network>, configured: int) returns (mtu: int)
      ensures mtu == MtuFor(memory, network, configured)
      ensures Sane(memory) ==> InRange(mtu)
    {
      if network.Some? && network.value in memory {
        return memory[network.value];
      }
      mtu := configured;
      if mtu < MIN_MTU { mtu := MIN_MTU; }
      if mtu > RUNGS[0] { mtu := RUNGS[0]; }
    }

    static method FindRung(current: int) returns (i: int)
      ensures i == RungAtOrBelow(current)
    {
      i := 0;
      while i < 6
        invariant 0 <= i <= 6
        invariant RungAtOrBelow(current) == RungAtOrBelow(current, i)
      {
        if RUNGS[i] <= current { return; }
        i := i + 1;
      }
      i := -1;
    }

    method Stable(network: Option<Network>, current: int) returns (next: int)
      modifies this
      ensures (memory, next) == OnStable(old(memory), network, current)
      ensures forall n | n in old(memory) && network != Some(n) :: n in memory && memory[n] == old(memory)[n]
    {
      if network.None? {
        return current;
      }
      var idx := FindRung(current);
      next := if idx <= 0 then RUNGS[0] else RUNGS[idx - 1];
      memory := memory[network.value := next];
    }

    method Stall(network: Option<Network>, current: int) returns (next: int)
      modifies this
      ensures (memory, next) == OnStall(old(memory), network, current)
      ensures forall n | n in old(memory) && network != Some(n) :: n in memory && memory[n] == old(memory)[n]
    {
      var idx := FindRung(current);
      if idx < 0 {
        next := SAFE_MTU;
      } else if idx == 5 {
        next := RUNGS[5];
      } else {
        next := RUNGS[idx + 1];
      }
      if network.Some? {
        memory := memory[network.value := next];
      }
    }
  }
}
