/** The ordered chain of packet stages (PacketPipeline.kt). */
module PacketPipeline {

  /** PassThrough is the one stage compared by identity; any other stage is its two
      directions, each turning one packet into any number of packets. */
  datatype Stage<!P> = PassThrough | Custom(out: P -> seq<P>, inn: P -> seq<P>) {
    function Outbound(p: P): seq<P> { if PassThrough? then [p] else out(p) }

    function Inbound(p: P): seq<P> { if PassThrough? then [p] else inn(p) }
  }

  function FlatMap<P>(f: P -> seq<P>, xs: seq<P>): seq<P> {
    if xs == [] then [] else f(xs[0]) + FlatMap(f, xs[1..])
  }

  /** Stages applied first to last. */
  function OutAll<P>(stages: seq<Stage<P>>, xs: seq<P>): seq<P> {
    if stages == [] then xs
    else FlatMap((p: P) => stages[|stages| - 1].Outbound(p), OutAll(stages[..|stages| - 1], xs))
  }

  /** Stages applied last to first, in the other direction. */
  function InAll<P>(stages: seq<Stage<P>>, xs: seq<P>): seq<P> {
    if stages == [] then xs
    else InAll(stages[..|stages| - 1], FlatMap((p: P) => stages[|stages| - 1].Inbound(p), xs))
  }

  class PacketPipeline<P> {
    const stages: seq<Stage<P>>
    const isPassThrough: bool

    ghost predicate Valid() {
      isPassThrough <==> forall i | 0 <= i < |stages| :: stages[i].PassThrough?
    }

    constructor (stages: seq<Stage<P>>)
      ensures Valid() && this.stages == stages
    {
      this.stages := stages;
      isPassThrough := forall i | 0 <= i < |stages| :: stages[i].PassThrough?;
    }

    /** The shortcut and the early exit give what running every stage would. */
    method Outbound(packet: P) returns (r: seq<P>)
      requires Valid()
      ensures r == OutAll(stages, [packet])
    {
      if isPassThrough {
        PassThroughIsIdentity(stages, [packet]);
        return [packet];
      }
      r := [packet];
      for i := 0 to |stages|
        invariant r == OutAll(stages[..i], [packet])
      {
        assert stages[..i + 1][..i] == stages[..i];
        r := FlatMap((p: P) => stages[i].Outbound(p), r);
        if |r| == 0 {
          EmptyStaysEmpty(stages, i + 1, [packet]);
          return [];
        }
      }
      assert stages[..|stages|] == stages;
    }

    method Inbound(packet: P) returns (r: seq<P>)
      requires Valid()
      ensures r == InAll(stages, [packet])
    {
      if isPassThrough {
        PassThroughIsIdentity(stages, [packet]);
        return [packet];
      }
      r := [packet];
      assert stages[..|stages|] == stages;
      for i := |stages| downto 0
        invariant InAll(stages[..i], r) == InAll(stages, [packet])
      {
        assert stages[..i + 1][..i] == stages[..i];
        r := FlatMap((p: P) => stages[i].Inbound(p), r);
        if |r| == 0 {
          NothingIn(stages[..i]);
          return [];
        }
      }
    }
  }

  lemma {:induction false} PassThroughMaps<P>(s: Stage<P>, xs: seq<P>)
    requires s.PassThrough?
    ensures FlatMap((p: P) => s.Outbound(p), xs) == xs && FlatMap((p: P) => s.Inbound(p), xs) == xs
    decreases |xs|
  {
    if xs != [] { PassThroughMaps(s, xs[1..]); }
  }

  lemma {:induction false} PassThroughIsIdentity<P>(stages: seq<Stage<P>>, xs: seq<P>)
    requires forall i | 0 <= i < |stages| :: stages[i].PassThrough?
    ensures OutAll(stages, xs) == xs && InAll(stages, xs) == xs
    decreases |stages|
  {
    if stages != [] {
      PassThroughIsIdentity(stages[..|stages| - 1], xs);
      PassThroughMaps(stages[|stages| - 1], xs);
    }
  }

  lemma {:induction false} EmptyStaysEmpty<P>(stages: seq<Stage<P>>, i: nat, xs: seq<P>)
    requires i <= |stages| && OutAll(stages[..i], xs) == []
    ensures OutAll(stages, xs) == []
    decreases |stages| - i
  {
    if i < |stages| {
      assert stages[..i + 1][..i] == stages[..i];
      EmptyStaysEmpty(stages, i + 1, xs);
    } else {
      assert stages[..i] == stages;
    }
  }

  lemma {:induction false} NothingIn<P>(stages: seq<Stage<P>>)
    ensures InAll(stages, []) == []
    decreases |stages|
  {
    if stages != [] { NothingIn(stages[..|stages| - 1]); }
  }

  // ---------------------------------------------------------------- order

  lemma FlatMapOfOne<P>(f: P -> seq<P>, p: P)
    ensures FlatMap(f, [p]) == f(p)
  {
    assert [p][1..] == [];
    assert FlatMap(f, [p]) == f(p) + FlatMap(f, []);
  }

  /** A chain of one stage sends what the stage makes of a packet, in either direction. */
  lemma OneStage<P>(s: Stage<P>, packet: P)
    ensures OutAll([s], [packet]) == s.Outbound(packet) && InAll([s], [packet]) == s.Inbound(packet)
  {
    assert [s][..0] == [];
    FlatMapOfOne((p: P) => s.Outbound(p), packet);
    FlatMapOfOne((p: P) => s.Inbound(p), packet);
  }

  /** Stages act in order on the way out and in the opposite order on the way in: what
      the front of a chain sends is what its back is given, and the other way round. */
  lemma {:induction false} StagesActInOrder<P>(front: seq<Stage<P>>, back: seq<Stage<P>>, xs: seq<P>)
    ensures OutAll(front + back, xs) == OutAll(back, OutAll(front, xs))
    ensures InAll(front + back, xs) == InAll(front, InAll(back, xs))
    decreases |back|
  {
    if back == [] {
      assert front + back == front;
    } else {
      var last := back[|back| - 1];
      assert (front + back)[..|front + back| - 1] == front + back[..|back| - 1];
      StagesActInOrder(front, back[..|back| - 1], xs);
      StagesActInOrder(front, back[..|back| - 1], FlatMap((p: P) => last.Inbound(p), xs));
    }
  }

  /** So of two stages the second gets each packet the first sends, and the first gets
      back each one the second receives. */
  lemma TwoStages<P>(a: Stage<P>, b: Stage<P>, packet: P)
    ensures OutAll([a, b], [packet]) == FlatMap((p: P) => b.Outbound(p), a.Outbound(packet))
    ensures InAll([a, b], [packet]) == FlatMap((p: P) => a.Inbound(p), b.Inbound(packet))
  {
    assert [a] + [b] == [a, b];
    StagesActInOrder([a], [b], [packet]);
    OneStage(a, packet);
    OneStage(b, packet);
    assert [b][..0] == [] && [a][..0] == [];
  }

  // ------------------------------------------------------------- symmetry

  /** The other end undoes this stage: whatever a packet became, that packet comes back. */
  ghost predicate Undone<P(!new)>(s: Stage<P>) {
    forall p: P :: FlatMap((q: P) => s.Inbound(q), s.Outbound(p)) == [p]
  }

  lemma {:induction false} FlatMapAppends<P>(f: P -> seq<P>, xs: seq<P>, ys: seq<P>)
    ensures FlatMap(f, xs + ys) == FlatMap(f, xs) + FlatMap(f, ys)
    decreases |xs|
  {
    if xs == [] {
      assert xs + ys == ys;
    } else {
      assert (xs + ys)[1..] == xs[1..] + ys;
      FlatMapAppends(f, xs[1..], ys);
    }
  }

  lemma {:induction false} StageUndoesItself<P(!new)>(s: Stage<P>, xs: seq<P>)
    requires Undone(s)
    ensures FlatMap((q: P) => s.Inbound(q), FlatMap((p: P) => s.Outbound(p), xs)) == xs
    decreases |xs|
  {
    var out, back := (p: P) => s.Outbound(p), (q: P) => s.Inbound(q);
    if xs != [] {
      FlatMapAppends(back, out(xs[0]), FlatMap(out, xs[1..]));
      StageUndoesItself(s, xs[1..]);
      assert FlatMap(back, out(xs[0])) == [xs[0]];
    }
  }

  lemma {:induction false} ChainUndoesItself<P(!new)>(stages: seq<Stage<P>>, xs: seq<P>)
    requires forall i | 0 <= i < |stages| :: Undone(stages[i])
    ensures InAll(stages, OutAll(stages, xs)) == xs
    decreases |stages|
  {
    if stages != [] {
      var init, last := stages[..|stages| - 1], stages[|stages| - 1];
      StageUndoesItself(last, OutAll(init, xs));
      ChainUndoesItself(init, xs);
    }
  }

  lemma {:induction false} InAllAppends<P>(stages: seq<Stage<P>>, xs: seq<P>, ys: seq<P>)
    ensures InAll(stages, xs + ys) == InAll(stages, xs) + InAll(stages, ys)
    decreases |stages|
  {
    if stages != [] {
      var back := (p: P) => stages[|stages| - 1].Inbound(p);
      FlatMapAppends(back, xs, ys);
      InAllAppends(stages[..|stages| - 1], FlatMap(back, xs), FlatMap(back, ys));
    }
  }

  lemma {:induction false} InboundOneByOne<P>(stages: seq<Stage<P>>, xs: seq<P>)
    ensures FlatMap((q: P) => InAll(stages, [q]), xs) == InAll(stages, xs)
    decreases |xs|
  {
    if xs == [] {
      NothingIn(stages);
    } else {
      InboundOneByOne(stages, xs[1..]);
      InAllAppends(stages, [xs[0]], xs[1..]);
      assert [xs[0]] + xs[1..] == xs;
    }
  }

  /** A chain of any length is undone if each of its stages is: feeding each outbound
      packet to inbound returns exactly the packet sent. */
  lemma InboundUndoesOutbound<P(!new)>(stages: seq<Stage<P>>, packet: P)
    requires forall i | 0 <= i < |stages| :: Undone(stages[i])
    ensures FlatMap((q: P) => InAll(stages, [q]), OutAll(stages, [packet])) == [packet]
  {
    InboundOneByOne(stages, OutAll(stages, [packet]));
    ChainUndoesItself(stages, [packet]);
  }
}
