/** Queue classes and the marking stage (TrafficClassifier.kt, AppPolicy.kt TrafficClass). */
module TrafficClassifier {
  import opened Prelude
  import opened PacketInspector
  import opened PacketPipeline

  datatype TrafficClass = REALTIME | INTERACTIVE | BULK | BACKGROUND {
    function Dscp(): (d: int)
      ensures 0 <= d < 64
    {
      match this
      case REALTIME => 46
      case INTERACTIVE => 34
      case BULK => 0
      case BACKGROUND => 8
    }
  }

  datatype FlowKey = FlowKey(protocol: int, port: int)

  type Resolver = FlowKey -> Option<TrafficClass>

  function ClassifyUdp(port: int, payload: int): TrafficClass {
    if port == 53 || port == 853 then INTERACTIVE
    else if port == 443 && payload > 900 then BULK
    else if 40 <= payload <= 400 then REALTIME
    else if payload > 900 then BULK
    else INTERACTIVE
  }

  function ClassifyTcp(payload: int): TrafficClass {
    if payload >= 1100 then BULK else INTERACTIVE
  }

  function Classify(resolve: Resolver, p: seq<Byte>): TrafficClass {
    var protocol := Protocol(p);
    if protocol != PROTO_TCP && protocol != PROTO_UDP then INTERACTIVE
    else
      var known := resolve(FlowKey(protocol, Port(p, 2)));
      if known.Some? then known.value
      else if protocol == PROTO_UDP then ClassifyUdp(Port(p, 2), PayloadLength(p))
      else ClassifyTcp(PayloadLength(p))
  }

  function Mark(resolve: Resolver, p: seq<Byte>): seq<Byte> {
    SetDscp(p, Classify(resolve, p).Dscp()).0
  }

  function MarkingStage(resolve: Resolver): Stage<seq<Byte>> {
    Custom(p => [Mark(resolve, p)], p => [p])
  }

  /** Marking does not disturb what classification reads. */
  lemma MarkingKeepsClass(resolve: Resolver, p: seq<Byte>, dscp: int)
    ensures Classify(resolve, SetDscp(p, dscp).0) == Classify(resolve, p)
  {
    var q := SetDscp(p, dscp).0;
    assert Version(q) == Version(p) && HeaderLength(q) == HeaderLength(p) && Protocol(q) == Protocol(p);
    if HeaderLength(p) >= 0 {
      assert HeaderLength(p) >= 20;
      assert Port(q, 2) == Port(p, 2);
      assert PayloadLength(q) == PayloadLength(p);
    }
  }

  lemma Nibbles(hi: int, lo: int)
    requires 0 <= lo < 16
    ensures (hi * 16 + lo) / 16 == hi && (hi * 16 + lo) % 16 == lo
  {
  }

  lemma LowBits(d: int, ecn: int)
    requires 0 <= d < 64 && 0 <= ecn < 4
    ensures (d * 4 + ecn) % 16 % 4 == ecn && 0 <= (d * 4 + ecn) / 16 < 16
  {
  }

  lemma TrafficClassFields(b0: Byte, b1: Byte, d: int)
    requires 0 <= d < 64
    ensures var tc := d * 4 + b1 / 16 % 4;
            var n0, n1 := b0 / 16 * 16 + tc / 16, tc % 16 * 16 + b1 % 16;
            n0 / 16 == b0 / 16 && n1 / 16 % 4 == b1 / 16 % 4 && n1 % 16 == b1 % 16
  {
    var tc := d * 4 + b1 / 16 % 4;
    LowBits(d, b1 / 16 % 4);
    Nibbles(b0 / 16, tc / 16);
    Nibbles(tc % 16, b1 % 16);
  }

  lemma WritingV6Twice(p: seq<Byte>, dscp: int)
    requires Version(p) == 6 && |p| >= 2
    ensures SetDscp(SetDscp(p, dscp).0, dscp).0 == SetDscp(p, dscp).0
  {
    TrafficClassFields(p[0], p[1], dscp % 64);
    var q := SetDscp(p, dscp).0;
    var again := SetDscp(q, dscp).0;
    assert Version(q) == 6;
    assert again[0] == q[0] && again[1] == q[1];
    assert forall i | 2 <= i < |p| :: again[i] == q[i];
  }

  /** A value once written is found there: writing it again changes no byte. */
  lemma WritingTwiceIsWritingOnce(p: seq<Byte>, dscp: int)
    ensures SetDscp(SetDscp(p, dscp).0, dscp).0 == SetDscp(p, dscp).0
  {
    if Version(p) == 6 && |p| >= 2 {
      WritingV6Twice(p, dscp);
    } else if Version(p) == 4 && |p| >= 12 {
      var q := SetDscp(p, dscp).0;
      assert q[0] == p[0] && q[1] == dscp % 64 * 4 + p[1] % 4;
      assert q[1] % 4 == p[1] % 4;
    }
  }

  /** Marking twice is marking once. */
  lemma MarkingIsIdempotent(resolve: Resolver, p: seq<Byte>)
    ensures Mark(resolve, Mark(resolve, p)) == Mark(resolve, p)
  {
    var dscp := Classify(resolve, p).Dscp();
    var q := Mark(resolve, p);
    MarkedClass(resolve, p, dscp);
    WritingTwiceIsWritingOnce(p, dscp);
  }

  lemma MarkedClass(resolve: Resolver, p: seq<Byte>, dscp: int)
    ensures Classify(resolve, SetDscp(p, dscp).0).Dscp() == Classify(resolve, p).Dscp()
  {
    MarkingKeepsClass(resolve, p, dscp);
  }

  // ------------------------------------------ what the far end gets to see

  /** A packet whose marking setDscp can write: enough of an IPv4 or IPv6 header. */
  predicate Markable(p: seq<Byte>) {
    (Version(p) == 4 && |p| >= 12) || (Version(p) == 6 && |p| >= 2)
  }

  lemma TrafficClassSplits(b0: Byte, b1: Byte, d: int)
    requires 0 <= d < 64
    ensures var tc := d * 4 + b1 / 16 % 4;
            (b0 / 16 * 16 + tc / 16 == b0 && tc % 16 * 16 + b1 % 16 == b1) <==> (b0 % 16 * 16 + b1 / 16) / 4 == d
  {
    var tc := d * 4 + b1 / 16 % 4;
    var now := b0 % 16 * 16 + b1 / 16;
    assert now % 4 == b1 / 16 % 4;
    assert now / 4 == d <==> now == tc;
  }

  /** Writing a mark leaves a packet as it was exactly when there is no header to
      write it in, or the packet bore that mark. */
  lemma WritingIsVisible(p: seq<Byte>, dscp: int)
    ensures SetDscp(p, dscp).0 == p <==> !Markable(p) || Dscp(p) == dscp % 64
  {
    var q := SetDscp(p, dscp).0;
    if Version(p) == 4 && |p| >= 12 {
      assert q[1] == dscp % 64 * 4 + p[1] % 4;
      assert q[1] == p[1] <==> p[1] / 4 == dscp % 64;
    } else if Version(p) == 6 && |p| >= 2 {
      TrafficClassSplits(p[0], p[1], dscp % 64);
      assert forall i | 2 <= i < |p| :: q[i] == p[i];
    }
  }

  lemma TheFarEndGetsTheMarkedPacket(resolve: Resolver, p: seq<Byte>)
    ensures var s := MarkingStage(resolve);
            FlatMap((q: seq<Byte>) => s.Inbound(q), s.Outbound(p)) == [Mark(resolve, p)]
  {
    var s := MarkingStage(resolve);
    var back := (q: seq<Byte>) => s.Inbound(q);
    assert s.Outbound(p) == [Mark(resolve, p)];
    assert FlatMap(back, [Mark(resolve, p)]) == back(Mark(resolve, p)) + FlatMap(back, []);
    assert back(Mark(resolve, p)) == [Mark(resolve, p)];
  }

  /** The far end gets the packet sent exactly when the packet cannot be marked or
      bore its class's mark already: anything else the marking stage changes for good. */
  lemma MarkingIsNotUndone(resolve: Resolver, p: seq<Byte>)
    ensures var s := MarkingStage(resolve);
            FlatMap((q: seq<Byte>) => s.Inbound(q), s.Outbound(p)) == [p] <==>
              !Markable(p) || Dscp(p) == Classify(resolve, p).Dscp()
  {
    TheFarEndGetsTheMarkedPacket(resolve, p);
    var sent: seq<seq<Byte>>, got: seq<seq<Byte>> := [p], [Mark(resolve, p)];
    assert got == sent <==> got[0] == sent[0];
    WritingIsVisible(p, Classify(resolve, p).Dscp());
  }

  /** So it is never a symmetric stage, whatever is known about the apps: no class is
      marked 1, and a packet that comes in with that mark goes out with another. */
  lemma TheMarkingStageIsNotSymmetric(resolve: Resolver) returns (p: seq<Byte>)
    ensures Markable(p) && Dscp(p) != Classify(resolve, p).Dscp()
    ensures !Undone(MarkingStage(resolve))
  {
    p := [69, 4, 0, 0, 0, 0, 0, 0, 0, 0, 0, 0];
    assert Version(p) == 4 && Dscp(p) == 1;
    MarkingIsNotUndone(resolve, p);
    var s := MarkingStage(resolve);
    assert FlatMap((q: seq<Byte>) => s.Inbound(q), s.Outbound(p)) != [p];
  }

  lemma WrittenIsRead(p: seq<Byte>, dscp: int)
    requires Markable(p)
    ensures Dscp(SetDscp(p, dscp).0) == dscp % 64
  {
    if Version(p) == 6 {
      MarkingAnIpv6Header(p, dscp);
    } else {
      assert (dscp % 64 * 4 + p[1] % 4) / 4 == dscp % 64;
    }
  }

  /** What an app known to be of some class gets, and what the shape of the rest gets: the
      mark each packet that can bear one leaves with, exactly. */
  lemma EachMarkLeavesExactlyWhen(resolve: Resolver, p: seq<Byte>)
    requires Markable(p)
    ensures var (udp, tcp) := (Protocol(p) == 17, Protocol(p) == 6);
            var (port, size) := (Port(p, 2), PayloadLength(p));
            var known := if udp || tcp then resolve(FlowKey(Protocol(p), port)) else None;
            var dns := port == 53 || port == 853;
            var mark := Dscp(Mark(resolve, p));
            && (mark == 46 <==> known == Some(REALTIME) || (known == None && udp && !dns && 40 <= size <= 400))
            && (mark == 0 <==> known == Some(BULK)
                               || (known == None && ((udp && !dns && size > 900) || (tcp && size >= 1100))))
            && (mark == 8 <==> known == Some(BACKGROUND))
            && (mark == 34 <==> known == Some(INTERACTIVE)
                                || (known == None && ((udp && (dns || size < 40 || 400 < size <= 900))
                                                      || (tcp && size < 1100) || (!udp && !tcp))))
  {
    WrittenIsRead(p, Classify(resolve, p).Dscp());
  }

  /** Nothing large is put ahead of calls on its shape: unless an app is known to be
      a call, a packet leaves with the calls' mark only if it is a UDP datagram of
      40 to 400 bytes, off the DNS ports, of no known app. */
  lemma OnlyCallShapesGetTheCallMark(resolve: Resolver, p: seq<Byte>)
    requires forall k :: resolve(k) != Some(REALTIME)
    requires Markable(p)
    ensures Dscp(Mark(resolve, p)) == REALTIME.Dscp() <==>
              && Protocol(p) == PROTO_UDP && 40 <= PayloadLength(p) <= 400 && Port(p, 2) != 53 && Port(p, 2) != 853
              && resolve(FlowKey(PROTO_UDP, Port(p, 2))) == None
  {
    WrittenIsRead(p, Classify(resolve, p).Dscp());
  }
}
