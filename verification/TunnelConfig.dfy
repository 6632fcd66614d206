/** The client's tunnel configuration and the ways to reach its server
    (android core TunnelConfig.kt, ConnectionState.kt; server provision.go fallbacksFor). */
module TunnelConfig {
  import opened Prelude

  datatype Transport = UDP | TCP | WS_TLS

  datatype Endpoint = Endpoint(host: string, port: int)

  datatype Fallback = Fallback(transport: Transport, endpoint: Endpoint, note: string)

  /** The fields the reliability engine reads. */
  datatype Config = Config(endpoint: Endpoint, mtu: int, fallbacks: seq<Fallback>, serverCode: string)

  datatype NetworkKind = WIFI | CELLULAR | ETHERNET | OTHER

  datatype Network = Network(kind: NetworkKind, id: string) {
    predicate IsHandoffFrom(previous: Option<Network>) {
      previous.Some? && previous.value != this
    }
  }

  function NotUdp(fs: seq<Fallback>): (r: seq<Fallback>)
    ensures forall i | 0 <= i < |r| :: r[i].transport != UDP
  {
    if fs == [] then []
    else (if fs[0].transport != UDP then [fs[0]] else []) + NotUdp(fs[1..])
  }

  /** transportLadder: plain UDP first, then the server's other transports in order. */
  function Ladder(cfg: Config): (r: seq<Fallback>)
    ensures |r| >= 1 && r[0].transport == UDP
    ensures forall i | 1 <= i < |r| :: r[i].transport != UDP
  {
    [Fallback(UDP, cfg.endpoint, "primary")] + NotUdp(cfg.fallbacks)
  }

  predicate DistinctTransports(fs: seq<Fallback>) {
    forall i, j | 0 <= i < j < |fs| :: fs[i].transport != fs[j].transport
  }

  predicate Offers(fs: seq<Fallback>, t: Transport) {
    exists i | 0 <= i < |fs| :: fs[i].transport == t
  }

  /** The obfuscation record's two optional entries, as fallbacksFor reads them. */
  datatype Obfuscation = Obfuscation(tcpPort: Option<int>, wsHost: string)

  function TcpRung(host: string, o: Obfuscation): seq<Fallback> {
    if o.tcpPort.Some? then [Fallback(TCP, Endpoint(host, o.tcpPort.value), "udp blocked or throttled")] else []
  }

  function WsRung(o: Obfuscation): seq<Fallback> {
    if o.wsHost != "" then [Fallback(WS_TLS, Endpoint(o.wsHost, 443), "deep packet inspection")] else []
  }

  function FallbacksFor(host: string, port: int, o: Obfuscation): seq<Fallback> {
    [Fallback(UDP, Endpoint(host, port), "primary")] + TcpRung(host, o) + WsRung(o)
  }

  lemma {:induction false} NotUdpSplits(a: seq<Fallback>, b: seq<Fallback>)
    ensures NotUdp(a + b) == NotUdp(a) + NotUdp(b)
    decreases |a|
  {
    if a == [] {
      assert a + b == b;
    } else {
      assert (a + b)[1..] == a[1..] + b;
      NotUdpSplits(a[1..], b);
    }
  }

  /** Whatever a server's record holds, the ladder a client builds from what the control
      plane sends is UDP at the config's endpoint, then TCP on the server's other port and
      WS-TLS on the record's host, each exactly if the record has it. */
  lemma ServedLadder(host: string, port: int, o: Obfuscation, cfg: Config)
    requires cfg.fallbacks == FallbacksFor(host, port, o)
    ensures Ladder(cfg) == [Fallback(UDP, cfg.endpoint, "primary")] + TcpRung(host, o) + WsRung(o)
  {
    var first := [Fallback(UDP, Endpoint(host, port), "primary")];
    NotUdpSplits(first + TcpRung(host, o), WsRung(o));
    NotUdpSplits(first, TcpRung(host, o));
    assert NotUdp(first) == [];
    assert NotUdp(TcpRung(host, o)) == TcpRung(host, o);
    assert NotUdp(WsRung(o)) == WsRung(o);
  }

  /** So each transport is on it at most once: UDP, and TCP and WS-TLS exactly when the
      record offers them. */
  lemma ServedLaddersAreDistinct(host: string, port: int, o: Obfuscation, cfg: Config)
    requires cfg.fallbacks == FallbacksFor(host, port, o)
    ensures DistinctTransports(Ladder(cfg))
    ensures Offers(Ladder(cfg), UDP)
    ensures Offers(Ladder(cfg), TCP) <==> o.tcpPort.Some?
    ensures Offers(Ladder(cfg), WS_TLS) <==> o.wsHost != ""
  {
    ServedLadder(host, port, o, cfg);
    LadderOf([Fallback(UDP, cfg.endpoint, "primary")], TcpRung(host, o), WsRung(o));
  }

  lemma LadderOf(u: seq<Fallback>, tcp: seq<Fallback>, ws: seq<Fallback>)
    requires |u| == 1 && u[0].transport == UDP
    requires |tcp| <= 1 && (|tcp| == 1 ==> tcp[0].transport == TCP)
    requires |ws| <= 1 && (|ws| == 1 ==> ws[0].transport == WS_TLS)
    ensures var l := u + tcp + ws;
            && DistinctTransports(l) && Offers(l, UDP)
            && (Offers(l, TCP) <==> |tcp| == 1) && (Offers(l, WS_TLS) <==> |ws| == 1)
  {
    var l := u + tcp + ws;
    assert l[0] == u[0];
    if |tcp| == 1 { assert l[1] == tcp[0]; }
    if |ws| == 1 { assert l[|l| - 1] == ws[0]; }
  }
}
