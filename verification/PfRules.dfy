/** The pf anchor rules on macOS (src/firewall/pf.rs) and what they do to a packet: translation by first match,
    filtering by last match with `quick` ending the search. */
module PfRules {
  import opened Bytes
  import opened Net
  import opened Firewall
  import opened Nftables

  const LOOPBACK: string := "lo0"

  datatype PfPacket = PfPacket(on: string, out: bool, proto: Proto, daddr: Ip, dport: u16)

  datatype Translation = NoRdr | Rdr(target: Target)
  datatype Action = Block | Pass | RouteTo(gateway: Ip)

  /** A missing condition is met by every packet. `v4` is the address family. */
  datatype Selector = Selector(on: string, v4: Option<bool>, proto: Proto, daddr: Option<Ip>, ports: Option<seq<u16>>)

  datatype PfRule =
    | Translate(sel: Selector, translation: Translation)
    | Filter(sel: Selector, outOnly: bool, quick: bool, action: Action)

  predicate Selects(s: Selector, p: PfPacket) {
    && s.on == p.on && s.proto == p.proto
    && (s.v4.Some? ==> s.v4.value == p.daddr.V4?)
    && (s.daddr.Some? ==> s.daddr.value == p.daddr)
    && (s.ports.Some? ==> p.dport in s.ports.value)
  }

  function Translated(rules: seq<PfRule>, p: PfPacket): Option<Translation> {
    if rules == [] then None
    else if rules[0].Translate? && Selects(rules[0].sel, p) then Some(rules[0].translation)
    else Translated(rules[1..], p)
  }

  /** The action so far is `last`; a quick match ends the search. */
  function Filtered(rules: seq<PfRule>, p: PfPacket, last: Option<Action>): Option<Action> {
    if rules == [] then last
    else
      var r := rules[0];
      if r.Filter? && Selects(r.sel, p) && (r.outOnly ==> p.out) then
        if r.quick then Some(r.action) else Filtered(rules[1..], p, Some(r.action))
      else Filtered(rules[1..], p, last)
  }

  // ---------------------------------------------------------------- the rules

  function Loopback(v4: bool): Ip {
    if v4 then V4([127, 0, 0, 1]) else V6([0, 0, 0, 0, 0, 0, 0, 0, 0, 0, 0, 0, 0, 0, 0, 1])
  }

  function DnsRdr(on: string, v4: bool, target: Option<Target>): seq<PfRule> {
    if target.None? then []
    else [Translate(Selector(on, Some(v4), Udp, None, Some([DNS_PORT])), Rdr(target.value)),
          Translate(Selector(on, Some(v4), Tcp, None, Some([DNS_PORT])), Rdr(target.value))]
  }

  function GatewayNoRdr(on: string, v4: bool, address: Option<Ip>, ports: Option<seq<u16>>): seq<PfRule> {
    if address.None? then [] else [Translate(Selector(on, Some(v4), Tcp, address, ports), NoRdr)]
  }

  /** Keeps the upstream connection and the listener out of the loopback redirects. */
  function UpstreamNoRdr(upstream: SocketAddr, port: u16): seq<PfRule> {
    [Translate(Selector(LOOPBACK, Some(upstream.ip.V4?), Tcp, Some(upstream.ip), Some([upstream.port])), NoRdr),
     Translate(Selector(LOOPBACK, Some(true), Tcp, None, Some([port])), NoRdr),
     Translate(Selector(LOOPBACK, Some(false), Tcp, None, Some([port])), NoRdr)]
  }

  function ProxyRdr(on: string, v4: bool, c: Config): PfRule {
    Translate(Selector(on, Some(v4), Tcp, None, c.ports), Rdr(Target(Loopback(v4), c.proxyPort)))
  }

  function QuicBlock(c: Config): seq<PfRule> {
    if QuicPorts(c) == [] then []
    else [Filter(Selector(c.interface, None, Udp, None, Some(QuicPorts(c))), false, true, Block)]
  }

  function UpstreamPass(c: Config, upstream: SocketAddr): seq<PfRule> {
    [Filter(Selector(c.interface, None, Tcp, Some(upstream.ip), Some([upstream.port])), true, true, Pass),
     Filter(Selector(c.interface, Some(true), Tcp, None, c.ports), true, false, RouteTo(Loopback(true))),
     Filter(Selector(c.interface, Some(false), Tcp, None, c.ports), true, false, RouteTo(Loopback(false)))]
  }

  function Exemptions(c: Config, v4: Option<Ip>, v6: Option<Ip>): seq<PfRule> {
    DnsRdr(c.interface, true, DnsTargetV4(c, v4)) + DnsRdr(c.interface, false, DnsTargetV6(c, v6))
    + GatewayNoRdr(c.interface, true, v4, c.ports) + GatewayNoRdr(c.interface, false, v6, c.ports)
  }

  function Translations(c: Config, v4: Option<Ip>, v6: Option<Ip>): seq<PfRule> {
    match c.upstream
    case Some(upstream) =>
      UpstreamNoRdr(upstream, c.proxyPort) + Exemptions(c, v4, v6)
      + [ProxyRdr(c.interface, true, c), ProxyRdr(LOOPBACK, true, c), ProxyRdr(c.interface, false, c),
          ProxyRdr(LOOPBACK, false, c)]
    case None => Exemptions(c, v4, v6) + [ProxyRdr(c.interface, true, c), ProxyRdr(c.interface, false, c)]
  }

  function Filters(c: Config): seq<PfRule> {
    QuicBlock(c) + if c.upstream.Some? then UpstreamPass(c, c.upstream.value) else []
  }

  function Rules(c: Config, v4: Option<Ip>, v6: Option<Ip>): seq<PfRule> {
    Translations(c, v4, v6) + Filters(c)
  }

  method BuildRules(c: Config, v4: Option<Ip>, v6: Option<Ip>) returns (rules: seq<PfRule>)
    ensures rules == Rules(c, v4, v6)
  {
    var iface := c.interface;
    var dnsRdr: seq<PfRule> := [];
    if c.dnsListen.Some? {
      var target4 := DnsTargetV4(c, v4);
      if target4.Some? {
        dnsRdr := dnsRdr + DnsRdr(iface, true, target4);
      }
      var target6 := DnsTargetV6(c, v6);
      if target6.Some? {
        dnsRdr := dnsRdr + DnsRdr(iface, false, target6);
      }
    }
    var localNoRdr: seq<PfRule> := [];
    if v4.Some? {
      localNoRdr := localNoRdr + [Translate(Selector(iface, Some(true), Tcp, v4, c.ports), NoRdr)];
    }
    if v6.Some? {
      localNoRdr := localNoRdr + [Translate(Selector(iface, Some(false), Tcp, v6, c.ports), NoRdr)];
    }
    assert dnsRdr + localNoRdr == Exemptions(c, v4, v6);
    rules := AssembleRules(c, v4, v6, dnsRdr + localNoRdr);
  }

  /** The rules in their final order. */
  method AssembleRules(c: Config, v4: Option<Ip>, v6: Option<Ip>, exemptions: seq<PfRule>) returns (rules: seq<PfRule>)
    requires exemptions == Exemptions(c, v4, v6)
    ensures rules == Rules(c, v4, v6)
  {
    hide DnsTargetV4, DnsTargetV6, QuicPorts, Exemptions, QuicBlock;
    var iface := c.interface;
    match c.upstream
    case Some(upstream) =>
      rules := UpstreamNoRdr(upstream, c.proxyPort) + exemptions
               + [ProxyRdr(iface, true, c), ProxyRdr(LOOPBACK, true, c), ProxyRdr(iface, false, c),
                  ProxyRdr(LOOPBACK, false, c)]
               + (QuicBlock(c) + UpstreamPass(c, upstream));
    case None =>
      rules := exemptions + [ProxyRdr(iface, true, c), ProxyRdr(iface, false, c)] + (QuicBlock(c) + []);
  }

  // ---------------------------------------------------------------- what the rules decide

  lemma {:induction false} TranslatedConcat(a: seq<PfRule>, b: seq<PfRule>, p: PfPacket)
    ensures Translated(a + b, p) == if Translated(a, p).Some? then Translated(a, p) else Translated(b, p)
  {
    if a == [] {
      assert a + b == b;
    } else {
      assert (a + b)[0] == a[0] && (a + b)[1..] == a[1..] + b;
      TranslatedConcat(a[1..], b, p);
    }
  }

  lemma TranslatedOne(r: PfRule, p: PfPacket)
    ensures Translated([r], p) == if r.Translate? && Selects(r.sel, p) then Some(r.translation) else None
  {
  }

  predicate Proxied(c: Config, dport: u16) {
    c.ports.Some? ==> dport in c.ports.value
  }

  predicate ToUpstreamOrListener(c: Config, p: PfPacket) {
    && c.upstream.Some? && p.on == LOOPBACK && p.proto.Tcp?
    && ((p.daddr == c.upstream.value.ip && p.dport == c.upstream.value.port) || p.dport == c.proxyPort)
  }

  predicate ToGateway(c: Config, v4: Option<Ip>, v6: Option<Ip>, p: PfPacket) {
    && p.on == c.interface && p.proto.Tcp? && Proxied(c, p.dport)
    && Some(p.daddr) == if p.daddr.V4? then v4 else v6
  }

  /** Exempt first, then DNS, then the gateway's own services, then the redirect. */
  function TranslationDecision(c: Config, v4: Option<Ip>, v6: Option<Ip>, p: PfPacket): Option<Translation> {
    var dns := if p.daddr.V4? then DnsTargetV4(c, v4) else DnsTargetV6(c, v6);
    if ToUpstreamOrListener(c, p) then Some(NoRdr)
    else if dns.Some? && p.on == c.interface && p.dport == 53 && !p.proto.OtherProto? then Some(Rdr(dns.value))
    else if ToGateway(c, v4, v6, p) then Some(NoRdr)
    else if p.proto.Tcp? && Proxied(c, p.dport) && (p.on == c.interface || (c.upstream.Some? && p.on == LOOPBACK)) then
      Some(Rdr(Target(Loopback(p.daddr.V4?), c.proxyPort)))
    else None
  }

  lemma DnsRdrDecided(on: string, v4: bool, target: Option<Target>, p: PfPacket)
    ensures Translated(DnsRdr(on, v4, target), p) ==
            if target.Some? && p.on == on && p.daddr.V4? == v4 && p.dport == DNS_PORT && !p.proto.OtherProto? then
              Some(Rdr(target.value))
            else None
  {
    if target.Some? {
      var rules := DnsRdr(on, v4, target);
      assert rules == [rules[0]] + [rules[1]];
      TranslatedConcat([rules[0]], [rules[1]], p);
      TranslatedOne(rules[0], p);
      TranslatedOne(rules[1], p);
    }
  }

  lemma GatewayDecided(on: string, v4: bool, address: Option<Ip>, ports: Option<seq<u16>>, p: PfPacket)
    ensures Translated(GatewayNoRdr(on, v4, address, ports), p) ==
            if && p.on == on && p.proto.Tcp? && p.daddr.V4? == v4 && Some(p.daddr) == address
               && (ports.Some? ==> p.dport in ports.value) then Some(NoRdr)
            else None
  {
    if address.Some? {
      TranslatedOne(GatewayNoRdr(on, v4, address, ports)[0], p);
    }
  }

  lemma ExemptionsDecided(c: Config, v4: Option<Ip>, v6: Option<Ip>, p: PfPacket)
    ensures
      var dns := if p.daddr.V4? then DnsTargetV4(c, v4) else DnsTargetV6(c, v6);
      Translated(Exemptions(c, v4, v6), p) ==
        if dns.Some? && p.on == c.interface && p.dport == DNS_PORT && !p.proto.OtherProto? then Some(Rdr(dns.value))
        else if ToGateway(c, v4, v6, p) then Some(NoRdr)
        else None
  {
    hide Translated, DnsTargetV4, DnsTargetV6;
    var d4, d6 := DnsRdr(c.interface, true, DnsTargetV4(c, v4)), DnsRdr(c.interface, false, DnsTargetV6(c, v6));
    var g4, g6 := GatewayNoRdr(c.interface, true, v4, c.ports), GatewayNoRdr(c.interface, false, v6, c.ports);
    TranslatedConcat(d4 + d6 + g4, g6, p);
    TranslatedConcat(d4 + d6, g4, p);
    TranslatedConcat(d4, d6, p);
    DnsRdrDecided(c.interface, true, DnsTargetV4(c, v4), p);
    DnsRdrDecided(c.interface, false, DnsTargetV6(c, v6), p);
    GatewayDecided(c.interface, true, v4, c.ports, p);
    GatewayDecided(c.interface, false, v6, c.ports, p);
  }

  lemma UpstreamNoRdrDecided(c: Config, p: PfPacket)
    requires c.upstream.Some?
    ensures Translated(UpstreamNoRdr(c.upstream.value, c.proxyPort), p) ==
            if ToUpstreamOrListener(c, p) then Some(NoRdr) else None
  {
    var r := UpstreamNoRdr(c.upstream.value, c.proxyPort);
    assert r == [r[0]] + [r[1]] + [r[2]];
    TranslatedConcat([r[0]] + [r[1]], [r[2]], p);
    TranslatedConcat([r[0]], [r[1]], p);
    TranslatedOne(r[0], p);
    TranslatedOne(r[1], p);
    TranslatedOne(r[2], p);
  }

  lemma {:induction false} FiltersDoNotTranslate(rules: seq<PfRule>, p: PfPacket)
    requires forall k :: 0 <= k < |rules| ==> rules[k].Filter?
    ensures Translated(rules, p) == None
  {
    if rules != [] {
      FiltersDoNotTranslate(rules[1..], p);
    }
  }

  lemma RedirectsTranslate(c: Config, ons: seq<string>, p: PfPacket) returns (rules: seq<PfRule>)
    requires |ons| == 1 || |ons| == 2
    ensures rules ==
            if |ons| == 1 then [ProxyRdr(ons[0], true, c), ProxyRdr(ons[0], false, c)]
            else
              [ProxyRdr(ons[0], true, c), ProxyRdr(ons[1], true, c), ProxyRdr(ons[0], false, c),
               ProxyRdr(ons[1], false, c)]
    ensures Translated(rules, p) ==
            if p.proto.Tcp? && Proxied(c, p.dport) && p.on in ons then
              Some(Rdr(Target(Loopback(p.daddr.V4?), c.proxyPort)))
            else None
  {
    var a, b := ProxyRdr(ons[0], true, c), ProxyRdr(ons[0], false, c);
    TranslatedOne(a, p);
    TranslatedOne(b, p);
    if |ons| == 1 {
      rules := [a] + [b];
      TranslatedConcat([a], [b], p);
    } else {
      var x, y := ProxyRdr(ons[1], true, c), ProxyRdr(ons[1], false, c);
      rules := [a] + [x] + [b] + [y];
      TranslatedOne(x, p);
      TranslatedOne(y, p);
      TranslatedConcat([a] + [x] + [b], [y], p);
      TranslatedConcat([a] + [x], [b], p);
      TranslatedConcat([a], [x], p);
    }
  }

  lemma RulesSorted(c: Config, v4: Option<Ip>, v6: Option<Ip>)
    ensures forall k :: 0 <= k < |Translations(c, v4, v6)| ==> Translations(c, v4, v6)[k].Translate?
    ensures forall k :: 0 <= k < |Filters(c)| ==> Filters(c)[k].Filter?
  {
    hide QuicPorts, DnsTargetV4, DnsTargetV6;
    ExemptionsTranslate(c, v4, v6);
    hide Exemptions;
  }

  lemma ExemptionsTranslate(c: Config, v4: Option<Ip>, v6: Option<Ip>)
    ensures forall k :: 0 <= k < |Exemptions(c, v4, v6)| ==> Exemptions(c, v4, v6)[k].Translate?
  {
    hide DnsTargetV4, DnsTargetV6;
  }

  /** Every packet is translated as decided; in particular each `no rdr` rule comes before the redirects it exempts
      from. */
  lemma TranslationDecided(c: Config, v4: Option<Ip>, v6: Option<Ip>, p: PfPacket)
    ensures Translated(Rules(c, v4, v6), p) == TranslationDecision(c, v4, v6, p)
  {
    RulesSorted(c, v4, v6);
    hide Translated, DnsTargetV4, DnsTargetV6, ProxyRdr, Exemptions, Filters;
    FiltersDoNotTranslate(Filters(c), p);
    TranslatedConcat(Translations(c, v4, v6), Filters(c), p);
    var exempt := Exemptions(c, v4, v6);
    ExemptionsDecided(c, v4, v6, p);
    match c.upstream
    case Some(upstream) =>
      var first := UpstreamNoRdr(upstream, c.proxyPort);
      var rdr := RedirectsTranslate(c, [c.interface, LOOPBACK], p);
      UpstreamNoRdrDecided(c, p);
      TranslatedConcat(first + exempt, rdr, p);
      TranslatedConcat(first, exempt, p);
    case None =>
      var rdr := RedirectsTranslate(c, [c.interface], p);
      TranslatedConcat(exempt, rdr, p);
  }

  lemma {:induction false} TranslationsDoNotFilter(a: seq<PfRule>, b: seq<PfRule>, p: PfPacket, last: Option<Action>)
    requires forall k :: 0 <= k < |a| ==> a[k].Translate?
    ensures Filtered(a + b, p, last) == Filtered(b, p, last)
  {
    if a == [] {
      assert a + b == b;
    } else {
      assert (a + b)[0] == a[0] && (a + b)[1..] == a[1..] + b;
      TranslationsDoNotFilter(a[1..], b, p, last);
    }
  }

  /** QUIC on the interface is dropped; the upstream connection leaves by its own route and other proxied TCP by
      loopback. */
  function FilterDecision(c: Config, p: PfPacket): Option<Action> {
    if p.on != c.interface then None
    else if p.proto.Udp? && IsQuicPort(c, p.dport) then Some(Block)
    else if c.upstream.None? || !p.out || !p.proto.Tcp? then None
    else if p.daddr == c.upstream.value.ip && p.dport == c.upstream.value.port then Some(Pass)
    else if Proxied(c, p.dport) then Some(RouteTo(Loopback(p.daddr.V4?)))
    else None
  }

  lemma FilteredStep(r: PfRule, rest: seq<PfRule>, p: PfPacket, last: Option<Action>)
    ensures Filtered([r] + rest, p, last) ==
            if !(r.Filter? && Selects(r.sel, p) && (r.outOnly ==> p.out)) then Filtered(rest, p, last)
            else if r.quick then Some(r.action)
            else Filtered(rest, p, Some(r.action))
  {
    assert ([r] + rest)[1..] == rest;
  }

  lemma FiltersDecided(c: Config, p: PfPacket)
    ensures Filtered(Filters(c), p, None) == FilterDecision(c, p)
  {
    QuicPortsExactly(c, p.dport);
    var quic, pass := QuicBlock(c), if c.upstream.Some? then UpstreamPass(c, c.upstream.value) else [];
    PassDecided(c, p);
    hide QuicPorts, IsQuicPort, Loopback, Filtered, UpstreamPass;
    if quic != [] {
      assert quic == [quic[0]];
      FilteredStep(quic[0], pass, p, None);
    } else {
      assert quic + pass == pass;
    }
  }

  lemma PassDecided(c: Config, p: PfPacket)
    ensures !(p.on == c.interface && p.proto.Udp? && IsQuicPort(c, p.dport)) ==>
              Filtered(if c.upstream.Some? then UpstreamPass(c, c.upstream.value) else [], p, None) ==
                    FilterDecision(c, p)
  {
    NoFilters(p);
    hide IsQuicPort, Loopback, Filtered;
    if c.upstream.Some? {
      var r := UpstreamPass(c, c.upstream.value);
      assert r == [r[0]] + ([r[1]] + ([r[2]] + []));
      FilteredStep(r[0], [r[1]] + ([r[2]] + []), p, None);
      FilteredStep(r[1], [r[2]] + [], p, None);
      FilteredStep(r[2], [], p, None);
      FilteredStep(r[2], [], p, Some(r[1].action));
    }
  }

  lemma NoFilters(p: PfPacket)
    ensures forall last :: Filtered([], p, last) == last
  {
  }

  /** Translation rules all come before filter rules, and the filter rules decide as stated. */
  lemma FilteringDecided(c: Config, v4: Option<Ip>, v6: Option<Ip>, p: PfPacket)
    ensures forall j, k :: 0 <= j < k < |Rules(c, v4, v6)| && Rules(c, v4, v6)[k].Translate? ==>
              Rules(c, v4, v6)[j].Translate?
    ensures Filtered(Rules(c, v4, v6), p, None) == FilterDecision(c, p)
  {
    RulesSorted(c, v4, v6);
    FiltersDecided(c, p);
    hide Filtered, FilterDecision, Translations, Filters;
    TranslationsDoNotFilter(Translations(c, v4, v6), Filters(c), p, None);
  }

  // ---------------------------------------------------------------- connections the host opens

  /** What becomes of an outgoing packet. One routed to loopback comes in there and is translated, or is left
      stranded on a host it was not meant for. */
  datatype Fate = Direct | Dropped | Delivered(target: Target) | Stranded

  function Looped(p: PfPacket): PfPacket {
    p.(on := LOOPBACK, out := false)
  }

  function OutgoingFate(rules: seq<PfRule>, p: PfPacket): Fate {
    match Filtered(rules, p, None)
    case None => Direct
    case Some(Pass) => Direct
    case Some(Block) => Dropped
    case Some(RouteTo(_)) =>
      match Translated(rules, Looped(p))
      case Some(Rdr(target)) => Delivered(target)
      case Some(NoRdr) => Stranded
      case None => Stranded
  }

  /** Left alone: no upstream proxy, a port that is not proxied, or the connection to the upstream proxy. */
  predicate LeavesDirectly(c: Config, p: PfPacket) {
    || c.upstream.None? || !Proxied(c, p.dport)
    || (p.daddr == c.upstream.value.ip && p.dport == c.upstream.value.port)
  }

  /** A connection of the host through the interface either leaves directly or is looped to the listener, except that
      one to the listener's own port number, on whatever host, is stranded. */
  lemma LocalConnectionFate(c: Config, v4: Option<Ip>, v6: Option<Ip>, p: PfPacket)
    requires p.on == c.interface && p.out && p.proto.Tcp?
    ensures
      var fate := OutgoingFate(Rules(c, v4, v6), p);
      && (fate.Direct? <==> LeavesDirectly(c, p))
      && (p.dport == c.proxyPort && !LeavesDirectly(c, p) ==> fate.Stranded?)
      && (p.dport != c.proxyPort && !LeavesDirectly(c, p) && c.interface != LOOPBACK ==>
            fate == Delivered(Target(Loopback(p.daddr.V4?), c.proxyPort)))
  {
    FilteringDecided(c, v4, v6, p);
    TranslationDecided(c, v4, v6, Looped(p));
    hide Rules, Filtered, Translated, Loopback, DnsTargetV4, DnsTargetV6, IsQuicPort;
  }

  /** From the command line: without `--local-traffic`, or without an upstream proxy, the host's own connections leave
      directly; with both, those to the upstream proxy and to ports that are not listed do. */
  lemma LocalAsAsked(cli: Cli, v4: Option<Ip>, v6: Option<Ip>, p: PfPacket)
    requires p.on == cli.interface && p.out && p.proto.Tcp?
    ensures
      var fate := OutgoingFate(Rules(FromCli(cli), v4, v6), p);
      var direct :=
        || !cli.localTraffic || cli.upstream.None? || (cli.ports.Some? && p.dport !in cli.ports.value)
        || SocketAddr(p.daddr, p.dport) == cli.upstream.value.addr;
      && (fate.Direct? <==> direct)
      && (!direct && p.dport == cli.listenPort ==> fate.Stranded?)
      && (!direct && p.dport != cli.listenPort && cli.interface != LOOPBACK ==>
            fate == Delivered(Target(Loopback(p.daddr.V4?), cli.listenPort)))
  {
    LocalConnectionFate(FromCli(cli), v4, v6, p);
    hide Rules, OutgoingFate, Loopback;
  }
}
