/** The nftables rules on Linux (src/firewall/nftables.rs) and what they do to a packet under first-match evaluation. */
module Nftables {
  import opened Bytes
  import opened Net
  import opened Firewall

  datatype Proto = Tcp | Udp | OtherProto

  /** A packet as the rules see it; `local` says the destination is one of the host's own addresses. */
  datatype Packet = Packet(iif: string, oif: string, proto: Proto, daddr: Ip, dport: u16, local: bool, mark: u32)

  datatype Verdict = Return | Redirect(port: u16) | Dnat(target: Target) | Drop | Tproxy(port: u16, setMark: u32)

  /** Every condition that is present has to hold. */
  datatype Rule = Rule(iif: Option<string>, oif: Option<string>, proto: Option<Proto>, daddr: Option<Ip>,
                       dport: Option<u16>, local: bool, mark: Option<u32>, verdict: Verdict)

  datatype Family = Ip4 | Ip6

  const TPROXY_MARK: u32 := 0x4000_0000
  const SSH_PORT: u16 := 22

  // ---------------------------------------------------------------- evaluation

  predicate Meets(r: Rule, p: Packet) {
    && (r.iif.Some? ==> r.iif.value == p.iif)
    && (r.oif.Some? ==> r.oif.value == p.oif)
    && (r.proto.Some? ==> r.proto.value == p.proto)
    && (r.daddr.Some? ==> r.daddr.value == p.daddr)
    && (r.dport.Some? ==> r.dport.value == p.dport && !p.proto.OtherProto?)
    && (r.local ==> p.local)
    && (r.mark.Some? ==> r.mark.value == p.mark)
  }

  /** The verdict of the first rule that matches. */
  function Eval(rules: seq<Rule>, p: Packet): Option<Verdict> {
    if rules == [] then None
    else if Meets(rules[0], p) then Some(rules[0].verdict)
    else Eval(rules[1..], p)
  }

  lemma {:induction false} EvalConcat(a: seq<Rule>, b: seq<Rule>, p: Packet)
    ensures Eval(a + b, p) == if Eval(a, p).Some? then Eval(a, p) else Eval(b, p)
  {
    if a == [] {
      assert a + b == b;
    } else {
      assert (a + b)[0] == a[0] && (a + b)[1..] == a[1..] + b;
      EvalConcat(a[1..], b, p);
    }
  }

  lemma EvalOne(r: Rule, p: Packet)
    ensures Eval([r], p) == if Meets(r, p) then Some(r.verdict) else None
  {
  }

  /** What a shorter prefix decides, the whole list decides the same way. */
  lemma EvalPrefix(rules: seq<Rule>, n: nat, p: Packet)
    requires n <= |rules|
    ensures Eval(rules[..n], p) == None || Eval(rules[..n], p) == Eval(rules, p)
  {
    EvalConcat(rules[..n], rules[n..], p);
    assert rules == rules[..n] + rules[n..];
  }

  // ---------------------------------------------------------------- the rules

  function Any(verdict: Verdict): Rule {
    Rule(None, None, None, None, None, false, None, verdict)
  }

  /** One rule for each port. */
  function PortRules(base: Rule, ports: seq<u16>): seq<Rule> {
    seq(|ports|, i requires 0 <= i < |ports| => base.(dport := Some(ports[i])))
  }

  function LanTcp(c: Config, verdict: Verdict): Rule {
    Any(verdict).(iif := Some(c.interface), proto := Some(Tcp))
  }

  function LanUdp(c: Config, verdict: Verdict): Rule {
    Any(verdict).(iif := Some(c.interface), proto := Some(Udp))
  }

  function DnsRules(c: Config, dns: Option<Target>): seq<Rule> {
    if dns.None? then []
    else [LanUdp(c, Dnat(dns.value)).(dport := Some(DNS_PORT)), LanTcp(c, Dnat(dns.value)).(dport := Some(DNS_PORT))]
  }

  function SshBypass(base: Rule, address: Option<Ip>): seq<Rule> {
    if address.None? then [] else [base.(daddr := address, dport := Some(SSH_PORT), verdict := Return)]
  }

  function LanRedirects(c: Config, address: Option<Ip>): seq<Rule> {
    match c.ports
    case Some(ports) => PortRules(LanTcp(c, Redirect(c.proxyPort)), ports)
    case None =>
      SshBypass(LanTcp(c, Return), address)
      + [Any(Return).(iif := Some(c.interface), local := true), LanTcp(c, Redirect(c.proxyPort))]
  }

  function PreroutingRules(c: Config, address: Option<Ip>, dns: Option<Target>): seq<Rule> {
    DnsRules(c, dns) + LanRedirects(c, address)
  }

  predicate SameFamily(f: Family, ip: Ip) {
    f.Ip4? <==> ip.V4?
  }

  /** An exemption for the upstream proxy, in the table of its own family. */
  function UpstreamExclusion(f: Family, upstream: Option<SocketAddr>): seq<Rule> {
    if upstream.None? || !SameFamily(f, upstream.value.ip) then []
    else [Any(Return).(proto := Some(Tcp), daddr := Some(upstream.value.ip), dport := Some(upstream.value.port))]
  }

  function LocalRedirects(c: Config, address: Option<Ip>): seq<Rule> {
    match c.ports
    case Some(ports) => PortRules(Any(Redirect(c.proxyPort)).(proto := Some(Tcp)), ports)
    case None =>
      SshBypass(Any(Return).(proto := Some(Tcp)), address) + [Any(Redirect(c.proxyPort)).(proto := Some(Tcp))]
  }

  function OutputRules(c: Config, f: Family, address: Option<Ip>): seq<Rule> {
    if c.fwmark.None? then []
    else
      [Any(Return).(mark := c.fwmark)] + UpstreamExclusion(f, c.upstream) + [Any(Return).(local := true)]
      + LocalRedirects(c, address)
  }

  function TproxyRules(c: Config): seq<Rule> {
    PortRules(LanUdp(c, Tproxy(c.proxyPort, TPROXY_MARK)), QuicPorts(c))
  }

  function ForwardDrops(c: Config): seq<Rule> {
    PortRules(LanUdp(c, Drop), QuicPorts(c))
  }

  function OutputDrops(c: Config): seq<Rule> {
    if c.fwmark.None? then [] else PortRules(Any(Drop).(oif := Some(c.interface), proto := Some(Udp)), QuicPorts(c))
  }

  // ---------------------------------------------------------------- what the rules decide

  lemma {:induction false} PortRulesDecide(base: Rule, ports: seq<u16>, p: Packet)
    requires base.dport.None?
    ensures Eval(PortRules(base, ports), p) ==
            if Meets(base, p) && !p.proto.OtherProto? && p.dport in ports then Some(base.verdict) else None
  {
    if ports != [] {
      assert PortRules(base, ports)[1..] == PortRules(base, ports[1..]);
      assert ports == [ports[0]] + ports[1..];
      PortRulesDecide(base, ports[1..], p);
    }
  }

  /** Among the packets from the LAN: DNS to its target if there is one, then TCP on the listed ports, or with no
      list all TCP that is not for the gateway itself. */
  function LanDecision(c: Config, address: Option<Ip>, dns: Option<Target>, p: Packet): Option<Verdict> {
    if p.iif != c.interface then None
    else if dns.Some? && p.dport == 53 && !p.proto.OtherProto? then Some(Dnat(dns.value))
    else if c.ports.Some? then (if p.proto.Tcp? && p.dport in c.ports.value then Some(Redirect(c.proxyPort)) else None)
    else if p.local || (p.proto.Tcp? && Some(p.daddr) == address && p.dport == 22) then Some(Return)
    else if p.proto.Tcp? then Some(Redirect(c.proxyPort))
    else None
  }

  lemma LanDecided(c: Config, address: Option<Ip>, dns: Option<Target>, p: Packet)
    ensures Eval(PreroutingRules(c, address, dns), p) == LanDecision(c, address, dns, p)
  {
    EvalConcat(DnsRules(c, dns), LanRedirects(c, address), p);
    DnsDecided(c, dns, p);
    RedirectsDecided(c, address, p);
  }

  lemma DnsDecided(c: Config, dns: Option<Target>, p: Packet)
    ensures Eval(DnsRules(c, dns), p) ==
            if dns.Some? && p.iif == c.interface && p.dport == DNS_PORT && !p.proto.OtherProto? then
              Some(Dnat(dns.value))
            else None
  {
    if dns.Some? {
      var rules := DnsRules(c, dns);
      assert rules == [rules[0]] + [rules[1]];
      EvalConcat([rules[0]], [rules[1]], p);
      EvalOne(rules[0], p);
      EvalOne(rules[1], p);
    }
  }

  lemma RedirectsDecided(c: Config, address: Option<Ip>, p: Packet)
    ensures Eval(LanRedirects(c, address), p) == LanDecision(c, address, None, p)
  {
    match c.ports
    case Some(ports) => PortRulesDecide(LanTcp(c, Redirect(c.proxyPort)), ports, p);
    case None =>
      var ssh, mine, all := SshBypass(LanTcp(c, Return), address),
          Any(Return).(iif := Some(c.interface), local := true), LanTcp(c, Redirect(c.proxyPort));
      assert LanRedirects(c, address) == ssh + ([mine] + [all]);
      EvalConcat(ssh, [mine] + [all], p);
      EvalConcat([mine], [all], p);
      EvalOne(mine, p);
      EvalOne(all, p);
      if address.Some? {
        assert ssh == [ssh[0]];
        EvalOne(ssh[0], p);
      }
  }

  /** A locally generated connection is redirected exactly when it is TCP, unmarked, not to the upstream proxy nor
      to this host, and on a proxied port (with no list: any port but SSH at the interface address). */
  predicate LocallyProxied(c: Config, f: Family, address: Option<Ip>, p: Packet) {
    && c.fwmark.Some? && p.mark != c.fwmark.value && !p.local && p.proto.Tcp?
    && !(c.upstream.Some? && SameFamily(f, c.upstream.value.ip) && p.daddr == c.upstream.value.ip
        && p.dport == c.upstream.value.port)
    && if c.ports.Some? then p.dport in c.ports.value else !(Some(p.daddr) == address && p.dport == 22)
  }

  lemma OutputDecided(c: Config, f: Family, address: Option<Ip>, p: Packet)
    ensures Eval(OutputRules(c, f, address), p) == Some(Redirect(c.proxyPort)) <==> LocallyProxied(c, f, address, p)
    ensures Eval(OutputRules(c, f, address), p) in {None, Some(Return), Some(Redirect(c.proxyPort))}
  {
    if c.fwmark.Some? {
      var mark, upstream, local, rest := [Any(Return).(mark := c.fwmark)], UpstreamExclusion(f, c.upstream),
          [Any(Return).(local := true)], LocalRedirects(c, address);
      EvalConcat(mark + upstream + local, rest, p);
      EvalConcat(mark + upstream, local, p);
      EvalConcat(mark, upstream, p);
      EvalOne(mark[0], p);
      EvalOne(local[0], p);
      if upstream != [] {
        EvalOne(upstream[0], p);
      }
      LocalRedirectsDecided(c, address, p);
    }
  }

  lemma LocalRedirectsDecided(c: Config, address: Option<Ip>, p: Packet)
    ensures Eval(LocalRedirects(c, address), p) ==
            if !p.proto.Tcp? then None
            else if c.ports.Some? then (if p.dport in c.ports.value then Some(Redirect(c.proxyPort)) else None)
            else if Some(p.daddr) == address && p.dport == SSH_PORT then Some(Return)
            else Some(Redirect(c.proxyPort))
  {
    var all := Any(Redirect(c.proxyPort)).(proto := Some(Tcp));
    match c.ports
    case Some(ports) => PortRulesDecide(all, ports, p);
    case None =>
      var ssh := SshBypass(Any(Return).(proto := Some(Tcp)), address);
      EvalConcat(ssh, [all], p);
      EvalOne(all, p);
      if address.Some? {
        assert ssh == [ssh[0]];
        EvalOne(ssh[0], p);
      }
  }

  /** Marked packets, local destinations and the upstream proxy must not come back to the proxy. */
  predicate Exempt(c: Config, p: Packet) {
    || Some(p.mark) == c.fwmark || p.local
    || (c.upstream.Some? && p.proto.Tcp? && p.daddr == c.upstream.value.ip && p.dport == c.upstream.value.port)
  }

  /** However much of the output chain got installed, exempt packets are never redirected. */
  lemma NoLoop(c: Config, f: Family, address: Option<Ip>, n: nat, p: Packet)
    requires n <= |OutputRules(c, f, address)| && SameFamily(f, p.daddr) && Exempt(c, p)
    ensures Eval(OutputRules(c, f, address)[..n], p) in {None, Some(Return)}
  {
    EvalPrefix(OutputRules(c, f, address), n, p);
    OutputDecided(c, f, address, p);
  }
}
