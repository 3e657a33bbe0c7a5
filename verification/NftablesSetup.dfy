/** The nftables set-up on Linux as commands that may fail at any point (src/firewall/nftables.rs). */
module NftablesSetup {
  import opened Bytes
  import opened Net
  import opened Firewall
  import opened Nftables

  datatype Hook = Prerouting | Output | TproxyPrerouting | QuicForward | QuicOutput
  datatype Chain = Chain(family: Family, hook: Hook)

  datatype Command =
    | DeleteTable(family: Family)
    | AddTable(family: Family)
    | AddChain(chain: Chain)
    | AddRule(chain: Chain, rule: Rule)
    | Sysctl(family: Family)
    | PolicyRouting

  /** The program's table of each family that has one, with its chains. */
  type Ruleset = map<Family, map<Hook, seq<Rule>>>

  // ---------------------------------------------------------------- running the commands

  predicate HasChain(s: Ruleset, chain: Chain) {
    chain.family in s && chain.hook in s[chain.family]
  }

  function RulesAt(s: Ruleset, chain: Chain): seq<Rule> {
    if HasChain(s, chain) then s[chain.family][chain.hook] else []
  }

  predicate CanRun(s: Ruleset, cmd: Command) {
    match cmd
    case DeleteTable(f) => f in s
    case AddTable(_) => true
    case AddChain(chain) => chain.family in s
    case AddRule(chain, _) => HasChain(s, chain)
    case Sysctl(_) => true
    case PolicyRouting => true
  }

  /** The effect of a command that succeeds. Adding a table or chain that exists changes nothing. */
  function Applied(s: Ruleset, cmd: Command): Ruleset
    requires CanRun(s, cmd)
  {
    match cmd
    case DeleteTable(f) => s - {f}
    case AddTable(f) => if f in s then s else s[f := map[]]
    case AddChain(chain) => if HasChain(s, chain) then s else s[chain.family := s[chain.family][chain.hook := []]]
    case AddRule(chain, rule) => s[chain.family := s[chain.family][chain.hook := RulesAt(s, chain) + [rule]]]
    case Sysctl(_) => s
    case PolicyRouting => s
  }

  /** The first `n` rules were added, all of them when `ok`. */
  ghost predicate GrownBy(before: seq<Rule>, after: seq<Rule>, rules: seq<Rule>, ok: bool) {
    exists n :: 0 <= n <= |rules| && after == before + rules[..n] && (ok ==> n == |rules|)
  }

  /** `chain` grew by these rules, or some first ones of them, and no other chain changed. */
  ghost predicate Extended(s: Ruleset, t: Ruleset, chain: Chain, rules: seq<Rule>, ok: bool) {
    && GrownBy(RulesAt(s, chain), RulesAt(t, chain), rules, ok)
    && forall other :: other != chain ==> RulesAt(t, other) == RulesAt(s, other)
  }

  lemma ExtendedByNone(s: Ruleset, chain: Chain, rules: seq<Rule>, ok: bool)
    requires ok ==> rules == []
    ensures Extended(s, s, chain, rules, ok)
  {
    assert RulesAt(s, chain) == RulesAt(s, chain) + rules[..0];
  }

  lemma ExtendedFurther(s: Ruleset, t: Ruleset, u: Ruleset, chain: Chain, a: seq<Rule>, b: seq<Rule>, ok: bool)
    requires Extended(s, t, chain, a, true) && Extended(t, u, chain, b, ok)
    ensures Extended(s, u, chain, a + b, ok)
  {
    hide RulesAt;
    GrownFurther(RulesAt(s, chain), RulesAt(t, chain), RulesAt(u, chain), a, b, ok);
    hide GrownBy;
  }

  lemma GrownFurther(before: seq<Rule>, between: seq<Rule>, after: seq<Rule>, a: seq<Rule>, b: seq<Rule>, ok: bool)
    requires GrownBy(before, between, a, true) && GrownBy(between, after, b, ok)
    ensures GrownBy(before, after, a + b, ok)
  {
    var n :| 0 <= n <= |b| && after == between + b[..n] && (ok ==> n == |b|);
    assert a[..|a|] == a && (a + b)[..|a| + n] == a + b[..n];
    assert after == before + (a + b)[..|a| + n];
  }

  lemma ExtendedPartly(s: Ruleset, t: Ruleset, chain: Chain, a: seq<Rule>, b: seq<Rule>)
    requires Extended(s, t, chain, a, false)
    ensures Extended(s, t, chain, a + b, false)
  {
    var n :| 0 <= n <= |a| && RulesAt(t, chain) == RulesAt(s, chain) + a[..n];
    assert (a + b)[..n] == a[..n];
  }

  /** One step after another on the same chain, with `rest` still to come. */
  lemma ExtendedThen(s: Ruleset, t: Ruleset, u: Ruleset, chain: Chain, a: seq<Rule>, b: seq<Rule>, rest: seq<Rule>,
                     ok: bool)
    requires Extended(s, t, chain, a, true) && Extended(t, u, chain, b, ok)
    ensures Extended(s, u, chain, a + b, ok)
    ensures !ok ==> Extended(s, u, chain, a + b + rest, false)
  {
    ExtendedFurther(s, t, u, chain, a, b, ok);
    if !ok {
      ExtendedPartly(s, u, chain, a + b, rest);
    }
  }

  // ---------------------------------------------------------------- the set-up

  /** The chains of a family grew by its rules when `ok`, and otherwise by some first rules of each list. */
  ghost predicate Installed(s: Ruleset, t: Ruleset, f: Family, c: Config, address: Option<Ip>, dns: Option<Target>,
                            ok: bool) {
    && GrownBy(RulesAt(s, Chain(f, Prerouting)), RulesAt(t, Chain(f, Prerouting)), PreroutingRules(c, address, dns), ok)
    && GrownBy(RulesAt(s, Chain(f, Output)), RulesAt(t, Chain(f, Output)), OutputRules(c, f, address), ok)
    && UdpInstalled(s, t, f, c, ok)
  }

  /** QUIC was handled by the whole tproxy chain, or else (`whole` false) by the forward chain. */
  ghost predicate QuicInstalled(s: Ruleset, t: Ruleset, f: Family, c: Config, whole: bool, ok: bool) {
    var tproxy, forward := Chain(f, TproxyPrerouting), Chain(f, QuicForward);
    var diversions := if c.proxyUdp then TproxyRules(c) else [];
    var drops := if whole then [] else ForwardDrops(c);
    && (whole ==> c.proxyUdp)
    && GrownBy(RulesAt(s, tproxy), RulesAt(t, tproxy), diversions, whole)
    && GrownBy(RulesAt(s, forward), RulesAt(t, forward), drops, ok)
  }

  ghost predicate UdpInstalled(s: Ruleset, t: Ruleset, f: Family, c: Config, ok: bool) {
    && (QuicInstalled(s, t, f, c, true, ok) || QuicInstalled(s, t, f, c, false, ok))
    && GrownBy(RulesAt(s, Chain(f, QuicOutput)), RulesAt(t, Chain(f, QuicOutput)), OutputDrops(c), ok)
  }

  ghost predicate SameElsewhere(s: Ruleset, t: Ruleset, changed: set<Chain>) {
    forall chain :: chain !in changed ==> RulesAt(t, chain) == RulesAt(s, chain)
  }

  lemma GrownByNone(rules: seq<Rule>, list: seq<Rule>, ok: bool)
    requires ok ==> list == []
    ensures GrownBy(rules, rules, list, ok)
  {
    assert rules == rules + list[..0];
  }

  class Nft {
    var rules: Ruleset

    /** Runs one command, which may fail for reasons of its own. */
    method Run(cmd: Command) returns (ok: bool)
      modifies this
      ensures ok ==> CanRun(old(rules), cmd)
      ensures rules == if ok then Applied(old(rules), cmd) else old(rules)
    {
      ok := *;
      ok := ok && CanRun(rules, cmd);
      if ok {
        rules := Applied(rules, cmd);
      }
    }

    method Add(chain: Chain, rule: Rule) returns (ok: bool)
      modifies this
      ensures Extended(old(rules), rules, chain, [rule], ok)
    {
      ok := Run(AddRule(chain, rule));
      assert [rule][..1] == [rule] && [rule][..0] == [];
      assert GrownBy(RulesAt(old(rules), chain), RulesAt(rules, chain), [rule], ok) by {
        var n := if ok then 1 else 0;
        assert RulesAt(rules, chain) == RulesAt(old(rules), chain) + [rule][..n];
      }
    }

    method NewChain(chain: Chain) returns (ok: bool)
      modifies this
      ensures forall any :: RulesAt(rules, any) == RulesAt(old(rules), any)
    {
      ok := Run(AddChain(chain));
    }

    method AddForPorts(chain: Chain, base: Rule, ports: seq<u16>) returns (ok: bool)
      modifies this
      ensures Extended(old(rules), rules, chain, PortRules(base, ports), ok)
    {
      ExtendedByNone(rules, chain, PortRules(base, []), true);
      for i := 0 to |ports|
        invariant Extended(old(rules), rules, chain, PortRules(base, ports[..i]), true)
      {
        ghost var before := rules;
        var rule := base.(dport := Some(ports[i]));
        ok := Add(chain, rule);
        ExtendedFurther(old(rules), before, rules, chain, PortRules(base, ports[..i]), [rule], ok);
        assert PortRules(base, ports[..i]) + [rule] == PortRules(base, ports[..i + 1]);
        if !ok {
          ExtendedPartly(old(rules), rules, chain, PortRules(base, ports[..i + 1]), PortRules(base, ports[i + 1..]));
          assert PortRules(base, ports[..i + 1]) + PortRules(base, ports[i + 1..]) == PortRules(base, ports);
          return;
        }
      }
      assert ports[..|ports|] == ports;
      ok := true;
    }

    method AddSshBypass(chain: Chain, base: Rule, address: Option<Ip>) returns (ok: bool)
      modifies this
      ensures Extended(old(rules), rules, chain, SshBypass(base, address), ok)
    {
      if address.Some? {
        ok := Add(chain, base.(daddr := address, dport := Some(SSH_PORT), verdict := Return));
      } else {
        ExtendedByNone(rules, chain, [], true);
        ok := true;
      }
    }

    method AddDnsInterception(f: Family, c: Config, dns: Option<Target>) returns (ok: bool)
      modifies this
      ensures Extended(old(rules), rules, Chain(f, Prerouting), DnsRules(c, dns), ok)
    {
      var chain := Chain(f, Prerouting);
      if dns.None? {
        ExtendedByNone(rules, chain, [], true);
        return true;
      }
      var udp, tcp := LanUdp(c, Dnat(dns.value)).(dport := Some(DNS_PORT)),
          LanTcp(c, Dnat(dns.value)).(dport := Some(DNS_PORT));
      assert DnsRules(c, dns) == [udp] + [tcp];
      ok := Add(chain, udp);
      if !ok {
        ExtendedPartly(old(rules), rules, chain, [udp], [tcp]);
        return;
      }
      ghost var before := rules;
      ok := Add(chain, tcp);
      ExtendedFurther(old(rules), before, rules, chain, [udp], [tcp], ok);
    }

    method AddLanRedirects(f: Family, c: Config, address: Option<Ip>) returns (ok: bool)
      modifies this
      ensures Extended(old(rules), rules, Chain(f, Prerouting), LanRedirects(c, address), ok)
    {
      var chain := Chain(f, Prerouting);
      match c.ports
      case Some(ports) =>
        ok := AddForPorts(chain, LanTcp(c, Redirect(c.proxyPort)), ports);
      case None =>
        ghost var ssh := SshBypass(LanTcp(c, Return), address);
        var mine, all := Any(Return).(iif := Some(c.interface), local := true), LanTcp(c, Redirect(c.proxyPort));
        assert LanRedirects(c, address) == ssh + [mine] + [all] == ssh + ([mine] + [all]);
        ok := AddSshBypass(chain, LanTcp(c, Return), address);
        if !ok {
          ExtendedPartly(old(rules), rules, chain, ssh, [mine] + [all]);
          return;
        }
        ghost var s1 := rules;
        ok := Add(chain, mine);
        ExtendedThen(old(rules), s1, rules, chain, ssh, [mine], [all], ok);
        if !ok {
          return;
        }
        ghost var s2 := rules;
        ok := Add(chain, all);
        ExtendedFurther(old(rules), s2, rules, chain, ssh + [mine], [all], ok);
    }

    method AddLocalRedirects(f: Family, c: Config, address: Option<Ip>) returns (ok: bool)
      modifies this
      ensures Extended(old(rules), rules, Chain(f, Output), LocalRedirects(c, address), ok)
    {
      var chain := Chain(f, Output);
      match c.ports
      case Some(ports) =>
        ok := AddForPorts(chain, Any(Redirect(c.proxyPort)).(proto := Some(Tcp)), ports);
      case None =>
        ghost var ssh := SshBypass(Any(Return).(proto := Some(Tcp)), address);
        var all := Any(Redirect(c.proxyPort)).(proto := Some(Tcp));
        ok := AddSshBypass(chain, Any(Return).(proto := Some(Tcp)), address);
        if !ok {
          ExtendedPartly(old(rules), rules, chain, ssh, [all]);
          return;
        }
        ghost var s1 := rules;
        ok := Add(chain, all);
        ExtendedFurther(old(rules), s1, rules, chain, ssh, [all], ok);
    }

    method AddUpstreamExclusion(f: Family, c: Config) returns (ok: bool)
      modifies this
      ensures Extended(old(rules), rules, Chain(f, Output), UpstreamExclusion(f, c.upstream), ok)
    {
      if c.upstream.Some? && SameFamily(f, c.upstream.value.ip) {
        ok := Add(Chain(f, Output), Any(Return).(proto := Some(Tcp), daddr := Some(c.upstream.value.ip),
            dport := Some(c.upstream.value.port)));
      } else {
        ExtendedByNone(rules, Chain(f, Output), [], true);
        ok := true;
      }
    }

    /** The output chain, when local traffic is to be proxied. */
    method SetupOutput(f: Family, c: Config, address: Option<Ip>) returns (ok: bool)
      modifies this
      ensures Extended(old(rules), rules, Chain(f, Output), OutputRules(c, f, address), ok)
    {
      var chain := Chain(f, Output);
      if c.fwmark.None? {
        ExtendedByNone(rules, chain, [], true);
        return true;
      }
      var marked, mine := Any(Return).(mark := c.fwmark), Any(Return).(local := true);
      ghost var upstream, rest := UpstreamExclusion(f, c.upstream), LocalRedirects(c, address);
      assert OutputRules(c, f, address) == [marked] + upstream + [mine] + rest == [marked] + upstream
             + ([mine] + rest) == [marked] + (upstream + [mine] + rest);
      ok := NewChain(chain);
      if !ok {
        ExtendedFromSame(old(rules), rules, chain, OutputRules(c, f, address));
        return;
      }
      ghost var s0 := rules;
      ok := Add(chain, marked);
      SameThenExtended(old(rules), s0, rules, chain, [marked], ok);
      if !ok {
        ExtendedPartly(old(rules), rules, chain, [marked], upstream + [mine] + rest);
        return;
      }
      ghost var s1 := rules;
      ok := AddUpstreamExclusion(f, c);
      ExtendedThen(old(rules), s1, rules, chain, [marked], upstream, [mine] + rest, ok);
      if !ok {
        return;
      }
      ghost var s2 := rules;
      ok := Add(chain, mine);
      ExtendedThen(old(rules), s2, rules, chain, [marked] + upstream, [mine], rest, ok);
      if !ok {
        return;
      }
      ghost var s3 := rules;
      ok := AddLocalRedirects(f, c, address);
      ExtendedFurther(old(rules), s3, rules, chain, [marked] + upstream + [mine], rest, ok);
    }

    method SetupUdpTproxy(f: Family, c: Config) returns (ok: bool)
      modifies this
      ensures Extended(old(rules), rules, Chain(f, TproxyPrerouting), TproxyRules(c), ok)
    {
      var ports := QuicPorts(c);
      if ports == [] {
        ExtendedByNone(rules, Chain(f, TproxyPrerouting), TproxyRules(c), true);
        return true;
      }
      ok := AddChainForPorts(Chain(f, TproxyPrerouting), LanUdp(c, Tproxy(c.proxyPort, TPROXY_MARK)), ports);
    }

    method AddChainForPorts(chain: Chain, base: Rule, ports: seq<u16>) returns (ok: bool)
      modifies this
      ensures Extended(old(rules), rules, chain, PortRules(base, ports), ok)
    {
      ok := NewChain(chain);
      if !ok {
        ExtendedFromSame(old(rules), rules, chain, PortRules(base, ports));
        return;
      }
      ghost var s := rules;
      ok := AddForPorts(chain, base, ports);
      SameThenExtended(old(rules), s, rules, chain, PortRules(base, ports), ok);
    }

    /** Drops gateway-originated QUIC, when local traffic is proxied at all. */
    method SetupQuicBlockOutput(f: Family, c: Config) returns (ok: bool)
      modifies this
      ensures Extended(old(rules), rules, Chain(f, QuicOutput), OutputDrops(c), ok)
    {
      var ports := QuicPorts(c);
      if ports == [] || c.fwmark.None? {
        ExtendedByNone(rules, Chain(f, QuicOutput), OutputDrops(c), true);
        return true;
      }
      ok := AddChainForPorts(Chain(f, QuicOutput), Any(Drop).(oif := Some(c.interface), proto := Some(Udp)), ports);
    }

    method SetupQuicBlock(f: Family, c: Config) returns (ok: bool)
      modifies this
      ensures
        var forward, output := Chain(f, QuicForward), Chain(f, QuicOutput);
        && GrownBy(RulesAt(old(rules), forward), RulesAt(rules, forward), ForwardDrops(c), ok)
        && GrownBy(RulesAt(old(rules), output), RulesAt(rules, output), OutputDrops(c), ok)
      ensures SameElsewhere(old(rules), rules, {Chain(f, QuicForward), Chain(f, QuicOutput)})
    {
      var ports := QuicPorts(c);
      GrownByNone(RulesAt(rules, Chain(f, QuicOutput)), OutputDrops(c), false);
      if ports == [] {
        GrownByNone(RulesAt(rules, Chain(f, QuicForward)), ForwardDrops(c), true);
        GrownByNone(RulesAt(rules, Chain(f, QuicOutput)), OutputDrops(c), true);
        return true;
      }
      ok := AddChainForPorts(Chain(f, QuicForward), LanUdp(c, Drop), ports);
      if !ok {
        return;
      }
      ok := SetupQuicBlockOutput(f, c);
      WholeIsPart(RulesAt(old(rules), Chain(f, QuicForward)), RulesAt(rules, Chain(f, QuicForward)), ForwardDrops(c));
    }

    /** QUIC goes through the proxy, or is dropped; a failure to divert it falls back to dropping it. */
    method SetupUdpHandling(f: Family, c: Config) returns (ok: bool)
      modifies this
      ensures UdpInstalled(old(rules), rules, f, c, ok)
      ensures SameElsewhere(old(rules), rules,
              {Chain(f, TproxyPrerouting), Chain(f, QuicForward), Chain(f, QuicOutput)})
    {
      if c.proxyUdp {
        var diverted := SetupUdpTproxy(f, c);
        ghost var s := rules;
        if diverted {
          ok := SetupQuicBlockOutput(f, c);
          GrownByNone(RulesAt(rules, Chain(f, QuicForward)), [], ok);
          assert QuicInstalled(old(rules), rules, f, c, true, ok);
        } else {
          ok := SetupQuicBlock(f, c);
          assert QuicInstalled(old(rules), rules, f, c, false, ok);
        }
      } else if c.blockQuic {
        GrownByNone(RulesAt(rules, Chain(f, TproxyPrerouting)), [], false);
        ok := SetupQuicBlock(f, c);
        assert QuicInstalled(old(rules), rules, f, c, false, ok);
      } else {
        GrownByNone(RulesAt(rules, Chain(f, TproxyPrerouting)), [], false);
        GrownByNone(RulesAt(rules, Chain(f, QuicForward)), ForwardDrops(c), true);
        GrownByNone(RulesAt(rules, Chain(f, QuicOutput)), OutputDrops(c), true);
        ok := true;
        assert QuicInstalled(old(rules), rules, f, c, false, ok);
      }
    }

    /** The rules for traffic from the LAN. DNS comes first, since the verdicts are terminal. */
    method SetupPrerouting(f: Family, c: Config, address: Option<Ip>, dns: Option<Target>) returns (ok: bool)
      modifies this
      ensures Extended(old(rules), rules, Chain(f, Prerouting), PreroutingRules(c, address, dns), ok)
    {
      hide GrownBy, LanRedirects, DnsRules, Extended;
      ok := AddDnsInterception(f, c, dns);
      if !ok {
        ExtendedPartly(old(rules), rules, Chain(f, Prerouting), DnsRules(c, dns), LanRedirects(c, address));
        return;
      }
      ghost var s := rules;
      ok := AddLanRedirects(f, c, address);
      ExtendedFurther(old(rules), s, rules, Chain(f, Prerouting), DnsRules(c, dns), LanRedirects(c, address), ok);
    }

    /** Everything for one family, up to the first command that fails. */
    method SetupFamily(f: Family, c: Config, address: Option<Ip>, dns: Option<Target>) returns (ok: bool)
      modifies this
      ensures Installed(old(rules), rules, f, c, address, dns, ok)
      ensures SameOutside(old(rules), rules, f)
    {
      hide *;
      ok := Run(AddTable(f));
      TableAdded(old(rules), rules, f, ok);
      InstalledAlike(old(rules), rules, f, c, address, dns);
      OutsideAlike(old(rules), rules, f);
      if !ok {
        return;
      }
      ok := NewChain(Chain(f, Prerouting));
      SameEverywhere(old(rules), rules, f);
      InstalledAlike(old(rules), rules, f, c, address, dns);
      OutsideAlike(old(rules), rules, f);
      if !ok {
        return;
      }
      ghost var s1 := rules;
      ok := SetupPrerouting(f, c, address, dns);
      SameThenExtended(old(rules), s1, rules, Chain(f, Prerouting), PreroutingRules(c, address, dns), ok);
      PreroutingInstalled(old(rules), rules, f, c, address, dns, ok);
      if !ok {
        return;
      }
      ghost var s2 := rules;
      ok := SetupOutput(f, c, address);
      OutputInstalled(old(rules), s2, rules, f, c, address, dns, ok);
      if !ok {
        return;
      }
      ghost var s3 := rules;
      ok := SetupUdpHandling(f, c);
      FamilyInstalled(old(rules), s2, s3, rules, f, c, address, dns, ok);
    }

    /** The whole set-up. IPv6 and the policy routing are best-effort, so `ok` speaks of IPv4 and `ok6` of IPv6. `left`
        is
        what the deletions left behind: nothing of a family whose table was deleted, or was not there. */
    method Setup(c: Config, v4: Option<Ip>, v6: Option<Ip>)
      returns (ok: bool, ok6: bool, left: Ruleset, deleted4: bool, deleted6: bool)
      modifies this
      ensures deleted4 || Ip4 !in old(rules) ==> Clean(left, Ip4)
      ensures deleted6 || Ip6 !in old(rules) ==> Clean(left, Ip6)
      ensures !deleted4 ==> SameFor(old(rules), left, Ip4)
      ensures !deleted6 ==> SameFor(old(rules), left, Ip6)
      ensures Installed(left, rules, Ip4, c, v4, DnsTargetV4(c, v4), ok)
      ensures Installed(left, rules, Ip6, c, v6, DnsTargetV6(c, v6), ok6)
      ensures ok6 ==> ok
    {
      hide *;
      ghost var before := rules;
      deleted4 := Run(DeleteTable(Ip4));
      ghost var between := rules;
      deleted6 := Run(DeleteTable(Ip6));
      left := rules;
      Deleted(before, between, Ip4, Ip6, deleted4);
      Deleted(between, left, Ip6, Ip4, deleted6);
      CleanStays(before, between, left);
      NothingInstalled(left, Ip4, c, v4, DnsTargetV4(c, v4));
      NothingInstalled(left, Ip6, c, v6, DnsTargetV6(c, v6));
      ok6 := false;
      ok := Run(Sysctl(Ip4));
      NoEffect(left, Sysctl(Ip4));
      if !ok {
        return;
      }
      var _ := Run(Sysctl(Ip6));
      NoEffect(left, Sysctl(Ip6));
      ok := SetupFamily(Ip4, c, v4, DnsTargetV4(c, v4));
      ghost var s := rules;
      SameForOther(left, s, Ip4, Ip6);
      InstalledAlike(left, s, Ip6, c, v6, DnsTargetV6(c, v6));
      if !ok {
        return;
      }
      ok6 := SetupFamily(Ip6, c, v6, DnsTargetV6(c, v6));
      SameForOther(s, rules, Ip6, Ip4);
      OtherFamilyKept(left, s, rules, Ip4, c, v4, DnsTargetV4(c, v4), true);
      FamilyFromAlike(left, s, rules, Ip6, c, v6, DnsTargetV6(c, v6), ok6);
      if c.proxyUdp {
        NoEffect(rules, PolicyRouting);
        var _ := Run(PolicyRouting);
      }
    }
  }

  lemma WholeIsPart(before: seq<Rule>, after: seq<Rule>, rules: seq<Rule>)
    requires GrownBy(before, after, rules, true)
    ensures GrownBy(before, after, rules, false)
  {
  }

  lemma ExtendedFromSame(s: Ruleset, t: Ruleset, chain: Chain, rules: seq<Rule>)
    requires forall any :: RulesAt(t, any) == RulesAt(s, any)
    ensures Extended(s, t, chain, rules, false)
  {
    GrownByNone(RulesAt(s, chain), rules, false);
  }

  lemma SameThenExtended(s: Ruleset, t: Ruleset, u: Ruleset, chain: Chain, rules: seq<Rule>, ok: bool)
    requires (forall any :: RulesAt(t, any) == RulesAt(s, any)) && Extended(t, u, chain, rules, ok)
    ensures Extended(s, u, chain, rules, ok)
  {
  }

  ghost predicate SameOutside(s: Ruleset, t: Ruleset, f: Family) {
    forall chain: Chain :: chain.family != f ==> RulesAt(t, chain) == RulesAt(s, chain)
  }

  lemma TableAdded(s: Ruleset, t: Ruleset, f: Family, ok: bool)
    requires t == if ok then Applied(s, AddTable(f)) else s
    ensures forall any :: RulesAt(t, any) == RulesAt(s, any)
    ensures SameFor(s, t, f)
  {
  }

  lemma SameEverywhere(s: Ruleset, t: Ruleset, f: Family)
    requires forall any :: RulesAt(t, any) == RulesAt(s, any)
    ensures SameFor(s, t, f)
  {
  }

  lemma OutsideAlike(s: Ruleset, t: Ruleset, f: Family)
    requires forall any :: RulesAt(t, any) == RulesAt(s, any)
    ensures SameOutside(s, t, f)
  {
  }

  lemma PreroutingInstalled(s: Ruleset, t: Ruleset, f: Family, c: Config, address: Option<Ip>, dns: Option<Target>,
                            ok: bool)
    requires Extended(s, t, Chain(f, Prerouting), PreroutingRules(c, address, dns), ok)
    ensures Installed(s, t, f, c, address, dns, false) && SameOutside(s, t, f)
  {
    NothingInstalled(s, f, c, address, dns);
    if ok {
      WholeIsPart(RulesAt(s, Chain(f, Prerouting)), RulesAt(t, Chain(f, Prerouting)), PreroutingRules(c, address, dns));
    }
    hide GrownBy, PreroutingRules, OutputRules, TproxyRules, ForwardDrops, OutputDrops;
  }

  lemma OutputInstalled(s: Ruleset, t: Ruleset, u: Ruleset, f: Family, c: Config, address: Option<Ip>,
                        dns: Option<Target>, ok: bool)
    requires Extended(s, t, Chain(f, Prerouting), PreroutingRules(c, address, dns), true)
    requires Extended(t, u, Chain(f, Output), OutputRules(c, f, address), ok)
    ensures Installed(s, u, f, c, address, dns, false) && SameOutside(s, u, f)
  {
    PreroutingInstalled(s, t, f, c, address, dns, true);
    if ok {
      WholeIsPart(RulesAt(t, Chain(f, Output)), RulesAt(u, Chain(f, Output)), OutputRules(c, f, address));
    }
    hide GrownBy, PreroutingRules, OutputRules, TproxyRules, ForwardDrops, OutputDrops;
  }

  lemma FamilyInstalled(s: Ruleset, t: Ruleset, u: Ruleset, v: Ruleset, f: Family, c: Config, address: Option<Ip>,
                        dns: Option<Target>, ok: bool)
    requires Extended(s, t, Chain(f, Prerouting), PreroutingRules(c, address, dns), true)
    requires Extended(t, u, Chain(f, Output), OutputRules(c, f, address), true)
    requires UdpInstalled(u, v, f, c, ok)
    requires SameElsewhere(u, v, {Chain(f, TproxyPrerouting), Chain(f, QuicForward), Chain(f, QuicOutput)})
    ensures Installed(s, v, f, c, address, dns, ok) && SameOutside(s, v, f)
  {
    NatKept(s, t, u, v, f);
    hide RulesAt;
    UdpInstalledAlike(u, s, v, f, c, ok);
    if !ok {
      WholeIsPart(RulesAt(s, Chain(f, Prerouting)), RulesAt(t, Chain(f, Prerouting)), PreroutingRules(c, address, dns));
      WholeIsPart(RulesAt(t, Chain(f, Output)), RulesAt(u, Chain(f, Output)), OutputRules(c, f, address));
    }
    hide GrownBy, UdpInstalled, PreroutingRules, OutputRules, SameElsewhere;
  }

  /** Each step leaves the chains of the others alone. */
  lemma NatKept(s: Ruleset, t: Ruleset, u: Ruleset, v: Ruleset, f: Family)
    requires forall other :: other != Chain(f, Prerouting) ==> RulesAt(t, other) == RulesAt(s, other)
    requires forall other :: other != Chain(f, Output) ==> RulesAt(u, other) == RulesAt(t, other)
    requires SameElsewhere(u, v, {Chain(f, TproxyPrerouting), Chain(f, QuicForward), Chain(f, QuicOutput)})
    ensures RulesAt(v, Chain(f, Prerouting)) == RulesAt(t, Chain(f, Prerouting))
            && RulesAt(v, Chain(f, Output)) == RulesAt(u, Chain(f, Output))
    ensures RulesAt(t, Chain(f, Output)) == RulesAt(s, Chain(f, Output))
    ensures forall hook: Hook :: hook.TproxyPrerouting? || hook.QuicForward? || hook.QuicOutput? ==>
              RulesAt(u, Chain(f, hook)) == RulesAt(s, Chain(f, hook))
    ensures SameOutside(s, v, f)
  {
    hide RulesAt;
  }

  /** A table that was deleted, or was not there, leaves nothing; the other family is not touched. */
  lemma Deleted(s: Ruleset, t: Ruleset, f: Family, other: Family, ok: bool)
    requires f != other && (ok ==> CanRun(s, DeleteTable(f)) && t == Applied(s, DeleteTable(f))) && (!ok ==> t == s)
    ensures ok || f !in s ==> Clean(t, f)
    ensures !ok ==> SameFor(s, t, f)
    ensures SameFor(s, t, other) && (other in t <==> other in s)
  {
  }

  lemma CleanStays(s: Ruleset, t: Ruleset, u: Ruleset)
    ensures SameFor(t, u, Ip4) && Clean(t, Ip4) ==> Clean(u, Ip4)
    ensures SameFor(s, t, Ip4) && SameFor(t, u, Ip4) ==> SameFor(s, u, Ip4)
    ensures SameFor(s, t, Ip6) && SameFor(t, u, Ip6) ==> SameFor(s, u, Ip6)
  {
    hide RulesAt;
  }

  lemma NoEffect(s: Ruleset, cmd: Command)
    requires cmd.Sysctl? || cmd.PolicyRouting?
    ensures CanRun(s, cmd) && Applied(s, cmd) == s
  {
  }

  lemma SameForOther(s: Ruleset, t: Ruleset, f: Family, other: Family)
    requires SameOutside(s, t, f) && other != f
    ensures SameFor(s, t, other)
  {
    hide RulesAt;
  }

  predicate SameFor(s: Ruleset, t: Ruleset, f: Family) {
    forall hook :: RulesAt(t, Chain(f, hook)) == RulesAt(s, Chain(f, hook))
  }

  lemma NothingInstalled(s: Ruleset, f: Family, c: Config, address: Option<Ip>, dns: Option<Target>)
    ensures Installed(s, s, f, c, address, dns, false)
  {
    GrownByNone(RulesAt(s, Chain(f, Prerouting)), PreroutingRules(c, address, dns), false);
    GrownByNone(RulesAt(s, Chain(f, Output)), OutputRules(c, f, address), false);
    GrownByNone(RulesAt(s, Chain(f, TproxyPrerouting)), if c.proxyUdp then TproxyRules(c) else [], false);
    GrownByNone(RulesAt(s, Chain(f, QuicForward)), ForwardDrops(c), false);
    GrownByNone(RulesAt(s, Chain(f, QuicOutput)), OutputDrops(c), false);
    assert QuicInstalled(s, s, f, c, false, false);
  }

  lemma InstalledAlike(s: Ruleset, t: Ruleset, f: Family, c: Config, address: Option<Ip>, dns: Option<Target>)
    requires SameFor(s, t, f)
    ensures Installed(s, t, f, c, address, dns, false)
  {
    NothingInstalled(s, f, c, address, dns);
    hide GrownBy;
  }

  lemma UdpInstalledAlike(s: Ruleset, s0: Ruleset, t: Ruleset, f: Family, c: Config, ok: bool)
    requires UdpInstalled(s, t, f, c, ok)
    requires forall hook: Hook :: hook.TproxyPrerouting? || hook.QuicForward? || hook.QuicOutput? ==>
               RulesAt(s, Chain(f, hook)) == RulesAt(s0, Chain(f, hook))
    ensures UdpInstalled(s0, t, f, c, ok)
  {
    hide GrownBy;
  }

  lemma OtherFamilyKept(s: Ruleset, t: Ruleset, u: Ruleset, f: Family, c: Config, address: Option<Ip>,
                        dns: Option<Target>, ok: bool)
    requires Installed(s, t, f, c, address, dns, ok) && SameFor(t, u, f)
    ensures Installed(s, u, f, c, address, dns, ok)
  {
    hide GrownBy;
  }

  lemma FamilyFromAlike(s: Ruleset, t: Ruleset, u: Ruleset, f: Family, c: Config, address: Option<Ip>,
                        dns: Option<Target>, ok: bool)
    requires SameFor(s, t, f) && Installed(t, u, f, c, address, dns, ok)
    ensures Installed(s, u, f, c, address, dns, ok)
  {
    hide GrownBy;
  }

  // ---------------------------------------------------------------- what a set-up achieves

  /** No rules from an earlier set-up are in the way. */
  ghost predicate Clean(s: Ruleset, f: Family) {
    forall hook :: RulesAt(s, Chain(f, hook)) == []
  }

  lemma GrownFromNothing(after: seq<Rule>, rules: seq<Rule>, ok: bool) returns (n: nat)
    requires GrownBy([], after, rules, ok)
    ensures n <= |rules| && after == rules[..n] && (ok ==> after == rules)
  {
    n :| 0 <= n <= |rules| && after == [] + rules[..n] && (ok ==> n == |rules|);
    assert [] + rules[..n] == rules[..n];
    assert rules[..|rules|] == rules;
  }

  /** A completed set-up treats every packet as decided. */
  lemma SetupRefines(s: Ruleset, t: Ruleset, f: Family, c: Config, address: Option<Ip>, dns: Option<Target>, p: Packet)
    requires Clean(s, f) && Installed(s, t, f, c, address, dns, true)
    ensures Eval(RulesAt(t, Chain(f, Prerouting)), p) == LanDecision(c, address, dns, p)
    ensures Eval(RulesAt(t, Chain(f, Output)), p) == Some(Redirect(c.proxyPort)) <==> LocallyProxied(c, f, address, p)
  {
    hide UdpInstalled;
    var _ := GrownFromNothing(RulesAt(t, Chain(f, Prerouting)), PreroutingRules(c, address, dns), true);
    var _ := GrownFromNothing(RulesAt(t, Chain(f, Output)), OutputRules(c, f, address), true);
    hide PreroutingRules, OutputRules, LanDecision, LocallyProxied, Eval;
    LanDecided(c, address, dns, p);
    OutputDecided(c, f, address, p);
  }

  /** However far a set-up got, it leaves exempt packets alone: what rules from before it decided stays, and it adds
      nothing but exemptions. So on a clean start they are never redirected. */
  lemma NeverLoops(s: Ruleset, t: Ruleset, f: Family, c: Config, address: Option<Ip>, dns: Option<Target>, ok: bool,
                   p: Packet)
    requires Installed(s, t, f, c, address, dns, ok) && SameFamily(f, p.daddr) && Exempt(c, p)
    ensures
      var before, after := Eval(RulesAt(s, Chain(f, Output)), p), Eval(RulesAt(t, Chain(f, Output)), p);
      if before.Some? then after == before else after in {None, Some(Return)}
    ensures Clean(s, f) ==> Eval(RulesAt(t, Chain(f, Output)), p) in {None, Some(Return)}
  {
    hide UdpInstalled, Eval;
    NoRules(p);
    var stale, rules := RulesAt(s, Chain(f, Output)), OutputRules(c, f, address);
    var n :| 0 <= n <= |rules| && RulesAt(t, Chain(f, Output)) == stale + rules[..n];
    EvalConcat(stale, rules[..n], p);
    NoLoop(c, f, address, n, p);
  }

  /** When the deletion of an old table fails and the set-up goes on, the rules of an earlier set-up with another mark
      still redirect the packets of the new mark, however far the new one gets. */
  lemma StaleRulesLoop(s: Ruleset, t: Ruleset, f: Family, earlier: Config, c: Config, before: Option<Ip>,
                       address: Option<Ip>, dns: Option<Target>, ok: bool, p: Packet)
    requires RulesAt(s, Chain(f, Output)) == OutputRules(earlier, f, before)
    requires Installed(s, t, f, c, address, dns, ok) && SameFamily(f, p.daddr) && Exempt(c, p)
    ensures Eval(RulesAt(t, Chain(f, Output)), p) == Some(Redirect(earlier.proxyPort)) <==>
            LocallyProxied(earlier, f, before, p)
  {
    hide UdpInstalled, Eval, Installed, OutputRules, LocallyProxied, Exempt;
    NeverLoops(s, t, f, c, address, dns, ok, p);
    OutputDecided(earlier, f, before, p);
  }

  predicate LanQuic(c: Config, p: Packet) {
    p.iif == c.interface && p.proto.Udp? && IsQuicPort(c, p.dport)
  }

  lemma QuicRulesDecide(c: Config, p: Packet, n: nat)
    ensures n <= |TproxyRules(c)| ==>
              Eval(TproxyRules(c)[..n], p) == None
                  || (LanQuic(c, p) && Eval(TproxyRules(c)[..n], p) == Some(Tproxy(c.proxyPort, TPROXY_MARK)))
    ensures Eval(TproxyRules(c), p) == if LanQuic(c, p) then Some(Tproxy(c.proxyPort, TPROXY_MARK)) else None
    ensures Eval(ForwardDrops(c), p) == if LanQuic(c, p) then Some(Drop) else None
    ensures Eval(OutputDrops(c), p) ==
            if c.fwmark.Some? && p.oif == c.interface && p.proto.Udp? && IsQuicPort(c, p.dport) then Some(Drop)
            else None
  {
    hide Eval;
    QuicPortsExactly(c, p.dport);
    PortRulesDecide(LanUdp(c, Tproxy(c.proxyPort, TPROXY_MARK)), QuicPorts(c), p);
    PortRulesDecide(LanUdp(c, Drop), QuicPorts(c), p);
    PortRulesDecide(Any(Drop).(oif := Some(c.interface), proto := Some(Udp)), QuicPorts(c), p);
    NoRules(p);
    if n <= |TproxyRules(c)| {
      EvalPrefix(TproxyRules(c), n, p);
    }
  }

  lemma NoRules(p: Packet)
    ensures Eval([], p) == None
  {
  }

  /** After a completed set-up, whichever tproxy command may have failed, a packet is diverted to the proxy or
      dropped exactly when it is LAN UDP on a QUIC port; gateway-originated QUIC is dropped exactly when local
      traffic is proxied. */
  lemma QuicNeverBypasses(s: Ruleset, t: Ruleset, f: Family, c: Config, p: Packet)
    requires Clean(s, f) && UdpInstalled(s, t, f, c, true)
    ensures
      var diverted, forwarded := Eval(RulesAt(t, Chain(f, TproxyPrerouting)), p),
          Eval(RulesAt(t, Chain(f, QuicForward)), p);
      && (LanQuic(c, p) <==> diverted == Some(Tproxy(c.proxyPort, TPROXY_MARK)) || forwarded == Some(Drop))
      && (!LanQuic(c, p) ==> diverted == None && forwarded == None)
    ensures Eval(RulesAt(t, Chain(f, QuicOutput)), p) == Some(Drop) <==>
            c.fwmark.Some? && p.oif == c.interface && p.proto.Udp? && IsQuicPort(c, p.dport)
  {
    hide Eval, LanQuic, TproxyRules, ForwardDrops, OutputDrops, GrownBy;
    NoRules(p);
    var whole := QuicInstalled(s, t, f, c, true, true);
    var n := GrownFromNothing(RulesAt(t, Chain(f, TproxyPrerouting)), if c.proxyUdp then TproxyRules(c) else [], whole);
    var _ := GrownFromNothing(RulesAt(t, Chain(f, QuicForward)), if whole then [] else ForwardDrops(c), true);
    var _ := GrownFromNothing(RulesAt(t, Chain(f, QuicOutput)), OutputDrops(c), true);
    QuicRulesDecide(c, p, n);
  }

  /** Kept from bypassing the proxy, going by the command line alone. */
  predicate KeptFromBypassing(cli: Cli, p: Packet) {
    && !cli.allowQuic && p.iif == cli.interface && p.proto.Udp?
    && if cli.ports.Some? then p.dport in cli.ports.value && p.dport != 53 else p.dport == 443
  }

  /** From the command line to the packet, after a completed set-up: UDP is diverted or dropped exactly when it comes
      from the LAN on a mirrored port (443 with no list) and `--allow-quic` is not given; DNS never is; only a SOCKS5
      upstream gets it diverted, and otherwise it is dropped. */
  lemma QuicAsAsked(cli: Cli, s: Ruleset, t: Ruleset, f: Family, p: Packet)
    requires Clean(s, f) && UdpInstalled(s, t, f, FromCli(cli), true)
    ensures
      var diverted, forwarded := Eval(RulesAt(t, Chain(f, TproxyPrerouting)), p),
          Eval(RulesAt(t, Chain(f, QuicForward)), p);
      var socks5 := cli.upstream.Some? && cli.upstream.value.protocol.Socks5?;
      && (diverted.Some? || forwarded.Some? <==> KeptFromBypassing(cli, p))
      && (diverted.Some? ==> socks5 && diverted == Some(Tproxy(cli.listenPort, TPROXY_MARK)))
      && (KeptFromBypassing(cli, p) && !socks5 ==> forwarded == Some(Drop))
      && (p.dport == 53 ==> diverted.None? && forwarded.None?)
  {
    var c := FromCli(cli);
    QuicNeverBypasses(s, t, f, c, p);
    assert LanQuic(c, p) <==> KeptFromBypassing(cli, p);
    if !c.proxyUdp {
      NotDiverted(s, t, f, c, p);
    } else {
      OnlyDivertedOrDropped(s, t, f, c, p);
    }
  }

  /** From the command line to the host's own connections, after a completed set-up: redirected to the listener exactly
      when `--local-traffic` is given and the connection is TCP on a proxied port, without the mark given,
          and neither to
      this host nor to the upstream proxy. */
  lemma LocalAsAsked(cli: Cli, s: Ruleset, t: Ruleset, f: Family, address: Option<Ip>, dns: Option<Target>, p: Packet)
    requires Clean(s, f) && Installed(s, t, f, FromCli(cli), address, dns, true) && SameFamily(f, p.daddr)
    ensures Eval(RulesAt(t, Chain(f, Output)), p) == Some(Redirect(cli.listenPort)) <==>
            && cli.localTraffic && p.proto.Tcp? && p.mark != cli.fwmark && !p.local
            && !(cli.upstream.Some? && cli.upstream.value.addr == SocketAddr(p.daddr, p.dport))
            && if cli.ports.Some? then p.dport in cli.ports.value
               else !(Some(p.daddr) == address && p.dport == 22)
  {
    var c := FromCli(cli);
    SetupRefines(s, t, f, c, address, dns, p);
    hide Installed, Eval, RulesAt, Clean, LanDecision;
  }

  lemma NotDiverted(s: Ruleset, t: Ruleset, f: Family, c: Config, p: Packet)
    requires Clean(s, f) && UdpInstalled(s, t, f, c, true) && !c.proxyUdp
    ensures Eval(RulesAt(t, Chain(f, TproxyPrerouting)), p) == None
  {
    hide Eval, ForwardDrops, GrownBy;
    NoRules(p);
    var n := GrownFromNothing(RulesAt(t, Chain(f, TproxyPrerouting)), [], false);
  }

  lemma OnlyDivertedOrDropped(s: Ruleset, t: Ruleset, f: Family, c: Config, p: Packet)
    requires Clean(s, f) && UdpInstalled(s, t, f, c, true) && c.proxyUdp
    ensures Eval(RulesAt(t, Chain(f, TproxyPrerouting)), p) in {None, Some(Tproxy(c.proxyPort, TPROXY_MARK))}
  {
    hide Eval, ForwardDrops, GrownBy, TproxyRules;
    var whole := QuicInstalled(s, t, f, c, true, true);
    var n := GrownFromNothing(RulesAt(t, Chain(f, TproxyPrerouting)), TproxyRules(c), whole);
    QuicRulesDecide(c, p, n);
  }
}
