/** What the firewall set-up is asked for (src/firewall/mod.rs). Interface addresses are inputs. */
module Firewall {
  import opened Bytes
  import opened Net
  import UpstreamProxy

  const DNS_PORT: u16 := 53
  const HTTPS_PORT: u16 := 443

  /** The command line, with the DNS listen address already resolved. */
  datatype Cli = Cli(interface: string, listenPort: u16, localTraffic: bool, fwmark: u32,
                     upstream: Option<UpstreamProxy.Proxy>,
                     ports: Option<seq<u16>>, allowQuic: bool, dnsListen: Option<SocketAddr>)

  datatype Config = Config(interface: string, proxyPort: u16, fwmark: Option<u32>, upstream: Option<SocketAddr>,
                           ports: Option<seq<u16>>, dnsListen: Option<SocketAddr>, blockQuic: bool, proxyUdp: bool)

  datatype Target = Target(ip: Ip, port: u16)

  function FromCli(cli: Cli): Config {
    Config(cli.interface, cli.listenPort,
           if cli.localTraffic then Some(cli.fwmark) else None,
           if cli.localTraffic && cli.upstream.Some? then Some(cli.upstream.value.addr) else None,
           cli.ports, cli.dnsListen, !cli.allowQuic,
           !cli.allowQuic && cli.upstream.Some? && cli.upstream.value.protocol.Socks5?)
  }

  function WithoutDns(ports: seq<u16>): seq<u16> {
    if ports == [] then [] else (if ports[0] != DNS_PORT then [ports[0]] else []) + WithoutDns(ports[1..])
  }

  /** UDP ports kept from bypassing the proxy. */
  function QuicPorts(c: Config): seq<u16> {
    if !c.blockQuic then []
    else match c.ports
      case Some(ports) => WithoutDns(ports)
      case None => [HTTPS_PORT]
  }

  predicate IsQuicPort(c: Config, port: u16) {
    c.blockQuic && if c.ports.Some? then port in c.ports.value && port != 53 else port == 443
  }

  lemma {:induction false} DnsLeftOut(ports: seq<u16>, port: u16)
    ensures port in WithoutDns(ports) <==> port in ports && port != DNS_PORT
  {
    if ports != [] {
      DnsLeftOut(ports[1..], port);
      assert ports == [ports[0]] + ports[1..];
    }
  }

  lemma QuicPortsExactly(c: Config, port: u16)
    ensures port in QuicPorts(c) <==> IsQuicPort(c, port)
  {
    if c.ports.Some? {
      DnsLeftOut(c.ports.value, port);
    }
  }

  predicate IsUnspecified(ip: Ip) {
    forall i :: 0 <= i < |ip.octets| ==> ip.octets[i] == 0
  }

  function Fallback(ip: Option<Ip>, port: u16): Option<Target> {
    if ip.Some? then Some(Target(ip.value, port)) else None
  }

  function DnsTargetV4(c: Config, interface: Option<Ip>): Option<Target> {
    match c.dnsListen
    case None => None
    case Some(listen) =>
      if listen.ip.V4? && !IsUnspecified(listen.ip) then Some(Target(listen.ip, listen.port))
      else if listen.ip.V4? || IsUnspecified(listen.ip) then Fallback(interface, listen.port)
      else None
  }

  function DnsTargetV6(c: Config, interface: Option<Ip>): Option<Target> {
    match c.dnsListen
    case None => None
    case Some(listen) =>
      if listen.ip.V4? then None
      else if !IsUnspecified(listen.ip) then Some(Target(listen.ip, listen.port))
      else Fallback(interface, listen.port)
  }

  /** A socket bound to `listen` gets datagrams sent to `ip`: its own address, or any when bound to a wildcard.
      The IPv6 wildcard also takes IPv4; the IPv4 wildcard takes no IPv6. */
  predicate Reaches(listen: Ip, ip: Ip) {
    listen == ip || (IsUnspecified(listen) && (listen.V6? || ip.V4?))
  }

  /** Intercepted DNS goes to the forwarder's port at an address it receives on: the one it is bound to, or the
      interface's own for a wildcard. There is a target whenever a specific address of the family is bound, or a
      wildcard that covers it and the interface has an address. */
  lemma DnsTargetsReach(c: Config, v4: Option<Ip>, v6: Option<Ip>)
    requires (v4.Some? ==> v4.value.V4?) && (v6.Some? ==> v6.value.V6?)
    ensures
      var t4, t6 := DnsTargetV4(c, v4), DnsTargetV6(c, v6);
      && (t4.Some? ==>
            c.dnsListen.Some? && t4.value.ip.V4? && t4.value.port == c.dnsListen.value.port
                && Reaches(c.dnsListen.value.ip, t4.value.ip)
                && Some(t4.value.ip) == if IsUnspecified(c.dnsListen.value.ip) then v4 else Some(c.dnsListen.value.ip))
      && (t6.Some? ==>
            c.dnsListen.Some? && t6.value.ip.V6? && t6.value.port == c.dnsListen.value.port
                && Reaches(c.dnsListen.value.ip, t6.value.ip)
                && Some(t6.value.ip) == if IsUnspecified(c.dnsListen.value.ip) then v6 else Some(c.dnsListen.value.ip))
      && (c.dnsListen.Some? ==>
            var ip := c.dnsListen.value.ip;
            && (t4.None? ==> if IsUnspecified(ip) then v4.None? else ip.V6?)
            && (t6.None? ==> ip.V4? || (IsUnspecified(ip) && v6.None?)))
  {
  }
}
