/** SOCKS5 request and datagram framing, and the peer that decodes it (src/tunnel.rs, test_servers/src/socks5.rs). */
module Socks5Framing {
  import opened Bytes
  import opened Net
  import opened Sequences

  const DOT: byte := 0x2E
  const ATYP_V4: byte := 1
  const ATYP_DOMAIN: byte := 3
  const ATYP_V6: byte := 4

  // ---------------------------------------------------------------- host names

  predicate HostByte(b: byte) {
    0x30 <= b <= 0x39 || 0x61 <= b <= 0x7A || 0x41 <= b <= 0x5A || b == 0x2D || b == 0x5F
  }

  predicate SafeLabel(l: seq<byte>) {
    l != [] && |l| <= 63 && forall i :: 0 <= i < |l| ==> HostByte(l[i])
  }

  /** The name without the final dot of the root. */
  function Unrooted(host: seq<byte>): seq<byte> {
    if host != [] && host[|host| - 1] == DOT then host[..|host| - 1] else host
  }

  predicate IsSafeProxyHostname(host: seq<byte>) {
    var name := Unrooted(host);
    name != [] && |host| <= 253 && forall k :: 0 <= k < |Split(name, DOT)| ==> SafeLabel(Split(name, DOT)[k])
  }

  function UsableHostname(hostname: Option<seq<byte>>): Option<seq<byte>> {
    if hostname.Some? && IsSafeProxyHostname(hostname.value) then hostname else None
  }

  /** A usable host name fits a one-byte length and carries nothing but letters, digits, `-`, `_` and dots. */
  lemma SafeHostname(host: seq<byte>)
    requires IsSafeProxyHostname(host)
    ensures 0 < |host| <= 253
    ensures forall i :: 0 <= i < |host| ==> HostByte(host[i]) || host[i] == DOT
  {
    var name := Unrooted(host);
    forall i | 0 <= i < |host| && host[i] != DOT
      ensures HostByte(host[i])
    {
      assert host[i] == name[i];
      SplitKeeps(name, DOT, i);
      var k :| 0 <= k < |Split(name, DOT)| && name[i] in Split(name, DOT)[k];
      assert SafeLabel(Split(name, DOT)[k]);
    }
  }

  /** Letters, digits, `-` and `_`, at least one and at most 63 of them. */
  predicate HostLabel(l: seq<byte>) {
    1 <= |l| <= 63 && forall i :: 0 <= i < |l| ==>
      Ascii("a")[0] <= l[i] <= Ascii("z")[0] || Ascii("A")[0] <= l[i] <= Ascii("Z")[0]
      || Ascii("0")[0] <= l[i] <= Ascii("9")[0] || l[i] == Ascii("-")[0] || l[i] == Ascii("_")[0]
  }

  lemma LabelsAgree(l: seq<byte>)
    ensures HostLabel(l) <==> SafeLabel(l)
    ensures HostLabel(l) ==> l != [] && DOT !in l
  {
  }

  /** Host names of at most 253 bytes made of such labels, with or without the final dot of the root. */
  ghost predicate DottedLabels(host: seq<byte>) {
    |host| <= 253 && exists labels: seq<seq<byte>>, rooted: bool :: MadeOf(host, labels, rooted)
  }

  predicate MadeOf(host: seq<byte>, labels: seq<seq<byte>>, rooted: bool) {
    && labels != [] && (forall k :: 0 <= k < |labels| ==> HostLabel(labels[k]))
    && host == Join(labels, DOT) + if rooted then [DOT] else []
  }

  lemma LabelsAreSplit(labels: seq<seq<byte>>)
    requires labels != [] && forall k :: 0 <= k < |labels| ==> HostLabel(labels[k])
    ensures
      var name := Join(labels, DOT);
      name != [] && name[|name| - 1] != DOT && Split(name, DOT) == labels
  {
    forall k | 0 <= k < |labels|
      ensures labels[k] != [] && DOT !in labels[k]
    {
      LabelsAgree(labels[k]);
    }
    SplitJoined(labels, DOT);
    LastPiece(Join(labels, DOT), DOT);
  }

  lemma SafeHasLabels(host: seq<byte>)
    requires IsSafeProxyHostname(host)
    ensures DottedLabels(host)
  {
    hide HostLabel, SafeLabel, Split, Join, Unrooted;
    var rooted := Rerooted(host);
    var labels := Split(Unrooted(host), DOT);
    JoinSplit(Unrooted(host), DOT);
    AllAgree(labels);
    assert MadeOf(host, labels, rooted);
  }

  lemma Rerooted(host: seq<byte>) returns (rooted: bool)
    ensures host == Unrooted(host) + if rooted then [DOT] else []
  {
    rooted := host != [] && host[|host| - 1] == DOT;
  }

  lemma AllAgree(labels: seq<seq<byte>>)
    ensures (forall k :: 0 <= k < |labels| ==> HostLabel(labels[k])) <==>
            (forall k :: 0 <= k < |labels| ==> SafeLabel(labels[k]))
  {
    hide HostLabel, SafeLabel;
    forall k | 0 <= k < |labels|
      ensures HostLabel(labels[k]) <==> SafeLabel(labels[k])
    {
      LabelsAgree(labels[k]);
    }
  }

  lemma LabelsAreSafe(host: seq<byte>, labels: seq<seq<byte>>, rooted: bool)
    requires |host| <= 253 && MadeOf(host, labels, rooted)
    ensures IsSafeProxyHostname(host)
  {
    hide HostLabel, SafeLabel, Split, Join;
    LabelsAreSplit(labels);
    var name := Unrooted(host);
    assert name == Join(labels, DOT);
    AllAgree(labels);
  }

  /** Exactly such names are usable. */
  lemma SafeExactly(host: seq<byte>)
    ensures IsSafeProxyHostname(host) <==> DottedLabels(host)
  {
    hide IsSafeProxyHostname, MadeOf;
    if IsSafeProxyHostname(host) {
      SafeHasLabels(host);
    }
    if DottedLabels(host) {
      var labels, rooted :| MadeOf(host, labels, rooted);
      LabelsAreSafe(host, labels, rooted);
    }
  }

  // ---------------------------------------------------------------- what the client sends

  /** ATYP, address and port. A host name is sent when it is usable, the address otherwise. */
  method PushDestination(prefix: seq<byte>, dest: SocketAddr, hostname: Option<seq<byte>>) returns (pkt: seq<byte>)
    requires ValidIp(dest.ip)
    ensures pkt == prefix + Destination(dest, hostname)
  {
    pkt := prefix;
    var host := UsableHostname(hostname);
    if host.Some? {
      SafeHostname(host.value);
      pkt := pkt + [ATYP_DOMAIN];
      pkt := pkt + [|host.value| % 0x100];
      pkt := pkt + host.value;
    } else if dest.ip.V4? {
      pkt := pkt + [ATYP_V4];
      pkt := pkt + dest.ip.octets;
    } else {
      pkt := pkt + [ATYP_V6];
      pkt := pkt + dest.ip.octets;
    }
    pkt := pkt + PutBe16(dest.port);
  }

  /** The host name length goes through a cast to one byte. */
  function Destination(dest: SocketAddr, hostname: Option<seq<byte>>): seq<byte> {
    (match UsableHostname(hostname)
     case Some(h) => [ATYP_DOMAIN] + [|h| % 0x100] + h
     case None => [if dest.ip.V4? then ATYP_V4 else ATYP_V6] + dest.ip.octets) + PutBe16(dest.port)
  }

  method ConnectRequest(dest: SocketAddr, hostname: Option<seq<byte>>) returns (req: seq<byte>)
    requires ValidIp(dest.ip)
    ensures req == [5, 1, 0] + Destination(dest, hostname)
  {
    req := PushDestination([5, 1, 0], dest, hostname);
  }

  method EncodeSocks5Udp(dest: SocketAddr, hostname: Option<seq<byte>>, payload: seq<byte>) returns (pkt: seq<byte>)
    requires ValidIp(dest.ip)
    ensures pkt == [0, 0, 0] + Destination(dest, hostname) + payload
  {
    pkt := PushDestination([0, 0, 0], dest, hostname);
    pkt := pkt + payload;
  }

  /** Where the payload of a datagram from the proxy begins. Fragments are refused. */
  function PayloadOffset(buf: seq<byte>): Option<nat> {
    if |buf| < 4 || buf[2] != 0 then None
    else
      var off: nat :=
        if buf[3] == ATYP_V4 then 10
        else if buf[3] == ATYP_V6 then 22
        else if buf[3] == ATYP_DOMAIN && |buf| > 4 then 7 + buf[4] as int
        else 0;
      if off == 0 || |buf| < off then None else Some(off)
  }

  // ---------------------------------------------------------------- the peer

  datatype Target = Numeric(addr: SocketAddr) | Domain(name: seq<byte>, port: u16)

  /** The peer's reading of ATYP, address and port, leaving what follows (section 5 of RFC 1928). */
  function ReadRequestAddr(s: seq<byte>): Option<(Target, seq<byte>)> {
    if |s| >= 7 && s[0] == 1 then Some((Numeric(SocketAddr(V4(s[1..5]), Be16At(s, 5))), s[7..]))
    else if |s| >= 19 && s[0] == 4 then Some((Numeric(SocketAddr(V6(s[1..17]), Be16At(s, 17))), s[19..]))
    else if |s| >= 2 && s[0] == 3 && |s| >= 4 + s[1] as int then
      var n: nat := s[1];
      Some((Domain(s[2..2 + n], Be16At(s, 2 + n)), s[4 + n..]))
    else None
  }

  /** The peer's UDP header parser, which knows numeric addresses only. */
  function ParseUdpHeader(buf: seq<byte>): Option<(SocketAddr, nat)> {
    if |buf| < 4 || buf[2] != 0 then None
    else if buf[3] == ATYP_V4 then
      if |buf| < 10 then None else Some((SocketAddr(V4(buf[4..8]), Be16At(buf, 8)), 10))
    else if buf[3] == ATYP_V6 then
      if |buf| < 22 then None else Some((SocketAddr(V6(buf[4..20]), Be16At(buf, 20)), 22))
    else None
  }

  method EncodeUdpHeader(src: SocketAddr) returns (hdr: seq<byte>)
    requires ValidIp(src.ip)
    ensures hdr == UdpHeader(src)
  {
    hdr := [0, 0, 0];
    hdr := hdr + [if src.ip.V4? then ATYP_V4 else ATYP_V6];
    hdr := hdr + src.ip.octets;
    hdr := hdr + PutBe16(src.port);
  }

  function UdpHeader(src: SocketAddr): seq<byte> {
    [0, 0, 0] + [if src.ip.V4? then ATYP_V4 else ATYP_V6] + src.ip.octets + PutBe16(src.port)
  }

  // ---------------------------------------------------------------- round trips

  /** What the peer should learn from a request. */
  function TargetOf(dest: SocketAddr, hostname: Option<seq<byte>>): Target {
    match UsableHostname(hostname)
    case Some(h) => Domain(h, dest.port)
    case None => Numeric(dest)
  }

  lemma UsableIsDotted(host: Option<seq<byte>>)
    ensures UsableHostname(host) == if host.Some? && DottedLabels(host.value) then host else None
  {
    hide DottedLabels, IsSafeProxyHostname;
    if host.Some? {
      SafeExactly(host.value);
    }
  }

  /** The name when it is usable, the address otherwise. */
  lemma TargetExactly(dest: SocketAddr, hostname: Option<seq<byte>>)
    ensures TargetOf(dest, hostname) ==
            if hostname.Some? && DottedLabels(hostname.value) then Domain(hostname.value, dest.port)
            else Numeric(dest)
  {
    hide UsableHostname, DottedLabels;
    UsableIsDotted(hostname);
  }

  lemma PortAfter(a: seq<byte>, port: u16, b: seq<byte>)
    ensures Be16At(a + PutBe16(port) + b, |a|) == port
  {
  }

  lemma NumericParses(a: SocketAddr, rest: seq<byte>)
    requires ValidIp(a.ip)
    ensures ReadRequestAddr([if a.ip.V4? then ATYP_V4 else ATYP_V6] + a.ip.octets + PutBe16(a.port) + rest) ==
              Some((Numeric(a), rest))
  {
    var front := [if a.ip.V4? then ATYP_V4 else ATYP_V6] + a.ip.octets;
    var s := front + PutBe16(a.port) + rest;
    assert s[1..|front|] == a.ip.octets;
    PortAfter(front, a.port, rest);
    assert s[|front| + 2..] == rest;
  }

  lemma DomainParses(name: seq<byte>, port: u16, rest: seq<byte>)
    requires |name| <= 255
    ensures ReadRequestAddr([ATYP_DOMAIN] + [|name|] + name + PutBe16(port) + rest) == Some((Domain(name, port), rest))
  {
    var front := [ATYP_DOMAIN] + [|name|] + name;
    var s := front + PutBe16(port) + rest;
    assert s[0] == ATYP_DOMAIN && s[1] == |name|;
    assert s[2..|front|] == name;
    PortAfter(front, port, rest);
    assert s[|front| + 2..] == rest;
  }

  /** The peer recovers every destination, name or address, and nothing of what follows is consumed. */
  lemma RequestRoundTrip(dest: SocketAddr, hostname: Option<seq<byte>>, rest: seq<byte>)
    requires ValidIp(dest.ip)
    ensures ReadRequestAddr(Destination(dest, hostname) + rest) == Some((TargetOf(dest, hostname), rest))
  {
    hide ReadRequestAddr, IsSafeProxyHostname;
    var host := UsableHostname(hostname);
    if host.Some? {
      SafeHostname(host.value);
      DomainParses(host.value, dest.port, rest);
    } else {
      NumericParses(dest, rest);
    }
  }

  /** The payload of an encapsulated datagram is found again, whatever the destination and host name. */
  lemma PayloadFound(dest: SocketAddr, hostname: Option<seq<byte>>, payload: seq<byte>)
    requires ValidIp(dest.ip)
    ensures
      var pkt := [0, 0, 0] + Destination(dest, hostname) + payload;
      && PayloadOffset(pkt) == Some(3 + |Destination(dest, hostname)|)
      && pkt[3 + |Destination(dest, hostname)|..] == payload
  {
    var host := UsableHostname(hostname);
    if host.Some? {
      SafeHostname(host.value);
      var pkt := [0, 0, 0] + Destination(dest, hostname) + payload;
      assert pkt[4] == |host.value|;
    }
  }

  /** The peer's UDP decoder recovers numeric destinations and their payload, and refuses names. */
  lemma UdpRoundTrip(dest: SocketAddr, hostname: Option<seq<byte>>, payload: seq<byte>)
    requires ValidIp(dest.ip)
    ensures
      var pkt := [0, 0, 0] + Destination(dest, hostname) + payload;
      ParseUdpHeader(pkt) == if UsableHostname(hostname).Some? then None else Some((dest, |pkt| - |payload|))
  {
    var d := Destination(dest, hostname);
    var pkt := [0, 0, 0] + d + payload;
    if UsableHostname(hostname).None? {
      var front := [0, 0, 0] + [if dest.ip.V4? then ATYP_V4 else ATYP_V6] + dest.ip.octets;
      assert pkt == front + PutBe16(dest.port) + payload;
      assert pkt[4..|front|] == dest.ip.octets;
      PortAfter(front, dest.port, payload);
    }
  }

  /** A reply wrapped by the peer is unwrapped to exactly its data, and names its source. */
  lemma ReplyRoundTrip(src: SocketAddr, data: seq<byte>)
    requires ValidIp(src.ip)
    ensures
      var pkt := UdpHeader(src) + data;
      && PayloadOffset(pkt) == Some(|UdpHeader(src)|) && pkt[|UdpHeader(src)|..] == data
      && ParseUdpHeader(pkt) == Some((src, |UdpHeader(src)|))
  {
    var front := [0, 0, 0] + [if src.ip.V4? then ATYP_V4 else ATYP_V6] + src.ip.octets;
    var pkt := UdpHeader(src) + data;
    assert pkt == front + PutBe16(src.port) + data;
    assert pkt[4..|front|] == src.ip.octets;
    PortAfter(front, src.port, data);
  }
}
