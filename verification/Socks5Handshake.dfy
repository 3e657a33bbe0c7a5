/** The client side of the SOCKS5 handshake (src/tunnel.rs; sections 3, 4 and 6 of RFC 1928, section 2 of RFC 1929). */
module Socks5Handshake {
  import opened Bytes
  import opened Net
  import opened Sequences
  import opened Socks5Framing
  import opened TcpStream

  const MAX_FIELD_LEN: nat := 255

  datatype Auth = NoAuth | UserPass(username: seq<byte>, password: seq<byte>)

  // ---------------------------------------------------------------- what a server may send

  /** A server's side of a successful handshake: method selection, perhaps an authentication reply, and the
      reply to the request with its bound address. */
  datatype ServerFrames = ServerFrames(chosen: byte, authVersion: byte, reserved: byte, bound: Target)

  const METHOD_NONE: byte := 0
  const METHOD_USER_PASS: byte := 2

  predicate ValidBound(t: Target) {
    match t
    case Numeric(a) => ValidIp(a.ip)
    case Domain(name, _) => |name| <= 255
  }

  function EncodeBound(t: Target): seq<byte>
    requires ValidBound(t)
  {
    match t
    case Numeric(a) => [if a.ip.V4? then ATYP_V4 else ATYP_V6] + (a.ip.octets + PutBe16(a.port))
    case Domain(name, port) => [ATYP_DOMAIN] + ([|name|] + (name + PutBe16(port)))
  }

  function EncodeFrames(f: ServerFrames): seq<byte>
    requires ValidBound(f.bound)
  {
    [5, f.chosen] + ((if f.chosen == METHOD_USER_PASS then [f.authVersion, 0] else [])
        + ([5, 0, f.reserved] + EncodeBound(f.bound)))
  }

  // ---------------------------------------------------------------- what the client says

  function Greeting(auth: Auth): seq<byte> {
    if auth.NoAuth? then [5, 1, METHOD_NONE] else [5, 2, METHOD_NONE, METHOD_USER_PASS]
  }

  /** The methods a greeting offers. */
  function Offered(auth: Auth): seq<byte> {
    Greeting(auth)[2..]
  }

  predicate ValidField(f: seq<byte>) {
    0 < |f| <= MAX_FIELD_LEN
  }

  function AuthRequest(auth: Auth): seq<byte>
    requires auth.UserPass? && ValidField(auth.username) && ValidField(auth.password)
  {
    [1, |auth.username|] + auth.username + [|auth.password|] + auth.password
  }

  /** The frames answer what the client offered, and its credentials can be framed if they are asked for. */
  predicate Acceptable(auth: Auth, f: ServerFrames) {
    && ValidBound(f.bound) && f.chosen in Offered(auth)
    && (f.chosen == METHOD_USER_PASS ==> ValidField(auth.username) && ValidField(auth.password))
  }

  /** The address the client makes of a bound address: a name counts as unspecified. */
  function BoundSocketAddr(t: Target): SocketAddr {
    match t
    case Numeric(a) => a
    case Domain(_, port) => SocketAddr(V4([0, 0, 0, 0]), port)
  }

  // ---------------------------------------------------------------- specification on byte streams

  function AfterAuth(s: seq<byte>, auth: Auth): Option<seq<byte>> {
    if |s| < 2 || s[0] != 5 then None
    else if s[1] == METHOD_NONE then Some(s[2..])
    else if s[1] == METHOD_USER_PASS && auth.UserPass? && ValidField(auth.username) && ValidField(auth.password)
            && |s| >= 4 && s[3] == 0 then Some(s[4..])
    else None
  }

  function AfterReply(s: seq<byte>): Option<(Target, seq<byte>)> {
    if |s| < 4 || s[0] != 5 || s[1] != 0 then None else ReadRequestAddr(s[3..])
  }

  function AfterHandshake(s: seq<byte>, auth: Auth): Option<(Target, seq<byte>)> {
    match AfterAuth(s, auth)
    case None => None
    case Some(rest) => AfterReply(rest)
  }

  // ---------------------------------------------------------------- the client

  method BuildAuthRequest(auth: Auth) returns (r: Option<seq<byte>>)
    requires auth.UserPass?
    ensures r.Some? <==> ValidField(auth.username) && ValidField(auth.password)
    ensures r.Some? ==> r.value == AuthRequest(auth)
    ensures r.Some? ==> ReadCredentials(r.value) == Some((Credentials(auth.username, auth.password), []))
  {
    if |auth.username| == 0 || |auth.username| > MAX_FIELD_LEN || |auth.password| == 0
        || |auth.password| > MAX_FIELD_LEN {
      return None;
    }
    var req := [1];
    req := req + [|auth.username| % 0x100];
    req := req + auth.username;
    req := req + [|auth.password| % 0x100];
    req := req + auth.password;
    CredentialsRead(auth, []);
    assert req == AuthRequest(auth) + [];
    return Some(req);
  }

  method NegotiateAuth(stream: TcpStream, auth: Auth) returns (ok: bool)
    modifies stream
    ensures ok <==> AfterAuth(old(stream.unread), auth).Some?
    ensures ok ==> AfterAuth(old(stream.unread), auth) == Some(stream.unread)
    ensures ok ==> stream.written == old(stream.written) + Greeting(auth)
                   + if old(stream.unread)[1] == METHOD_NONE then [] else AuthRequest(auth)
    ensures !([5, 2] <= old(stream.unread)) ==> stream.written == old(stream.written) + Greeting(auth)
  {
    stream.WriteAll(if auth.NoAuth? then [5, 1, METHOD_NONE] else [5, 2, METHOD_NONE, METHOD_USER_PASS]);
    var selection := stream.ReadExact(2);
    if selection.None? || selection.value[0] != 5 {
      return false;
    }
    if selection.value[1] == METHOD_NONE {
      assert stream.written == old(stream.written) + Greeting(auth) + [];
      return true;
    }
    if selection.value[1] != METHOD_USER_PASS || auth.NoAuth? {
      return false;
    }
    var request := BuildAuthRequest(auth);
    if request.None? {
      return false;
    }
    stream.WriteAll(request.value);
    var reply := stream.ReadExact(2);
    if reply.None? || reply.value[1] != 0 {
      return false;
    }
    return true;
  }

  /** Reads what follows a reply header, by address type. */
  method ReadBoundAddr(stream: TcpStream, atyp: byte) returns (r: Option<SocketAddr>)
    modifies stream`unread
    ensures
      var parsed := ReadRequestAddr([atyp] + old(stream.unread));
      && (r.Some? <==> parsed.Some?)
      && (r.Some? ==> r.value == BoundSocketAddr(parsed.value.0) && stream.unread == parsed.value.1)
      && (r.Some? && parsed.value.0.Numeric? ==> r.value == parsed.value.0.addr)
      && (r.Some? && parsed.value.0.Domain? ==> r.value == SocketAddr(V4([0, 0, 0, 0]), parsed.value.0.port))
  {
    ghost var s := [atyp] + stream.unread;
    if atyp == ATYP_V4 {
      var buf := stream.ReadExact(6);
      if buf.None? {
        return None;
      }
      assert s[1..5] == buf.value[..4] && s[5] == buf.value[4] && s[6] == buf.value[5];
      return Some(SocketAddr(V4(buf.value[..4]), Be16At(buf.value, 4)));
    } else if atyp == ATYP_DOMAIN {
      var len := stream.ReadExact(1);
      if len.None? {
        return None;
      }
      var n: nat := len.value[0];
      assert s[1] == n;
      var buf := stream.ReadExact(n + 2);
      if buf.None? {
        return None;
      }
      assert s[2 + n] == buf.value[n] && s[3 + n] == buf.value[n + 1];
      assert stream.unread == s[4 + n..];
      return Some(SocketAddr(V4([0, 0, 0, 0]), Be16At(buf.value, n)));
    } else if atyp == ATYP_V6 {
      var buf := stream.ReadExact(18);
      if buf.None? {
        return None;
      }
      assert s[1..17] == buf.value[..16] && s[17] == buf.value[16] && s[18] == buf.value[17];
      return Some(SocketAddr(V6(buf.value[..16]), Be16At(buf.value, 16)));
    } else {
      return None;
    }
  }

  /** Sends a request and consumes its reply, whose bound address is returned. */
  method RequestAndReply(stream: TcpStream, request: seq<byte>) returns (r: Option<SocketAddr>)
    modifies stream
    ensures
      var parsed := AfterReply(old(stream.unread));
      && (r.Some? <==> parsed.Some?)
      && (r.Some? ==> r.value == BoundSocketAddr(parsed.value.0) && stream.unread == parsed.value.1)
    ensures stream.written == old(stream.written) + request
  {
    ghost var s := stream.unread;
    stream.WriteAll(request);
    var header := stream.ReadExact(4);
    if header.None? || header.value[0] != 5 || header.value[1] != 0 {
      return None;
    }
    assert [header.value[3]] + stream.unread == s[3..];
    r := ReadBoundAddr(stream, header.value[3]);
  }

  /** The whole handshake for a CONNECT tunnel. */
  method ConnectTunnel(stream: TcpStream, auth: Auth, dest: SocketAddr, hostname: Option<seq<byte>>) returns (ok: bool)
    requires ValidIp(dest.ip)
    modifies stream
    ensures ok <==> AfterHandshake(old(stream.unread), auth).Some?
    ensures ok ==> stream.unread == AfterHandshake(old(stream.unread), auth).value.1
    ensures ok ==> stream.written == old(stream.written) + Greeting(auth)
                   + (if old(stream.unread)[1] == METHOD_NONE then [] else AuthRequest(auth))
                   + ([5, 1, 0] + Destination(dest, hostname))
    ensures ok ==>
              && old(stream.written) <= stream.written
              && var heard := ReadClient(stream.written[|old(stream.written)|..], old(stream.unread)[1]);
              && heard.Some? && heard.value.rest == [] && Names(heard.value.target, dest, hostname)
              && heard.value.offered == (if auth.NoAuth? then [0] else [0, 2])
              && heard.value.credentials ==
                   if old(stream.unread)[1] == 2 then Some(Credentials(auth.username, auth.password)) else None
  {
    var agreed := NegotiateAuth(stream, auth);
    if !agreed {
      return false;
    }
    var request := ConnectRequest(dest, hostname);
    var r := RequestAndReply(stream, request);
    ClientWrote(auth, old(stream.unread), dest, hostname, old(stream.written), stream.written);
    return r.Some?;
  }

  lemma ClientWrote(auth: Auth, s: seq<byte>, dest: SocketAddr, hostname: Option<seq<byte>>, before: seq<byte>,
                    after: seq<byte>)
    requires ValidIp(dest.ip) && AfterAuth(s, auth).Some?
    requires after == before + Greeting(auth) + (if s[1] == METHOD_NONE then [] else AuthRequest(auth))
                      + ([5, 1, 0] + Destination(dest, hostname))
    ensures before <= after
    ensures
      var heard := ReadClient(after[|before|..], s[1]);
      && heard.Some? && heard.value.rest == [] && Names(heard.value.target, dest, hostname)
      && heard.value.offered == (if auth.NoAuth? then [0] else [0, 2])
      && heard.value.credentials == if s[1] == 2 then Some(Credentials(auth.username, auth.password)) else None
  {
    assert |s| >= 2 && (s[1] == 0 || s[1] == 2);
    assert s[1] == 2 ==> auth.UserPass? && ValidField(auth.username) && ValidField(auth.password);
    var asked := if s[1] == METHOD_NONE then [] else AuthRequest(auth);
    hide *;
    ClientUnderstood(auth, s[1], dest, hostname);
    AfterThree(before, Greeting(auth), asked, [5, 1, 0] + Destination(dest, hostname));
  }

  lemma AfterThree(before: seq<byte>, a: seq<byte>, b: seq<byte>, c: seq<byte>)
    ensures before <= before + a + b + c && (before + a + b + c)[|before|..] == a + b + c
  {
  }

  // ---------------------------------------------------------------- the handshake consumes exactly the frames

  lemma BoundParses(t: Target, rest: seq<byte>)
    requires ValidBound(t)
    ensures ReadRequestAddr(EncodeBound(t) + rest) == Some((t, rest))
  {
    match t
    case Numeric(a) =>
      NumericParses(a, rest);
      assert EncodeBound(t) == [if a.ip.V4? then ATYP_V4 else ATYP_V6] + a.ip.octets + PutBe16(a.port);
    case Domain(name, port) =>
      DomainParses(name, port, rest);
      assert EncodeBound(t) == [ATYP_DOMAIN] + [|name|] + name + PutBe16(port);
  }

  lemma ParsedBound(s: seq<byte>)
    requires ReadRequestAddr(s).Some?
    ensures
      var (t, rest) := ReadRequestAddr(s).value;
      ValidBound(t) && s == EncodeBound(t) + rest
  {
    if s[0] == ATYP_V4 {
      NumericBound(s, 4);
    } else if s[0] == ATYP_V6 {
      NumericBound(s, 16);
    } else {
      NamedBound(s);
    }
  }

  lemma NumericBound(s: seq<byte>, n: nat)
    requires n == 4 || n == 16
    requires 3 + n <= |s| && s[0] == if n == 4 then ATYP_V4 else ATYP_V6
    ensures
      var ip := if n == 4 then V4(s[1..1 + n]) else V6(s[1..1 + n]);
      s == EncodeBound(Numeric(SocketAddr(ip, Be16At(s, 1 + n)))) + s[3 + n..]
  {
    BePort(s, 1 + n);
    hide PutBe16, Be16At;
    assert s == [s[0]] + (s[1..1 + n] + s[1 + n..3 + n]) + s[3 + n..];
  }

  lemma NamedBound(s: seq<byte>)
    requires |s| >= 2 && s[0] == ATYP_DOMAIN && 4 + s[1] as int <= |s|
    ensures
      var n: nat := s[1];
      s == EncodeBound(Domain(s[2..2 + n], Be16At(s, 2 + n))) + s[4 + n..]
  {
    var n: nat := s[1];
    BePort(s, 2 + n);
    hide PutBe16, Be16At;
    assert s == [s[0]] + ([s[1]] + (s[2..2 + n] + s[2 + n..4 + n])) + s[4 + n..];
  }

  lemma BePort(s: seq<byte>, i: nat)
    requires i + 2 <= |s|
    ensures PutBe16(Be16At(s, i)) == s[i..i + 2]
  {
  }

  /** A server that answers in acceptable frames is understood, and its payload is left unread. */
  lemma FramesUnderstood(auth: Auth, f: ServerFrames, payload: seq<byte>)
    requires Acceptable(auth, f)
    ensures AfterHandshake(EncodeFrames(f) + payload, auth) == Some((f.bound, payload))
  {
    assert ValidBound(f.bound);
    hide *;
    SelectionUnderstood(auth, f, EncodeBound(f.bound), payload);
    ReplyUnderstood(f, payload);
    HandshakeIsAuthThenReply(EncodeFrames(f) + payload, auth);
  }

  lemma HandshakeIsAuthThenReply(s: seq<byte>, auth: Auth)
    ensures AfterAuth(s, auth).Some? ==> AfterHandshake(s, auth) == AfterReply(AfterAuth(s, auth).value)
  {
    hide AfterAuth, AfterReply;
  }

  lemma ReplyUnderstood(f: ServerFrames, payload: seq<byte>)
    requires ValidBound(f.bound)
    ensures AfterReply([5, 0, f.reserved] + EncodeBound(f.bound) + payload) == Some((f.bound, payload))
  {
    BoundParses(f.bound, payload);
    var bound := EncodeBound(f.bound);
    assert |bound| > 0;
    hide EncodeBound, ReadRequestAddr, ValidBound;
    AfterHeader(f.reserved, bound, payload);
  }

  lemma AfterHeader(reserved: byte, bound: seq<byte>, payload: seq<byte>)
    requires |bound| > 0
    ensures
      var reply := [5, 0, reserved] + bound + payload;
      |reply| >= 4 && reply[0] == 5 && reply[1] == 0 && reply[3..] == bound + payload
  {
  }

  lemma SelectionUnderstood(auth: Auth, f: ServerFrames, bound: seq<byte>, payload: seq<byte>)
    requires Acceptable(auth, f) && bound == EncodeBound(f.bound)
    ensures AfterAuth(EncodeFrames(f) + payload, auth) == Some([5, 0, f.reserved] + bound + payload)
  {
    hide EncodeBound, ValidBound;
    var s := EncodeFrames(f) + payload;
    if f.chosen == METHOD_USER_PASS {
      assert s == [5, f.chosen, f.authVersion, 0] + ([5, 0, f.reserved] + bound + payload);
    } else {
      assert f.chosen == METHOD_NONE;
      assert s == [5, f.chosen] + ([5, 0, f.reserved] + bound + payload);
    }
  }

  /** A handshake that succeeds has consumed exactly such frames: a method that was offered, and nothing more. */
  lemma SuccessMeansFrames(auth: Auth, s: seq<byte>) returns (f: ServerFrames)
    requires AfterHandshake(s, auth).Some?
    ensures Acceptable(auth, f) && f.bound == AfterHandshake(s, auth).value.0
    ensures s == EncodeFrames(f) + AfterHandshake(s, auth).value.1
  {
    hide ReadRequestAddr, EncodeBound, ValidBound;
    var reply := AfterAuth(s, auth).value;
    var (bound, rest) := AfterReply(reply).value;
    f := ServerFrames(s[1], if s[1] == METHOD_USER_PASS then s[2] else 0, reply[2], bound);
    ParsedBound(reply[3..]);
    assert reply == [5, 0, f.reserved] + (EncodeBound(bound) + rest);
    SelectionSplit(auth, s);
    FramesJoin(f, rest);
  }

  lemma SelectionSplit(auth: Auth, s: seq<byte>)
    requires AfterAuth(s, auth).Some?
    ensures s[1] in Offered(auth)
    ensures s[1] == METHOD_USER_PASS ==> ValidField(auth.username) && ValidField(auth.password)
    ensures s == [5, s[1]] + (if s[1] == METHOD_USER_PASS then [s[2], 0] else []) + AfterAuth(s, auth).value
  {
    if s[1] == METHOD_USER_PASS {
      assert Offered(auth)[1] == METHOD_USER_PASS;
    } else {
      assert Offered(auth)[0] == METHOD_NONE;
    }
  }

  lemma FramesJoin(f: ServerFrames, rest: seq<byte>)
    requires ValidBound(f.bound)
    ensures EncodeFrames(f) + rest ==
            [5, f.chosen] + (if f.chosen == METHOD_USER_PASS then [f.authVersion, 0] else [])
                + ([5, 0, f.reserved] + (EncodeBound(f.bound) + rest))
  {
    hide EncodeBound, ValidBound;
  }

  /** The handshake succeeds on a byte stream exactly when it begins with frames answering the client's offer. */
  lemma HandshakeExact(auth: Auth, s: seq<byte>, payload: seq<byte>)
    ensures (AfterHandshake(s, auth).Some? && AfterHandshake(s, auth).value.1 == payload)
            <==> exists f :: Acceptable(auth, f) && s == EncodeFrames(f) + payload
  {
    if AfterHandshake(s, auth).Some? && AfterHandshake(s, auth).value.1 == payload {
      var f := SuccessMeansFrames(auth, s);
    }
    forall f | Acceptable(auth, f) && s == EncodeFrames(f) + payload
      ensures AfterHandshake(s, auth) == Some((f.bound, payload))
    {
      FramesUnderstood(auth, f, payload);
    }
  }

  // ---------------------------------------------------------------- what the server reads

  /** Section 3 of RFC 1928: version, number of methods, methods. */
  function ReadGreeting(s: seq<byte>): Option<(seq<byte>, seq<byte>)> {
    if |s| < 2 || s[0] != 5 || |s| < 2 + s[1] as int then None else Some((s[2..2 + s[1]], s[2 + s[1] as int..]))
  }

  datatype Credentials = Credentials(username: seq<byte>, password: seq<byte>)

  /** Section 2 of RFC 1929: version, length of the user name, user name, length of the password, password. */
  function ReadCredentials(s: seq<byte>): Option<(Credentials, seq<byte>)> {
    if |s| < 2 || s[0] != 1 || |s| < 3 + s[1] as int then None
    else
      var n: nat := s[1];
      var m: nat := s[2 + n];
      if |s| < 3 + n + m then None else Some((Credentials(s[2..2 + n], s[3 + n..3 + n + m]), s[3 + n + m..]))
  }

  /** Section 4 of RFC 1928: version, the CONNECT command, a reserved byte, and the address. */
  function ReadConnect(s: seq<byte>): Option<(Target, seq<byte>)> {
    if |s| < 3 || s[0] != 5 || s[1] != 1 || s[2] != 0 then None else ReadRequestAddr(s[3..])
  }

  /** What a server that chooses `chosen` learns from everything a client writes. */
  datatype Heard = Heard(offered: seq<byte>, credentials: Option<Credentials>, target: Target, rest: seq<byte>)

  function ReadClient(s: seq<byte>, chosen: byte): Option<Heard> {
    match ReadGreeting(s)
    case None => None
    case Some((offered, after)) =>
      if chosen == 2 then
        match ReadCredentials(after)
        case None => None
        case Some((credentials, request)) =>
          (match ReadConnect(request)
           case None => None
           case Some((target, rest)) => Some(Heard(offered, Some(credentials), target, rest)))
      else
        match ReadConnect(after)
        case None => None
        case Some((target, rest)) => Some(Heard(offered, None, target, rest))
  }

  lemma GreetingRead(auth: Auth, rest: seq<byte>)
    ensures ReadGreeting(Greeting(auth) + rest) == Some((if auth.NoAuth? then [0] else [0, 2], rest))
  {
    var s := Greeting(auth) + rest;
    assert s[2..2 + s[1]] == if auth.NoAuth? then [0] else [0, 2];
    assert s[2 + s[1] as int..] == rest;
  }

  lemma CredentialsRead(auth: Auth, rest: seq<byte>)
    requires auth.UserPass? && ValidField(auth.username) && ValidField(auth.password)
    ensures ReadCredentials(AuthRequest(auth) + rest) == Some((Credentials(auth.username, auth.password), rest))
  {
    var user, pass := auth.username, auth.password;
    var s := AuthRequest(auth) + rest;
    assert s[2..2 + |user|] == user;
    assert s[2 + |user|] == |pass|;
    assert s[3 + |user|..3 + |user| + |pass|] == pass;
    assert s[3 + |user| + |pass|..] == rest;
  }

  lemma ConnectRead(dest: SocketAddr, hostname: Option<seq<byte>>)
    requires ValidIp(dest.ip)
    ensures ReadConnect([5, 1, 0] + Destination(dest, hostname)) == Some((TargetOf(dest, hostname), []))
  {
    var d := Destination(dest, hostname);
    RequestRoundTrip(dest, hostname, []);
    hide Destination, ReadRequestAddr, TargetOf;
    assert ([5, 1, 0] + d)[3..] == d == d + [];
  }

  /** The destination as the server should learn it: the host name when it is usable, else the address. */
  ghost predicate Names(target: Target, dest: SocketAddr, hostname: Option<seq<byte>>) {
    target == if hostname.Some? && DottedLabels(hostname.value) then Domain(hostname.value, dest.port)
              else Numeric(dest)
  }

  /** Everything a client writes in a successful handshake is understood: no more than what it offers, exactly its
      credentials if they were asked for, the destination, and nothing after it. */
  lemma ClientUnderstood(auth: Auth, chosen: byte, dest: SocketAddr, hostname: Option<seq<byte>>)
    requires ValidIp(dest.ip) && (chosen == 0 || chosen == 2)
    requires chosen == 2 ==> auth.UserPass? && ValidField(auth.username) && ValidField(auth.password)
    ensures
      var request := [5, 1, 0] + Destination(dest, hostname);
      var written := Greeting(auth) + (if chosen == 0 then [] else AuthRequest(auth)) + request;
      var heard := ReadClient(written, chosen);
      && heard.Some? && heard.value.rest == []
      && heard.value.offered == (if auth.NoAuth? then [0] else [0, 2])
      && heard.value.credentials == (if chosen == 2 then Some(Credentials(auth.username, auth.password)) else None)
      && Names(heard.value.target, dest, hostname)
  {
    var request := [5, 1, 0] + Destination(dest, hostname);
    var offered := if auth.NoAuth? then [0] else [0, 2];
    assert Names(TargetOf(dest, hostname), dest, hostname) by { TargetExactly(dest, hostname); }
    hide *;
    ConnectRead(dest, hostname);
    if chosen == 2 {
      Regroup(Greeting(auth), AuthRequest(auth), request);
      GreetingRead(auth, AuthRequest(auth) + request);
      CredentialsRead(auth, request);
      HeardWith(Greeting(auth) + AuthRequest(auth) + request, offered, AuthRequest(auth) + request,
                Credentials(auth.username, auth.password), request, TargetOf(dest, hostname));
    } else {
      assert Greeting(auth) + [] + request == Greeting(auth) + request;
      GreetingRead(auth, request);
      HeardWithout(Greeting(auth) + request, offered, request, TargetOf(dest, hostname));
    }
  }

  lemma HeardWithout(s: seq<byte>, offered: seq<byte>, request: seq<byte>, target: Target)
    requires ReadGreeting(s) == Some((offered, request)) && ReadConnect(request) == Some((target, []))
    ensures ReadClient(s, 0) == Some(Heard(offered, None, target, []))
  {
  }

  lemma HeardWith(s: seq<byte>, offered: seq<byte>, after: seq<byte>, credentials: Credentials, request: seq<byte>,
                  target: Target)
    requires ReadGreeting(s) == Some((offered, after)) && ReadCredentials(after) == Some((credentials, request))
    requires ReadConnect(request) == Some((target, []))
    ensures ReadClient(s, 2) == Some(Heard(offered, Some(credentials), target, []))
  {
  }
}
