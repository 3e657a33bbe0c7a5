/** The HTTP CONNECT handshake, whose response arrives in arbitrary pieces (src/tunnel.rs). */
module HttpConnect {
  import opened Bytes
  import opened Decimal
  import opened TcpStream
  import Utf8

  const MAX_RESPONSE_SIZE: nat := 8192
  const CR: byte := 0x0D
  const LF: byte := 0x0A
  const SP: byte := 0x20

  // ---------------------------------------------------------------- specification

  /** A blank line begins at `i`. */
  predicate EndsHeader(data: seq<byte>, i: nat) {
    i + 4 <= |data| && data[i] == CR && data[i + 1] == LF && data[i + 2] == CR && data[i + 3] == LF
  }

  /** The offset just past the first blank line at or after `i`. */
  function FindHeaderEndFrom(data: seq<byte>, i: nat): (r: Option<nat>)
    decreases |data| - i
    ensures r.Some? ==> r.value >= i + 4 && EndsHeader(data, r.value - 4)
    ensures forall j :: i <= j && (r.Some? ==> j < r.value - 4) ==> !EndsHeader(data, j)
  {
    if i + 4 > |data| then None
    else if EndsHeader(data, i) then Some(i + 4)
    else FindHeaderEndFrom(data, i + 1)
  }

  function FindHeaderEnd(data: seq<byte>): (r: Option<nat>)
    ensures r.Some? ==> 4 <= r.value <= |data| && EndsHeader(data, r.value - 4)
    ensures forall j: nat :: (r.Some? ==> j < r.value - 4) ==> !EndsHeader(data, j)
  {
    FindHeaderEndFrom(data, 0)
  }

  /** The text before the first line break, without a carriage return at its end. */
  function FirstLine(text: seq<byte>): seq<byte> {
    var line := text[..IndexOf(text, LF)];
    if line != [] && line[|line| - 1] == CR then line[..|line| - 1] else line
  }

  /** The status line has a second field, and it reads 200. */
  predicate StatusIs200(header: seq<byte>) {
    var line := FirstLine(header);
    var i := IndexOf(line, SP);
    i < |line| && var rest := line[i + 1..]; ParseU16(rest[..IndexOf(rest, SP)]) == Some(200)
  }

  predicate Accepts(header: seq<byte>) {
    Utf8.Valid(header) && StatusIs200(header)
  }

  datatype Outcome = Tunnel(leftover: seq<byte>) | Refused | TooLarge | Closed

  /** The end of the response header, if it comes within the size limit. */
  function HeaderWithinLimit(stream: seq<byte>): (r: Option<nat>)
    ensures r.Some? ==> 4 <= r.value <= |stream| && r.value <= MAX_RESPONSE_SIZE
  {
    FindHeaderEnd(stream[..Min(|stream|, MAX_RESPONSE_SIZE)])
  }

  /** What the handshake comes to, as a matter of the bytes alone; `rest` is what is left unread. */
  ghost predicate ConnectResult(stream: seq<byte>, r: Outcome, rest: seq<byte>) {
    match HeaderWithinLimit(stream)
    case Some(p) => if Accepts(stream[..p]) then r.Tunnel? && r.leftover + rest == stream[p..] else r == Refused
    case None => r == if |stream| >= MAX_RESPONSE_SIZE then TooLarge else Closed
  }

  // ---------------------------------------------------------------- the handshake

  /** The response is read in pieces until its header is complete. Neither the verdict nor what the
      tunnel goes on to deliver depends on how the bytes were cut up. */
  method HandshakeHttpConnect(stream: TcpStream, request: seq<byte>) returns (r: Outcome)
    modifies stream
    ensures ConnectResult(old(stream.unread), r, stream.unread)
    ensures stream.written == old(stream.written) + request
  {
    hide FindHeaderEnd, StatusIs200, Utf8.Valid;
    ghost var incoming := stream.unread;
    stream.WriteAll(request);
    var buf := new byte[MAX_RESPONSE_SIZE](i => 0);
    var filled: nat := 0;
    NothingRead(incoming);
    while true
      invariant filled <= MAX_RESPONSE_SIZE && filled <= |incoming|
      invariant buf[..filled] == incoming[..filled] && stream.unread == incoming[filled..]
      invariant FindHeaderEnd(incoming[..filled]).None?
      invariant stream.written == old(stream.written) + request
      decreases |stream.unread|
    {
      if filled >= MAX_RESPONSE_SIZE {
        return TooLarge;
      }
      var n := stream.Read(buf, filled);
      if n == 0 {
        assert filled == |incoming|;
        return Closed;
      }
      PiecesJoin(incoming, filled, n);
      filled := filled + n;
      var view := buf[..filled];
      var pos := FindHeaderEnd(view);
      if pos.Some? {
        HeaderEndInPrefix(incoming, filled);
        LeftoverJoins(incoming, filled, pos.value);
        if !Utf8.Valid(view[..pos.value]) || !StatusIs200(view[..pos.value]) {
          return Refused;
        }
        return Tunnel(view[pos.value..]);
      }
    }
  }

  lemma NothingRead(incoming: seq<byte>)
    ensures FindHeaderEnd(incoming[..0]).None? && incoming[0..] == incoming
  {
  }

  lemma PiecesJoin(incoming: seq<byte>, filled: nat, n: nat)
    requires filled + n <= |incoming|
    ensures incoming[..filled] + incoming[filled..][..n] == incoming[..filled + n]
    ensures incoming[filled..][n..] == incoming[filled + n..]
  {
  }

  lemma LeftoverJoins(incoming: seq<byte>, filled: nat, p: nat)
    requires p <= filled <= |incoming|
    ensures incoming[..filled][..p] == incoming[..p]
    ensures incoming[..filled][p..] + incoming[filled..] == incoming[p..]
  {
  }

  /** A blank line found in a prefix is the first one of the whole, size limit included. */
  lemma HeaderEndInPrefix(stream: seq<byte>, n: nat)
    requires n <= |stream| && n <= MAX_RESPONSE_SIZE && FindHeaderEnd(stream[..n]).Some?
    ensures HeaderWithinLimit(stream) == FindHeaderEnd(stream[..n])
  {
    var short, long := stream[..n], stream[..Min(|stream|, MAX_RESPONSE_SIZE)];
    var p := FindHeaderEnd(short).value;
    assert EndsHeader(long, p - 4);
    forall j: nat | j < p - 4
      ensures !EndsHeader(long, j)
    {
      assert !EndsHeader(short, j);
    }
    var q := FindHeaderEnd(long).value;
    assert !EndsHeader(short, q - 4) || q == p;
  }

  // ---------------------------------------------------------------- what the verdict means

  /** The limit matters only for where the first blank line ends. */
  lemma WithinLimit(stream: seq<byte>, p: nat)
    ensures HeaderWithinLimit(stream) == Some(p) <==> FindHeaderEnd(stream) == Some(p) && p <= MAX_RESPONSE_SIZE
  {
    hide FindHeaderEnd, EndsHeader;
    var n := Min(|stream|, MAX_RESPONSE_SIZE);
    var short := stream[..n];
    assert short[..n] == stream[..n];
    forall i: nat | i + 4 <= n
      ensures EndsHeader(short, i) == EndsHeader(stream, i)
    {
      PrefixHeader(short, stream, n, i);
    }
  }

  lemma PrefixHeader(a: seq<byte>, b: seq<byte>, n: nat, i: nat)
    requires n <= |a| && n <= |b| && a[..n] == b[..n] && i + 4 <= n
    ensures EndsHeader(a, i) == EndsHeader(b, i)
  {
    assert forall j :: 0 <= j < n ==> a[j] == a[..n][j] && b[j] == b[..n][j];
  }

  /** Only the bytes up to the blank line matter: what follows them changes nothing but the leftover. */
  lemma VerdictFromHeaderAlone(s1: seq<byte>, s2: seq<byte>, p: nat, r1: Outcome, r2: Outcome, rest1: seq<byte>,
                               rest2: seq<byte>)
    requires FindHeaderEnd(s1) == Some(p) && p <= MAX_RESPONSE_SIZE && p <= |s2| && s2[..p] == s1[..p]
    requires ConnectResult(s1, r1, rest1) && ConnectResult(s2, r2, rest2)
    ensures r1.Tunnel? <==> r2.Tunnel?
    ensures r1.Tunnel? <==> Accepts(s1[..p])
    ensures r1.Tunnel? ==> r1.leftover + rest1 == s1[p..] && r2.leftover + rest2 == s2[p..]
  {
    hide FindHeaderEnd, Accepts, EndsHeader;
    SameHeaderEnd(s1, s2, p);
    WithinLimit(s1, p);
    WithinLimit(s2, p);
  }

  lemma SameHeaderEnd(s1: seq<byte>, s2: seq<byte>, p: nat)
    requires FindHeaderEnd(s1) == Some(p) && p <= |s2| && s2[..p] == s1[..p]
    ensures FindHeaderEnd(s2) == Some(p)
  {
    hide FindHeaderEnd, EndsHeader;
    forall i: nat | i + 4 <= p
      ensures EndsHeader(s1, i) == EndsHeader(s2, i)
    {
      PrefixHeader(s1, s2, p, i);
    }
  }

  /** Section 3.1.2 of RFC 7230, with the reason phrase and the space before it optional. */
  function StatusLine(version: seq<byte>, code: seq<byte>, reason: Option<seq<byte>>): seq<byte> {
    version + ([SP] + (code + if reason.Some? then [SP] + reason.value else []))
  }

  predicate OneLine(version: seq<byte>, code: seq<byte>, reason: Option<seq<byte>>) {
    && SP !in version && LF !in version && SP !in code && LF !in code
    && (reason.Some? ==> LF !in reason.value)
  }

  /** A line ends in CR LF, or in a bare LF that has no CR before it. */
  predicate Breaks(line: seq<byte>, end: seq<byte>) {
    end == [CR, LF] || (end == [LF] && (line == [] || line[|line| - 1] != CR))
  }

  lemma FirstLineRead(line: seq<byte>, end: seq<byte>, fields: seq<byte>)
    requires LF !in line && Breaks(line, end)
    ensures FirstLine(line + end + fields) == line
  {
    var text := line + end[..|end| - 1];
    assert line + end + fields == text + [LF] + fields;
    IndexOfFirst(text, LF, fields);
    assert (text + [LF] + fields)[..|text|] == text;
    assert |end| == 2 ==> text == line + [CR];
    assert |end| == 1 ==> text == line;
  }

  /** A status line is accepted exactly when its code reads 200. */
  lemma StatusLineAccepted(version: seq<byte>, code: seq<byte>, reason: Option<seq<byte>>, end: seq<byte>,
                           fields: seq<byte>)
    requires OneLine(version, code, reason) && Breaks(StatusLine(version, code, reason), end)
    ensures StatusIs200(StatusLine(version, code, reason) + end + fields) <==> Reads(code, 200)
  {
    var line := StatusLine(version, code, reason);
    var after := if reason.Some? then [SP] + reason.value else [];
    assert LF !in line;
    FirstLineRead(line, end, fields);
    assert line == version + [SP] + (code + after);
    IndexOfFirst(version, SP, code + after);
    assert line[|version| + 1..] == code + after;
    if reason.Some? {
      assert code + after == code + [SP] + reason.value;
      IndexOfFirst(code, SP, reason.value);
    } else {
      assert code + after == code;
      IndexOfNone(code, SP);
    }
    assert (code + after)[..|code|] == code;
    ParsesExactly(code, 200);
  }

  lemma {:induction false} IndexOfNone(s: seq<byte>, b: byte)
    requires b !in s
    ensures IndexOf(s, b) == |s|
  {
  }

  /** From the stream to the verdict: a response whose header is a status line and fields up to its first blank line,
      within 8192 bytes, opens a tunnel exactly when it is UTF-8 and its code is 200 in decimal; the payload is kept.
      Otherwise it is refused. */
  lemma ResponseVerdict(version: seq<byte>, code: seq<byte>, reason: Option<seq<byte>>, end: seq<byte>,
                        fields: seq<byte>, payload: seq<byte>, r: Outcome, rest: seq<byte>)
    requires OneLine(version, code, reason) && Breaks(StatusLine(version, code, reason), end)
    requires
      var header := StatusLine(version, code, reason) + end + fields;
      FindHeaderEnd(header) == Some(|header|) && |header| <= 8192 && ConnectResult(header + payload, r, rest)
    ensures
      var header := StatusLine(version, code, reason) + end + fields;
      if Utf8.Valid(header) && Reads(code, 200) then r.Tunnel? && r.leftover + rest == payload else r == Refused
  {
    StatusLineAccepted(version, code, reason, end, fields);
    var header := StatusLine(version, code, reason) + end + fields;
    hide FindHeaderEnd, EndsHeader, StatusIs200, StatusLine, Reads, Breaks, OneLine, Utf8.Valid;
    assert (header + payload)[..|header|] == header && (header + payload)[|header|..] == payload;
    SameHeaderEnd(header, header + payload, |header|);
    WithinLimit(header + payload, |header|);
  }

  /** A first line without a space is refused. */
  lemma NoCodeRefused(line: seq<byte>, end: seq<byte>, fields: seq<byte>, payload: seq<byte>, r: Outcome,
                      rest: seq<byte>)
    requires SP !in line && LF !in line && Breaks(line, end)
    requires
      var header := line + end + fields;
      FindHeaderEnd(header) == Some(|header|) && |header| <= 8192 && ConnectResult(header + payload, r, rest)
    ensures r == Refused
  {
    FirstLineRead(line, end, fields);
    IndexOfNone(line, SP);
    var header := line + end + fields;
    hide FindHeaderEnd, EndsHeader, FirstLine, Utf8.Valid, Breaks;
    assert (header + payload)[..|header|] == header;
    SameHeaderEnd(header, header + payload, |header|);
    WithinLimit(header + payload, |header|);
  }

  /** Without a blank line within 8192 bytes there is no tunnel: too large, or closed before it came. */
  lemma NoHeaderNoTunnel(stream: seq<byte>, r: Outcome, rest: seq<byte>)
    requires ConnectResult(stream, r, rest) && (forall i: nat :: i + 4 <= 8192 ==> !EndsHeader(stream, i))
    ensures r == if |stream| >= 8192 then TooLarge else Closed
  {
    hide FindHeaderEnd, EndsHeader;
    if HeaderWithinLimit(stream).Some? {
      WithinLimit(stream, HeaderWithinLimit(stream).value);
    }
  }
}
