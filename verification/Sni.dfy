/** SNI extraction from a possibly truncated ClientHello (src/sni.rs). */
module Sni {
  import opened Bytes
  import Utf8

  const MAX_CLIENT_HELLO: nat := 4096
  const MAX_PEEK_ATTEMPTS: nat := 20
  const RECORD_HANDSHAKE: byte := 0x16
  const CLIENT_HELLO: byte := 1
  const EXT_SERVER_NAME: u16 := 0
  const HOST_NAME: byte := 0

  // ---------------------------------------------------------------- specification

  /** The first host_name entry that ends by `end`; entries of other types are stepped over. */
  function NameFrom(data: seq<byte>, pos: nat, end: nat): Option<seq<byte>>
    requires end <= |data|
    decreases end - pos
  {
    if pos + 3 > end then None
    else
      var len: nat := Be16At(data, pos + 1);
      if data[pos] == HOST_NAME && pos + 3 + len <= end then
        var name := data[pos + 3..pos + 3 + len];
        if Utf8.Valid(name) then Some(name) else None
      else NameFrom(data, pos + 3 + len, end)
  }

  function SniExtension(data: seq<byte>): Option<seq<byte>> {
    if |data| < 2 then None
    else NameFrom(data, 2, 2 + Min(Be16At(data, 0), |data| - 2))
  }

  /** The name in the first server_name extension between `pos` and `end`. */
  function ExtensionFrom(data: seq<byte>, pos: nat, end: nat): Option<seq<byte>>
    requires end <= |data|
    decreases end - pos
  {
    if pos + 4 > end then None
    else
      var len: nat := Be16At(data, pos + 2);
      if Be16At(data, pos) == EXT_SERVER_NAME then SniExtension(data[pos + 4..pos + 4 + Min(len, end - (pos + 4))])
      else ExtensionFrom(data, pos + 4 + len, end)
  }

  /** Where the buffered part of the first record ends. */
  function RecordEnd(data: seq<byte>): (end: nat)
    requires |data| >= 5
    ensures 5 <= end <= |data|
  {
    5 + Min(Be16At(data, 3), |data| - 5)
  }

  /** The two length-prefixed fields and the one before them, each skipped when its length is readable before `end`. */
  function AfterSessionId(data: seq<byte>, end: nat): Option<nat>
    requires end <= |data|
  {
    if 44 > end then None else Some(44 + data[43] as int)
  }

  function AfterCipherSuites(data: seq<byte>, end: nat): Option<nat>
    requires end <= |data|
  {
    match AfterSessionId(data, end)
    case None => None
    case Some(pos) => if pos + 2 > end then None else Some(pos + 2 + Be16At(data, pos) as int)
  }

  function AfterCompression(data: seq<byte>, end: nat): Option<nat>
    requires end <= |data|
  {
    match AfterCipherSuites(data, end)
    case None => None
    case Some(pos) => if pos + 1 > end then None else Some(pos + 1 + data[pos] as int)
  }

  predicate IsClientHello(data: seq<byte>, end: nat)
    requires end <= |data|
  {
    9 <= end && data[0] == RECORD_HANDSHAKE && data[5] == CLIENT_HELLO && 43 <= end
  }

  function SniOf(data: seq<byte>): Option<seq<byte>> {
    if |data| < 5 || !IsClientHello(data, RecordEnd(data)) then None
    else
      var end := RecordEnd(data);
      match AfterCompression(data, end)
      case None => None
      case Some(pos) =>
        if pos + 2 > end then None
        else ExtensionFrom(data, pos + 2, pos + 2 + Min(Be16At(data, pos), end - (pos + 2)))
  }

  // ---------------------------------------------------------------- the parsers

  method ParseSniExtension(data: seq<byte>) returns (r: Option<seq<byte>>)
    ensures r == SniExtension(data)
  {
    if |data| < 2 {
      return None;
    }
    var listLen := Be16At(data, 0);
    var pos: nat := 2;
    var end := pos + Min(listLen, |data| - pos);
    while pos + 3 <= end
      invariant SniExtension(data) == NameFrom(data, pos, end)
      decreases end - pos
    {
      var nameType := data[pos];
      var nameLen: nat := Be16At(data, pos + 1);
      pos := pos + 3;
      if nameType == HOST_NAME && pos + nameLen <= end {
        var name := data[pos..pos + nameLen];
        return if Utf8.Valid(name) then Some(name) else None;
      }
      pos := pos + nameLen;
    }
    return None;
  }

  /** What the checks before the extensions come to. */
  lemma SniOfCases(data: seq<byte>)
    ensures |data| < 5 ==> SniOf(data) == None
    ensures |data| >= 5 && !IsClientHello(data, RecordEnd(data)) ==> SniOf(data) == None
    ensures |data| >= 5 && AfterCompression(data, RecordEnd(data)) == None ==> SniOf(data) == None
    ensures |data| >= 5 && IsClientHello(data, RecordEnd(data)) && AfterCompression(data, RecordEnd(data)).Some? ==>
              var end, pos := RecordEnd(data), AfterCompression(data, RecordEnd(data)).value;
              SniOf(data) ==
              if pos + 2 > end then None
              else ExtensionFrom(data, pos + 2, pos + 2 + Min(Be16At(data, pos), end - (pos + 2)))
  {
    hide IsClientHello, AfterCompression, ExtensionFrom;
  }

  method ParseSniFromClientHello(data: seq<byte>) returns (r: Option<seq<byte>>)
    ensures r == SniOf(data)
  {
    hide SniOf, ExtensionFrom, Be16At;
    SniOfCases(data);
    var pos: nat := 0;
    if |data| < 5 {
      return None;
    }
    if data[pos] != RECORD_HANDSHAKE {
      return None;
    }
    pos := pos + 3;
    var recordLen := Be16At(data, pos);
    pos := pos + 2;
    var recordEnd := pos + Min(recordLen, |data| - pos);
    if pos + 4 > recordEnd {
      return None;
    }
    if data[pos] != CLIENT_HELLO {
      return None;
    }
    pos := pos + 4;
    if pos + 34 > recordEnd {
      return None;
    }
    pos := pos + 34;
    if pos + 1 > recordEnd {
      return None;
    }
    pos := pos + 1 + data[pos] as int;
    assert AfterSessionId(data, recordEnd) == Some(pos);
    if pos + 2 > recordEnd {
      return None;
    }
    pos := pos + 2 + Be16At(data, pos) as int;
    assert AfterCipherSuites(data, recordEnd) == Some(pos);
    if pos + 1 > recordEnd {
      return None;
    }
    pos := pos + 1 + data[pos] as int;
    assert AfterCompression(data, recordEnd) == Some(pos);
    if pos + 2 > recordEnd {
      return None;
    }
    var extensionsLen := Be16At(data, pos);
    pos := pos + 2;
    r := ParseExtensions(data, pos, pos + Min(extensionsLen, recordEnd - pos));
  }

  /** The loop over the extensions. */
  method ParseExtensions(data: seq<byte>, start: nat, extensionsEnd: nat) returns (r: Option<seq<byte>>)
    requires extensionsEnd <= |data|
    ensures r == ExtensionFrom(data, start, extensionsEnd)
  {
    hide Be16At, SniExtension;
    var pos := start;
    while pos + 4 <= extensionsEnd
      invariant ExtensionFrom(data, start, extensionsEnd) == ExtensionFrom(data, pos, extensionsEnd)
      decreases extensionsEnd - pos
    {
      var extType := Be16At(data, pos);
      var extLen: nat := Be16At(data, pos + 2);
      pos := pos + 4;
      if extType == EXT_SERVER_NAME {
        r := ParseSniExtension(data[pos..pos + Min(extLen, extensionsEnd - pos)]);
        return;
      }
      pos := pos + extLen;
    }
    return None;
  }

  /** A prefix after which looking again cannot help: closed, not TLS, or the first record is complete up to the cap. */
  predicate Conclusive(seen: seq<byte>) {
    || seen == []
    || seen[0] != RECORD_HANDSHAKE
    || (|seen| >= 5 && |seen| >= Min(5 + Be16At(seen, 3) as int, MAX_CLIENT_HELLO))
  }

  /** The re-peek loop over what successive peeks find buffered, one number of bytes per attempt. */
  method ExtractSni(stream: seq<byte>, arrivals: seq<nat>) returns (r: Option<seq<byte>>, attempts: nat)
    requires |arrivals| == MAX_PEEK_ATTEMPTS
    requires forall k :: 0 <= k < |arrivals| ==> arrivals[k] <= |stream| && arrivals[k] <= MAX_CLIENT_HELLO
    ensures attempts < MAX_PEEK_ATTEMPTS
    ensures r == SniOf(stream[..arrivals[attempts]])
    ensures Conclusive(stream[..arrivals[attempts]]) || attempts == 19
    ensures forall k :: 0 <= k < attempts ==> !Conclusive(stream[..arrivals[k]])
  {
    var n := arrivals[0];
    attempts := 0;
    while true
      invariant attempts < MAX_PEEK_ATTEMPTS && n == arrivals[attempts]
      invariant forall k :: 0 <= k < attempts ==> !Conclusive(stream[..arrivals[k]])
      decreases MAX_PEEK_ATTEMPTS - attempts
    {
      var buf := stream[..n];
      if n == 0 || buf[0] != RECORD_HANDSHAKE {
        return None, attempts;
      }
      if n >= 5 {
        var recordLen: nat := Be16At(buf, 3);
        if n >= Min(5 + recordLen, MAX_CLIENT_HELLO) {
          break;
        }
      }
      if attempts + 1 >= MAX_PEEK_ATTEMPTS {
        break;
      }
      attempts := attempts + 1;
      n := arrivals[attempts];
    }
    r := ParseSniFromClientHello(stream[..n]);
  }

  // ---------------------------------------------------------------- more data never changes an answer

  lemma {:induction false} NameStable(a: seq<byte>, b: seq<byte>, pos: nat, end: nat, later: nat)
    requires a <= b && end <= |a| && end <= later <= |b|
    ensures NameFrom(a, pos, end).Some? ==> NameFrom(b, pos, later) == NameFrom(a, pos, end)
    decreases end - pos
  {
    if pos + 3 <= end {
      var len: nat := Be16At(a, pos + 1);
      assert Be16At(b, pos + 1) == len && b[pos] == a[pos];
      hide Be16At, Utf8.Valid;
      if a[pos] == HOST_NAME && pos + 3 + len <= end {
        assert b[pos + 3..pos + 3 + len] == a[pos + 3..pos + 3 + len];
      } else {
        if pos + 3 + len > end {
          NamesEnd(a, pos + 3 + len, end);
        } else {
          NameStable(a, b, pos + 3 + len, end, later);
        }
      }
    }
  }

  lemma NamesEnd(data: seq<byte>, pos: nat, end: nat)
    requires end <= |data| && pos > end
    ensures NameFrom(data, pos, end) == None
  {
  }

  lemma SniExtensionStable(a: seq<byte>, b: seq<byte>)
    requires a <= b && SniExtension(a).Some?
    ensures SniExtension(b) == SniExtension(a)
  {
    assert Be16At(b, 0) == Be16At(a, 0);
    NameStable(a, b, 2, 2 + Min(Be16At(a, 0), |a| - 2), 2 + Min(Be16At(b, 0), |b| - 2));
  }

  /** One turn of the loop over the extensions. */
  lemma ExtensionTurn(data: seq<byte>, pos: nat, end: nat)
    requires end <= |data|
    ensures pos + 4 > end ==> ExtensionFrom(data, pos, end) == None
    ensures pos + 4 <= end ==>
              var body, len := pos + 4, Be16At(data, pos + 2) as nat;
              ExtensionFrom(data, pos, end) ==
                if Be16At(data, pos) == EXT_SERVER_NAME then SniExtension(data[body..body + Min(len, end - body)])
                else ExtensionFrom(data, body + len, end)
  {
    hide SniExtension, Be16At;
  }

  lemma {:induction false} ExtensionStable(a: seq<byte>, b: seq<byte>, pos: nat, end: nat, later: nat)
    requires a <= b && end <= |a| && end <= later <= |b|
    ensures ExtensionFrom(a, pos, end).Some? ==> ExtensionFrom(b, pos, later) == ExtensionFrom(a, pos, end)
    decreases end - pos
  {
    hide ExtensionFrom, SniExtension;
    ExtensionTurn(a, pos, end);
    ExtensionTurn(b, pos, later);
    if pos + 4 <= end {
      var body, len := pos + 4, Be16At(a, pos + 2) as nat;
      assert Be16At(b, pos + 2) == len && Be16At(b, pos) == Be16At(a, pos);
      if Be16At(a, pos) == EXT_SERVER_NAME {
        BodyStable(a, b, body, body + Min(len, end - body), body + Min(len, later - body));
      } else {
        ExtensionStable(a, b, body + len, end, later);
      }
    }
  }

  lemma BodyStable(a: seq<byte>, b: seq<byte>, pos: nat, stop: nat, later: nat)
    requires a <= b && pos <= stop <= |a| && stop <= later <= |b|
    ensures SniExtension(a[pos..stop]).Some? ==> SniExtension(b[pos..later]) == SniExtension(a[pos..stop])
  {
    hide SniExtension;
    assert a[pos..stop] <= b[pos..later];
    if SniExtension(a[pos..stop]).Some? {
      SniExtensionStable(a[pos..stop], b[pos..later]);
    }
  }

  /** The fields before the extensions are read alike from any buffer that holds them. */
  lemma FieldsStable(a: seq<byte>, b: seq<byte>, end: nat, later: nat)
    requires a <= b && end <= |a| && end <= later <= |b|
    ensures IsClientHello(a, end) ==> IsClientHello(b, later)
    ensures AfterCompression(a, end).Some? ==> AfterCompression(b, later) == AfterCompression(a, end)
  {
  }

  /** A name found in what has arrived so far is the name found when more arrives. */
  lemma SniStable(a: seq<byte>, b: seq<byte>)
    requires a <= b && SniOf(a).Some?
    ensures SniOf(b) == SniOf(a)
  {
    hide AfterCompression, ExtensionFrom;
    var end, later := RecordEnd(a), RecordEnd(b);
    assert Be16At(b, 3) == Be16At(a, 3);
    FieldsStable(a, b, end, later);
    var pos := AfterCompression(a, end).value;
    assert Be16At(b, pos) == Be16At(a, pos);
    ExtensionStable(a, b, pos + 2, pos + 2 + Min(Be16At(a, pos), end - (pos + 2)),
        pos + 2 + Min(Be16At(b, pos), later - (pos + 2)));
  }

  lemma {:induction false} ExtensionLocal(a: seq<byte>, b: seq<byte>, pos: nat, end: nat)
    requires end <= |a| && end <= |b| && a[..end] == b[..end]
    ensures ExtensionFrom(a, pos, end) == ExtensionFrom(b, pos, end)
    decreases end - pos
  {
    hide SniExtension, Be16At;
    if pos + 4 <= end {
      SliceLocal(a, b, pos, end);
      var len: nat := Be16At(a, pos + 2);
      if Be16At(a, pos) != EXT_SERVER_NAME {
        ExtensionLocal(a, b, pos + 4 + len, end);
      }
    }
  }

  lemma SliceLocal(a: seq<byte>, b: seq<byte>, pos: nat, end: nat)
    requires end <= |a| && end <= |b| && a[..end] == b[..end] && pos + 4 <= end
    ensures Be16At(a, pos) == Be16At(b, pos) && Be16At(a, pos + 2) == Be16At(b, pos + 2)
    ensures
      var stop := pos + 4 + Min(Be16At(a, pos + 2), end - (pos + 4));
      a[pos + 4..stop] == b[pos + 4..stop]
  {
    assert forall i :: 0 <= i < end ==> a[i] == a[..end][i] && b[i] == b[..end][i];
  }

  /** Bytes after the first complete record never matter. */
  lemma AfterRecordIrrelevant(data: seq<byte>, n: nat)
    requires |data| >= 5 && 5 + Be16At(data, 3) <= n <= |data|
    ensures SniOf(data[..n]) == SniOf(data)
  {
    hide ExtensionFrom;
    var a, end := data[..n], 5 + Be16At(data, 3);
    assert Be16At(a, 3) == Be16At(data, 3) && RecordEnd(a) == RecordEnd(data) == end;
    FieldsLocal(a, data, end);
    var pos := AfterCompression(data, end);
    if pos.Some? && pos.value + 2 <= end {
      assert Be16At(a, pos.value) == Be16At(data, pos.value);
      var stop := pos.value + 2 + Min(Be16At(data, pos.value), end - (pos.value + 2));
      assert a[..stop] == data[..stop];
      ExtensionLocal(a, data, pos.value + 2, stop);
    }
  }

  lemma FieldsLocal(a: seq<byte>, b: seq<byte>, end: nat)
    requires a <= b && 5 <= end <= |a|
    ensures IsClientHello(a, end) == IsClientHello(b, end) && AfterCompression(a, end) == AfterCompression(b, end)
  {
  }

  /** The loop stops exactly when the peer has closed, the stream is not TLS, the first record is complete, or the cap
      is
      reached. */
  lemma ConclusiveExactly(seen: seq<byte>)
    requires |seen| <= 4096
    ensures Conclusive(seen) <==>
            seen == [] || seen[0] != 0x16 || |seen| == 4096
            || (|seen| >= 5 && |seen| >= 5 + (seen[3] as int * 256 + seen[4]))
  {
  }

  /** Whatever the loop ends on: a name it reports is the stream's, and unless it gave up on an
      incomplete record or hit the cap, its verdict is the one for the whole stream. */
  lemma VerdictForStream(stream: seq<byte>, n: nat)
    requires n <= Min(|stream|, 4096)
    ensures SniOf(stream[..n]).Some? ==> SniOf(stream) == SniOf(stream[..n])
    ensures n > 0 && stream[0] != 0x16 ==> SniOf(stream[..n]) == SniOf(stream) == None
    ensures n >= 5 && Conclusive(stream[..n]) && 5 + Be16At(stream, 3) <= 4096 ==>
              SniOf(stream[..n]) == SniOf(stream)
  {
    var seen := stream[..n];
    if SniOf(seen).Some? {
      SniStable(seen, stream);
    }
    if n >= 5 {
      assert Be16At(seen, 3) == Be16At(stream, 3);
      if 5 + Be16At(stream, 3) <= n {
        AfterRecordIrrelevant(stream, n);
      }
    }
  }

  // ---------------------------------------------------------------- inverting the encoder

  datatype NameEntry = NameEntry(nameType: byte, name: seq<byte>)
  datatype Extension = Extension(extType: u16, body: seq<byte>)

  /** A ClientHello (section 4.1.2 of RFC 8446) with its fields in order. */
  datatype Hello = Hello(recordVersion: seq<byte>, length: seq<byte>, versionAndRandom: seq<byte>, sessionId: seq<byte>,
                         cipherSuites: seq<byte>, compression: seq<byte>, extensions: seq<Extension>)

  predicate SizedNames(names: seq<NameEntry>) {
    forall k :: 0 <= k < |names| ==> |names[k].name| < 0x1_0000
  }

  predicate SizedExtensions(exts: seq<Extension>) {
    forall k :: 0 <= k < |exts| ==> |exts[k].body| < 0x1_0000
  }

  function EncodeNames(names: seq<NameEntry>): seq<byte>
    requires SizedNames(names)
  {
    if names == [] then []
    else [names[0].nameType] + (PutBe16(|names[0].name|) + (names[0].name + EncodeNames(names[1..])))
  }

  function EncodeExtensions(exts: seq<Extension>): seq<byte>
    requires SizedExtensions(exts)
  {
    if exts == [] then []
    else PutBe16(exts[0].extType) + (PutBe16(|exts[0].body|) + (exts[0].body + EncodeExtensions(exts[1..])))
  }

  predicate ValidNames(names: seq<NameEntry>) {
    SizedNames(names) && |EncodeNames(names)| < 0x1_0000
  }

  /** A server_name extension (section 3 of RFC 6066). */
  function ServerName(names: seq<NameEntry>): Extension
    requires ValidNames(names)
  {
    Extension(0, PutBe16(|EncodeNames(names)|) + EncodeNames(names))
  }

  predicate ValidHello(h: Hello) {
    && |h.recordVersion| == 2 && |h.length| == 3 && |h.versionAndRandom| == 34
    && |h.sessionId| < 0x100 && |h.cipherSuites| < 0x1_0000 && |h.compression| < 0x100
    && SizedExtensions(h.extensions)
    && |EncodeExtensions(h.extensions)| < 0x1_0000 && |Handshake(h)| < 0x1_0000
  }

  /** The handshake message up to its extensions, and all of it. */
  function HelloFields(h: Hello): seq<byte>
    requires |h.sessionId| < 0x100 && |h.cipherSuites| < 0x1_0000 && |h.compression| < 0x100
  {
    h.versionAndRandom + ([|h.sessionId|]
        + (h.sessionId + (PutBe16(|h.cipherSuites|) + (h.cipherSuites + ([|h.compression|] + h.compression)))))
  }

  function Handshake(h: Hello): seq<byte>
    requires |h.sessionId| < 0x100 && |h.cipherSuites| < 0x1_0000 && |h.compression| < 0x100
    requires SizedExtensions(h.extensions)
    requires |EncodeExtensions(h.extensions)| < 0x1_0000
  {
    [1] + h.length + HelloFields(h)
        + (PutBe16(|EncodeExtensions(h.extensions)|) + EncodeExtensions(h.extensions))
  }

  function EncodeHello(h: Hello): seq<byte>
    requires ValidHello(h)
  {
    [0x16] + h.recordVersion + PutBe16(|Handshake(h)|) + Handshake(h)
  }

  /** The first host_name of a server name list, when it is valid UTF-8. */
  function FirstHostName(names: seq<NameEntry>): Option<seq<byte>> {
    if names == [] then None
    else if names[0].nameType == 0 then (if Utf8.Valid(names[0].name) then Some(names[0].name) else None)
    else FirstHostName(names[1..])
  }

  lemma {:induction false} NamesFound(p: seq<byte>, pos: nat, names: seq<NameEntry>, end: nat)
    requires SizedNames(names) && Holds(p, pos, EncodeNames(names)) && end == pos + |EncodeNames(names)| <= |p|
    ensures NameFrom(p, pos, end) == FirstHostName(names)
    decreases |names|
  {
    hide Utf8.Valid, PutBe16, Holds, NameFrom;
    if names == [] {
      NoName(p, pos, end);
    } else {
      var n, rest := names[0], EncodeNames(names[1..]);
      var next := pos + 3 + |n.name|;
      NameHeld(p, pos, n, rest);
      OneName(p, pos, n, end);
      if n.nameType != HOST_NAME {
        NamesFound(p, next, names[1..], end);
      }
    }
  }

  lemma NoName(p: seq<byte>, pos: nat, end: nat)
    requires pos == end <= |p|
    ensures NameFrom(p, pos, end) == None
  {
  }

  /** `n` lies in `p` at `pos`, length-prefixed. */
  ghost predicate NameAt(p: seq<byte>, pos: nat, n: NameEntry) {
    && |n.name| < 0x1_0000 && pos + 3 + |n.name| <= |p|
    && p[pos] == n.nameType && Be16At(p, pos + 1) == |n.name| && p[pos + 3..pos + 3 + |n.name|] == n.name
  }

  lemma NameHeld(p: seq<byte>, pos: nat, n: NameEntry, rest: seq<byte>)
    requires |n.name| < 0x1_0000 && Holds(p, pos, [n.nameType] + (PutBe16(|n.name|) + (n.name + rest)))
    ensures NameAt(p, pos, n) && Holds(p, pos + 3 + |n.name|, rest)
  {
    hide PutBe16;
    HoldsSplit(p, pos, [n.nameType], PutBe16(|n.name|) + (n.name + rest));
    HoldsSplit(p, pos + 1, PutBe16(|n.name|), n.name + rest);
    HoldsSplit(p, pos + 3, n.name, rest);
    HoldsAt(p, pos, [n.nameType], 0);
    HoldsBe16(p, pos + 1, |n.name|);
  }

  lemma OneName(p: seq<byte>, pos: nat, n: NameEntry, end: nat)
    requires NameAt(p, pos, n) && pos + 3 + |n.name| <= end <= |p|
    ensures n.nameType != HOST_NAME ==> NameFrom(p, pos, end) == NameFrom(p, pos + 3 + |n.name|, end)
    ensures n.nameType == HOST_NAME ==> NameFrom(p, pos, end) == if Utf8.Valid(n.name) then Some(n.name) else None
  {
    hide Utf8.Valid, Be16At;
  }

  lemma ServerNameFound(names: seq<NameEntry>)
    requires ValidNames(names) && |ServerName(names).body| < 0x1_0000
    ensures SniExtension(ServerName(names).body) == FirstHostName(names)
  {
    var body := ServerName(names).body;
    assert Holds(body, 0, body);
    HoldsSplit(body, 0, PutBe16(|EncodeNames(names)|), EncodeNames(names));
    HoldsBe16(body, 0, |EncodeNames(names)|);
    NamesFound(body, 2, names, |body|);
  }

  /** The body of the first server_name extension decides. */
  function FirstServerName(exts: seq<Extension>): Option<seq<byte>> {
    if exts == [] then None
    else if exts[0].extType == 0 then SniExtension(exts[0].body)
    else FirstServerName(exts[1..])
  }

  lemma {:induction false} ExtensionsFound(p: seq<byte>, pos: nat, exts: seq<Extension>, end: nat)
    requires SizedExtensions(exts) && Holds(p, pos, EncodeExtensions(exts))
             && end == pos + |EncodeExtensions(exts)| <= |p|
    ensures ExtensionFrom(p, pos, end) == FirstServerName(exts)
    decreases |exts|
  {
    hide SniExtension, PutBe16, Holds, ExtensionFrom;
    if exts == [] {
      NoExtension(p, pos, end);
    } else {
      var x, rest := exts[0], EncodeExtensions(exts[1..]);
      ExtensionHeld(p, pos, x, rest);
      OneExtension(p, pos, x, end);
      if x.extType != EXT_SERVER_NAME {
        ExtensionsFound(p, pos + 4 + |x.body|, exts[1..], end);
      }
    }
  }

  lemma NoExtension(p: seq<byte>, pos: nat, end: nat)
    requires pos == end <= |p|
    ensures ExtensionFrom(p, pos, end) == None
  {
  }

  ghost predicate ExtensionAt(p: seq<byte>, pos: nat, x: Extension) {
    && |x.body| < 0x1_0000 && pos + 4 + |x.body| <= |p|
    && Be16At(p, pos) == x.extType && Be16At(p, pos + 2) == |x.body| && p[pos + 4..pos + 4 + |x.body|] == x.body
  }

  lemma ExtensionHeld(p: seq<byte>, pos: nat, x: Extension, rest: seq<byte>)
    requires |x.body| < 0x1_0000 && Holds(p, pos, PutBe16(x.extType) + (PutBe16(|x.body|) + (x.body + rest)))
    ensures ExtensionAt(p, pos, x) && Holds(p, pos + 4 + |x.body|, rest)
  {
    hide PutBe16;
    HoldsSplit(p, pos, PutBe16(x.extType), PutBe16(|x.body|) + (x.body + rest));
    HoldsSplit(p, pos + 2, PutBe16(|x.body|), x.body + rest);
    HoldsSplit(p, pos + 4, x.body, rest);
    HoldsBe16(p, pos, x.extType);
    HoldsBe16(p, pos + 2, |x.body|);
  }

  lemma OneExtension(p: seq<byte>, pos: nat, x: Extension, end: nat)
    requires ExtensionAt(p, pos, x) && pos + 4 + |x.body| <= end <= |p|
    ensures ExtensionFrom(p, pos, end) ==
            if x.extType == EXT_SERVER_NAME then SniExtension(x.body) else ExtensionFrom(p, pos + 4 + |x.body|, end)
  {
    hide SniExtension, Be16At;
  }

  /** A field of one length byte lies in `p` at `pos`. */
  lemma ShortFieldHeld(p: seq<byte>, pos: nat, field: seq<byte>, rest: seq<byte>)
    requires |field| < 0x100 && Holds(p, pos, [|field|] + (field + rest))
    ensures pos + 1 + |field| + |rest| <= |p| && p[pos] == |field| && Holds(p, pos + 1 + |field|, rest)
  {
    HoldsSplit(p, pos, [|field|], field + rest);
    HoldsSplit(p, pos + 1, field, rest);
    HoldsAt(p, pos, [|field|], 0);
  }

  lemma LongFieldHeld(p: seq<byte>, pos: nat, field: seq<byte>, rest: seq<byte>)
    requires |field| < 0x1_0000 && Holds(p, pos, PutBe16(|field|) + (field + rest))
    ensures pos + 2 + |field| + |rest| <= |p| && Be16At(p, pos) == |field| && Holds(p, pos + 2 + |field|, rest)
  {
    hide PutBe16;
    HoldsSplit(p, pos, PutBe16(|field|), field + rest);
    HoldsSplit(p, pos + 2, field, rest);
    HoldsBe16(p, pos, |field|);
  }

  lemma FieldsFound(p: seq<byte>, h: Hello, end: nat)
    requires ValidHello(h) && Holds(p, 9, HelloFields(h)) && 9 + |HelloFields(h)| + 2 <= end <= |p|
    ensures AfterCompression(p, end) == Some(9 + |HelloFields(h)|)
  {
    hide Holds, Be16At, PutBe16;
    var tail3 := [|h.compression|] + h.compression;
    var tail2 := PutBe16(|h.cipherSuites|) + (h.cipherSuites + tail3);
    var tail1 := [|h.sessionId|] + (h.sessionId + tail2);
    HoldsSplit(p, 9, h.versionAndRandom, tail1);
    ShortFieldHeld(p, 43, h.sessionId, tail2);
    var pos := 44 + |h.sessionId|;
    LongFieldHeld(p, pos, h.cipherSuites, tail3);
    assert h.compression + [] == h.compression;
    ShortFieldHeld(p, pos + 2 + |h.cipherSuites|, h.compression, []);
    assert AfterSessionId(p, end) == Some(pos);
    assert AfterCipherSuites(p, end) == Some(pos + 2 + |h.cipherSuites|);
  }

  /** The pieces of an encoded ClientHello lie in `p`. */
  ghost predicate HelloLies(p: seq<byte>, h: Hello) {
    && ValidHello(h)
    && var hs, exts := Handshake(h), EncodeExtensions(h.extensions);
    var pos := 9 + |HelloFields(h)|;
    && 5 + |hs| <= |p| && pos + 2 + |exts| == 5 + |hs| && |HelloFields(h)| >= 34
    && p[0] == RECORD_HANDSHAKE && p[5] == CLIENT_HELLO && Be16At(p, 3) == |hs|
    && Holds(p, 9, HelloFields(h)) && Be16At(p, pos) == |exts| && Holds(p, pos + 2, exts)
  }

  lemma HelloHeld(h: Hello, trailer: seq<byte>)
    requires ValidHello(h)
    ensures HelloLies(EncodeHello(h) + trailer, h)
  {
    FieldsLength(h);
    HoldsPrefix(EncodeHello(h), trailer);
    RecordHeld(EncodeHello(h) + trailer, h);
    hide HelloFields, EncodeExtensions, Be16At, Holds, EncodeHello, Handshake;
    HandshakeHeld(EncodeHello(h) + trailer, h);
  }

  lemma RecordHeld(p: seq<byte>, h: Hello)
    requires ValidHello(h) && Holds(p, 0, EncodeHello(h))
    ensures 5 + |Handshake(h)| <= |p| && p[0] == RECORD_HANDSHAKE && Be16At(p, 3) == |Handshake(h)|
            && Holds(p, 5, Handshake(h))
  {
    hide PutBe16, HelloFields, EncodeExtensions, Be16At, Handshake;
    var hs := Handshake(h);
    HoldsSplit(p, 0, [RECORD_HANDSHAKE] + h.recordVersion + PutBe16(|hs|), hs);
    HoldsSplit(p, 0, [RECORD_HANDSHAKE] + h.recordVersion, PutBe16(|hs|));
    HoldsAt(p, 0, [RECORD_HANDSHAKE] + h.recordVersion, 0);
    HoldsBe16(p, 3, |hs|);
  }

  lemma HandshakeHeld(p: seq<byte>, h: Hello)
    requires ValidHello(h) && Holds(p, 5, Handshake(h))
    ensures
      var exts := EncodeExtensions(h.extensions);
      var pos := 9 + |HelloFields(h)|;
      && pos + 2 + |exts| == 5 + |Handshake(h)| <= |p| && p[5] == CLIENT_HELLO
      && Holds(p, 9, HelloFields(h)) && Be16At(p, pos) == |exts| && Holds(p, pos + 2, exts)
  {
    hide PutBe16, HelloFields, EncodeExtensions, Be16At;
    var exts := EncodeExtensions(h.extensions);
    var pos := 9 + |HelloFields(h)|;
    HoldsSplit(p, 5, [CLIENT_HELLO] + h.length + HelloFields(h), PutBe16(|exts|) + exts);
    HoldsSplit(p, 5, [CLIENT_HELLO] + h.length, HelloFields(h));
    HoldsAt(p, 5, [CLIENT_HELLO] + h.length, 0);
    HoldsSplit(p, pos, PutBe16(|exts|), exts);
    HoldsBe16(p, pos, |exts|);
  }

  /** The parser reads from an encoded ClientHello, whatever follows it, its first server_name extension. */
  lemma HelloParsed(h: Hello, trailer: seq<byte>)
    requires ValidHello(h)
    ensures SniOf(EncodeHello(h) + trailer) == FirstServerName(h.extensions)
  {
    hide *;
    HelloHeld(h, trailer);
    HelloRead(EncodeHello(h) + trailer, h);
  }

  lemma HelloRead(p: seq<byte>, h: Hello)
    requires HelloLies(p, h)
    ensures SniOf(p) == FirstServerName(h.extensions)
  {
    hide AfterCompression, ExtensionFrom, Be16At, SniOf, Holds, HelloFields, EncodeExtensions, Handshake,
         FirstServerName;
    var end, pos := 5 + |Handshake(h)|, 9 + |HelloFields(h)|;
    FieldsFound(p, h, end);
    SniFromExtensions(p, end, pos);
    ExtensionsFound(p, pos + 2, h.extensions, end);
  }

  /** Parsing goes on with extensions that reach to the end of the record. */
  lemma SniFromExtensions(p: seq<byte>, end: nat, pos: nat)
    requires 43 <= end <= |p| && p[0] == RECORD_HANDSHAKE && p[5] == CLIENT_HELLO && 5 + Be16At(p, 3) as int == end
    requires AfterCompression(p, end) == Some(pos) && pos + 2 <= end && pos + 2 + Be16At(p, pos) as int == end
    ensures SniOf(p) == ExtensionFrom(p, pos + 2, end)
  {
    hide AfterCompression, ExtensionFrom, Be16At;
    SniOfCases(p);
  }

  lemma FieldsLength(h: Hello)
    requires ValidHello(h)
    ensures |HelloFields(h)| >= 34
  {
  }

  /** With any other extensions before it and anything after it, the server_name's first host_name is returned. */
  lemma HostNameReturned(h: Hello, before: seq<Extension>, names: seq<NameEntry>, after: seq<Extension>,
                         trailer: seq<byte>)
    requires ValidHello(h) && ValidNames(names) && h.extensions == before + [ServerName(names)] + after
    requires forall k :: 0 <= k < |before| ==> before[k].extType != EXT_SERVER_NAME
    ensures SniOf(EncodeHello(h) + trailer) == FirstHostName(names)
  {
    hide EncodeNames, EncodeExtensions, SniOf, EncodeHello, Handshake;
    HelloParsed(h, trailer);
    assert h.extensions[|before|] == ServerName(names);
    ServerNameFound(names);
    SkipOthers(before, ServerName(names), after);
  }

  lemma {:induction false} SkipOthers(before: seq<Extension>, x: Extension, after: seq<Extension>)
    requires x.extType == EXT_SERVER_NAME && forall k :: 0 <= k < |before| ==> before[k].extType != EXT_SERVER_NAME
    ensures FirstServerName(before + [x] + after) == SniExtension(x.body)
  {
    if before != [] {
      assert (before + [x] + after)[1..] == before[1..] + [x] + after;
      SkipOthers(before[1..], x, after);
    }
  }
}
