/** Query names and types, and the answerless replies synthesized from a query (src/dns.rs). */
module DnsQuery {
  import opened Bytes
  import opened DnsWire
  import opened DnsRewrite
  import opened DnsMessage
  import opened Sequences
  import Utf8

  const DOT: byte := 0x2E

  // ---------------------------------------------------------------- specification

  /** The labels of the name at `pos`, which must be valid UTF-8 and end in the root, not a pointer. */
  function NameLabels(p: seq<byte>, pos: nat): Option<seq<seq<byte>>>
    decreases |p| - pos
  {
    if pos >= |p| then None
    else if p[pos] == 0 then Some([])
    else if p[pos] >= 0xC0 || pos + 1 + p[pos] > |p| then None
    else
      var part := p[pos + 1..pos + 1 + p[pos]];
      if !Utf8.Valid(part) then None
      else
        match NameLabels(p, pos + 1 + p[pos])
        case None => None
        case Some(rest) => Some([part] + rest)
  }

  function QueryName(p: seq<byte>): Option<seq<byte>> {
    match NameLabels(p, 12)
    case None => None
    case Some(labels) => if labels == [] then None else Some(Join(labels, DOT))
  }

  function QueryType(p: seq<byte>): Option<u16> {
    match SkipName(p, 12)
    case None => None
    case Some(q) => if q + 2 > |p| then None else Some(Be16At(p, q))
  }

  function LowerByte(b: byte): byte {
    if 0x41 <= b <= 0x5A then b + 0x20 else b
  }

  /** Rust's `eq_ignore_ascii_case`. */
  predicate SameNameIgnoringCase(a: seq<byte>, b: seq<byte>) {
    |a| == |b| && forall i :: 0 <= i < |a| ==> LowerByte(a[i]) == LowerByte(b[i])
  }

  /** The third and fourth header bytes of a synthesized reply. */
  function ReplyFlags(queryByte2: byte, rcode: byte): (f: seq<byte>)
    ensures |f| == 2 && f[0] >= 0x80
  {
    [0x80 + queryByte2 % 0x80 / 8 * 8 + queryByte2 % 2, 0x80 + rcode % 16]
  }

  function EmptyResponse(query: seq<byte>, rcode: byte): Option<seq<byte>> {
    match QuestionsEnd(query)
    case None => None
    case Some(end) =>
      if 12 <= end <= |query| then
        Some(query[..2] + ReplyFlags(query[2], rcode) + query[4..6] + [0, 0, 0, 0, 0, 0] + query[12..end])
      else None
  }

  // ---------------------------------------------------------------- the parsers

  method ParseQueryName(packet: seq<byte>) returns (r: Option<seq<byte>>)
    ensures r == QueryName(packet)
  {
    var pos: nat := 12;
    var parts: seq<seq<byte>> := [];
    ghost var all := NameLabels(packet, 12);
    CompletesEnds(all, parts);
    while true
      invariant Completes(all, parts, NameLabels(packet, pos))
      decreases |packet| - pos
    {
      if pos >= |packet| {
        return None;
      }
      var len := packet[pos];
      if len == 0 {
        CompletesEnds(all, parts);
        break;
      }
      if len >= 0xC0 {
        return None;
      }
      if pos + 1 + len > |packet| || !Utf8.Valid(packet[pos + 1..pos + 1 + len]) {
        return None;
      }
      CompletesStep(all, parts, [packet[pos + 1..pos + 1 + len]], NameLabels(packet, pos + 1 + len));
      parts := parts + [packet[pos + 1..pos + 1 + len]];
      pos := pos + 1 + len;
    }
    r := if parts == [] then None else Some(Join(parts, DOT));
  }

  method ParseQueryType(packet: seq<byte>) returns (r: Option<u16>)
    ensures r == QueryType(packet)
  {
    var pos: nat := 12;
    var end: nat := 0;
    while true
      invariant SkipName(packet, pos) == SkipName(packet, 12)
      decreases |packet| - pos
    {
      if pos >= |packet| {
        return None;
      }
      var len := packet[pos];
      if len == 0 {
        end := pos + 1;
        break;
      }
      if len >= 0xC0 {
        end := pos + 2;
        break;
      }
      pos := pos + 1 + len;
    }
    assert SkipName(packet, 12) == Some(end);
    r := if end + 2 > |packet| then None else Some(Be16At(packet, end));
  }

  method BuildEmptyResponse(query: seq<byte>, rcode: byte) returns (r: Option<seq<byte>>)
    ensures r == EmptyResponse(query, rcode)
  {
    if |query| < 12 {
      return None;
    }
    var end := SkipQuestionSection(query);
    SkipQuestionsAdvance(query, 12, QdCount(query));
    SkipQuestionsBound(query, 12, QdCount(query));
    if end.None? {
      return None;
    }
    var resp := query[..12];
    resp := resp[2 := ReplyFlags(query[2], rcode)[0]];
    resp := resp[3 := ReplyFlags(query[2], rcode)[1]];
    for i := 6 to 12
      invariant |resp| == 12
      invariant resp[..2] == query[..2] && resp[2..4] == ReplyFlags(query[2], rcode) && resp[4..6] == query[4..6]
      invariant forall k :: 6 <= k < i ==> resp[k] == 0
    {
      resp := resp[i := 0];
    }
    assert resp[6..] == [0, 0, 0, 0, 0, 0];
    assert resp == resp[..2] + resp[2..4] + resp[4..6] + resp[6..];
    return Some(resp + query[12..end.value]);
  }

  // ---------------------------------------------------------------- what they mean

  lemma {:induction false} NameLabelsLocal(p: seq<byte>, q: seq<byte>, pos: nat, end: nat)
    requires SkipName(p, pos) == Some(end) && end <= |p| && end <= |q|
    requires forall i :: pos <= i < end ==> q[i] == p[i]
    ensures NameLabels(q, pos) == NameLabels(p, pos) && SkipName(q, pos) == Some(end)
    decreases |p| - pos
  {
    SkipNameAdvances(p, pos);
    if 0 < p[pos] < 0xC0 {
      SkipNameAdvances(p, pos + 1 + p[pos]);
      assert q[pos + 1..pos + 1 + p[pos]] == p[pos + 1..pos + 1 + p[pos]];
      NameLabelsLocal(p, q, pos + 1 + p[pos], end);
    }
  }

  /** The letter of an ASCII byte by its position in the alphabet, in either case. */
  function LetterOf(b: byte): Option<nat> {
    if 0x41 <= b < 0x41 + 26 then Some(b - 0x41) else if 0x61 <= b < 0x61 + 26 then Some(b - 0x61) else None
  }

  /** Names agree exactly when they are as long and byte by byte equal or the same ASCII letter. */
  lemma NamesAgreeExactly(a: seq<byte>, b: seq<byte>)
    ensures SameNameIgnoringCase(a, b) <==>
            |a| == |b| && forall i :: 0 <= i < |a| ==>
              a[i] == b[i] || (LetterOf(a[i]).Some? && LetterOf(a[i]) == LetterOf(b[i]))
  {
    forall x: byte, y: byte
      ensures LowerByte(x) == LowerByte(y) <==> x == y || (LetterOf(x).Some? && LetterOf(x) == LetterOf(y))
    {
    }
    hide LowerByte, LetterOf;
  }

  /** The flags of section 4.1.1 of RFC 1035 that a reply to `query` has: a response with the query's OPCODE and RD,
      not authoritative, not truncated, recursion available, the reserved bits zero, and this code. */
  ghost predicate RepliesWith(query: seq<byte>, r: seq<byte>, rcode: nat)
    requires |query| >= 12 && |r| >= 12
  {
    var qr, opcode, aa, tc, rd := r[2] / 128, r[2] / 8 % 16, r[2] / 4 % 2, r[2] / 2 % 2, r[2] % 2;
    var ra, z, code := r[3] / 128, r[3] / 16 % 8, r[3] % 16;
    && qr == 1 && opcode == query[2] / 8 % 16 && aa == 0 && tc == 0 && rd == query[2] % 2
    && ra == 1 && z == 0 && code == rcode
  }

  lemma FlagsSet(b: byte, rcode: byte)
    ensures
      var f := ReplyFlags(b, rcode);
      && f[0] / 128 == 1 && f[0] / 8 % 16 == b / 8 % 16 && f[0] / 4 % 2 == 0 && f[0] / 2 % 2 == 0 && f[0] % 2 == b % 2
      && f[1] / 128 == 1 && f[1] / 16 % 8 == 0 && f[1] % 16 == rcode % 16
  {
    var opcode, rd, code := b % 128 / 8, b % 2, rcode % 16;
    OpcodeBits(b);
    FirstFlags(opcode, rd);
    SecondFlags(code);
  }

  lemma OpcodeBits(b: byte)
    ensures b % 128 / 8 == b / 8 % 16
  {
    var q, r := b / 128, b % 128;
    assert b == 128 * q + r;
    assert b / 8 == 16 * q + r / 8;
  }

  lemma FirstFlags(opcode: nat, rd: nat)
    requires opcode < 16 && rd < 2
    ensures
      var n := 128 + opcode * 8 + rd;
      n / 128 == 1 && n / 8 % 16 == opcode && n / 4 % 2 == 0 && n / 2 % 2 == 0 && n % 2 == rd
  {
    var n := 128 + opcode * 8 + rd;
    assert n / 2 == 64 + opcode * 4 && n / 4 == 32 + opcode * 2 && n / 8 == 16 + opcode;
  }

  lemma SecondFlags(code: nat)
    requires code < 16
    ensures (128 + code) / 128 == 1 && (128 + code) / 16 % 8 == 0 && (128 + code) % 16 == code
  {
    assert (128 + code) / 16 == 8;
  }

  /** The bytes of an answerless reply. */
  lemma EmptyResponseBytes(query: seq<byte>, rcode: byte)
    requires QuestionsEnd(query).Some?
    ensures EmptyResponse(query, rcode).Some?
    ensures
      var r := EmptyResponse(query, rcode).value;
      && 12 <= |r| == QuestionsEnd(query).value <= |query|
      && r[..2] == query[..2] && r[2] >= 0x80 && RepliesWith(query, r, rcode % 16)
      && r[12..] == query[12..|r|]
      && (forall i :: 12 <= i < |r| ==> r[i] == query[i])
      && QdCount(r) == QdCount(query) && AnCount(r) == 0 && RecordCount(r) == 0
  {
    SkipQuestionsAdvance(query, 12, QdCount(query));
    SkipQuestionsBound(query, 12, QdCount(query));
    var r := EmptyResponse(query, rcode).value;
    var end := QuestionsEnd(query).value;
    assert r[12..] == query[12..end];
    FlagsSet(query[2], rcode);
    assert r[2] == ReplyFlags(query[2], rcode)[0] && r[3] == ReplyFlags(query[2], rcode)[1];
    hide ReplyFlags;
    assert forall i :: 12 <= i < end ==> r[i] == r[12..][i - 12] && query[i] == query[12..end][i - 12];
  }

  /** An answerless reply keeps the id and the questions, is a response, and carries no record at all. */
  lemma EmptyResponseEchoes(query: seq<byte>, rcode: byte)
    ensures EmptyResponse(query, rcode).Some? <==> QuestionsEnd(query).Some?
    ensures EmptyResponse(query, rcode).Some? ==>
              var r := EmptyResponse(query, rcode).value;
              && |r| == QuestionsEnd(query).value && QuestionsEnd(r) == QuestionsEnd(query)
              && |r| >= 12 && r[..2] == query[..2] && r[2] >= 0x80 && RepliesWith(query, r, rcode % 16)
              && r[12..] == query[12..|r|]
              && IpRecords(r) == None && MinTtl(r) == None && RewriteWalk(r) == [] && WalksToTheEnd(r)
              && (QdCount(query) > 0 ==> QueryName(r) == QueryName(query) && QueryType(r) == QueryType(query))
  {
    if QuestionsEnd(query).Some? {
      EmptyResponseBytes(query, rcode);
      hide EmptyResponse, SkipName, Be16At, NameLabels, Join, SkipQuestions;
      var r := EmptyResponse(query, rcode).value;
      EchoedQuestions(query, r, 12, QdCount(query), |r|);
      NoRecords(r);
      if QdCount(query) > 0 {
        FirstQuestionEchoed(query, r);
      }
    }
  }

  lemma NoRecords(r: seq<byte>)
    requires |r| >= 12 && QuestionsEnd(r) == Some(|r|) && AnCount(r) == 0 && RecordCount(r) == 0
    ensures IpRecords(r) == None && MinTtl(r) == None && RewriteWalk(r) == [] && WalksToTheEnd(r)
  {
  }

  lemma FirstQuestionEchoed(query: seq<byte>, r: seq<byte>)
    requires QuestionsEnd(query) == Some(|r|) && 12 <= |r| <= |query| && QdCount(query) > 0
    requires forall i :: 12 <= i < |r| ==> r[i] == query[i]
    ensures QueryName(r) == QueryName(query) && QueryType(r) == QueryType(query)
  {
    var s := SkipName(query, 12);
    SkipNameAdvances(query, 12);
    SkipQuestionsAdvance(query, s.value + 4, QdCount(query) - 1);
    NameLabelsLocal(query, r, 12, s.value);
  }

  lemma {:induction false} EchoedQuestions(q: seq<byte>, r: seq<byte>, pos: nat, n: nat, end: nat)
    requires SkipQuestions(q, pos, n) == Some(end) && pos <= end <= |q| && |r| == end
    requires forall i :: pos <= i < end ==> r[i] == q[i]
    ensures SkipQuestions(r, pos, n) == Some(end)
    decreases n
  {
    if n > 0 {
      var s := SkipName(q, pos).value;
      SkipQuestionsAdvance(q, s + 4, n - 1);
      SkipNameAdvances(q, pos);
      NameLabelsLocal(q, r, pos, s);
      EchoedQuestions(q, r, s + 4, n - 1, end);
    }
  }

  /** The name is never empty, so nothing can match a query stored under the empty name. */
  lemma NameNotEmpty(p: seq<byte>)
    ensures QueryName(p).Some? ==> QueryName(p).value != []
  {
    if QueryName(p).Some? {
      var labels := NameLabels(p, 12).value;
      assert |p[13..13 + p[12]]| == p[12];
      assert labels[0] == p[13..13 + p[12]];
    }
  }

  predicate AllUtf8(labels: seq<seq<byte>>) {
    forall k :: 0 <= k < |labels| ==> Utf8.Valid(labels[k])
  }

  lemma {:induction false} LabelsFound(p: seq<byte>, pos: nat, labels: seq<seq<byte>>)
    requires ValidLabels(labels) && Holds(p, pos, EncodeLabels(labels) + [0])
    ensures NameLabels(p, pos) == if AllUtf8(labels) then Some(labels) else None
    decreases |labels|
  {
    hide EncodeLabels, Utf8.Valid, Holds, NameLabels;
    if labels == [] {
      NoLabels(p, pos);
    } else {
      FirstLabel(p, pos, labels);
      LabelsFound(p, pos + 1 + |labels[0]|, labels[1..]);
      assert labels == [labels[0]] + labels[1..];
    }
  }

  lemma NoLabels(p: seq<byte>, pos: nat)
    requires Holds(p, pos, EncodeLabels([]) + [0])
    ensures NameLabels(p, pos) == Some([])
  {
    HoldsAt(p, pos, [0], 0);
  }

  lemma FirstLabel(p: seq<byte>, pos: nat, labels: seq<seq<byte>>)
    requires labels != [] && ValidLabels(labels) && Holds(p, pos, EncodeLabels(labels) + [0])
    ensures ValidLabels(labels[1..]) && Holds(p, pos + 1 + |labels[0]|, EncodeLabels(labels[1..]) + [0])
    ensures
      var rest := NameLabels(p, pos + 1 + |labels[0]|);
      NameLabels(p, pos) == if !Utf8.Valid(labels[0]) || rest.None? then None else Some([labels[0]] + rest.value)
  {
    LabelThenRest(labels);
    assert 1 <= |labels[0]| < 0xC0;
    hide *;
    var first, rest := labels[0], EncodeLabels(labels[1..]);
    HoldsSplit(p, pos, [|first|], first + (rest + [0]));
    HoldsSplit(p, pos + 1, first, rest + [0]);
    ByteHeld(p, pos, |first|);
    LabelUnfold(p, pos, first);
  }

  lemma ByteHeld(p: seq<byte>, pos: nat, b: byte)
    requires Holds(p, pos, [b])
    ensures pos < |p| && p[pos] == b
  {
    HoldsAt(p, pos, [b], 0);
  }

  lemma LabelUnfold(p: seq<byte>, pos: nat, first: seq<byte>)
    requires pos < |p| && p[pos] == |first| && 1 <= |first| < 0xC0 && Holds(p, pos + 1, first)
    ensures
      var rest := NameLabels(p, pos + 1 + |first|);
      NameLabels(p, pos) == if !Utf8.Valid(first) || rest.None? then None else Some([first] + rest.value)
  {
    hide Utf8.Valid;
  }

  lemma LabelThenRest(labels: seq<seq<byte>>)
    requires labels != [] && ValidLabels(labels)
    ensures ValidLabels(labels[1..])
    ensures EncodeLabels(labels) + [0] == [|labels[0]|] + (labels[0] + (EncodeLabels(labels[1..]) + [0]))
  {
    var rest := EncodeLabels(labels[1..]);
    assert EncodeLabels(labels) == [|labels[0]|] + labels[0] + rest;
    hide EncodeLabels;
    Regroup([|labels[0]|] + labels[0], rest, [0]);
    Regroup([|labels[0]|], labels[0], rest + [0]);
  }

  /** The name and type of a message whose first question is named by labels ending in the root. */
  lemma QueryOfMessage(m: Message, trailer: seq<byte>)
    requires ValidMessage(m) && m.questions != [] && m.questions[0].name.end.Root?
    ensures
      var labels := m.questions[0].name.labels;
      QueryName(Encode(m) + trailer) ==
        if labels != [] && AllUtf8(labels) then Some(Join(labels, DOT)) else None
    ensures QueryType(Encode(m) + trailer) == Some(m.questions[0].qtype)
  {
    var p, q := Encode(m) + trailer, m.questions[0];
    FirstQuestionLies(m, trailer);
    hide EncodeRecords, EncodeLabels, Header, NameLabels, Join, SkipName, PutBe16, Be16At, AllUtf8, Encode, Holds;
    HoldsBe16(p, 12 + |EncodeName(q.name)|, q.qtype);
    SkipEncodedName(p, 12, q.name);
    LabelsFound(p, 12, q.name.labels);
  }

  lemma FirstQuestionLies(m: Message, trailer: seq<byte>)
    requires ValidMessage(m) && m.questions != []
    ensures
      var p, q := Encode(m) + trailer, m.questions[0];
      && Holds(p, 12, EncodeName(q.name)) && Holds(p, 12 + |EncodeName(q.name)|, PutBe16(q.qtype))
      && 12 + |EncodeName(q.name)| + 2 <= |p|
  {
    var q := m.questions[0];
    var rest := EncodeQuestions(m.questions[1..]) + EncodeRecords(AllRecords(m)) + trailer;
    FirstQuestionFirst(m, trailer);
    assert |Header(m)| == 12 && |PutBe16(q.qtype)| == 2;
    hide *;
    PartsHeld(Header(m), EncodeName(q.name), PutBe16(q.qtype), PutBe16(q.qclass), rest);
  }

  lemma PartsHeld(a: seq<byte>, b: seq<byte>, c: seq<byte>, d: seq<byte>, e: seq<byte>)
    ensures
      var p := a + (b + (c + d + e));
      Holds(p, |a|, b) && Holds(p, |a| + |b|, c) && |a| + |b| + |c| <= |p|
  {
  }

  lemma FirstQuestionFirst(m: Message, trailer: seq<byte>)
    requires ValidMessage(m) && m.questions != []
    ensures
      var q := m.questions[0];
      var rest := EncodeQuestions(m.questions[1..]) + EncodeRecords(AllRecords(m)) + trailer;
      Encode(m) + trailer == Header(m) + (EncodeName(q.name) + (PutBe16(q.qtype) + PutBe16(q.qclass) + rest))
  {
    var q := m.questions[0];
    var name, fields := EncodeName(q.name), PutBe16(q.qtype) + PutBe16(q.qclass);
    var more := EncodeQuestions(m.questions[1..]);
    assert EncodeQuestions(m.questions) == name + fields + more;
    hide *;
    Regrouped(Header(m), name, fields, more, EncodeRecords(AllRecords(m)), trailer);
  }

  lemma Regrouped(a: seq<byte>, b: seq<byte>, c: seq<byte>, d: seq<byte>, e: seq<byte>, f: seq<byte>)
    ensures a + (b + c + d + e) + f == a + (b + (c + (d + e + f)))
  {
  }
}
