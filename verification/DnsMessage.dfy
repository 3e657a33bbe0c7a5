/** Messages as sections 4.1.1 to 4.1.4 of RFC 1035 encode them, and what the walkers make of the encoding. */
module DnsMessage {
  import opened Bytes
  import opened Net
  import opened DnsWire
  import opened DnsRewrite

  // ---------------------------------------------------------------- messages and their encoding

  datatype NameEnd = Root | Pointer(hi: byte, lo: byte)
  datatype Name = Name(labels: seq<seq<byte>>, end: NameEnd)
  datatype Question = Question(name: Name, qtype: u16, qclass: u16)
  datatype Record = Record(name: Name, rtype: u16, rclass: u16, ttl: u32, rdata: seq<byte>)
  datatype Message = Message(id: u16, flags: u16, questions: seq<Question>,
                             answers: seq<Record>, authorities: seq<Record>, additionals: seq<Record>)

  /** The program takes every length below a pointer's first byte, beyond the 63 of the standard. */
  predicate ValidLabels(labels: seq<seq<byte>>) {
    forall k :: 0 <= k < |labels| ==> 1 <= |labels[k]| < 0xC0
  }

  predicate ValidName(n: Name) {
    ValidLabels(n.labels) && (n.end.Pointer? ==> n.end.hi >= 0xC0)
  }

  predicate ValidQuestions(qs: seq<Question>) {
    |qs| < 0x1_0000 && forall k :: 0 <= k < |qs| ==> ValidName(qs[k].name)
  }

  predicate ValidRecord(r: Record) {
    ValidName(r.name) && |r.rdata| < 0x1_0000
  }

  predicate AllValid(rs: seq<Record>) {
    forall k :: 0 <= k < |rs| ==> ValidRecord(rs[k])
  }

  predicate ValidRecords(rs: seq<Record>) {
    |rs| < 0x1_0000 && AllValid(rs)
  }

  predicate ValidMessage(m: Message) {
    ValidQuestions(m.questions) && ValidRecords(m.answers) && ValidRecords(m.authorities) && ValidRecords(m.additionals)
  }

  function EncodeLabels(labels: seq<seq<byte>>): seq<byte>
    requires ValidLabels(labels)
  {
    if labels == [] then [] else [|labels[0]|] + labels[0] + EncodeLabels(labels[1..])
  }

  function EncodeName(n: Name): seq<byte>
    requires ValidName(n)
  {
    EncodeLabels(n.labels) + if n.end.Root? then [0] else [n.end.hi, n.end.lo]
  }

  function EncodeQuestions(qs: seq<Question>): seq<byte>
    requires forall k :: 0 <= k < |qs| ==> ValidName(qs[k].name)
  {
    if qs == [] then []
    else EncodeName(qs[0].name) + (PutBe16(qs[0].qtype) + PutBe16(qs[0].qclass)) + EncodeQuestions(qs[1..])
  }

  /** The ten bytes between a record's name and its data. */
  function FixedPart(r: Record): (f: seq<byte>)
    requires ValidRecord(r)
    ensures |f| == 10
  {
    PutBe16(r.rtype) + PutBe16(r.rclass) + PutBe32(r.ttl) + PutBe16(|r.rdata|)
  }

  function EncodeRecord(r: Record): seq<byte>
    requires ValidRecord(r)
  {
    EncodeName(r.name) + (FixedPart(r) + r.rdata)
  }

  function EncodeRecords(rs: seq<Record>): seq<byte>
    requires AllValid(rs)
  {
    if rs == [] then [] else EncodeRecord(rs[0]) + EncodeRecords(rs[1..])
  }

  function Header(m: Message): (h: seq<byte>)
    requires ValidMessage(m)
    ensures |h| == 12
    ensures Be16At(h, 4) == |m.questions| && Be16At(h, 6) == |m.answers|
    ensures Be16At(h, 8) == |m.authorities| && Be16At(h, 10) == |m.additionals|
  {
    var ids := PutBe16(m.id) + PutBe16(m.flags);
    var counts := PutBe16(|m.questions|) + PutBe16(|m.answers|);
    var more := PutBe16(|m.authorities|) + PutBe16(|m.additionals|);
    ids + counts + more
  }

  function AllRecords(m: Message): seq<Record> {
    m.answers + m.authorities + m.additionals
  }

  function Encode(m: Message): seq<byte>
    requires ValidMessage(m)
  {
    Header(m) + (EncodeQuestions(m.questions) + EncodeRecords(AllRecords(m)))
  }

  // ---------------------------------------------------------------- what a message says

  /** The address in a record of class IN (1) and type A (1) or AAAA (28), as a sequence of at most one. */
  function AddressOf(r: Record): seq<Ip> {
    if r.rclass == 1 && r.rtype == 1 && |r.rdata| == 4 then [V4(r.rdata)]
    else if r.rclass == 1 && r.rtype == 28 && |r.rdata| == 16 then [V6(r.rdata)]
    else []
  }

  function Addresses(rs: seq<Record>): seq<Ip> {
    if rs == [] then [] else AddressOf(rs[0]) + Addresses(rs[1..])
  }

  function LeastOf(rs: seq<Record>): u32 {
    if rs == [] then U32_MAX else Min(rs[0].ttl, LeastOf(rs[1..]))
  }

  /** The TTL loses the seconds that have passed but stays at least 1; an OPT record (41) has none. */
  function AgeRecordBy(r: Record, elapsed: nat): Record {
    if r.rtype == 41 then r else r.(ttl := if r.ttl > elapsed then r.ttl - elapsed else 1)
  }

  function AgeRecords(rs: seq<Record>, elapsed: nat): seq<Record> {
    seq(|rs|, i requires 0 <= i < |rs| => AgeRecordBy(rs[i], elapsed))
  }

  function AgeMessage(m: Message, elapsed: nat): Message {
    m.(answers := AgeRecords(m.answers, elapsed),
       authorities := AgeRecords(m.authorities, elapsed),
       additionals := AgeRecords(m.additionals, elapsed))
  }

  // ---------------------------------------------------------------- finding the pieces again

  lemma {:induction false} SkipLabels(p: seq<byte>, pos: nat, labels: seq<seq<byte>>)
    requires ValidLabels(labels) && Holds(p, pos, EncodeLabels(labels))
    ensures SkipName(p, pos) == SkipName(p, pos + |EncodeLabels(labels)|)
    decreases |labels|
  {
    if labels != [] {
      hide Holds;
      var rest := EncodeLabels(labels[1..]);
      HoldsSplit(p, pos, [|labels[0]|] + labels[0], rest);
      HoldsSplit(p, pos, [|labels[0]|], labels[0]);
      HoldsAt(p, pos, [|labels[0]|], 0);
      SkipLabels(p, pos + 1 + |labels[0]|, labels[1..]);
    }
  }

  lemma SkipEncodedName(p: seq<byte>, pos: nat, n: Name)
    requires ValidName(n) && Holds(p, pos, EncodeName(n))
    ensures SkipName(p, pos) == Some(pos + |EncodeName(n)|)
  {
    var end := if n.end.Root? then [0] else [n.end.hi, n.end.lo];
    HoldsSplit(p, pos, EncodeLabels(n.labels), end);
    SkipLabels(p, pos, n.labels);
    HoldsAt(p, pos + |EncodeLabels(n.labels)|, end, 0);
  }

  lemma {:induction false} SkipEncodedQuestions(p: seq<byte>, pos: nat, qs: seq<Question>)
    requires forall k :: 0 <= k < |qs| ==> ValidName(qs[k].name)
    requires Holds(p, pos, EncodeQuestions(qs))
    ensures SkipQuestions(p, pos, |qs|) == Some(pos + |EncodeQuestions(qs)|)
    decreases |qs|
  {
    hide EncodeQuestions, EncodeName, Holds, SkipName;
    if qs == [] {
      NoQuestions();
    } else {
      QuestionHeld(p, pos, qs);
      SkipEncodedName(p, pos, qs[0].name);
      SkipEncodedQuestions(p, pos + |EncodeName(qs[0].name)| + 4, qs[1..]);
    }
  }

  lemma NoQuestions()
    ensures EncodeQuestions([]) == []
  {
  }

  lemma QuestionHeld(p: seq<byte>, pos: nat, qs: seq<Question>)
    requires qs != [] && forall k :: 0 <= k < |qs| ==> ValidName(qs[k].name)
    requires Holds(p, pos, EncodeQuestions(qs))
    ensures Holds(p, pos, EncodeName(qs[0].name))
    ensures Holds(p, pos + |EncodeName(qs[0].name)| + 4, EncodeQuestions(qs[1..]))
    ensures pos + |EncodeName(qs[0].name)| + 4 <= |p|
    ensures |EncodeQuestions(qs)| == |EncodeName(qs[0].name)| + 4 + |EncodeQuestions(qs[1..])|
  {
    var name, tail := EncodeName(qs[0].name), PutBe16(qs[0].qtype) + PutBe16(qs[0].qclass);
    hide EncodeName, PutBe16;
    HoldsSplit(p, pos, name + tail, EncodeQuestions(qs[1..]));
    HoldsSplit(p, pos, name, tail);
  }

  function FixedAt(r: Record, pos: nat): nat
    requires ValidRecord(r)
  {
    pos + |EncodeName(r.name)|
  }

  function NextAt(r: Record, pos: nat): nat
    requires ValidRecord(r)
  {
    pos + |EncodeRecord(r)|
  }

  /** Where the fixed parts of consecutive records begin. */
  function Starts(rs: seq<Record>, pos: nat): (ats: seq<nat>)
    requires AllValid(rs)
    ensures |ats| == |rs|
  {
    if rs == [] then [] else [FixedAt(rs[0], pos)] + Starts(rs[1..], NextAt(rs[0], pos))
  }

  /** The bytes from `at` on are the fixed part and data of `r`. */
  ghost predicate RecordAt(p: seq<byte>, at: nat, r: Record) {
    && |r.rdata| < 0x1_0000 && at + 10 + |r.rdata| <= |p|
    && Be16At(p, at) == r.rtype && Be16At(p, at + 2) == r.rclass
    && Ttl(p, at) == r.ttl && RdLen(p, at) == |r.rdata|
    && p[at + 10..at + 10 + |r.rdata|] == r.rdata
  }

  lemma RecordHeld(p: seq<byte>, pos: nat, r: Record)
    requires ValidRecord(r) && Holds(p, pos, EncodeRecord(r))
    ensures SkipName(p, pos) == Some(FixedAt(r, pos))
    ensures RecordAt(p, FixedAt(r, pos), r)
    ensures NextAt(r, pos) == FixedAt(r, pos) + 10 + RdLen(p, FixedAt(r, pos))
  {
    hide Be16At, Be32At, PutBe16, PutBe32, SkipName, EncodeName;
    var at := FixedAt(r, pos);
    HoldsSplit(p, pos, EncodeName(r.name), FixedPart(r) + r.rdata);
    HoldsSplit(p, at, FixedPart(r), r.rdata);
    HoldsSplit(p, at, PutBe16(r.rtype) + PutBe16(r.rclass) + PutBe32(r.ttl), PutBe16(|r.rdata|));
    HoldsSplit(p, at, PutBe16(r.rtype) + PutBe16(r.rclass), PutBe32(r.ttl));
    HoldsSplit(p, at, PutBe16(r.rtype), PutBe16(r.rclass));
    HoldsBe16(p, at, r.rtype);
    HoldsBe16(p, at + 2, r.rclass);
    HoldsBe32(p, at + 4, r.ttl);
    HoldsBe16(p, at + 8, |r.rdata|);
    SkipEncodedName(p, pos, r.name);
  }

  /** Each record is at its start. */
  ghost predicate RecordsAt(p: seq<byte>, ats: seq<nat>, rs: seq<Record>) {
    |ats| == |rs| && forall k :: 0 <= k < |rs| ==> RecordAt(p, ats[k], rs[k])
  }

  lemma {:induction false} WalkEncodedRecords(p: seq<byte>, pos: nat, rs: seq<Record>)
    requires AllValid(rs) && Holds(p, pos, EncodeRecords(rs))
    ensures Walk(p, pos, |rs|) == Walked(Starts(rs, pos), Finished(pos + |EncodeRecords(rs)|))
    ensures RecordsAt(p, Starts(rs, pos), rs)
    decreases |rs|
  {
    hide EncodeRecord, EncodeRecords, RecordAt, SkipName, Walk, FixedAt, NextAt, RecordsAt, Holds, RdLen, Starts;
    if rs == [] {
      WalkNoRecords(p, pos);
    } else {
      var at, next := FixedAt(rs[0], pos), NextAt(rs[0], pos);
      RecordsUnfold(p, pos, rs);
      RecordHeld(p, pos, rs[0]);
      WalkEncodedRecords(p, next, rs[1..]);
      RecordsAtCons(p, at, rs[0], Starts(rs[1..], next), rs[1..]);
      WalkOneMore(p, pos, |rs|, rs[0], Starts(rs[1..], next), pos + |EncodeRecords(rs)|);
    }
  }

  lemma WalkNoRecords(p: seq<byte>, pos: nat)
    ensures Walk(p, pos, 0) == Walked(Starts([], pos), Finished(pos + |EncodeRecords([])|))
    ensures RecordsAt(p, Starts([], pos), [])
  {
  }

  lemma WalkOneMore(p: seq<byte>, pos: nat, n: nat, r: Record, ats: seq<nat>, end: nat)
    requires n > 0 && ValidRecord(r) && Holds(p, pos, EncodeRecord(r))
    requires Walk(p, NextAt(r, pos), n - 1) == Walked(ats, Finished(end))
    ensures Walk(p, pos, n) == Walked([FixedAt(r, pos)] + ats, Finished(end))
  {
    hide EncodeRecord, SkipName, Walk, FixedAt, NextAt, Holds, RdLen;
    RecordHeld(p, pos, r);
    RecordFits(p, FixedAt(r, pos), r);
    WalkUnfold(p, pos, n, FixedAt(r, pos), NextAt(r, pos));
  }

  lemma RecordsUnfold(p: seq<byte>, pos: nat, rs: seq<Record>)
    requires rs != [] && AllValid(rs) && Holds(p, pos, EncodeRecords(rs))
    ensures AllValid(rs[1..]) && [rs[0]] + rs[1..] == rs && |rs[1..]| == |rs| - 1
    ensures Starts(rs, pos) == [FixedAt(rs[0], pos)] + Starts(rs[1..], NextAt(rs[0], pos))
    ensures Holds(p, pos, EncodeRecord(rs[0])) && Holds(p, NextAt(rs[0], pos), EncodeRecords(rs[1..]))
    ensures pos + |EncodeRecords(rs)| == NextAt(rs[0], pos) + |EncodeRecords(rs[1..])|
  {
    HoldsSplit(p, pos, EncodeRecord(rs[0]), EncodeRecords(rs[1..]));
  }

  lemma RecordFits(p: seq<byte>, at: nat, r: Record)
    requires RecordAt(p, at, r)
    ensures at + 10 <= |p|
  {
  }

  lemma RecordsAtCons(p: seq<byte>, at: nat, r: Record, ats: seq<nat>, rs: seq<Record>)
    requires RecordAt(p, at, r) && RecordsAt(p, ats, rs)
    ensures RecordsAt(p, [at] + ats, [r] + rs)
  {
  }

  lemma {:induction false} RecordsSplit(a: seq<Record>, b: seq<Record>)
    requires AllValid(a)
    requires AllValid(b)
    ensures EncodeRecords(a + b) == EncodeRecords(a) + EncodeRecords(b)
  {
    if a == [] {
      assert a + b == b;
    } else {
      assert (a + b)[1..] == a[1..] + b;
      RecordsSplit(a[1..], b);
    }
  }

  /** The three walks over a buffer that begins with an encoded message. */
  lemma WalkMessage(m: Message, trailer: seq<byte>)
    requires ValidMessage(m)
    ensures
      var p := Encode(m) + trailer;
      var pos := 12 + |EncodeQuestions(m.questions)|;
      && QuestionsEnd(p) == Some(pos)
      && AnCount(p) == |m.answers| && RecordCount(p) == |AllRecords(m)|
      && AnswerWalk(p) == Walked(Starts(m.answers, pos), Finished(pos + |EncodeRecords(m.answers)|))
      && FullWalk(p) == Walked(Starts(AllRecords(m), pos), Finished(pos + |EncodeRecords(AllRecords(m))|))
      && RecordsAt(p, Starts(m.answers, pos), m.answers)
      && RecordsAt(p, Starts(AllRecords(m), pos), AllRecords(m))
      && pos + |EncodeRecords(AllRecords(m))| <= |p|
  {
    hide Walk, SkipQuestions, EncodeQuestions, EncodeRecords, RecordsAt, Starts, PutBe16, Be16At;
    var p := Encode(m) + trailer;
    var qs, rs := EncodeQuestions(m.questions), EncodeRecords(AllRecords(m));
    var pos := 12 + |qs|;
    assert p == Header(m) + (qs + rs) + trailer;
    HeaderCounts(p, m);
    assert Holds(p, 0, Encode(m));
    HoldsSplit(p, 0, Header(m), qs + rs);
    HoldsSplit(p, 12, qs, rs);
    SkipEncodedQuestions(p, 12, m.questions);
    WalkEncodedRecords(p, pos, AllRecords(m));
    var others := m.authorities + m.additionals;
    assert AllRecords(m) == m.answers + others;
    RecordsSplit(m.answers, others);
    HoldsSplit(p, pos, EncodeRecords(m.answers), EncodeRecords(others));
    WalkEncodedRecords(p, pos, m.answers);
  }

  lemma HeaderCounts(p: seq<byte>, m: Message)
    requires ValidMessage(m) && |p| >= 12 && p[..12] == Header(m)
    ensures QdCount(p) == |m.questions| && AnCount(p) == |m.answers|
    ensures NsCount(p) == |m.authorities| && ArCount(p) == |m.additionals|
  {
    assert forall i :: 0 <= i < 12 ==> p[i] == p[..12][i];
  }

  // ---------------------------------------------------------------- the walkers invert the encoder

  lemma AddressFound(p: seq<byte>, at: nat, r: Record)
    requires RecordAt(p, at, r)
    ensures at + 10 <= |p| && AddressAt(p, at) == AddressOf(r) && Ttl(p, at) == r.ttl
  {
  }

  lemma {:induction false} AddressesFound(p: seq<byte>, ats: seq<nat>, rs: seq<Record>)
    requires RecordsAt(p, ats, rs)
    ensures forall k :: 0 <= k < |ats| ==> ats[k] + 10 <= |p|
    ensures AddressesIn(p, ats) == Addresses(rs)
    ensures LeastTtl(p, ats) == LeastOf(rs)
  {
    if ats != [] {
      AddressFound(p, ats[0], rs[0]);
      hide RecordAt, AddressAt, AddressOf, Ttl;
      AddressesFound(p, ats[1..], rs[1..]);
    }
  }

  /** Exactly the class-IN A and AAAA addresses of the answer section, in order. */
  lemma AddressesOfMessage(m: Message, trailer: seq<byte>)
    requires ValidMessage(m)
    ensures IpRecords(Encode(m) + trailer) == if Addresses(m.answers) == [] then None else Some(Addresses(m.answers))
  {
    hide Walk, SkipQuestions, Encode, EncodeQuestions, EncodeRecords, Starts;
    WalkMessage(m, trailer);
    AddressesFound(Encode(m) + trailer, Starts(m.answers, 12 + |EncodeQuestions(m.questions)|), m.answers);
  }

  /** The least answer TTL, unless that is the largest u32. */
  lemma MinTtlOfMessage(m: Message, trailer: seq<byte>)
    requires ValidMessage(m)
    ensures MinTtl(Encode(m) + trailer) == if LeastOf(m.answers) == U32_MAX then None else Some(LeastOf(m.answers))
  {
    hide Walk, SkipQuestions, Encode, EncodeQuestions, EncodeRecords, Starts;
    WalkMessage(m, trailer);
    AddressesFound(Encode(m) + trailer, Starts(m.answers, 12 + |EncodeQuestions(m.questions)|), m.answers);
  }

  ghost predicate IsLeast(least: u32, rs: seq<Record>) {
    (forall r :: r in rs ==> least <= r.ttl) && exists r :: r in rs && r.ttl == least
  }

  lemma {:induction false} LeastIsLeast(rs: seq<Record>)
    ensures rs != [] ==> IsLeast(LeastOf(rs), rs)
  {
    if rs != [] {
      var rest := rs[1..];
      LeastIsLeast(rest);
      assert rs == [rs[0]] + rest;
      if LeastOf(rs) == rs[0].ttl || rest == [] {
        assert rs[0] in rs;
      } else {
        var r :| r in rest && r.ttl == LeastOf(rest);
        assert r in rs;
      }
    }
  }

  lemma LeastOfIs(rs: seq<Record>, least: u32)
    requires IsLeast(least, rs)
    ensures LeastOf(rs) == least
  {
    LeastIsLeast(rs);
  }

  // ---------------------------------------------------------------- ageing the encoding is encoding the aged

  /** `a` and `b`, both meant to lie at `pos`, differ only inside the TTL fields of `ats`. */
  ghost predicate AgreeOff(a: seq<byte>, b: seq<byte>, ats: seq<nat>, pos: nat) {
    |a| == |b| && forall i :: 0 <= i < |a| && !InTtl(ats, pos + i) ==> a[i] == b[i]
  }

  lemma AgreeOffConcat(a: seq<byte>, b: seq<byte>, c: seq<byte>, d: seq<byte>, at: nat, ats: seq<nat>, pos: nat)
    requires AgreeOff(a, b, [at], pos) && AgreeOff(c, d, ats, pos + |a|)
    ensures AgreeOff(a + c, b + d, [at] + ats, pos)
  {
    forall i | 0 <= i < |a + c| && !InTtl([at] + ats, pos + i)
      ensures (a + c)[i] == (b + d)[i]
    {
      assert ([at] + ats)[0] == at;
      assert forall k :: 0 <= k < |ats| ==> ([at] + ats)[k + 1] == ats[k];
      if i < |a| {
        assert !InTtl([at], pos + i);
      } else {
        assert !InTtl(ats, pos + |a| + (i - |a|));
      }
    }
  }

  lemma AgedRecordAgrees(r: Record, elapsed: nat, pos: nat)
    requires ValidRecord(r)
    ensures
      var s := AgeRecordBy(r, elapsed);
      && ValidRecord(s) && FixedAt(s, pos) == FixedAt(r, pos) && NextAt(s, pos) == NextAt(r, pos)
      && AgreeOff(EncodeRecord(r), EncodeRecord(s), [FixedAt(r, pos)], pos)
  {
    var s := AgeRecordBy(r, elapsed);
    forall i | 0 <= i < |EncodeRecord(r)| && !InTtl([FixedAt(r, pos)], pos + i)
      ensures EncodeRecord(r)[i] == EncodeRecord(s)[i]
    {
      assert !([FixedAt(r, pos)][0] + 4 <= pos + i < [FixedAt(r, pos)][0] + 8);
    }
  }

  /** Encodings of the same records with different TTLs agree outside the TTL fields. */
  lemma {:induction false} AgedRecordsAgree(rs: seq<Record>, elapsed: nat, pos: nat)
    requires AllValid(rs)
    ensures AllValid(AgeRecords(rs, elapsed))
    ensures Starts(AgeRecords(rs, elapsed), pos) == Starts(rs, pos)
    ensures AgreeOff(EncodeRecords(rs), EncodeRecords(AgeRecords(rs, elapsed)), Starts(rs, pos), pos)
    decreases |rs|
  {
    if rs != [] {
      var r, ss := rs[0], AgeRecords(rs, elapsed);
      assert ss[0] == AgeRecordBy(r, elapsed) && ss[1..] == AgeRecords(rs[1..], elapsed);
      hide AgreeOff, EncodeRecord, FixedAt, AgeRecords, AgeRecordBy, ValidRecord;
      AgedRecordAgrees(r, elapsed, pos);
      AgedRecordsAgree(rs[1..], elapsed, NextAt(r, pos));
      AgreeOffConcat(EncodeRecord(r), EncodeRecord(ss[0]), EncodeRecords(rs[1..]), EncodeRecords(ss[1..]),
                     FixedAt(r, pos), Starts(rs[1..], NextAt(r, pos)), pos);
    }
  }

  lemma AgedMessageValid(m: Message, elapsed: nat)
    requires ValidMessage(m)
    ensures ValidMessage(AgeMessage(m, elapsed))
    ensures Header(AgeMessage(m, elapsed)) == Header(m) && AgeMessage(m, elapsed).questions == m.questions
    ensures AllRecords(AgeMessage(m, elapsed)) == AgeRecords(AllRecords(m), elapsed)
    ensures AllValid(AllRecords(m))
  {
  }

  /** Rewriting the TTLs of an encoded message gives exactly the encoding of the aged message. */
  lemma RewriteEncodesAged(m: Message, trailer: seq<byte>, q: seq<byte>, elapsed: nat)
    requires ValidMessage(m)
    requires AgedBy(Encode(m) + trailer, q, RewriteWalk(Encode(m) + trailer), elapsed)
    ensures ValidMessage(AgeMessage(m, elapsed))
    ensures q == Encode(AgeMessage(m, elapsed)) + trailer
    ensures WalksToTheEnd(Encode(m) + trailer)
  {
    AgedMessageValid(m, elapsed);
    AgedEncoding(m, trailer, elapsed);
    RewriteWalkStarts(m, trailer);
    hide *;
    var p := Encode(m) + trailer;
    AgedUnique(p, q, Encode(AgeMessage(m, elapsed)) + trailer, RewriteWalk(p), elapsed);
  }

  lemma RewriteWalkStarts(m: Message, trailer: seq<byte>)
    requires ValidMessage(m)
    ensures AllValid(AllRecords(m))
    ensures
      var p, ats := Encode(m) + trailer, Starts(AllRecords(m), 12 + |EncodeQuestions(m.questions)|);
      RewriteWalk(p) == ats && RecordsAt(p, ats, AllRecords(m)) && WalksToTheEnd(p)
  {
    hide Walk, SkipQuestions, EncodeQuestions, EncodeRecords, RecordsAt, Starts, Encode;
    WalkMessage(m, trailer);
  }

  /** The encoding of the aged message is the encoding of the message, rewritten. */
  lemma AgedEncoding(m: Message, trailer: seq<byte>, elapsed: nat)
    requires ValidMessage(m) && ValidMessage(AgeMessage(m, elapsed))
    ensures AgedBy(Encode(m) + trailer, Encode(AgeMessage(m, elapsed)) + trailer, RewriteWalk(Encode(m) + trailer),
                   elapsed)
  {
    AgedMessageValid(m, elapsed);
    RewriteWalkStarts(m, trailer);
    RewriteWalkStarts(AgeMessage(m, elapsed), trailer);
    AgedKept(m, trailer, elapsed);
    hide *;
    TtlsAged(Encode(m) + trailer, Encode(AgeMessage(m, elapsed)) + trailer,
             Starts(AllRecords(m), 12 + |EncodeQuestions(m.questions)|),
             AllRecords(m), AllRecords(AgeMessage(m, elapsed)), elapsed);
  }

  lemma AgedKept(m: Message, trailer: seq<byte>, elapsed: nat)
    requires ValidMessage(m) && ValidMessage(AgeMessage(m, elapsed))
    ensures AllValid(AllRecords(m)) && AllValid(AllRecords(AgeMessage(m, elapsed)))
    ensures
      var p, r := Encode(m) + trailer, Encode(AgeMessage(m, elapsed)) + trailer;
      var pos := 12 + |EncodeQuestions(m.questions)|;
      && |p| == |r| && KeptFrom(p, r, 0, Starts(AllRecords(m), pos))
      && Starts(AllRecords(AgeMessage(m, elapsed)), pos) == Starts(AllRecords(m), pos)
  {
    AgedRecordsAgree(AllRecords(m), elapsed, 12 + |EncodeQuestions(m.questions)|) by { AgedMessageValid(m, elapsed); }
    AgedShapes(m, trailer, elapsed);
    assert |Header(m)| == 12;
    hide *;
    KeptAround(Header(m), EncodeQuestions(m.questions), EncodeRecords(AllRecords(m)),
               EncodeRecords(AgeRecords(AllRecords(m), elapsed)), trailer,
               Starts(AllRecords(m), 12 + |EncodeQuestions(m.questions)|));
  }

  /** Both encodings in parts: header and questions are the same. */
  lemma AgedShapes(m: Message, trailer: seq<byte>, elapsed: nat)
    requires ValidMessage(m) && ValidMessage(AgeMessage(m, elapsed))
    ensures AllValid(AllRecords(m)) && AllValid(AgeRecords(AllRecords(m), elapsed))
    ensures AllRecords(AgeMessage(m, elapsed)) == AgeRecords(AllRecords(m), elapsed)
    ensures
      var front := Header(m) + EncodeQuestions(m.questions);
      && Encode(m) + trailer == front + EncodeRecords(AllRecords(m)) + trailer
      && Encode(AgeMessage(m, elapsed)) + trailer == front + EncodeRecords(AgeRecords(AllRecords(m), elapsed)) + trailer
  {
    AgedMessageValid(m, elapsed);
    AgedRecordsAgree(AllRecords(m), elapsed, 0);
    EncodeShape(m, trailer);
    EncodeShape(AgeMessage(m, elapsed), trailer);
    hide *;
  }

  lemma KeptAround(header: seq<byte>, qs: seq<byte>, a: seq<byte>, b: seq<byte>, trailer: seq<byte>, ats: seq<nat>)
    requires |header| == 12 && AgreeOff(a, b, ats, 12 + |qs|)
    ensures |header + qs + a + trailer| == |header + qs + b + trailer|
    ensures KeptFrom(header + qs + a + trailer, header + qs + b + trailer, 0, ats)
  {
    OffTtlSame(header + qs, a, b, trailer, ats);
  }

  lemma EncodeShape(m: Message, trailer: seq<byte>)
    requires ValidMessage(m)
    ensures Encode(m) + trailer == Header(m) + EncodeQuestions(m.questions) + EncodeRecords(AllRecords(m)) + trailer
  {
  }

  lemma OffTtlSame(front: seq<byte>, a: seq<byte>, b: seq<byte>, trailer: seq<byte>, ats: seq<nat>)
    requires AgreeOff(a, b, ats, |front|)
    ensures |front + a + trailer| == |front + b + trailer|
    ensures KeptFrom(front + a + trailer, front + b + trailer, 0, ats)
  {
    forall i | 0 <= i < |front + a + trailer| && !InTtl(ats, i)
      ensures (front + a + trailer)[i] == (front + b + trailer)[i]
    {
      if |front| <= i < |front| + |a| {
        assert !InTtl(ats, |front| + (i - |front|));
      }
    }
  }

  lemma TtlsAged(p: seq<byte>, r: seq<byte>, ats: seq<nat>, rs: seq<Record>, ss: seq<Record>, elapsed: nat)
    requires RecordsAt(p, ats, rs) && RecordsAt(r, ats, ss) && ss == AgeRecords(rs, elapsed)
    requires |p| == |r| && KeptFrom(p, r, 0, ats)
    ensures AgedBy(p, r, ats, elapsed)
  {
    forall k | 0 <= k < |ats|
      ensures ats[k] + 10 <= |p|
      ensures Ttl(r, ats[k]) == if IsOpt(p, ats[k]) then Ttl(p, ats[k]) else Aged(Ttl(p, ats[k]), elapsed)
    {
      assert RecordAt(p, ats[k], rs[k]) && RecordAt(r, ats[k], ss[k]);
    }
  }
}
