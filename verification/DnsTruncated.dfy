/** What is read from a response that was cut off inside an answer. */
module DnsTruncated {
  import opened Bytes
  import opened DnsWire
  import opened DnsMessage

  /** The first `cut` bytes of `s`, at the very end of `p`. */
  ghost predicate CutAt(p: seq<byte>, pos: nat, s: seq<byte>, cut: nat) {
    cut <= |s| && |p| == pos + cut && p[pos..] == s[..cut]
  }

  lemma CutSplit(p: seq<byte>, pos: nat, a: seq<byte>, b: seq<byte>, cut: nat)
    requires CutAt(p, pos, a + b, cut) && cut >= |a|
    ensures Holds(p, pos, a) && CutAt(p, pos + |a|, b, cut - |a|)
  {
    assert (a + b)[..cut] == a + b[..cut - |a|];
    assert p[pos..pos + |a|] == p[pos..][..|a|];
    assert p[pos + |a|..] == p[pos..][|a|..];
  }

  lemma CutByte(p: seq<byte>, pos: nat, s: seq<byte>, cut: nat)
    requires CutAt(p, pos, s, cut) && cut > 0
    ensures p[pos] == s[0]
  {
    assert p[pos..][0] == s[..cut][0];
  }

  /** A name cut off before its zero byte or pointer cannot be skipped. */
  lemma {:induction false} CutLabels(p: seq<byte>, pos: nat, labels: seq<seq<byte>>, rest: seq<byte>, cut: nat)
    requires ValidLabels(labels) && CutAt(p, pos, EncodeLabels(labels) + rest, cut) && cut <= |EncodeLabels(labels)|
    ensures SkipName(p, pos) == None
    decreases |labels|
  {
    if labels != [] && cut > 0 {
      var first, more := [|labels[0]|] + labels[0], EncodeLabels(labels[1..]);
      assert EncodeLabels(labels) + rest == first + (more + rest);
      CutByte(p, pos, EncodeLabels(labels) + rest, cut);
      if cut >= |first| {
        CutSplit(p, pos, first, more + rest, cut);
        CutLabels(p, pos + |first|, labels[1..], rest, cut - |first|);
      }
    }
  }

  /** A name cut off later is skipped, at least up to its end. */
  lemma CutName(p: seq<byte>, pos: nat, n: Name, rest: seq<byte>, cut: nat)
    requires ValidName(n) && CutAt(p, pos, EncodeName(n) + rest, cut) && cut > |EncodeLabels(n.labels)|
    ensures SkipName(p, pos) == Some(pos + |EncodeName(n)|)
  {
    var labels, end := EncodeLabels(n.labels), if n.end.Root? then [0] else [n.end.hi, n.end.lo];
    assert EncodeName(n) + rest == labels + (end + rest);
    CutSplit(p, pos, labels, end + rest, cut);
    SkipLabels(p, pos, n.labels);
    CutByte(p, pos + |labels|, end + rest, cut - |labels|);
  }

  /** A cut inside the labels of a record's name loses what was read; any later cut keeps it. */
  predicate CutInLabels(r: Record, cut: nat)
    requires ValidRecord(r)
  {
    cut <= |EncodeLabels(r.name.labels)|
  }

  lemma CutRecord(p: seq<byte>, pos: nat, r: Record, cut: nat, n: nat)
    requires ValidRecord(r) && CutAt(p, pos, EncodeRecord(r), cut) && cut < |EncodeRecord(r)| && n > 0
    ensures Gather(p, pos, n) == if CutInLabels(r, cut) then None else Some([])
  {
    var name, tail := EncodeName(r.name), FixedPart(r) + r.rdata;
    GatherEnds(p, pos, n);
    if CutInLabels(r, cut) {
      hide Gather, FixedPart;
      var end := if r.name.end.Root? then [0] else [r.name.end.hi, r.name.end.lo];
      assert name + tail == EncodeLabels(r.name.labels) + (end + tail);
      CutLabels(p, pos, r.name.labels, end + tail, cut);
    } else {
      CutName(p, pos, r.name, tail, cut);
      hide Gather, EncodeName, SkipName, RdLen, FixedPart;
      if pos + |name| + 10 <= |p| {
        CutBody(p, pos, r, cut);
        GatherStep(p, pos, n, pos + |name|, pos + |name| + 10 + |r.rdata|);
      }
    }
  }

  lemma CutBody(p: seq<byte>, pos: nat, r: Record, cut: nat)
    requires ValidRecord(r) && CutAt(p, pos, EncodeRecord(r), cut) && cut >= |EncodeName(r.name)| + 10
    ensures pos + |EncodeName(r.name)| + 10 <= |p| && RdLen(p, pos + |EncodeName(r.name)|) == |r.rdata|
  {
    var name, tail := EncodeName(r.name), FixedPart(r) + r.rdata;
    CutSplit(p, pos, name, tail, cut);
    CutSplit(p, pos + |name|, FixedPart(r), r.rdata, cut - |name|);
    BodyLength(p, pos + |name|, r);
  }

  lemma BodyLength(p: seq<byte>, at: nat, r: Record)
    requires ValidRecord(r) && Holds(p, at, FixedPart(r))
    ensures at + 10 <= |p| && RdLen(p, at) == |r.rdata|
  {
    hide PutBe16, PutBe32, Be16At;
    HoldsSplit(p, at, PutBe16(r.rtype) + PutBe16(r.rclass) + PutBe32(r.ttl), PutBe16(|r.rdata|));
    HoldsBe16(p, at + 8, |r.rdata|);
  }

  lemma {:induction false} CutRecords(p: seq<byte>, pos: nat, rs: seq<Record>, last: Record, cut: nat, n: nat)
    requires AllValid(rs) && ValidRecord(last) && cut < |EncodeRecord(last)| && n > |rs|
    requires CutAt(p, pos, EncodeRecords(rs) + EncodeRecord(last), |EncodeRecords(rs)| + cut)
    ensures Gather(p, pos, n) == if CutInLabels(last, cut) then None else Some(Addresses(rs))
    decreases |rs|
  {
    hide EncodeRecord, Gather, CutInLabels, CutAt;
    if rs == [] {
      assert EncodeRecords(rs) + EncodeRecord(last) == EncodeRecord(last);
      CutRecord(p, pos, last, cut, n);
    } else {
      var r, more := rs[0], EncodeRecords(rs[1..]) + EncodeRecord(last);
      assert EncodeRecords(rs) + EncodeRecord(last) == EncodeRecord(r) + more;
      CutSplit(p, pos, EncodeRecord(r), more, |EncodeRecords(rs)| + cut);
      CutRecords(p, NextAt(r, pos), rs[1..], last, cut, n - 1);
      RecordRead(p, pos, r, n);
    }
  }

  /** A whole record adds its address to what is read after it. */
  lemma RecordRead(p: seq<byte>, pos: nat, r: Record, n: nat)
    requires ValidRecord(r) && Holds(p, pos, EncodeRecord(r)) && n > 0
    ensures
      var rest := Gather(p, NextAt(r, pos), n - 1);
      Gather(p, pos, n) == if rest.None? then None else Some(AddressOf(r) + rest.value)
  {
    RecordHeld(p, pos, r);
    AddressFound(p, FixedAt(r, pos), r);
    hide *;
    RecordInside(p, pos, r);
    GatherStep(p, pos, n, FixedAt(r, pos), NextAt(r, pos));
  }

  lemma RecordInside(p: seq<byte>, pos: nat, r: Record)
    requires ValidRecord(r) && Holds(p, pos, EncodeRecord(r))
    ensures NextAt(r, pos) <= |p|
  {
  }

  /** A message cut off inside its answer number `k`. */
  function CutMessage(m: Message, k: nat, cut: nat): seq<byte>
    requires ValidMessage(m) && k < |m.answers| && cut < |EncodeRecord(m.answers[k])|
  {
    Header(m) + EncodeQuestions(m.questions) + EncodeRecords(m.answers[..k]) + EncodeRecord(m.answers[k])[..cut]
  }

  lemma CutIsPrefix(m: Message, k: nat, cut: nat)
    requires ValidMessage(m) && k < |m.answers| && cut < |EncodeRecord(m.answers[k])|
    ensures CutMessage(m, k, cut) <= Encode(m)
  {
    var front, r := m.answers[..k], m.answers[k];
    var later := m.answers[k + 1..] + m.authorities + m.additionals;
    assert Encode(m) == Header(m) + (EncodeQuestions(m.questions) + EncodeRecords(AllRecords(m)));
    RecordsAround(m, k);
    hide *;
    PrefixOfParts(Header(m), EncodeQuestions(m.questions), EncodeRecords(front), EncodeRecord(r), cut,
                  EncodeRecords(later));
    CutParts(m, k, cut);
  }

  lemma CutParts(m: Message, k: nat, cut: nat)
    requires ValidMessage(m) && k < |m.answers| && cut < |EncodeRecord(m.answers[k])|
    ensures AllValid(m.answers[..k])
    ensures CutMessage(m, k, cut) == Header(m) + EncodeQuestions(m.questions) + EncodeRecords(m.answers[..k])
                                     + EncodeRecord(m.answers[k])[..cut]
  {
    hide Header, EncodeQuestions, EncodeRecords, EncodeRecord;
  }

  lemma RecordsAround(m: Message, k: nat)
    requires ValidMessage(m) && k < |m.answers|
    ensures
      var later := m.answers[k + 1..] + m.authorities + m.additionals;
      && AllValid(m.answers[..k]) && AllValid(later)
      && EncodeRecords(AllRecords(m)) ==
         EncodeRecords(m.answers[..k]) + (EncodeRecord(m.answers[k]) + EncodeRecords(later))
  {
    var front, r := m.answers[..k], m.answers[k];
    var later := m.answers[k + 1..] + m.authorities + m.additionals;
    assert AllRecords(m) == front + ([r] + later);
    hide EncodeRecord, ValidRecord;
    OneRecord(r, later);
    hide EncodeRecords;
    RecordsSplit(front, [r] + later);
  }

  lemma OneRecord(r: Record, later: seq<Record>)
    requires ValidRecord(r) && AllValid(later)
    ensures AllValid([r] + later) && EncodeRecords([r] + later) == EncodeRecord(r) + EncodeRecords(later)
  {
    hide EncodeRecord, ValidRecord;
    assert ([r] + later)[1..] == later;
  }

  lemma PrefixOfParts(a: seq<byte>, b: seq<byte>, c: seq<byte>, d: seq<byte>, cut: nat, e: seq<byte>)
    requires cut <= |d|
    ensures a + b + c + d[..cut] <= a + (b + (c + (d + e)))
  {
    assert d == d[..cut] + d[cut..];
    assert a + (b + (c + (d + e))) == (a + b + c + d[..cut]) + (d[cut..] + e);
  }

  /** A response cut off inside an answer yields the addresses of the answers before it, unless the cut falls before the
      end of that answer's labels: then it yields none at all. */
  lemma TruncatedMessage(m: Message, k: nat, cut: nat)
    requires ValidMessage(m) && k < |m.answers| && cut < |EncodeRecord(m.answers[k])|
    ensures CutMessage(m, k, cut) <= Encode(m)
    ensures
      var before := Addresses(m.answers[..k]);
      IpRecords(CutMessage(m, k, cut)) ==
        if cut <= |EncodeLabels(m.answers[k].name.labels)| || before == [] then None else Some(before)
  {
    CutIsPrefix(m, k, cut);
    CutRead(m, k, cut);
    hide Gather, Encode, EncodeRecord, QuestionsEnd, CutMessage, Be16At, Addresses, EncodeQuestions, EncodeLabels;
    IpRecordsFrom(CutMessage(m, k, cut));
  }

  lemma CutRead(m: Message, k: nat, cut: nat)
    requires ValidMessage(m) && k < |m.answers| && cut < |EncodeRecord(m.answers[k])|
    ensures
      var p, pos := CutMessage(m, k, cut), 12 + |EncodeQuestions(m.questions)|;
      && |p| >= 12 && AnCount(p) == |m.answers| && QuestionsEnd(p) == Some(pos)
      && Gather(p, pos, |m.answers|) ==
           if CutInLabels(m.answers[k], cut) then None else Some(Addresses(m.answers[..k]))
  {
    var p, pos := CutMessage(m, k, cut), 12 + |EncodeQuestions(m.questions)|;
    Valid(m, k);
    hide *;
    CutLies(m, k, cut);
    QuestionsFound(p, m);
    CutRecords(p, pos, m.answers[..k], m.answers[k], cut, |m.answers|);
  }

  lemma CutLies(m: Message, k: nat, cut: nat)
    requires ValidMessage(m) && k < |m.answers| && cut < |EncodeRecord(m.answers[k])|
    ensures AllValid(m.answers[..k]) && ValidRecord(m.answers[k]) && ValidQuestions(m.questions)
    ensures
      var p, qs, rs := CutMessage(m, k, cut), EncodeQuestions(m.questions), EncodeRecords(m.answers[..k]);
      && |p| >= 12 && p[..12] == Header(m) && Holds(p, 12, qs)
      && CutAt(p, 12 + |qs|, rs + EncodeRecord(m.answers[k]), |rs| + cut)
  {
    CutParts(m, k, cut);
    Valid(m, k);
    hide *;
    CutShape(Header(m), EncodeQuestions(m.questions), EncodeRecords(m.answers[..k]), EncodeRecord(m.answers[k]), cut);
  }

  lemma Valid(m: Message, k: nat)
    requires ValidMessage(m) && k < |m.answers|
    ensures ValidRecord(m.answers[k]) && AllValid(m.answers[..k]) && ValidQuestions(m.questions)
  {
    hide ValidRecord;
  }

  lemma QuestionsFound(p: seq<byte>, m: Message)
    requires ValidMessage(m) && |p| >= 12 && p[..12] == Header(m) && Holds(p, 12, EncodeQuestions(m.questions))
    ensures AnCount(p) == |m.answers| && QuestionsEnd(p) == Some(12 + |EncodeQuestions(m.questions)|)
  {
    hide Header, EncodeQuestions, Holds, SkipQuestions;
    HeaderCounts(p, m);
    SkipEncodedQuestions(p, 12, m.questions);
  }

  lemma CutShape(header: seq<byte>, qs: seq<byte>, rs: seq<byte>, last: seq<byte>, cut: nat)
    requires |header| == 12 && cut <= |last|
    ensures
      var p := header + qs + rs + last[..cut];
      p[..12] == header && Holds(p, 12, qs) && CutAt(p, 12 + |qs|, rs + last, |rs| + cut)
  {
    var p := header + qs + rs + last[..cut];
    assert (rs + last)[..|rs| + cut] == rs + last[..cut];
    assert p[12 + |qs|..] == rs + last[..cut];
  }
}
