/** Ageing the TTLs of a message in place, and what that leaves alone (src/dns.rs, `rewrite_ttls`). */
module DnsRewrite {
  import opened Bytes
  import opened DnsWire
  import opened Sequences

  // ---------------------------------------------------------------- specification

  /** Offset `i` lies in the TTL field of one of the records. */
  ghost predicate InTtl(ats: seq<nat>, i: nat) {
    exists k :: 0 <= k < |ats| && ats[k] + 4 <= i < ats[k] + 8
  }

  function Aged(ttl: u32, elapsed: nat): u32 {
    if ttl > elapsed then ttl - elapsed else 1
  }

  /** `q` is `p` with the TTL of every non-OPT record at `ats` aged and nothing else touched. */
  ghost predicate AgedBy(p: seq<byte>, q: seq<byte>, ats: seq<nat>, elapsed: nat) {
    && |q| == |p|
    && (forall k :: 0 <= k < |ats| ==> ats[k] + 10 <= |p|)
    && KeptFrom(p, q, 0, ats)
    && (forall k :: 0 <= k < |ats| ==>
          Ttl(q, ats[k]) == if IsOpt(p, ats[k]) then Ttl(p, ats[k]) else Aged(Ttl(p, ats[k]), elapsed))
  }

  /** The walk reaches every announced record and every body fits. */
  predicate WalksToTheEnd(p: seq<byte>) {
    && QuestionsEnd(p).Some?
    && FullWalk(p).stop.Finished?
    && FullWalk(p).stop.pos <= |p|
  }

  // ---------------------------------------------------------------- the in-place edit

  /** Records do not overlap: each one ends, body included, before the next begins. */
  ghost predicate Spaced(p: seq<byte>, ats: seq<nat>) {
    && (forall k :: 0 <= k < |ats| ==> ats[k] + 10 <= |p|)
    && (forall j, k :: 0 <= j < k < |ats| ==> ats[j] + 10 + RdLen(p, ats[j]) <= ats[k])
  }

  lemma {:induction false} WalkSpaced(p: seq<byte>, pos: nat, n: nat)
    ensures Spaced(p, Walk(p, pos, n).at)
    ensures forall k :: 0 <= k < |Walk(p, pos, n).at| ==> pos < Walk(p, pos, n).at[k]
    decreases n
  {
    if n > 0 && SkipName(p, pos).Some? && SkipName(p, pos).value + 10 <= |p| {
      SkipNameAdvances(p, pos);
      var at := SkipName(p, pos).value;
      var next := at + 10 + RdLen(p, at);
      WalkUnfold(p, pos, n, at, next);
      hide SkipName, RdLen, Walk, Be16At;
      WalkSpaced(p, next, n - 1);
    }
  }

  /** Skipping a name reads only the bytes of that name. */
  lemma {:induction false} SkipNameLocal(p: seq<byte>, q: seq<byte>, pos: nat)
    requires |p| == |q|
    requires forall i :: pos <= i < |p| && (SkipName(p, pos).Some? ==> i < SkipName(p, pos).value) ==> q[i] == p[i]
    ensures SkipName(q, pos) == SkipName(p, pos)
    decreases |p| - pos
  {
    if pos < |p| {
      SkipNameAdvances(p, pos);
      if 0 < p[pos] < 0xC0 {
        SkipNameAdvances(p, pos + 1 + p[pos]);
        SkipNameLocal(p, q, pos + 1 + p[pos]);
      }
    }
  }

  lemma {:induction false} SkipQuestionsLocal(p: seq<byte>, q: seq<byte>, pos: nat, n: nat)
    requires |p| == |q|
    requires forall i :: pos <= i < |p| && (SkipQuestions(p, pos, n).Some? ==> i < SkipQuestions(p, pos, n).value) ==>
               q[i] == p[i]
    ensures SkipQuestions(q, pos, n) == SkipQuestions(p, pos, n)
    ensures SkipQuestions(p, pos, n).Some? ==> SkipQuestions(p, pos, n).value >= pos
    decreases n
  {
    if n > 0 {
      SkipNameAdvances(p, pos);
      var s := SkipName(p, pos);
      if s.Some? && s.value + 4 <= |p| {
        SkipQuestionsAdvance(p, s.value + 4, n - 1);
        SkipNameLocal(p, q, pos);
        SkipQuestionsLocal(p, q, s.value + 4, n - 1);
      } else {
        SkipNameLocal(p, q, pos);
      }
    }
  }

  lemma {:induction false} SkipQuestionsAdvance(p: seq<byte>, pos: nat, n: nat)
    ensures SkipQuestions(p, pos, n).Some? ==> SkipQuestions(p, pos, n).value >= pos
    decreases n
  {
    if n > 0 {
      SkipNameAdvances(p, pos);
      var s := SkipName(p, pos);
      if s.Some? && s.value + 4 <= |p| {
        SkipQuestionsAdvance(p, s.value + 4, n - 1);
      }
    }
  }

  /** The rest of a record, and everything before the first one, is outside every TTL field. */
  lemma OutsideTtl(p: seq<byte>, ats: seq<nat>, k: nat, i: nat)
    requires Spaced(p, ats) && k < |ats|
    requires ats[k] <= i < ats[k] + 4 || ats[k] + 8 <= i < ats[k] + 10 + RdLen(p, ats[k]) || (k == 0 && i < ats[0] + 4)
    ensures !InTtl(ats, i)
  {
    forall j | 0 <= j < |ats|
      ensures !(ats[j] + 4 <= i < ats[j] + 8)
    {
    }
  }

  lemma TtlsOfTail(p: seq<byte>, at: nat, tail: seq<nat>, i: nat)
    requires Spaced(p, [at] + tail) && at + 10 <= i && InTtl([at] + tail, i)
    ensures InTtl(tail, i)
  {
    var ats := [at] + tail;
    var k :| 0 <= k < |ats| && ats[k] + 4 <= i < ats[k] + 8;
    assert tail[k - 1] == ats[k];
  }

  /** Changing bytes only inside TTL fields of walked records leaves any shorter walk as it was. */
  lemma {:induction false} WalkFraming(p: seq<byte>, q: seq<byte>, pos: nat, m: nat, n: nat)
    requires |p| == |q| && m <= n
    requires KeptFrom(p, q, pos, Walk(p, pos, n).at)
    ensures Walk(q, pos, m) == Walk(p, pos, m)
    decreases m
  {
    if m > 0 {
      var s := SkipName(p, pos);
      SkipNameAdvances(p, pos);
      if s.None? || s.value + 10 > |p| {
        assert KeptFrom(p, q, pos, []);
        SkipNameLocal(p, q, pos);
      } else {
        var next := s.value + 10 + RdLen(p, s.value);
        FirstRecordKept(p, q, pos, n, s.value, next);
        WalkFraming(p, q, next, m - 1, n - 1);
        WalkGlue(p, q, pos, m, s.value, next);
      }
    }
  }

  lemma WalkGlue(p: seq<byte>, q: seq<byte>, pos: nat, m: nat, at: nat, next: nat)
    requires |p| == |q| && m > 0 && SkipName(p, pos) == SkipName(q, pos) == Some(at) && at + 10 <= |p|
    requires next == at + 10 + RdLen(p, at) == at + 10 + RdLen(q, at)
    requires Walk(q, next, m - 1) == Walk(p, next, m - 1)
    ensures Walk(q, pos, m) == Walk(p, pos, m)
  {
    WalkUnfold(p, pos, m, at, next);
    WalkUnfold(q, pos, m, at, next);
  }

  /** From `pos` on, `q` differs from `p` only inside the TTL fields of `ats`. */
  ghost predicate KeptFrom(p: seq<byte>, q: seq<byte>, pos: nat, ats: seq<nat>)
    requires |p| == |q|
  {
    forall i :: pos <= i < |p| && !InTtl(ats, i) ==> q[i] == p[i]
  }

  lemma RestKept(p: seq<byte>, q: seq<byte>, pos: nat, at: nat, next: nat, tail: seq<nat>)
    requires |p| == |q| && Spaced(p, [at] + tail) && pos <= at && at + 10 <= next
    requires KeptFrom(p, q, pos, [at] + tail)
    ensures KeptFrom(p, q, next, tail)
  {
    forall i | next <= i < |p| && !InTtl(tail, i)
      ensures q[i] == p[i]
    {
      if InTtl([at] + tail, i) {
        TtlsOfTail(p, at, tail, i);
      }
    }
  }

  lemma FirstRecordKept(p: seq<byte>, q: seq<byte>, pos: nat, n: nat, at: nat, next: nat)
    requires |p| == |q| && n > 0 && SkipName(p, pos) == Some(at) && at + 10 <= |p|
    requires next == at + 10 + RdLen(p, at)
    requires KeptFrom(p, q, pos, Walk(p, pos, n).at)
    ensures SkipName(q, pos) == Some(at) && RdLen(q, at) == RdLen(p, at)
    ensures KeptFrom(p, q, next, Walk(p, next, n - 1).at)
  {
    WalkUnfold(p, pos, n, at, next);
    WalkSpaced(p, pos, n);
    SkipNameAdvances(p, pos);
    var ats := Walk(p, pos, n).at;
    forall i | pos <= i < at || at + 8 <= i < at + 10
      ensures q[i] == p[i]
    {
      OutsideTtl(p, ats, 0, i);
    }
    SkipNameLocal(p, q, pos);
    RestKept(p, q, pos, at, next, Walk(p, next, n - 1).at);
  }

  /** A longer walk visits the records of a shorter one first. */
  lemma {:induction false} WalkPrefix(p: seq<byte>, pos: nat, m: nat, n: nat)
    requires m <= n
    ensures Walk(p, pos, m).at <= Walk(p, pos, n).at
    decreases m
  {
    if m > 0 && SkipName(p, pos).Some? && SkipName(p, pos).value + 10 <= |p| {
      var at := SkipName(p, pos).value;
      WalkPrefix(p, at + 10 + RdLen(p, at), m - 1, n - 1);
    }
  }

  /** `q` differs from `p` at most in the transaction id and in the TTL fields rewriting reaches. */
  ghost predicate SameFrame(p: seq<byte>, q: seq<byte>) {
    && |p| == |q|
    && KeptFrom(p, q, 2, RewriteWalk(p))
  }

  lemma HeaderKept(p: seq<byte>, q: seq<byte>)
    requires SameFrame(p, q) && |p| >= 12
    ensures AnCount(q) == AnCount(p) <= RecordCount(p) == RecordCount(q)
    ensures QuestionsEnd(q) == QuestionsEnd(p)
  {
    SkipQuestionsAdvance(p, 12, QdCount(p));
    var limit := if QuestionsEnd(p).Some? then Min(QuestionsEnd(p).value, |p|) else |p|;
    forall i | 2 <= i < limit
      ensures q[i] == p[i]
    {
      if QuestionsEnd(p).Some? {
        AnswersFirst(p);
        if FullWalk(p).at != [] {
          OutsideTtl(p, FullWalk(p).at, 0, i);
        }
      }
    }
    SkipQuestionsLocal(p, q, 12, QdCount(p));
  }

  /** Framing survives: the question section, both walks and completeness are unchanged. */
  lemma FrameKept(p: seq<byte>, q: seq<byte>)
    requires SameFrame(p, q)
    ensures QuestionsEnd(q) == QuestionsEnd(p)
    ensures |p| >= 12 ==> AnCount(q) == AnCount(p)
    ensures QuestionsEnd(p).Some? ==> AnswerWalk(q) == AnswerWalk(p) && FullWalk(q) == FullWalk(p)
    ensures RewriteWalk(q) == RewriteWalk(p)
    ensures WalksToTheEnd(q) == WalksToTheEnd(p)
  {
    if |p| >= 12 {
      hide Walk, SkipQuestions, RecordCount, AnCount;
      HeaderKept(p, q);
      if QuestionsEnd(p).Some? {
        AnswersFirst(p);
        WalkFraming(p, q, QuestionsEnd(p).value, AnCount(p), RecordCount(p));
        WalkFraming(p, q, QuestionsEnd(p).value, RecordCount(p), RecordCount(p));
      }
    }
  }

  lemma AnswersFirst(p: seq<byte>)
    requires QuestionsEnd(p).Some?
    ensures AnswerWalk(p).at <= FullWalk(p).at
    ensures Spaced(p, FullWalk(p).at)
    ensures 12 <= QuestionsEnd(p).value
    ensures forall k :: 0 <= k < |FullWalk(p).at| ==> QuestionsEnd(p).value < FullWalk(p).at[k]
  {
    hide Walk, SkipQuestions, Be16At;
    SkipQuestionsAdvance(p, 12, QdCount(p));
    WalkPrefix(p, QuestionsEnd(p).value, AnCount(p), RecordCount(p));
    WalkSpaced(p, QuestionsEnd(p).value, RecordCount(p));
  }

  /** A record's type, class, length and body lie outside every TTL field. */
  lemma RecordKept(p: seq<byte>, q: seq<byte>, ats: seq<nat>, k: nat)
    requires |p| == |q| && Spaced(p, ats) && k < |ats| && 2 <= ats[k]
    requires KeptFrom(p, q, 2, ats)
    ensures BodyFits(q, ats[k]) == BodyFits(p, ats[k])
    ensures IsOpt(q, ats[k]) == IsOpt(p, ats[k])
    ensures AddressAt(q, ats[k]) == AddressAt(p, ats[k])
  {
    var at := ats[k];
    forall i | 0 <= i < |p| && (at <= i < at + 4 || at + 8 <= i < at + 10 + RdLen(p, at))
      ensures q[i] == p[i]
    {
      OutsideTtl(p, ats, k, i);
    }
    assert RdLen(q, at) == RdLen(p, at);
    if BodyFits(p, at) {
      assert q[at + 10..at + 10 + RdLen(p, at)] == p[at + 10..at + 10 + RdLen(p, at)];
    }
  }

  lemma {:induction false} AddressesKept(p: seq<byte>, q: seq<byte>, ats: seq<nat>)
    requires |p| == |q|
    requires forall k :: 0 <= k < |ats| ==> ats[k] + 10 <= |p|
    requires forall k :: 0 <= k < |ats| ==> AddressAt(q, ats[k]) == AddressAt(p, ats[k])
    ensures AddressesIn(q, ats) == AddressesIn(p, ats)
  {
    if ats != [] {
      AddressesKept(p, q, ats[1..]);
    }
  }

  /** Restamping the id and ageing TTLs never changes what addresses are read from a message. */
  lemma AddressesSurvive(p: seq<byte>, q: seq<byte>)
    requires SameFrame(p, q)
    ensures IpRecords(q) == IpRecords(p)
  {
    hide Walk, SkipQuestions, AnCount, RecordCount, AddressAt;
    FrameKept(p, q);
    if QuestionsEnd(p).Some? {
      AnswersFirst(p);
      var ats := AnswerWalk(p).at;
      forall k | 0 <= k < |ats|
        ensures AddressAt(q, ats[k]) == AddressAt(p, ats[k]) && BodyFits(q, ats[k]) == BodyFits(p, ats[k])
      {
        assert FullWalk(p).at[k] == ats[k];
        RecordKept(p, q, FullWalk(p).at, k);
      }
      AddressesKept(p, q, ats);
    }
  }

  // ---------------------------------------------------------------- the in-place edit

  /** One record's TTL is rewritten; nothing else is. */
  ghost predicate OneAged(p: seq<byte>, q: seq<byte>, at: nat, elapsed: nat)
    requires at + 10 <= |p|
  {
    && |q| == |p|
    && (forall i :: 0 <= i < |p| && !(at + 4 <= i < at + 8) ==> q[i] == p[i])
    && Ttl(q, at) == if IsOpt(p, at) then Ttl(p, at) else Aged(Ttl(p, at), elapsed)
  }

  method AgeRecord(packet: array<byte>, at: nat, elapsed: u32)
    requires at + 10 <= packet.Length
    modifies packet
    ensures OneAged(old(packet[..]), packet[..], at, elapsed)
  {
    if Be16At(packet[..], at) != TYPE_OPT {
      var ttl := Be32At(packet[..], at + 4);
      var saturated := if ttl > elapsed then ttl - elapsed else 0;
      var bytes := PutBe32(Max(saturated, 1));
      packet[at + 4], packet[at + 5], packet[at + 6], packet[at + 7] := bytes[0], bytes[1], bytes[2], bytes[3];
    }
  }

  /** Ageing a record that begins after all those already aged. */
  lemma AgedByStep(p: seq<byte>, q: seq<byte>, r: seq<byte>, ats: seq<nat>, at: nat, elapsed: nat)
    requires AgedBy(p, q, ats, elapsed) && (forall k :: 0 <= k < |ats| ==> ats[k] + 10 <= at)
    requires at + 10 <= |p| && OneAged(q, r, at, elapsed)
    ensures AgedBy(p, r, ats + [at], elapsed)
  {
    var more := ats + [at];
    assert more[|ats|] == at;
    forall i | 0 <= i < |p| && !InTtl(more, i)
      ensures r[i] == p[i]
    {
      assert forall k :: 0 <= k < |ats| ==> more[k] == ats[k];
    }
    forall i | at <= i < at + 10
      ensures q[i] == p[i]
    {
      assert !InTtl(ats, i);
    }
    assert IsOpt(q, at) == IsOpt(p, at) && Ttl(q, at) == Ttl(p, at);
  }

  /** The records at `done` are aged, and those still to be walked from `pos` complete the full walk. */
  ghost predicate AgeingSoFar(p: seq<byte>, q: seq<byte>, done: seq<nat>, pos: nat, n: nat, elapsed: nat) {
    && QuestionsEnd(p).Some?
    && FullWalk(p) == Walked(done + Walk(p, pos, n).at, Walk(p, pos, n).stop)
    && (forall k :: 0 <= k < |done| ==> done[k] + 10 <= pos)
    && SameFrom(p, q, pos)
    && AgedBy(p, q, done, elapsed)
  }

  lemma AgeingStarts(p: seq<byte>, elapsed: nat)
    ensures AgedBy(p, p, [], elapsed)
    ensures QuestionsEnd(p).None? ==> AgedBy(p, p, RewriteWalk(p), elapsed) && !WalksToTheEnd(p)
    ensures QuestionsEnd(p).Some? ==>
              var pos := QuestionsEnd(p).value;
              pos <= |p| && AgeingSoFar(p, p, [], pos, RecordCount(p), elapsed)
  {
    if QuestionsEnd(p).Some? {
      SkipQuestionsBound(p, 12, QdCount(p));
      assert [] + FullWalk(p).at == FullWalk(p).at;
    }
  }

  lemma {:induction false} SkipQuestionsBound(p: seq<byte>, pos: nat, n: nat)
    requires pos <= |p|
    ensures SkipQuestions(p, pos, n).Some? ==> SkipQuestions(p, pos, n).value <= |p|
    decreases n
  {
    if n > 0 && SkipName(p, pos).Some? && SkipName(p, pos).value + 4 <= |p| {
      SkipQuestionsBound(p, SkipName(p, pos).value + 4, n - 1);
    }
  }

  lemma AgeingStops(p: seq<byte>, q: seq<byte>, done: seq<nat>, pos: nat, n: nat, elapsed: nat)
    requires AgeingSoFar(p, q, done, pos, n, elapsed)
    requires n == 0 || SkipName(q, pos).None? || SkipName(q, pos).value + 10 > |p|
    ensures AgedBy(p, q, RewriteWalk(p), elapsed)
    ensures WalksToTheEnd(p) == (n == 0 && pos <= |p|)
  {
    SkipNameSuffix(p, q, pos);
    assert done + [] == done;
  }

  lemma SuffixAfterAgeing(p: seq<byte>, q: seq<byte>, r: seq<byte>, pos: nat, at: nat, elapsed: nat)
    requires SameFrom(p, q, pos) && pos < at && at + 10 <= |p| && OneAged(q, r, at, elapsed)
    ensures RdLen(r, at) == RdLen(p, at)
    ensures SameFrom(p, r, at + 10 + RdLen(p, at))
  {
  }

  lemma AgeingAdvances(p: seq<byte>, q: seq<byte>, r: seq<byte>, done: seq<nat>, pos: nat, n: nat, at: nat,
                       elapsed: nat)
    requires AgeingSoFar(p, q, done, pos, n, elapsed) && n > 0
    requires SkipName(q, pos) == Some(at) && at + 10 <= |p| && OneAged(q, r, at, elapsed)
    ensures AgeingSoFar(p, r, done + [at], at + 10 + RdLen(r, at), n - 1, elapsed)
    ensures at + 10 + RdLen(r, at) > |p| ==> AgedBy(p, r, RewriteWalk(p), elapsed) && !WalksToTheEnd(p)
  {
    hide Walk, QuestionsEnd, AgedBy, OneAged, Be16At, Be32At;
    SkipNameSuffix(p, q, pos);
    var next := at + 10 + RdLen(p, at);
    SuffixAfterAgeing(p, q, r, pos, at, elapsed);
    AgedByStep(p, q, r, done, at, elapsed);
    WalkUnfold(p, pos, n, at, next);
    MoveOne(done, at, Walk(p, next, n - 1).at);
    if next > |p| {
      AgeingStops(p, r, done + [at], next, n - 1, elapsed);
    }
  }

  /** Ageing in place, over a buffer. On failure the records already reached stay edited. */
  method RewriteTtls(packet: array<byte>, elapsed: u32) returns (ok: bool)
    modifies packet
    ensures AgedBy(old(packet[..]), packet[..], RewriteWalk(old(packet[..])), elapsed)
    ensures ok == WalksToTheEnd(old(packet[..]))
  {
    hide AgeingSoFar, AgedBy, WalksToTheEnd, OneAged, SkipName, RdLen, RecordCount;
    ghost var p := packet[..];
    AgeingStarts(p, elapsed);
    if packet.Length < 12 {
      return false;
    }
    var questions := SkipQuestionSection(packet[..]);
    if questions.None? {
      return false;
    }
    var pos: nat := questions.value;
    var n: nat := RecordCount(packet[..]);
    var view := packet[..];
    ghost var done: seq<nat> := [];
    for i := 0 to n
      invariant view == packet[..] && pos <= |view|
      invariant AgeingSoFar(p, view, done, pos, n - i, elapsed)
    {
      var s := SkipDnsName(view, pos);
      if s.None? || s.value + 10 > |view| {
        AgeingStops(p, view, done, pos, n - i, elapsed);
        return false;
      }
      AgeRecord(packet, s.value, elapsed);
      AgeingAdvances(p, view, packet[..], done, pos, n - i, s.value, elapsed);
      view := packet[..];
      done := done + [s.value];
      pos := s.value + 10 + RdLen(view, s.value);
      if pos > |view| {
        return false;
      }
    }
    AgeingStops(p, view, done, pos, 0, elapsed);
    return true;
  }

  ghost predicate SameFrom(p: seq<byte>, q: seq<byte>, pos: nat) {
    |p| == |q| && forall i :: pos <= i < |p| ==> q[i] == p[i]
  }

  lemma SkipNameSuffix(p: seq<byte>, q: seq<byte>, pos: nat)
    requires SameFrom(p, q, pos)
    ensures SkipName(q, pos) == SkipName(p, pos)
    ensures SkipName(p, pos).Some? ==> SkipName(p, pos).value > pos
  {
    SkipNameAdvances(p, pos);
    SkipNameLocal(p, q, pos);
  }

  // ---------------------------------------------------------------- what ageing means

  lemma AgedKeepsFrame(p: seq<byte>, q: seq<byte>, elapsed: nat)
    requires AgedBy(p, q, RewriteWalk(p), elapsed)
    ensures SameFrame(p, q)
  {
  }

  lemma TtlBytes(q: seq<byte>, r: seq<byte>, at: nat, i: nat)
    requires at + 10 <= |q| == |r| && Ttl(q, at) == Ttl(r, at) && at + 4 <= i < at + 8
    ensures q[i] == r[i]
  {
    Be32Injective(q, r, at + 4);
  }

  /** The specification leaves nothing open: there is only one way to age a buffer. */
  lemma AgedUnique(p: seq<byte>, q: seq<byte>, r: seq<byte>, ats: seq<nat>, elapsed: nat)
    requires AgedBy(p, q, ats, elapsed) && AgedBy(p, r, ats, elapsed)
    ensures q == r
  {
    hide Ttl, IsOpt;
    forall i | 0 <= i < |p|
      ensures q[i] == r[i]
    {
      if InTtl(ats, i) {
        var k :| 0 <= k < |ats| && ats[k] + 4 <= i < ats[k] + 8;
        TtlBytes(q, r, ats[k], i);
      }
    }
  }

  /** Record types survive the rewrite. */
  lemma OptKept(p: seq<byte>, q: seq<byte>, k: nat)
    requires SameFrame(p, q) && k < |RewriteWalk(p)|
    ensures IsOpt(q, RewriteWalk(p)[k]) == IsOpt(p, RewriteWalk(p)[k])
  {
    AnswersFirst(p);
    RecordKept(p, q, RewriteWalk(p), k);
  }

  /** Ageing by `a` and then by `b` is ageing by `a + b`. */
  lemma AgedTwice(p: seq<byte>, q: seq<byte>, r: seq<byte>, a: nat, b: nat)
    requires AgedBy(p, q, RewriteWalk(p), a) && AgedBy(q, r, RewriteWalk(q), b)
    ensures AgedBy(p, r, RewriteWalk(p), a + b)
  {
    hide RewriteWalk, IsOpt, Ttl;
    AgedKeepsFrame(p, q, a);
    FrameKept(p, q);
    var ats := RewriteWalk(p);
    forall k | 0 <= k < |ats|
      ensures Ttl(r, ats[k]) == if IsOpt(p, ats[k]) then Ttl(p, ats[k]) else Aged(Ttl(p, ats[k]), a + b)
    {
      OptKept(p, q, k);
    }
  }

  /** No record of the answer section is an OPT pseudo-record. */
  ghost predicate NoOptAnswers(p: seq<byte>)
    requires QuestionsEnd(p).Some?
  {
    forall k :: 0 <= k < |AnswerWalk(p).at| ==> !IsOpt(p, AnswerWalk(p).at[k])
  }

  lemma {:induction false} LeastAged(p: seq<byte>, q: seq<byte>, ats: seq<nat>, elapsed: nat)
    requires |p| == |q| && (forall k :: 0 <= k < |ats| ==> ats[k] + 10 <= |p|)
    requires forall k :: 0 <= k < |ats| ==> Ttl(q, ats[k]) == Aged(Ttl(p, ats[k]), elapsed)
    ensures LeastTtl(q, ats) == if ats == [] then U32_MAX else Aged(LeastTtl(p, ats), elapsed)
  {
    if ats != [] {
      LeastAged(p, q, ats[1..], elapsed);
    }
  }

  /** A least answer TTL of `m` becomes `max(1, m - elapsed)`. It can appear only by leaving the u32 maximum. */
  lemma MinTtlAged(p: seq<byte>, q: seq<byte>, elapsed: nat)
    requires AgedBy(p, q, RewriteWalk(p), elapsed)
    requires QuestionsEnd(p).Some? ==> NoOptAnswers(p)
    ensures MinTtl(p).Some? ==> MinTtl(q) == Some(Aged(MinTtl(p).value, elapsed))
    ensures MinTtl(p).None? && MinTtl(q).Some? ==> elapsed > 0 && MinTtl(q).value == Aged(U32_MAX, elapsed)
  {
    hide Walk, SkipQuestions, AnCount, RecordCount, IsOpt, Ttl;
    AgedKeepsFrame(p, q, elapsed);
    FrameKept(p, q);
    if QuestionsEnd(p).Some? {
      AnswersFirst(p);
      var ats := AnswerWalk(p).at;
      forall k | 0 <= k < |ats|
        ensures Ttl(q, ats[k]) == Aged(Ttl(p, ats[k]), elapsed)
      {
        assert FullWalk(p).at[k] == ats[k];
      }
      LeastAged(p, q, ats, elapsed);
    }
  }
}
