/** Walking and rewriting DNS messages in wire format (src/dns.rs). */
module DnsWire {
  import opened Bytes
  import opened Net

  const TYPE_A: u16 := 1
  const TYPE_AAAA: u16 := 28
  const TYPE_OPT: u16 := 41
  const CLASS_IN: u16 := 1

  // ---------------------------------------------------------------- what a walk sees

  /** The position after the name at `pos`; a compression pointer ends a name and is not followed. */
  function SkipName(p: seq<byte>, pos: nat): Option<nat>
    decreases |p| - pos
  {
    if pos >= |p| then None
    else if p[pos] == 0 then Some(pos + 1)
    else if p[pos] >= 0xC0 then Some(pos + 2)
    else SkipName(p, pos + 1 + p[pos])
  }

  function SkipQuestions(p: seq<byte>, pos: nat, n: nat): Option<nat>
    decreases n
  {
    if n == 0 then Some(pos)
    else
      match SkipName(p, pos)
      case None => None
      case Some(q) => if q + 4 > |p| then None else SkipQuestions(p, q + 4, n - 1)
  }

  function RdLen(p: seq<byte>, at: nat): u16
    requires at + 10 <= |p|
  {
    Be16At(p, at + 8)
  }

  function Ttl(p: seq<byte>, at: nat): u32
    requires at + 10 <= |p|
  {
    Be32At(p, at + 4)
  }

  predicate IsOpt(p: seq<byte>, at: nat)
    requires at + 10 <= |p|
  {
    Be16At(p, at) == TYPE_OPT
  }

  /** Why a walk over resource records ended. */
  datatype Stop = Finished(pos: nat) | BadName | NoFixedPart

  /** The records a walk visits, each named by where its ten fixed bytes begin. */
  datatype Walked = Walked(at: seq<nat>, stop: Stop)

  function Walk(p: seq<byte>, pos: nat, n: nat): (w: Walked)
    ensures forall k :: 0 <= k < |w.at| ==> pos <= w.at[k] && w.at[k] + 10 <= |p|
    ensures |w.at| <= n
    decreases n
  {
    if n == 0 then Walked([], Finished(pos))
    else
      match SkipName(p, pos)
      case None => Walked([], BadName)
      case Some(q) =>
        SkipNameAdvances(p, pos);
        if q + 10 > |p| then Walked([], NoFixedPart)
        else
          var w := Walk(p, q + 10 + RdLen(p, q), n - 1);
          Walked([q] + w.at, w.stop)
  }

  lemma {:induction false} SkipNameAdvances(p: seq<byte>, pos: nat)
    ensures SkipName(p, pos).Some? ==> SkipName(p, pos).value > pos
    decreases |p| - pos
  {
    if pos < |p| && 0 < p[pos] < 0xC0 {
      SkipNameAdvances(p, pos + 1 + p[pos]);
    }
  }

  function QdCount(p: seq<byte>): u16 requires |p| >= 12 { Be16At(p, 4) }
  function AnCount(p: seq<byte>): u16 requires |p| >= 12 { Be16At(p, 6) }
  function NsCount(p: seq<byte>): u16 requires |p| >= 12 { Be16At(p, 8) }
  function ArCount(p: seq<byte>): u16 requires |p| >= 12 { Be16At(p, 10) }

  /** Records announced in all three record sections. */
  function RecordCount(p: seq<byte>): nat
    requires |p| >= 12
  {
    AnCount(p) + NsCount(p) + ArCount(p)
  }

  function QuestionsEnd(p: seq<byte>): Option<nat> {
    if |p| < 12 then None else SkipQuestions(p, 12, QdCount(p))
  }

  /** The walk over the answer section alone. */
  function AnswerWalk(p: seq<byte>): Walked
    requires QuestionsEnd(p).Some?
  {
    Walk(p, QuestionsEnd(p).value, AnCount(p))
  }

  /** The walk over answers, authorities and additional records. */
  function FullWalk(p: seq<byte>): Walked
    requires QuestionsEnd(p).Some?
  {
    Walk(p, QuestionsEnd(p).value, RecordCount(p))
  }

  /** The records that TTL rewriting reaches. */
  function RewriteWalk(p: seq<byte>): (ats: seq<nat>)
    ensures forall k :: 0 <= k < |ats| ==> ats[k] + 10 <= |p|
  {
    if QuestionsEnd(p).Some? then FullWalk(p).at else []
  }

  predicate BodyFits(p: seq<byte>, at: nat)
    requires at + 10 <= |p|
  {
    at + 10 + RdLen(p, at) <= |p|
  }

  // ---------------------------------------------------------------- what is read from a walk

  /** The address carried by the record at `at`, as a sequence of at most one. */
  function AddressAt(p: seq<byte>, at: nat): seq<Ip>
    requires at + 10 <= |p|
  {
    if !BodyFits(p, at) || Be16At(p, at + 2) != CLASS_IN then []
    else if Be16At(p, at) == TYPE_A && RdLen(p, at) == 4 then [V4(p[at + 10..at + 14])]
    else if Be16At(p, at) == TYPE_AAAA && RdLen(p, at) == 16 then [V6(p[at + 10..at + 26])]
    else []
  }

  function AddressesIn(p: seq<byte>, ats: seq<nat>): seq<Ip>
    requires forall k :: 0 <= k < |ats| ==> ats[k] + 10 <= |p|
  {
    if ats == [] then [] else AddressAt(p, ats[0]) + AddressesIn(p, ats[1..])
  }

  function LeastTtl(p: seq<byte>, ats: seq<nat>): u32
    requires forall k :: 0 <= k < |ats| ==> ats[k] + 10 <= |p|
  {
    if ats == [] then U32_MAX else Min(Ttl(p, ats[0]), LeastTtl(p, ats[1..]))
  }

  predicate LastBodyFits(p: seq<byte>, ats: seq<nat>)
    requires forall k :: 0 <= k < |ats| ==> ats[k] + 10 <= |p|
  {
    ats == [] || BodyFits(p, ats[|ats| - 1])
  }

  /** The addresses of up to `n` records from `pos`. A name that cannot be skipped discards them
      all, unless a body overrunning the packet ended the reading first. */
  function Gather(p: seq<byte>, pos: nat, n: nat): Option<seq<Ip>> {
    var w := Walk(p, pos, n);
    if w.stop.BadName? && LastBodyFits(p, w.at) then None else Some(AddressesIn(p, w.at))
  }

  function IpRecords(p: seq<byte>): Option<seq<Ip>> {
    if QuestionsEnd(p).None? || AnCount(p) == 0 then None
    else
      match Gather(p, QuestionsEnd(p).value, AnCount(p))
      case None => None
      case Some(ips) => if ips == [] then None else Some(ips)
  }

  /** The least TTL among up to `n` records from `pos`, `U32_MAX` if there are none. */
  function Least(p: seq<byte>, pos: nat, n: nat): Option<u32> {
    var w := Walk(p, pos, n);
    if w.stop.BadName? then None else Some(LeastTtl(p, w.at))
  }

  function MinTtl(p: seq<byte>): Option<u32> {
    if QuestionsEnd(p).None? || AnCount(p) == 0 then None
    else
      match Least(p, QuestionsEnd(p).value, AnCount(p))
      case None => None
      case Some(m) => if m == U32_MAX then None else Some(m)
  }

  /** One turn of the loop that reads addresses, when it does not stop. */
  lemma GatherAdvances(all: Option<seq<Ip>>, got: seq<Ip>, p: seq<byte>, pos: nat, n: nat, at: nat, next: nat)
    requires n > 0 && SkipName(p, pos) == Some(at) && at + 10 <= |p| && next == at + 10 + RdLen(p, at)
    requires Completes(all, got, Gather(p, pos, n))
    ensures if next > |p| then all == Some(got)
            else BodyFits(p, at) && Completes(all, got + AddressAt(p, at), Gather(p, next, n - 1))
  {
    hide Gather, SkipName, AddressAt;
    GatherStep(p, pos, n, at, next);
    if next <= |p| {
      CompletesStep(all, got, AddressAt(p, at), Gather(p, next, n - 1));
    } else {
      CompletesEnds(all, got);
    }
  }

  /** Where reading stops for good. */
  lemma GatherEnds(p: seq<byte>, pos: nat, n: nat)
    ensures n == 0 ==> Gather(p, pos, n) == Some([])
    ensures n > 0 && SkipName(p, pos).None? ==> Gather(p, pos, n) == None
    ensures n > 0 && SkipName(p, pos).Some? && SkipName(p, pos).value + 10 > |p| ==> Gather(p, pos, n) == Some([])
  {
  }

  /** `got` followed by whatever remains to be read is everything there is to read. */
  ghost predicate Completes<T>(all: Option<seq<T>>, got: seq<T>, rest: Option<seq<T>>) {
    all == if rest.None? then None else Some(got + rest.value)
  }

  lemma CompletesStep<T>(all: Option<seq<T>>, got: seq<T>, one: seq<T>, rest: Option<seq<T>>)
    requires Completes(all, got, if rest.None? then None else Some(one + rest.value))
    ensures Completes(all, got + one, rest)
  {
    if rest.Some? {
      assert got + (one + rest.value) == (got + one) + rest.value;
    }
  }

  lemma CompletesEnds<T>(all: Option<seq<T>>, got: seq<T>)
    ensures Completes(all, [], all)
    ensures Completes(all, got, Some([])) ==> all == Some(got)
  {
    if all.Some? {
      assert [] + all.value == all.value;
    }
    assert got + [] == got;
  }

  lemma CompletesNever<T>(all: Option<seq<T>>, got: seq<T>)
    ensures Completes(all, got, None) ==> all == None
  {
  }

  lemma WalkUnfold(p: seq<byte>, pos: nat, n: nat, at: nat, next: nat)
    requires n > 0 && SkipName(p, pos) == Some(at) && at + 10 <= |p| && next == at + 10 + RdLen(p, at)
    ensures
      var w := Walk(p, next, n - 1);
      Walk(p, pos, n) == Walked([at] + w.at, w.stop)
    ensures next > |p| && n > 1 ==> Walk(p, next, n - 1) == Walked([], BadName)
    ensures next > |p| && n == 1 ==> Walk(p, next, n - 1) == Walked([], Finished(next))
  {
  }

  /** Reading one record and then the rest is reading them all. */
  lemma GatherStep(p: seq<byte>, pos: nat, n: nat, at: nat, next: nat)
    requires n > 0 && SkipName(p, pos) == Some(at) && at + 10 <= |p| && next == at + 10 + RdLen(p, at)
    ensures next > |p| ==> Gather(p, pos, n) == Some([])
    ensures next <= |p| && Gather(p, next, n - 1).None? ==> Gather(p, pos, n) == None
    ensures next <= |p| && Gather(p, next, n - 1).Some? ==>
              Gather(p, pos, n) == Some(AddressAt(p, at) + Gather(p, next, n - 1).value)
  {
    hide Walk, SkipName, Be16At;
    WalkUnfold(p, pos, n, at, next);
    var w, v := Walk(p, pos, n), Walk(p, next, n - 1);
    assert w.at[1..] == v.at;
    if next > |p| {
      assert w.at == [at] && AddressesIn(p, []) == [];
      assert AddressesIn(p, w.at) == AddressAt(p, at) + [];
    } else {
      assert LastBodyFits(p, w.at) == LastBodyFits(p, v.at) by {
        if v.at == [] {
          assert w.at == [at];
        }
      }
    }
  }

  // ---------------------------------------------------------------- the walkers

  method SkipDnsName(packet: seq<byte>, start: nat) returns (r: Option<nat>)
    ensures r == SkipName(packet, start)
  {
    var pos: nat := start;
    while true
      invariant SkipName(packet, pos) == SkipName(packet, start)
      decreases |packet| - pos
    {
      if pos >= |packet| {
        return None;
      }
      var b := packet[pos];
      if b == 0 {
        return Some(pos + 1);
      }
      if b >= 0xC0 {
        return Some(pos + 2);
      }
      pos := pos + 1 + b;
    }
  }

  /** The loop over the question section that every walker starts with. */
  method SkipQuestionSection(packet: seq<byte>) returns (r: Option<nat>)
    requires |packet| >= 12
    ensures r == QuestionsEnd(packet)
  {
    var pos: nat := 12;
    var n: nat := QdCount(packet);
    for i := 0 to n
      invariant SkipQuestions(packet, pos, n - i) == QuestionsEnd(packet)
    {
      var q := SkipDnsName(packet, pos);
      if q.None? {
        return None;
      }
      pos := q.value + 4;
      if pos > |packet| {
        return None;
      }
    }
    return Some(pos);
  }

  /** The address list in terms of what is gathered after the questions. */
  lemma IpRecordsFrom(p: seq<byte>)
    ensures |p| < 12 || AnCount(p) == 0 || QuestionsEnd(p).None? ==> IpRecords(p) == None
    ensures |p| >= 12 && AnCount(p) != 0 && QuestionsEnd(p).Some? ==>
              var all := Gather(p, QuestionsEnd(p).value, AnCount(p));
              IpRecords(p) == if all.None? || all.value == [] then None else all
  {
    hide Gather;
  }

  method ParseIpRecords(packet: seq<byte>) returns (r: Option<seq<Ip>>)
    ensures r == IpRecords(packet)
  {
    hide *;
    IpRecordsFrom(packet);
    if |packet| < 12 || AnCount(packet) == 0 {
      return None;
    }
    var q := SkipQuestionSection(packet);
    if q.None? {
      return None;
    }
    var pos: nat := q.value;
    var n: nat := AnCount(packet);
    var ips: seq<Ip> := [];
    ghost var all := Gather(packet, pos, n);
    CompletesEnds(all, ips);
    for i := 0 to n
      invariant Completes(all, ips, Gather(packet, pos, n - i))
    {
      GatherEnds(packet, pos, n - i);
      var s := SkipDnsName(packet, pos);
      if s.None? {
        CompletesNever(all, ips);
        return None;
      }
      if s.value + 10 > |packet| {
        break;
      }
      var rdlength := RdLen(packet, s.value);
      var next := s.value + 10 + rdlength;
      GatherAdvances(all, ips, packet, pos, n - i, s.value, next);
      if next > |packet| {
        break;
      }
      var address := ReadAddress(packet, s.value);
      ips := ips + address;
      pos := next;
    }
    GatherEnds(packet, pos, 0);
    CompletesEnds(all, ips);
    r := if ips == [] then None else Some(ips);
  }

  /** One turn of the record loop: the address of the record whose fixed part is at `pos`, if it has one. */
  method ReadAddress(packet: seq<byte>, pos: nat) returns (address: seq<Ip>)
    requires pos + 10 <= |packet| && BodyFits(packet, pos)
    ensures address == AddressAt(packet, pos)
  {
    var rtype := Be16At(packet, pos);
    var rclass := Be16At(packet, pos + 2);
    var rdlength := Be16At(packet, pos + 8);
    address := [];
    if rclass == CLASS_IN {
      if rtype == TYPE_A && rdlength == 4 {
        address := [V4(packet[pos + 10..pos + 14])];
      } else if rtype == TYPE_AAAA && rdlength == 16 {
        address := [V6(packet[pos + 10..pos + 26])];
      }
    }
  }

  method ExtractMinTtl(packet: seq<byte>) returns (r: Option<u32>)
    ensures r == MinTtl(packet)
  {
    if |packet| < 12 || AnCount(packet) == 0 {
      return None;
    }
    var q := SkipQuestionSection(packet);
    if q.None? {
      return None;
    }
    var pos: nat := q.value;
    var n: nat := AnCount(packet);
    var minTtl := U32_MAX;
    ghost var all := Least(packet, pos, n);
    hide Least, SkipName, Ttl, RdLen;
    for i := 0 to n
      invariant Lowers(all, minTtl, Least(packet, pos, n - i))
    {
      var s := SkipDnsName(packet, pos);
      LeastEnds(packet, pos, n - i);
      if s.None? {
        return None;
      }
      if s.value + 10 > |packet| {
        break;
      }
      var ttl := Ttl(packet, s.value);
      var next := s.value + 10 + RdLen(packet, s.value);
      LeastStep(packet, pos, n - i, s.value, next);
      pos := next;
      if ttl < minTtl {
        minTtl := ttl;
      }
    }
    r := if minTtl == U32_MAX then None else Some(minTtl);
  }

  /** The least TTL overall is the lesser of the least so far and the least still to come. */
  ghost predicate Lowers(all: Option<u32>, sofar: u32, rest: Option<u32>) {
    all == if rest.None? then None else Some(Min(sofar, rest.value))
  }

  lemma LeastEnds(p: seq<byte>, pos: nat, n: nat)
    ensures n == 0 ==> Least(p, pos, n) == Some(U32_MAX)
    ensures n > 0 && SkipName(p, pos).None? ==> Least(p, pos, n) == None
    ensures n > 0 && SkipName(p, pos).Some? && SkipName(p, pos).value + 10 > |p| ==> Least(p, pos, n) == Some(U32_MAX)
  {
  }

  lemma LeastStep(p: seq<byte>, pos: nat, n: nat, at: nat, next: nat)
    requires n > 0 && SkipName(p, pos) == Some(at) && at + 10 <= |p| && next == at + 10 + RdLen(p, at)
    ensures Lowers(Least(p, pos, n), Ttl(p, at), Least(p, next, n - 1))
  {
    hide SkipName, Be16At, Be32At;
    WalkUnfold(p, pos, n, at, next);
    assert Walk(p, pos, n).at[1..] == Walk(p, next, n - 1).at;
  }
}
