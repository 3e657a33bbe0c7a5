/** The TTL-aware response cache of DoH mode (src/dns.rs, `DnsCache`). Instants count nanoseconds. */
module DnsCache {
  import opened Bytes
  import opened Net
  import opened DnsWire
  import opened DnsRewrite
  import opened DnsMessage
  import opened Eviction

  const SECOND: nat := 1_000_000_000
  const MIN_TTL: u32 := 30
  const MAX_TTL: u32 := 3600

  datatype Entry = Entry(response: seq<byte>, inserted: nat, expires: nat)

  // ---------------------------------------------------------------- specification

  /** How long a response may be served, in seconds. */
  function Lifetime(response: seq<byte>): nat {
    Clamp(if MinTtl(response).Some? then MinTtl(response).value else MIN_TTL, MIN_TTL, MAX_TTL)
  }

  function NewEntry(response: seq<byte>, now: nat): Entry {
    Entry(response, now, now + Lifetime(response) * SECOND)
  }

  predicate WellFormed(e: Entry) {
    e == NewEntry(e.response, e.inserted)
  }

  /** Whole seconds from one instant to a later one, as a 32-bit number. */
  function SecondsBetween(from: nat, to: nat): u32 {
    Min(if to >= from then (to - from) / SECOND else 0, U32_MAX)
  }

  /** Whole seconds an entry has spent in the cache. */
  function Age(e: Entry, now: nat): u32 {
    SecondsBetween(e.inserted, now)
  }

  predicate Hit(entries: map<seq<byte>, Entry>, key: seq<byte>, now: nat) {
    key in entries && now < entries[key].expires
  }

  function Restamp(p: seq<byte>, id: u16): (q: seq<byte>)
    ensures |q| == |p|
  {
    if |p| >= 2 then PutBe16(id) + p[2..] else p
  }

  /** The whole query with its transaction id zeroed. */
  function CacheKey(query: seq<byte>): seq<byte> {
    Restamp(query, 0)
  }

  /** `reply` is what a client asking with `id` gets for a response stored `elapsed` seconds ago. */
  ghost predicate Served(stored: seq<byte>, reply: seq<byte>, id: u16, elapsed: nat) {
    if elapsed == 0 then reply == Restamp(stored, id)
    else AgedBy(Restamp(stored, id), reply, RewriteWalk(stored), elapsed)
  }

  function Unexpired(entries: map<seq<byte>, Entry>, now: nat): set<seq<byte>> {
    set k | k in entries && now < entries[k].expires
  }

  /** The sweep reads the clock anew for each entry, from `later` to `done`: it keeps what is unexpired at the end of
      that time and nothing that has expired before it. */
  predicate Swept(entries: map<seq<byte>, Entry>, live: set<seq<byte>>, later: nat, done: nat) {
    Unexpired(entries, done) <= live <= Unexpired(entries, later)
  }

  /** One `put`: room is made between `later` and `done`, then the new entry goes in. */
  ghost predicate PutOutcome(before: map<seq<byte>, Entry>, after: map<seq<byte>, Entry>, key: seq<byte>,
                             response: seq<byte>, now: nat, later: nat, done: nat) {
    exists room, live :: Swept(before, live, later, done) && RoomMade(before, room, live)
                         && after == room[key := NewEntry(response, now)]
  }

  /** A `put` adds one entry, alters none, and keeps the bound. */
  lemma PutKeeps(before: map<seq<byte>, Entry>, after: map<seq<byte>, Entry>, key: seq<byte>, response: seq<byte>,
                 now: nat, later: nat, done: nat)
    requires PutOutcome(before, after, key, response, now, later, done) && |before| <= MAX_CACHE_ENTRIES
    ensures |after| <= MAX_CACHE_ENTRIES
    ensures key in after && after[key] == NewEntry(response, now)
    ensures forall k :: k in after && k != key ==> k in before && after[k] == before[k]
  {
    var room, live :| Swept(before, live, later, done) && RoomMade(before, room, live)
                      && after == room[key := NewEntry(response, now)];
    hide *;
    RoomKept(before, room, live);
    OneMoreEntry(room, key, NewEntry(response, now));
  }

  /** An entry still unexpired at the end of the sweep is lost only when the cache holds 10,000 entries unexpired at its
      start, and then exactly 5,000 go. */
  lemma LiveResponsesLost(before: map<seq<byte>, Entry>, after: map<seq<byte>, Entry>, key: seq<byte>,
                          response: seq<byte>, now: nat, later: nat, done: nat, lost: seq<byte>)
    requires PutOutcome(before, after, key, response, now, later, done) && |before| <= MAX_CACHE_ENTRIES
    requires lost in Unexpired(before, done) && lost !in after
    ensures |before| == 10_000 && Unexpired(before, later) == before.Keys
    ensures exists gone: set<seq<byte>> :: gone <= before.Keys && |gone| == 5_000
                                           && after.Keys == (before.Keys - gone) + {key}
  {
    var room, live :| Swept(before, live, later, done) && RoomMade(before, room, live)
                      && after == room[key := NewEntry(response, now)];
    hide NewEntry, RoomMade;
    assert Unexpired(before, later) <= before.Keys && lost in live && lost !in room;
    hide *;
    RoomKept(before, room, live);
    LiveEntriesLost(before, room, live);
    HalfGone(before, room, key, NewEntry(response, now));
  }

  lemma HalfGone(before: map<seq<byte>, Entry>, room: map<seq<byte>, Entry>, key: seq<byte>, e: Entry)
    requires room.Keys <= before.Keys && |before.Keys - room.Keys| == 5_000
    ensures exists gone: set<seq<byte>> :: gone <= before.Keys && |gone| == 5_000
                                           && room[key := e].Keys == (before.Keys - gone) + {key}
  {
    var gone := before.Keys - room.Keys;
    assert room[key := e].Keys == (before.Keys - gone) + {key};
  }

  /** The cache is bounded and holds nothing but what was last put under each key. */
  ghost predicate Consistent(entries: map<seq<byte>, Entry>, last: map<seq<byte>, Entry>) {
    && |entries| <= MAX_CACHE_ENTRIES
    && (forall k :: k in last ==> WellFormed(last[k]))
    && (forall k :: k in entries ==> k in last && entries[k] == last[k])
  }

  lemma NewIsWellFormed(response: seq<byte>, now: nat)
    ensures WellFormed(NewEntry(response, now)) && NewEntry(response, now).response == response
  {
  }

  lemma PutConsistent(before: map<seq<byte>, Entry>, after: map<seq<byte>, Entry>, last: map<seq<byte>, Entry>,
                      key: seq<byte>, response: seq<byte>, now: nat, later: nat, done: nat)
    requires PutOutcome(before, after, key, response, now, later, done) && Consistent(before, last)
    ensures Consistent(after, last[key := NewEntry(response, now)])
  {
    hide PutOutcome, NewEntry, Lifetime, WellFormed;
    PutKeeps(before, after, key, response, now, later, done);
    NewIsWellFormed(response, now);
  }

  // ---------------------------------------------------------------- the cache

  class DnsCache {
    var entries: map<seq<byte>, Entry>
    /** The last entry ever put under each key, whether or not it is still held. */
    ghost var lastPut: map<seq<byte>, Entry>

    ghost predicate Valid()
      reads this
    {
      Consistent(entries, lastPut)
    }

    constructor ()
      ensures Valid() && entries == map[] && lastPut == map[]
    {
      entries, lastPut := map[], map[];
    }

    /** Expiry is checked at `now`; the clock is read again for the age, at `later`. */
    method Get(key: seq<byte>, txId: u16, now: nat, later: nat) returns (r: Option<seq<byte>>)
      requires Valid() && now <= later
      ensures r.Some? <==> Hit(entries, key, now)
      ensures r.Some? ==> Served(lastPut[key].response, r.value, txId, Age(lastPut[key], later))
    {
      if key !in entries {
        return None;
      }
      var entry := entries[key];
      if entry.expires <= now {
        return None;
      }
      var stamped := entry.response;
      if |stamped| >= 2 {
        stamped := PutBe16(txId) + stamped[2..];
      }
      var resp := new byte[|stamped|](i requires 0 <= i < |stamped| => stamped[i]);
      assert resp[..] == stamped == Restamp(entry.response, txId);
      var elapsed := Age(entry, later);
      if elapsed > 0 {
        RestampKeepsFrame(entry.response, txId);
        var _ := RewriteTtls(resp, elapsed);
      }
      return Some(resp[..]);
    }

    /** How long the sweep takes is left open, and with it which of the entries expiring meanwhile it keeps. */
    method Put(key: seq<byte>, response: seq<byte>, now: nat, later: nat, done: nat)
      requires Valid() && later <= done
      modifies this
      ensures Valid()
      ensures PutOutcome(old(entries), entries, key, response, now, later, done)
      ensures lastPut == old(lastPut)[key := NewEntry(response, now)]
    {
      var minTtl := ExtractMinTtl(response);
      var ttl := Clamp(if minTtl.Some? then minTtl.value else MIN_TTL, MIN_TTL, MAX_TTL);
      var entry := Entry(response, now, now + ttl * SECOND);
      assert entry == NewEntry(response, now);
      assert Swept(entries, Unexpired(entries, later), later, done);
      var live: set<seq<byte>> :| Unexpired(entries, done) <= live <= Unexpired(entries, later);
      var room := MakeRoom(entries, live);
      hide MinTtl, Lifetime, Unexpired, RoomMade, Consistent, Swept;
      PutConsistent(entries, room[key := entry], lastPut, key, response, now, later, done);
      entries := room[key := entry];
      lastPut := lastPut[key := entry];
    }
  }

  // ---------------------------------------------------------------- what clients can rely on

  lemma RestampKeepsFrame(p: seq<byte>, id: u16)
    ensures SameFrame(p, Restamp(p, id))
    ensures RewriteWalk(Restamp(p, id)) == RewriteWalk(p)
    ensures |p| >= 2 ==> Be16At(Restamp(p, id), 0) == id
  {
    FrameKept(p, Restamp(p, id));
  }

  /** Keys coincide exactly for queries that differ at most in their transaction id. */
  lemma KeysAgree(q1: seq<byte>, q2: seq<byte>)
    requires |q1| >= 2 && |q2| >= 2
    ensures CacheKey(q1) == CacheKey(q2) <==> q1[2..] == q2[2..]
  {
    assert CacheKey(q1)[2..] == q1[2..] && CacheKey(q2)[2..] == q2[2..];
    assert CacheKey(q1)[..2] == PutBe16(0) == CacheKey(q2)[..2];
    assert CacheKey(q1) == CacheKey(q1)[..2] + CacheKey(q1)[2..]
           && CacheKey(q2) == CacheKey(q2)[..2] + CacheKey(q2)[2..];
  }

  /** A served reply carries the asker's id and the stored response's framing and addresses. */
  lemma ServedAgrees(stored: seq<byte>, reply: seq<byte>, id: u16, elapsed: nat)
    requires Served(stored, reply, id, elapsed)
    ensures |reply| == |stored|
    ensures |stored| >= 2 ==> Be16At(reply, 0) == id
    ensures SameFrame(stored, reply)
    ensures IpRecords(reply) == IpRecords(stored)
  {
    hide Walk;
    var stamped := Restamp(stored, id);
    RestampKeepsFrame(stored, id);
    if elapsed > 0 && |stored| >= 2 {
      if RewriteWalk(stored) != [] {
        AnswersFirst(stored);
      }
      assert !InTtl(RewriteWalk(stored), 0) && !InTtl(RewriteWalk(stored), 1);
    }
    AddressesSurvive(stored, reply);
  }

  /** The TTL of every non-OPT record is the stored one aged by the seconds spent in the cache. */
  lemma ServedTtl(stored: seq<byte>, reply: seq<byte>, id: u16, elapsed: nat, k: nat)
    requires Served(stored, reply, id, elapsed) && k < |RewriteWalk(stored)| && !IsOpt(stored, RewriteWalk(stored)[k])
    ensures |reply| == |stored|
    ensures Ttl(reply, RewriteWalk(stored)[k]) ==
            if elapsed == 0 then Ttl(stored, RewriteWalk(stored)[k])
                else Aged(Ttl(stored, RewriteWalk(stored)[k]), elapsed)
  {
    hide Walk, Be32At, Be16At;
    AnswersFirst(stored);
    RestampKeepsFrame(stored, id);
    RestampedRecord(stored, id, RewriteWalk(stored)[k]);
  }

  lemma RestampedRecord(p: seq<byte>, id: u16, at: nat)
    requires 2 <= at && at + 10 <= |p|
    ensures Ttl(Restamp(p, id), at) == Ttl(p, at) && IsOpt(Restamp(p, id), at) == IsOpt(p, at)
  {
    assert forall i :: 2 <= i < |p| ==> Restamp(p, id)[i] == p[i];
  }

  lemma {:induction false} LeastIsLower(p: seq<byte>, ats: seq<nat>, k: nat)
    requires (forall j :: 0 <= j < |ats| ==> ats[j] + 10 <= |p|) && k < |ats|
    ensures LeastTtl(p, ats) <= Ttl(p, ats[k])
  {
    if k > 0 {
      LeastIsLower(p, ats[1..], k - 1);
    }
  }

  lemma {:induction false} LeastIsReached(p: seq<byte>, ats: seq<nat>) returns (k: nat)
    requires (forall j :: 0 <= j < |ats| ==> ats[j] + 10 <= |p|) && ats != []
    ensures k < |ats| && LeastTtl(p, ats) == Ttl(p, ats[k])
  {
    if |ats| == 1 || Ttl(p, ats[0]) == LeastTtl(p, ats) {
      k := 0;
    } else {
      k := LeastIsReached(p, ats[1..]);
      k := k + 1;
    }
  }

  /** Every answer is served with exactly the time it has left. */
  ghost predicate Undistorted(stored: seq<byte>, reply: seq<byte>, age: nat)
    requires QuestionsEnd(stored).Some? && |reply| == |stored|
  {
    forall k :: 0 <= k < |AnswerWalk(stored).at| ==>
          Ttl(reply, AnswerWalk(stored).at[k]) + age == Ttl(stored, AnswerWalk(stored).at[k])
  }

  /** The least TTL among the answers walked, `U32_MAX` if there are none. */
  function LeastAnswerTtl(p: seq<byte>): u32
    requires QuestionsEnd(p).Some?
  {
    LeastTtl(p, AnswerWalk(p).at)
  }

  /** With no OPT among the answers, a reply is undistorted exactly when there is no answer, or its age is zero or
      below the least answer TTL. */
  lemma UndistortedExactly(stored: seq<byte>, reply: seq<byte>, id: u16, age: nat)
    requires QuestionsEnd(stored).Some? && NoOptAnswers(stored) && Served(stored, reply, id, age)
    ensures |reply| == |stored|
    ensures Undistorted(stored, reply, age) <==>
            AnswerWalk(stored).at == [] || age == 0 || age < LeastAnswerTtl(stored)
  {
    hide *;
    ServedAgrees(stored, reply, id, age);
    if Undistorted(stored, reply, age) {
      UndistortedIsYoung(stored, reply, id, age);
    }
    if AnswerWalk(stored).at == [] || age == 0 || age < LeastAnswerTtl(stored) {
      YoungIsUndistorted(stored, reply, id, age);
    }
  }

  lemma UndistortedIsYoung(stored: seq<byte>, reply: seq<byte>, id: u16, age: nat)
    requires QuestionsEnd(stored).Some? && NoOptAnswers(stored) && Served(stored, reply, id, age)
    requires |reply| == |stored| && Undistorted(stored, reply, age)
    ensures AnswerWalk(stored).at == [] || age == 0 || age < LeastAnswerTtl(stored)
  {
    var ats := AnswersInside(stored);
    hide AnswerWalk, NoOptAnswers, Served, Ttl, LeastTtl;
    if ats != [] {
      var k := LeastIsReached(stored, ats);
      AnswerServed(stored, reply, id, age, k);
    }
  }

  lemma YoungIsUndistorted(stored: seq<byte>, reply: seq<byte>, id: u16, age: nat)
    requires QuestionsEnd(stored).Some? && NoOptAnswers(stored) && Served(stored, reply, id, age)
    requires |reply| == |stored| && (AnswerWalk(stored).at == [] || age == 0 || age < LeastAnswerTtl(stored))
    ensures Undistorted(stored, reply, age)
  {
    var ats := AnswersInside(stored);
    hide AnswerWalk, NoOptAnswers, Served, Ttl, LeastTtl;
    forall k | 0 <= k < |ats|
      ensures Ttl(reply, ats[k]) + age == Ttl(stored, ats[k])
    {
      AnswerServed(stored, reply, id, age, k);
      LeastIsLower(stored, ats, k);
    }
  }

  lemma AnswersInside(p: seq<byte>) returns (ats: seq<nat>)
    requires QuestionsEnd(p).Some?
    ensures ats == AnswerWalk(p).at && forall k :: 0 <= k < |ats| ==> ats[k] + 10 <= |p|
  {
    ats := AnswerWalk(p).at;
  }

  lemma AnswerServed(stored: seq<byte>, reply: seq<byte>, id: u16, age: nat, k: nat)
    requires QuestionsEnd(stored).Some? && NoOptAnswers(stored) && Served(stored, reply, id, age)
             && k < |AnswerWalk(stored).at|
    ensures |reply| == |stored|
    ensures
      var at := AnswerWalk(stored).at[k];
      Ttl(reply, at) + age == Ttl(stored, at) <==> age == 0 || age < Ttl(stored, at)
  {
    AnswersFirst(stored);
    assert FullWalk(stored).at[k] == AnswerWalk(stored).at[k];
    hide Walk, Be32At, Be16At, Served, IsOpt;
    ServedTtl(stored, reply, id, age, k);
  }

  /** No reply whose age is read before the entry expires is distorted. */
  ghost predicate NeverDistorted(e: Entry)
    requires QuestionsEnd(e.response).Some?
  {
    forall later, id: u16, reply :: e.inserted <= later < e.expires && Served(e.response, reply, id, Age(e, later)) ==>
      |reply| == |e.response| && Undistorted(e.response, reply, Age(e, later))
  }

  lemma AgeBelowLifetime(e: Entry, now: nat)
    requires WellFormed(e) && e.inserted <= now < e.expires
    ensures Age(e, now) < Lifetime(e.response)
  {
    assert now - e.inserted < Lifetime(e.response) * SECOND;
    assert (now - e.inserted) / SECOND < Lifetime(e.response);
  }

  /** The lifetime never exceeds the least answer TTL, unless the floor of 30 seconds lifts it. */
  lemma LifetimeBounded(p: seq<byte>)
    requires QuestionsEnd(p).Some?
    ensures MIN_TTL <= Lifetime(p) <= MAX_TTL
    ensures Lifetime(p) <= Max(MIN_TTL, LeastAnswerTtl(p))
  {
    hide Walk, LeastTtl;
  }

  /** With no OPT among the answers and the age read before expiry, the floor of 1 never shows in an answer exactly when
      no answer TTL is below 30. */
  lemma FloorNeverShows(e: Entry)
    requires WellFormed(e) && QuestionsEnd(e.response).Some? && NoOptAnswers(e.response)
    ensures NeverDistorted(e) <==> LeastAnswerTtl(e.response) >= MIN_TTL
  {
    hide AnswerWalk, NoOptAnswers, Undistorted, Served, Lifetime, QuestionsEnd;
    var p := e.response;
    LifetimeBounded(p);
    if LeastAnswerTtl(p) >= MIN_TTL {
      hide Age;
      forall later, id: u16, reply | e.inserted <= later < e.expires && Served(p, reply, id, Age(e, later))
        ensures |reply| == |p| && Undistorted(p, reply, Age(e, later))
      {
        AgeBelowLifetime(e, later);
        UndistortedExactly(p, reply, id, Age(e, later));
      }
    } else {
      var later := e.inserted + 29 * SECOND;
      assert Age(e, later) == 29;
      var reply := ServeAged(p, 0, 29);
      UndistortedExactly(p, reply, 0, 29);
      assert !NeverDistorted(e);
    }
  }

  /** The age is read after the expiry check, so a hit checked just before expiry can still be distorted: at expiry
      itself
      when the least answer TTL does not exceed the lifetime. */
  lemma LateReadDistorts(e: Entry) returns (now: nat, later: nat, reply: seq<byte>)
    requires WellFormed(e) && QuestionsEnd(e.response).Some? && NoOptAnswers(e.response)
    requires AnswerWalk(e.response).at != []
    ensures e.inserted <= now < e.expires <= later && Served(e.response, reply, 0, Age(e, later))
    ensures LeastAnswerTtl(e.response) <= Lifetime(e.response) ==> later == e.expires == now + 1
    ensures |reply| == |e.response| && !Undistorted(e.response, reply, Age(e, later))
  {
    hide AnswerWalk, NoOptAnswers, Undistorted, Served, Lifetime, QuestionsEnd, LeastAnswerTtl;
    LifetimeBounded(e.response);
    var age := Max(LeastAnswerTtl(e.response), Lifetime(e.response));
    now, later := e.expires - 1, e.inserted + age * SECOND;
    assert Age(e, later) == age;
    reply := ServeAged(e.response, 0, age);
    UndistortedExactly(e.response, reply, 0, age);
  }

  /** A response is cached without its TTLs being read exactly when a record body overruns the packet with more answers
      announced after it, or every answer TTL is the u32 maximum. */
  lemma TtlUnreadExactly(p: seq<byte>)
    requires IpRecords(p).Some?
    ensures QuestionsEnd(p).Some?
    ensures MinTtl(p).None? <==> (AnswerWalk(p).stop.BadName? && !LastBodyFits(p, AnswerWalk(p).at))
                                 || LeastAnswerTtl(p) == U32_MAX
  {
    hide Walk, AddressesIn, LeastTtl, BodyFits;
  }

  /** Three answers announced: an address with a TTL of 5, one whose body is cut off, and one that is missing. */
  const CUT_OFF: seq<byte> := [0, 1, 0x81, 0x80, 0, 0, 0, 3, 0, 0, 0, 0,
                               0, 0, 1, 0, 1, 0, 0, 0, 5, 0, 4, 1, 2, 3, 4,
                               0, 0, 1, 0, 1, 0, 0, 0, 5, 0, 4]

  /** It is cached for 30 seconds and served distorted from 5 seconds on. */
  lemma CutOffDistorted(now: nat, reply: seq<byte>, id: u16, age: nat)
    ensures IpRecords(CUT_OFF) == Some([V4([1, 2, 3, 4])]) && MinTtl(CUT_OFF) == None && Lifetime(CUT_OFF) == MIN_TTL
    ensures !NeverDistorted(NewEntry(CUT_OFF, now))
    ensures Served(CUT_OFF, reply, id, age) ==>
              |reply| == |CUT_OFF| && (Undistorted(CUT_OFF, reply, age) <==> age < 5)
  {
    TwoShortAnswers();
    TwoAnswersRead(CUT_OFF);
    hide *;
    NewIsWellFormed(CUT_OFF, now);
    FloorNeverShows(NewEntry(CUT_OFF, now));
    if Served(CUT_OFF, reply, id, age) {
      UndistortedExactly(CUT_OFF, reply, id, age);
    }
  }

  /** No questions, three answers announced, the second cut off after its fixed part; names are the root. */
  predicate TwoAnswers(p: seq<byte>) {
    && |p| == 38 && QdCount(p) == 0 && AnCount(p) == 3 && p[12] == 0 && p[27] == 0
    && Be16At(p, 13) == TYPE_A && Be16At(p, 15) == CLASS_IN && Be32At(p, 17) == 5 && Be16At(p, 21) == 4
    && Be16At(p, 28) == TYPE_A && Be32At(p, 32) == 5 && Be16At(p, 36) == 4
  }

  lemma TwoShortAnswers()
    ensures TwoAnswers(CUT_OFF) && CUT_OFF[23..27] == [1, 2, 3, 4]
  {
  }

  lemma TwoAnswersRead(p: seq<byte>)
    requires TwoAnswers(p)
    ensures QuestionsEnd(p).Some? && AnswerWalk(p).at != [] && NoOptAnswers(p) && LeastAnswerTtl(p) == 5
    ensures IpRecords(p) == Some([V4(p[23..27])]) && MinTtl(p) == None && Lifetime(p) == MIN_TTL
  {
    TwoAnswersWalk(p);
    TwoAnswersLists(p);
    hide Walk, SkipQuestions, AddressAt, Ttl, AddressesIn, LeastTtl, IsOpt, BodyFits, Be16At, Be32At;
    assert Gather(p, 12, 3) == Some([V4(p[23..27])]);
    assert MinTtl(p) == None;
  }

  lemma TwoAnswersLists(p: seq<byte>)
    requires |p| == 38 && AddressAt(p, 13) == [V4(p[23..27])] && AddressAt(p, 28) == []
    requires Ttl(p, 13) == 5 && Ttl(p, 28) == 5
    ensures LeastTtl(p, [13, 28]) == 5 && AddressesIn(p, [13, 28]) == [V4(p[23..27])]
  {
    hide AddressAt, Ttl;
    assert [13, 28][1..] == [28] && [28][1..] == [];
    assert LeastTtl(p, [28]) == 5;
    assert AddressesIn(p, [28]) == [];
  }

  lemma TwoAnswersWalk(p: seq<byte>)
    requires TwoAnswers(p)
    ensures QuestionsEnd(p) == Some(12) && AnCount(p) == 3 && AnswerWalk(p) == Walked([13, 28], BadName)
    ensures AddressAt(p, 13) == [V4(p[23..27])] && AddressAt(p, 28) == [] && !BodyFits(p, 28)
    ensures Ttl(p, 13) == 5 && Ttl(p, 28) == 5 && !IsOpt(p, 13) && !IsOpt(p, 28)
  {
    WalkUnfold(p, 12, 3, 13, 27);
    WalkUnfold(p, 27, 2, 28, 42);
  }

  /** A reply of any age exists for every stored response. */
  lemma ServeAged(p: seq<byte>, id: u16, elapsed: u32) returns (reply: seq<byte>)
    requires elapsed > 0
    ensures Served(p, reply, id, elapsed)
  {
    RestampKeepsFrame(p, id);
    if QuestionsEnd(p).Some? {
      AnswersFirst(p);
    }
    reply := AgeSome(Restamp(p, id), RewriteWalk(p), |RewriteWalk(p)|, elapsed);
    assert RewriteWalk(p)[..|RewriteWalk(p)|] == RewriteWalk(p);
  }

  lemma {:induction false} AgeSome(p: seq<byte>, ats: seq<nat>, n: nat, elapsed: u32) returns (q: seq<byte>)
    requires n <= |ats| && (forall k :: 0 <= k < |ats| ==> ats[k] + 10 <= |p|)
    requires forall j, k :: 0 <= j < k < |ats| ==> ats[j] + 10 <= ats[k]
    ensures AgedBy(p, q, ats[..n], elapsed)
  {
    if n == 0 {
      q := p;
    } else {
      var before := AgeSome(p, ats, n - 1, elapsed);
      var at := ats[n - 1];
      var field := PutBe32(if IsOpt(before, at) then Ttl(before, at) else Aged(Ttl(before, at), elapsed));
      q := before[..at + 4] + field + before[at + 8..];
      assert ats[..n - 1] + [at] == ats[..n];
      AgedByStep(p, before, q, ats[..n - 1], at, elapsed);
    }
  }

  // ---------------------------------------------------------------- what becomes of an encoded message

  /** How many seconds a response with this least answer TTL is served. */
  function SecondsServed(least: u32): nat {
    if least < 30 || least == 0xFFFF_FFFF then 30 else if least > 3600 then 3600 else least
  }

  /** A response with answers, while it is held, is hit exactly until its least answer TTL is over, but not for less
      than
      30 seconds nor more than an hour; one that nobody can read a TTL from, for 30 seconds. */
  lemma HitWindow(entries: map<seq<byte>, Entry>, last: map<seq<byte>, Entry>, key: seq<byte>, m: Message,
                  trailer: seq<byte>, least: u32, put: nat, now: nat)
    requires Consistent(entries, last) && key in entries && ValidMessage(m) && IsLeast(least, m.answers)
    requires last[key] == NewEntry(Encode(m) + trailer, put)
    ensures Hit(entries, key, now) <==> now < put + SecondsServed(least) * 1_000_000_000
  {
    MinTtlOfMessage(m, trailer);
    LeastOfIs(m.answers, least);
    hide MinTtl, Encode, ValidMessage, IsLeast;
  }

  /** The reply to a hit is the stored message under the asker's id, its TTLs less the whole seconds since it was put,
      down to 1; within the first second they are as stored. */
  lemma ServedMessage(m: Message, trailer: seq<byte>, reply: seq<byte>, id: u16, put: nat, later: nat)
    requires ValidMessage(m)
    requires var e := NewEntry(Encode(m) + trailer, put); Served(e.response, reply, id, Age(e, later))
    ensures
      var seconds := Min(if later >= put then (later - put) / 1_000_000_000 else 0, 0xFFFF_FFFF);
      var asked := m.(id := id);
      && ValidMessage(asked) && ValidMessage(AgeMessage(asked, seconds))
      && reply == Encode(if seconds == 0 then asked else AgeMessage(asked, seconds)) + trailer
  {
    var seconds := Min(if later >= put then (later - put) / SECOND else 0, U32_MAX);
    var asked := m.(id := id);
    assert Age(NewEntry(Encode(m) + trailer, put), later) == seconds;
    RestampedMessage(m, trailer, id);
    RestampKeepsFrame(Encode(m) + trailer, id);
    AgedMessageValid(asked, seconds);
    hide Encode, AgeMessage, ValidMessage, AgedBy, Restamp;
    if seconds > 0 {
      RewriteEncodesAged(asked, trailer, reply, seconds);
    }
  }

  lemma RestampedMessage(m: Message, trailer: seq<byte>, id: u16)
    requires ValidMessage(m)
    ensures ValidMessage(m.(id := id)) && Restamp(Encode(m) + trailer, id) == Encode(m.(id := id)) + trailer
  {
    var asked := m.(id := id);
    assert ValidMessage(asked);
    var rest := EncodeQuestions(m.questions) + EncodeRecords(AllRecords(m));
    assert Encode(m) == Header(m) + rest && Encode(asked) == Header(asked) + rest;
    HeaderRestamped(m, id);
    hide *;
    IdReplaced(Header(m), rest, trailer, id);
  }

  lemma IdReplaced(header: seq<byte>, rest: seq<byte>, trailer: seq<byte>, id: u16)
    requires |header| == 12
    ensures Restamp(header + rest + trailer, id) == Restamp(header, id) + rest + trailer
  {
    hide PutBe16;
  }

  lemma HeaderRestamped(m: Message, id: u16)
    requires ValidMessage(m) && ValidMessage(m.(id := id))
    ensures Header(m.(id := id)) == Restamp(Header(m), id)
  {
    hide ValidMessage, PutBe16;
  }
}
