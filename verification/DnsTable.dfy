/** The bounded table from addresses to names that the proxy consults (src/dns.rs, `DnsTable`). */
module DnsTable {
  import opened Bytes
  import opened Net
  import opened DnsWire
  import opened DnsMessage
  import opened Eviction
  import opened DnsCache

  const TABLE_TTL_FLOOR: u32 := 300
  const TABLE_TTL_CEIL: u32 := 86_400

  datatype Mapping = Mapping(domain: seq<byte>, expires: nat)

  /** One call of `insert`: it happened at `at` and asked for `ttl` seconds. */
  datatype Insertion = Insertion(ip: Ip, domain: seq<byte>, ttl: nat, at: nat)

  // ---------------------------------------------------------------- specification

  /** An address learned, under a name, for some seconds. */
  datatype Fact = Fact(ip: Ip, domain: seq<byte>, ttl: nat)

  function FactsFor(ips: seq<Ip>, domain: seq<byte>, ttl: nat): (facts: seq<Fact>)
    ensures |facts| == |ips|
  {
    seq(|ips|, k requires 0 <= k < |ips| => Fact(ips[k], domain, ttl))
  }

  function TableTtl(response: seq<byte>): (ttl: nat)
    ensures TABLE_TTL_FLOOR <= ttl <= TABLE_TTL_CEIL
  {
    var m := MinTtl(response);
    Clamp(if m.Some? then m.value else TABLE_TTL_FLOOR, TABLE_TTL_FLOOR, TABLE_TTL_CEIL)
  }

  function MappingOf(i: Insertion): Mapping {
    Mapping(i.domain, i.at + i.ttl * SECOND)
  }

  function LiveMappings(entries: map<Ip, Mapping>, now: nat): set<Ip> {
    set ip | ip in entries && now < entries[ip].expires
  }

  /** The position in `history` of the last insertion for `ip`, -1 if there is none. */
  function LastFor(history: seq<Insertion>, ip: Ip): (k: int)
    ensures -1 <= k < |history|
    ensures k >= 0 ==> history[k].ip == ip
    ensures forall j :: k < j < |history| ==> history[j].ip != ip
  {
    if history == [] then -1
    else if history[|history| - 1].ip == ip then |history| - 1
    else LastFor(history[..|history| - 1], ip)
  }

  ghost predicate Inserted(before: map<Ip, Mapping>, after: map<Ip, Mapping>, i: Insertion, later: nat) {
    exists room :: RoomMade(before, room, LiveMappings(before, later)) && after == room[i.ip := MappingOf(i)]
  }

  /** Every mapping held is the one from the last insertion for its address. */
  ghost predicate Faithful(entries: map<Ip, Mapping>, history: seq<Insertion>) {
    forall ip :: ip in entries ==> LastFor(history, ip) >= 0 && entries[ip] == MappingOf(history[LastFor(history, ip)])
  }

  // ---------------------------------------------------------------- the table

  class DnsTable {
    var entries: map<Ip, Mapping>
    ghost var history: seq<Insertion>

    ghost predicate Valid()
      reads this
    {
      |entries| <= MAX_CACHE_ENTRIES && Faithful(entries, history)
    }

    constructor ()
      ensures Valid() && entries == map[] && history == []
    {
      entries, history := map[], [];
    }

    /** A name is found only while the last insertion for the address is unexpired. */
    method Lookup(ip: Ip, now: nat) returns (r: Option<seq<byte>>)
      requires Valid()
      ensures r.Some? <==> ip in entries && now < entries[ip].expires
      ensures r.Some? ==>
                var k := LastFor(history, ip);
                k >= 0 && r.value == history[k].domain && now < history[k].at + history[k].ttl * SECOND
    {
      if ip !in entries {
        return None;
      }
      var m := entries[ip];
      if m.expires <= now {
        return None;
      }
      return Some(m.domain);
    }

    method Insert(ip: Ip, domain: seq<byte>, ttlSecs: u32, now: nat, later: nat)
      requires Valid()
      modifies this
      ensures Valid()
      ensures history == old(history) + [Insertion(ip, domain, ttlSecs, now)]
      ensures Inserted(old(entries), entries, Insertion(ip, domain, ttlSecs, now), later)
    {
      ghost var before := entries;
      var expires := now + ttlSecs * SECOND;
      var live := LiveMappings(entries, later);
      var room := MakeRoom(entries, live);
      entries := room[ip := Mapping(domain, expires)];
      history := history + [Insertion(ip, domain, ttlSecs, now)];
      InsertedKeeps(before, entries, old(history), Insertion(ip, domain, ttlSecs, now), later);
    }
  }

  // ---------------------------------------------------------------- over any run

  lemma InsertedKeeps(before: map<Ip, Mapping>, after: map<Ip, Mapping>, history: seq<Insertion>, i: Insertion,
                      later: nat)
    requires |before| <= MAX_CACHE_ENTRIES && Faithful(before, history) && Inserted(before, after, i, later)
    ensures |after| <= MAX_CACHE_ENTRIES && Faithful(after, history + [i])
  {
    var room :| RoomMade(before, room, LiveMappings(before, later)) && after == room[i.ip := MappingOf(i)];
    hide *;
    RoomKept(before, room, LiveMappings(before, later));
    OneMoreEntry(room, i.ip, MappingOf(i));
    FaithfulFurther(before, room, history, i);
  }

  lemma FaithfulFurther(before: map<Ip, Mapping>, room: map<Ip, Mapping>, history: seq<Insertion>, i: Insertion)
    requires Faithful(before, history) && room.Keys <= before.Keys && forall ip :: ip in room ==> room[ip] == before[ip]
    ensures Faithful(room[i.ip := MappingOf(i)], history + [i])
  {
    hide LastFor, MappingOf;
    forall ip | ip in room[i.ip := MappingOf(i)]
      ensures LastFor(history + [i], ip) >= 0
      ensures room[i.ip := MappingOf(i)][ip] == MappingOf((history + [i])[LastFor(history + [i], ip)])
    {
      LastForFurther(history, i, ip);
    }
  }

  lemma LastForFurther(history: seq<Insertion>, i: Insertion, ip: Ip)
    ensures LastFor(history + [i], ip) == if i.ip == ip then |history| else LastFor(history, ip)
  {
    assert (history + [i])[..|history|] == history;
  }

  /** An unexpired mapping is lost only by being overwritten or when the table holds 10,000 unexpired ones, and then
      exactly 5,000 go. */
  lemma LiveMappingsLost(before: map<Ip, Mapping>, after: map<Ip, Mapping>, i: Insertion, later: nat, ip: Ip)
    requires |before| <= MAX_CACHE_ENTRIES && Inserted(before, after, i, later)
    requires ip in LiveMappings(before, later) && (ip !in after || after[ip] != before[ip])
    ensures ip == i.ip ||
            (var live := LiveMappings(before, later);
             |live| == 10_000 && live == before.Keys
             && exists gone: set<Ip> :: gone <= live && |gone| == 5_000
                 && after.Keys == (live - gone) + {i.ip})
  {
    var live := LiveMappings(before, later);
    var room :| RoomMade(before, room, live) && after == room[i.ip := MappingOf(i)];
    assert live <= before.Keys;
    RoomKept(before, room, live);
    hide *;
    LiveEntriesLost(before, room, live);
    if ip != i.ip {
      assert ip !in room;
      assert !(live <= room.Keys);
      var gone := live - room.Keys;
      assert after.Keys == (live - gone) + {i.ip};
    }
  }

  /** What a response reports lives for its least answer TTL, but at least 300 seconds and at most a day; for 300
      seconds
      when no TTL can be read. */
  lemma TableTtlOfMessage(m: Message, trailer: seq<byte>, least: u32)
    requires ValidMessage(m) && IsLeast(least, m.answers)
    ensures TableTtl(Encode(m) + trailer) ==
            if least < 300 || least == 0xFFFF_FFFF then 300 else if least > 86_400 then 86_400 else least
  {
    MinTtlOfMessage(m, trailer);
    LeastOfIs(m.answers, least);
    hide MinTtl, Encode, ValidMessage, IsLeast;
  }
}
