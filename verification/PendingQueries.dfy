/** Upstream queries waiting for their response in UDP mode (src/dns.rs, `pending_insert`, `pending_take_match`). */
module PendingQueries {
  import opened Bytes
  import opened Net
  import opened DnsQuery
  import opened DnsCache
  import opened Eviction

  const PENDING_QUERY_TTL: nat := 5 * SECOND
  const MAX_PENDING_QUERIES: nat := 4096
  const ID_DRAWS: nat := 64

  datatype Pending = Pending(client: SocketAddr, clientId: u16, name: seq<byte>, qtype: u16, created: nat)

  type Table = map<u16, Pending>

  // ---------------------------------------------------------------- specification

  predicate Waits(p: Pending, now: nat) {
    now < p.created + PENDING_QUERY_TTL
  }

  function Unswept(m: Table, now: nat): Table {
    map id | id in m && Waits(m[id], now) :: m[id]
  }

  /** `kept` is `m` with room for one more: entries went only at the cap, and none that stayed is older. */
  ghost predicate OldestEvicted(m: Table, kept: Table) {
    && (forall id :: id in kept ==> id in m && kept[id] == m[id])
    && |kept| == Min(|m|, MAX_PENDING_QUERIES - 1)
    && (forall gone, stays :: gone in m && gone !in kept && stays in kept ==> m[gone].created <= kept[stays].created)
  }

  /** The first random draw that is not taken. */
  function FirstFree(m: Table, draws: seq<u16>): (r: Option<u16>)
    ensures r.Some? ==> r.value in draws && r.value !in m
    ensures r.None? ==> forall d :: d in draws ==> d in m
  {
    if draws == [] then None
    else if draws[0] !in m then Some(draws[0])
    else FirstFree(m, draws[1..])
  }

  /** Inserting `entry` with these random draws turns `before` into `after`, `kept` being what stayed. */
  ghost predicate InsertOutcome(before: Table, kept: Table, after: Table, entry: Pending, now: nat, draws: seq<u16>,
                                r: Option<u16>) {
    && OldestEvicted(Unswept(before, now), kept)
    && r == FirstFree(kept, draws)
    && after == if r.Some? then kept[r.value := entry] else kept
  }

  predicate Matches(p: Pending, name: seq<byte>, qtype: u16) {
    SameNameIgnoringCase(p.name, name) && p.qtype == qtype
  }

  function Taken(m: Table, id: u16, name: seq<byte>, qtype: u16): (Option<Pending>, Table) {
    if id in m && Matches(m[id], name, qtype) then (Some(m[id]), m - {id}) else (None, m)
  }

  // ---------------------------------------------------------------- the map

  class PendingQueries {
    var entries: Table

    constructor ()
      ensures entries == map[]
    {
      entries := map[];
    }

    /** The oldest entry goes while the map is full; which of several equally old ones is left open. */
    method Insert(entry: Pending, now: nat, draws: seq<u16>) returns (r: Option<u16>, ghost kept: Table)
      requires |draws| == ID_DRAWS
      modifies this
      ensures InsertOutcome(old(entries), kept, entries, entry, now, draws, r)
    {
      entries := Unswept(entries, now);
      ghost var unswept := entries;
      while |entries| >= MAX_PENDING_QUERIES
        invariant forall id :: id in entries ==> id in unswept && entries[id] == unswept[id]
        invariant |entries| >= Min(|unswept|, MAX_PENDING_QUERIES - 1)
        invariant forall gone, stays :: gone in unswept && gone !in entries && stays in entries ==>
                    unswept[gone].created <= entries[stays].created
        decreases |entries|
      {
        ghost var o := OldestOf(entries, entries.Keys);
        var oldest :| oldest in entries && forall id :: id in entries ==>
              entries[oldest].created <= entries[id].created;
        RemoveOne(entries, oldest);
        entries := entries - {oldest};
      }
      PartSize(entries, unswept);
      kept := entries;
      assert draws[0..] == draws;
      for i := 0 to ID_DRAWS
        invariant entries == kept
        invariant FirstFree(kept, draws) == FirstFree(kept, draws[i..])
      {
        var id := draws[i];
        if id !in entries {
          entries := entries[id := entry];
          return Some(id), kept;
        }
      }
      return None, kept;
    }

    method TakeMatch(txId: u16, respName: seq<byte>, respQtype: u16) returns (r: Option<Pending>)
      modifies this
      ensures (r, entries) == Taken(old(entries), txId, respName, respQtype)
    {
      if txId !in entries {
        return None;
      }
      var entry := entries[txId];
      if !SameNameIgnoringCase(entry.name, respName) || entry.qtype != respQtype {
        return None;
      }
      entries := entries - {txId};
      return Some(entry);
    }
  }

  lemma {:induction false} OldestOf(m: Table, ids: set<u16>) returns (oldest: u16)
    requires ids != {} && forall id :: id in ids ==> id in m
    ensures oldest in ids && forall id :: id in ids ==> m[oldest].created <= m[id].created
    decreases |ids|
  {
    var first :| first in ids;
    var rest := ids - {first};
    oldest := first;
    if rest != {} {
      var o := OldestOf(m, rest);
      oldest := if m[o].created < m[first].created then o else first;
    }
    forall id | id in ids
      ensures m[oldest].created <= m[id].created
    {
      assert id == first || id in rest;
    }
  }

  lemma RemoveOne(m: Table, id: u16)
    requires id in m
    ensures |m - {id}| == |m| - 1
  {
    assert (m - {id}).Keys == m.Keys - {id};
  }

  lemma PartSize(part: Table, m: Table)
    requires forall id :: id in part ==> id in m
    ensures |part| <= |m|
  {
    CardinalityOfPart(part.Keys, m.Keys);
  }

  // ---------------------------------------------------------------- what it guarantees

  /** No pending entry is ever overwritten, and the new entry is found under the returned id. */
  lemma InsertNeverOverwrites(before: Table, kept: Table, after: Table, entry: Pending, now: nat, draws: seq<u16>,
                              r: Option<u16>)
    requires InsertOutcome(before, kept, after, entry, now, draws, r)
    ensures r.Some? ==> r.value in after && after[r.value] == entry && r.value !in kept
    ensures forall id :: id in kept ==> id in after && after[id] == before[id] && Waits(before[id], now)
    ensures after.Keys == kept.Keys + if r.Some? then {r.value} else {}
    ensures |after| == |kept| + (if r.Some? then 1 else 0) <= MAX_PENDING_QUERIES
    ensures r.None? ==> forall d :: d in draws ==> d in before && Waits(before[d], now)
  {
    if r.Some? {
      assert after.Keys == kept.Keys + {r.value};
    }
  }

  /** Unexpired entries go only at the cap, at most enough to make room, oldest first. */
  lemma InsertEvictsOldestAtCap(before: Table, kept: Table, after: Table, entry: Pending, now: nat, draws: seq<u16>,
                                r: Option<u16>, gone: u16)
    requires InsertOutcome(before, kept, after, entry, now, draws, r) && |before| <= MAX_PENDING_QUERIES
    requires gone in before && gone !in kept && Waits(before[gone], now)
    ensures |before| == 4096 && |kept| == 4095
    ensures before.Keys == kept.Keys + {gone}
    ensures forall id :: id in before ==> Waits(before[id], now) && before[gone].created <= before[id].created
  {
    var u := Unswept(before, now);
    assert gone in u && kept.Keys <= u.Keys <= before.Keys;
    OneGone(before, u, kept, gone);
  }

  /** At the cap the one entry that went is all that is missing. */
  lemma OneGone(before: Table, u: Table, kept: Table, gone: u16)
    requires kept.Keys <= u.Keys <= before.Keys && gone in u && gone !in kept
    requires |kept| == Min(|u|, MAX_PENDING_QUERIES - 1) && |before| <= MAX_PENDING_QUERIES
    ensures |before| == 4096 && |kept| == 4095 && before.Keys == u.Keys == kept.Keys + {gone}
  {
    var most := kept.Keys + {gone};
    CardinalityOfPart(u.Keys, before.Keys);
    CardinalityOfPart(most, u.Keys);
    assert |most| == |kept| + 1;
    assert |u| == |before| && before.Keys - u.Keys == {};
    assert u.Keys - most == {};
  }

  /** A failed match changes nothing; a successful one removes exactly the matched entry. */
  lemma TakeMatchExact(m: Table, id: u16, name: seq<byte>, qtype: u16)
    ensures
      var (r, after) := Taken(m, id, name, qtype);
      && (r.Some? <==> id in m && Matches(m[id], name, qtype))
      && (r.None? ==> after == m)
      && (r.Some? ==> r.value == m[id] && after.Keys == m.Keys - {id} && |after| == |m| - 1
                      && forall k :: k in after ==> after[k] == m[k])
  {
    if id in m {
      RemoveOne(m, id);
    }
  }

  /** A query for the root is stored under the empty name, which no parsed response name matches. */
  lemma RootNeverMatched(p: Pending, response: seq<byte>, qtype: u16)
    requires p.name == [] && QueryName(response).Some?
    ensures !Matches(p, QueryName(response).value, qtype)
  {
    NameNotEmpty(response);
  }
}
