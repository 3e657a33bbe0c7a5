/** The UDP forwarder as a state machine: the main loop and the upstream reader interleave at their
    lock sections (src/dns.rs, `run_udp`). What upstream sends, and when, is unconstrained. */
module UdpForwarder {
  import opened Bytes
  import opened Net
  import opened DnsWire
  import opened DnsMessage
  import opened DnsQuery
  import opened DnsCache
  import opened DnsTable
  import opened Eviction
  import opened PendingQueries

  /** A response that matched the accepted query number `query`. */
  datatype Match = Match(query: nat, packet: seq<byte>, name: seq<byte>)
  datatype Reply = Reply(query: nat, client: SocketAddr, packet: seq<byte>)
  datatype Forwarded = Forwarded(query: nat, packet: seq<byte>)

  datatype MainLoop = Receiving | Forwarding(query: nat, packet: seq<byte>)
  /** Between matching a response and answering, the reader records its addresses one by one. */
  datatype Reader = Listening | Recording(query: nat, entry: Pending, packet: seq<byte>, name: seq<byte>, ips: seq<Ip>)

  /** What has become of an accepted query. */
  datatype Fate = InMap | Matched | Expired(at: nat) | Evicted(at: nat) | NoFreeId

  /** `owner` says which accepted query each pending entry stands for; `fates` goes along with `accepted`, and the
      logs only grow. */
  datatype State = State(
    pending: Table, owner: map<u16, nat>,
    table: map<Ip, Mapping>, insertions: seq<Insertion>,
    main: MainLoop, reader: Reader,
    accepted: seq<Pending>, fates: seq<Fate>, forwarded: seq<Forwarded>, matched: seq<Match>, replies: seq<Reply>)

  datatype Event =
    | ClientQuery(packet: seq<byte>, client: SocketAddr, created: nat, now: nat, draws: seq<u16>, kept: Table)
    | ForwardQuery
    | UpstreamPacket(packet: seq<byte>)
    | RecordAddress(now: nat, later: nat)
    | AnswerClient

  const START := State(map[], map[], map[], [], Receiving, Listening, [], [], [], [], [])

  // ---------------------------------------------------------------- steps

  function EntryFor(packet: seq<byte>, client: SocketAddr, created: nat): Pending
    requires |packet| >= 12
  {
    var name := match QueryName(packet) case Some(n) => n case None => [];
    var qtype := match QueryType(packet) case Some(t) => t case None => 0;
    Pending(client, Be16At(packet, 0), name, qtype, created)
  }

  /** The queries the entries that stayed stand for, and the new one if it got an id. */
  function OwnersAfter(owner: map<u16, nat>, kept: Table, id: Option<u16>, query: nat): map<u16, nat> {
    var stay := map k | k in kept && k in owner :: owner[k];
    if id.Some? then stay[id.value := query] else stay
  }

  /** The queries whose entries stayed. */
  function Staying(owner: map<u16, nat>, kept: Table): set<nat> {
    set id | id in kept && id in owner :: owner[id]
  }

  /** An entry that went was swept if its time was up, and evicted otherwise. */
  function FateAfter(f: Fate, entry: Pending, stays: bool, now: nat): Fate {
    if !f.InMap? || stays then f else if Waits(entry, now) then Evicted(now) else Expired(now)
  }

  function FatesAfter(fates: seq<Fate>, accepted: seq<Pending>, staying: set<nat>, now: nat): seq<Fate>
    requires |fates| == |accepted|
  {
    seq(|fates|, q requires 0 <= q < |fates| => FateAfter(fates[q], accepted[q], q in staying, now))
  }

  function AfterAccept(s: State, entry: Pending, kept: Table, pending: Table, now: nat, id: Option<u16>,
                       packet: seq<byte>): State
    requires |s.fates| == |s.accepted|
  {
    s.(pending := pending,
       owner := OwnersAfter(s.owner, kept, id, |s.accepted|),
       main := if id.Some? then Forwarding(|s.accepted|, Restamp(packet, id.value)) else Receiving,
       accepted := s.accepted + [entry],
       fates := FatesAfter(s.fates, s.accepted, Staying(s.owner, kept), now) + [if id.Some? then InMap else NoFreeId])
  }

  /** The main loop accepts a query: one lock section inserts it, and forwarding follows outside the lock. */
  ghost predicate AcceptQuery(s: State, e: Event, t: State)
    requires e.ClientQuery?
  {
    && s.main.Receiving? && |e.packet| >= 12 && |e.draws| == ID_DRAWS && e.created <= e.now && |s.fates| == |s.accepted|
    && var entry := EntryFor(e.packet, e.client, e.created);
    var id := FirstFree(e.kept, e.draws);
    && InsertOutcome(s.pending, e.kept, t.pending, entry, e.now, e.draws, id)
    && t == AfterAccept(s, entry, e.kept, t.pending, e.now, id, e.packet)
  }

  ghost predicate SendUpstream(s: State, t: State) {
    && s.main.Forwarding?
    && t == s.(main := Receiving, forwarded := s.forwarded + [Forwarded(s.main.query, s.main.packet)])
  }

  /** The reader looks at one packet. Too short, not a response, nameless or unmatched: it is dropped. */
  ghost predicate ReadUpstream(s: State, packet: seq<byte>, t: State) {
    && s.reader.Listening?
    && var name := if |packet| >= 12 && packet[2] >= 0x80 then QueryName(packet) else None;
    if name.None? then t == s
    else
      var id := Be16At(packet, 0);
      var qtype := if QueryType(packet).Some? then QueryType(packet).value else 0;
      var (entry, rest) := Taken(s.pending, id, name.value, qtype);
      if entry.None? then t == s
      else
        && id in s.owner && s.owner[id] < |s.fates|
        && t == s.(pending := rest, owner := s.owner - {id}, fates := s.fates[s.owner[id] := Matched],
                   matched := s.matched + [Match(s.owner[id], packet, name.value)],
                   reader := Recording(s.owner[id], entry.value, packet, name.value,
                                       if IpRecords(packet).Some? then IpRecords(packet).value else []))
  }

  ghost predicate RecordOne(s: State, now: nat, later: nat, t: State) {
    && s.reader.Recording? && s.reader.ips != []
    && var i := Insertion(s.reader.ips[0], s.reader.name, TableTtl(s.reader.packet), now);
    && Inserted(s.table, t.table, i, later)
    && t == s.(table := t.table, insertions := s.insertions + [i], reader := s.reader.(ips := s.reader.ips[1..]))
  }

  ghost predicate Answer(s: State, t: State) {
    && s.reader.Recording? && s.reader.ips == []
    && t == s.(reader := Listening,
               replies := s.replies + [Reply(s.reader.query, s.reader.entry.client,
                   Restamp(s.reader.packet, s.reader.entry.clientId))])
  }

  ghost predicate Next(s: State, e: Event, t: State) {
    match e
    case ClientQuery(_, _, _, _, _, _) => AcceptQuery(s, e, t)
    case ForwardQuery => SendUpstream(s, t)
    case UpstreamPacket(packet) => ReadUpstream(s, packet, t)
    case RecordAddress(now, later) => RecordOne(s, now, later, t)
    case AnswerClient => Answer(s, t)
  }

  /** A run: states joined by events, from the start. */
  ghost predicate Run(states: seq<State>, events: seq<Event>) {
    && |states| == |events| + 1 && states[0] == START
    && forall k :: 0 <= k < |events| ==> Next(states[k], events[k], states[k + 1])
  }

  // ---------------------------------------------------------------- invariants

  /** Each pending entry is an accepted query. */
  ghost predicate OwnersAgree(s: State) {
    && |s.pending| <= MAX_PENDING_QUERIES
    && s.owner.Keys == s.pending.Keys
    && (forall id :: id in s.owner ==> s.owner[id] < |s.accepted| && s.pending[id] == s.accepted[s.owner[id]])
  }

  /** Different entries are different queries, and none of them has been matched. */
  ghost predicate OwnersDistinct(owner: map<u16, nat>, matched: seq<Match>) {
    && (forall a, b :: a in owner && b in owner && a != b ==> owner[a] != owner[b])
    && (forall id, k :: id in owner && 0 <= k < |matched| ==> owner[id] != matched[k].query)
  }

  ghost predicate OwnersSound(s: State) {
    OwnersAgree(s) && OwnersDistinct(s.owner, s.matched)
  }

  /** The packet is a response to the query it matched. */
  ghost predicate Genuine(accepted: seq<Pending>, m: Match) {
    && m.query < |accepted| && |m.packet| >= 12 && m.packet[2] >= 0x80 && QueryName(m.packet) == Some(m.name)
    && SameNameIgnoringCase(accepted[m.query].name, m.name)
    && accepted[m.query].qtype == if QueryType(m.packet).Some? then QueryType(m.packet).value else 0
  }

  ghost predicate MatchesSound(s: State) {
    && (forall k :: 0 <= k < |s.matched| ==> Genuine(s.accepted, s.matched[k]))
    && (forall j, k :: 0 <= j < k < |s.matched| ==> s.matched[j].query != s.matched[k].query)
  }

  /** The reply that is due for a match. */
  ghost predicate ReplyFor(accepted: seq<Pending>, m: Match, r: Reply)
    requires m.query < |accepted|
  {
    r == Reply(m.query, accepted[m.query].client, Restamp(m.packet, accepted[m.query].clientId))
  }

  /** Matches are answered in order, and at most the last one is still being recorded. */
  ghost predicate RepliesSound(s: State) {
    && |s.matched| == |s.replies| + (if s.reader.Recording? then 1 else 0)
    && (forall k :: 0 <= k < |s.replies| ==>
          s.matched[k].query < |s.accepted| && ReplyFor(s.accepted, s.matched[k], s.replies[k]))
    && (s.reader.Recording? ==>
          && s.reader.query < |s.accepted| && s.reader.entry == s.accepted[s.reader.query]
          && s.matched[|s.matched| - 1] == Match(s.reader.query, s.reader.packet, s.reader.name)
          && forall ip :: ip in s.reader.ips ==>
                IpRecords(s.reader.packet).Some? && ip in IpRecords(s.reader.packet).value)
  }

  /** The insertion reports an address of a matched response under the name that response carries. */
  ghost predicate ComesFrom(i: Insertion, m: Match) {
    i.domain == m.name && i.ttl == TableTtl(m.packet) && IpRecords(m.packet).Some? && i.ip in IpRecords(m.packet).value
  }

  ghost predicate SomeMatch(i: Insertion, matched: seq<Match>) {
    exists j :: 0 <= j < |matched| && ComesFrom(i, matched[j])
  }

  /** Every insertion comes from some match. */
  ghost predicate Explained(insertions: seq<Insertion>, matched: seq<Match>) {
    forall k :: 0 <= k < |insertions| ==> SomeMatch(insertions[k], matched)
  }

  ghost predicate TableSound(s: State) {
    && |s.table| <= MAX_CACHE_ENTRIES && Faithful(s.table, s.insertions)
    && Explained(s.insertions, s.matched)
  }

  ghost predicate Owned(owner: map<u16, nat>, query: nat) {
    exists id :: id in owner && owner[id] == query
  }

  ghost predicate MatchedBy(matched: seq<Match>, query: nat) {
    exists k :: 0 <= k < |matched| && matched[k].query == query
  }

  /** A query's fate says where it is to be found, or when its time was or was not up. */
  ghost predicate FateSound(s: State, query: nat)
    requires query < |s.fates| == |s.accepted|
  {
    match s.fates[query]
    case InMap => Owned(s.owner, query)
    case Matched => MatchedBy(s.matched, query)
    case Expired(at) => !Waits(s.accepted[query], at)
    case Evicted(at) => Waits(s.accepted[query], at)
    case NoFreeId => true
  }

  ghost predicate FatesSound(s: State) {
    && |s.fates| == |s.accepted|
    && (forall q :: 0 <= q < |s.fates| ==> FateSound(s, q))
    && (forall id :: id in s.owner ==> s.owner[id] < |s.fates| && s.fates[s.owner[id]].InMap?)
    && (forall k :: 0 <= k < |s.matched| ==> s.matched[k].query < |s.fates| && s.fates[s.matched[k].query].Matched?)
  }

  ghost predicate Sent(s: State, query: nat) {
    (exists k :: 0 <= k < |s.forwarded| && s.forwarded[k].query == query)
        || (s.main.Forwarding? && s.main.query == query)
  }

  /** Every query that got an id is sent upstream once, in the order of acceptance. */
  ghost predicate ForwardsSound(s: State) {
    && (forall k :: 0 <= k < |s.forwarded| ==> s.forwarded[k].query < |s.accepted|)
    && (s.main.Forwarding? ==> s.main.query < |s.accepted|)
    && (forall j, k :: 0 <= j < k < |s.forwarded| ==> s.forwarded[j].query < s.forwarded[k].query)
    && (forall k :: 0 <= k < |s.forwarded| && s.main.Forwarding? ==> s.forwarded[k].query < s.main.query)
  }

  /** The queries sent upstream are those that got an id. */
  ghost predicate SentWithId(s: State) {
    |s.fates| == |s.accepted| && forall q :: 0 <= q < |s.fates| ==> (Sent(s, q) <==> !s.fates[q].NoFreeId?)
  }

  ghost predicate Inv(s: State) {
    OwnersSound(s) && MatchesSound(s) && RepliesSound(s) && TableSound(s) && FatesSound(s) && ForwardsSound(s)
        && SentWithId(s)
  }

  /** What accepting a query does to the pending map, in terms of owners. */
  lemma AcceptKeepsOwners(s: State, e: Event, t: State)
    requires OwnersSound(s) && MatchesSound(s) && e.ClientQuery? && AcceptQuery(s, e, t)
    ensures OwnersSound(t)
  {
    hide EntryFor, Unswept, FirstFree, Restamp, InsertOutcome, OwnersAfter, OwnersSound, QueryName, QueryType,
         SameNameIgnoringCase;
    var entry := EntryFor(e.packet, e.client, e.created);
    var id := FirstFree(e.kept, e.draws);
    InsertNeverOverwrites(s.pending, e.kept, t.pending, entry, e.now, e.draws, id);
    KeptWasPending(s.pending, e.kept, t.pending, entry, e.now, e.draws, id);
    AcceptedOwners(s, t, e.kept, id, entry);
  }

  /** Owners stay sound when entries go. */
  lemma FewerOwners(s: State, t: State)
    requires OwnersSound(s) && t.accepted == s.accepted && t.matched == s.matched
             && t.owner.Keys == t.pending.Keys <= s.owner.Keys
    requires forall k :: k in t.pending ==> t.owner[k] == s.owner[k] && t.pending[k] == s.pending[k]
    ensures OwnersSound(t)
  {
    CardinalityOfPart(t.pending.Keys, s.pending.Keys);
  }

  /** Owners stay sound when a fresh query takes a free id. */
  lemma OneMoreOwner(s: State, t: State, id: u16, entry: Pending)
    requires OwnersSound(s) && id !in s.pending && |s.pending| < MAX_PENDING_QUERIES
    requires t.pending == s.pending[id := entry] && t.owner == s.owner[id := |s.accepted|]
             && t.accepted == s.accepted + [entry]
    requires t.matched == s.matched && forall k :: 0 <= k < |s.matched| ==> s.matched[k].query < |s.accepted|
    ensures OwnersSound(t)
  {
    OneMoreAgrees(s, t, id, entry);
    OneMoreDistinct(s.owner, s.matched, id, |s.accepted|);
  }

  lemma OneMoreAgrees(s: State, t: State, id: u16, entry: Pending)
    requires OwnersAgree(s) && id !in s.pending && |s.pending| < MAX_PENDING_QUERIES
    requires t.pending == s.pending[id := entry] && t.owner == s.owner[id := |s.accepted|]
             && t.accepted == s.accepted + [entry]
    ensures OwnersAgree(t)
  {
    assert t.pending.Keys == s.pending.Keys + {id} && t.owner.Keys == s.owner.Keys + {id};
    forall k | k in t.owner
      ensures t.owner[k] < |t.accepted| && t.pending[k] == t.accepted[t.owner[k]]
    {
      if k != id {
        assert t.owner[k] == s.owner[k] && t.accepted[s.owner[k]] == s.accepted[s.owner[k]];
      }
    }
  }

  lemma OneMoreDistinct(owner: map<u16, nat>, matched: seq<Match>, id: u16, query: nat)
    requires OwnersDistinct(owner, matched) && (forall k :: k in owner ==> owner[k] < query)
    requires forall k :: 0 <= k < |matched| ==> matched[k].query < query
    ensures OwnersDistinct(owner[id := query], matched)
  {
  }

  lemma AcceptedOwners(s: State, t: State, kept: Table, id: Option<u16>, entry: Pending)
    requires OwnersSound(s) && kept.Keys <= s.pending.Keys && (forall k :: k in kept ==> kept[k] == s.pending[k])
    requires |kept| < MAX_PENDING_QUERIES && (id.Some? ==> id.value !in kept)
    requires t.pending == (if id.Some? then kept[id.value := entry] else kept)
    requires t.owner == OwnersAfter(s.owner, kept, id, |s.accepted|) && t.accepted == s.accepted + [entry]
    requires t.matched == s.matched && forall k :: 0 <= k < |s.matched| ==> s.matched[k].query < |s.accepted|
    ensures OwnersSound(t)
  {
    assert s.owner.Keys == s.pending.Keys;
    hide OwnersSound;
    var stay := OwnersAfter(s.owner, kept, None, 0);
    StayingOwners(s.owner, kept, id, |s.accepted|);
    hide OwnersAfter;
    var u := s.(pending := kept, owner := stay);
    FewerOwners(s, u);
    if id.Some? {
      OneMoreOwner(u, t, id.value, entry);
    } else {
      MoreAccepted(u, t);
    }
  }

  lemma StayingOwners(owner: map<u16, nat>, kept: Table, id: Option<u16>, query: nat)
    requires kept.Keys <= owner.Keys
    ensures
      var stay := OwnersAfter(owner, kept, None, 0);
      && stay.Keys == kept.Keys && (forall k :: k in kept ==> stay[k] == owner[k])
      && OwnersAfter(owner, kept, id, query) == if id.Some? then stay[id.value := query] else stay
  {
  }

  lemma MoreAccepted(s: State, t: State)
    requires OwnersSound(s) && t.pending == s.pending && t.owner == s.owner && t.matched == s.matched
             && s.accepted <= t.accepted
    ensures OwnersSound(t)
  {
    assert forall q :: 0 <= q < |s.accepted| ==> t.accepted[q] == s.accepted[q];
  }

  lemma KeptWasPending(before: Table, kept: Table, after: Table, entry: Pending, now: nat, draws: seq<u16>,
                       r: Option<u16>)
    requires InsertOutcome(before, kept, after, entry, now, draws, r)
    ensures kept.Keys <= before.Keys && after == if r.Some? then kept[r.value := entry] else kept
    ensures forall id :: id in kept ==> kept[id] == before[id]
    ensures |kept| < MAX_PENDING_QUERIES && (r.Some? ==> r.value !in kept)
  {
  }

  /** The logs that accepting a query leaves alone keep their meaning. */
  lemma AcceptKeepsLogs(s: State, e: Event, t: State)
    requires MatchesSound(s) && RepliesSound(s) && TableSound(s) && ForwardsSound(s) && e.ClientQuery?
             && AcceptQuery(s, e, t)
    ensures MatchesSound(t) && RepliesSound(t) && TableSound(t) && ForwardsSound(t)
  {
    AcceptShape(s, e, t);
    hide AcceptQuery, MatchesSound, RepliesSound, TableSound, ForwardsSound;
    MatchesMore(s, t);
    RepliesMore(s, t);
    TableFrame(s, t);
    ForwardsMore(s, t);
  }

  lemma AcceptShape(s: State, e: Event, t: State)
    requires e.ClientQuery? && AcceptQuery(s, e, t)
    ensures s.accepted <= t.accepted && |t.accepted| == |s.accepted| + 1
    ensures t.matched == s.matched && t.replies == s.replies && t.reader == s.reader
    ensures t.table == s.table && t.insertions == s.insertions && t.forwarded == s.forwarded
    ensures s.main.Receiving? && (t.main.Forwarding? ==> t.main.query == |s.accepted|)
  {
    hide EntryFor, InsertOutcome, FirstFree, Restamp, OwnersAfter, FatesAfter, Staying;
  }

  lemma MatchesMore(s: State, t: State)
    requires MatchesSound(s) && s.accepted <= t.accepted && t.matched == s.matched
    ensures MatchesSound(t)
  {
    hide QueryName, QueryType, SameNameIgnoringCase;
    forall k | 0 <= k < |t.matched|
      ensures Genuine(t.accepted, t.matched[k])
    {
      assert Genuine(s.accepted, s.matched[k]);
    }
  }

  lemma RepliesMore(s: State, t: State)
    requires RepliesSound(s) && s.accepted <= t.accepted && t.matched == s.matched && t.replies == s.replies
             && t.reader == s.reader
    ensures RepliesSound(t)
  {
    hide IpRecords, Restamp;
    assert forall k :: 0 <= k < |s.accepted| ==> t.accepted[k] == s.accepted[k];
  }

  lemma TableFrame(s: State, t: State)
    requires TableSound(s) && t.table == s.table && t.insertions == s.insertions && s.matched <= t.matched
    ensures TableSound(t)
  {
    hide Faithful, Explained;
    MoreMatches(s.insertions, s.matched, t.matched);
  }

  lemma ForwardsFrame(s: State, t: State)
    requires ForwardsSound(s) && t.accepted == s.accepted && t.main == s.main && t.forwarded == s.forwarded
    ensures ForwardsSound(t)
  {
  }

  lemma ForwardsMore(s: State, t: State)
    requires ForwardsSound(s) && s.main.Receiving? && |t.accepted| == |s.accepted| + 1 && t.forwarded == s.forwarded
    requires t.main.Forwarding? ==> t.main.query == |s.accepted|
    ensures ForwardsSound(t)
  {
  }

  /** Matching removes one pending entry, whose query had not been matched before. */
  lemma ReadKeepsOwners(s: State, packet: seq<byte>, t: State)
    requires OwnersSound(s) && MatchesSound(s) && ReadUpstream(s, packet, t)
    ensures OwnersSound(t) && MatchesSound(t)
    ensures FatesSound(s) && SentWithId(s) ==> FatesSound(t) && SentWithId(t)
  {
    assert OwnersDistinct(s.owner, s.matched);
    hide QueryName, QueryType, IpRecords, SameNameIgnoringCase, Be16At, OwnersSound, MatchesSound, OwnersDistinct,
         FatesSound, SentWithId;
    if t != s {
      var id, name := Be16At(packet, 0), QueryName(packet).value;
      var qtype := if QueryType(packet).Some? then QueryType(packet).value else 0;
      TakeMatchExact(s.pending, id, name, qtype);
      if FatesSound(s) && SentWithId(s) {
        MatchKeepsFates(s, t, id, Match(s.owner[id], packet, name));
      }
      MatchedOwners(s, t, id, Match(s.owner[id], packet, name));
    }
  }

  lemma MatchedOwners(s: State, t: State, id: u16, m: Match)
    requires OwnersSound(s) && MatchesSound(s) && id in s.owner && m.query == s.owner[id]
    requires |m.packet| >= 12 && m.packet[2] >= 0x80 && QueryName(m.packet) == Some(m.name)
    requires Matches(s.pending[id], m.name, if QueryType(m.packet).Some? then QueryType(m.packet).value else 0)
    requires t.pending == s.pending - {id} && t.owner == s.owner - {id} && t.accepted == s.accepted
             && t.matched == s.matched + [m]
    ensures OwnersSound(t) && MatchesSound(t)
  {
    hide QueryName, QueryType, SameNameIgnoringCase;
    assert Genuine(t.accepted, m);
    assert forall k :: 0 <= k < |s.matched| ==> s.matched[k].query != m.query;
    MatchedDistinct(s.owner, s.matched, id, m);
    hide Genuine, OwnersDistinct;
    OneLessAgrees(s, t, id);
  }

  lemma OneLessAgrees(s: State, t: State, id: u16)
    requires OwnersAgree(s) && id in s.owner && t.pending == s.pending - {id} && t.owner == s.owner - {id}
             && t.accepted == s.accepted
    ensures OwnersAgree(t)
  {
    RemoveOne(s.pending, id);
  }

  lemma MatchedDistinct(owner: map<u16, nat>, matched: seq<Match>, id: u16, m: Match)
    requires OwnersDistinct(owner, matched) && id in owner && m.query == owner[id]
    ensures OwnersDistinct(owner - {id}, matched + [m])
  {
  }

  lemma ReadKeepsLogs(s: State, packet: seq<byte>, t: State)
    requires OwnersSound(s) && RepliesSound(s) && TableSound(s) && ForwardsSound(s) && ReadUpstream(s, packet, t)
    ensures RepliesSound(t) && TableSound(t) && ForwardsSound(t)
  {
    if t != s {
      var m := MatchShape(s, packet, t);
      hide ReadUpstream, RepliesSound, OwnersSound, TableSound, ForwardsSound, IpRecords;
      TableFrame(s, t);
      ForwardsFrame(s, t);
      MatchBeingRecorded(s, t, m);
    }
  }

  lemma MatchShape(s: State, packet: seq<byte>, t: State) returns (m: Match)
    requires OwnersSound(s) && ReadUpstream(s, packet, t) && t != s
    ensures s.reader.Listening? && t.reader.Recording? && t.matched == s.matched + [m]
    ensures t.reader.query < |s.accepted| && t.reader.entry == s.accepted[t.reader.query]
    ensures m == Match(t.reader.query, t.reader.packet, t.reader.name)
    ensures t.reader.ips == if IpRecords(t.reader.packet).Some? then IpRecords(t.reader.packet).value else []
    ensures t.accepted == s.accepted && t.replies == s.replies && t.table == s.table && t.insertions == s.insertions
    ensures t.main == s.main && t.forwarded == s.forwarded
  {
    hide QueryName, QueryType, IpRecords, Matches, Be16At, OwnersDistinct;
    m := Match(t.reader.query, t.reader.packet, t.reader.name);
  }

  lemma MatchBeingRecorded(s: State, t: State, m: Match)
    requires RepliesSound(s) && s.reader.Listening? && t.reader.Recording? && t.matched == s.matched + [m]
    requires t.reader.query < |s.accepted| && t.reader.entry == s.accepted[t.reader.query]
    requires m == Match(t.reader.query, t.reader.packet, t.reader.name)
    requires t.reader.ips == if IpRecords(t.reader.packet).Some? then IpRecords(t.reader.packet).value else []
    requires t.accepted == s.accepted && t.replies == s.replies
    ensures RepliesSound(t)
  {
    hide IpRecords, Restamp;
  }

  lemma MoreMatches(insertions: seq<Insertion>, matched: seq<Match>, more: seq<Match>)
    requires Explained(insertions, matched) && matched <= more
    ensures Explained(insertions, more)
  {
    forall k | 0 <= k < |insertions|
      ensures SomeMatch(insertions[k], more)
    {
      assert SomeMatch(insertions[k], matched);
      var j :| 0 <= j < |matched| && ComesFrom(insertions[k], matched[j]);
      assert more[j] == matched[j] && ComesFrom(insertions[k], more[j]);
    }
  }

  lemma MoreInsertions(insertions: seq<Insertion>, matched: seq<Match>, i: Insertion, j: nat)
    requires Explained(insertions, matched) && j < |matched| && ComesFrom(i, matched[j])
    ensures Explained(insertions + [i], matched)
  {
    assert SomeMatch(i, matched);
  }

  /** Accepting a query decides the fate of the entries that went, and of no others. */
  lemma AcceptKeepsFates(s: State, e: Event, t: State)
    requires OwnersAgree(s) && MatchesSound(s) && FatesSound(s) && e.ClientQuery? && AcceptQuery(s, e, t)
    ensures FatesSound(t)
  {
    hide EntryFor, Restamp, QueryName, QueryType, Genuine, FirstFree, Waits, OwnersAgree, OldestEvicted;
    var entry := EntryFor(e.packet, e.client, e.created);
    var id := FirstFree(e.kept, e.draws);
    KeptWasPending(s.pending, e.kept, t.pending, entry, e.now, e.draws, id);
    hide InsertOutcome, AcceptQuery;
    forall q | 0 <= q < |t.fates|
      ensures FateSound(t, q)
    {
      AcceptedFate(s, t, e.kept, id, entry, e.now, q);
    }
    AcceptedOwnersInMap(s, t, e.kept, id, e.now);
  }

  lemma AcceptedFate(s: State, t: State, kept: Table, id: Option<u16>, entry: Pending, now: nat, q: nat)
    requires FatesSound(s) && (id.Some? ==> id.value !in kept) && q < |t.fates|
    requires t.matched == s.matched && t.accepted == s.accepted + [entry]
             && t.owner == OwnersAfter(s.owner, kept, id, |s.accepted|)
    requires t.fates == FatesAfter(s.fates, s.accepted, Staying(s.owner, kept), now)
             + [if id.Some? then InMap else NoFreeId]
    ensures FateSound(t, q)
  {
    if q == |s.accepted| {
      if id.Some? {
        assert t.owner[id.value] == q;
      }
    } else {
      assert FateSound(s, q);
      if q in Staying(s.owner, kept) {
        var i :| i in kept && i in s.owner && s.owner[i] == q;
        assert t.owner[i] == q;
      }
    }
  }

  lemma AcceptedOwnersInMap(s: State, t: State, kept: Table, id: Option<u16>, now: nat)
    requires FatesSound(s) && t.matched == s.matched && t.owner == OwnersAfter(s.owner, kept, id, |s.accepted|)
    requires t.fates == FatesAfter(s.fates, s.accepted, Staying(s.owner, kept), now)
             + [if id.Some? then InMap else NoFreeId]
    ensures forall i :: i in t.owner ==> t.owner[i] < |t.fates| && t.fates[t.owner[i]].InMap?
    ensures forall k :: 0 <= k < |t.matched| ==> t.matched[k].query < |t.fates| && t.fates[t.matched[k].query].Matched?
  {
    forall i | i in t.owner
      ensures t.owner[i] < |t.fates| && t.fates[t.owner[i]].InMap?
    {
      if id != Some(i) {
        assert t.owner[i] == s.owner[i] && s.owner[i] in Staying(s.owner, kept);
      }
    }
  }

  lemma AcceptKeepsSent(s: State, e: Event, t: State)
    requires FatesSound(s) && ForwardsSound(s) && SentWithId(s) && e.ClientQuery? && AcceptQuery(s, e, t)
    ensures SentWithId(t)
  {
    hide EntryFor, Restamp, FirstFree, InsertOutcome, FateSound, Staying, OwnersAfter, Waits;
    forall q | 0 <= q < |t.fates|
      ensures Sent(t, q) <==> !t.fates[q].NoFreeId?
    {
      if q < |s.fates| {
        assert Sent(t, q) <==> Sent(s, q);
      }
    }
  }

  /** The query that is matched leaves the map. */
  lemma MatchKeepsFates(s: State, t: State, id: u16, m: Match)
    requires OwnersDistinct(s.owner, s.matched) && FatesSound(s) && SentWithId(s) && id in s.owner
             && m.query == s.owner[id]
    requires t.owner == s.owner - {id} && t.fates == s.fates[s.owner[id] := Matched] && t.matched == s.matched + [m]
    requires t.accepted == s.accepted && t.main == s.main && t.forwarded == s.forwarded
    ensures FatesSound(t) && SentWithId(t)
  {
    MatchKeepsSent(s, t, m.query);
    hide SentWithId;
    forall q | 0 <= q < |t.fates|
      ensures FateSound(t, q)
    {
      assert FateSound(s, q);
      MatchedFate(s, t, id, m, q);
    }
  }

  lemma MatchedFate(s: State, t: State, id: u16, m: Match, q: nat)
    requires q < |s.fates| == |s.accepted| && FateSound(s, q) && id in s.owner && m.query == s.owner[id] < |s.fates|
    requires t.owner == s.owner - {id} && t.fates == s.fates[s.owner[id] := Matched] && t.matched == s.matched + [m]
             && t.accepted == s.accepted
    ensures FateSound(t, q)
  {
    if q == m.query {
      assert t.matched[|s.matched|].query == q;
    } else if t.fates[q].InMap? {
      var i :| i in s.owner && s.owner[i] == q;
      assert i in t.owner && t.owner[i] == q;
    } else if t.fates[q].Matched? {
      var k :| 0 <= k < |s.matched| && s.matched[k].query == q;
      assert t.matched[k].query == q;
    }
  }

  lemma MatchKeepsSent(s: State, t: State, q: nat)
    requires SentWithId(s) && q < |s.fates| && !s.fates[q].NoFreeId? && t.fates == s.fates[q := Matched]
    requires t.accepted == s.accepted && t.main == s.main && t.forwarded == s.forwarded
    ensures SentWithId(t)
  {
    assert forall r: nat :: Sent(t, r) <==> Sent(s, r);
    hide Sent;
  }

  lemma RecordKeepsInv(s: State, now: nat, later: nat, t: State)
    requires Inv(s) && RecordOne(s, now, later, t)
    ensures Inv(t)
  {
    hide QueryName, QueryType, IpRecords, TableTtl, Faithful, SameNameIgnoringCase, Restamp, Inserted, Genuine,
         OwnersSound, ForwardsSound, Explained,
         FatesSound, SentWithId;
    var i := Insertion(s.reader.ips[0], s.reader.name, TableTtl(s.reader.packet), now);
    InsertedKeeps(s.table, t.table, s.insertions, i, later);
    assert s.reader.ips[0] in s.reader.ips;
    MoreInsertions(s.insertions, s.matched, i, |s.matched| - 1);
    assert forall ip :: ip in t.reader.ips ==> ip in s.reader.ips;
    OwnersFrame(s, t);
  }

  /** Predicates over fields a step does not touch. */
  lemma OwnersFrame(s: State, t: State)
    requires t.pending == s.pending && t.owner == s.owner && t.accepted == s.accepted && t.matched == s.matched
    ensures OwnersSound(s) ==> OwnersSound(t)
    ensures MatchesSound(s) ==> MatchesSound(t)
    ensures t.fates == s.fates && FatesSound(s) ==> FatesSound(t)
    ensures t.main == s.main && t.forwarded == s.forwarded && ForwardsSound(s) ==> ForwardsSound(t)
    ensures t.main == s.main && t.forwarded == s.forwarded && t.fates == s.fates && SentWithId(s) ==> SentWithId(t)
  {
    FatesFrame(s, t);
    hide FatesSound, SentWithId;
  }

  lemma FatesFrame(s: State, t: State)
    requires t.owner == s.owner && t.accepted == s.accepted && t.matched == s.matched
    ensures t.fates == s.fates && FatesSound(s) ==> FatesSound(t)
    ensures t.main == s.main && t.forwarded == s.forwarded && t.fates == s.fates && SentWithId(s) ==> SentWithId(t)
  {
    assert t.fates == s.fates ==> forall q :: 0 <= q < |s.fates| == |s.accepted| && FateSound(s, q) ==> FateSound(t, q);
    assert t.main == s.main && t.forwarded == s.forwarded ==> forall q: nat :: Sent(t, q) <==> Sent(s, q);
  }

  lemma SendKeepsInv(s: State, t: State)
    requires Inv(s) && SendUpstream(s, t)
    ensures Inv(t)
  {
    hide OwnersAgree, OwnersDistinct, MatchesSound, Genuine, Faithful, Explained, IpRecords, FatesSound, SentWithId;
    OwnersFrame(s, t);
    SendKeepsSent(s, t);
  }

  lemma SendKeepsSent(s: State, t: State)
    requires SentWithId(s) && SendUpstream(s, t)
    ensures SentWithId(t)
  {
    assert t.forwarded[|s.forwarded|].query == s.main.query;
    assert forall k :: 0 <= k < |s.forwarded| ==> t.forwarded[k] == s.forwarded[k];
    assert forall q: nat :: Sent(t, q) <==> Sent(s, q);
  }

  lemma AnswerKeepsInv(s: State, t: State)
    requires Inv(s) && Answer(s, t)
    ensures Inv(t)
  {
    hide OwnersAgree, OwnersDistinct, MatchesSound, Genuine, Faithful, Explained, IpRecords, ForwardsSound, Restamp,
         FatesSound, SentWithId;
    OwnersFrame(s, t);
  }

  lemma AcceptFates(s: State, e: Event, t: State)
    requires Inv(s) && e.ClientQuery? && AcceptQuery(s, e, t)
    ensures FatesSound(t) && SentWithId(t)
  {
    assert OwnersAgree(s);
    hide AcceptQuery, OwnersAgree, OwnersDistinct, MatchesSound, RepliesSound, TableSound, FatesSound, ForwardsSound,
         SentWithId;
    AcceptKeepsFates(s, e, t);
    AcceptKeepsSent(s, e, t);
  }

  lemma StepKeepsInv(s: State, e: Event, t: State)
    requires Inv(s) && Next(s, e, t)
    ensures Inv(t)
  {
    hide AcceptQuery, SendUpstream, ReadUpstream, RecordOne, Answer, OwnersSound, MatchesSound, RepliesSound,
         TableSound, FatesSound,
         ForwardsSound, SentWithId;
    match e
    case ClientQuery(_, _, _, _, _, _) =>
      AcceptKeepsOwners(s, e, t);
      AcceptKeepsLogs(s, e, t);
      AcceptFates(s, e, t);
    case ForwardQuery => SendKeepsInv(s, t);
    case UpstreamPacket(packet) => ReadKeepsOwners(s, packet, t); ReadKeepsLogs(s, packet, t);
    case RecordAddress(now, later) => RecordKeepsInv(s, now, later, t);
    case AnswerClient => AnswerKeepsInv(s, t);
  }

  lemma StartSound()
    ensures Inv(START)
  {
  }

  lemma {:induction false} RunKeepsInv(states: seq<State>, events: seq<Event>, k: nat)
    requires Run(states, events) && k < |states|
    ensures Inv(states[k])
    decreases k
  {
    hide Inv, Next;
    if k > 0 {
      RunKeepsInv(states, events, k - 1);
      StepKeepsInv(states[k - 1], events[k - 1], states[k]);
    } else {
      StartSound();
    }
  }

  // ---------------------------------------------------------------- over whole runs

  /** Each accepted query is answered at most once, to its own client under its own id, by a response to it. */
  lemma AnsweredAtMostOnce(states: seq<State>, events: seq<Event>, k: nat)
    requires Run(states, events) && k < |states|
    ensures
      var s := states[k];
      && (forall i, j :: 0 <= i < j < |s.replies| ==> s.replies[i].query != s.replies[j].query)
      && (forall i :: 0 <= i < |s.replies| ==>
            var r := s.replies[i];
            && r.query < |s.accepted|
            && r.client == s.accepted[r.query].client
            && |r.packet| >= 12 && Be16At(r.packet, 0) == s.accepted[r.query].clientId && r.packet[2] >= 0x80
            && QueryName(r.packet).Some? && SameNameIgnoringCase(s.accepted[r.query].name, QueryName(r.packet).value)
            && s.accepted[r.query].qtype == (if QueryType(r.packet).Some? then QueryType(r.packet).value else 0))
  {
    hide Run, OwnersSound, TableSound, ForwardsSound, QueryName, QueryType, SameNameIgnoringCase, Restamp, Be16At;
    RunKeepsInv(states, events, k);
    var s := states[k];
    forall i | 0 <= i < |s.replies|
      ensures
        var r := s.replies[i];
        && r.query < |s.accepted|
        && r.client == s.accepted[r.query].client
        && |r.packet| >= 12 && Be16At(r.packet, 0) == s.accepted[r.query].clientId && r.packet[2] >= 0x80
        && QueryName(r.packet).Some? && SameNameIgnoringCase(s.accepted[r.query].name, QueryName(r.packet).value)
        && s.accepted[r.query].qtype == (if QueryType(r.packet).Some? then QueryType(r.packet).value else 0)
    {
      assert Genuine(s.accepted, s.matched[i]);
      RestampKeepsQuestion(s.matched[i].packet, s.accepted[s.matched[i].query].clientId);
    }
  }

  lemma RestampKeepsQuestion(p: seq<byte>, id: u16)
    requires |p| >= 12
    ensures QueryName(Restamp(p, id)) == QueryName(p) && QueryType(Restamp(p, id)) == QueryType(p)
    ensures Be16At(Restamp(p, id), 0) == id && Restamp(p, id)[2] == p[2]
  {
    var q := Restamp(p, id);
    assert forall i :: 2 <= i < |p| ==> q[i] == p[i];
    LabelsSuffix(p, q, 12);
  }

  lemma {:induction false} LabelsSuffix(p: seq<byte>, q: seq<byte>, pos: nat)
    requires |p| == |q| && forall i :: pos <= i < |p| ==> q[i] == p[i]
    ensures NameLabels(q, pos) == NameLabels(p, pos) && SkipName(q, pos) == SkipName(p, pos)
    ensures SkipName(p, pos).Some? ==> SkipName(p, pos).value > pos
    decreases |p| - pos
  {
    if pos < |p| && 0 < p[pos] < 0xC0 {
      LabelsSuffix(p, q, pos + 1 + p[pos]);
      if pos + 1 + p[pos] <= |p| {
        assert q[pos + 1..pos + 1 + p[pos]] == p[pos + 1..pos + 1 + p[pos]];
      }
    }
  }

  /** The reader takes this packet, arriving under the entry's id, for the entry's response. */
  ghost predicate Answers(response: seq<byte>, entry: Pending) {
    && |response| >= 12 && response[2] >= 0x80 && QueryName(response).Some?
    && Matches(entry, QueryName(response).value, if QueryType(response).Some? then QueryType(response).value else 0)
  }

  /** Some response matches a query exactly when the query's first name parses: root, pointer, overrun and bad UTF-8
      are all stored under the empty name, which nothing matches. */
  lemma MatchableExactly(query: seq<byte>, client: SocketAddr, created: nat)
    requires |query| >= 12
    ensures (exists r :: Answers(r, EntryFor(query, client, created))) <==> QueryName(query).Some?
    ensures QueryName(query).None? <==> EntryFor(query, client, created).name == []
  {
    var entry := EntryFor(query, client, created);
    NameNotEmpty(query);
    if QueryName(query).Some? {
      var r := query[2 := 0x80];
      LabelsSuffix(query, r, 12);
      EchoMatches(query, r);
      hide QueryName, QueryType;
      assert Answers(r, entry);
    } else {
      hide QueryName, QueryType;
      forall r | Answers(r, entry)
        ensures false
      {
        RootNeverMatched(entry, r, entry.qtype);
      }
    }
  }

  lemma EchoMatches(query: seq<byte>, r: seq<byte>)
    requires |query| >= 12 && r == query[2 := 0x80]
    requires NameLabels(r, 12) == NameLabels(query, 12) && SkipName(r, 12) == SkipName(query, 12)
    requires SkipName(query, 12).Some? ==> SkipName(query, 12).value > 12
    ensures QueryName(r) == QueryName(query) && QueryType(r) == QueryType(query)
  {
    hide NameLabels, SkipName;
  }

  /** An encoded query with an uncompressed first name can be matched unless that is the root or not UTF-8. */
  lemma MatchableMessage(m: Message, trailer: seq<byte>, client: SocketAddr, created: nat)
    requires ValidMessage(m) && m.questions != [] && m.questions[0].name.end.Root?
    ensures
      var labels := m.questions[0].name.labels;
      |Encode(m) + trailer| >= 12 && ((exists r :: Answers(r, EntryFor(Encode(m) + trailer, client, created))) <==>
            labels != [] && AllUtf8(labels))
  {
    WalkMessage(m, trailer);
    QueryOfMessage(m, trailer);
    hide Encode, QueryName, EntryFor, Answers, AllUtf8;
    MatchableExactly(Encode(m) + trailer, client, created);
  }

  /** Every accepted query is in exactly one place: in the map under one id, matched once (answered, or being
      answered), swept at or after its 5 seconds, evicted before them, or it found no free id and was not sent. */
  lemma EveryQueryAccounted(states: seq<State>, events: seq<Event>, k: nat, query: nat)
    requires Run(states, events) && k < |states| && query < |states[k].accepted|
    ensures |states[k].fates| == |states[k].accepted|
    ensures
      var s := states[k];
      var fate := s.fates[query];
      && (fate.InMap? <==>
            exists id :: id in s.pending && id in s.owner && s.owner[id] == query && s.pending[id] == s.accepted[query])
      && (fate.Matched? <==> MatchedBy(s.matched, query))
      && (fate.Matched? <==> AnsweredOrSoon(s, query))
      && (fate.Expired? ==> fate.at >= s.accepted[query].created + 5_000_000_000)
      && (fate.Evicted? ==> fate.at < s.accepted[query].created + 5_000_000_000)
      && (fate.NoFreeId? <==> !Sent(s, query))
  {
    hide Run, TableSound, Genuine;
    RunKeepsInv(states, events, k);
    var s := states[k];
    assert FateSound(s, query) && (Sent(s, query) <==> !s.fates[query].NoFreeId?);
    if s.fates[query].InMap? {
      var id :| id in s.owner && s.owner[id] == query;
      assert id in s.pending && s.pending[id] == s.accepted[query];
    }
    hide Sent, OwnersDistinct;
    MatchedAnswered(s, query);
  }

  /** A reply to the query was sent, or the reader is recording the addresses of its response. */
  ghost predicate AnsweredOrSoon(s: State, query: nat) {
    (exists i :: 0 <= i < |s.replies| && s.replies[i].query == query)
        || (s.reader.Recording? && s.reader.query == query)
  }

  lemma MatchedAnswered(s: State, query: nat)
    requires RepliesSound(s)
    ensures MatchedBy(s.matched, query) <==> AnsweredOrSoon(s, query)
  {
    hide IpRecords, Restamp;
    if MatchedBy(s.matched, query) {
      var k :| 0 <= k < |s.matched| && s.matched[k].query == query;
      if k < |s.replies| {
        assert s.replies[k].query == query;
      }
    }
    if AnsweredOrSoon(s, query) {
      if i :| 0 <= i < |s.replies| && s.replies[i].query == query {
        assert s.matched[i].query == query;
      } else {
        assert s.matched[|s.matched| - 1].query == query;
      }
    }
  }

  /** The queries among the first `n` with this kind of fate. */
  function Tally(fates: seq<Fate>, kind: Fate -> bool): nat {
    if fates == [] then 0 else Tally(fates[..|fates| - 1], kind) + if kind(fates[|fates| - 1]) then 1 else 0
  }

  ghost function Those(fates: seq<Fate>, kind: Fate -> bool): set<nat> {
    set q: nat | q < |fates| && kind(fates[q])
  }

  lemma {:induction false} TallyCounts(fates: seq<Fate>, kind: Fate -> bool)
    ensures Tally(fates, kind) == |Those(fates, kind)|
  {
    if fates == [] {
      assert Those(fates, kind) == {};
    } else {
      var n := |fates| - 1;
      var front := fates[..n];
      TallyCounts(front, kind);
      assert Those(fates, kind) == Those(front, kind) + if kind(fates[n]) then {n} else {};
    }
  }

  lemma {:induction false} TalliesAdd(fates: seq<Fate>)
    ensures |fates| == Tally(fates, (f: Fate) => f.InMap?) + Tally(fates, (f: Fate) => f.Matched?)
            + Tally(fates, (f: Fate) => f.Expired?)
                     + Tally(fates, (f: Fate) => f.Evicted?) + Tally(fates, (f: Fate) => f.NoFreeId?)
  {
    if fates != [] {
      TalliesAdd(fates[..|fates| - 1]);
    }
  }

  ghost function Image(owner: map<u16, nat>): set<nat> {
    set id | id in owner :: owner[id]
  }

  /** As many queries are in the map as the map has entries. */
  lemma {:induction false} InjectiveImage(owner: map<u16, nat>)
    requires forall a, b :: a in owner && b in owner && a != b ==> owner[a] != owner[b]
    ensures |Image(owner)| == |owner|
    decreases |owner|
  {
    if owner == map[] {
      assert Image(owner) == {};
    } else {
      var id :| id in owner;
      var rest := owner - {id};
      InjectiveImage(rest);
      ImageWithout(owner, id);
      assert owner.Keys == rest.Keys + {id};
    }
  }

  lemma ImageWithout(owner: map<u16, nat>, id: u16)
    requires id in owner && forall a, b :: a in owner && b in owner && a != b ==> owner[a] != owner[b]
    ensures Image(owner) == Image(owner - {id}) + {owner[id]} && owner[id] !in Image(owner - {id})
  {
    var rest := owner - {id};
    forall q
      ensures q in Image(owner) <==> q in Image(rest) + {owner[id]}
    {
      if q in Image(owner) && q != owner[id] {
        var i :| i in owner && owner[i] == q;
        assert i in rest && rest[i] == q;
      }
    }
  }

  ghost function MatchedQueries(matched: seq<Match>): set<nat> {
    set k | 0 <= k < |matched| :: matched[k].query
  }

  lemma {:induction false} DistinctQueries(matched: seq<Match>)
    requires forall j, k :: 0 <= j < k < |matched| ==> matched[j].query != matched[k].query
    ensures |MatchedQueries(matched)| == |matched|
  {
    if matched == [] {
      assert MatchedQueries(matched) == {};
    } else {
      var n := |matched| - 1;
      var front := matched[..n];
      DistinctQueries(front);
      assert MatchedQueries(matched) == MatchedQueries(front) + {matched[n].query};
    }
  }

  lemma FatesAreSets(s: State)
    requires FatesSound(s)
    ensures Those(s.fates, (f: Fate) => f.InMap?) == Image(s.owner)
    ensures Those(s.fates, (f: Fate) => f.Matched?) == MatchedQueries(s.matched)
  {
    hide Waits;
    forall q: nat
      ensures q in Those(s.fates, (f: Fate) => f.InMap?) <==> q in Image(s.owner)
      ensures q in Those(s.fates, (f: Fate) => f.Matched?) <==> q in MatchedQueries(s.matched)
    {
      assert q < |s.fates| ==> FateSound(s, q);
      assert q < |s.fates| && s.fates[q].InMap? ==> Owned(s.owner, q);
      assert q < |s.fates| && s.fates[q].Matched? ==> MatchedBy(s.matched, q);
    }
  }

  /** The totals: accepted is answered or being answered, plus pending, expired, evicted and without an id. */
  lemma TotalsBalance(states: seq<State>, events: seq<Event>, k: nat)
    requires Run(states, events) && k < |states|
    ensures
      var s := states[k];
      && |s.accepted| == |s.replies| + (if s.reader.Recording? then 1 else 0) + |s.pending|
                         + Tally(s.fates, (f: Fate) => f.Expired?) + Tally(s.fates, (f: Fate) => f.Evicted?)
                             + Tally(s.fates, (f: Fate) => f.NoFreeId?)
      && |s.pending| <= 4096
      && (forall i, j :: 0 <= i < j < |s.forwarded| ==> s.forwarded[i].query != s.forwarded[j].query)
  {
    hide Run, TableSound, Genuine, IpRecords, Waits;
    RunKeepsInv(states, events, k);
    var s := states[k];
    TalliesAdd(s.fates);
    TallyCounts(s.fates, (f: Fate) => f.InMap?);
    TallyCounts(s.fates, (f: Fate) => f.Matched?);
    InjectiveImage(s.owner);
    DistinctQueries(s.matched);
    FatesAreSets(s);
    assert |s.owner| == |s.owner.Keys| == |s.pending.Keys| == |s.pending|;
  }

  /** Whatever the table holds came from one response that matched a pending query. */
  lemma TableFromMatches(states: seq<State>, events: seq<Event>, k: nat, ip: Ip)
    requires Run(states, events) && k < |states| && ip in states[k].table
    ensures
      var s := states[k];
      exists i, m :: 0 <= i < |s.insertions| && m in s.matched && Genuine(s.accepted, m)
          && ComesFrom(s.insertions[i], m)
                     && s.insertions[i].ip == ip && s.table[ip] == MappingOf(s.insertions[i])
  {
    hide Run, OwnersSound, ForwardsSound, QueryName, QueryType, SameNameIgnoringCase, Genuine, ComesFrom;
    RunKeepsInv(states, events, k);
    var s := states[k];
    var i := LastFor(s.insertions, ip);
    assert SomeMatch(s.insertions[i], s.matched);
    var j :| 0 <= j < |s.matched| && ComesFrom(s.insertions[i], s.matched[j]);
    assert s.matched[j] in s.matched && Genuine(s.accepted, s.matched[j]);
  }
}
