/** Every run of the UDP forwarder traced back to the packets it received. */
module UdpHistory {
  import opened Bytes
  import opened Net
  import opened DnsWire
  import opened DnsQuery
  import opened DnsCache
  import opened DnsTable
  import opened PendingQueries
  import opened Sequences
  import opened UdpForwarder

  // ---------------------------------------------------------------- queries

  /** The entry records whom the packet came from, and its own id, name (empty if it does not parse) and type. */
  ghost predicate EntryOf(entry: Pending, packet: seq<byte>, client: SocketAddr, created: nat) {
    && |packet| >= 12
    && entry.client == client && entry.created == created
    && entry.clientId == packet[0] as int * 0x100 + packet[1]
    && entry.name == (if QueryName(packet).Some? then QueryName(packet).value else [])
    && entry.qtype == (if QueryType(packet).Some? then QueryType(packet).value else 0)
  }

  /** `sent` is the packet received, except that its id is the one under which query `q` is stored. */
  ghost predicate SentAs(s: State, q: nat, received: seq<byte>, sent: seq<byte>) {
    && |sent| == |received| >= 12 && sent[2..] == received[2..]
    && var id: u16 := Be16At(sent, 0);
    && id in s.pending && id in s.owner && s.owner[id] == q && q < |s.accepted| && s.pending[id] == s.accepted[q]
  }

  lemma AcceptStep(s: State, e: Event, t: State)
    requires e.ClientQuery? && Next(s, e, t)
    ensures |t.accepted| == |s.accepted| + 1 && s.accepted <= t.accepted
    ensures EntryOf(t.accepted[|s.accepted|], e.packet, e.client, e.created)
    ensures t.main.Forwarding? ==>
              t.main.query == |s.accepted| && SentAs(t, |s.accepted|, e.packet, t.main.packet)
    ensures t.forwarded == s.forwarded && t.matched == s.matched
    ensures forall id :: id in t.owner && t.owner[id] < |s.accepted| ==> id in s.owner && s.owner[id] == t.owner[id]
  {
    hide QueryName, QueryType, Unswept, OldestEvicted, FatesAfter, FirstFree;
    assert Be16At(e.packet, 0) == e.packet[0] as int * 0x100 + e.packet[1];
    if t.main.Forwarding? {
      var id := FirstFree(e.kept, e.draws).value;
      RestampedPacket(e.packet, id);
    }
  }

  lemma RestampedPacket(p: seq<byte>, id: u16)
    requires |p| >= 2
    ensures
      var q := Restamp(p, id);
      |q| == |p| && q[2..] == p[2..] && Be16At(q, 0) == id && q[..2] == PutBe16(id)
  {
  }

  /** What steps other than accepting a query do to the logs. */
  lemma OtherStep(s: State, e: Event, t: State)
    requires !e.ClientQuery? && Next(s, e, t)
    ensures t.accepted == s.accepted
    ensures t.main == s.main || (s.main.Forwarding? && t.main.Receiving?)
    ensures t.forwarded == s.forwarded
            || (s.main.Forwarding? && t.forwarded == s.forwarded + [Forwarded(s.main.query, s.main.packet)])
    ensures t.matched == s.matched || (e.UpstreamPacket? && Took(s, e.packet, t))
    ensures forall id :: id in t.owner ==> id in s.owner && s.owner[id] == t.owner[id]
  {
    hide QueryName, QueryType, IpRecords, Matches, Inserted, TableTtl;
  }

  /** The reader matched this packet against the entry under its id. */
  ghost predicate Took(s: State, packet: seq<byte>, t: State) {
    && |packet| >= 12
    && var id: u16 := Be16At(packet, 0);
    && id in s.owner && QueryName(packet).Some?
    && t.matched == s.matched + [Match(s.owner[id], packet, QueryName(packet).value)]
  }

  lemma NextInRun(states: seq<State>, events: seq<Event>, k: nat)
    requires Run(states, events) && k + 1 < |states|
    ensures k < |events| && Next(states[k], events[k], states[k + 1])
  {
  }

  lemma RunBegins(states: seq<State>, events: seq<Event>)
    requires Run(states, events)
    ensures |states| == |events| + 1 && states[0] == START
  {
  }

  lemma AcceptedGrows(states: seq<State>, events: seq<Event>, k: nat)
    requires Run(states, events) && k + 1 < |states|
    ensures k < |events| && states[k].accepted <= states[k + 1].accepted
    ensures |states[k + 1].accepted| == |states[k].accepted| + if events[k].ClientQuery? then 1 else 0
  {
    hide *;
    NextInRun(states, events, k);
    if events[k].ClientQuery? {
      AcceptStep(states[k], events[k], states[k + 1]);
    } else {
      OtherStep(states[k], events[k], states[k + 1]);
    }
  }

  lemma {:induction false} AcceptedStays(states: seq<State>, events: seq<Event>, j: nat, k: nat)
    requires Run(states, events) && j <= k < |states|
    ensures states[j].accepted <= states[k].accepted
    decreases k
  {
    hide Run;
    if j < k {
      AcceptedStays(states, events, j, k - 1);
      AcceptedGrows(states, events, k - 1);
    }
  }

  /** The event with which a query was accepted. */
  lemma {:induction false} Accepting(states: seq<State>, events: seq<Event>, k: nat, q: nat) returns (a: nat)
    requires Run(states, events) && k < |states| && q < |states[k].accepted|
    ensures a < k && a < |events| && events[a].ClientQuery? && |states[a].accepted| == q
    ensures EntryOf(states[k].accepted[q], events[a].packet, events[a].client, events[a].created)
    decreases k
  {
    hide Run, Next, EntryOf;
    RunBegins(states, events);
    if k > 0 {
      AcceptedGrows(states, events, k - 1);
      if q < |states[k - 1].accepted| {
        a := Accepting(states, events, k - 1, q);
      } else {
        a := k - 1;
        NextInRun(states, events, a);
        AcceptStep(states[a], events[a], states[k]);
      }
    }
  }

  lemma AcceptedOnce(states: seq<State>, events: seq<Event>, a: nat, b: nat)
    requires Run(states, events) && a < |events| && b < |events| && events[a].ClientQuery? && events[b].ClientQuery?
    requires |states[a].accepted| == |states[b].accepted|
    ensures a == b
  {
    hide Run, Next;
    RunBegins(states, events);
    if a < b {
      AcceptedGrows(states, events, a);
      AcceptedStays(states, events, a + 1, b);
    } else if b < a {
      AcceptedGrows(states, events, b);
      AcceptedStays(states, events, b + 1, a);
    }
  }

  lemma {:induction false} BeingSent(states: seq<State>, events: seq<Event>, k: nat) returns (a: nat)
    requires Run(states, events) && k < |states| && states[k].main.Forwarding?
    ensures a < k && a < |events| && events[a].ClientQuery? && |states[a].accepted| == states[k].main.query
    ensures SentAs(states[a + 1], states[k].main.query, events[a].packet, states[k].main.packet)
    decreases k
  {
    hide Run, Next, SentAs;
    RunBegins(states, events);
    if k > 0 {
      NextInRun(states, events, k - 1);
      if events[k - 1].ClientQuery? {
        a := k - 1;
        AcceptStep(states[a], events[a], states[k]);
      } else {
        OtherStep(states[k - 1], events[k - 1], states[k]);
        a := BeingSent(states, events, k - 1);
      }
    }
  }

  lemma {:induction false} WasSent(states: seq<State>, events: seq<Event>, k: nat, j: nat) returns (a: nat)
    requires Run(states, events) && k < |states| && j < |states[k].forwarded|
    ensures a < k && a < |events| && events[a].ClientQuery? && |states[a].accepted| == states[k].forwarded[j].query
    ensures SentAs(states[a + 1], states[k].forwarded[j].query, events[a].packet, states[k].forwarded[j].packet)
    decreases k
  {
    hide Run, Next, SentAs;
    RunBegins(states, events);
    if k > 0 {
      NextInRun(states, events, k - 1);
      if events[k - 1].ClientQuery? {
        AcceptStep(states[k - 1], events[k - 1], states[k]);
      } else {
        OtherStep(states[k - 1], events[k - 1], states[k]);
      }
      if j < |states[k - 1].forwarded| {
        a := WasSent(states, events, k - 1, j);
      } else {
        a := BeingSent(states, events, k - 1);
      }
    }
  }

  /** What goes upstream for query `q`, already or next, is the packet received for it under the id it is stored
      under. */
  ghost predicate ForwardedFrom(s: State, q: nat, received: seq<byte>, after: State) {
    && (forall j :: 0 <= j < |s.forwarded| && s.forwarded[j].query == q ==>
          SentAs(after, q, received, s.forwarded[j].packet))
    && (s.main.Forwarding? && s.main.query == q ==> SentAs(after, q, received, s.main.packet))
  }

  /** Every accepted query is that of one client packet: its entry says whom it came from and what it asks, and what is
      sent upstream for it is that very packet, but for the id, which is the one its entry got when it was accepted. */
  lemma QueryAsReceived(states: seq<State>, events: seq<Event>, k: nat, q: nat) returns (a: nat)
    requires Run(states, events) && k < |states| && q < |states[k].accepted|
    ensures a < k && a < |events| && events[a].ClientQuery? && |states[a].accepted| == q
    ensures EntryOf(states[k].accepted[q], events[a].packet, events[a].client, events[a].created)
    ensures ForwardedFrom(states[k], q, events[a].packet, states[a + 1])
  {
    hide Run, SentAs, EntryOf;
    RunBegins(states, events);
    a := Accepting(states, events, k, q);
    forall j | 0 <= j < |states[k].forwarded| && states[k].forwarded[j].query == q
      ensures SentAs(states[a + 1], q, events[a].packet, states[k].forwarded[j].packet)
    {
      var b := WasSent(states, events, k, j);
      AcceptedOnce(states, events, a, b);
    }
    if states[k].main.Forwarding? && states[k].main.query == q {
      var b := BeingSent(states, events, k);
      AcceptedOnce(states, events, a, b);
    }
  }

  // ---------------------------------------------------------------- responses

  lemma {:induction false} Matching(states: seq<State>, events: seq<Event>, k: nat, i: nat) returns (b: nat)
    requires Run(states, events) && k < |states| && i < |states[k].matched|
    ensures b < k && b < |events| && events[b] == UpstreamPacket(states[k].matched[i].packet)
    ensures
      var m := states[k].matched[i];
      |m.packet| >= 12 && var id: u16 := Be16At(m.packet, 0); id in states[b].owner && states[b].owner[id] == m.query
    decreases k
  {
    hide Run, Next, QueryName, Be16At;
    RunBegins(states, events);
    if k > 0 {
      NextInRun(states, events, k - 1);
      if events[k - 1].ClientQuery? {
        AcceptStep(states[k - 1], events[k - 1], states[k]);
      } else {
        OtherStep(states[k - 1], events[k - 1], states[k]);
      }
      if i < |states[k - 1].matched| {
        b := Matching(states, events, k - 1, i);
      } else {
        b := k - 1;
      }
    }
  }

  /** An entry keeps the id it was stored under. */
  lemma {:induction false} IdKept(states: seq<State>, events: seq<Event>, j: nat, k: nat, id: u16)
    requires Run(states, events) && j <= k < |states| && id in states[k].owner
             && states[k].owner[id] < |states[j].accepted|
    ensures id in states[j].owner && states[j].owner[id] == states[k].owner[id]
    decreases k
  {
    hide Run, Next;
    if j < k {
      NextInRun(states, events, k - 1);
      AcceptedStays(states, events, j, k - 1);
      if events[k - 1].ClientQuery? {
        AcceptStep(states[k - 1], events[k - 1], states[k]);
      } else {
        OtherStep(states[k - 1], events[k - 1], states[k]);
      }
      IdKept(states, events, j, k - 1, id);
    }
  }

  /** `reply` is what the client that sent `query` gets for the response `p`, which came under the id `p` was asked
      for. */
  ghost predicate AnswersAsReceived(query: seq<byte>, p: seq<byte>, reply: seq<byte>) {
    && |query| >= 12 && |p| == |reply| >= 12 && p[2] >= 0x80
    && reply[..2] == query[..2] && reply[2..] == p[2..]
    && QueryName(query).Some? && QueryName(p).Some?
    && SameNameIgnoringCase(QueryName(query).value, QueryName(p).value)
    && (if QueryType(query).Some? then QueryType(query).value else 0) ==
       (if QueryType(p).Some? then QueryType(p).value else 0)
  }

  /** From the client's packet to the reply: it goes to the client that asked, is one packet from upstream unchanged but
      for the client's own id, names what was asked, and came back under the very id that was sent upstream. */
  lemma ReplyAsReceived(states: seq<State>, events: seq<Event>, k: nat, i: nat) returns (a: nat, b: nat)
    requires Run(states, events) && k < |states| && i < |states[k].replies|
    ensures a < b < k && b < |events| && events[a].ClientQuery? && events[b].UpstreamPacket?
    ensures
      var s := states[k];
      var r := s.replies[i];
      && r.query == |states[a].accepted| && r.client == events[a].client
      && AnswersAsReceived(events[a].packet, events[b].packet, r.packet)
      && forall j :: 0 <= j < |s.forwarded| && s.forwarded[j].query == r.query ==>
           |s.forwarded[j].packet| >= 12 && s.forwarded[j].packet[..2] == events[b].packet[..2]
  {
    var s := states[k];
    var r := s.replies[i];
    RunBegins(states, events);
    RunKeepsInv(states, events, k);
    ReplyOfMatch(s, i);
    hide *;
    b := Matching(states, events, k, i);
    a := QueryAsReceived(states, events, k, r.query);
    var id: u16 := Be16At(events[b].packet, 0);
    RunKeepsInv(states, events, b);
    OwnerAccepted(states[b], id);
    NotBefore(states, events, a, b);
    AcceptedGrows(states, events, a);
    IdKept(states, events, a + 1, b, id);
    RunKeepsInv(states, events, a + 1);
    SameId(s, states[a + 1], r.query, events[a].packet, events[b].packet);
    ReplyTraced(s.accepted[r.query], s.matched[i], r, events[a].packet, events[a].client, events[a].created);
  }

  lemma ReplyOfMatch(s: State, i: nat)
    requires Inv(s) && i < |s.replies|
    ensures i < |s.matched| && s.matched[i].query == s.replies[i].query < |s.accepted|
    ensures Genuine(s.accepted, s.matched[i]) && ReplyFor(s.accepted, s.matched[i], s.replies[i])
  {
    hide OwnersSound, TableSound, FatesSound, ForwardsSound, SentWithId, Genuine, Restamp, IpRecords;
  }

  lemma OwnerAccepted(s: State, id: u16)
    requires Inv(s) && id in s.owner
    ensures s.owner[id] < |s.accepted|
  {
    hide MatchesSound, RepliesSound, TableSound, FatesSound, ForwardsSound, SentWithId, OwnersDistinct;
  }

  lemma NotBefore(states: seq<State>, events: seq<Event>, a: nat, b: nat)
    requires Run(states, events) && a < |events| && b < |events| && |states[a].accepted| < |states[b].accepted|
    ensures a < b
  {
    RunBegins(states, events);
    hide *;
    if b <= a {
      AcceptedStays(states, events, b, a);
    }
  }

  lemma SameId(s: State, after: State, q: nat, received: seq<byte>, p: seq<byte>)
    requires Inv(after) && ForwardedFrom(s, q, received, after) && |p| >= 12
    requires var id: u16 := Be16At(p, 0); id in after.owner && after.owner[id] == q
    ensures forall j :: 0 <= j < |s.forwarded| && s.forwarded[j].query == q ==>
              |s.forwarded[j].packet| >= 12 && s.forwarded[j].packet[..2] == p[..2]
  {
    assert OwnersDistinct(after.owner, after.matched);
    hide Inv, OwnersAgree;
    forall j | 0 <= j < |s.forwarded| && s.forwarded[j].query == q
      ensures |s.forwarded[j].packet| >= 12 && s.forwarded[j].packet[..2] == p[..2]
    {
      assert SentAs(after, q, received, s.forwarded[j].packet);
      SameTwoBytes(s.forwarded[j].packet, p);
    }
  }

  lemma SameTwoBytes(p: seq<byte>, q: seq<byte>)
    requires |p| >= 2 && |q| >= 2 && Be16At(p, 0) == Be16At(q, 0)
    ensures p[..2] == q[..2]
  {
  }

  lemma ReplyTraced(entry: Pending, m: Match, r: Reply, query: seq<byte>, client: SocketAddr, created: nat)
    requires EntryOf(entry, query, client, created) && |m.packet| >= 12 && m.packet[2] >= 0x80
    requires QueryName(m.packet) == Some(m.name) && SameNameIgnoringCase(entry.name, m.name)
    requires entry.qtype == if QueryType(m.packet).Some? then QueryType(m.packet).value else 0
    requires r == Reply(m.query, entry.client, Restamp(m.packet, entry.clientId))
    ensures r.client == client && AnswersAsReceived(query, m.packet, r.packet)
  {
    NameNotEmpty(m.packet);
    RestampedPacket(m.packet, entry.clientId);
    assert query[..2] == PutBe16(entry.clientId);
    hide QueryName, QueryType, Restamp;
  }

  /** A response is taken exactly when it carries the id of a pending entry and answers it; its query is then matched
      and its entry gone. Any other packet changes nothing. */
  lemma ResponseTaken(states: seq<State>, events: seq<Event>, k: nat)
    requires Run(states, events) && k + 1 < |states| && events[k].UpstreamPacket?
    ensures
      var s, p, t := states[k], events[k].packet, states[k + 1];
      if |p| >= 12 && Be16At(p, 0) in s.pending && Answers(p, s.pending[Be16At(p, 0)]) then
        var id: u16 := Be16At(p, 0);
        && id in s.owner && |t.matched| == |s.matched| + 1
        && t.matched[|s.matched|].query == s.owner[id] && t.matched[|s.matched|].packet == p
        && t.pending == s.pending - {id} && t.reader.Recording? && t.reader.packet == p
      else t == s
  {
    NextInRun(states, events, k);
    RunKeepsInv(states, events, k);
    InvOwners(states[k]);
    hide *;
    PacketRead(states[k], events[k], states[k + 1]);
  }

  lemma PacketRead(s: State, e: Event, t: State)
    requires e.UpstreamPacket? && Next(s, e, t) && s.owner.Keys == s.pending.Keys
    ensures
      var p := e.packet;
      if |p| >= 12 && Be16At(p, 0) in s.pending && Answers(p, s.pending[Be16At(p, 0)]) then
        var id: u16 := Be16At(p, 0);
        && id in s.owner && |t.matched| == |s.matched| + 1
        && t.matched[|s.matched|].query == s.owner[id] && t.matched[|s.matched|].packet == p
        && t.pending == s.pending - {id} && t.reader.Recording? && t.reader.packet == p
      else t == s
  {
    hide QueryName, QueryType, IpRecords, SameNameIgnoringCase, Be16At;
  }

  lemma InvOwners(s: State)
    requires Inv(s)
    ensures s.owner.Keys == s.pending.Keys
  {
    hide MatchesSound, RepliesSound, TableSound, FatesSound, ForwardsSound, SentWithId, OwnersDistinct;
  }

  /** Accepting a query leaves no entry of 5 seconds or more in the map, but for the query itself. */
  lemma SweptOnAccept(states: seq<State>, events: seq<Event>, k: nat, id: u16)
    requires Run(states, events) && k + 1 < |states| && events[k].ClientQuery? && id in states[k + 1].pending
    ensures
      var s, t := states[k], states[k + 1];
      || events[k].now < t.pending[id].created + 5_000_000_000
      || (id in t.owner && t.owner[id] == |s.accepted|)
  {
    NextInRun(states, events, k);
    hide Run, QueryName, QueryType, FatesAfter, EntryFor, FirstFree, Restamp;
  }

  // ---------------------------------------------------------------- the table

  function FactsOf(packet: seq<byte>, name: seq<byte>): seq<Fact> {
    FactsFor(if IpRecords(packet).Some? then IpRecords(packet).value else [], name, TableTtl(packet))
  }

  /** The addresses of all matched responses, in order. */
  function AllFacts(matched: seq<Match>): seq<Fact> {
    if matched == [] then []
    else
      var m := matched[|matched| - 1];
      AllFacts(matched[..|matched| - 1]) + FactsOf(m.packet, m.name)
  }

  function Reported(insertions: seq<Insertion>): seq<Fact> {
    seq(|insertions|, k requires 0 <= k < |insertions| =>
      Fact(insertions[k].ip, insertions[k].domain, insertions[k].ttl))
  }

  function Remaining(reader: Reader): seq<Fact> {
    if reader.Listening? then [] else FactsFor(reader.ips, reader.name, TableTtl(reader.packet))
  }

  /** What was inserted and what the reader has still to insert is what the matched responses say. */
  ghost predicate Recorded(s: State) {
    Reported(s.insertions) + Remaining(s.reader) == AllFacts(s.matched)
  }

  lemma ReaderKept(s: State, e: Event, t: State)
    requires (e.ClientQuery? || e.ForwardQuery?) && Next(s, e, t)
    ensures t.insertions == s.insertions && t.reader == s.reader && t.matched == s.matched
  {
    hide EntryFor, InsertOutcome, FirstFree, OwnersAfter, FatesAfter, Staying, Restamp;
  }

  lemma ReadRecorded(s: State, packet: seq<byte>, t: State)
    requires Recorded(s) && ReadUpstream(s, packet, t)
    ensures Recorded(t)
  {
    if t != s {
      var m := ReadShape(s, packet, t);
      hide *;
      AllFactsMore(s.matched, m);
      FirstRecorded(s, t, m);
    }
  }

  lemma ReadShape(s: State, packet: seq<byte>, t: State) returns (m: Match)
    requires ReadUpstream(s, packet, t) && t != s
    ensures s.reader.Listening? && t.reader.Recording? && t.insertions == s.insertions && t.matched == s.matched + [m]
    ensures t.reader.name == m.name && t.reader.packet == m.packet
    ensures t.reader.ips == if IpRecords(m.packet).Some? then IpRecords(m.packet).value else []
  {
    hide QueryName, QueryType, IpRecords, Taken, Be16At;
    m := t.matched[|s.matched|];
  }

  lemma AllFactsMore(matched: seq<Match>, m: Match)
    ensures AllFacts(matched + [m]) == AllFacts(matched) + FactsOf(m.packet, m.name)
  {
    hide FactsOf;
    assert (matched + [m])[..|matched|] == matched;
  }

  lemma FirstRecorded(s: State, t: State, m: Match)
    requires Recorded(s) && s.reader.Listening? && t.reader.Recording? && t.insertions == s.insertions
    requires AllFacts(t.matched) == AllFacts(s.matched) + FactsOf(m.packet, m.name)
    requires t.reader.name == m.name && t.reader.packet == m.packet
    requires t.reader.ips == if IpRecords(m.packet).Some? then IpRecords(m.packet).value else []
    ensures Recorded(t)
  {
    hide IpRecords, TableTtl, FactsFor, Reported, AllFacts;
    assert Reported(s.insertions) + [] == Reported(s.insertions);
  }

  lemma RecordRecorded(s: State, now: nat, later: nat, t: State)
    requires Recorded(s) && RecordOne(s, now, later, t)
    ensures Recorded(t)
  {
    hide TableTtl, AllFacts;
    var fact := Fact(s.reader.ips[0], s.reader.name, TableTtl(s.reader.packet));
    assert Remaining(s.reader) == [fact] + Remaining(t.reader);
    assert Reported(t.insertions) == Reported(s.insertions) + [fact];
    hide Reported, Remaining;
    MoveOne(Reported(s.insertions), fact, Remaining(t.reader));
  }

  lemma AnswerRecorded(s: State, t: State)
    requires Recorded(s) && Answer(s, t)
    ensures Recorded(t)
  {
    hide TableTtl, AllFacts, Reported, Restamp;
    assert Remaining(s.reader) == [];
  }

  /** In every run, what has been inserted into the table is the addresses of the answered responses, all of them and in
      order, under the name and for the lifetime each response gives,
          and while one is being recorded a first part of its
      addresses. */
  lemma {:induction false} RecordedExactly(states: seq<State>, events: seq<Event>, k: nat)
    requires Run(states, events) && k < |states|
    ensures Recorded(states[k])
    decreases k
  {
    hide Run, Recorded, Next;
    RunBegins(states, events);
    if k == 0 {
      NothingRecorded();
    } else {
      RecordedExactly(states, events, k - 1);
      NextInRun(states, events, k - 1);
      StepRecords(states[k - 1], events[k - 1], states[k]);
    }
  }

  lemma StepRecords(s: State, e: Event, t: State)
    requires Recorded(s) && Next(s, e, t)
    ensures Recorded(t)
  {
    hide Recorded, AcceptQuery, SendUpstream, ReadUpstream, RecordOne, Answer;
    match e
    case ClientQuery(_, _, _, _, _, _) => ReaderKept(s, e, t); RecordedAlike(s, t);
    case ForwardQuery => ReaderKept(s, e, t); RecordedAlike(s, t);
    case UpstreamPacket(packet) => ReadRecorded(s, packet, t);
    case RecordAddress(now, later) => RecordRecorded(s, now, later, t);
    case AnswerClient => AnswerRecorded(s, t);
  }

  lemma NothingRecorded()
    ensures Recorded(START)
  {
  }

  lemma RecordedAlike(s: State, t: State)
    requires Recorded(s) && t.insertions == s.insertions && t.reader == s.reader && t.matched == s.matched
    ensures Recorded(t)
  {
  }
}
