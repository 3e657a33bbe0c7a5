/** One client connection of the TCP DNS listener (src/dns.rs, `handle_tcp_dns_client`; section 8 of RFC 7766). */
module TcpDns {
  import opened Bytes
  import opened Net
  import opened DnsWire
  import opened DnsMessage
  import opened DnsQuery
  import opened DnsTable
  import opened Sequences
  import opened TcpStream

  const MIN_MESSAGE: nat := 12
  const MAX_MESSAGE: nat := 0xFFFF
  const NOERROR: byte := 0

  // ---------------------------------------------------------------- specification

  predicate Sized(message: seq<byte>) {
    MIN_MESSAGE <= |message| <= MAX_MESSAGE
  }

  predicate AllSized(messages: seq<seq<byte>>) {
    forall k :: 0 <= k < |messages| ==> Sized(messages[k])
  }

  function Frame(message: seq<byte>): seq<byte>
    requires Sized(message)
  {
    PutBe16(|message|) + message
  }

  /** Messages, each after its length. */
  function Framed(messages: seq<seq<byte>>): seq<byte>
    requires AllSized(messages)
  {
    if messages == [] then []
    else
      assert Sized(messages[0]);
      Frame(messages[0]) + Framed(messages[1..])
  }

  /** The queries a client has sent, up to `patience` of them and to the first that is too short or incomplete. */
  function Heard(input: seq<byte>, patience: nat): (queries: seq<seq<byte>>)
    ensures AllSized(queries)
    decreases patience
  {
    if patience == 0 || |input| < 2 then []
    else
      var len: nat := Be16At(input, 0);
      if len < MIN_MESSAGE || |input| < 2 + len then [] else [input[2..2 + len]] + Heard(input[2 + len..], patience - 1)
  }

  predicate Stripped(query: seq<byte>, stripAaaa: bool) {
    stripAaaa && QueryType(query) == Some(TYPE_AAAA)
  }

  /** The responses sent, `upstream(n)` being what comes of the n-th forwarded query. The first failure ends it. */
  function Replies(queries: seq<seq<byte>>, stripAaaa: bool, upstream: nat -> Option<seq<byte>>,
                   asked: nat): (replies: seq<seq<byte>>)
    requires AllSized(queries)
    ensures AllSized(replies)
  {
    if queries == [] then []
    else if Stripped(queries[0], stripAaaa) then
      var nodata, rest := EmptyResponse(queries[0], NOERROR), Replies(queries[1..], stripAaaa, upstream, asked);
      if nodata.None? then rest
      else
        EmptyResponseBytes(queries[0], NOERROR);
        [nodata.value] + rest
    else if upstream(asked).None? || !Sized(upstream(asked).value) then []
    else [upstream(asked).value] + Replies(queries[1..], stripAaaa, upstream, asked + 1)
  }

  function FactsOf(query: seq<byte>, response: seq<byte>): seq<Fact> {
    var name, ips := QueryName(query), IpRecords(response);
    if ips.None? then [] else FactsFor(ips.value, if name.Some? then name.value else [], TableTtl(response))
  }

  function Learned(queries: seq<seq<byte>>, stripAaaa: bool, upstream: nat -> Option<seq<byte>>,
                   asked: nat): seq<Fact> {
    if queries == [] then []
    else if Stripped(queries[0], stripAaaa) then Learned(queries[1..], stripAaaa, upstream, asked)
    else if upstream(asked).None? || !Sized(upstream(asked).value) then []
    else FactsOf(queries[0], upstream(asked).value) + Learned(queries[1..], stripAaaa, upstream, asked + 1)
  }

  /** `after` extends `before` by insertions of these facts, in order, at whatever instants. */
  ghost predicate Reports(before: seq<Insertion>, after: seq<Insertion>, facts: seq<Fact>) {
    && |after| == |before| + |facts| && before <= after
    && forall k :: 0 <= k < |facts| ==>
         var i := after[|before| + k];
         Fact(i.ip, i.domain, i.ttl) == facts[k]
  }

  // ---------------------------------------------------------------- the connection

  method WriteFramed(stream: TcpStream, message: seq<byte>)
    requires Sized(message)
    modifies stream`written
    ensures stream.written == old(stream.written) + Frame(message)
  {
    stream.WriteAll(PutBe16(|message|));
    stream.WriteAll(message);
  }

  lemma ReportsOne(before: seq<Insertion>, after: seq<Insertion>, facts: seq<Fact>, i: Insertion)
    requires Reports(before, after, facts)
    ensures Reports(before, after + [i], facts + [Fact(i.ip, i.domain, i.ttl)])
  {
  }

  lemma ReportsMore(a: seq<Insertion>, b: seq<Insertion>, c: seq<Insertion>, known: seq<Fact>, facts: seq<Fact>)
    requires Reports(a, b, known) && Reports(b, c, facts)
    ensures Reports(a, c, known + facts)
  {
    forall k | 0 <= k < |known + facts|
      ensures var i := c[|a| + k]; Fact(i.ip, i.domain, i.ttl) == (known + facts)[k]
    {
      if k < |known| {
        assert c[|a| + k] == b[|a| + k];
      } else {
        assert c[|a| + k] == c[|b| + (k - |known|)];
      }
    }
  }

  /** Puts a response's addresses into the shared table. */
  method Learn(table: DnsTable, query: seq<byte>, response: seq<byte>)
    requires table.Valid()
    modifies table
    ensures table.Valid() && Reports(old(table.history), table.history, FactsOf(query, response))
  {
    var name := ParseQueryName(query);
    var domain := if name.Some? then name.value else [];
    var ips := ParseIpRecords(response);
    if ips.Some? {
      var minTtl := ExtractMinTtl(response);
      var ttl := Clamp(if minTtl.Some? then minTtl.value else TABLE_TTL_FLOOR, TABLE_TTL_FLOOR, TABLE_TTL_CEIL);
      LearnAll(table, ips.value, domain, ttl);
      assert FactsOf(query, response) == FactsFor(ips.value, domain, ttl);
    }
  }

  method LearnAll(table: DnsTable, ips: seq<Ip>, domain: seq<byte>, ttl: u32)
    requires table.Valid()
    modifies table
    ensures table.Valid() && Reports(old(table.history), table.history, FactsFor(ips, domain, ttl))
  {
    hide Reports, Inserted, FactsFor;
    ReportsNone(table.history);
    ghost var facts := FactsFor(ips, domain, ttl);
    ghost var known: seq<Fact> := [];
    for k := 0 to |ips|
      invariant table.Valid() && known == facts[..k]
      invariant Reports(old(table.history), table.history, known)
    {
      ghost var history := table.history;
      var now: nat, later: nat := *, *;
      table.Insert(ips[k], domain, ttl, now, later);
      ReportsOne(old(table.history), history, known, Insertion(ips[k], domain, ttl, now));
      FactAt(ips, domain, ttl, k);
      known := known + [Fact(ips[k], domain, ttl)];
    }
    assert facts[..|facts|] == facts;
  }

  lemma FactAt(ips: seq<Ip>, domain: seq<byte>, ttl: nat, k: nat)
    requires k < |ips|
    ensures FactsFor(ips, domain, ttl)[..k] + [Fact(ips[k], domain, ttl)] == FactsFor(ips, domain, ttl)[..k + 1]
  {
  }

  lemma ReportsNone(history: seq<Insertion>)
    ensures Reports(history, history, [])
  {
  }

  /** What is still to be sent and learned after the queries handled so far. */
  ghost predicate Remaining(replies: seq<seq<byte>>, facts: seq<Fact>, sent: seq<byte>, known: seq<Fact>,
                            queries: seq<seq<byte>>,
                            stripAaaa: bool, upstream: nat -> Option<seq<byte>>, asked: nat)
    requires AllSized(replies) && AllSized(queries)
  {
    && Framed(replies) == sent + Framed(Replies(queries, stripAaaa, upstream, asked))
    && facts == known + Learned(queries, stripAaaa, upstream, asked)
  }

  lemma RemainingEnds(replies: seq<seq<byte>>, facts: seq<Fact>, sent: seq<byte>, known: seq<Fact>,
                      queries: seq<seq<byte>>,
                      stripAaaa: bool, upstream: nat -> Option<seq<byte>>, asked: nat)
    requires AllSized(replies) && AllSized(queries)
             && Remaining(replies, facts, sent, known, queries, stripAaaa, upstream, asked)
    requires queries == [] || (!Stripped(queries[0], stripAaaa)
             && (upstream(asked).None? || !Sized(upstream(asked).value)))
    ensures sent == Framed(replies) && known == facts
  {
  }

  lemma RemainingStripped(replies: seq<seq<byte>>, facts: seq<Fact>, sent: seq<byte>, known: seq<Fact>,
                          query: seq<byte>, rest: seq<seq<byte>>,
                          stripAaaa: bool, upstream: nat -> Option<seq<byte>>, asked: nat)
    requires AllSized(replies) && AllSized([query] + rest) && AllSized(rest)
    requires Remaining(replies, facts, sent, known, [query] + rest, stripAaaa, upstream, asked)
             && Stripped(query, stripAaaa)
    ensures EmptyResponse(query, NOERROR).None? ==>
              Remaining(replies, facts, sent, known, rest, stripAaaa, upstream, asked)
    ensures EmptyResponse(query, NOERROR).Some? ==>
              && Sized(EmptyResponse(query, NOERROR).value)
              && Remaining(replies, facts, sent + Frame(EmptyResponse(query, NOERROR).value), known, rest, stripAaaa,
                  upstream, asked)
  {
    assert ([query] + rest)[1..] == rest;
    hide Stripped, Frame;
    var nodata := EmptyResponse(query, NOERROR);
    if nodata.Some? {
      assert Sized(query) by { assert Sized(([query] + rest)[0]); }
      EmptyResponseBytes(query, NOERROR);
      hide EmptyResponse;
      FramedOne(nodata.value, Replies(rest, stripAaaa, upstream, asked));
      assert sent + (Frame(nodata.value) + Framed(Replies(rest, stripAaaa, upstream, asked)))
          == sent + Frame(nodata.value) + Framed(Replies(rest, stripAaaa, upstream, asked));
    }
  }

  lemma FramedOne(message: seq<byte>, rest: seq<seq<byte>>)
    requires Sized(message) && AllSized(rest)
    ensures AllSized([message] + rest) && Framed([message] + rest) == Frame(message) + Framed(rest)
  {
    assert ([message] + rest)[1..] == rest;
  }

  lemma RemainingForwarded(replies: seq<seq<byte>>, facts: seq<Fact>, sent: seq<byte>, known: seq<Fact>,
                           query: seq<byte>, rest: seq<seq<byte>>,
                           stripAaaa: bool, upstream: nat -> Option<seq<byte>>, asked: nat)
    requires AllSized(replies) && AllSized([query] + rest) && AllSized(rest)
    requires Remaining(replies, facts, sent, known, [query] + rest, stripAaaa, upstream, asked)
             && !Stripped(query, stripAaaa)
    requires upstream(asked).Some? && Sized(upstream(asked).value)
    ensures
      var r := upstream(asked).value;
      Remaining(replies, facts, sent + Frame(r), known + FactsOf(query, r), rest, stripAaaa, upstream, asked + 1)
  {
    assert ([query] + rest)[1..] == rest;
    var r := upstream(asked).value;
    var later, learned := Replies(rest, stripAaaa, upstream, asked + 1), Learned(rest, stripAaaa, upstream, asked + 1);
    hide Stripped, Frame, FactsOf;
    FramedOne(r, later);
    assert sent + (Frame(r) + Framed(later)) == sent + Frame(r) + Framed(later);
    assert known + (FactsOf(query, r) + learned) == known + FactsOf(query, r) + learned;
  }

  /** Serves the client until it closes, is idle after `patience` queries, or something fails. */
  method HandleClient(stream: TcpStream, table: DnsTable, stripAaaa: bool, upstream: nat -> Option<seq<byte>>,
                      patience: nat)
    requires table.Valid()
    modifies stream, table
    ensures table.Valid()
    ensures stream.written == old(stream.written)
            + Framed(Replies(Heard(old(stream.unread), patience), stripAaaa, upstream, 0))
    ensures Reports(old(table.history), table.history,
            Learned(Heard(old(stream.unread), patience), stripAaaa, upstream, 0))
  {
    hide *;
    var asked, left := 0, patience;
    ghost var queries := Heard(stream.unread, patience);
    ghost var replies, facts := Replies(queries, stripAaaa, upstream, 0), Learned(queries, stripAaaa, upstream, 0);
    ghost var start, sent: seq<byte>, known: seq<Fact> := stream.written, [], [];
    RemainingStarts(queries, stripAaaa, upstream);
    ReportsNone(table.history);
    while left > 0
      invariant table.Valid()
      invariant stream.written == start + sent
      invariant queries == Heard(stream.unread, left)
      invariant Remaining(replies, facts, sent, known, queries, stripAaaa, upstream, asked)
      invariant Reports(old(table.history), table.history, known)
    {
      ghost var input := stream.unread;
      HeardNone(input, left);
      var lenBuf := stream.ReadExact(2);
      if lenBuf.None? {
        break;
      }
      var len: nat := Be16At(lenBuf.value, 0);
      LengthRead(input);
      if len < MIN_MESSAGE {
        break;
      }
      var body := stream.ReadExact(len);
      if body.None? {
        break;
      }
      var query := body.value;
      HeardOne(input, left, query);
      assert stream.unread == input[2 + |query|..];
      left := left - 1;
      ghost var rest := Heard(stream.unread, left);
      var qtype := ParseQueryType(query);
      StrippedWhen(query, stripAaaa);
      if stripAaaa && qtype == Some(TYPE_AAAA) {
        RemainingStripped(replies, facts, sent, known, query, rest, stripAaaa, upstream, asked);
        queries := rest;
        var nodata := BuildEmptyResponse(query, NOERROR);
        if nodata.Some? {
          WriteFramed(stream, nodata.value);
          Regroup(start, sent, Frame(nodata.value));
          sent := sent + Frame(nodata.value);
        }
        continue;
      }
      var response := upstream(asked);
      if response.None? || !Sized(response.value) {
        break;
      }
      RemainingForwarded(replies, facts, sent, known, query, rest, stripAaaa, upstream, asked);
      queries := rest;
      asked := asked + 1;
      ghost var history := table.history;
      Learn(table, query, response.value);
      ReportsMore(old(table.history), history, table.history, known, FactsOf(query, response.value));
      known := known + FactsOf(query, response.value);
      WriteFramed(stream, response.value);
      Regroup(start, sent, Frame(response.value));
      sent := sent + Frame(response.value);
    }
    HeardNone(stream.unread, left);
    RemainingEnds(replies, facts, sent, known, queries, stripAaaa, upstream, asked);
  }

  lemma LengthRead(input: seq<byte>)
    requires |input| >= 2
    ensures Be16At(input[..2], 0) == Be16At(input, 0)
  {
  }

  lemma StrippedWhen(query: seq<byte>, stripAaaa: bool)
    ensures Stripped(query, stripAaaa) <==> stripAaaa && QueryType(query) == Some(TYPE_AAAA)
  {
  }

  lemma RemainingStarts(queries: seq<seq<byte>>, stripAaaa: bool, upstream: nat -> Option<seq<byte>>)
    requires AllSized(queries)
    ensures Remaining(Replies(queries, stripAaaa, upstream, 0), Learned(queries, stripAaaa, upstream, 0), [], [],
            queries, stripAaaa, upstream, 0)
  {
    assert [] + Learned(queries, stripAaaa, upstream, 0) == Learned(queries, stripAaaa, upstream, 0);
  }

  lemma HeardNone(input: seq<byte>, patience: nat)
    ensures patience == 0 || |input| < 2 || Be16At(input, 0) < MIN_MESSAGE || |input| < 2 + Be16At(input, 0) as int ==>
              Heard(input, patience) == []
  {
  }

  lemma HeardOne(input: seq<byte>, patience: nat, query: seq<byte>)
    requires patience > 0 && |input| >= 2 && MIN_MESSAGE <= Be16At(input, 0) == |query| && |input| >= 2 + |query|
             && query == input[2..2 + |query|]
    ensures Heard(input, patience) == [query] + Heard(input[2 + |query|..], patience - 1)
  {
  }

  // ---------------------------------------------------------------- what the client gets

  /** Queries sent back to back are heard as they were sent, and then what follows them. */
  lemma {:induction false} FramesHeard(queries: seq<seq<byte>>, rest: seq<byte>, more: nat)
    requires AllSized(queries)
    ensures Heard(Framed(queries) + rest, |queries| + more) == queries + Heard(rest, more)
  {
    hide Framed, Heard, Sized;
    if queries == [] {
      NoFrames(rest, Heard(rest, more));
    } else {
      FramesHeard(queries[1..], rest, more);
      OneMoreFrame(queries[0], queries[1..], rest, more);
      assert [queries[0]] + queries[1..] == queries;
    }
  }

  lemma NoFrames(rest: seq<byte>, heard: seq<seq<byte>>)
    ensures Framed([]) + rest == rest && [] + heard == heard
  {
  }

  lemma OneMoreFrame(q: seq<byte>, queries: seq<seq<byte>>, rest: seq<byte>, more: nat)
    requires Sized(q) && AllSized(queries) && AllSized([q] + queries)
    requires Heard(Framed(queries) + rest, |queries| + more) == queries + Heard(rest, more)
    ensures Heard(Framed([q] + queries) + rest, |[q] + queries| + more) == [q] + queries + Heard(rest, more)
  {
    FramedOne(q, queries);
    FrameHeard(q, Framed(queries) + rest, |queries| + 1 + more);
    hide *;
    Regroup(Frame(q), Framed(queries), rest);
    Regroup([q], queries, Heard(rest, more));
  }

  /** Nothing more is heard after an incomplete length, a length below 12, or an incomplete message. */
  predicate NoMessage(s: seq<byte>) {
    |s| < 2 || s[0] as int * 256 + s[1] < 12 || |s| < 2 + (s[0] as int * 256 + s[1])
  }

  lemma FrameHeard(q: seq<byte>, rest: seq<byte>, patience: nat)
    requires Sized(q) && patience > 0
    ensures Heard(Frame(q) + rest, patience) == [q] + Heard(rest, patience - 1)
  {
    var prefix := PutBe16(|q|);
    var input := Frame(q) + rest;
    assert input[..2] == prefix && input[2..2 + |q|] == q && input[2 + |q|..] == rest;
    LengthRead(input);
    hide Heard, PutBe16;
    HeardOne(input, patience, q);
  }

  /** How many of the queries before `k` were forwarded. */
  function Asked(queries: seq<seq<byte>>, stripAaaa: bool, k: nat): nat
    requires k <= |queries|
  {
    if k == 0 then 0
    else (if Stripped(queries[0], stripAaaa) then 0 else 1) + Asked(queries[1..], stripAaaa, k - 1)
  }

  /** Query `k` gets an answer: its own empty one if it is stripped, else one that upstream gives in good size. */
  predicate Answerable(queries: seq<seq<byte>>, stripAaaa: bool, upstream: nat -> Option<seq<byte>>, asked: nat, k: nat)
    requires k < |queries|
  {
    if Stripped(queries[k], stripAaaa) then EmptyResponse(queries[k], NOERROR).Some?
    else
      var n := asked + Asked(queries, stripAaaa, k);
      upstream(n).Some? && Sized(upstream(n).value)
  }

  function AnswerTo(queries: seq<seq<byte>>, stripAaaa: bool, upstream: nat -> Option<seq<byte>>, asked: nat,
                    k: nat): seq<byte>
    requires k < |queries| && Answerable(queries, stripAaaa, upstream, asked, k)
  {
    if Stripped(queries[k], stripAaaa) then EmptyResponse(queries[k], NOERROR).value
    else upstream(asked + Asked(queries, stripAaaa, k)).value
  }

  /** When every query can be answered, the k-th reply answers the k-th query, and there are no others. */
  lemma {:induction false} OneReplyEach(queries: seq<seq<byte>>, stripAaaa: bool, upstream: nat -> Option<seq<byte>>,
                                        asked: nat)
    requires AllSized(queries)
    requires forall k :: 0 <= k < |queries| ==> Answerable(queries, stripAaaa, upstream, asked, k)
    ensures
      var replies := Replies(queries, stripAaaa, upstream, asked);
      |replies| == |queries| && forall k :: 0 <= k < |queries| ==>
            replies[k] == AnswerTo(queries, stripAaaa, upstream, asked, k)
  {
    hide EmptyResponse, Stripped, Sized;
    if queries != [] {
      var rest := queries[1..];
      var next := asked + if Stripped(queries[0], stripAaaa) then 0 else 1;
      assert Answerable(queries, stripAaaa, upstream, asked, 0);
      forall k | 0 <= k < |rest|
        ensures Answerable(rest, stripAaaa, upstream, next, k)
        ensures AnswerTo(rest, stripAaaa, upstream, next, k) == AnswerTo(queries, stripAaaa, upstream, asked, k + 1)
      {
        assert Answerable(queries, stripAaaa, upstream, asked, k + 1);
        AskedLater(queries, stripAaaa, upstream, asked, k);
      }
      OneReplyEach(rest, stripAaaa, upstream, next);
    }
  }

  /** The first query shifts the numbering of what is forwarded for the others. */
  lemma AskedLater(queries: seq<seq<byte>>, stripAaaa: bool, upstream: nat -> Option<seq<byte>>, asked: nat, k: nat)
    requires k + 1 < |queries| && Answerable(queries, stripAaaa, upstream, asked, k + 1)
    ensures
      var rest, next := queries[1..], asked + if Stripped(queries[0], stripAaaa) then 0 else 1;
      && Answerable(rest, stripAaaa, upstream, next, k)
      && AnswerTo(rest, stripAaaa, upstream, next, k) == AnswerTo(queries, stripAaaa, upstream, asked, k + 1)
  {
    hide EmptyResponse, Stripped, Sized;
    assert queries[k + 1] == queries[1..][k];
  }

  /** A client that pipelines its queries, with anything but another whole query after them, reads back exactly their
      answers, in order, however many more the server would take. */
  lemma PipelinedAnswers(queries: seq<seq<byte>>, partial: seq<byte>, more: nat, stripAaaa: bool,
                         upstream: nat -> Option<seq<byte>>, trailer: seq<byte>)
    requires AllSized(queries) && NoMessage(partial)
    requires forall k :: 0 <= k < |queries| ==> Answerable(queries, stripAaaa, upstream, 0, k)
    ensures
      var replies := Replies(Heard(Framed(queries) + partial, |queries| + more), stripAaaa, upstream, 0);
      && Heard(Framed(replies) + trailer, |queries|) == replies
      && |replies| == |queries|
      && forall k :: 0 <= k < |queries| ==> replies[k] == AnswerTo(queries, stripAaaa, upstream, 0, k)
  {
    FramesHeard(queries, partial, more);
    HeardNone(partial, more);
    assert queries + [] == queries;
    OneReplyEach(queries, stripAaaa, upstream, 0);
    var replies := Replies(queries, stripAaaa, upstream, 0);
    FramesHeard(replies, trailer, 0);
    HeardNone(trailer, 0);
    assert replies + [] == replies;
  }

  /** The first forwarded query that upstream fails, or answers out of size, ends the connection: nothing after it is
      answered or learned. */
  lemma {:induction false} FailureEnds(queries: seq<seq<byte>>, stripAaaa: bool, upstream: nat -> Option<seq<byte>>,
                                       asked: nat, k: nat)
    requires AllSized(queries) && k < |queries| && !Stripped(queries[k], stripAaaa)
    requires var r := upstream(asked + Asked(queries, stripAaaa, k)); r.None? || |r.value| < 12 || |r.value| > 65_535
    ensures Replies(queries, stripAaaa, upstream, asked) == Replies(queries[..k], stripAaaa, upstream, asked)
    ensures Learned(queries, stripAaaa, upstream, asked) == Learned(queries[..k], stripAaaa, upstream, asked)
    decreases k
  {
    hide EmptyResponse, Stripped, FactsOf;
    if k > 0 {
      var next := asked + if Stripped(queries[0], stripAaaa) then 0 else 1;
      assert queries[..k][1..] == queries[1..][..k - 1];
      FailureEnds(queries[1..], stripAaaa, upstream, next, k - 1);
    }
  }

  /** What is learned from query `k`, when it is answered by upstream. */
  function FactsAt(queries: seq<seq<byte>>, stripAaaa: bool, upstream: nat -> Option<seq<byte>>, asked: nat,
                   k: nat): seq<Fact>
    requires k < |queries| && Answerable(queries, stripAaaa, upstream, asked, k)
  {
    if Stripped(queries[k], stripAaaa) then []
    else FactsOf(queries[k], AnswerTo(queries, stripAaaa, upstream, asked, k))
  }

  /** What is learned from answered queries is what each adds, in order. */
  lemma {:induction false} LearnedInOrder(queries: seq<seq<byte>>, stripAaaa: bool,
                                          upstream: nat -> Option<seq<byte>>, asked: nat, k: nat)
    requires AllSized(queries) && k < |queries|
    requires forall j :: 0 <= j < |queries| ==> Answerable(queries, stripAaaa, upstream, asked, j)
    ensures Learned([], stripAaaa, upstream, asked) == []
    ensures Learned(queries[..k + 1], stripAaaa, upstream, asked) ==
            Learned(queries[..k], stripAaaa, upstream, asked) + FactsAt(queries, stripAaaa, upstream, asked, k)
    decreases k
  {
    hide EmptyResponse, Stripped, FactsOf, Sized;
    var rest := queries[1..];
    var next := asked + if Stripped(queries[0], stripAaaa) then 0 else 1;
    assert Answerable(queries, stripAaaa, upstream, asked, 0);
    assert queries[..k + 1][1..] == rest[..k];
    if k == 0 {
      assert rest[..0] == [] && queries[..0] == [];
    } else {
      assert queries[..k][1..] == rest[..k - 1];
      RestAnswerable(queries, stripAaaa, upstream, asked);
      AskedLater(queries, stripAaaa, upstream, asked, k - 1);
      hide Answerable, AnswerTo;
      LearnedInOrder(rest, stripAaaa, upstream, next, k - 1);
    }
  }

  lemma RestAnswerable(queries: seq<seq<byte>>, stripAaaa: bool, upstream: nat -> Option<seq<byte>>, asked: nat)
    requires queries != [] && forall j :: 0 <= j < |queries| ==> Answerable(queries, stripAaaa, upstream, asked, j)
    ensures
      var rest, next := queries[1..], asked + if Stripped(queries[0], stripAaaa) then 0 else 1;
      forall j :: 0 <= j < |rest| ==> Answerable(rest, stripAaaa, upstream, next, j)
  {
    hide Stripped, AnswerTo;
    var rest, next := queries[1..], asked + if Stripped(queries[0], stripAaaa) then 0 else 1;
    forall j | 0 <= j < |rest|
      ensures Answerable(rest, stripAaaa, upstream, next, j)
    {
      assert Answerable(queries, stripAaaa, upstream, asked, j + 1);
      AskedLater(queries, stripAaaa, upstream, asked, j);
    }
  }

  /** From an encoded query and an encoded response: its answers' addresses, in order, under the name asked for, for the
      response's least answer TTL within 300 seconds and a day. */
  lemma FactsOfMessages(q: Message, padding: seq<byte>, m: Message, trailer: seq<byte>, least: u32)
    requires ValidMessage(q) && q.questions != [] && q.questions[0].name.end.Root? && ValidMessage(m)
    requires m.answers != [] ==> IsLeast(least, m.answers)
    ensures
      var labels := q.questions[0].name.labels;
      var name := if labels != [] && AllUtf8(labels) then Join(labels, DOT) else [];
      var ttl := if least < 300 || least == 0xFFFF_FFFF then 300 else if least > 86_400 then 86_400 else least;
      var facts := FactsOf(Encode(q) + padding, Encode(m) + trailer);
      && |facts| == |Addresses(m.answers)|
      && forall i :: 0 <= i < |facts| ==> facts[i] == Fact(Addresses(m.answers)[i], name, ttl)
  {
    QueryOfMessage(q, padding);
    AddressesOfMessage(m, trailer);
    if m.answers != [] {
      TableTtlOfMessage(m, trailer, least);
    }
    hide *;
    FactsRead(Encode(q) + padding, Encode(m) + trailer);
  }

  lemma FactsRead(query: seq<byte>, response: seq<byte>)
    ensures
      var ips := if IpRecords(response).Some? then IpRecords(response).value else [];
      var name := if QueryName(query).Some? then QueryName(query).value else [];
      var facts := FactsOf(query, response);
      |facts| == |ips| && forall i :: 0 <= i < |facts| ==> facts[i] == Fact(ips[i], name, TableTtl(response))
  {
    hide QueryName, IpRecords, TableTtl;
  }

  /** With AAAA stripped, what the client reads for an AAAA query is a response of its own id without any record. */
  lemma AaaaStripped(queries: seq<seq<byte>>, upstream: nat -> Option<seq<byte>>, k: nat)
    requires k < |queries| && QueryType(queries[k]) == Some(TYPE_AAAA) && |queries[k]| >= MIN_MESSAGE
    ensures Answerable(queries, true, upstream, 0, k) <==> QuestionsEnd(queries[k]).Some?
    ensures Answerable(queries, true, upstream, 0, k) ==>
              var r := AnswerTo(queries, true, upstream, 0, k);
              && |r| >= 12 && r[..2] == queries[k][..2] && RepliesWith(queries[k], r, 0) && RecordCount(r) == 0
              && IpRecords(r).None?
  {
    EmptyResponseEchoes(queries[k], NOERROR);
    if QuestionsEnd(queries[k]).Some? {
      EmptyResponseBytes(queries[k], NOERROR);
    }
  }
}
