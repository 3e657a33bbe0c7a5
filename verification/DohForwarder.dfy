/** The DNS-over-HTTPS forwarder as a state machine: the main loop, one task per upstream query and one
    per joined query interleave at their lock sections and sends (src/dns.rs, `run_doh`, `QueryCoalescer`). */
module DohForwarder {
  import opened Bytes
  import opened Net
  import opened DnsWire
  import opened DnsQuery
  import opened DnsCache
  import opened Eviction

  datatype Query = Query(packet: seq<byte>, client: SocketAddr)

  /** Who is responsible for answering a query. */
  datatype Role = AtMain | HitCache | Owner(task: nat) | Joined(waiter: nat)

  datatype MainLoop = Receiving | Missed(query: nat) | Alone(query: nat)

  datatype TaskStage = Querying | Failed | Answered | Stored | Removed | Sent | Done

  /** The task behind an upstream query. It owns the sender; `sent` is what it broadcast, `putAt` when it cached. */
  datatype Task = Task(key: seq<byte>, query: nat, stage: TaskStage, response: Option<seq<byte>>,
                       putAt: Option<nat>, sent: Option<seq<byte>>)

  datatype WaiterStage = Waiting | Replied | GaveUp

  /** A query joined to the task whose sender it subscribed to. A message sent before that never reaches it. */
  datatype Waiter = Waiter(query: nat, task: nat, mailbox: Option<seq<byte>>, stage: WaiterStage)

  /** Where the bytes of a reply come from; a cached one was checked and then aged at these instants. */
  datatype Source = Upstream(task: nat) | Shared(task: nat) | Cached(task: nat, checked: nat, read: nat) | ServFail
  datatype Reply = Reply(query: nat, client: SocketAddr, packet: seq<byte>, source: Source)

  datatype State = State(
    queries: seq<Query>, roles: seq<Role>, main: MainLoop,
    inFlight: map<seq<byte>, nat>, tasks: seq<Task>, waiters: seq<Waiter>,
    cache: map<seq<byte>, Entry>, putBy: map<seq<byte>, nat>, replies: seq<Reply>)

  datatype Event =
    | Receive(query: Query, now: nat, later: nat, cached: seq<byte>)
    | Join
    | Register
    | UpstreamOk(task: nat, response: seq<byte>)
    | UpstreamErr(task: nat)
    | Store(task: nat, now: nat, later: nat, done: nat)
    | Complete(task: nat)
    | Broadcast(task: nat)
    | ReplyOwn(task: nat)
    | Wake(waiter: nat)

  const START := State([], [], Receiving, map[], [], [], map[], map[], [])
  const SERVFAIL: byte := 2

  function KeyOf(s: State, query: nat): seq<byte>
    requires query < |s.queries|
  {
    CacheKey(s.queries[query].packet)
  }

  function IdOf(s: State, query: nat): u16
    requires query < |s.queries| && |s.queries[query].packet| >= 2
  {
    Be16At(s.queries[query].packet, 0)
  }

  /** The task whose response was last cached under `key`. */
  function PutBy(s: State, key: seq<byte>): nat {
    if key in s.putBy then s.putBy[key] else 0
  }

  // ---------------------------------------------------------------- steps

  /** A query arrives. On a cache hit, checked at `now`, it is answered at once; `cached` is the reply aged by what
      the clock says at `later`. */
  ghost predicate ReceiveStep(s: State, e: Event, t: State)
    requires e.Receive?
  {
    && s.main.Receiving? && |e.query.packet| >= 12 && e.now <= e.later
    && var q, key := |s.queries|, CacheKey(e.query.packet);
    if Hit(s.cache, key, e.now) then
      && Served(s.cache[key].response, e.cached, Be16At(e.query.packet, 0), Age(s.cache[key], e.later))
      && t == s.(queries := s.queries + [e.query], roles := s.roles + [HitCache],
                 replies := s.replies + [Reply(q, e.query.client, e.cached, Cached(PutBy(s, key), e.now, e.later))])
    else
      t == s.(queries := s.queries + [e.query], roles := s.roles + [AtMain], main := Missed(q))
  }

  ghost predicate JoinStep(s: State, t: State) {
    && s.main.Missed? && s.main.query < |s.queries| == |s.roles|
    && var q, key := s.main.query, KeyOf(s, s.main.query);
    if key in s.inFlight then
      t == s.(main := Receiving, roles := s.roles[q := Joined(|s.waiters|)],
              waiters := s.waiters + [Waiter(q, s.inFlight[key], None, Waiting)])
    else t == s.(main := Alone(q))
  }

  ghost predicate RegisterStep(s: State, t: State) {
    && s.main.Alone? && s.main.query < |s.queries| == |s.roles|
    && var q, key := s.main.query, KeyOf(s, s.main.query);
    t == s.(main := Receiving, roles := s.roles[q := Owner(|s.tasks|)],
            inFlight := s.inFlight[key := |s.tasks|],
            tasks := s.tasks + [Task(key, q, Querying, None, None, None)])
  }

  ghost predicate StoreStep(s: State, i: nat, now: nat, later: nat, done: nat, t: State)
    requires i < |s.tasks|
  {
    var task := s.tasks[i];
    && task.stage.Answered? && task.response.Some? && later <= done
    && if IpRecords(task.response.value).Some? then
         && PutOutcome(s.cache, t.cache, task.key, task.response.value, now, later, done)
         && t == s.(tasks := s.tasks[i := task.(stage := Stored, putAt := Some(now))], cache := t.cache,
                    putBy := s.putBy[task.key := i])
       else t == s.(tasks := s.tasks[i := task.(stage := Stored)])
  }

  /** What a task broadcasts: the response, or a SERVFAIL for its own query when one can be built. */
  function Payload(s: State, i: nat): Option<seq<byte>>
    requires i < |s.tasks| && s.tasks[i].query < |s.queries|
  {
    if s.tasks[i].response.Some? then s.tasks[i].response
    else EmptyResponse(s.queries[s.tasks[i].query].packet, SERVFAIL)
  }

  /** A broadcast reaches every receiver subscribed at that moment. */
  function Delivered(waiters: seq<Waiter>, i: nat, payload: seq<byte>): seq<Waiter> {
    seq(|waiters|, j requires 0 <= j < |waiters| =>
      if waiters[j].task == i then waiters[j].(mailbox := Some(payload)) else waiters[j])
  }

  ghost predicate BroadcastStep(s: State, i: nat, t: State)
    requires i < |s.tasks|
  {
    && s.tasks[i].stage.Removed? && s.tasks[i].query < |s.queries|
    && match Payload(s, i)
       case None => t == s.(tasks := s.tasks[i := s.tasks[i].(stage := Done)])
       case Some(p) => t == s.(tasks := s.tasks[i := s.tasks[i].(stage := Sent, sent := Some(p))],
                               waiters := Delivered(s.waiters, i, p))
  }

  ghost predicate ReplyOwnStep(s: State, i: nat, t: State)
    requires i < |s.tasks|
  {
    var task := s.tasks[i];
    var source := if task.response.Some? then Upstream(i) else ServFail;
    && task.stage.Sent? && task.sent.Some? && task.query < |s.queries|
    && t == s.(tasks := s.tasks[i := task.(stage := Done)],
               replies := s.replies + [Reply(task.query, s.queries[task.query].client, task.sent.value, source)])
  }

  /** A waiter takes its message, or learns that every sender is gone: the task ended and dropped the last one. */
  ghost predicate WakeStep(s: State, j: nat, t: State)
    requires j < |s.waiters|
  {
    var w := s.waiters[j];
    && w.stage.Waiting? && w.task < |s.tasks| && w.query < |s.queries| && |s.queries[w.query].packet| >= 2
    && match w.mailbox
       case Some(p) =>
         var source := if s.tasks[w.task].response.Some? then Shared(w.task) else ServFail;
         var reply := Reply(w.query, s.queries[w.query].client, Restamp(p, IdOf(s, w.query)), source);
         t == s.(waiters := s.waiters[j := w.(stage := Replied)], replies := s.replies + [reply])
       case None => s.tasks[w.task].stage.Done? && t == s.(waiters := s.waiters[j := w.(stage := GaveUp)])
  }

  ghost predicate Next(s: State, e: Event, t: State) {
    match e
    case Receive(_, _, _, _) => ReceiveStep(s, e, t)
    case Join => JoinStep(s, t)
    case Register => RegisterStep(s, t)
    case UpstreamOk(i, response) =>
      i < |s.tasks| && s.tasks[i].stage.Querying?
          && t == s.(tasks := s.tasks[i := s.tasks[i].(stage := Answered, response := Some(response))])
    case UpstreamErr(i) =>
      i < |s.tasks| && s.tasks[i].stage.Querying? && t == s.(tasks := s.tasks[i := s.tasks[i].(stage := Failed)])
    case Store(i, now, later, done) => i < |s.tasks| && StoreStep(s, i, now, later, done, t)
    case Complete(i) =>
      && i < |s.tasks| && (s.tasks[i].stage.Stored? || s.tasks[i].stage.Failed?)
      && t == s.(tasks := s.tasks[i := s.tasks[i].(stage := Removed)], inFlight := s.inFlight - {s.tasks[i].key})
    case Broadcast(i) => i < |s.tasks| && BroadcastStep(s, i, t)
    case ReplyOwn(i) => i < |s.tasks| && ReplyOwnStep(s, i, t)
    case Wake(j) => j < |s.waiters| && WakeStep(s, j, t)
  }

  ghost predicate Run(states: seq<State>, events: seq<Event>) {
    && |states| == |events| + 1 && states[0] == START
    && forall k :: 0 <= k < |events| ==> Next(states[k], events[k], states[k + 1])
  }

  // ---------------------------------------------------------------- invariants

  /** The task's entry is still in the coalescer. */
  predicate InCoalescer(stage: TaskStage) {
    stage.Querying? || stage.Failed? || stage.Answered? || stage.Stored?
  }

  /** `in_flight` maps each key to the one task that has not yet removed its entry, and that task has not sent. */
  ghost predicate FlightsSound(inFlight: map<seq<byte>, nat>, tasks: seq<Task>) {
    && (forall k :: k in inFlight ==>
          inFlight[k] < |tasks| && tasks[inFlight[k]].key == k && InCoalescer(tasks[inFlight[k]].stage))
    && (forall i :: 0 <= i < |tasks| && InCoalescer(tasks[i].stage) ==>
          tasks[i].key in inFlight && inFlight[tasks[i].key] == i)
  }

  /** How far a task is says what it has received and sent. */
  ghost predicate TaskSound(s: State, i: nat)
    requires i < |s.tasks|
  {
    var t := s.tasks[i];
    && t.query < |s.queries| && t.key == KeyOf(s, t.query)
    && (t.stage.Querying? || t.stage.Failed? ==> t.response.None?)
    && (t.stage.Answered? || t.stage.Stored? ==> t.response.Some?)
    && (t.stage.Querying? || t.stage.Failed? || t.stage.Answered? ==> t.putAt.None?)
    && (t.stage.Sent? ==> t.sent.Some?)
    && (InCoalescer(t.stage) || t.stage.Removed? ==> t.sent.None?)
    && (t.sent.Some? ==> t.sent == Payload(s, i))
    && (t.stage.Done? && t.sent.None? ==> Payload(s, i).None?)
  }

  /** Every waiter joined a query with its own key, and has exactly what its task has sent. */
  ghost predicate WaiterSound(s: State, j: nat)
    requires j < |s.waiters|
  {
    var w := s.waiters[j];
    && w.query < |s.queries| && w.task < |s.tasks|
    && s.tasks[w.task].key == KeyOf(s, w.query)
    && w.mailbox == s.tasks[w.task].sent
    && (w.stage.GaveUp? ==> s.tasks[w.task].stage.Done? && w.mailbox.None?)
  }

  ghost predicate RolesSound(s: State) {
    && |s.roles| == |s.queries|
    && (forall q :: 0 <= q < |s.queries| ==> |s.queries[q].packet| >= 12)
    && (forall i :: 0 <= i < |s.tasks| ==> s.tasks[i].query < |s.roles| && s.roles[s.tasks[i].query] == Owner(i))
    && (forall j :: 0 <= j < |s.waiters| ==> s.waiters[j].query < |s.roles| && s.roles[s.waiters[j].query] == Joined(j))
    && (!s.main.Receiving? ==> s.main.query < |s.roles| && s.roles[s.main.query] == AtMain)
    && (s.main.Alone? ==> KeyOf(s, s.main.query) !in s.inFlight)
  }

  /** A cached entry is the answer some task got for that very key, and it has an address record. */
  ghost predicate CacheSound(s: State) {
    && |s.cache| <= MAX_CACHE_ENTRIES
    && forall k :: k in s.cache ==>
         && k in s.putBy && s.putBy[k] < |s.tasks| && s.tasks[s.putBy[k]].key == k
         && s.tasks[s.putBy[k]].response == Some(s.cache[k].response)
         && s.tasks[s.putBy[k]].putAt == Some(s.cache[k].inserted)
         && IpRecords(s.cache[k].response).Some? && WellFormed(s.cache[k])
  }

  /** The query has been answered, so nobody will answer it again. */
  ghost predicate Settled(s: State, q: nat) {
    && q < |s.roles|
    && match s.roles[q]
       case AtMain => false
       case HitCache => true
       case Owner(i) => i < |s.tasks| && s.tasks[i].stage.Done?
       case Joined(j) => j < |s.waiters| && s.waiters[j].stage.Replied?
  }

  /** The reply is what its source makes of a response to the same query up to the transaction id. */
  ghost predicate Legitimate(s: State, r: Reply) {
    && r.query < |s.queries| && |s.queries[r.query].packet| >= 12 && r.client == s.queries[r.query].client
    && match r.source
       case ServFail => EmptyResponse(s.queries[r.query].packet, SERVFAIL) == Some(r.packet)
       case Upstream(i) => i < |s.tasks| && s.tasks[i].query == r.query && s.tasks[i].response == Some(r.packet)
       case Shared(i) =>
         && i < |s.tasks| && s.tasks[i].key == KeyOf(s, r.query) && s.tasks[i].response.Some?
         && r.packet == Restamp(s.tasks[i].response.value, IdOf(s, r.query))
       case Cached(i, checked, read) =>
         && i < |s.tasks| && s.tasks[i].key == KeyOf(s, r.query) && s.tasks[i].response.Some? && s.tasks[i].putAt.Some?
         && IpRecords(s.tasks[i].response.value).Some?
         && var e := NewEntry(s.tasks[i].response.value, s.tasks[i].putAt.value);
         && checked < e.expires && checked <= read
         && Served(e.response, r.packet, IdOf(s, r.query), Age(e, read))
  }

  ghost predicate RepliesSound(s: State) {
    && (forall k :: 0 <= k < |s.replies| ==> Settled(s, s.replies[k].query) && Legitimate(s, s.replies[k]))
    && (forall j, k :: 0 <= j < k < |s.replies| ==> s.replies[j].query != s.replies[k].query)
  }

  ghost predicate TasksSound(s: State) {
    forall i :: 0 <= i < |s.tasks| ==> TaskSound(s, i)
  }

  ghost predicate WaitersSound(s: State) {
    forall j :: 0 <= j < |s.waiters| ==> WaiterSound(s, j)
  }

  ghost predicate Inv(s: State) {
    && FlightsSound(s.inFlight, s.tasks) && TasksSound(s) && WaitersSound(s) && RolesSound(s) && CacheSound(s)
        && RepliesSound(s)
  }
}
