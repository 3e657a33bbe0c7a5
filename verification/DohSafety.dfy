/** What every interleaving of the DNS-over-HTTPS forwarder guarantees. */
module DohSafety {
  import opened Bytes
  import opened DnsWire
  import opened DnsRewrite
  import opened DnsQuery
  import opened DnsCache
  import opened Eviction
  import opened DohForwarder

  // ---------------------------------------------------------------- what steps preserve

  ghost predicate TaskGrows(a: Task, b: Task) {
    && b.key == a.key && b.query == a.query
    && (a.response.Some? ==> b.response == a.response)
    && (a.putAt.Some? ==> b.putAt == a.putAt)
    && (a.stage.Done? ==> b == a)
  }

  ghost predicate WaiterGrows(a: Waiter, b: Waiter) {
    b.query == a.query && b.task == a.task && (a.stage.Replied? ==> b.stage.Replied?)
  }

  /** Nothing already settled is taken back. */
  ghost predicate Grows(s: State, t: State) {
    && s.queries <= t.queries
    && |s.tasks| <= |t.tasks| && (forall i :: 0 <= i < |s.tasks| ==> TaskGrows(s.tasks[i], t.tasks[i]))
    && |s.waiters| <= |t.waiters| && (forall j :: 0 <= j < |s.waiters| ==> WaiterGrows(s.waiters[j], t.waiters[j]))
    && |s.roles| <= |t.roles| && (forall q :: 0 <= q < |s.roles| ==> s.roles[q].AtMain? || t.roles[q] == s.roles[q])
  }

  lemma LegitimateGrows(s: State, t: State, r: Reply)
    requires Grows(s, t) && Legitimate(s, r)
    ensures Legitimate(t, r)
  {
    hide EmptyResponse, CacheKey, Restamp, Served, IpRecords, Lifetime;
    match r.source
    case ServFail =>
    case Upstream(i) => assert TaskGrows(s.tasks[i], t.tasks[i]);
    case Shared(i) => assert TaskGrows(s.tasks[i], t.tasks[i]);
    case Cached(i, _, _) => assert TaskGrows(s.tasks[i], t.tasks[i]);
  }

  lemma SettledGrows(s: State, t: State, q: nat)
    requires Grows(s, t) && Settled(s, q)
    ensures Settled(t, q)
  {
    match s.roles[q]
    case AtMain =>
    case HitCache =>
    case Owner(i) => assert TaskGrows(s.tasks[i], t.tasks[i]);
    case Joined(j) => assert WaiterGrows(s.waiters[j], t.waiters[j]);
  }

  lemma RepliesGrow(s: State, t: State)
    requires Grows(s, t) && RepliesSound(s) && t.replies == s.replies
    ensures RepliesSound(t)
  {
    hide Grows, Settled, Legitimate;
    forall k | 0 <= k < |t.replies|
      ensures Settled(t, t.replies[k].query) && Legitimate(t, t.replies[k])
    {
      SettledGrows(s, t, s.replies[k].query);
      LegitimateGrows(s, t, s.replies[k]);
    }
  }

  lemma OneMoreReply(s: State, t: State, r: Reply)
    requires Grows(s, t) && RepliesSound(s) && t.replies == s.replies + [r]
    requires !Settled(s, r.query) && Settled(t, r.query) && Legitimate(t, r)
    ensures RepliesSound(t)
  {
    hide Grows, Settled, Legitimate;
    forall k | 0 <= k < |s.replies|
      ensures Settled(t, s.replies[k].query) && Legitimate(t, s.replies[k])
    {
      SettledGrows(s, t, s.replies[k].query);
      LegitimateGrows(s, t, s.replies[k]);
    }
  }

  lemma TaskFrame(s: State, t: State, i: nat)
    requires i < |s.tasks| && i < |t.tasks| && t.tasks[i] == s.tasks[i] && s.queries <= t.queries && TaskSound(s, i)
    ensures TaskSound(t, i)
  {
    hide EmptyResponse, CacheKey;
  }

  lemma WaiterFrame(s: State, t: State, j: nat)
    requires Grows(s, t) && j < |s.waiters| && WaiterSound(s, j)
    requires t.waiters[j] == s.waiters[j] && s.waiters[j].task < |s.tasks|
             && t.tasks[s.waiters[j].task].sent == s.tasks[s.waiters[j].task].sent
    ensures WaiterSound(t, j)
  {
    hide EmptyResponse, CacheKey;
    assert TaskGrows(s.tasks[s.waiters[j].task], t.tasks[s.waiters[j].task]);
  }

  lemma TasksKept(s: State, t: State)
    requires TasksSound(s) && s.queries <= t.queries && t.tasks == s.tasks
    ensures TasksSound(t)
  {
    hide TaskSound;
    forall i | 0 <= i < |t.tasks|
      ensures TaskSound(t, i)
    {
      assert TaskSound(s, i);
      TaskFrame(s, t, i);
    }
  }

  /** Waiters that did not change stay sound while the tasks stay as they are. */
  lemma WaitersKept(s: State, t: State, j: nat)
    requires WaitersSound(s) && Grows(s, t) && t.tasks == s.tasks && j < |s.waiters| && t.waiters[j] == s.waiters[j]
    ensures WaiterSound(t, j)
  {
    assert WaiterSound(s, j);
    WaiterTaskExists(s, j);
    hide WaiterSound, Grows;
    WaiterFrame(s, t, j);
  }

  lemma CacheFrame(s: State, t: State)
    requires Grows(s, t) && CacheSound(s) && t.cache == s.cache && t.putBy == s.putBy
    ensures CacheSound(t)
  {
    hide IpRecords, WellFormed;
    forall k | k in t.cache
      ensures t.putBy[k] < |t.tasks| && t.tasks[t.putBy[k]].key == k
              && t.tasks[t.putBy[k]].response == Some(t.cache[k].response)
              && t.tasks[t.putBy[k]].putAt == Some(t.cache[k].inserted)
    {
      assert TaskGrows(s.tasks[s.putBy[k]], t.tasks[s.putBy[k]]);
    }
  }

  /** A task moves on without entering or leaving the coalescer. */
  lemma FlightsFrame(inFlight: map<seq<byte>, nat>, tasks: seq<Task>, i: nat, task: Task)
    requires FlightsSound(inFlight, tasks) && i < |tasks| && task.key == tasks[i].key
    requires InCoalescer(task.stage) == InCoalescer(tasks[i].stage)
    ensures FlightsSound(inFlight, tasks[i := task])
  {
  }

  /** `complete` removes the task's own entry and no other. */
  lemma FlightsComplete(inFlight: map<seq<byte>, nat>, tasks: seq<Task>, i: nat, task: Task)
    requires FlightsSound(inFlight, tasks) && i < |tasks| && task.key == tasks[i].key
    requires InCoalescer(tasks[i].stage) && !InCoalescer(task.stage)
    ensures tasks[i].key in inFlight && inFlight[tasks[i].key] == i
    ensures FlightsSound(inFlight - {task.key}, tasks[i := task])
  {
  }

  lemma FlightsRegister(inFlight: map<seq<byte>, nat>, tasks: seq<Task>, task: Task)
    requires FlightsSound(inFlight, tasks) && task.key !in inFlight && InCoalescer(task.stage)
    ensures FlightsSound(inFlight[task.key := |tasks|], tasks + [task])
  {
  }

  // ---------------------------------------------------------------- main loop steps

  lemma ReceiveKeepsInv(s: State, e: Event, t: State)
    requires Inv(s) && e.Receive? && ReceiveStep(s, e, t)
    ensures Inv(t)
  {
    ReceiveGrows(s, e, t);
    ReceiveShape(s, e, t);
    ReceiveKeepsReplies(s, e, t);
    hide ReceiveStep, EmptyResponse, CacheKey, WaiterSound, TasksSound, WaitersSound, CacheSound, RolesSound,
         RepliesSound, FlightsSound, Grows;
    TasksKept(s, t);
    WaitersAlike(s, t);
    CacheFrame(s, t);
    QueriesGrow(s, t);
  }

  lemma ReceiveShape(s: State, e: Event, t: State)
    requires e.Receive? && ReceiveStep(s, e, t) && |s.roles| == |s.queries|
    ensures t.queries == s.queries + [e.query] && |e.query.packet| >= 12 && t.tasks == s.tasks
    ensures t.waiters == s.waiters && t.inFlight == s.inFlight && t.cache == s.cache && t.putBy == s.putBy
    ensures |t.roles| == |t.queries| && s.roles <= t.roles
    ensures t.main == if t.roles[|s.queries|] == AtMain then Missed(|s.queries|) else Receiving
  {
    hide CacheKey, Served, Hit, Age, Be16At, PutBy;
  }

  lemma ReceiveKeepsReplies(s: State, e: Event, t: State)
    requires Inv(s) && e.Receive? && ReceiveStep(s, e, t) && Grows(s, t)
    ensures RepliesSound(t)
  {
    if t.main.Receiving? {
      hide Inv, ReceiveStep, Grows, RepliesSound;
      HitReplies(s, e, t);
    } else {
      hide CacheKey, Served, Hit, Age, Be16At, PutBy, Grows, RepliesSound, FlightsSound, TasksSound, WaitersSound,
           RolesSound, CacheSound;
      RepliesGrow(s, t);
    }
  }

  lemma ReceiveGrows(s: State, e: Event, t: State)
    requires e.Receive? && ReceiveStep(s, e, t) && |s.roles| == |s.queries|
    ensures Grows(s, t)
  {
    hide CacheKey, Served, Hit, Age, Be16At;
  }

  lemma WaiterTaskExists(s: State, j: nat)
    requires j < |s.waiters| && WaiterSound(s, j)
    ensures s.waiters[j].task < |s.tasks|
  {
  }

  lemma QueriesGrow(s: State, t: State)
    requires RolesSound(s) && s.queries <= t.queries && |t.queries| == |s.queries| + 1 && t.tasks == s.tasks
             && t.waiters == s.waiters
    requires |t.roles| == |t.queries| && s.roles <= t.roles && |t.queries[|s.queries|].packet| >= 12
    requires t.main == (if t.roles[|s.queries|] == AtMain then Missed(|s.queries|) else Receiving)
    ensures RolesSound(t)
  {
    hide CacheKey;
  }

  lemma HitReplies(s: State, e: Event, t: State)
    requires Inv(s) && e.Receive? && ReceiveStep(s, e, t) && t.main.Receiving? && Grows(s, t)
    ensures RepliesSound(t)
  {
    NewQueryUnsettled(s, e, t);
    hide *;
    HitStep(s, e, t);
    HitLegitimate(s, e, t);
    OneMoreReply(s, t, t.replies[|s.replies|]);
  }

  lemma NewQueryUnsettled(s: State, e: Event, t: State)
    requires Inv(s) && e.Receive? && ReceiveStep(s, e, t) && t.main.Receiving?
    ensures CacheSound(s) && RepliesSound(s) && !Settled(s, |s.queries|) && Settled(t, |s.queries|)
  {
    hide CacheSound, RepliesSound, FlightsSound, TasksSound, WaitersSound;
    HitStep(s, e, t);
    hide ReceiveStep, CacheKey, Served, Be16At;
  }

  lemma HitStep(s: State, e: Event, t: State)
    requires e.Receive? && ReceiveStep(s, e, t) && t.main.Receiving?
    ensures
      var key := CacheKey(e.query.packet);
      && |e.query.packet| >= 12 && e.now <= e.later && key in s.cache && e.now < s.cache[key].expires
      && Served(s.cache[key].response, e.cached, Be16At(e.query.packet, 0), Age(s.cache[key], e.later))
      && t.queries == s.queries + [e.query] && t.tasks == s.tasks
      && t.replies == s.replies + [Reply(|s.queries|, e.query.client, e.cached,
                                         Cached(PutBy(s, key), e.now, e.later))]
      && t.roles == s.roles + [HitCache]
  {
    hide CacheKey, Served, Be16At, Age;
  }

  /** What is cached under a key came from a task with that key. */
  lemma CacheEntry(s: State, key: seq<byte>)
    requires CacheSound(s) && key in s.cache
    ensures
      var i := PutBy(s, key);
      && i < |s.tasks| && s.tasks[i].key == key && s.tasks[i].response == Some(s.cache[key].response)
      && s.tasks[i].putAt == Some(s.cache[key].inserted)
      && IpRecords(s.cache[key].response).Some? && WellFormed(s.cache[key])
  {
    hide IpRecords, WellFormed;
  }

  lemma HitLegitimate(s: State, e: Event, t: State)
    requires CacheSound(s) && e.Receive? && ReceiveStep(s, e, t) && t.main.Receiving?
    ensures |t.replies| == |s.replies| + 1 && Legitimate(t, t.replies[|s.replies|])
  {
    hide *;
    HitStep(s, e, t);
    var key := CacheKey(e.query.packet);
    CacheEntry(s, key);
    WellFormedIs(s.cache[key]);
    assert t.queries[|s.queries|] == e.query;
    CachedIsLegitimate(t, t.replies[|s.replies|]);
  }

  lemma CachedIsLegitimate(t: State, r: Reply)
    requires r.source.Cached? && r.query < |t.queries| && |t.queries[r.query].packet| >= 12
             && r.client == t.queries[r.query].client
    requires r.source.task < |t.tasks| && t.tasks[r.source.task].key == CacheKey(t.queries[r.query].packet)
    requires t.tasks[r.source.task].response.Some? && t.tasks[r.source.task].putAt.Some?
    requires var e := NewEntry(t.tasks[r.source.task].response.value, t.tasks[r.source.task].putAt.value);
             && IpRecords(e.response).Some? && r.source.checked < e.expires && r.source.checked <= r.source.read
             && Served(e.response, r.packet, Be16At(t.queries[r.query].packet, 0), Age(e, r.source.read))
    ensures Legitimate(t, r)
  {
    hide CacheKey, Served, IpRecords, Be16At, Lifetime, Age;
  }

  lemma WellFormedIs(e: Entry)
    requires WellFormed(e)
    ensures NewEntry(e.response, e.inserted) == e
  {
  }

  lemma JoinKeepsInv(s: State, t: State)
    requires Inv(s) && JoinStep(s, t)
    ensures Inv(t)
  {
    JoinGrows(s, t);
    JoinKeepsRoles(s, t);
    JoinKeepsWaiters(s, t);
    hide EmptyResponse, CacheKey, TaskSound, FlightsSound, RolesSound, CacheSound, RepliesSound, TasksSound,
         WaitersSound, Grows;
    TasksKept(s, t);
    CacheFrame(s, t);
    RepliesGrow(s, t);
  }

  lemma JoinKeepsWaiters(s: State, t: State)
    requires Inv(s) && JoinStep(s, t)
    ensures WaitersSound(t)
  {
    JoinGrows(s, t);
    var key := KeyOf(s, s.main.query);
    if key in s.inFlight {
      NewWaiterSound(s, t, key);
    }
    JoinShape(s, t);
    hide CacheKey, TasksSound, WaiterSound, FlightsSound, RolesSound, CacheSound, RepliesSound, Grows, JoinStep;
    forall j | 0 <= j < |t.waiters|
      ensures WaiterSound(t, j)
    {
      if j < |s.waiters| {
        WaitersKept(s, t, j);
      }
    }
  }

  lemma JoinShape(s: State, t: State)
    requires JoinStep(s, t)
    ensures t.tasks == s.tasks && s.waiters <= t.waiters
    ensures |t.waiters| == |s.waiters| + if KeyOf(s, s.main.query) in s.inFlight then 1 else 0
  {
    hide CacheKey;
  }

  lemma JoinGrows(s: State, t: State)
    requires RolesSound(s) && JoinStep(s, t)
    ensures Grows(s, t)
  {
    hide CacheKey;
  }

  lemma JoinKeepsRoles(s: State, t: State)
    requires RolesSound(s) && JoinStep(s, t)
    ensures RolesSound(t)
  {
    hide CacheKey;
  }

  /** Whoever joins subscribes before the send: the task found in the coalescer has not broadcast yet. */
  lemma NewWaiterSound(s: State, t: State, key: seq<byte>)
    requires Inv(s) && JoinStep(s, t) && key == KeyOf(s, s.main.query) && key in s.inFlight
    ensures |t.waiters| == |s.waiters| + 1 && WaiterSound(t, |s.waiters|)
    ensures s.tasks[s.inFlight[key]].sent.None?
  {
    hide EmptyResponse, CacheKey;
    assert TaskSound(s, s.inFlight[key]);
  }

  lemma RegisterKeepsInv(s: State, t: State)
    requires Inv(s) && RegisterStep(s, t)
    ensures Inv(t)
  {
    RegisterKeepsRoles(s, t);
    RegisterKeepsTasks(s, t);
    RegisterKeepsFlights(s, t);
    hide CacheKey, FlightsSound, RolesSound, CacheSound, RepliesSound, WaitersSound, TasksSound, Grows;
    WaitersAlike(s, t);
    CacheFrame(s, t);
    RepliesGrow(s, t);
  }

  lemma RegisterKeepsTasks(s: State, t: State)
    requires TasksSound(s) && RegisterStep(s, t)
    ensures TasksSound(t)
  {
    NewTaskSound(s, t);
    OtherTasksSound(s, t, |s.tasks|);
    hide CacheKey, TaskSound;
  }

  lemma RegisterKeepsFlights(s: State, t: State)
    requires RolesSound(s) && FlightsSound(s.inFlight, s.tasks) && RegisterStep(s, t)
    ensures FlightsSound(t.inFlight, t.tasks)
  {
    RegisterKeepsRoles(s, t);
    hide CacheKey, FlightsSound, RolesSound;
    FlightsRegister(s.inFlight, s.tasks, t.tasks[|s.tasks|]);
  }

  lemma RegisterKeepsRoles(s: State, t: State)
    requires RolesSound(s) && RegisterStep(s, t)
    ensures RolesSound(t) && Grows(s, t) && KeyOf(s, s.main.query) !in s.inFlight
  {
    hide CacheKey;
  }

  lemma NewTaskSound(s: State, t: State)
    requires RegisterStep(s, t)
    ensures |t.tasks| == |s.tasks| + 1 && TaskSound(t, |s.tasks|)
  {
    hide EmptyResponse, CacheKey;
  }

  // ---------------------------------------------------------------- task and waiter steps

  /** Task `i` moves on to `task`; the main loop, the queries and who answers them are untouched. */
  ghost predicate TaskMoves(s: State, t: State, i: nat, task: Task) {
    && i < |s.tasks| && TaskGrows(s.tasks[i], task) && t.tasks == s.tasks[i := task]
    && t.queries == s.queries && t.roles == s.roles && t.main == s.main
    && |t.waiters| == |s.waiters| && (forall j :: 0 <= j < |s.waiters| ==> WaiterGrows(s.waiters[j], t.waiters[j]))
    && t.inFlight.Keys <= s.inFlight.Keys
  }

  lemma TaskMovesFrame(s: State, t: State, i: nat, task: Task)
    requires Inv(s) && TaskMoves(s, t, i, task) && TaskSound(t, i)
    ensures Grows(s, t) && TasksSound(t) && RolesSound(t)
    ensures t.cache == s.cache && t.putBy == s.putBy ==> CacheSound(t)
    ensures t.replies == s.replies ==> RepliesSound(t)
    ensures t.waiters == s.waiters && task.sent == s.tasks[i].sent ==> WaitersSound(t)
  {
    MoveGrows(s, t, i, task);
    MoveKeepsRoles(s, t, i, task);
    OtherTasksSound(s, t, i);
    hide EmptyResponse, CacheKey, IpRecords, TaskSound, WaiterSound, Settled, Legitimate, FlightsSound, RolesSound,
         Grows, CacheSound, RepliesSound, WaitersSound;
    if t.cache == s.cache && t.putBy == s.putBy {
      CacheFrame(s, t);
    }
    if t.replies == s.replies {
      RepliesGrow(s, t);
    }
    if t.waiters == s.waiters && task.sent == s.tasks[i].sent {
      WaitersAlike(s, t);
    }
  }

  lemma MoveGrows(s: State, t: State, i: nat, task: Task)
    requires TaskMoves(s, t, i, task)
    ensures Grows(s, t)
  {
  }

  lemma MoveKeepsRoles(s: State, t: State, i: nat, task: Task)
    requires RolesSound(s) && TaskMoves(s, t, i, task)
    ensures RolesSound(t)
  {
    hide CacheKey;
  }

  lemma OtherTasksSound(s: State, t: State, i: nat)
    requires TasksSound(s) && s.queries <= t.queries && |t.tasks| >= |s.tasks|
             && forall k :: 0 <= k < |s.tasks| && k != i ==> t.tasks[k] == s.tasks[k]
    ensures forall k :: 0 <= k < |s.tasks| && k != i ==> TaskSound(t, k)
  {
    hide TaskSound;
    forall k | 0 <= k < |s.tasks| && k != i
      ensures TaskSound(t, k)
    {
      assert TaskSound(s, k);
      TaskFrame(s, t, k);
    }
  }

  /** Waiters that did not change stay sound while no task sends. */
  lemma WaitersAlike(s: State, t: State)
    requires WaitersSound(s) && Grows(s, t) && t.waiters == s.waiters
             && forall i :: 0 <= i < |s.tasks| ==> t.tasks[i].sent == s.tasks[i].sent
    ensures WaitersSound(t)
  {
    hide WaiterSound, Grows;
    forall j | 0 <= j < |t.waiters|
      ensures WaiterSound(t, j)
    {
      assert WaiterSound(s, j);
      WaiterTaskExists(s, j);
      WaiterFrame(s, t, j);
    }
  }

  lemma UpstreamKeepsInv(s: State, t: State, i: nat, response: Option<seq<byte>>)
    requires Inv(s) && i < |s.tasks| && s.tasks[i].stage.Querying?
    requires
      var stage := if response.Some? then Answered else Failed;
      t == s.(tasks := s.tasks[i := s.tasks[i].(stage := stage, response := response)])
    ensures Inv(t)
  {
    hide EmptyResponse, CacheKey, IpRecords, WaiterSound, Settled, Legitimate, FlightsSound, CacheSound, RolesSound;
    assert TaskSound(s, i);
    FlightsFrame(s.inFlight, s.tasks, i, t.tasks[i]);
    TaskMovesFrame(s, t, i, t.tasks[i]);
  }

  lemma StoreKeepsInv(s: State, i: nat, now: nat, later: nat, done: nat, t: State)
    requires Inv(s) && i < |s.tasks| && StoreStep(s, i, now, later, done, t)
    ensures Inv(t)
  {
    hide EmptyResponse, CacheKey, IpRecords, WaiterSound, Settled, Legitimate, FlightsSound, RolesSound, PutOutcome,
         CacheSound;
    assert TaskSound(s, i);
    FlightsFrame(s.inFlight, s.tasks, i, t.tasks[i]);
    TaskMovesFrame(s, t, i, t.tasks[i]);
    if IpRecords(s.tasks[i].response.value).Some? {
      StoredSound(s, t, i, now, later, done);
    }
  }

  lemma StoredSound(s: State, t: State, i: nat, now: nat, later: nat, done: nat)
    requires CacheSound(s) && Grows(s, t) && i < |t.tasks| && t.tasks[i].response.Some?
             && IpRecords(t.tasks[i].response.value).Some?
    requires PutOutcome(s.cache, t.cache, t.tasks[i].key, t.tasks[i].response.value, now, later, done)
    requires t.putBy == s.putBy[t.tasks[i].key := i] && t.tasks[i].putAt == Some(now)
    ensures CacheSound(t)
  {
    hide IpRecords, Lifetime, PutOutcome;
    var key, response := t.tasks[i].key, t.tasks[i].response.value;
    PutKeeps(s.cache, t.cache, key, response, now, later, done);
    forall k | k in t.cache
      ensures k in t.putBy && t.putBy[k] < |t.tasks| && t.tasks[t.putBy[k]].key == k
      ensures t.tasks[t.putBy[k]].response == Some(t.cache[k].response)
      ensures t.tasks[t.putBy[k]].putAt == Some(t.cache[k].inserted)
      ensures IpRecords(t.cache[k].response).Some? && WellFormed(t.cache[k])
    {
      if k != key {
        assert k in s.cache && TaskGrows(s.tasks[s.putBy[k]], t.tasks[s.putBy[k]]);
      }
    }
  }

  lemma CompleteKeepsInv(s: State, i: nat, t: State)
    requires Inv(s) && i < |s.tasks| && Next(s, Complete(i), t)
    ensures Inv(t)
  {
    hide EmptyResponse, CacheKey, IpRecords, WaiterSound, Settled, Legitimate, FlightsSound, CacheSound, RolesSound;
    assert TaskSound(s, i);
    FlightsComplete(s.inFlight, s.tasks, i, t.tasks[i]);
    TaskMovesFrame(s, t, i, t.tasks[i]);
  }

  lemma BroadcastKeepsInv(s: State, i: nat, t: State)
    requires Inv(s) && i < |s.tasks| && BroadcastStep(s, i, t)
    ensures Inv(t)
  {
    hide EmptyResponse, CacheKey, IpRecords, WaiterSound, Settled, Legitimate, FlightsSound, CacheSound, RolesSound;
    assert TaskSound(s, i);
    FlightsFrame(s.inFlight, s.tasks, i, t.tasks[i]);
    TaskMovesFrame(s, t, i, t.tasks[i]);
    if Payload(s, i).Some? {
      forall j | 0 <= j < |t.waiters|
        ensures WaiterSound(t, j)
      {
        assert WaiterSound(s, j);
        DeliveredSound(s, i, t, j);
      }
    }
  }

  /** The message reaches a waiter exactly when it waits on the sending task. */
  lemma DeliveredSound(s: State, i: nat, t: State, j: nat)
    requires i < |s.tasks| && BroadcastStep(s, i, t) && Payload(s, i).Some? && j < |s.waiters| && WaiterSound(s, j)
    ensures |t.waiters| == |s.waiters| && WaiterSound(t, j)
  {
    hide EmptyResponse, CacheKey;
  }

  lemma ReplyOwnKeepsInv(s: State, i: nat, t: State)
    requires Inv(s) && i < |s.tasks| && ReplyOwnStep(s, i, t)
    ensures Inv(t)
  {
    ReplyOwnMoves(s, i, t);
    hide EmptyResponse, CacheKey, IpRecords, WaiterSound, FlightsSound, CacheSound, Legitimate, RolesSound, TaskSound,
         TasksSound, WaitersSound, RepliesSound, ReplyOwnStep, Grows, TaskMoves, Settled;
    FlightsFrame(s.inFlight, s.tasks, i, t.tasks[i]);
    TaskMovesFrame(s, t, i, t.tasks[i]);
    OwnReplyLegitimate(s, i, t);
    OneMoreReply(s, t, t.replies[|s.replies|]);
  }

  lemma ReplyOwnMoves(s: State, i: nat, t: State)
    requires Inv(s) && i < |s.tasks| && ReplyOwnStep(s, i, t)
    ensures TaskSound(s, i) && i < |t.tasks| && TaskMoves(s, t, i, t.tasks[i]) && TaskSound(t, i)
    ensures t.tasks == s.tasks[i := t.tasks[i]] && t.tasks[i].key == s.tasks[i].key
    ensures !InCoalescer(s.tasks[i].stage) && !InCoalescer(t.tasks[i].stage)
    ensures t.inFlight == s.inFlight && t.cache == s.cache && t.putBy == s.putBy && t.waiters == s.waiters
    ensures t.tasks[i].sent == s.tasks[i].sent && |t.replies| == |s.replies| + 1
    ensures t.replies == s.replies + [t.replies[|s.replies|]]
  {
    assert TaskSound(s, i);
    hide *;
    ReplyOwnShape(s, i, t);
    DoneSound(s, i, t);
  }

  lemma ReplyOwnShape(s: State, i: nat, t: State)
    requires i < |s.tasks| && ReplyOwnStep(s, i, t)
    ensures s.tasks[i].stage.Sent? && t.tasks == s.tasks[i := s.tasks[i].(stage := Done)]
    ensures TaskMoves(s, t, i, s.tasks[i].(stage := Done)) && t.queries == s.queries
    ensures !InCoalescer(s.tasks[i].stage) && !InCoalescer(Done)
    ensures t.inFlight == s.inFlight && t.cache == s.cache && t.putBy == s.putBy && t.waiters == s.waiters
    ensures |t.replies| == |s.replies| + 1 && t.replies == s.replies + [t.replies[|s.replies|]]
  {
  }

  lemma DoneSound(s: State, i: nat, t: State)
    requires i < |s.tasks| && TaskSound(s, i) && s.tasks[i].stage.Sent? && t.queries == s.queries
    requires t.tasks == s.tasks[i := s.tasks[i].(stage := Done)]
    ensures TaskSound(t, i)
  {
    hide EmptyResponse, CacheKey;
  }

  lemma OwnReplyLegitimate(s: State, i: nat, t: State)
    requires i < |s.tasks| && TaskSound(s, i) && RolesSound(s) && ReplyOwnStep(s, i, t)
    ensures
      var r := t.replies[|s.replies|];
      !Settled(s, r.query) && Settled(t, r.query) && Legitimate(t, r)
  {
    hide EmptyResponse, CacheKey, IpRecords;
  }

  lemma WakeKeepsInv(s: State, j: nat, t: State)
    requires Inv(s) && j < |s.waiters| && WakeStep(s, j, t)
    ensures Inv(t)
  {
    assert WaiterSound(s, j);
    WakeGrows(s, j, t);
    WakeKeepsRoles(s, j, t);
    hide EmptyResponse, CacheKey, IpRecords, FlightsSound, Legitimate, Settled, Restamp, TasksSound, WaiterSound,
         CacheSound, RepliesSound,
         Grows, RolesSound;
    TasksKept(s, t);
    forall k | 0 <= k < |t.waiters|
      ensures WaiterSound(t, k)
    {
      if k == j {
        WokenSound(s, j, t);
      } else {
        WaitersKept(s, t, k);
      }
    }
    CacheFrame(s, t);
    if s.waiters[j].mailbox.Some? {
      WokenReplies(s, j, t);
      OneMoreReply(s, t, t.replies[|s.replies|]);
    } else {
      RepliesGrow(s, t);
    }
  }

  lemma WakeKeepsRoles(s: State, j: nat, t: State)
    requires RolesSound(s) && j < |s.waiters| && WakeStep(s, j, t)
    ensures RolesSound(t)
  {
    hide Restamp, CacheKey;
  }

  lemma WakeGrows(s: State, j: nat, t: State)
    requires j < |s.waiters| && WakeStep(s, j, t)
    ensures Grows(s, t)
  {
    hide Restamp;
  }

  lemma WokenSound(s: State, j: nat, t: State)
    requires j < |s.waiters| && WaiterSound(s, j) && WakeStep(s, j, t)
    ensures WaiterSound(t, j)
  {
    hide CacheKey;
  }

  lemma WokenReplies(s: State, j: nat, t: State)
    requires j < |s.waiters| && WaiterSound(s, j) && RolesSound(s) && TasksSound(s) && WakeStep(s, j, t)
             && s.waiters[j].mailbox.Some?
    ensures |t.replies| == |s.replies| + 1
    ensures
      var r := t.replies[|s.replies|];
      !Settled(s, r.query) && Settled(t, r.query) && Legitimate(t, r)
  {
    var w := s.waiters[j];
    assert TaskSound(s, w.task);
    if s.tasks[w.task].response.None? {
      SharedServFail(s.queries[s.tasks[w.task].query].packet, s.queries[w.query].packet);
    }
    hide EmptyResponse, CacheKey, IpRecords, Restamp;
  }

  /** Restamping the SERVFAIL for one query gives the SERVFAIL for any query equal up to the transaction id. */
  lemma SharedServFail(a: seq<byte>, b: seq<byte>)
    requires |a| >= 12 && |b| >= 12 && CacheKey(a) == CacheKey(b)
    ensures EmptyResponse(a, SERVFAIL).Some? ==>
              EmptyResponse(b, SERVFAIL) == Some(Restamp(EmptyResponse(a, SERVFAIL).value, Be16At(b, 0)))
  {
    KeysAgree(a, b);
    assert |a| == |b| by {
      assert |CacheKey(a)| == |CacheKey(b)|;
    }
    assert forall i :: 2 <= i < |a| ==> a[i] == a[2..][i - 2] == b[2..][i - 2] == b[i];
    assert SameFrame(a, b);
    FrameKept(a, b);
    if EmptyResponse(a, SERVFAIL).Some? {
      EmptyResponseBytes(a, SERVFAIL);
      EmptyResponseBytes(b, SERVFAIL);
      ServFailBytes(a, b);
    }
  }

  lemma ServFailBytes(a: seq<byte>, b: seq<byte>)
    requires |a| == |b| && (forall i :: 2 <= i < |a| ==> a[i] == b[i])
    requires QuestionsEnd(a) == QuestionsEnd(b) && EmptyResponse(a, SERVFAIL).Some? && EmptyResponse(b, SERVFAIL).Some?
    ensures EmptyResponse(b, SERVFAIL).value == Restamp(EmptyResponse(a, SERVFAIL).value, Be16At(b, 0))
  {
    var end := QuestionsEnd(a).value;
    var rest := a[4..6] + [0, 0, 0, 0, 0, 0] + a[12..end];
    assert a[12..end] == b[12..end] && a[4..6] == b[4..6] && a[2] == b[2];
    ServFailFrom(a, end, rest);
    ServFailFrom(b, end, rest);
    hide *;
    RestampedFront(a[..2], ReplyFlags(a[2], SERVFAIL) + rest, b);
  }

  lemma ServFailFrom(a: seq<byte>, end: nat, rest: seq<byte>)
    requires QuestionsEnd(a) == Some(end) && EmptyResponse(a, SERVFAIL).Some? && 12 <= end <= |a|
    requires rest == a[4..6] + [0, 0, 0, 0, 0, 0] + a[12..end]
    ensures EmptyResponse(a, SERVFAIL).value == a[..2] + (ReplyFlags(a[2], SERVFAIL) + rest)
  {
    hide QuestionsEnd, ReplyFlags;
  }

  lemma RestampedFront(id: seq<byte>, rest: seq<byte>, b: seq<byte>)
    requires |id| == 2 && |b| >= 2
    ensures Restamp(id + rest, Be16At(b, 0)) == b[..2] + rest
  {
    assert PutBe16(Be16At(b, 0)) == b[..2];
    hide PutBe16, Be16At;
    assert (id + rest)[2..] == rest;
  }

  // ---------------------------------------------------------------- whole runs

  lemma StepKeepsInv(s: State, e: Event, t: State)
    requires Inv(s) && Next(s, e, t)
    ensures Inv(t)
  {
    match e
    case Receive(_, _, _, _) => ReceiveKeepsInv(s, e, t);
    case Join => JoinKeepsInv(s, t);
    case Register => RegisterKeepsInv(s, t);
    case UpstreamOk(i, response) => UpstreamKeepsInv(s, t, i, Some(response));
    case UpstreamErr(i) =>
      assert TaskSound(s, i);
      UpstreamKeepsInv(s, t, i, None);
    case Store(i, now, later, done) => StoreKeepsInv(s, i, now, later, done, t);
    case Complete(i) => CompleteKeepsInv(s, i, t);
    case Broadcast(i) => BroadcastKeepsInv(s, i, t);
    case ReplyOwn(i) => ReplyOwnKeepsInv(s, i, t);
    case Wake(j) => WakeKeepsInv(s, j, t);
  }

  lemma StartSound()
    ensures Inv(START)
  {
  }

  lemma {:induction false} RunKeepsInv(states: seq<State>, events: seq<Event>, k: nat)
    requires Run(states, events) && k < |states|
    ensures Inv(states[k])
    decreases k
  {
    hide Inv, Next;
    if k > 0 {
      RunKeepsInv(states, events, k - 1);
      StepKeepsInv(states[k - 1], events[k - 1], states[k]);
    } else {
      StartSound();
    }
  }

  /** A key in the coalescer names a task that has not sent, and no two tasks query upstream for one key. */
  lemma OneQueryPerKey(states: seq<State>, events: seq<Event>, k: nat)
    requires Run(states, events) && k < |states|
    ensures
      var s := states[k];
      && (forall key :: key in s.inFlight ==>
            s.inFlight[key] < |s.tasks| && s.tasks[s.inFlight[key]].key == key && s.tasks[s.inFlight[key]].sent.None?)
      && (forall i, j :: 0 <= i < j < |s.tasks| && s.tasks[i].stage.Querying? && s.tasks[j].stage.Querying? ==>
            s.tasks[i].key != s.tasks[j].key)
  {
    hide Run, WaitersSound, RolesSound, CacheSound, RepliesSound, CacheKey, EmptyResponse;
    RunKeepsInv(states, events, k);
    var s := states[k];
    forall key | key in s.inFlight
      ensures s.inFlight[key] < |s.tasks| && s.tasks[s.inFlight[key]].key == key && s.tasks[s.inFlight[key]].sent.None?
    {
      assert TaskSound(s, s.inFlight[key]);
    }
  }

  /** Completing a task removes its own entry only. */
  lemma CompleteRemovesOwnEntry(states: seq<State>, events: seq<Event>, k: nat, i: nat)
    requires Run(states, events) && k < |events| && events[k] == Complete(i)
    ensures
      var s, t := states[k], states[k + 1];
      && i < |s.tasks| && s.tasks[i].key in s.inFlight && s.inFlight[s.tasks[i].key] == i
      && t.inFlight.Keys == s.inFlight.Keys - {s.tasks[i].key}
      && forall key :: key in t.inFlight ==> t.inFlight[key] == s.inFlight[key]
  {
    hide TasksSound, WaitersSound, RolesSound, CacheSound, RepliesSound;
    RunKeepsInv(states, events, k);
    assert Next(states[k], events[k], states[k + 1]);
  }

  /** A waiter has exactly what its task broadcast, joined an equal query, and gives up only if no SERVFAIL could be
      built. */
  lemma NoWaiterMissesTheBroadcast(states: seq<State>, events: seq<Event>, k: nat, j: nat)
    requires Run(states, events) && k < |states| && j < |states[k].waiters|
    ensures
      var s := states[k];
      var w := s.waiters[j];
      && w.task < |s.tasks| && w.query < |s.queries| && s.tasks[w.task].query < |s.queries|
      && w.mailbox == s.tasks[w.task].sent
      && CacheKey(s.queries[w.query].packet) == CacheKey(s.queries[s.tasks[w.task].query].packet)
      && (w.stage.GaveUp? ==>
            s.tasks[w.task].response.None? && QuestionsEnd(s.queries[s.tasks[w.task].query].packet).None?)
  {
    hide Run, RolesSound, CacheSound, RepliesSound, FlightsSound, CacheKey;
    RunKeepsInv(states, events, k);
    var s := states[k];
    assert WaiterSound(s, j);
    assert TaskSound(s, s.waiters[j].task);
    EmptyResponseEchoes(s.queries[s.tasks[s.waiters[j].task].query].packet, SERVFAIL);
  }

  /** Each query gets at most one reply, sent to its own client, and its bytes are accounted for. */
  lemma AtMostOneReply(states: seq<State>, events: seq<Event>, k: nat)
    requires Run(states, events) && k < |states|
    ensures
      var s := states[k];
      && (forall i, j :: 0 <= i < j < |s.replies| ==> s.replies[i].query != s.replies[j].query)
      && (forall i :: 0 <= i < |s.replies| ==> Legitimate(s, s.replies[i]))
  {
    hide Run, RolesSound, CacheSound, TasksSound, WaitersSound, FlightsSound, Legitimate;
    RunKeepsInv(states, events, k);
  }

  /** A reply served from the cache or shared with another query has the asker's id and the very addresses upstream
      gave. */
  lemma RepliesAgreeWithUpstream(states: seq<State>, events: seq<Event>, k: nat, i: nat)
    requires Run(states, events) && k < |states| && i < |states[k].replies|
    requires states[k].replies[i].source.Shared? || states[k].replies[i].source.Cached?
    ensures
      var s := states[k];
      var r := s.replies[i];
      && r.source.task < |s.tasks| && s.tasks[r.source.task].response.Some?
      && r.query < |s.queries| && |s.queries[r.query].packet| >= 2
          && s.tasks[r.source.task].key == CacheKey(s.queries[r.query].packet)
      && var response := s.tasks[r.source.task].response.value;
      && SameFrame(response, r.packet)
      && (|response| >= 2 ==> Be16At(r.packet, 0) == Be16At(s.queries[r.query].packet, 0))
      && IpRecords(r.packet) == IpRecords(response)
      && (r.source.Cached? ==> IpRecords(r.packet).Some?)
  {
    hide Run, RolesSound, CacheSound, TasksSound, WaitersSound, FlightsSound, CacheKey, IpRecords, RewriteWalk, Restamp;
    RunKeepsInv(states, events, k);
    var s := states[k];
    var r := s.replies[i];
    assert Legitimate(s, r);
    var response := s.tasks[r.source.task].response.value;
    var age := if r.source.Shared? then 0
        else Age(NewEntry(response, s.tasks[r.source.task].putAt.value), r.source.read);
    ServedAgrees(response, r.packet, IdOf(s, r.query), age);
  }

  /** Only caching sets `putAt`, to its own instant, and only a task still querying gets a response. */
  ghost predicate TaskStep(e: Event, i: nat, a: Task, b: Task) {
    && (b.putAt == a.putAt || (e.Store? && e.task == i && b.putAt == Some(e.now) && a.stage.Answered?))
    && (b.response == a.response
        || (a.stage.Querying? && (b.response.None? || e == UpstreamOk(i, b.response.value))))
  }

  /** The main loop and the waiters change no task; a new one has cached nothing. */
  lemma OtherStepsKeepTasks(s: State, e: Event, t: State)
    requires Next(s, e, t) && (e.Receive? || e.Join? || e.Register? || e.Wake?)
    ensures s.tasks <= t.tasks
    ensures forall i :: |s.tasks| <= i < |t.tasks| ==> t.tasks[i].putAt.None? && t.tasks[i].response.None?
  {
    hide CacheKey, Served, Hit, Be16At, Restamp, PutBy;
  }

  lemma TaskStepsKeepOthers(s: State, e: Event, t: State)
    requires Next(s, e, t) && !(e.Receive? || e.Join? || e.Register? || e.Wake?)
    ensures e.task < |s.tasks| == |t.tasks| && t.tasks == s.tasks[e.task := t.tasks[e.task]]
    ensures TaskStep(e, e.task, s.tasks[e.task], t.tasks[e.task])
  {
    hide IpRecords, PutOutcome, Payload, Delivered;
  }

  lemma TaskStepHolds(s: State, e: Event, t: State, i: nat)
    requires Next(s, e, t)
    ensures |s.tasks| <= |t.tasks| && (i < |s.tasks| ==> TaskStep(e, i, s.tasks[i], t.tasks[i]))
    ensures |s.tasks| <= i < |t.tasks| ==> t.tasks[i].putAt.None? && t.tasks[i].response.None?
  {
    hide Next;
    if e.Receive? || e.Join? || e.Register? || e.Wake? {
      OtherStepsKeepTasks(s, e, t);
    } else {
      TaskStepsKeepOthers(s, e, t);
    }
  }

  /** Nothing changes `putAt` or the response afterwards. */
  lemma PutAtKept(s: State, e: Event, t: State, i: nat)
    requires Next(s, e, t) && i < |s.tasks| && TaskSound(s, i) && s.tasks[i].putAt.Some?
    ensures i < |t.tasks| && t.tasks[i].putAt == s.tasks[i].putAt && t.tasks[i].response == s.tasks[i].response
  {
    hide Next, EmptyResponse, CacheKey;
    TaskStepHolds(s, e, t, i);
  }

  lemma {:induction false} StoredBefore(states: seq<State>, events: seq<Event>, k: nat, i: nat) returns (a: nat)
    requires Run(states, events) && k < |states| && i < |states[k].tasks| && states[k].tasks[i].putAt.Some?
    ensures a < k && events[a].Store? && events[a].task == i && states[k].tasks[i].putAt == Some(events[a].now)
    decreases k
  {
    hide Inv, Next;
    RunKeepsTasks(states, events, k);
    if k > 0 {
      TaskStepHolds(states[k - 1], events[k - 1], states[k], i);
      if i < |states[k - 1].tasks| && states[k - 1].tasks[i].putAt == states[k].tasks[i].putAt {
        a := StoredBefore(states, events, k - 1, i);
      } else {
        a := k - 1;
      }
    }
  }

  lemma RunKeepsTasks(states: seq<State>, events: seq<Event>, k: nat)
    requires Run(states, events) && k < |states|
    ensures TasksSound(states[k]) && (k == 0 ==> states[k].tasks == [] && states[k].replies == [])
  {
    RunStarts(states, events);
    hide *;
    RunKeepsInv(states, events, k);
    InvTasks(states[k]);
  }

  lemma RunStarts(states: seq<State>, events: seq<Event>)
    requires Run(states, events)
    ensures states != [] && states[0].tasks == [] && states[0].replies == []
  {
    hide Next;
  }

  lemma InvTasks(s: State)
    requires Inv(s)
    ensures TasksSound(s)
  {
    hide CacheSound, TasksSound, WaitersSound, RolesSound, RepliesSound, FlightsSound;
  }

  lemma {:induction false} PutAtStays(states: seq<State>, events: seq<Event>, j: nat, k: nat, i: nat)
    requires Run(states, events) && j <= k < |states| && i < |states[j].tasks| && states[j].tasks[i].putAt.Some?
    ensures i < |states[k].tasks| && states[k].tasks[i].putAt == states[j].tasks[i].putAt
    ensures states[k].tasks[i].response == states[j].tasks[i].response
    decreases k
  {
    hide Inv, Next;
    if j < k {
      PutAtStays(states, events, j, k - 1, i);
      RunKeepsTasks(states, events, k - 1);
      assert TaskSound(states[k - 1], i);
      hide TaskSound;
      PutAtKept(states[k - 1], events[k - 1], states[k], i);
    }
  }

  /** A reply from the cache goes out in one step: the arrival of its query. */
  lemma CachedByReceive(s: State, e: Event, t: State, i: nat)
    requires Next(s, e, t)
    ensures s.replies <= t.replies
    ensures |s.replies| <= i < |t.replies| && t.replies[i].source.Cached? ==>
              e.Receive? && i == |s.replies| && t.main.Receiving? && t.replies[i].query == |s.queries|
  {
    hide EmptyResponse, CacheKey, IpRecords, PutOutcome, Served, Hit, Be16At, Restamp;
  }

  lemma {:induction false} ReceivedBefore(states: seq<State>, events: seq<Event>, k: nat, i: nat) returns (b: nat)
    requires Run(states, events) && k < |states| && i < |states[k].replies| && states[k].replies[i].source.Cached?
    ensures b < k && events[b].Receive? && i == |states[b].replies| && states[b + 1].main.Receiving?
    ensures |states[b + 1].replies| == i + 1 && states[b + 1].replies[i] == states[k].replies[i]
    ensures states[k].replies[i].query == |states[b].queries|
    decreases k
  {
    hide Inv, Next;
    RunKeepsTasks(states, events, k);
    if k > 0 {
      CachedByReceive(states[k - 1], events[k - 1], states[k], i);
      if i < |states[k - 1].replies| {
        b := ReceivedBefore(states, events, k - 1, i);
      } else {
        b := k - 1;
        OneReplyAStep(states[b], events[b], states[k]);
      }
    }
  }

  lemma OneReplyAStep(s: State, e: Event, t: State)
    requires Next(s, e, t)
    ensures |t.replies| <= |s.replies| + 1
  {
    hide EmptyResponse, CacheKey, IpRecords, PutOutcome, Served, Hit, Be16At, Restamp;
  }

  /** A cached reply was stored at one event and sent at a later one: the lifetime had not run out when that checked
      it, and its TTLs are aged by the whole seconds from the storing to the second reading of the clock. */
  lemma CachedReplyAged(states: seq<State>, events: seq<Event>, k: nat, i: nat) returns (a: nat, b: nat)
    requires Run(states, events) && k < |states| && i < |states[k].replies| && states[k].replies[i].source.Cached?
    ensures a < b < k && events[a].Store? && events[b].Receive?
    ensures
      var s := states[k];
      var r := s.replies[i];
      && r.query == |states[b].queries| < |s.queries| && |s.queries[r.query].packet| >= 2
      && events[a].task == r.source.task < |s.tasks| && s.tasks[r.source.task].response.Some?
      && var response := s.tasks[r.source.task].response.value;
      && events[b].now < events[a].now + Lifetime(response) * SECOND && events[b].now <= events[b].later
      && Served(response, r.packet, IdOf(s, r.query), SecondsBetween(events[a].now, events[b].later))
  {
    hide *;
    b := ReceivedBefore(states, events, k, i);
    NextInRun(states, events, b);
    RunKeepsInv(states, events, b);
    var task := HitFromTask(states[b], events[b], states[b + 1]);
    a := StoredBefore(states, events, b, task);
    PutAtStays(states, events, b, k, task);
    RunKeepsInv(states, events, k);
    LegitimateAged(states[k], i);
  }

  lemma NextInRun(states: seq<State>, events: seq<Event>, k: nat)
    requires Run(states, events) && k + 1 < |states|
    ensures |states| == |events| + 1 && Next(states[k], events[k], states[k + 1])
  {
  }

  lemma HitFromTask(s: State, e: Event, t: State) returns (task: nat)
    requires Inv(s) && e.Receive? && Next(s, e, t) && t.main.Receiving?
    ensures |t.replies| == |s.replies| + 1
    ensures t.replies[|s.replies|].source == Cached(task, e.now, e.later)
    ensures task < |s.tasks| && s.tasks[task].putAt.Some?
  {
    hide ReceiveStep, CacheSound, TasksSound, WaitersSound, RolesSound, RepliesSound, FlightsSound;
    HitStep(s, e, t);
    hide CacheKey, Served, Be16At, Age;
    task := PutBy(s, CacheKey(e.query.packet));
    CacheEntry(s, CacheKey(e.query.packet));
  }

  lemma LegitimateAged(s: State, i: nat)
    requires Inv(s) && i < |s.replies| && s.replies[i].source.Cached?
    ensures
      var r := s.replies[i];
      && r.query < |s.queries| && |s.queries[r.query].packet| >= 2
      && r.source.task < |s.tasks| && s.tasks[r.source.task].response.Some? && s.tasks[r.source.task].putAt.Some?
      && var response, at := s.tasks[r.source.task].response.value, s.tasks[r.source.task].putAt.value;
      && r.source.checked < at + Lifetime(response) * SECOND && r.source.checked <= r.source.read
      && Served(response, r.packet, IdOf(s, r.query), SecondsBetween(at, r.source.read))
  {
    hide CacheKey, Served, Be16At, Lifetime, SecondsBetween, IpRecords, Settled, CacheSound, TasksSound, WaitersSound,
         RolesSound, FlightsSound;
    assert Legitimate(s, s.replies[i]);
  }

  /** Every cached entry has an address record, came from a query with that key, and there are at most 10,000. */
  lemma CacheHoldsAddresses(states: seq<State>, events: seq<Event>, k: nat)
    requires Run(states, events) && k < |states|
    ensures
      var s := states[k];
      && |s.cache| <= 10_000
      && forall key :: key in s.cache ==>
           && IpRecords(s.cache[key].response).Some?
           && exists i :: 0 <= i < |s.tasks| && s.tasks[i].key == key
               && s.tasks[i].response == Some(s.cache[key].response)
  {
    hide Run, RolesSound, RepliesSound, TasksSound, WaitersSound, FlightsSound, IpRecords, WellFormed;
    RunKeepsInv(states, events, k);
  }
}
