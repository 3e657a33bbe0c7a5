/** The DNS-over-HTTPS forwarder gets done: it is never stuck, and once it is at rest every query has its reply. */
module DohProgress {
  import opened Bytes
  import opened DnsWire
  import opened DnsRewrite
  import opened DnsMessage
  import opened DnsQuery
  import opened DnsCache
  import opened Eviction
  import opened DohForwarder
  import opened DohSafety

  // ---------------------------------------------------------------- whoever is done has replied

  ghost predicate HasReply(s: State, q: nat) {
    exists i :: 0 <= i < |s.replies| && s.replies[i].query == q
  }

  /** A query is still with the main loop, or with a task or waiter that is not done, or it has its reply; only a task
      that had nothing to send, and those who waited for it, end without one. */
  ghost predicate Attended(s: State, q: nat)
    requires q < |s.roles|
  {
    match s.roles[q]
    case AtMain => !s.main.Receiving? && s.main.query == q
    case HitCache => HasReply(s, q)
    case Owner(i) =>
      i < |s.tasks| && s.tasks[i].query == q && (s.tasks[i].stage.Done? && s.tasks[i].sent.Some? ==> HasReply(s, q))
    case Joined(j) =>
      j < |s.waiters| && s.waiters[j].query == q && (s.waiters[j].stage.Replied? ==> HasReply(s, q))
  }

  ghost predicate AllAttended(s: State) {
    forall q :: 0 <= q < |s.roles| ==> Attended(s, q)
  }

  lemma HasReplyStays(s: State, t: State, q: nat)
    requires s.replies <= t.replies && HasReply(s, q)
    ensures HasReply(t, q)
  {
    var i :| 0 <= i < |s.replies| && s.replies[i].query == q;
    assert t.replies[i].query == q;
  }

  lemma LastReply(s: State, r: Reply, q: nat)
    requires s.replies != [] && s.replies[|s.replies| - 1] == r && r.query == q
    ensures HasReply(s, q)
  {
  }

  lemma ReceiveAttends(s: State, e: Event, t: State)
    requires RolesSound(s) && AllAttended(s) && e.Receive? && Next(s, e, t)
    ensures AllAttended(t)
  {
    ReceiveRoles(s, e, t);
    if t.main.Receiving? {
      LastReply(t, t.replies[|s.replies|], |s.queries|);
    }
    hide Next, HasReply, RolesSound;
    forall q | 0 <= q < |t.roles|
      ensures Attended(t, q)
    {
      if q < |s.roles| {
        assert Attended(s, q);
        if HasReply(s, q) {
          HasReplyStays(s, t, q);
        }
      }
    }
  }

  lemma ReceiveRoles(s: State, e: Event, t: State)
    requires RolesSound(s) && e.Receive? && Next(s, e, t)
    ensures s.main.Receiving? && t.tasks == s.tasks && t.waiters == s.waiters && |s.roles| == |s.queries|
    ensures if t.main.Receiving? then
              && t.roles == s.roles + [HitCache] && |t.replies| == |s.replies| + 1 && s.replies <= t.replies
              && t.replies[|s.replies|].query == |s.queries|
            else t.roles == s.roles + [AtMain] && t.main == Missed(|s.queries|) && t.replies == s.replies
  {
    hide CacheKey, Served, Hit, Be16At, PutBy, Age;
  }

  lemma MainStepAttends(s: State, e: Event, t: State)
    requires RolesSound(s) && AllAttended(s) && Next(s, e, t) && (e.Join? || e.Register?)
    ensures AllAttended(t)
  {
    hide CacheKey, HasReply;
    forall q | 0 <= q < |t.roles|
      ensures Attended(t, q)
    {
      assert Attended(s, q);
      if HasReply(s, q) {
        HasReplyStays(s, t, q);
      }
    }
  }

  lemma TaskStepAttends(s: State, e: Event, t: State)
    requires TasksSound(s) && AllAttended(s) && Next(s, e, t)
    requires e.UpstreamOk? || e.UpstreamErr? || e.Store? || e.Complete? || e.Broadcast? || e.ReplyOwn?
    ensures AllAttended(t)
  {
    TaskStepsKeepOthers(s, e, t);
    TaskStepTask(s, e, t);
    TaskStepMain(s, e, t);
    TaskStepWaiters(s, e, t);
    hide Next, HasReply, TasksSound, TaskStep, Attended;
    forall q | 0 <= q < |t.roles|
      ensures Attended(t, q)
    {
      assert Attended(s, q);
      StillAttended(s, t, e.task, q);
    }
  }

  lemma StillAttended(s: State, t: State, i: nat, q: nat)
    requires q < |s.roles| && Attended(s, q) && t.roles == s.roles && t.main == s.main && s.replies <= t.replies
    requires SameStages(s.waiters, t.waiters) && i < |s.tasks| == |t.tasks| && t.tasks == s.tasks[i := t.tasks[i]]
    requires
      var task := t.tasks[i];
      task.query == s.tasks[i].query && (task.stage.Done? && task.sent.Some? ==> HasReply(t, task.query))
    ensures Attended(t, q)
  {
    if HasReply(s, q) {
      HasReplyStays(s, t, q);
    }
    hide HasReply;
  }

  predicate SameStages(before: seq<Waiter>, after: seq<Waiter>) {
    && |after| == |before|
    && forall j :: 0 <= j < |before| ==> after[j].query == before[j].query && after[j].stage == before[j].stage
  }

  lemma TaskStepMain(s: State, e: Event, t: State)
    requires Next(s, e, t)
    requires e.UpstreamOk? || e.UpstreamErr? || e.Store? || e.Complete? || e.Broadcast? || e.ReplyOwn?
    ensures t.roles == s.roles && t.main == s.main && s.replies <= t.replies
  {
    hide IpRecords, PutOutcome, Payload, Delivered;
  }

  lemma TaskStepWaiters(s: State, e: Event, t: State)
    requires Next(s, e, t)
    requires e.UpstreamOk? || e.UpstreamErr? || e.Store? || e.Complete? || e.Broadcast? || e.ReplyOwn?
    ensures SameStages(s.waiters, t.waiters)
  {
    hide IpRecords, PutOutcome, Payload;
  }

  lemma TaskStepTask(s: State, e: Event, t: State)
    requires TasksSound(s) && Next(s, e, t)
    requires e.UpstreamOk? || e.UpstreamErr? || e.Store? || e.Complete? || e.Broadcast? || e.ReplyOwn?
    requires e.task < |s.tasks| == |t.tasks|
    ensures
      var task := t.tasks[e.task];
      task.query == s.tasks[e.task].query && (task.stage.Done? && task.sent.Some? ==> HasReply(t, task.query))
  {
    assert TaskSound(s, e.task);
    hide CacheKey, IpRecords, PutOutcome, Payload, Delivered, TasksSound;
    if e.ReplyOwn? {
      LastReply(t, t.replies[|s.replies|], s.tasks[e.task].query);
    }
  }

  lemma WakeAttends(s: State, j: nat, t: State)
    requires AllAttended(s) && Next(s, Wake(j), t)
    ensures AllAttended(t)
  {
    hide Restamp, Be16At, HasReply;
    var w := s.waiters[j];
    if w.mailbox.Some? {
      LastReply(t, t.replies[|s.replies|], w.query);
    }
    assert t.roles == s.roles && t.main == s.main && t.tasks == s.tasks && |t.waiters| == |s.waiters|;
    assert t.waiters[j].query == w.query && (t.waiters[j].stage.Replied? ==> HasReply(t, w.query));
    assert forall i :: 0 <= i < |s.waiters| && i != j ==> t.waiters[i] == s.waiters[i];
    hide Next, WakeStep;
    forall q | 0 <= q < |t.roles|
      ensures Attended(t, q)
    {
      assert Attended(s, q);
      if HasReply(s, q) {
        HasReplyStays(s, t, q);
      }
    }
  }

  lemma StartAttended()
    ensures AllAttended(START)
  {
  }

  lemma {:induction false} RunAttends(states: seq<State>, events: seq<Event>, k: nat)
    requires Run(states, events) && k < |states|
    ensures AllAttended(states[k])
    decreases k
  {
    hide Next, AllAttended, Inv;
    if k == 0 {
      StartAttended();
    } else {
      var e := events[k - 1];
      RunAttends(states, events, k - 1);
      RunKeepsInv(states, events, k - 1);
      InvRoles(states[k - 1]);
      if e.Receive? {
        ReceiveAttends(states[k - 1], e, states[k]);
      } else if e.Join? || e.Register? {
        MainStepAttends(states[k - 1], e, states[k]);
      } else if e.Wake? {
        WakeAttends(states[k - 1], e.waiter, states[k]);
      } else {
        TaskStepAttends(states[k - 1], e, states[k]);
      }
    }
  }

  lemma InvRoles(s: State)
    requires Inv(s)
    ensures RolesSound(s) && TasksSound(s) && WaitersSound(s)
  {
    hide FlightsSound, TasksSound, WaitersSound, RolesSound, CacheSound, RepliesSound;
  }

  // ---------------------------------------------------------------- at rest

  /** The main loop waits for a query, and no task or waiter has anything left to do. */
  ghost predicate AtRest(s: State) {
    && s.main.Receiving?
    && (forall i :: 0 <= i < |s.tasks| ==> s.tasks[i].stage.Done?)
    && (forall j :: 0 <= j < |s.waiters| ==> !s.waiters[j].stage.Waiting?)
  }

  /** At rest every query has its reply, except that one for which upstream failed has none when its question section
      cannot be walked, so that no SERVFAIL can be built. */
  lemma EveryQueryAnswered(states: seq<State>, events: seq<Event>, k: nat, q: nat)
    requires Run(states, events) && k < |states| && AtRest(states[k]) && q < |states[k].queries|
    ensures HasReply(states[k], q) || QuestionsEnd(states[k].queries[q].packet).None?
  {
    var s := states[k];
    RunKeepsInv(states, events, k);
    RunAttends(states, events, k);
    InvRoles(s);
    hide Run, Inv, CacheKey, QuestionsEnd, HasReply, EmptyResponse;
    assert Attended(s, q);
    match s.roles[q]
    case AtMain =>
    case HitCache =>
    case Owner(i) =>
      assert TaskSound(s, i);
      EmptyResponseEchoes(s.queries[q].packet, SERVFAIL);
    case Joined(j) =>
      if s.waiters[j].stage.GaveUp? {
        hide TaskSound, Attended, AllAttended, RolesSound, TasksSound, WaitersSound, AtRest;
        NoWaiterMissesTheBroadcast(states, events, k, j);
        SameQuestions(s.queries[q].packet, s.queries[s.tasks[s.waiters[j].task].query].packet);
      }
  }

  lemma SameQuestions(a: seq<byte>, b: seq<byte>)
    requires |a| >= 12 && |b| >= 2 && CacheKey(a) == CacheKey(b)
    ensures QuestionsEnd(a) == QuestionsEnd(b)
  {
    assert |CacheKey(a)| == |a| && |CacheKey(b)| == |b|;
    KeysAgree(a, b);
    assert forall i :: 2 <= i < |a| ==> a[i] == a[2..][i - 2] == b[2..][i - 2] == b[i];
    FrameKept(a, b);
  }

  // ---------------------------------------------------------------- it gets there

  function StageWork(stage: TaskStage): nat {
    match stage
    case Querying => 6
    case Answered => 5
    case Failed => 4
    case Stored => 4
    case Removed => 3
    case Sent => 2
    case Done => 0
  }

  function TaskWork(tasks: seq<Task>): nat {
    if tasks == [] then 0 else TaskWork(tasks[..|tasks| - 1]) + StageWork(tasks[|tasks| - 1].stage)
  }

  function WaiterWork(waiters: seq<Waiter>): nat {
    if waiters == [] then 0
    else WaiterWork(waiters[..|waiters| - 1]) + if waiters[|waiters| - 1].stage.Waiting? then 1 else 0
  }

  function MainWork(main: MainLoop): nat {
    match main
    case Receiving => 0
    case Missed(_) => 8
    case Alone(_) => 7
  }

  /** A bound on the steps left. */
  function Work(s: State): nat {
    MainWork(s.main) + TaskWork(s.tasks) + WaiterWork(s.waiters)
  }

  lemma {:induction false} TaskWorkUpdate(tasks: seq<Task>, i: nat, task: Task)
    requires i < |tasks|
    ensures TaskWork(tasks[i := task]) + StageWork(tasks[i].stage) == TaskWork(tasks) + StageWork(task.stage)
  {
    hide StageWork;
    var n := |tasks| - 1;
    var changed := tasks[i := task];
    if i < n {
      assert changed[..n] == tasks[..n][i := task] && changed[n] == tasks[n];
      TaskWorkUpdate(tasks[..n], i, task);
    } else {
      assert changed[..n] == tasks[..n];
    }
  }

  lemma {:induction false} WaiterWorkUpdate(waiters: seq<Waiter>, j: nat, waiter: Waiter)
    requires j < |waiters| && waiters[j].stage.Waiting? && !waiter.stage.Waiting?
    ensures WaiterWork(waiters[j := waiter]) + 1 == WaiterWork(waiters)
  {
    var n := |waiters| - 1;
    var changed := waiters[j := waiter];
    if j < n {
      assert changed[..n] == waiters[..n][j := waiter] && changed[n] == waiters[n];
      WaiterWorkUpdate(waiters[..n], j, waiter);
    } else {
      assert changed[..n] == waiters[..n];
    }
  }

  lemma {:induction false} DeliveredWork(waiters: seq<Waiter>, i: nat, payload: seq<byte>)
    ensures WaiterWork(Delivered(waiters, i, payload)) == WaiterWork(waiters)
  {
    if waiters != [] {
      var n := |waiters| - 1;
      assert Delivered(waiters, i, payload)[..n] == Delivered(waiters[..n], i, payload);
      DeliveredWork(waiters[..n], i, payload);
    }
  }

  lemma OneMoreTask(tasks: seq<Task>, task: Task)
    ensures TaskWork(tasks + [task]) == TaskWork(tasks) + StageWork(task.stage)
  {
    assert (tasks + [task])[..|tasks|] == tasks;
  }

  lemma OneMoreWaiter(waiters: seq<Waiter>, waiter: Waiter)
    requires waiter.stage.Waiting?
    ensures WaiterWork(waiters + [waiter]) == WaiterWork(waiters) + 1
  {
    assert (waiters + [waiter])[..|waiters|] == waiters;
  }

  lemma MainWorkFalls(s: State, e: Event, t: State)
    requires (e.Join? || e.Register?) && Next(s, e, t)
    ensures Work(t) < Work(s)
  {
    hide CacheKey, TaskWork, WaiterWork;
    if e.Register? {
      OneMoreTask(s.tasks, t.tasks[|s.tasks|]);
    } else if |t.waiters| > |s.waiters| {
      OneMoreWaiter(s.waiters, t.waiters[|s.waiters|]);
    }
  }

  lemma TaskWorkFalls(s: State, e: Event, t: State)
    requires Next(s, e, t)
    requires e.UpstreamOk? || e.UpstreamErr? || e.Store? || e.Complete? || e.Broadcast? || e.ReplyOwn?
    ensures Work(t) < Work(s)
  {
    TaskStepsKeepOthers(s, e, t);
    TaskStepMain(s, e, t);
    WaitersKeepWork(s, e, t);
    StageFalls(s, e, t);
    hide Next, TaskWork, WaiterWork, StageWork, TaskStep;
    TaskWorkUpdate(s.tasks, e.task, t.tasks[e.task]);
  }

  lemma StageFalls(s: State, e: Event, t: State)
    requires Next(s, e, t)
    requires e.UpstreamOk? || e.UpstreamErr? || e.Store? || e.Complete? || e.Broadcast? || e.ReplyOwn?
    requires e.task < |s.tasks| == |t.tasks|
    ensures StageWork(t.tasks[e.task].stage) < StageWork(s.tasks[e.task].stage)
  {
    hide IpRecords, PutOutcome, Delivered, Payload, StageWork;
    var before, after := s.tasks[e.task].stage, t.tasks[e.task].stage;
    assert if before.Querying? then after.Answered? || after.Failed?
           else if before.Answered? then after.Stored?
           else if before.Stored? || before.Failed? then after.Removed?
           else if before.Removed? then after.Sent? || after.Done?
           else before.Sent? && after.Done?;
    StagesFall(before, after);
  }

  lemma StagesFall(before: TaskStage, after: TaskStage)
    requires if before.Querying? then after.Answered? || after.Failed?
             else if before.Answered? then after.Stored?
             else if before.Stored? || before.Failed? then after.Removed?
             else if before.Removed? then after.Sent? || after.Done?
             else before.Sent? && after.Done?
    ensures StageWork(after) < StageWork(before)
  {
  }

  lemma WaitersKeepWork(s: State, e: Event, t: State)
    requires Next(s, e, t)
    requires e.UpstreamOk? || e.UpstreamErr? || e.Store? || e.Complete? || e.Broadcast? || e.ReplyOwn?
    ensures WaiterWork(t.waiters) == WaiterWork(s.waiters)
  {
    hide IpRecords, PutOutcome, WaiterWork, Delivered, Payload;
    if e.Broadcast? && Payload(s, e.task).Some? {
      DeliveredWork(s.waiters, e.task, Payload(s, e.task).value);
    }
  }

  lemma WakeWorkFalls(s: State, j: nat, t: State)
    requires Next(s, Wake(j), t)
    ensures Work(t) < Work(s)
  {
    hide Restamp, Be16At, TaskWork, WaiterWork;
    WaiterWorkUpdate(s.waiters, j, t.waiters[j]);
  }

  /** Every step but the arrival of a query uses up work. */
  lemma WorkFalls(s: State, e: Event, t: State)
    requires !e.Receive? && Next(s, e, t)
    ensures Work(t) < Work(s)
  {
    hide Next, Work;
    if e.Join? || e.Register? {
      MainWorkFalls(s, e, t);
    } else if e.Wake? {
      WakeWorkFalls(s, e.waiter, t);
    } else {
      TaskWorkFalls(s, e, t);
    }
  }

  /** Between arrivals only so many steps can be taken. */
  lemma {:induction false} StepsBounded(states: seq<State>, events: seq<Event>, a: nat, b: nat)
    requires Run(states, events) && a <= b < |states| && forall k :: a <= k < b ==> !events[k].Receive?
    ensures b - a + Work(states[b]) <= Work(states[a])
    decreases b
  {
    hide Next, Work;
    if a < b {
      StepsBounded(states, events, a, b - 1);
      WorkFalls(states[b - 1], events[b - 1], states[b]);
    }
  }

  // ---------------------------------------------------------------- it is never stuck

  ghost predicate CanMove(s: State) {
    exists e: Event, t :: !e.Receive? && Next(s, e, t)
  }

  lemma RoomCanBeMade<K, V>(m: map<K, V>, live: set<K>) returns (n: map<K, V>)
    ensures RoomMade(m, n, live)
  {
    n := m;
    if |n| >= MAX_CACHE_ENTRIES {
      n := Restrict(n, live);
      if |n| >= MAX_CACHE_ENTRIES {
        var part := SubsetOfSize(n.Keys, MAX_CACHE_ENTRIES / 2);
        CardinalityOfPart(part, n.Keys);
        RestrictSize(n, n.Keys - part);
        assert n.Keys * (n.Keys - part) == n.Keys - part;
        n := Restrict(n, n.Keys - part);
      }
    }
  }

  lemma CanStore(s: State, i: nat)
    requires i < |s.tasks| && s.tasks[i].stage.Answered? && s.tasks[i].response.Some?
    ensures CanMove(s)
  {
    var task := s.tasks[i];
    var cache := PutCanBe(s.cache, task.key, task.response.value);
    hide IpRecords, PutOutcome, CanMove;
    var t := s.(tasks := s.tasks[i := task.(stage := Stored)]);
    if IpRecords(task.response.value).Some? {
      t := s.(tasks := s.tasks[i := task.(stage := Stored, putAt := Some(0))], cache := cache,
              putBy := s.putBy[task.key := i]);
    }
    Moves(s, Store(i, 0, 0, 0), t);
  }

  lemma PutCanBe(cache: map<seq<byte>, Entry>, key: seq<byte>, response: seq<byte>)
    returns (after: map<seq<byte>, Entry>)
    ensures PutOutcome(cache, after, key, response, 0, 0, 0)
  {
    var room := RoomCanBeMade(cache, Unexpired(cache, 0));
    hide RoomMade, NewEntry;
    after := room[key := NewEntry(response, 0)];
    assert Swept(cache, Unexpired(cache, 0), 0, 0);
  }

  lemma TaskCanMove(s: State, i: nat)
    requires i < |s.tasks| && TaskSound(s, i) && !s.tasks[i].stage.Done?
    ensures CanMove(s)
  {
    hide CacheKey, IpRecords, PutOutcome, EmptyResponse, CanMove;
    var task := s.tasks[i];
    match task.stage
    case Querying => Moves(s, UpstreamErr(i), s.(tasks := s.tasks[i := task.(stage := Failed)]));
    case Answered => CanStore(s, i);
    case Failed => CanComplete(s, i);
    case Stored => CanComplete(s, i);
    case Removed =>
      var t := match Payload(s, i)
        case None => s.(tasks := s.tasks[i := task.(stage := Done)])
        case Some(p) => s.(tasks := s.tasks[i := task.(stage := Sent, sent := Some(p))],
                           waiters := Delivered(s.waiters, i, p));
      Moves(s, Broadcast(i), t);
    case Sent =>
      var source := if task.response.Some? then Upstream(i) else ServFail;
      var reply := Reply(task.query, s.queries[task.query].client, task.sent.value, source);
      Moves(s, ReplyOwn(i), s.(tasks := s.tasks[i := task.(stage := Done)], replies := s.replies + [reply]));
  }

  lemma CanComplete(s: State, i: nat)
    requires i < |s.tasks| && (s.tasks[i].stage.Stored? || s.tasks[i].stage.Failed?)
    ensures CanMove(s)
  {
    assert Next(s, Complete(i), s.(tasks := s.tasks[i := s.tasks[i].(stage := Removed)],
                                   inFlight := s.inFlight - {s.tasks[i].key}));
  }

  lemma Moves(s: State, e: Event, t: State)
    requires !e.Receive? && Next(s, e, t)
    ensures CanMove(s)
  {
    hide Next;
  }

  lemma MainCanMove(s: State)
    requires RolesSound(s) && !s.main.Receiving?
    ensures CanMove(s)
  {
    hide CacheKey, CanMove;
    var q := s.main.query;
    var key := KeyOf(s, q);
    if s.main.Alone? {
      Moves(s, Register, s.(main := Receiving, roles := s.roles[q := Owner(|s.tasks|)],
                            inFlight := s.inFlight[key := |s.tasks|],
                            tasks := s.tasks + [Task(key, q, Querying, None, None, None)]));
    } else if key in s.inFlight {
      Moves(s, Join, s.(main := Receiving, roles := s.roles[q := Joined(|s.waiters|)],
                        waiters := s.waiters + [Waiter(q, s.inFlight[key], None, Waiting)]));
    } else {
      Moves(s, Join, s.(main := Alone(q)));
    }
  }

  lemma WaiterCanMove(s: State, j: nat)
    requires RolesSound(s) && TasksSound(s) && j < |s.waiters| && WaiterSound(s, j) && s.waiters[j].stage.Waiting?
    ensures CanMove(s)
  {
    hide CacheKey, CanMove, Restamp, Be16At, EmptyResponse;
    var w := s.waiters[j];
    if w.mailbox.Some? {
      var source := if s.tasks[w.task].response.Some? then Shared(w.task) else ServFail;
      var reply := Reply(w.query, s.queries[w.query].client, Restamp(w.mailbox.value, IdOf(s, w.query)), source);
      Moves(s, Wake(j), s.(waiters := s.waiters[j := w.(stage := Replied)], replies := s.replies + [reply]));
    } else if s.tasks[w.task].stage.Done? {
      Moves(s, Wake(j), s.(waiters := s.waiters[j := w.(stage := GaveUp)]));
    } else {
      assert TaskSound(s, w.task);
      hide TaskSound;
      TaskCanMove(s, w.task);
    }
  }

  /** In every run, unless it is at rest, the forwarder has a step to take that waits for no query. */
  lemma NeverStuck(states: seq<State>, events: seq<Event>, k: nat)
    requires Run(states, events) && k < |states|
    ensures AtRest(states[k]) || CanMove(states[k])
  {
    var s := states[k];
    RunKeepsInv(states, events, k);
    InvRoles(s);
    hide Run, Inv, RolesSound, CanMove, TaskSound, WaiterSound;
    if !s.main.Receiving? {
      MainCanMove(s);
    } else if i :| 0 <= i < |s.tasks| && !s.tasks[i].stage.Done? {
      assert TaskSound(s, i);
      TaskCanMove(s, i);
    } else if j :| 0 <= j < |s.waiters| && s.waiters[j].stage.Waiting? {
      assert WaiterSound(s, j);
      WaiterCanMove(s, j);
    }
  }

  // ---------------------------------------------------------------- where things come from

  lemma QueriesStep(s: State, e: Event, t: State)
    requires Next(s, e, t)
    ensures t.queries == if e.Receive? then s.queries + [e.query] else s.queries
  {
    hide CacheKey, Served, Hit, Be16At, IpRecords, PutOutcome, Payload, Restamp, PutBy;
  }

  /** Every query is one that arrived, with its client. */
  lemma {:induction false} QueryReceived(states: seq<State>, events: seq<Event>, k: nat, q: nat) returns (a: nat)
    requires Run(states, events) && k < |states| && q < |states[k].queries|
    ensures a < k && a < |events| && events[a].Receive? && events[a].query == states[k].queries[q]
    ensures |states[a].queries| == q
    decreases k
  {
    hide Next;
    if k > 0 {
      QueriesStep(states[k - 1], events[k - 1], states[k]);
      if q < |states[k - 1].queries| {
        a := QueryReceived(states, events, k - 1, q);
      } else {
        a := k - 1;
      }
    }
  }

  /** Every response is one that upstream gave to that task. */
  lemma {:induction false} ResponseReceived(states: seq<State>, events: seq<Event>, k: nat, i: nat) returns (a: nat)
    requires Run(states, events) && k < |states| && i < |states[k].tasks| && states[k].tasks[i].response.Some?
    ensures a < k && a < |events| && events[a] == UpstreamOk(i, states[k].tasks[i].response.value)
    decreases k
  {
    hide Next;
    if k > 0 {
      TaskStepHolds(states[k - 1], events[k - 1], states[k], i);
      if events[k - 1] == UpstreamOk(i, states[k].tasks[i].response.value) {
        a := k - 1;
      } else {
        a := ResponseReceived(states, events, k - 1, i);
      }
    }
  }

  /** A SERVFAIL goes to a query that cannot be answered: its id and questions, the code 2, and no record. */
  lemma ServFailReplies(states: seq<State>, events: seq<Event>, k: nat, i: nat)
    requires Run(states, events) && k < |states| && i < |states[k].replies| && states[k].replies[i].source.ServFail?
    ensures
      var s := states[k];
      var r := s.replies[i];
      && r.query < |s.queries| && |s.queries[r.query].packet| >= 12 && |r.packet| >= 12
      && var query := s.queries[r.query].packet;
      && r.packet[..2] == query[..2] && RepliesWith(query, r.packet, 2)
      && |r.packet| <= |query| && r.packet[12..] == query[12..|r.packet|]
      && RecordCount(r.packet) == 0
  {
    assert SERVFAIL % 16 == 2;
    hide *;
    RunKeepsInv(states, events, k);
    ServFailLegitimate(states[k], i);
    EmptyResponseEchoes(states[k].queries[states[k].replies[i].query].packet, SERVFAIL);
    EmptyResponseBytes(states[k].queries[states[k].replies[i].query].packet, SERVFAIL);
  }

  lemma ServFailLegitimate(s: State, i: nat)
    requires Inv(s) && i < |s.replies| && s.replies[i].source.ServFail?
    ensures
      var r := s.replies[i];
      && r.query < |s.queries| && |s.queries[r.query].packet| >= 12
      && EmptyResponse(s.queries[r.query].packet, SERVFAIL) == Some(r.packet)
  {
    hide FlightsSound, TasksSound, WaitersSound, RolesSound, CacheSound, EmptyResponse, Settled;
    assert Legitimate(s, s.replies[i]);
  }

  /** A response with an address, once stored, is what the next query for it gets, while its lifetime runs. */
  lemma StoredThenHit(states: seq<State>, events: seq<Event>, k: nat)
    requires Run(states, events) && k + 2 < |states| && events[k].Store? && events[k + 1].Receive?
    requires
      var s, i := states[k], events[k].task;
      && i < |s.tasks| && s.tasks[i].response.Some? && IpRecords(s.tasks[i].response.value).Some?
      && CacheKey(events[k + 1].query.packet) == s.tasks[i].key
      && events[k + 1].now < events[k].now + Lifetime(s.tasks[i].response.value) * 1_000_000_000
    ensures
      var t, n := states[k + 2], |states[k + 1].replies|;
      && |t.replies| == n + 1 && t.replies[n].query == |states[k + 1].queries|
      && t.replies[n].source == Cached(events[k].task, events[k + 1].now, events[k + 1].later)
      && t.tasks == states[k + 1].tasks
  {
    RunKeepsInv(states, events, k);
    var e := events[k];
    NextInRun(states, events, k);
    StoredEntry(states[k], e.task, e.now, e.later, e.done, states[k + 1]);
    NextInRun(states, events, k + 1);
    hide Run, Inv, CacheKey, Served, Be16At, IpRecords, Lifetime;
  }

  lemma StoredEntry(s: State, i: nat, now: nat, later: nat, done: nat, t: State)
    requires Inv(s) && Next(s, Store(i, now, later, done), t)
    requires i < |s.tasks| && s.tasks[i].response.Some? && IpRecords(s.tasks[i].response.value).Some?
    ensures
      var key, response := s.tasks[i].key, s.tasks[i].response.value;
      && key in t.cache && t.cache[key] == NewEntry(response, now) && PutBy(t, key) == i
  {
    CacheBounded(s);
    StorePuts(s, i, now, later, done, t);
    hide Inv, Next, IpRecords, PutOutcome, NewEntry;
    PutKeeps(s.cache, t.cache, s.tasks[i].key, s.tasks[i].response.value, now, later, done);
  }

  lemma StorePuts(s: State, i: nat, now: nat, later: nat, done: nat, t: State)
    requires Next(s, Store(i, now, later, done), t)
    requires i < |s.tasks| && s.tasks[i].response.Some? && IpRecords(s.tasks[i].response.value).Some?
    ensures PutOutcome(s.cache, t.cache, s.tasks[i].key, s.tasks[i].response.value, now, later, done)
    ensures t.putBy == s.putBy[s.tasks[i].key := i]
  {
    hide IpRecords, PutOutcome;
  }

  lemma CacheBounded(s: State)
    requires Inv(s)
    ensures |s.cache| <= MAX_CACHE_ENTRIES
  {
    hide FlightsSound, TasksSound, WaitersSound, RolesSound, RepliesSound, IpRecords, WellFormed;
  }
}
