/** What holds of the transparent UDP sessions over whole runs (src/udp.rs). */
module UdpSafety {
  import opened Bytes
  import opened Net
  import opened Socks5Framing
  import opened UdpSessions

  // ---------------------------------------------------------------- every step keeps the invariant

  lemma SentKeepsSound(s: State, t: State, x: Session, n: nat)
    requires SessionSound(s, x) && n == |s.arrived| && t.clock == s.clock + 1
    requires |t.arrived| == n + 1 && t.arrived[..n] == s.arrived && t.arrived[n].flow == x.flow
    ensures SessionSound(t, x.(sent := x.sent + [n]))
  {
    hide Wrapped, Destination;
    var y := x.(sent := x.sent + [n]);
    assert forall k :: 0 <= k < |x.sent| ==>
             y.sent[k] == x.sent[k] && t.arrived[..n][x.sent[k]] == s.arrived[x.sent[k]];
    assert forall k :: 0 <= k < |x.relayed| ==>
             Wrapped(y, s.arrived[x.sent[k]].payload) == Wrapped(x, s.arrived[x.sent[k]].payload) by {
      assert y.flow == x.flow && y.host == x.host;
      WrappedAlike(x, y);
    }
  }

  lemma WrappedAlike(x: Session, y: Session)
    requires x.flow == y.flow && x.host == y.host && ValidIp(x.flow.dest.ip)
    ensures forall payload :: Wrapped(x, payload) == Wrapped(y, payload)
  {
  }

  lemma OtherKeepsSound(s: State, t: State, x: Session)
    requires SessionSound(s, x) && t.clock == s.clock + 1 && s.arrived <= t.arrived
    ensures SessionSound(t, x)
  {
    hide Wrapped, Destination;
  }

  lemma DispatchKeepsSessions(s: State, d: Datagram)
    requires Inv(s) && Enabled(s, Dispatch(d))
    ensures SessionsSound(Dispatched(s, d))
  {
    hide SessionSound;
    var t := Dispatched(s, d);
    forall i | 0 <= i < |t.sessions|
      ensures SessionSound(t, t.sessions[i])
    {
      if i < |s.sessions| && t.sessions[i] == s.sessions[i] {
        OtherKeepsSound(s, t, s.sessions[i]);
      } else if i < |s.sessions| {
        SentKeepsSound(s, t, s.sessions[i], |s.arrived|);
      } else {
        NewIsSound(s, t, d);
      }
    }
  }

  lemma NewIsSound(s: State, t: State, d: Datagram)
    requires ValidIp(d.flow.dest.ip) && t.clock == s.clock + 1 && t.arrived == s.arrived + [d]
    ensures SessionSound(t, NewSession(d.flow, s.clock, |s.arrived|))
  {
  }

  lemma ActKeepsSessions(s: State, i: nat, act: Act)
    requires Inv(s) && Enabled(s, Task(i, act))
    ensures SessionsSound(Acted(s, i, act))
  {
    var t := Acted(s, i, act);
    forall j | 0 <= j < |t.sessions|
      ensures SessionSound(t, t.sessions[j])
    {
      if j != i {
        OtherKeepsSound(s, t, s.sessions[j]);
      } else {
        MovedIsSound(s, t, s.sessions[i], act, Listed(s, i));
      }
    }
  }

  lemma MovedIsSound(s: State, t: State, x: Session, act: Act, listed: bool)
    requires SessionSound(s, x) && CanAct(s, x, act) && t.clock == s.clock + 1 && t.arrived == s.arrived
    ensures SessionSound(t, Moved(s, x, act, listed))
  {
    hide Destination;
    var y := Moved(s, x, act, listed);
    if act.Start? {
      assert x.relayed == [];
    } else {
      WrappedAlike(x, y);
    }
  }

  /** What an act leaves as it was. */
  lemma ActedShape(s: State, i: nat, act: Act)
    requires Enabled(s, Task(i, act))
    ensures
      var t := Acted(s, i, act);
      && t.clock == s.clock + 1 && t.arrived == s.arrived && t.fate == s.fate && |t.sessions| == |s.sessions|
      && t.active == (if act.Remove? then s.active - {s.sessions[i].flow} else s.active)
      && (forall j :: 0 <= j < |s.sessions| && j != i ==> t.sessions[j] == s.sessions[j])
      && t.sessions[i].flow == s.sessions[i].flow && t.sessions[i].sent == s.sessions[i].sent
          && t.sessions[i].born == s.sessions[i].born
      && t.sessions[i].stage.Removed? == act.Remove? && (act.Remove? ==> t.sessions[i].stage == Removed(s.clock))
      && (!Receives(s.sessions[i].stage) ==> !Receives(t.sessions[i].stage))
      && !s.sessions[i].stage.Removed? && (act.Remove? ==> s.sessions[i].stage.Exited?)
  {
    hide Wrapped;
  }

  lemma ActKeepsActive(s: State, i: nat, act: Act)
    requires ActiveSound(s) && Enabled(s, Task(i, act))
    ensures ActiveSound(Acted(s, i, act))
  {
    ActedShape(s, i, act);
    hide Acted, Enabled;
  }

  lemma ActKeepsFate(s: State, i: nat, act: Act)
    requires FateSound(s) && Enabled(s, Task(i, act))
    ensures FateSound(Acted(s, i, act))
  {
    ActedShape(s, i, act);
    hide Acted, Enabled;
    var t := Acted(s, i, act);
    assert forall j :: 0 <= j < |s.sessions| ==> t.sessions[j].sent == s.sessions[j].sent;
  }

  lemma ActKeepsOrder(s: State, i: nat, act: Act)
    requires FlowsInOrder(s) && Enabled(s, Task(i, act))
    ensures FlowsInOrder(Acted(s, i, act))
  {
    ActedShape(s, i, act);
    hide Acted, Enabled;
    var t := Acted(s, i, act);
    assert forall j :: 0 <= j < |s.sessions| ==>
             t.sessions[j].flow == s.sessions[j].flow && t.sessions[j].sent == s.sessions[j].sent;
  }

  lemma DispatchKeepsMap(s: State, d: Datagram)
    requires ActiveSound(s) && InRange(s)
    ensures ActiveSound(Dispatched(s, d))
  {
    var t := Dispatched(s, d);
    if d.flow in s.active {
      var i := s.active[d.flow];
      assert t.active == (if Receives(s.sessions[i].stage) then s.active else s.active - {d.flow});
      assert |t.sessions| == |s.sessions|;
      assert forall j :: 0 <= j < |s.sessions| ==>
          t.sessions[j].flow == s.sessions[j].flow && t.sessions[j].stage == s.sessions[j].stage;
      hide Dispatched;
    } else {
      assert t.active == s.active[d.flow := |s.sessions|] && t.sessions == s.sessions + [t.sessions[|s.sessions|]];
      assert t.sessions[|s.sessions|].flow == d.flow && t.sessions[|s.sessions|].stage.Starting?;
      hide Dispatched;
    }
  }

  lemma DispatchKeepsFate(s: State, d: Datagram)
    requires Inv(s) && Enabled(s, Dispatch(d))
    ensures FateSound(Dispatched(s, d))
  {
    hide SessionSound, DisplacedOnlyLate, FlowsInOrder;
  }

  lemma DispatchKeepsOrder(s: State, d: Datagram)
    requires Inv(s) && Enabled(s, Dispatch(d))
    ensures FlowsInOrder(Dispatched(s, d))
  {
    hide DisplacedOnlyLate;
  }

  lemma DispatchKeepsDisplaced(s: State, d: Datagram)
    requires Inv(s) && Enabled(s, Dispatch(d))
    ensures DisplacedOnlyLate(Dispatched(s, d))
  {
    hide FateSound, FlowsInOrder;
    var t := Dispatched(s, d);
    forall i | 0 <= i < |t.sessions| && Receives(t.sessions[i].stage)
      ensures Listed(t, i) <==> !LateRemoval(t, i)
    {
      if i < |s.sessions| {
        DispatchDisplaces(s, d, i);
      }
    }
  }

  lemma DispatchDisplaces(s: State, d: Datagram, i: nat)
    requires ActiveSound(s) && Enabled(s, Dispatch(d)) && i < |s.sessions| && Receives(s.sessions[i].stage)
    requires Listed(s, i) <==> !LateRemoval(s, i)
    ensures Listed(Dispatched(s, d), i) <==> !LateRemoval(Dispatched(s, d), i)
  {
    var t := Dispatched(s, d);
    assert forall j :: 0 <= j < i ==> (LateRemovalBy(t, i, j) <==> LateRemovalBy(s, i, j));
  }

  lemma ActKeepsDisplaced(s: State, i: nat, act: Act)
    requires Inv(s) && Enabled(s, Task(i, act))
    ensures DisplacedOnlyLate(Acted(s, i, act))
  {
    hide FateSound, FlowsInOrder;
    var t := Acted(s, i, act);
    forall k | 0 <= k < |t.sessions| && Receives(t.sessions[k].stage)
      ensures Listed(t, k) <==> !LateRemoval(t, k)
    {
      assert SessionSound(s, s.sessions[k]);
      ActDisplaces(s, i, act, k);
    }
  }

  lemma ActDisplaces(s: State, i: nat, act: Act, k: nat)
    requires ActiveSound(s) && Enabled(s, Task(i, act)) && k < |s.sessions| && s.sessions[k].born < s.clock
    requires Receives(s.sessions[k].stage) ==> (Listed(s, k) <==> !LateRemoval(s, k))
    requires Receives(Acted(s, i, act).sessions[k].stage)
    ensures Listed(Acted(s, i, act), k) <==> !LateRemoval(Acted(s, i, act), k)
  {
    ActedShape(s, i, act);
    hide Acted, Enabled, ActiveSound;
    var t := Acted(s, i, act);
    assert forall j :: 0 <= j < k && LateRemovalBy(s, k, j) ==> LateRemovalBy(t, k, j);
    assert forall j :: 0 <= j < k && LateRemovalBy(t, k, j) && j != i ==> LateRemovalBy(s, k, j);
    if act.Remove? && s.sessions[k].flow == s.sessions[i].flow && Listed(s, k) {
      assert LateRemovalBy(t, k, i);
    }
  }

  lemma StepKeepsInv(s: State, e: Event)
    requires Inv(s) && Enabled(s, e)
    ensures Inv(Step(s, e))
  {
    hide ActiveSound, SessionsSound, FateSound, FlowsInOrder, DisplacedOnlyLate, Dispatched, Acted;
    match e
    case Dispatch(d) =>
      DispatchKeepsMap(s, d);
      DispatchKeepsSessions(s, d);
      DispatchKeepsFate(s, d);
      DispatchKeepsOrder(s, d);
      DispatchKeepsDisplaced(s, d);
    case Task(i, act) =>
      ActKeepsActive(s, i, act);
      ActKeepsFate(s, i, act);
      ActKeepsOrder(s, i, act);
      ActKeepsSessions(s, i, act);
      ActKeepsDisplaced(s, i, act);
  }

  lemma {:induction false} RunKeepsInv(states: seq<State>, events: seq<Event>, k: nat)
    requires Run(states, events) && k < |states|
    ensures Inv(states[k])
  {
    if k > 0 {
      RunKeepsInv(states, events, k - 1);
      StepKeepsInv(states[k - 1], events[k - 1]);
    }
  }

  // ---------------------------------------------------------------- what holds of every run

  /** Every datagram is in the queue history of exactly the session its fate names, queues keep arrival
      order within a session and across the sessions of a flow, and nothing crosses flows. */
  lemma EachDatagramOnce(states: seq<State>, events: seq<Event>, k: nat)
    requires Run(states, events) && k < |states|
    ensures
      var s := states[k];
      && |s.fate| == |s.arrived|
      && (forall n, i :: 0 <= n < |s.arrived| && 0 <= i < |s.sessions| ==>
            (n in s.sessions[i].sent <==> s.fate[n] == Some(i)))
      && (forall n :: 0 <= n < |s.arrived| && s.fate[n].Some? ==>
            s.fate[n].value < |s.sessions| && s.sessions[s.fate[n].value].flow == s.arrived[n].flow)
      && (forall i :: 0 <= i < |s.sessions| ==> Increasing(s.sessions[i].sent))
      && FlowsInOrder(s)
  {
    RunKeepsInv(states, events, k);
    var s := states[k];
    forall n | 0 <= n < |s.arrived| && s.fate[n].Some?
      ensures s.fate[n].value < |s.sessions| && s.sessions[s.fate[n].value].flow == s.arrived[n].flow
    {
      var i := s.fate[n].value;
      assert SessionSound(s, s.sessions[i]);
      var j :| 0 <= j < |s.sessions[i].sent| && s.sessions[i].sent[j] == n;
    }
    forall i | 0 <= i < |s.sessions|
      ensures Increasing(s.sessions[i].sent)
    {
      assert SessionSound(s, s.sessions[i]);
    }
  }

  /** What has been decided about earlier datagrams stands. */
  lemma {:induction false} FateStands(states: seq<State>, events: seq<Event>, a: nat, b: nat)
    requires Run(states, events) && a <= b < |states|
    ensures states[a].fate <= states[b].fate
  {
    if a < b {
      FateStands(states, events, a, b - 1);
      assert states[b] == Step(states[b - 1], events[b - 1]);
      FateGrows(states[b - 1], events[b - 1]);
    }
  }

  lemma FateGrows(s: State, e: Event)
    requires Enabled(s, e)
    ensures s.fate <= Step(s, e).fate
  {
  }

  /** A datagram is rejected exactly when its flow's map entry names a session that has exited; otherwise
      it is queued to that session, or to a new one when there is no entry. */
  lemma RejectedOnlyByExited(states: seq<State>, events: seq<Event>, k: nat, b: nat)
    requires Run(states, events) && k < b < |states| && events[k].Dispatch?
    ensures
      var s, flow := states[k], events[k].d.flow;
      var n := |s.arrived|;
      && n < |states[b].fate|
      && (flow in s.active ==> s.active[flow] < |s.sessions|)
      && states[b].fate[n] ==
           if flow !in s.active then Some(|s.sessions|)
           else if s.sessions[s.active[flow]].stage.Exited? then None
           else Some(s.active[flow])
  {
    RunKeepsInv(states, events, k);
    hide SessionsSound, FlowsInOrder, DisplacedOnlyLate;
    assert states[k + 1] == Dispatched(states[k], events[k].d);
    FateStands(states, events, k + 1, b);
  }

  /** A session that left the map never comes back and is sent nothing more. */
  lemma {:induction false} DisplacedForGood(states: seq<State>, events: seq<Event>, i: nat, a: nat, b: nat)
    requires Run(states, events) && a <= b < |states| && i < |states[a].sessions| && !Listed(states[a], i)
    ensures i < |states[b].sessions| && !Listed(states[b], i)
    ensures states[b].sessions[i].flow == states[a].sessions[i].flow
            && states[b].sessions[i].sent == states[a].sessions[i].sent
  {
    hide Listed, Step, Enabled, Inv;
    if a < b {
      DisplacedForGood(states, events, i, a, b - 1);
      assert states[b] == Step(states[b - 1], events[b - 1]);
      RunKeepsInv(states, events, b - 1);
      StaysDisplaced(states[b - 1], events[b - 1], i);
    }
  }

  lemma StaysDisplaced(s: State, e: Event, i: nat)
    requires Inv(s) && Enabled(s, e) && i < |s.sessions| && !Listed(s, i)
    ensures var t := Step(s, e);
      && i < |t.sessions| && !Listed(t, i) && t.sessions[i].flow == s.sessions[i].flow
          && t.sessions[i].sent == s.sessions[i].sent
      && (e.Dispatch? || e.i != i ==> t.sessions[i] == s.sessions[i])
  {
    hide SessionsSound, FateSound, FlowsInOrder, DisplacedOnlyLate;
  }

  /** How many acts a session that receives nothing more has left at most. */
  function Rank(x: Session): nat
    requires x.taken <= |x.sent|
  {
    var queued := |x.sent| - x.taken;
    match x.stage
    case Removed(_) => 0
    case Exited => 1
    case Polling => 2 + 2 * queued
    case Starting => 3 + 2 * queued
    case Waiting => 3 + 2 * queued
    case Sending => 3 + 2 * queued
  }

  function OwnActs(events: seq<Event>, i: nat): nat {
    if events == [] then 0
    else OwnActs(events[..|events| - 1], i) + if events[|events| - 1].Task? && events[|events| - 1].i == i then 1 else 0
  }

  /** A task whose relay sends all succeed has relayed every datagram it took. */
  lemma NothingTakenIsSkipped(states: seq<State>, events: seq<Event>, k: nat, i: nat)
    requires Run(states, events) && k < |states| && i < |states[k].sessions|
    ensures
      var x := states[k].sessions[i];
      && x.taken <= |x.sent|
      && (x.stage.Polling? || x.stage.Waiting? ==> |x.relayed| == x.taken)
      && x.taken <= |x.relayed| + 1
  {
    RunKeepsInv(states, events, k);
    assert SessionSound(states[k], states[k].sessions[i]);
  }

  /** A displaced session takes at most `Rank` more acts: it drains its queue, and then stops. */
  lemma {:induction false} DisplacedStops(states: seq<State>, events: seq<Event>, i: nat, a: nat, b: nat)
    requires Run(states, events) && a <= b < |states| && i < |states[a].sessions| && !Listed(states[a], i)
    ensures i < |states[b].sessions|
    ensures states[a].sessions[i].taken <= |states[a].sessions[i].sent|
            && states[b].sessions[i].taken <= |states[b].sessions[i].sent|
    ensures OwnActs(events[a..b], i) + Rank(states[b].sessions[i]) <= Rank(states[a].sessions[i])
  {
    hide Inv, Step, Enabled, Rank, Listed, OwnActs;
    NothingTakenIsSkipped(states, events, a, i);
    if a == b {
      NoActs(events, i, a);
    } else {
      DisplacedStops(states, events, i, a, b - 1);
      DisplacedForGood(states, events, i, a, b - 1);
      RunKeepsInv(states, events, b - 1);
      RankFalls(states[b - 1], events[b - 1], i);
      OneMoreAct(events, i, a, b);
    }
  }

  lemma NoActs(events: seq<Event>, i: nat, a: nat)
    requires a <= |events|
    ensures OwnActs(events[a..a], i) == 0
  {
  }

  lemma OneMoreAct(events: seq<Event>, i: nat, a: nat, b: nat)
    requires a < b <= |events|
    ensures OwnActs(events[a..b], i) ==
            OwnActs(events[a..b - 1], i) + if events[b - 1].Task? && events[b - 1].i == i then 1 else 0
  {
    assert events[a..b][..b - a - 1] == events[a..b - 1];
  }

  lemma RankFalls(s: State, e: Event, i: nat)
    requires Inv(s) && Enabled(s, e) && i < |s.sessions| && !Listed(s, i)
    ensures var t := Step(s, e);
      && i < |t.sessions| && s.sessions[i].taken <= |s.sessions[i].sent| && t.sessions[i].taken <= |t.sessions[i].sent|
      && Rank(t.sessions[i]) + (if e.Task? && e.i == i then 1 else 0) <= Rank(s.sessions[i])
  {
    StaysDisplaced(s, e, i);
    assert SessionSound(s, s.sessions[i]);
    hide Inv, Dispatched, Wrapped, Increasing, ActiveSound;
    if e.Task? && e.i == i {
      assert Step(s, e).sessions[i] == Moved(s, s.sessions[i], e.act, false);
      MovedRank(s, s.sessions[i], e.act);
    }
  }

  lemma MovedRank(s: State, x: Session, act: Act)
    requires CanAct(s, x, act) && x.taken <= |x.sent|
    ensures Moved(s, x, act, false).taken <= |x.sent| && Moved(s, x, act, false).sent == x.sent
    ensures Rank(Moved(s, x, act, false)) < Rank(x)
  {
    hide Wrapped;
  }

  /** A session's task can act exactly until it has removed its key. */
  lemma CanStep(states: seq<State>, events: seq<Event>, k: nat, i: nat)
    requires Run(states, events) && k < |states| && i < |states[k].sessions|
    ensures (exists act :: Enabled(states[k], Task(i, act))) <==> !states[k].sessions[i].stage.Removed?
  {
    RunKeepsInv(states, events, k);
    var s := states[k];
    assert SessionSound(s, s.sessions[i]);
    hide Run, Inv;
    match s.sessions[i].stage
    case Starting => assert Enabled(s, Task(i, FailStart));
    case Polling => assert Enabled(s, Task(i, Poll));
    case Waiting => assert Enabled(s, Task(i, Wake));
    case Sending => assert Enabled(s, Task(i, Relay(true)));
    case Exited => assert Enabled(s, Task(i, Remove));
    case Removed(_) =>
  }

  /** A session whose task still receives is out of the map exactly when an older session of the same flow
      ran its removal after this one was created. */
  lemma DisplacedExactly(states: seq<State>, events: seq<Event>, k: nat, i: nat)
    requires Run(states, events) && k < |states| && i < |states[k].sessions| && Receives(states[k].sessions[i].stage)
    ensures !Listed(states[k], i) <==> LateRemoval(states[k], i)
  {
    RunKeepsInv(states, events, k);
  }

  /** That does happen: the removal of an exited session can displace a live successor with data queued. */
  lemma LateRemovalHappens(flow: Flow, payload: seq<byte>) returns (states: seq<State>, events: seq<Event>)
    requires ValidIp(flow.dest.ip)
    ensures Run(states, events)
    ensures var s := states[|states| - 1];
      |s.sessions| == 2 && s.sessions[1].stage.Starting? && s.sessions[1].sent == [2] && !Listed(s, 1)
  {
    var d := Dispatch(Datagram(flow, payload));
    var s1 := Step(START, d);
    var s2 := Step(s1, Task(0, FailStart));
    var s3 := Step(s2, d);
    var s4 := Step(s3, d);
    var s5 := Step(s4, Task(0, Remove));
    states, events := [START, s1, s2, s3, s4, s5], [d, Task(0, FailStart), d, d, Task(0, Remove)];
  }

  /** The packets a session relays carry, in order, the payloads of the first datagrams queued to it, and the
      proxy's own decoder recovers destination and payload when the destination is numeric. */
  lemma RelayedInOrder(states: seq<State>, events: seq<Event>, k: nat, i: nat, j: nat)
    requires Run(states, events) && k < |states| && i < |states[k].sessions| && j < |states[k].sessions[i].relayed|
    ensures
      var s, x := states[k], states[k].sessions[i];
      && j < |x.sent| && x.sent[j] < |s.arrived| && s.arrived[x.sent[j]].flow == x.flow
      && PayloadOffset(x.relayed[j]).Some?
      && x.relayed[j][PayloadOffset(x.relayed[j]).value..] == s.arrived[x.sent[j]].payload
      && ParseUdpHeader(x.relayed[j]) ==
           (if x.host.Some? && DottedLabels(x.host.value) then None
            else Some((x.flow.dest, |x.relayed[j]| - |s.arrived[x.sent[j]].payload|)))
      && [0, 0, 0] <= x.relayed[j]
      && var read := ReadRequestAddr(x.relayed[j][3..]);
      && read.Some? && read.value.1 == s.arrived[x.sent[j]].payload
      && read.value.0 == if x.host.Some? && DottedLabels(x.host.value) then Domain(x.host.value, x.flow.dest.port)
                         else Numeric(x.flow.dest)
  {
    RunKeepsInv(states, events, k);
    var s, x := states[k], states[k].sessions[i];
    assert SessionSound(s, x);
    var payload := s.arrived[x.sent[j]].payload;
    assert ValidIp(x.flow.dest.ip) && x.relayed[j] == [0, 0, 0] + Destination(x.flow.dest, x.host) + payload;
    UsableIsDotted(x.host);
    hide *;
    WrappedRead(x.flow.dest, x.host, payload);
    PayloadFound(x.flow.dest, x.host, payload);
    UdpRoundTrip(x.flow.dest, x.host, payload);
  }

  /** A decoder that knows names reads the name when it is usable, the address otherwise, and the payload after it. */
  lemma WrappedRead(dest: SocketAddr, host: Option<seq<byte>>, payload: seq<byte>)
    requires ValidIp(dest.ip)
    ensures
      var pkt := [0, 0, 0] + Destination(dest, host) + payload;
      && [0, 0, 0] <= pkt
      && var read := ReadRequestAddr(pkt[3..]);
      && read.Some? && read.value.1 == payload
      && read.value.0 == if host.Some? && DottedLabels(host.value) then Domain(host.value, dest.port)
                         else Numeric(dest)
  {
    RequestRoundTrip(dest, host, payload);
    TargetExactly(dest, host);
    hide *;
    AfterPrefix(Destination(dest, host), payload);
  }

  lemma AfterPrefix(d: seq<byte>, payload: seq<byte>)
    ensures [0, 0, 0] <= [0, 0, 0] + d + payload && ([0, 0, 0] + d + payload)[3..] == d + payload
  {
  }

  /** The task got past its start: it is at work, or it has relayed something. */
  predicate Began(x: Session) {
    x.stage.Polling? || x.stage.Waiting? || x.stage.Sending? || x.relayed != []
  }

  lemma HostKept(s: State, e: Event, i: nat)
    requires Enabled(s, e) && i < |Step(s, e).sessions| && Began(Step(s, e).sessions[i])
    ensures
      var t := Step(s, e);
      if e.Task? && e.i == i && e.act.Start? then t.sessions[i].host == e.act.host
      else i < |s.sessions| && Began(s.sessions[i]) && t.sessions[i].host == s.sessions[i].host
  {
    hide Wrapped, Listed;
  }

  /** The name a session relays under is the one it looked up when it started. */
  lemma {:induction false} HostFromStart(states: seq<State>, events: seq<Event>, k: nat, i: nat) returns (a: nat)
    requires Run(states, events) && k < |states| && i < |states[k].sessions| && Began(states[k].sessions[i])
    ensures a < k && a < |events| && events[a] == Task(i, Start(states[k].sessions[i].host))
    decreases k
  {
    hide Step, Enabled, Began;
    if k > 0 {
      HostKept(states[k - 1], events[k - 1], i);
      var e := events[k - 1];
      if e.Task? && e.i == i && e.act.Start? {
        a := k - 1;
      } else {
        a := HostFromStart(states, events, k - 1, i);
      }
    }
  }

  /** What one datagram does: queued last to the session its flow has; lost if that has exited, which clears the flow
      for
      the next datagram; or the first of a session of its own. */
  lemma DispatchOutcome(states: seq<State>, events: seq<Event>, k: nat)
    requires Run(states, events) && k + 1 < |states| && events[k].Dispatch?
    ensures
      var s, t, f, n := states[k], states[k + 1], events[k].d.flow, |states[k].arrived|;
      && |t.arrived| == |t.fate| == n + 1 && t.arrived[n] == events[k].d
      && (f !in s.active ==> t.fate[n] == Some(|s.sessions|) && |t.sessions| == |s.sessions| + 1
                             && t.sessions[|s.sessions|].flow == f && t.sessions[|s.sessions|].sent == [n])
      && (f in s.active ==> s.active[f] < |s.sessions| && t.active.Keys <= s.active.Keys
                            && |t.sessions| == |s.sessions|
                            && (t.fate[n].None? <==> !Receives(s.sessions[s.active[f]].stage))
                            && (t.fate[n].Some? ==>
                                  t.fate[n] == Some(s.active[f])
                                  && t.sessions[s.active[f]].sent == s.sessions[s.active[f]].sent + [n]))
      && (if t.fate[n].Some? then f in t.active && t.active[f] == t.fate[n].value else f !in t.active)
      && (forall g :: g != f ==> (g in t.active <==> g in s.active))
  {
    RunKeepsInv(states, events, k);
    assert states[k + 1] == Step(states[k], events[k]) && Enabled(states[k], events[k]);
    hide Run, ActiveSound, SessionsSound, FlowsInOrder, DisplacedOnlyLate;
  }

  /** A session stops receiving exactly when its set-up fails, a send to the relay fails, the proxy closes the control
      connection or the flow goes idle, or its queue is empty and it is out of the map. */
  lemma EndsExactly(states: seq<State>, events: seq<Event>, k: nat, i: nat)
    requires Run(states, events) && k + 1 < |states| && i < |states[k].sessions|
             && Receives(states[k].sessions[i].stage)
    ensures i < |states[k + 1].sessions|
    ensures !Receives(states[k + 1].sessions[i].stage) <==>
            && events[k].Task? && events[k].i == i
            && var act, x := events[k].act, states[k].sessions[i];
            || act.FailStart? || act == Relay(false) || act.Stop?
            || (act.Poll? && x.taken >= |x.sent| && !Listed(states[k], i))
  {
    assert states[k + 1] == Step(states[k], events[k]) && Enabled(states[k], events[k]);
    hide Run, Wrapped, Listed;
  }
}
