/** Transparent UDP sessions: the dispatcher and the session tasks share one map, and interleave at their
    lock sections, queue operations and sends (src/udp.rs). Datagrams are numbered in order of arrival. */
module UdpSessions {
  import opened Bytes
  import opened Net
  import opened Socks5Framing

  datatype Flow = Flow(client: SocketAddr, dest: SocketAddr)
  datatype Datagram = Datagram(flow: Flow, payload: seq<byte>)

  /** Where a task is. `Polling`: about to poll its queue, which comes first in the biased select.
      `Waiting`: the queue had nothing and the other branches may fire. `Exited`: the receiver is gone
      but the map entry is not yet removed. */
  datatype Stage = Starting | Polling | Waiting | Sending | Exited | Removed(at: nat)

  /** `sent` lists the datagrams ever queued here, the first `taken` of which the task has received. */
  datatype Session = Session(flow: Flow, born: nat, host: Option<seq<byte>>, stage: Stage,
                             sent: seq<nat>, taken: nat, relayed: seq<seq<byte>>)

  /** `fate` says which session each datagram was queued to; None is a failed send. */
  datatype State = State(clock: nat, arrived: seq<Datagram>, fate: seq<Option<nat>>,
                         active: map<Flow, nat>, sessions: seq<Session>)

  datatype Event = Dispatch(d: Datagram) | Task(i: nat, act: Act)
  datatype Act = Start(host: Option<seq<byte>>) | FailStart | Poll | Relay(ok: bool) | Wake | Stop | Remove

  const START := State(0, [], [], map[], [])

  // ---------------------------------------------------------------- steps

  /** The task still holds its receiver, so sends to it succeed. */
  predicate Receives(stage: Stage) {
    !stage.Exited? && !stage.Removed?
  }

  predicate Listed(s: State, i: nat) {
    i < |s.sessions| && s.sessions[i].flow in s.active && s.active[s.sessions[i].flow] == i
  }

  predicate InRange(s: State) {
    forall f :: f in s.active ==> s.active[f] < |s.sessions|
  }

  function NewSession(flow: Flow, born: nat, datagram: nat): Session {
    Session(flow, born, None, Starting, [datagram], 0, [])
  }

  /** One lock section of the dispatcher. */
  function Dispatched(s: State, d: Datagram): State
    requires InRange(s)
  {
    var n := |s.arrived|;
    var heard := s.(clock := s.clock + 1, arrived := s.arrived + [d]);
    if d.flow !in s.active then
      heard.(fate := s.fate + [Some(|s.sessions|)], active := s.active[d.flow := |s.sessions|],
             sessions := s.sessions + [NewSession(d.flow, s.clock, n)])
    else
      var i := s.active[d.flow];
      if Receives(s.sessions[i].stage) then
        heard.(fate := s.fate + [Some(i)],
               sessions := s.sessions[i := s.sessions[i].(sent := s.sessions[i].sent + [n])])
      else heard.(fate := s.fate + [None], active := s.active - {d.flow})
  }

  /** What goes to the relay for a datagram. */
  function Wrapped(x: Session, payload: seq<byte>): seq<byte>
    requires ValidIp(x.flow.dest.ip)
  {
    [0, 0, 0] + Destination(x.flow.dest, x.host) + payload
  }

  predicate TakenKnown(s: State, x: Session) {
    0 < x.taken <= |x.sent| && x.sent[x.taken - 1] < |s.arrived| && ValidIp(x.flow.dest.ip)
  }

  /** The queue comes first; with nothing queued, a dropped sender ends the task. */
  function Polled(x: Session, senderAlive: bool): Session {
    if x.taken < |x.sent| then x.(stage := Sending, taken := x.taken + 1)
    else if senderAlive then x.(stage := Waiting)
    else x.(stage := Exited)
  }

  predicate CanAct(s: State, x: Session, act: Act) {
    match act
    case Start(_) => x.stage.Starting?
    case FailStart => x.stage.Starting?
    case Poll => x.stage.Polling?
    case Relay(_) => x.stage.Sending? && TakenKnown(s, x)
    case Wake => x.stage.Waiting?
    case Stop => x.stage.Waiting?
    case Remove => x.stage.Exited?
  }

  /** A session after an act of its own task. */
  function Moved(s: State, x: Session, act: Act, listed: bool): Session
    requires CanAct(s, x, act)
  {
    match act
    case Start(host) => x.(stage := Polling, host := host)
    case FailStart => x.(stage := Exited)
    case Poll => Polled(x, listed)
    case Relay(ok) =>
      if ok then x.(stage := Polling, relayed := x.relayed + [Wrapped(x, s.arrived[x.sent[x.taken - 1]].payload)])
      else x.(stage := Exited)
    case Wake => x.(stage := Polling)
    case Stop => x.(stage := Exited)
    case Remove => x.(stage := Removed(s.clock))
  }

  predicate Enabled(s: State, e: Event) {
    match e
    case Dispatch(d) => ValidIp(d.flow.dest.ip) && InRange(s)
    case Task(i, act) => i < |s.sessions| && CanAct(s, s.sessions[i], act)
  }

  /** The last act of a task removes whatever entry its key has by then. */
  function Acted(s: State, i: nat, act: Act): State
    requires i < |s.sessions| && CanAct(s, s.sessions[i], act)
  {
    s.(clock := s.clock + 1, sessions := s.sessions[i := Moved(s, s.sessions[i], act, Listed(s, i))],
       active := if act.Remove? then s.active - {s.sessions[i].flow} else s.active)
  }

  function Step(s: State, e: Event): State
    requires Enabled(s, e)
  {
    match e
    case Dispatch(d) => Dispatched(s, d)
    case Task(i, act) => Acted(s, i, act)
  }

  ghost predicate Run(states: seq<State>, events: seq<Event>) {
    && |states| == |events| + 1 && states[0] == START
    && forall k :: 0 <= k < |events| ==> Enabled(states[k], events[k]) && states[k + 1] == Step(states[k], events[k])
  }

  // ---------------------------------------------------------------- the dispatcher

  /** `clock`, `arrived` and `fate` are the history of the run, kept beside the shared map. */
  class SessionMap {
    var active: map<Flow, nat>
    var sessions: seq<Session>
    var clock: nat
    var arrived: seq<Datagram>
    var fate: seq<Option<nat>>

    function View(): State
      reads this
    {
      State(clock, arrived, fate, active, sessions)
    }

    constructor ()
      ensures View() == START
    {
      active, sessions, clock, arrived, fate := map[], [], 0, [], [];
    }

    /** Queues a datagram through a sender; fails once the receiver is gone. */
    method Send(i: nat, datagram: nat) returns (ok: bool)
      requires i < |sessions|
      modifies `sessions
      ensures ok <==> Receives(old(sessions)[i].stage)
      ensures sessions ==
              if ok then old(sessions)[i := old(sessions)[i].(sent := old(sessions)[i].sent + [datagram])]
              else old(sessions)
    {
      ok := Receives(sessions[i].stage);
      if ok {
        sessions := sessions[i := sessions[i].(sent := sessions[i].sent + [datagram])];
      }
    }

    method Dispatch(d: Datagram)
      requires InRange(View())
      modifies this
      ensures View() == Dispatched(old(View()), d)
      ensures InRange(View())
    {
      var n := |arrived|;
      arrived := arrived + [d];
      if d.flow in active {
        var i := active[d.flow];
        var ok := Send(i, n);
        if ok {
          fate := fate + [Some(i)];
        } else {
          active := active - {d.flow};
          fate := fate + [None];
        }
      } else {
        var i := |sessions|;
        sessions := sessions + [Session(d.flow, clock, None, Starting, [], 0, [])];
        var _ := Send(i, n);
        assert [] + [n] == [n];
        assert sessions == old(sessions) + [NewSession(d.flow, clock, n)];
        active := active[d.flow := i];
        fate := fate + [Some(i)];
      }
      clock := clock + 1;
    }

    /** The last lock section of task `i`. */
    method RemoveOwnKey(i: nat)
      requires Enabled(View(), Task(i, Remove))
      modifies this
      ensures View() == Step(old(View()), Task(i, Remove))
    {
      active := active - {sessions[i].flow};
      sessions := sessions[i := sessions[i].(stage := Removed(clock))];
      clock := clock + 1;
    }
  }

  // ---------------------------------------------------------------- invariants

  /** A map entry names the newest session of its flow, and that session's own removal is still to come. */
  ghost predicate ActiveSound(s: State) {
    forall f :: f in s.active ==>
      && s.active[f] < |s.sessions| && s.sessions[s.active[f]].flow == f && !s.sessions[s.active[f]].stage.Removed?
      && forall j :: s.active[f] < j < |s.sessions| ==> s.sessions[j].flow != f
  }

  ghost predicate Increasing(ns: seq<nat>) {
    forall j, k :: 0 <= j < k < |ns| ==> ns[j] < ns[k]
  }

  /** How many of the datagrams taken have been relayed: all, except one being sent or whose send failed. */
  predicate RelayedSo(x: Session) {
    if x.stage.Sending? then |x.relayed| + 1 == x.taken
    else if Receives(x.stage) then |x.relayed| == x.taken
    else x.taken <= |x.relayed| + 1
  }

  ghost predicate SessionSound(s: State, x: Session) {
    && x.born < s.clock && (x.stage.Removed? ==> x.stage.at < s.clock)
    && ValidIp(x.flow.dest.ip)
    && |x.relayed| <= x.taken <= |x.sent| && RelayedSo(x)
    && (x.stage.Starting? ==> x.taken == 0) && (x.stage.Sending? ==> x.taken > 0)
    && Increasing(x.sent)
    && (forall k :: 0 <= k < |x.sent| ==> x.sent[k] < |s.arrived| && s.arrived[x.sent[k]].flow == x.flow)
    && (forall k :: 0 <= k < |x.relayed| ==> x.relayed[k] == Wrapped(x, s.arrived[x.sent[k]].payload))
  }

  ghost predicate SessionsSound(s: State) {
    forall i :: 0 <= i < |s.sessions| ==> SessionSound(s, s.sessions[i])
  }

  /** A datagram lies in the queue history of exactly the session its fate names. */
  ghost predicate FateSound(s: State) {
    && |s.fate| == |s.arrived|
    && (forall i, k :: 0 <= i < |s.sessions| && 0 <= k < |s.sessions[i].sent| ==>
          s.sessions[i].sent[k] < |s.fate| && s.fate[s.sessions[i].sent[k]] == Some(i))
    && (forall n :: 0 <= n < |s.fate| && s.fate[n].Some? ==>
          s.fate[n].value < |s.sessions| && n in s.sessions[s.fate[n].value].sent)
  }

  /** What an older session of a flow was sent came before what a newer one was sent. */
  ghost predicate FlowsInOrder(s: State) {
    forall i, j, a, b ::
      0 <= i < j < |s.sessions| && s.sessions[i].flow == s.sessions[j].flow && 0 <= a < |s.sessions[i].sent|
          && 0 <= b < |s.sessions[j].sent| ==>
        s.sessions[i].sent[a] < s.sessions[j].sent[b]
  }

  /** An older session `j` of the same flow removed the key after session `i` was created. */
  ghost predicate LateRemovalBy(s: State, i: nat, j: nat)
    requires i < |s.sessions|
  {
    j < i && s.sessions[j].flow == s.sessions[i].flow && s.sessions[j].stage.Removed?
        && s.sessions[j].stage.at >= s.sessions[i].born
  }

  ghost predicate LateRemoval(s: State, i: nat)
    requires i < |s.sessions|
  {
    exists j :: LateRemovalBy(s, i, j)
  }

  ghost predicate DisplacedOnlyLate(s: State) {
    forall i :: 0 <= i < |s.sessions| && Receives(s.sessions[i].stage) ==> (Listed(s, i) <==> !LateRemoval(s, i))
  }

  ghost predicate Inv(s: State) {
    ActiveSound(s) && SessionsSound(s) && FateSound(s) && FlowsInOrder(s) && DisplacedOnlyLate(s)
  }
}
