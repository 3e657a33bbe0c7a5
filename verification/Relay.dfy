/** The bidirectional relay with half-close and a grace deadline (src/proxy.rs, `relay_with_shutdown`). */
module Relay {
  import opened Bytes
  import opened TcpStream
  import opened HttpConnect

  /** Which ready branch the select takes. Reads deliver at least one byte unless the peer has closed;
      a failing write may have delivered part of the chunk first. */
  datatype Choice =
    | FromClient(n: nat, now: nat)
    | FromServer(n: nat, now: nat)
    | Timer(now: nat)
    | ClientReadFails
    | ServerReadFails
    | ToServerFails(n: nat, delivered: nat)
    | ToClientFails(n: nat, delivered: nat)

  datatype End = Finished(clientBytes: nat, serverBytes: nat) | Failed | Running

  /** One direction: what has gone through, whether it reached its end, and whether the far side was shut down. */
  datatype Direction = Direction(delivered: seq<byte>, counted: nat, eof: bool, shut: bool)

  datatype State = State(up: Direction, down: Direction, timer: Option<nat>, fired: bool, failed: bool)

  /** The two byte streams and the parameters of one relay. */
  datatype Setting = Setting(clientInput: seq<byte>, serverInput: seq<byte>, bufSize: nat, gracePeriod: nat)

  const IDLE := Direction([], 0, false, false)
  const START := State(IDLE, IDLE, None, false, false)

  // ---------------------------------------------------------------- specification

  /** The next chunk a read of up to `bufSize` bytes returns; empty means end of stream. */
  function Chunk(input: seq<byte>, d: Direction, n: nat, bufSize: nat): seq<byte>
    requires |d.delivered| <= |input|
  {
    var left := input[|d.delivered|..];
    left[..Min(Max(n, 1), Min(bufSize, |left|))]
  }

  /** A direction has delivered a prefix of its input, counted it unless a write failed midway, and is shut once
      ended. */
  predicate Faithful(input: seq<byte>, d: Direction, failed: bool) {
    d.delivered <= input && (!failed ==> d.counted == |d.delivered|) && (d.eof ==> d.shut)
  }

  predicate Sound(x: Setting, s: State) {
    Faithful(x.clientInput, s.up, s.failed) && Faithful(x.serverInput, s.down, s.failed)
  }

  predicate Over(s: State) {
    s.failed || (s.up.eof && s.down.eof)
  }

  function Ended(d: Direction): Direction {
    d.(eof := true, shut := true)
  }

  function Passed(d: Direction, chunk: seq<byte>): Direction {
    d.(delivered := d.delivered + chunk, counted := d.counted + |chunk|)
  }

  /** The first end of stream sets the deadline. */
  function Armed(timer: Option<nat>, otherEof: bool, deadline: nat): Option<nat> {
    if !otherEof && timer.None? then Some(deadline) else timer
  }

  function Partly(d: Direction, chunk: seq<byte>, n: nat): Direction {
    d.(delivered := d.delivered + chunk[..Min(n, |chunk|)])
  }

  function Next(x: Setting, s: State, choice: Choice): State
    requires Sound(x, s)
  {
    if Over(s) then s
    else match choice
      case FromClient(n, now) =>
        if s.up.eof then s
        else
          var chunk := Chunk(x.clientInput, s.up, n, x.bufSize);
          if chunk == [] then s.(up := Ended(s.up), timer := Armed(s.timer, s.down.eof, now + x.gracePeriod))
          else s.(up := Passed(s.up, chunk))
      case FromServer(n, now) =>
        if s.down.eof then s
        else
          var chunk := Chunk(x.serverInput, s.down, n, x.bufSize);
          if chunk == [] then s.(down := Ended(s.down), timer := Armed(s.timer, s.up.eof, now + x.gracePeriod))
          else s.(down := Passed(s.down, chunk))
      case Timer(now) =>
        if s.timer.Some? && now >= s.timer.value then s.(up := Ended(s.up), down := Ended(s.down), fired := true) else s
      case ClientReadFails => if s.up.eof then s else s.(failed := true)
      case ServerReadFails => if s.down.eof then s else s.(failed := true)
      case ToServerFails(n, delivered) =>
        if s.up.eof then s
        else
          var chunk := Chunk(x.clientInput, s.up, n, x.bufSize);
          if chunk == [] then s else s.(up := Partly(s.up, chunk, delivered), failed := true)
      case ToClientFails(n, delivered) =>
        if s.down.eof then s
        else
          var chunk := Chunk(x.serverInput, s.down, n, x.bufSize);
          if chunk == [] then s else s.(down := Partly(s.down, chunk, delivered), failed := true)
  }

  /** The state after a schedule. In order and without loss or invention, whatever happens. */
  function After(x: Setting, schedule: seq<Choice>): (s: State)
    ensures Sound(x, s)
  {
    if schedule == [] then START
    else
      var before := After(x, schedule[..|schedule| - 1]);
      NextIsSound(x, before, schedule[|schedule| - 1]);
      Next(x, before, schedule[|schedule| - 1])
  }

  lemma NextIsSound(x: Setting, s: State, choice: Choice)
    requires Sound(x, s)
    ensures Sound(x, Next(x, s, choice))
  {
  }

  // ---------------------------------------------------------------- the loop

  /** The loop over an arbitrary schedule of ready branches; disabled branches are never taken. */
  method RelayWithShutdown(x: Setting, schedule: seq<Choice>)
    returns (end: End, up: Direction, down: Direction, timer: Option<nat>, fired: bool)
    ensures
      var s := After(x, schedule);
      && up == s.up && down == s.down && timer == s.timer && fired == s.fired
      && end == if s.failed then Failed else if Over(s) then Finished(|s.up.delivered|, |s.down.delivered|) else Running
  {
    AfterNone(x, schedule);
    hide After;
    up, down, timer, fired := IDLE, IDLE, None, false;
    var i := 0;
    while i < |schedule|
      invariant 0 <= i <= |schedule|
      invariant After(x, schedule[..i]) == State(up, down, timer, fired, false)
    {
      if up.eof && down.eof {
        break;
      }
      AfterOne(x, schedule, i);
      match schedule[i] {
        case FromClient(n, now) =>
          if !up.eof {
            var chunk := Chunk(x.clientInput, up, n, x.bufSize);
            if chunk == [] {
              up := up.(eof := true);
              if !down.eof && timer.None? {
                timer := Some(now + x.gracePeriod);
              }
              up := up.(shut := true);
            } else {
              up := up.(delivered := up.delivered + chunk, counted := up.counted + |chunk|);
            }
          }
        case FromServer(n, now) =>
          if !down.eof {
            var chunk := Chunk(x.serverInput, down, n, x.bufSize);
            if chunk == [] {
              down := down.(eof := true);
              if !up.eof && timer.None? {
                timer := Some(now + x.gracePeriod);
              }
              down := down.(shut := true);
            } else {
              down := down.(delivered := down.delivered + chunk, counted := down.counted + |chunk|);
            }
          }
        case Timer(now) =>
          if timer.Some? && now >= timer.value {
            fired := true;
            if !up.eof {
              up := up.(shut := true, eof := true);
            }
            if !down.eof {
              down := down.(shut := true, eof := true);
            }
          }
        case ClientReadFails =>
          if !up.eof {
            StaysOver(x, schedule, i + 1);
            return Failed, up, down, timer, fired;
          }
        case ServerReadFails =>
          if !down.eof {
            StaysOver(x, schedule, i + 1);
            return Failed, up, down, timer, fired;
          }
        case ToServerFails(n, delivered) =>
          if !up.eof {
            var chunk := Chunk(x.clientInput, up, n, x.bufSize);
            if chunk != [] {
              up := up.(delivered := up.delivered + chunk[..Min(delivered, |chunk|)]);
              StaysOver(x, schedule, i + 1);
              return Failed, up, down, timer, fired;
            }
          }
        case ToClientFails(n, delivered) =>
          if !down.eof {
            var chunk := Chunk(x.serverInput, down, n, x.bufSize);
            if chunk != [] {
              down := down.(delivered := down.delivered + chunk[..Min(delivered, |chunk|)]);
              StaysOver(x, schedule, i + 1);
              return Failed, up, down, timer, fired;
            }
          }
      }
      i := i + 1;
    }
    StaysOver(x, schedule, i);
    CountsExact(x, schedule);
    end := if up.eof && down.eof then Finished(up.counted, down.counted) else Running;
  }

  lemma AfterNone(x: Setting, schedule: seq<Choice>)
    ensures After(x, schedule[..0]) == START
  {
  }

  lemma AfterOne(x: Setting, schedule: seq<Choice>, i: nat)
    requires i < |schedule|
    ensures Sound(x, After(x, schedule[..i])) && |After(x, schedule[..i]).up.delivered| <= |x.clientInput|
            && |After(x, schedule[..i]).down.delivered| <= |x.serverInput|
    ensures After(x, schedule[..i + 1]) == Next(x, After(x, schedule[..i]), schedule[i])
  {
    assert schedule[..i + 1][..i] == schedule[..i];
  }

  lemma CountsExact(x: Setting, schedule: seq<Choice>)
    ensures var s := After(x, schedule); !s.failed ==>
              s.up.counted == |s.up.delivered| && s.down.counted == |s.down.delivered|
  {
  }

  lemma {:induction false} StaysOver(x: Setting, schedule: seq<Choice>, i: nat)
    requires i <= |schedule|
    ensures Over(After(x, schedule[..i])) || i == |schedule| ==> After(x, schedule) == After(x, schedule[..i])
    decreases |schedule|
  {
    if i == |schedule| {
      assert schedule[..i] == schedule;
    } else {
      var front := schedule[..|schedule| - 1];
      assert front[..i] == schedule[..i];
      StaysOver(x, front, i);
    }
  }

  // ---------------------------------------------------------------- every schedule

  /** What holds at every moment: one side ended without the other means a running timer, and before the
      timer fires a side that ended has delivered everything. */
  ghost predicate Balanced(x: Setting, s: State) {
    && (s.timer.Some? <==> s.up.eof || s.down.eof)
    && (s.up.eof && !s.fired ==> s.up.delivered == x.clientInput)
    && (s.down.eof && !s.fired ==> s.down.delivered == x.serverInput)
    && (s.fired ==> s.up.eof && s.down.eof)
    && (s.up.eof || s.down.eof ==> s.up.delivered == x.clientInput || s.down.delivered == x.serverInput)
  }

  lemma {:induction false} AlwaysBalanced(x: Setting, schedule: seq<Choice>)
    requires x.bufSize > 0
    ensures Balanced(x, After(x, schedule))
  {
    if schedule != [] {
      var front := schedule[..|schedule| - 1];
      AlwaysBalanced(x, front);
      NextBalanced(x, After(x, front), schedule[|schedule| - 1]);
    }
  }

  lemma NextBalanced(x: Setting, s: State, choice: Choice)
    requires x.bufSize > 0 && Sound(x, s) && Balanced(x, s)
    ensures Balanced(x, Next(x, s, choice))
  {
  }

  /** A normal end has both directions ended and shut down and reports the exact counts; each output is a prefix of
      its input, the whole of it when the timer did not fire, and at least one of them whole in any case. */
  lemma NormalEndConserves(x: Setting, schedule: seq<Choice>)
    requires x.bufSize > 0
    ensures
      var s := After(x, schedule);
      && s.up.delivered <= x.clientInput && s.down.delivered <= x.serverInput
      && (!s.failed ==> s.up.counted == |s.up.delivered| && s.down.counted == |s.down.delivered|)
      && (Over(s) && !s.failed ==>
            && s.up.shut && s.down.shut
            && (s.up.delivered == x.clientInput || s.down.delivered == x.serverInput)
            && (!s.fired ==> s.up.delivered == x.clientInput && s.down.delivered == x.serverInput))
      && (s.up.eof != s.down.eof ==> s.timer.Some?)
  {
    AlwaysBalanced(x, schedule);
  }

  /** The deadline is the grace period after the first end of stream: it appears with that step's own instant. */
  lemma DeadlineFromFirstEnd(x: Setting, schedule: seq<Choice>, k: nat)
    requires x.bufSize > 0 && k < |schedule|
    requires var s := After(x, schedule[..k]); !s.up.eof && !s.down.eof
    requires var t := After(x, schedule[..k + 1]); t.up.eof || t.down.eof
    ensures
      var t := After(x, schedule[..k + 1]);
      && (if t.up.eof then schedule[k].FromClient? else schedule[k].FromServer?)
      && t.timer == Some(schedule[k].now + x.gracePeriod)
  {
    AlwaysBalanced(x, schedule[..k]);
    assert schedule[..k + 1][..k] == schedule[..k];
  }

  /** Once set it never moves. */
  lemma {:induction false} DeadlineNeverMoves(x: Setting, schedule: seq<Choice>, i: nat, j: nat)
    requires i <= j <= |schedule| && After(x, schedule[..i]).timer.Some?
    ensures After(x, schedule[..j]).timer == After(x, schedule[..i]).timer
    decreases j
  {
    hide After, Next, Sound;
    if i < j {
      DeadlineNeverMoves(x, schedule, i, j - 1);
      AfterOne(x, schedule, j - 1);
      TimerKept(x, After(x, schedule[..j - 1]), schedule[j - 1]);
    }
  }

  lemma {:induction false} FirstEndBefore(x: Setting, schedule: seq<Choice>, n: nat) returns (a: nat)
    requires n <= |schedule| && var s := After(x, schedule[..n]); s.up.eof || s.down.eof
    ensures a < n
    ensures var s := After(x, schedule[..a]); !s.up.eof && !s.down.eof
    ensures var t := After(x, schedule[..a + 1]); t.up.eof || t.down.eof
  {
    hide Next, Sound;
    if n > 0 {
      var s := After(x, schedule[..n - 1]);
      if s.up.eof || s.down.eof {
        a := FirstEndBefore(x, schedule, n - 1);
      } else {
        a := n - 1;
      }
    }
  }

  lemma {:induction false} FiringStep(x: Setting, schedule: seq<Choice>, n: nat) returns (b: nat)
    requires n <= |schedule| && After(x, schedule[..n]).fired
    ensures b < n && !After(x, schedule[..b]).fired && schedule[b].Timer?
    ensures var s := After(x, schedule[..b]); s.timer.Some? && s.timer.value <= schedule[b].now
  {
    AfterNone(x, schedule);
    hide After, Next, Sound, Chunk, Faithful;
    if n > 0 {
      AfterOne(x, schedule, n - 1);
      if After(x, schedule[..n - 1]).fired {
        b := FiringStep(x, schedule, n - 1);
      } else {
        b := n - 1;
        OnlyTimerFires(x, After(x, schedule[..b]), schedule[b]);
      }
    } else {
      assert false;
    }
  }

  lemma OnlyTimerFires(x: Setting, s: State, choice: Choice)
    requires Sound(x, s) && !s.fired && Next(x, s, choice).fired
    ensures choice.Timer? && s.timer.Some? && s.timer.value <= choice.now
  {
    hide Chunk, Armed;
  }

  /** When the timer has fired, one side had ended before, and the grace period had passed since the instant at which
      the first one did. */
  lemma FiresAfterDeadline(x: Setting, schedule: seq<Choice>) returns (a: nat, b: nat)
    requires x.bufSize > 0 && After(x, schedule).fired
    ensures a < b < |schedule| && schedule[b].Timer? && !After(x, schedule[..b]).fired
    ensures var s := After(x, schedule[..a]); !s.up.eof && !s.down.eof
    ensures var t := After(x, schedule[..a + 1]); t.up.eof || t.down.eof
    ensures (schedule[a].FromClient? || schedule[a].FromServer?)
            && schedule[a].now + x.gracePeriod <= schedule[b].now
  {
    hide After, Sound, Next;
    assert schedule[..|schedule|] == schedule;
    b := FiringStep(x, schedule, |schedule|);
    AlwaysBalanced(x, schedule[..b]);
    a := FirstEndBefore(x, schedule, b);
    DeadlineFromFirstEnd(x, schedule, a);
    DeadlineNeverMoves(x, schedule, a + 1, b);
  }

  /** The grace deadline holds: with one side ended, the timer ends the relay normally exactly when the grace period
      has passed since then, and does nothing before. */
  lemma DeadlineMet(x: Setting, schedule: seq<Choice>, a: nat, now: nat)
    requires x.bufSize > 0 && a < |schedule|
    requires var s := After(x, schedule[..a]); !s.up.eof && !s.down.eof
    requires var t := After(x, schedule[..a + 1]); t.up.eof || t.down.eof
    requires var s := After(x, schedule); !s.failed && !(s.up.eof && s.down.eof)
    ensures schedule[a].FromClient? || schedule[a].FromServer?
    ensures
      var s, t := After(x, schedule), After(x, schedule + [Timer(now)]);
      if now >= schedule[a].now + x.gracePeriod then
        && t.up.eof && t.up.shut && t.down.eof && t.down.shut && t.fired && !t.failed
        && t.up.delivered == s.up.delivered && t.down.delivered == s.down.delivered && t.timer == s.timer
      else t == s
  {
    hide After, Next, Sound;
    assert schedule[..|schedule|] == schedule;
    DeadlineFromFirstEnd(x, schedule, a);
    DeadlineNeverMoves(x, schedule, a + 1, |schedule|);
    TimerStep(x, schedule, now);
  }

  lemma TimerStep(x: Setting, schedule: seq<Choice>, now: nat)
    requires var s := After(x, schedule); s.timer.Some? && !s.failed && !(s.up.eof && s.down.eof)
    ensures
      var s, t := After(x, schedule), After(x, schedule + [Timer(now)]);
      if now >= s.timer.value then
        && t.up.eof && t.up.shut && t.down.eof && t.down.shut && t.fired && !t.failed
        && t.up.delivered == s.up.delivered && t.down.delivered == s.down.delivered && t.timer == s.timer
      else t == s
  {
    assert (schedule + [Timer(now)])[..|schedule|] == schedule;
  }

  /** A read that fails on a side still open, or a write of bytes that were there, fails the relay, for good and with
      no side shut down by it; a write has passed on some first part of its chunk. */
  lemma FailureIsFinal(x: Setting, schedule: seq<Choice>, choice: Choice, later: seq<Choice>)
    requires x.bufSize > 0 && var s := After(x, schedule); !s.failed && !(s.up.eof && s.down.eof)
    requires
      var s := After(x, schedule);
      || (choice.ClientReadFails? && !s.up.eof)
      || (choice.ServerReadFails? && !s.down.eof)
      || (choice.ToServerFails? && !s.up.eof && s.up.delivered != x.clientInput)
      || (choice.ToClientFails? && !s.down.eof && s.down.delivered != x.serverInput)
    ensures
      var s, t := After(x, schedule), After(x, schedule + [choice] + later);
      && t.failed && t.up.eof == s.up.eof && t.down.eof == s.down.eof && t.up.shut == s.up.shut
      && t.down.shut == s.down.shut && s.up.delivered <= t.up.delivered && s.down.delivered <= t.down.delivered
      && (!choice.ToServerFails? ==> t.up == s.up) && (!choice.ToClientFails? ==> t.down == s.down)
  {
    var whole, n := schedule + [choice] + later, |schedule|;
    assert whole[..n] == schedule && whole[..n + 1] == schedule + [choice] && whole[n] == choice;
    AfterOne(x, whole, n);
    hide After;
    FailureStep(x, After(x, schedule), choice);
    StaysOver(x, whole, n + 1);
  }

  lemma FailureStep(x: Setting, s: State, choice: Choice)
    requires x.bufSize > 0 && Sound(x, s) && !s.failed && !(s.up.eof && s.down.eof)
    requires || (choice.ClientReadFails? && !s.up.eof)
             || (choice.ServerReadFails? && !s.down.eof)
             || (choice.ToServerFails? && !s.up.eof && s.up.delivered != x.clientInput)
             || (choice.ToClientFails? && !s.down.eof && s.down.delivered != x.serverInput)
    ensures
      var t := Next(x, s, choice);
      && t.failed && t.up.eof == s.up.eof && t.down.eof == s.down.eof && t.up.shut == s.up.shut
      && t.down.shut == s.down.shut && s.up.delivered <= t.up.delivered && s.down.delivered <= t.down.delivered
      && (!choice.ToServerFails? ==> t.up == s.up) && (!choice.ToClientFails? ==> t.down == s.down)
  {
  }

  function ClientReads(schedule: seq<Choice>): nat {
    if schedule == [] then 0
    else ClientReads(schedule[..|schedule| - 1]) + if schedule[|schedule| - 1].FromClient? then 1 else 0
  }

  function ServerReads(schedule: seq<Choice>): nat {
    if schedule == [] then 0
    else ServerReads(schedule[..|schedule| - 1]) + if schedule[|schedule| - 1].FromServer? then 1 else 0
  }

  predicate ReadsOnly(schedule: seq<Choice>) {
    forall k :: 0 <= k < |schedule| ==> schedule[k].FromClient? || schedule[k].FromServer?
  }

  /** Every read delivers at least a byte until its side has ended. */
  lemma {:induction false} ReadsAdvance(x: Setting, schedule: seq<Choice>)
    requires x.bufSize > 0 && ReadsOnly(schedule)
    ensures
      var s := After(x, schedule);
      && !s.failed && !s.fired
      && (s.up.eof || |s.up.delivered| >= ClientReads(schedule))
      && (s.down.eof || |s.down.delivered| >= ServerReads(schedule))
  {
    if schedule != [] {
      var front := schedule[..|schedule| - 1];
      ReadsAdvance(x, front);
    }
  }

  /** Reads alone, one more on each side than it has bytes, in any interleaving and cut up in any way, bring the relay
      to a normal end with both inputs delivered whole. */
  lemma EnoughReadsFinish(x: Setting, schedule: seq<Choice>)
    requires x.bufSize > 0 && ReadsOnly(schedule)
    requires ClientReads(schedule) > |x.clientInput| && ServerReads(schedule) > |x.serverInput|
    ensures
      var s := After(x, schedule);
      && !s.failed && s.up.eof && s.down.eof && s.up.shut && s.down.shut
      && s.up.delivered == x.clientInput && s.down.delivered == x.serverInput
  {
    hide After;
    ReadsAdvance(x, schedule);
    NormalEndConserves(x, schedule);
  }

  lemma TimerKept(x: Setting, s: State, choice: Choice)
    requires Sound(x, s) && s.timer.Some?
    ensures Next(x, s, choice).timer == s.timer
  {
  }

  // ---------------------------------------------------------------- a whole connection

  /** A connection through an HTTP CONNECT proxy: handshake, leftover, relay. The client gets a prefix of
      what follows the response header, and all of it when both sides close before the deadline. */
  method HandleConnection(outbound: TcpStream, request: seq<byte>, clientInput: seq<byte>, bufSize: nat,
                          gracePeriod: nat,
                          schedule: seq<Choice>, leftoverDelivered: nat, leftoverFails: bool)
    returns (end: End, established: bool, toClient: seq<byte>, toServer: seq<byte>, fired: bool)
    requires bufSize > 0
    modifies outbound
    ensures established <==> HeaderWithinLimit(old(outbound.unread)).Some?
                             && Accepts(old(outbound.unread)[..HeaderWithinLimit(old(outbound.unread)).value])
    ensures !established ==> toClient == [] && toServer == [] && end.Failed?
    ensures established ==> toClient <= old(outbound.unread)[HeaderWithinLimit(old(outbound.unread)).value..]
    ensures toServer <= clientInput
    ensures end.Finished? && !fired ==>
              && established && toServer == clientInput
              && toClient == old(outbound.unread)[HeaderWithinLimit(old(outbound.unread)).value..]
  {
    toClient, toServer, fired, end := [], [], false, Failed;
    ghost var incoming := outbound.unread;
    var r := HandshakeHttpConnect(outbound, request);
    established := r.Tunnel?;
    if !established {
      return;
    }
    ghost var payload := incoming[HeaderWithinLimit(incoming).value..];
    assert r.leftover + outbound.unread == payload;
    if r.leftover != [] && leftoverFails {
      toClient := r.leftover[..Min(leftoverDelivered, |r.leftover|)];
      assert toClient <= r.leftover + outbound.unread;
      return;
    }
    var x := Setting(clientInput, outbound.unread, bufSize, gracePeriod);
    var up, down, timer;
    end, up, down, timer, fired := RelayWithShutdown(x, schedule);
    NormalEndConserves(x, schedule);
    toClient := r.leftover + down.delivered;
    toServer := up.delivered;
    assert toClient <= r.leftover + outbound.unread;
  }
}
