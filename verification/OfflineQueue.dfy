/**
 Messages that arrive while the client is still connecting are parked and replayed once
 the connection stands (crates/prose-core-client/src/app/event_handlers/messages_event_handler.rs:61-80,
 crates/prose-core-client/src/app/services/connection_service.rs:60-66, 180-191).
 */
module OfflineQueue {
  import opened Basics

  type Message = nat  // messages are numbered in the order they arrive
  datatype ConnectionState = Disconnected | Connecting | Connected

  /** A handler that has looked at the connection state but not acted on it yet. */
  datatype Held = Held(message: Message, connected: bool)

  /** A loop over drained messages: those to come, and the one whose handler is at work. */
  datatype Replay = Replay(waiting: seq<Message>, looking: Option<Held>)

  /**
   `replays` holds what the drains of the `connect` calls so far still have to replay;
   `drained` records that the offline queue has been drained since the state last changed.
   */
  datatype System = System(
    state: ConnectionState, parked: seq<Message>, replays: seq<Replay>, held: seq<Held>,
    processed: seq<Message>, dropped: seq<Message>, received: nat, drained: bool)

  datatype Step =
    | Receive              // a message arrives and its handler runs through
    | LookAt               // a message arrives, its handler reads the state and is interrupted
    | Settle(held: nat)    // an interrupted handler goes on
    | BeginConnect         // the state becomes Connecting
    | DiscardParked        // the queue is drained and the result thrown away
    | FinishConnect        // the state becomes Connected
    | DrainForReplay       // the queue is drained into a replay
    | LookReplay(replay: nat)    // a replay hands its next message to the handler, which reads the state
    | SettleReplay(replay: nat)  // that handler goes on
    | Disconnect

  const START := System(Disconnected, [], [], [], [], [], 0, false)

  /** The message handler: process if connected, park otherwise. */
  function HandleMessage(s: System, m: Message, connected: bool): System {
    if connected then s.(processed := s.processed + [m]) else s.(parked := s.parked + [m])
  }

  function RemoveAt<T>(xs: seq<T>, i: nat): seq<T>
    requires i < |xs|
  {
    xs[..i] + xs[i + 1..]
  }

  predicate CanLook(s: System, i: nat) {
    i < |s.replays| && s.replays[i].looking.None? && s.replays[i].waiting != []
  }

  predicate CanSettle(s: System, i: nat) { i < |s.replays| && s.replays[i].looking.Some? }

  function Next(s: System, step: Step): System {
    match step
    case Receive => HandleMessage(s.(received := s.received + 1), s.received, s.state.Connected?)
    case LookAt => s.(received := s.received + 1, held := s.held + [Held(s.received, s.state.Connected?)])
    case Settle(i) =>
      if i >= |s.held| then s
      else HandleMessage(s.(held := RemoveAt(s.held, i)), s.held[i].message, s.held[i].connected)
    case BeginConnect => s.(state := Connecting, drained := false)
    case DiscardParked => s.(dropped := s.dropped + s.parked, parked := [])
    case FinishConnect => s.(state := Connected, drained := false)
    case DrainForReplay => s.(replays := s.replays + [Replay(s.parked, None)], parked := [], drained := true)
    case LookReplay(i) =>
      if !CanLook(s, i) then s
      else s.(replays := s.replays[i := Replay(s.replays[i].waiting[1..],
                                               Some(Held(s.replays[i].waiting[0], s.state.Connected?)))])
    case SettleReplay(i) =>
      if !CanSettle(s, i) then s
      else
        var h := s.replays[i].looking.value;
        HandleMessage(s.(replays := s.replays[i := s.replays[i].(looking := None)]), h.message, h.connected)
    case Disconnect => s.(state := Disconnected, drained := false)
  }

  function Run(s: System, steps: seq<Step>): System {
    if steps == [] then s else Next(Run(s, steps[..|steps| - 1]), steps[|steps| - 1])
  }

  // ---- No message is lost or duplicated ----

  function One(b: bool): nat { if b then 1 else 0 }

  function Count(q: seq<Message>, m: Message): nat {
    if q == [] then 0 else Count(q[..|q| - 1], m) + One(q[|q| - 1] == m)
  }

  function CountReplay(r: Replay, m: Message): nat {
    Count(r.waiting, m) + One(r.looking.Some? && r.looking.value.message == m)
  }

  function CountWaiting(rs: seq<Replay>, m: Message): nat {
    if rs == [] then 0 else CountWaiting(rs[..|rs| - 1], m) + CountReplay(rs[|rs| - 1], m)
  }

  function CountHeld(hs: seq<Held>, m: Message): nat {
    if hs == [] then 0 else CountHeld(hs[..|hs| - 1], m) + One(hs[|hs| - 1].message == m)
  }

  /** How often `m` occurs in all the places a message can be. */
  function Everywhere(s: System, m: Message): nat {
    Count(s.processed, m) + Count(s.parked, m) + CountWaiting(s.replays, m) + CountHeld(s.held, m) + Count(s.dropped, m)
  }

  ghost predicate Conserved(s: System, m: Message) { Everywhere(s, m) == One(m < s.received) }

  lemma {:induction false} CountConcat(a: seq<Message>, b: seq<Message>, m: Message)
    ensures Count(a + b, m) == Count(a, m) + Count(b, m)
  {
    if b == [] {
      assert a + b == a;
    } else {
      CountConcat(a, b[..|b| - 1], m);
      assert (a + b)[..|a + b| - 1] == a + b[..|b| - 1];
    }
  }

  lemma CountOne(x: Message, m: Message)
    ensures Count([x], m) == One(x == m)
  {
    assert [x][..0] == [];
  }

  lemma {:induction false} WaitingUpdate(rs: seq<Replay>, i: nat, r: Replay, m: Message)
    requires i < |rs|
    ensures CountWaiting(rs[i := r], m) + CountReplay(rs[i], m) == CountWaiting(rs, m) + CountReplay(r, m)
  {
    var n := |rs| - 1;
    if i == n {
      assert rs[i := r][..n] == rs[..n];
    } else {
      WaitingUpdate(rs[..n], i, r, m);
      assert rs[i := r][..n] == rs[..n][i := r];
    }
  }

  lemma {:induction false} HeldConcat(a: seq<Held>, b: seq<Held>, m: Message)
    ensures CountHeld(a + b, m) == CountHeld(a, m) + CountHeld(b, m)
  {
    if b == [] {
      assert a + b == a;
    } else {
      HeldConcat(a, b[..|b| - 1], m);
      assert (a + b)[..|a + b| - 1] == a + b[..|b| - 1];
    }
  }

  lemma HeldRemoved(hs: seq<Held>, i: nat, m: Message)
    requires i < |hs|
    ensures CountHeld(hs, m) == CountHeld(RemoveAt(hs, i), m) + One(hs[i].message == m)
  {
    var a, b := hs[..i], hs[i + 1..];
    assert hs == (a + [hs[i]]) + b;
    HeldConcat(a + [hs[i]], b, m);
    HeldConcat(a, [hs[i]], m);
    HeldConcat(a, b, m);
    assert [hs[i]][..0] == [];
  }

  /** Handling a message puts it into exactly one more place. */
  lemma HandlingConserves(s: System, x: Message, connected: bool, m: Message)
    ensures Everywhere(HandleMessage(s, x, connected), m) == Everywhere(s, m) + One(x == m)
  {
    CountConcat(s.processed, [x], m);
    CountConcat(s.parked, [x], m);
    CountOne(x, m);
  }

  lemma SettleConserves(s: System, i: nat, m: Message)
    requires i < |s.held|
    ensures Everywhere(Next(s, Settle(i)), m) == Everywhere(s, m)
  {
    HeldRemoved(s.held, i, m);
    HandlingConserves(s.(held := RemoveAt(s.held, i)), s.held[i].message, s.held[i].connected, m);
  }

  lemma LookReplayConserves(s: System, i: nat, m: Message)
    requires CanLook(s, i)
    ensures Everywhere(Next(s, LookReplay(i)), m) == Everywhere(s, m)
  {
    var x, rest := s.replays[i].waiting[0], s.replays[i].waiting[1..];
    assert s.replays[i].waiting == [x] + rest;
    CountConcat([x], rest, m);
    CountOne(x, m);
    WaitingUpdate(s.replays, i, Replay(rest, Some(Held(x, s.state.Connected?))), m);
  }

  lemma SettleReplayConserves(s: System, i: nat, m: Message)
    requires CanSettle(s, i)
    ensures Everywhere(Next(s, SettleReplay(i)), m) == Everywhere(s, m)
  {
    var r := s.replays[i].(looking := None);
    var h := s.replays[i].looking.value;
    WaitingUpdate(s.replays, i, r, m);
    HandlingConserves(s.(replays := s.replays[i := r]), h.message, h.connected, m);
  }

  lemma LookConserves(s: System, m: Message)
    ensures Everywhere(Next(s, LookAt), m) == Everywhere(s, m) + One(s.received == m)
  {
    var h := Held(s.received, s.state.Connected?);
    HeldConcat(s.held, [h], m);
    assert [h][..0] == [];
  }

  lemma ReceiveConserves(s: System, m: Message)
    ensures Everywhere(Next(s, Receive), m) == Everywhere(s, m) + One(s.received == m)
  {
    HandlingConserves(s.(received := s.received + 1), s.received, s.state.Connected?, m);
  }

  lemma StateChangeConserves(s: System, step: Step, m: Message)
    requires step.BeginConnect? || step.FinishConnect? || step.Disconnect?
    ensures Everywhere(Next(s, step), m) == Everywhere(s, m)
  {
  }

  lemma DrainConserves(s: System, m: Message)
    ensures Everywhere(Next(s, DrainForReplay), m) == Everywhere(s, m) == Everywhere(Next(s, DiscardParked), m)
  {
    CountConcat(s.dropped, s.parked, m);
    assert (s.replays + [Replay(s.parked, None)])[..|s.replays|] == s.replays;
  }

  lemma NextConserves(s: System, step: Step, m: Message)
    requires Conserved(s, m)
    ensures Conserved(Next(s, step), m)
  {
    match step
    case Receive => ReceiveConserves(s, m);
    case LookAt => LookConserves(s, m);
    case Settle(i) => if i < |s.held| { SettleConserves(s, i, m); }
    case DiscardParked => DrainConserves(s, m);
    case DrainForReplay => DrainConserves(s, m);
    case LookReplay(i) => if CanLook(s, i) { LookReplayConserves(s, i, m); }
    case SettleReplay(i) => if CanSettle(s, i) { SettleReplayConserves(s, i, m); }
    case _ => StateChangeConserves(s, step, m);
  }

  /**
   In every run each message received so far is in exactly one place, once: processed,
   parked, waiting in a replay, held by a running handler, or dropped by a later connect.
   */
  lemma {:induction false} EveryMessageIsInOnePlace(steps: seq<Step>, m: Message)
    ensures var s := Run(START, steps); Everywhere(s, m) == if m < s.received then 1 else 0
  {
    if steps != [] {
      EveryMessageIsInOnePlace(steps[..|steps| - 1], m);
      NextConserves(Run(START, steps[..|steps| - 1]), steps[|steps| - 1], m);
    }
  }

  lemma RunOneMore(s: System, steps: seq<Step>)
    requires steps != []
    ensures var front, last := steps[..|steps| - 1], steps[|steps| - 1];
            && Run(s, steps) == Next(Run(s, front), last) && steps == front + [last]
            && forall n :: 0 <= n <= |front| ==> front[..n] == steps[..n]
  {
  }

  // ---- What a connect discards stays discarded ----

  lemma NextKeepsDropped(s: System, step: Step, m: Message)
    requires m in s.dropped
    ensures m in Next(s, step).dropped
  {
  }

  lemma {:induction false} DroppedStaysDropped(s: System, more: seq<Step>, m: Message)
    requires m in s.dropped
    ensures m in Run(s, more).dropped
  {
    if more != [] {
      DroppedStaysDropped(s, more[..|more| - 1], m);
      NextKeepsDropped(Run(s, more[..|more| - 1]), more[|more| - 1], m);
    }
  }

  lemma {:induction false} RunAppends(s: System, steps: seq<Step>, more: seq<Step>)
    ensures Run(s, steps + more) == Run(Run(s, steps), more)
  {
    if more == [] {
      assert steps + more == steps;
    } else {
      RunAppends(s, steps, more[..|more| - 1]);
      assert (steps + more)[..|steps + more| - 1] == steps + more[..|more| - 1];
    }
  }

  /**
   What is parked when a connect begins is dropped by it for good: whatever happens later, it
   is neither processed nor parked nor replayed.
   */
  lemma DiscardedIsDropped(pre: seq<Step>, more: seq<Step>, m: Message)
    requires m in Run(START, pre).parked
    ensures var s := Run(START, pre + [DiscardParked] + more);
            && m in s.dropped && m !in s.processed && m !in s.parked
            && CountWaiting(s.replays, m) == 0 && CountHeld(s.held, m) == 0
  {
    var steps := pre + [DiscardParked];
    var s := Run(START, steps + more);
    assert steps[..|steps| - 1] == pre;
    assert m in Run(START, steps).dropped;
    DroppedStaysDropped(Run(START, steps), more, m);
    RunAppends(START, steps, more);
    EveryMessageIsInOnePlace(steps + more, m);
    CountedIsThere(s.dropped, m);
    CountedIsThere(s.processed, m);
    CountedIsThere(s.parked, m);
  }

  /** At some step of the run, `m` was parked and the queue thrown away. */
  ghost predicate Discarded(steps: seq<Step>, m: Message) {
    exists j :: 0 <= j < |steps| && steps[j].DiscardParked? && m in Run(START, steps[..j]).parked
  }

  lemma DiscardedEarlier(front: seq<Step>, last: Step, m: Message)
    requires Discarded(front, m)
    ensures Discarded(front + [last], m)
  {
    var steps := front + [last];
    var j :| 0 <= j < |front| && front[j].DiscardParked? && m in Run(START, front[..j]).parked;
    assert front[..j] == steps[..j] && front[j] == steps[j];
  }

  lemma DiscardedNow(front: seq<Step>, m: Message)
    requires m in Run(START, front).parked
    ensures Discarded(front + [DiscardParked], m)
  {
    var steps := front + [DiscardParked];
    assert steps[..|front|] == front && steps[|front|].DiscardParked?;
  }

  /** Nothing else is ever dropped. */
  lemma {:induction false} DroppedWasDiscarded(steps: seq<Step>, m: Message)
    requires m in Run(START, steps).dropped
    ensures Discarded(steps, m)
  {
    if steps != [] {
      RunOneMore(START, steps);
      var front, last := steps[..|steps| - 1], steps[|steps| - 1];
      if m in Run(START, front).dropped {
        DroppedWasDiscarded(front, m);
        DiscardedEarlier(front, last, m);
      } else {
        DiscardedNow(front, m);
      }
    }
  }

  // ---- The connection state and the arrivals are those of the steps ----

  function StateAfter(steps: seq<Step>): ConnectionState {
    if steps == [] then Disconnected
    else
      match steps[|steps| - 1]
      case BeginConnect => Connecting
      case FinishConnect => Connected
      case Disconnect => Disconnected
      case _ => StateAfter(steps[..|steps| - 1])
  }

  function ArrivedIn(steps: seq<Step>): nat {
    if steps == [] then 0
    else
      var last := steps[|steps| - 1];
      ArrivedIn(steps[..|steps| - 1]) + One(last.Receive? || last.LookAt?)
  }

  lemma {:induction false} RunFollowsSteps(steps: seq<Step>)
    ensures Run(START, steps).state == StateAfter(steps) && Run(START, steps).received == ArrivedIn(steps)
  {
    if steps != [] { RunFollowsSteps(steps[..|steps| - 1]); }
  }

  // ---- Messages are processed only by handlers that saw a connection ----

  /** At this step a handler looks at the connection state on behalf of `m`. */
  predicate LooksFor(s: System, step: Step, m: Message) {
    match step
    case Receive => s.received == m
    case LookAt => s.received == m
    case LookReplay(i) => CanLook(s, i) && s.replays[i].waiting[0] == m
    case _ => false
  }

  /** A handler that saw a connection is at work on `m`. */
  ghost predicate InGoodHands(s: System, m: Message) {
    || Held(m, true) in s.held
    || exists i :: 0 <= i < |s.replays| && s.replays[i].looking == Some(Held(m, true))
  }

  /** Some handler of `m` looked at the state when it was Connected. */
  ghost predicate SawConnection(steps: seq<Step>, m: Message) {
    exists j :: 0 <= j < |steps| && LooksFor(Run(START, steps[..j]), steps[j], m) &&
                Run(START, steps[..j]).state == Connected
  }

  lemma SawConnectionEarlier(front: seq<Step>, last: Step, m: Message)
    requires SawConnection(front, m)
    ensures SawConnection(front + [last], m)
  {
    var steps := front + [last];
    var j :| 0 <= j < |front| && LooksFor(Run(START, front[..j]), front[j], m) &&
        Run(START, front[..j]).state == Connected;
    assert front[..j] == steps[..j] && front[j] == steps[j];
  }

  lemma SeesConnectionNow(front: seq<Step>, last: Step, m: Message)
    requires LooksFor(Run(START, front), last, m) && Run(START, front).state == Connected
    ensures SawConnection(front + [last], m)
  {
    var steps := front + [last];
    assert steps[..|front|] == front && steps[|front|] == last;
  }

  /** What a step newly processes, or has in good hands, was so before or has just seen a connection. */
  lemma StepProcesses(s: System, step: Step, m: Message)
    requires m in Next(s, step).processed || InGoodHands(Next(s, step), m)
    ensures m in s.processed || InGoodHands(s, m) || (LooksFor(s, step, m) && s.state == Connected)
  {
    match step
    case DrainForReplay =>
      forall i | 0 <= i < |Next(s, step).replays| && Next(s, step).replays[i].looking.Some?
        ensures i < |s.replays| && Next(s, step).replays[i] == s.replays[i]
      {
      }
    case SettleReplay(i) => if CanSettle(s, i) { assert s.replays[i].looking == Some(s.replays[i].looking.value); }
    case _ =>
  }

  /** In every run a message is processed only after one of its handlers has seen the state Connected. */
  lemma {:induction false} ProcessingNeedsConnection(steps: seq<Step>, m: Message)
    requires m in Run(START, steps).processed || InGoodHands(Run(START, steps), m)
    ensures SawConnection(steps, m)
  {
    if steps != [] {
      RunOneMore(START, steps);
      var front, last := steps[..|steps| - 1], steps[|steps| - 1];
      var s := Run(START, front);
      StepProcesses(s, last, m);
      if m in s.processed || InGoodHands(s, m) {
        ProcessingNeedsConnection(front, m);
        SawConnectionEarlier(front, last, m);
      } else {
        SeesConnectionNow(front, last, m);
      }
    }
  }

  /** A handler that saw no connection has had `m` or is at work on it. */
  ghost predicate TurnedAway(s: System, m: Message) {
    || m in s.parked || m in s.dropped || Held(m, false) in s.held
    || exists i :: 0 <= i < |s.replays| && PutOff(s.replays[i], m)
  }

  predicate PutOff(r: Replay, m: Message) { m in r.waiting || r.looking == Some(Held(m, false)) }

  ghost predicate LetIn(s: System, m: Message) { m in s.processed || InGoodHands(s, m) }

  /** What the last handler of `m` to look at the connection state saw. */
  ghost function LastLook(steps: seq<Step>, m: Message): Option<bool> {
    if steps == [] then None
    else
      var front := steps[..|steps| - 1];
      if LooksFor(Run(START, front), steps[|steps| - 1], m) then Some(StateAfter(front) == Connected)
      else LastLook(front, m)
  }

  /** `m` is in none of the places a message can be. */
  ghost predicate Nowhere(s: System, m: Message) {
    && m !in s.processed && m !in s.parked && m !in s.dropped
    && (forall h :: h in s.held ==> h.message != m)
    && forall i :: 0 <= i < |s.replays| ==> m !in Remaining(s.replays[i])
  }

  lemma UncountedIsNowhere(s: System, m: Message)
    requires Everywhere(s, m) == 0
    ensures Nowhere(s, m)
  {
    CountedIsThere(s.processed, m);
    CountedIsThere(s.parked, m);
    CountedIsThere(s.dropped, m);
    forall h | h in s.held ensures h.message != m { if h.message == m { HeldIsCounted(s.held, h); } }
    forall i | 0 <= i < |s.replays| ensures m !in Remaining(s.replays[i]) {
      if m in Remaining(s.replays[i]) { WaitingIsCounted(s.replays, i, m); }
    }
  }

  lemma ArrivalDecides(s: System, step: Step, m: Message)
    requires Nowhere(s, m) && (step.Receive? || step.LookAt?) && m == s.received
    ensures LetIn(Next(s, step), m) <==> s.state == Connected
    ensures TurnedAway(Next(s, step), m) <==> s.state != Connected
  {
    var s' := Next(s, step);
    forall i | 0 <= i < |s.replays| ensures !PutOff(s.replays[i], m) && s.replays[i].looking != Some(Held(m, true)) {
      assert m !in Remaining(s.replays[i]);
    }
    if step.LookAt? { assert s'.held[|s.held|] == Held(m, s.state.Connected?); }
  }

  /** The message at the head of a replay is nowhere else. */
  lemma HeadIsNowhereElse(s: System, i: nat, m: Message)
    requires Conserved(s, m) && CanLook(s, i) && s.replays[i].waiting[0] == m
    ensures Nowhere(s.(replays := s.replays[i := s.replays[i].(waiting := s.replays[i].waiting[1..])]), m)
  {
    var r := s.replays[i];
    var rest := r.(waiting := r.waiting[1..]);
    assert r.waiting == [m] + r.waiting[1..];
    CountConcat([m], r.waiting[1..], m);
    CountOne(m, m);
    WaitingUpdate(s.replays, i, rest, m);
    UncountedIsNowhere(s.(replays := s.replays[i := rest]), m);
  }

  lemma ReplayLookDecides(s: System, i: nat, m: Message)
    requires Conserved(s, m) && CanLook(s, i) && s.replays[i].waiting[0] == m
    ensures LetIn(Next(s, LookReplay(i)), m) <==> s.state == Connected
    ensures TurnedAway(Next(s, LookReplay(i)), m) <==> s.state != Connected
  {
    HeadIsNowhereElse(s, i, m);
    var rest := s.replays[i].(waiting := s.replays[i].waiting[1..]);
    var others, s' := s.replays[i := rest], Next(s, LookReplay(i));
    assert s'.replays[i].looking == Some(Held(m, s.state.Connected?));
    assert m !in Remaining(others[i]);
    forall j | 0 <= j < |s.replays| && j != i
      ensures !PutOff(s'.replays[j], m) && s'.replays[j].looking != Some(Held(m, true))
    {
      assert m !in Remaining(others[j]);
    }
  }

  lemma LookDecides(s: System, step: Step, m: Message)
    requires Conserved(s, m) && LooksFor(s, step, m)
    ensures LetIn(Next(s, step), m) <==> s.state == Connected
    ensures TurnedAway(Next(s, step), m) <==> s.state != Connected
  {
    if step.LookReplay? {
      ReplayLookDecides(s, step.replay, m);
    } else {
      UncountedIsNowhere(s, m);
      ArrivalDecides(s, step, m);
    }
  }

  lemma UnlookedStays(s: System, step: Step, m: Message)
    requires !LooksFor(s, step, m)
    ensures LetIn(Next(s, step), m) ==> LetIn(s, m)
    ensures TurnedAway(Next(s, step), m) ==> TurnedAway(s, m)
  {
    if LetIn(Next(s, step), m) { StepProcesses(s, step, m); }
    if TurnedAway(Next(s, step), m) { UnlookedStaysAway(s, step, m); }
  }

  lemma UnlookedStaysAway(s: System, step: Step, m: Message)
    requires !LooksFor(s, step, m) && TurnedAway(Next(s, step), m)
    ensures TurnedAway(s, m)
  {
    var s' := Next(s, step);
    if i :| 0 <= i < |s'.replays| && PutOff(s'.replays[i], m) {
      if i < |s.replays| { assert PutOff(s.replays[i], m) || s'.replays[i] == s.replays[i]; }
    } else if step.SettleReplay? && CanSettle(s, step.replay) {
      assert PutOff(s.replays[step.replay], m) || m in s.parked || m in s.dropped || Held(m, false) in s.held;
    }
  }

  /**
   In every run a message is processed, or with a handler that is going to process it, only if
   the last handler to look at the state on its behalf saw Connected; and it is parked, waiting,
   dropped or about to be parked only if that handler saw something else.
   */
  lemma {:induction false} HandlersActOnWhatTheySaw(steps: seq<Step>, m: Message)
    ensures LetIn(Run(START, steps), m) ==> LastLook(steps, m) == Some(true)
    ensures TurnedAway(Run(START, steps), m) ==> LastLook(steps, m) == Some(false)
  {
    if steps != [] {
      var front, last := steps[..|steps| - 1], steps[|steps| - 1];
      var s := Run(START, front);
      HandlersActOnWhatTheySaw(front, m);
      EveryMessageIsInOnePlace(front, m);
      RunFollowsSteps(front);
      if LooksFor(s, last, m) { LookDecides(s, last, m); } else { UnlookedStays(s, last, m); }
    }
  }

  // ---- Nobody is left behind in the queue ----

  /** Once connected and drained, the queue stays empty. */
  ghost predicate NoneLeftBehind(s: System) { s.state == Connected && s.drained ==> s.parked == [] }

  /** The handler a step lets go on. */
  function Resumes(s: System, step: Step): Option<Held> {
    match step
    case Settle(i) => if i < |s.held| then Some(s.held[i]) else None
    case SettleReplay(i) => if CanSettle(s, i) then s.replays[i].looking else None
    case _ => None
  }

  /** A handler that looked before the connection stood goes on after the queue has been drained. */
  predicate Strands(s: System, step: Step) {
    && Resumes(s, step).Some? && !Resumes(s, step).value.connected
    && s.state == Connected && s.drained
  }

  lemma StepStrandsExactly(s: System, step: Step)
    requires NoneLeftBehind(s)
    ensures NoneLeftBehind(Next(s, step)) <==> !Strands(s, step)
  {
  }

  /** No step of the run strands a message. */
  ghost predicate NeverStrands(steps: seq<Step>) {
    steps != [] ==>
      var front := steps[..|steps| - 1];
      NeverStrands(front) && !Strands(Run(START, front), steps[|steps| - 1])
  }

  /** After the run, and after every prefix of it, nobody is left behind. */
  ghost predicate NeverLeavesBehind(steps: seq<Step>) {
    NoneLeftBehind(Run(START, steps)) && (steps != [] ==> NeverLeavesBehind(steps[..|steps| - 1]))
  }

  /**
   A run never leaves a message behind in the queue of a connected client if and only if
   none of its handlers parks on what it saw before the connection stood.
   */
  lemma {:induction false} NobodyStrandedExactly(steps: seq<Step>)
    ensures NeverLeavesBehind(steps) <==> NeverStrands(steps)
  {
    if steps != [] {
      var front := steps[..|steps| - 1];
      NobodyStrandedExactly(front);
      if NeverLeavesBehind(front) { StepStrandsExactly(Run(START, front), steps[|steps| - 1]); }
    }
  }

  /** Interrupting one handler is enough to strand a message. */
  lemma InterruptedHandlerStrandsMessage()
    ensures var looked := Next(Next(START, BeginConnect), LookAt);
            var s := Next(Next(Next(looked, FinishConnect), DrainForReplay), Settle(0));
            s.state == Connected && s.drained && s.parked == [0] && s.processed == []
  {
    var drained := Next(Next(Next(Next(START, BeginConnect), LookAt), FinishConnect), DrainForReplay);
    assert drained.held == [Held(0, false)];
  }

  /**
   So is interrupting a replay: its handler looks between two connections and goes on after
   the second one has drained the queue.
   */
  lemma InterruptedReplayStrandsMessage()
    ensures var first := Next(Next(Next(Next(START, BeginConnect), Receive), FinishConnect), DrainForReplay);
            var looked := Next(Next(first, Disconnect), LookReplay(0));
            var second := Next(Next(Next(Next(looked, BeginConnect), DiscardParked), FinishConnect), DrainForReplay);
            var s := Next(second, SettleReplay(0));
            s.state == Connected && s.drained && s.parked == [0] && s.processed == []
  {
    var first := Next(Next(Next(Next(START, BeginConnect), Receive), FinishConnect), DrainForReplay);
    assert Next(Next(START, BeginConnect), Receive).parked == [0];
    assert first.replays == [Replay([0], None)];
    var looked := Next(Next(first, Disconnect), LookReplay(0));
    assert [0][1..] == [] && looked.replays == [Replay([0][1..], Some(Held(0, false)))];
  }

  // ---- The queue is in arrival order ----

  ghost predicate Increasing(q: seq<Message>) { forall i, j :: 0 <= i < j < |q| ==> q[i] < q[j] }

  /** The message a step puts into the queue. */
  function Parks(s: System, step: Step): Option<Message> {
    if step.Receive? then (if s.state.Connected? then None else Some(s.received))
    else
      var h := Resumes(s, step);
      if h.Some? && !h.value.connected then Some(h.value.message) else None
  }

  /** A handler that was interrupted parks its message behind a later one. */
  predicate OutOfTurn(s: System, step: Step) {
    && !step.Receive? && s.parked != []
    && Parks(s, step).Some? && Parks(s, step).value <= s.parked[|s.parked| - 1]
  }

  lemma IncreasingPush(q: seq<Message>, m: Message)
    requires Increasing(q)
    ensures Increasing(q + [m]) <==> q == [] || q[|q| - 1] < m
  {
    var r := q + [m];
    if q != [] { assert r[|q| - 1] == q[|q| - 1] && r[|q|] == m; }
  }

  lemma StepInTurnExactly(s: System, step: Step)
    requires Increasing(s.parked) && forall m :: m in s.parked ==> m < s.received
    ensures Increasing(Next(s, step).parked) <==> !OutOfTurn(s, step)
  {
    var parks := Parks(s, step);
    if parks.Some? {
      assert Next(s, step).parked == s.parked + [parks.value];
      IncreasingPush(s.parked, parks.value);
      if s.parked != [] { assert s.parked[|s.parked| - 1] in s.parked; }
    }
  }

  lemma ParkedHasArrived(steps: seq<Step>, m: Message)
    requires m in Run(START, steps).parked
    ensures m < Run(START, steps).received
  {
    EveryMessageIsInOnePlace(steps, m);
    CountedIsThere(Run(START, steps).parked, m);
  }

  /** No step of the run parks out of turn. */
  ghost predicate InTurn(steps: seq<Step>) {
    steps != [] ==>
      var front := steps[..|steps| - 1];
      InTurn(front) && !OutOfTurn(Run(START, front), steps[|steps| - 1])
  }

  /** After the run, and after every prefix of it, the queue is in arrival order. */
  ghost predicate AlwaysIncreasing(steps: seq<Step>) {
    Increasing(Run(START, steps).parked) && (steps != [] ==> AlwaysIncreasing(steps[..|steps| - 1]))
  }

  /** The queue is in arrival order throughout a run if and only if no step parks out of turn. */
  lemma {:induction false} QueueInArrivalOrderExactly(steps: seq<Step>)
    ensures AlwaysIncreasing(steps) <==> InTurn(steps)
  {
    if steps != [] {
      var front, last := steps[..|steps| - 1], steps[|steps| - 1];
      var s := Run(START, front);
      QueueInArrivalOrderExactly(front);
      if AlwaysIncreasing(front) {
        forall m | m in s.parked ensures m < s.received { ParkedHasArrived(front, m); }
        StepInTurnExactly(s, last);
      }
    }
  }

  // ---- Replay ----

  /** The messages of `ms` that are in `q`, in the order they have in `ms`. */
  function Among(ms: seq<Message>, q: seq<Message>): seq<Message> {
    if ms == [] then []
    else
      var front, last := Among(ms[..|ms| - 1], q), ms[|ms| - 1];
      if last in q then front + [last] else front
  }

  predicate KeepsConnection(step: Step) { !step.BeginConnect? && !step.Disconnect? }

  /** The messages of a replay that have not been handled yet; the one being handled comes first. */
  function Remaining(r: Replay): seq<Message> {
    (if r.looking.Some? then [r.looking.value.message] else []) + r.waiting
  }

  /**
   What replay `i` has handed over, then what remains of it, is the queue `q` as it was
   drained, and no other place holds any of it.
   */
  ghost predicate ReplayingInOrder(s: System, i: nat, q: seq<Message>) {
    && s.state == Connected && i < |s.replays|
    && (s.replays[i].looking.Some? ==> s.replays[i].looking.value.connected)
    && Among(s.processed, q) + Remaining(s.replays[i]) == q
    && (forall m :: m in q ==> m < s.received && m !in s.parked)
    && (forall h :: h in s.held ==> h.message !in q)
    && (forall j :: 0 <= j < |s.replays| && j != i ==> forall m :: m in Remaining(s.replays[j]) ==> m !in q)
  }

  lemma AmongAppends(ms: seq<Message>, m: Message, q: seq<Message>)
    ensures Among(ms + [m], q) == Among(ms, q) + if m in q then [m] else []
  {
    assert (ms + [m])[..|ms|] == ms;
  }

  lemma LookingRemains(r: Replay, connected: bool)
    requires r.looking.None? && r.waiting != []
    ensures Remaining(Replay(r.waiting[1..], Some(Held(r.waiting[0], connected)))) == Remaining(r)
  {
    assert r.waiting == [r.waiting[0]] + r.waiting[1..];
  }

  lemma ReplaysLook(s: System, i: nat, j: nat, q: seq<Message>)
    requires ReplayingInOrder(s, i, q) && CanLook(s, j)
    ensures ReplayingInOrder(Next(s, LookReplay(j)), i, q)
  {
    LookingRemains(s.replays[j], s.state.Connected?);
  }

  lemma OwnReplayGoesOn(s: System, i: nat, q: seq<Message>)
    requires ReplayingInOrder(s, i, q) && CanSettle(s, i)
    ensures ReplayingInOrder(Next(s, SettleReplay(i)), i, q)
  {
    var done, m, rest := Among(s.processed, q), s.replays[i].looking.value.message, s.replays[i].waiting;
    Regroup(done, [m], rest);
    assert (done + ([m] + rest))[|done|] == m;
    AmongAppends(s.processed, m, q);
    assert Remaining(s.replays[i].(looking := None)) == [] + rest == rest;
  }

  lemma OtherReplayGoesOn(s: System, i: nat, j: nat, q: seq<Message>)
    requires ReplayingInOrder(s, i, q) && CanSettle(s, j) && j != i
    ensures ReplayingInOrder(Next(s, SettleReplay(j)), i, q)
  {
    var h, r := s.replays[j].looking.value, s.replays[j].(looking := None);
    var s' := s.(replays := s.replays[j := r]);
    assert Remaining(s.replays[j]) == [h.message] + r.waiting && Remaining(s.replays[j])[0] == h.message;
    assert Remaining(r) == [] + r.waiting == r.waiting;
    assert forall m :: m in Remaining(r) ==> m in Remaining(s.replays[j]);
    assert ReplayingInOrder(s', i, q);
    HandlingKeepsOrder(s', h.message, h.connected, i, q);
  }

  lemma RemovedIsHeld(hs: seq<Held>, j: nat, h: Held)
    requires j < |hs| && h in RemoveAt(hs, j)
    ensures h in hs
  {
    var i :| 0 <= i < |RemoveAt(hs, j)| && RemoveAt(hs, j)[i] == h;
    assert hs[if i < j then i else i + 1] == h;
  }

  lemma HandlingKeepsOrder(s: System, m: Message, connected: bool, i: nat, q: seq<Message>)
    requires ReplayingInOrder(s, i, q) && m !in q
    ensures ReplayingInOrder(HandleMessage(s, m, connected), i, q)
  {
    AmongAppends(s.processed, m, q);
    assert Among(s.processed, q) + [] == Among(s.processed, q);
  }

  lemma HandlersGoOn(s: System, j: nat, i: nat, q: seq<Message>)
    requires ReplayingInOrder(s, i, q) && j < |s.held|
    ensures ReplayingInOrder(Next(s, Settle(j)), i, q)
  {
    var s' := s.(held := RemoveAt(s.held, j));
    forall h | h in s'.held ensures h in s.held { RemovedIsHeld(s.held, j, h); }
    assert s.held[j] in s.held;
    HandlingKeepsOrder(s', s.held[j].message, s.held[j].connected, i, q);
  }

  lemma NextReplaysInOrder(s: System, step: Step, i: nat, q: seq<Message>)
    requires ReplayingInOrder(s, i, q) && KeepsConnection(step)
    ensures ReplayingInOrder(Next(s, step), i, q)
  {
    match step
    case Receive => AmongAppends(s.processed, s.received, q);
    case Settle(j) => if j < |s.held| { HandlersGoOn(s, j, i, q); }
    case LookReplay(j) => if CanLook(s, j) { ReplaysLook(s, i, j, q); }
    case SettleReplay(j) =>
      if CanSettle(s, j) {
        if j == i { OwnReplayGoesOn(s, i, q); } else { OtherReplayGoesOn(s, i, j, q); }
      }
    case DrainForReplay => assert Remaining(Replay(s.parked, None)) == s.parked;
    case _ =>
  }

  lemma {:induction false} RunReplaysInOrder(s: System, steps: seq<Step>, i: nat, q: seq<Message>)
    requires ReplayingInOrder(s, i, q) && forall j :: 0 <= j < |steps| ==> KeepsConnection(steps[j])
    ensures ReplayingInOrder(Run(s, steps), i, q)
  {
    if steps != [] {
      RunReplaysInOrder(s, steps[..|steps| - 1], i, q);
      NextReplaysInOrder(Run(s, steps[..|steps| - 1]), steps[|steps| - 1], i, q);
    }
  }

  lemma {:induction false} CountedIsThere(q: seq<Message>, m: Message)
    ensures Count(q, m) > 0 <==> m in q
  {
    if q != [] {
      CountedIsThere(q[..|q| - 1], m);
      assert q == q[..|q| - 1] + [q[|q| - 1]];
    }
  }

  lemma ReplayIsCounted(r: Replay, m: Message)
    requires m in Remaining(r)
    ensures CountReplay(r, m) > 0
  {
    CountedIsThere(r.waiting, m);
  }

  lemma {:induction false} WaitingIsCounted(rs: seq<Replay>, j: nat, m: Message)
    requires j < |rs| && m in Remaining(rs[j])
    ensures CountWaiting(rs, m) > 0
  {
    ReplayIsCounted(rs[j], m);
    if j < |rs| - 1 { WaitingIsCounted(rs[..|rs| - 1], j, m); }
  }

  lemma {:induction false} NoneAmong(ms: seq<Message>, q: seq<Message>)
    requires forall m :: m in q ==> Count(ms, m) == 0
    ensures Among(ms, q) == []
  {
    if ms != [] { NoneAmong(ms[..|ms| - 1], q); }
  }

  lemma {:induction false} HeldIsCounted(hs: seq<Held>, h: Held)
    requires h in hs
    ensures CountHeld(hs, h.message) > 0
  {
    if h != hs[|hs| - 1] {
      assert hs == hs[..|hs| - 1] + [hs[|hs| - 1]];
      HeldIsCounted(hs[..|hs| - 1], h);
    }
  }

  /** Draining a connected client's queue starts a replay of exactly what was parked. */
  lemma DrainStartsReplay(pre: seq<Step>)
    requires Run(START, pre).state == Connected
    ensures var s := Run(START, pre);
            ReplayingInOrder(Next(s, DrainForReplay), |s.replays|, s.parked)
  {
    var s := Run(START, pre);
    forall m | m in s.parked
      ensures m < s.received && Count(s.processed, m) == 0
      ensures CountWaiting(s.replays, m) == 0 && CountHeld(s.held, m) == 0
    {
      EveryMessageIsInOnePlace(pre, m);
      CountedIsThere(s.parked, m);
    }
    NoneAmong(s.processed, s.parked);
    forall h | h in s.held ensures h.message !in s.parked { HeldIsCounted(s.held, h); }
    forall j | 0 <= j < |s.replays| ensures forall m :: m in Remaining(s.replays[j]) ==> m !in s.parked {
      forall m | m in Remaining(s.replays[j]) ensures m !in s.parked { WaitingIsCounted(s.replays, j, m); }
    }
    assert Remaining(Replay(s.parked, None)) == s.parked && [] + s.parked == s.parked;
  }

  /**
   As long as the state stays Connected, the messages parked before the drain are processed
   in queue order, whatever else arrives, goes on, is drained or discarded in between: those
   processed so far, followed by those still waiting, are the queue.
   */
  lemma ParkedMessagesReplayInOrder(pre: seq<Step>, more: seq<Step>)
    requires Run(START, pre).state == Connected && forall j :: 0 <= j < |more| ==> KeepsConnection(more[j])
    ensures var s := Run(START, pre);
            var s' := Run(Next(s, DrainForReplay), more);
            |s.replays| < |s'.replays| && Among(s'.processed, s.parked) + Remaining(s'.replays[|s.replays|]) == s.parked
  {
    var s := Run(START, pre);
    DrainStartsReplay(pre);
    RunReplaysInOrder(Next(s, DrainForReplay), more, |s.replays|, s.parked);
  }

  /** Unless a message was parked out of turn, that is the order of arrival. */
  lemma ReplayIsInArrivalOrder(pre: seq<Step>, more: seq<Step>)
    requires Run(START, pre).state == Connected && forall j :: 0 <= j < |more| ==> KeepsConnection(more[j])
    requires InTurn(pre)
    ensures var s := Run(START, pre);
            var s' := Run(Next(s, DrainForReplay), more);
            && Increasing(s.parked) && |s.replays| < |s'.replays|
            && Increasing(Among(s'.processed, s.parked) + Remaining(s'.replays[|s.replays|]))
  {
    QueueInArrivalOrderExactly(pre);
    ParkedMessagesReplayInOrder(pre, more);
  }

  // ---- The code without interleaving ----

  class MessageIntake {
    var state: ConnectionState
    var offline: seq<Message>
    var processed: seq<Message>

    method HandleEvent(m: Message)
      modifies this
      ensures state == old(state)
      ensures state == Connected ==> processed == old(processed) + [m] && offline == old(offline)
      ensures state != Connected ==> processed == old(processed) && offline == old(offline) + [m]
    {
      if state != Connected {
        offline := offline + [m];
        return;
      }
      processed := processed + [m];
    }

    method Drain() returns (events: seq<Message>)
      modifies this`offline
      ensures events == old(offline) && offline == []
    {
      events := offline;
      offline := [];
    }

    /** The end of `connect`: switch to connected, drain, replay one by one. */
    method FinishConnecting()
      modifies this
      ensures state == Connected && offline == [] && processed == old(processed) + old(offline)
    {
      state := Connected;
      var events := Drain();
      for i := 0 to |events|
        invariant state == Connected && offline == [] && processed == old(processed) + events[..i]
      {
        HandleEvent(events[i]);
        assert events[..i + 1] == events[..i] + [events[i]];
        Regroup(old(processed), events[..i], [events[i]]);
      }
      assert events[..|events|] == events;
    }
  }

  // ---- The handler chain ----

  /** What a handler makes of an event: swallow it, pass one on, or fail. */
  datatype Handled<E> = Swallowed | PassedOn(event: E) | Aborted

  /** The events the handlers get to see, one per handler reached. */
  function Seen<E>(handlers: seq<E -> Handled<E>>, e: E): seq<E>
    decreases |handlers|, 1
  {
    if handlers == [] then [] else [e] + SeenAfter(handlers, handlers[0](e))
  }

  function SeenAfter<E>(handlers: seq<E -> Handled<E>>, r: Handled<E>): seq<E>
    requires handlers != []
    decreases |handlers|, 0
  {
    if r.PassedOn? then Seen(handlers[1..], r.event) else []
  }

  /** The loop over the handlers: the current event is replaced by what each handler returns. */
  method HandleServerEvent<E>(handlers: seq<E -> Handled<E>>, event: E) returns (seen: seq<E>)
    ensures seen == Seen(handlers, event)
  {
    var current := event;
    seen := [];
    var i := 0;
    while i < |handlers|
      invariant 0 <= i <= |handlers| && seen + Seen(handlers[i..], current) == Seen(handlers, event)
    {
      var r := handlers[i](current);
      ghost var rest := SeenAfter(handlers[i..], r);
      assert Seen(handlers[i..], current) == [current] + rest;
      Regroup(seen, [current], rest);
      seen := seen + [current];
      if !r.PassedOn? {
        assert seen + [] == seen;
        return;
      }
      assert handlers[i..][1..] == handlers[i + 1..];
      current := r.event;
      i := i + 1;
    }
    assert seen + [] == seen;
  }

  /** An event the first `k` handlers are not interested in reaches handler `k` unchanged. */
  lemma {:induction false} UninterestedHandlersAreTransparent<E>(handlers: seq<E -> Handled<E>>, e: E, k: nat)
    requires k < |handlers| && forall i :: 0 <= i < k ==> handlers[i](e) == PassedOn(e)
    ensures |Seen(handlers, e)| > k && Seen(handlers, e)[k] == e
    ensures !handlers[k](e).PassedOn? ==> |Seen(handlers, e)| == k + 1
  {
    if k > 0 {
      assert forall i :: 0 <= i < k - 1 ==> handlers[1..][i] == handlers[i + 1];
      UninterestedHandlersAreTransparent(handlers[1..], e, k - 1);
    }
  }

  // ---- The handlers the client installs ----

  datatype ConnectionEvent = ConnectedEvent | DisconnectedEvent | PingTimer

  datatype ServerEvent =
    | BlockListEvent(payload: string)
    | ConnectionChange(event: ConnectionEvent)
    | ContactListEvent(payload: string)
    | UserStatusEvent(payload: string)
    | UserInfoEvent(payload: string)
    | RoomEvent(payload: string)
    | OccupantEvent(payload: string)
    | RequestEvent(payload: string)
    | MessageEvent(message: Message)
    | SidebarBookmarkEvent(payload: string)
    | SyncedRoomSettingsEvent(payload: string)
    | UserDeviceEvent(payload: string)

  datatype Handler =
    | ConnectionHandler | RequestsHandler | UserInfoHandler | MessagesHandler | RoomsHandler
    | BookmarksHandler | ContactListHandler | BlockListHandler | UserDevicesHandler | SyncedRoomSettingsHandler

  const HANDLERS := [ConnectionHandler, RequestsHandler, UserInfoHandler, MessagesHandler, RoomsHandler,
                     BookmarksHandler, ContactListHandler, BlockListHandler, UserDevicesHandler,
                     SyncedRoomSettingsHandler]

  /** The first match arm of each handler. */
  predicate Concerns(h: Handler, e: ServerEvent) {
    match h
    case ConnectionHandler => e.ConnectionChange?
    case RequestsHandler => e.RequestEvent?
    case UserInfoHandler => e.UserInfoEvent?
    case MessagesHandler => e.MessageEvent?
    case RoomsHandler => e.OccupantEvent? || e.RoomEvent? || e.UserStatusEvent? || e == ConnectionChange(PingTimer)
    case BookmarksHandler => e.SidebarBookmarkEvent?
    case ContactListHandler => e.ContactListEvent?
    case BlockListHandler => e.BlockListEvent?
    case UserDevicesHandler => e.UserDeviceEvent?
    case SyncedRoomSettingsHandler => e.SyncedRoomSettingsEvent?
  }

  /** `fails`: handling the event ends in an error. The ping timer is for several handlers. */
  function React(h: Handler, e: ServerEvent, fails: bool): Handled<ServerEvent> {
    if !Concerns(h, e) then PassedOn(e)
    else if h.ConnectionHandler? && e == ConnectionChange(PingTimer) then PassedOn(e)
    else if fails then Aborted
    else if e == ConnectionChange(PingTimer) then PassedOn(e)
    else Swallowed
  }

  function Installed(h: Handler, fails: (Handler, ServerEvent) -> bool): ServerEvent -> Handled<ServerEvent> {
    (e: ServerEvent) => React(h, e, fails(h, e))
  }

  function Chain(hs: seq<Handler>, fails: (Handler, ServerEvent) -> bool): (c: seq<ServerEvent -> Handled<ServerEvent>>)
    ensures |c| == |hs| && forall i :: 0 <= i < |c| ==> c[i] == Installed(hs[i], fails)
  {
    seq(|hs|, i requires 0 <= i < |hs| => Installed(hs[i], fails))
  }

  /** Where in the chain the events of a kind are dealt with. */
  function Owner(e: ServerEvent): (i: nat)
    ensures i < |HANDLERS|
  {
    match e
    case BlockListEvent(_) => 7
    case ConnectionChange(_) => 0
    case ContactListEvent(_) => 6
    case UserStatusEvent(_) => 4
    case UserInfoEvent(_) => 2
    case RoomEvent(_) => 4
    case OccupantEvent(_) => 4
    case RequestEvent(_) => 1
    case MessageEvent(_) => 3
    case SidebarBookmarkEvent(_) => 5
    case SyncedRoomSettingsEvent(_) => 9
    case UserDeviceEvent(_) => 8
  }

  lemma OwnersAreUnique(e: ServerEvent, i: nat)
    requires e != ConnectionChange(PingTimer) && i < |HANDLERS|
    ensures Concerns(HANDLERS[i], e) <==> i == Owner(e)
  {
  }

  lemma OnlyTheOwnerStopsIt(fails: (Handler, ServerEvent) -> bool, e: ServerEvent, i: nat)
    requires e != ConnectionChange(PingTimer) && i < |HANDLERS|
    ensures var r := Installed(HANDLERS[i], fails)(e);
            if i == Owner(e) then !r.PassedOn? else r == PassedOn(e)
  {
    OwnersAreUnique(e, i);
    assert Installed(HANDLERS[i], fails)(e) == React(HANDLERS[i], e, fails(HANDLERS[i], e));
  }

  lemma ChainStopsAtOwner(fails: (Handler, ServerEvent) -> bool, e: ServerEvent)
    requires e != ConnectionChange(PingTimer)
    ensures var chain, k := Chain(HANDLERS, fails), Owner(e);
            (forall i :: 0 <= i < k ==> chain[i](e) == PassedOn(e)) && !chain[k](e).PassedOn?
  {
    var chain := Chain(HANDLERS, fails);
    OnlyTheOwnerStopsIt(fails, e, Owner(e));
    forall i | 0 <= i < Owner(e) ensures chain[i](e) == PassedOn(e) { OnlyTheOwnerStopsIt(fails, e, i); }
  }

  /**
   The ping timer is passed on by the two handlers it concerns: all ten get to see it, unless
   the rooms handler, the fifth, fails.
   */
  lemma PingReachesEveryHandler(fails: (Handler, ServerEvent) -> bool)
    ensures var ping := ConnectionChange(PingTimer);
            var seen := Seen(Chain(HANDLERS, fails), ping);
            && |seen| == (if fails(RoomsHandler, ping) then 5 else 10)
            && forall i :: 0 <= i < |seen| ==> seen[i] == ping
  {
    var ping, chain := ConnectionChange(PingTimer), Chain(HANDLERS, fails);
    forall i | 0 <= i < 10 ensures chain[i](ping) == React(HANDLERS[i], ping, fails(HANDLERS[i], ping)) {
      assert Installed(HANDLERS[i], fails)(ping) == React(HANDLERS[i], ping, fails(HANDLERS[i], ping));
    }
    PassedThrough(chain, ping, if fails(RoomsHandler, ping) then 4 else 9);
  }

  /** What the first `k` handlers pass on unchanged is what the first `k + 1` see. */
  lemma {:induction false} PassedThrough<E>(handlers: seq<E -> Handled<E>>, e: E, k: nat)
    requires k < |handlers| && forall i :: 0 <= i < k ==> handlers[i](e) == PassedOn(e)
    requires !handlers[k](e).PassedOn? || k == |handlers| - 1
    ensures |Seen(handlers, e)| == k + 1 && forall i :: 0 <= i <= k ==> Seen(handlers, e)[i] == e
  {
    if k > 0 {
      assert forall i :: 0 <= i < k ==> handlers[1..][i] == handlers[i + 1];
      PassedThrough(handlers[1..], e, k - 1);
    } else if handlers[0](e).PassedOn? {
      assert Seen(handlers[1..], handlers[0](e).event) == [];
    }
  }

  /**
   Whichever handlers fail, every event but the ping timer gets to its one handler unchanged
   and ends there; so a message, fresh or replayed, is decided on by the messages handler.
   */
  lemma EveryEventReachesItsHandler(fails: (Handler, ServerEvent) -> bool, e: ServerEvent)
    requires e != ConnectionChange(PingTimer)
    ensures var seen := Seen(Chain(HANDLERS, fails), e);
            |seen| == Owner(e) + 1 && seen[Owner(e)] == e && (e.MessageEvent? ==> HANDLERS[Owner(e)] == MessagesHandler)
  {
    ChainStopsAtOwner(fails, e);
    UninterestedHandlersAreTransparent(Chain(HANDLERS, fails), e, Owner(e));
  }
}
