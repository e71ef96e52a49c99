/**
 Runs of the correlator in terms of their steps alone: what was sent when, what has arrived,
 what the clock says, and which step is to blame for an outcome.
 */
module RequestHistory {
  import opened Basics
  import opened Requests
  import opened PendingRequests
  import opened RequestPurge
  import opened RequestRuns

  // ---- What the steps say ----

  /** The clock as it was set last. */
  ghost function Clock(steps: seq<Step>): nat {
    if steps == [] then 0
    else if steps[|steps| - 1].SetClock? then steps[|steps| - 1].time
    else Clock(steps[..|steps| - 1])
  }

  /** The elements received, in order. */
  ghost function Received(steps: seq<Step>): seq<XmppElement> {
    if steps == [] then []
    else
      var front, last := Received(steps[..|steps| - 1]), steps[|steps| - 1];
      if last.Stanza? then front + [last.element] else front
  }

  /** The clock at the last tick that found no listed request stamped in the future. */
  ghost function LastTick(steps: seq<Step>): nat {
    if steps == [] then 0
    else
      var front := steps[..|steps| - 1];
      if steps[|steps| - 1].Tick? && !ClockBehind(After(front)) then Clock(front) else LastTick(front)
  }

  lemma ClockBehindExactly(s: System)
    ensures ClockBehind(s) <==> FutureAt(s.pending, s.now) < |s.pending|
  {
    var n := FutureAt(s.pending, s.now);
    if n < |s.pending| { assert s.pending[n] in s.pending; }
  }

  lemma NextFollowsStep(s: System, step: Step)
    requires Safe(s)
    ensures var s' := Next(s, step);
            && s'.now == (if step.SetClock? then step.time else s.now)
            && s'.arrivals == (if step.Stanza? then s.arrivals + [step.element] else s.arrivals)
            && s'.lastTick == (if step.Tick? && !ClockBehind(s) then s.now else s.lastTick)
  {
    ClockBehindExactly(s);
  }

  /** Time and traffic of a run are those of its steps. */
  lemma {:induction false} RunFollowsSteps(steps: seq<Step>)
    ensures After(steps).now == Clock(steps) && After(steps).arrivals == Received(steps)
    ensures After(steps).lastTick == LastTick(steps)
  {
    if steps != [] {
      var front, last := steps[..|steps| - 1], steps[|steps| - 1];
      RunFollowsSteps(front);
      EveryRunIsSafe(front);
      NextFollowsStep(After(front), last);
    }
  }

  // ---- When a request was sent ----

  /** Step `j` sends request `k`. */
  ghost predicate Sends(steps: seq<Step>, j: nat, k: nat) {
    j < |steps| && steps[j].Send? && After(steps[..j]).next == k
  }

  lemma SendsEarlier(front: seq<Step>, last: Step, j: nat, k: nat)
    requires Sends(front, j, k)
    ensures Sends(front + [last], j, k) && (front + [last])[j] == front[j] && (front + [last])[..j] == front[..j]
  {
    assert (front + [last])[..j] == front[..j];
  }

  lemma SendsNow(front: seq<Step>, r: Request)
    ensures Sends(front + [Send(r)], |front|, After(front).next) && (front + [Send(r)])[..|front|] == front
  {
    assert (front + [Send(r)])[..|front|] == front;
  }

  lemma {:induction false} NumbersGrow(steps: seq<Step>, j: nat)
    requires j <= |steps|
    ensures After(steps[..j]).next <= After(steps).next
    ensures j < |steps| && steps[j].Send? ==> After(steps[..j]).next < After(steps).next
    decreases |steps|
  {
    if j == |steps| {
      assert steps[..j] == steps;
    } else {
      var front := steps[..|steps| - 1];
      assert front[..j] == steps[..j];
      EveryRunIsSafe(front);
      NumbersGrow(front, j);
    }
  }

  /** A request is sent once. */
  lemma SentOnce(steps: seq<Step>, i: nat, j: nat, k: nat)
    requires Sends(steps, i, k) && Sends(steps, j, k)
    ensures i == j
  {
    if i < j {
      assert steps[..j][..i] == steps[..i];
      NumbersGrow(steps[..j], i);
    } else if j < i {
      assert steps[..i][..j] == steps[..j];
      NumbersGrow(steps[..i], j);
    }
  }

  lemma NextKeepsEntry(s: System, step: Step, x: Entry<nat>)
    requires Safe(s) && x in Next(s, step).pending
    ensures x in s.pending || (step.Send? && x.future == s.next && x.timestamp == s.now)
  {
    match step
    case SendFailed(k, err) => if k < s.next { RetainIsExactly(s.pending, k); }
    case Stanza(e) => VisitOnlyRemoves(s.pending, s.table, e);
    case Tick => LeftIsFromTheList(s.pending, s.now);
    case _ =>
  }

  /** A listed request carries the time of the clock when it was sent. */
  lemma {:induction false} ListedIsStamped(steps: seq<Step>, x: Entry<nat>) returns (j: nat)
    requires x in After(steps).pending
    ensures Sends(steps, j, x.future) && x.timestamp == Clock(steps[..j])
  {
    var front, last := steps[..|steps| - 1], steps[|steps| - 1];
    assert steps == front + [last];
    EveryRunIsSafe(front);
    NextKeepsEntry(After(front), last, x);
    if x in After(front).pending {
      j := ListedIsStamped(front, x);
      SendsEarlier(front, last, j, x.future);
    } else {
      j := |front|;
      SendsNow(front, last.request);
      RunFollowsSteps(front);
    }
  }

  lemma VisitKeepsRequest(pending: seq<Entry<nat>>, table: map<nat, FutureState>, e: XmppElement, k: nat)
    requires Sound(pending, table) && k in table && table[k].value.Some?
    ensures var table' := VisitFrom(pending, table, 0, e).table;
            && k in table' && table'[k].value.Some?
            && table'[k].value.value.Request() == table[k].value.value.Request()
  {
    var claim := VisitOutcome(pending, table, e);
    if claim.Some? && k == pending[claim.value].future { ReduceRespectsClaims(table[k].value.value, e); }
  }

  lemma StanzaKeepsRequest(s: System, e: XmppElement, k: nat)
    requires Safe(s) && k in s.table && s.table[k].value.Some?
    ensures var s' := DoStanza(s, e);
            && k in s'.table && s'.table[k].value.Some?
            && s'.table[k].value.value.Request() == s.table[k].value.value.Request()
  {
    VisitKeepsRequest(s.pending, s.table, e, k);
  }

  ghost predicate Asks(s: System, k: nat, r: Request) {
    k in s.table && s.table[k].value.Some? && s.table[k].value.value.Request() == r
  }

  lemma NextKeepsRequest(s: System, step: Step, k: nat, r: Request)
    requires Safe(s) && Awaits(s, k) && Asks(s, k, r) && Awaits(Next(s, step), k)
    ensures Asks(Next(s, step), k, r)
  {
    match step
    case Stanza(e) => StanzaKeepsRequest(s, e, k);
    case _ =>
  }

  lemma NextAwaits(s: System, step: Step, k: nat)
    requires Safe(s) && Awaits(Next(s, step), k) && !Awaits(s, k)
    ensures step.Send? && k == s.next && Asks(Next(s, step), k, step.request)
  {
    if k in s.table {
      NextLeavesRetiredAlone(s, step, k);
    } else {
      NextIsSafe(s, step);
      NewcomerIsSent(s, step, k);
    }
  }

  lemma NewcomerIsSent(s: System, step: Step, k: nat)
    requires Safe(s) && Safe(Next(s, step)) && k !in s.table && Awaits(Next(s, step), k)
    ensures step.Send? && k == s.next
  {
    match step
    case SendFailed(j, err) => if j < s.next { RetainSparesOthers(s.pending, j, k); }
    case Stanza(e) => VisitKeepsSound(s.pending, s.table, e);
    case _ =>
  }

  /** A request still to be answered asks for what was sent. */
  lemma {:induction false} AwaitedWasSent(steps: seq<Step>, k: nat) returns (j: nat)
    requires Awaits(After(steps), k)
    ensures Sends(steps, j, k) && Asks(After(steps), k, steps[j].request)
  {
    var front, last := steps[..|steps| - 1], steps[|steps| - 1];
    assert steps == front + [last];
    EveryRunIsSafe(front);
    if Awaits(After(front), k) {
      j := AwaitedWasSent(front, k);
      SendsEarlier(front, last, j, k);
      NextKeepsRequest(After(front), last, k, front[j].request);
    } else {
      NextAwaits(After(front), last, k);
      j := |front|;
      SendsNow(front, last.request);
    }
  }

  lemma NextRecords(s: System, step: Step, k: nat)
    requires Safe(s) && k in Next(s, step).sent
    ensures if step.Send? && k == s.next then Next(s, step).sent[k] == Sent(step.request, |s.arrivals|)
            else k in s.sent && Next(s, step).sent[k] == s.sent[k]
  {
  }

  /** What the record says about a request is what its send was, at that point of the traffic. */
  lemma {:induction false} SentIsRecorded(steps: seq<Step>, k: nat) returns (j: nat)
    requires k in After(steps).sent
    ensures Sends(steps, j, k) && After(steps).sent[k] == Sent(steps[j].request, |Received(steps[..j])|)
  {
    var front, last := steps[..|steps| - 1], steps[|steps| - 1];
    assert steps == front + [last];
    EveryRunIsSafe(front);
    OneMoreStep(front, last);
    NextRecords(After(front), last, k);
    if last.Send? && k == After(front).next {
      j := |front|;
      SendsNow(front, last.request);
      RunFollowsSteps(front);
    } else {
      j := SentIsRecorded(front, k);
      SendsEarlier(front, last, j, k);
    }
  }

  // ---- Which step is to blame ----

  /** A disconnect among the steps took request `k` off the list. */
  ghost predicate TakenOff(steps: seq<Step>, k: nat) {
    exists i :: 0 <= i < |steps| && steps[i].Disconnect? && k in Futures(After(steps[..i]).pending)
  }

  lemma NextCancels(s: System, step: Step, k: nat)
    requires Safe(s) && k in Next(s, step).cancelling && k !in s.cancelling
    ensures step.Disconnect? && k in Futures(s.pending)
  {
    match step
    case Disconnect => DisconnectTakes(s, k);
    case CancelOne(i) => if i < |s.cancelling| { CancelRemoves(s, i); }
    case _ =>
  }

  lemma {:induction false} CancelledWasTakenOff(steps: seq<Step>, k: nat)
    requires k in After(steps).cancelling
    ensures TakenOff(steps, k)
  {
    if steps != [] {
      var front, last := steps[..|steps| - 1], steps[|steps| - 1];
      EveryRunIsSafe(front);
      if k in After(front).cancelling {
        CancelledWasTakenOff(front, k);
        var i :| 0 <= i < |front| && front[i].Disconnect? && k in Futures(After(front[..i]).pending);
        assert front[..i] == steps[..i] && front[i] == steps[i];
      } else {
        NextCancels(After(front), last, k);
        assert steps[..|front|] == front;
      }
    }
  }

  /**
   After the steps `before`, the step `step` is right to give request `k` the outcome `o`: it
   is the element that decides what was sent, a tick at least 15 s after the send by the clock,
   the end of a disconnect that took the request, or the refusal to send it.
   */
  ghost predicate Justified(before: seq<Step>, step: Step, k: nat, o: Outcome) {
    match step
    case Stanza(e) =>
      exists i: nat :: Sends(before, i, k) && Decides(e, before[i].request) && o == Verdict(e, before[i].request)
    case Tick =>
      o == Failed(TimedOut) && exists i: nat :: Sends(before, i, k) && Clock(before) - Clock(before[..i]) >= 15_000
    case CancelOne(_) => o == Failed(Disconnected) && TakenOff(before, k)
    case SendFailed(_, err) => k == After(before).next && o == Failed(err)
    case _ => false
  }

  lemma OverdueIsListed(pending: seq<Entry<nat>>, now: nat, k: nat) returns (x: Entry<nat>)
    requires k in Overdue(pending, now)
    ensures x in pending && x.future == k && now - x.timestamp >= 15_000
  {
    var a := pending[..FutureAt(pending, now)];
    var i :| 0 <= i < |a| && now - a[i].timestamp >= TIMEOUT && a[i].future == k;
    x := pending[i];
  }

  lemma CauseIsJustified(before: seq<Step>, step: Step, k: nat, o: Outcome)
    requires Causes(After(before), step, k, o)
    ensures Justified(before, step, k, o)
  {
    match step
    case Stanza(e) =>
      var i := AwaitedWasSent(before, k);
    case Tick =>
      RunFollowsSteps(before);
      var x := OverdueIsListed(After(before).pending, After(before).now, k);
      var i := ListedIsStamped(before, x);
    case CancelOne(i) =>
      assert After(before).cancelling[i] in After(before).cancelling;
      CancelledWasTakenOff(before, k);
    case _ =>
  }

  /** Some step of the run gave `k` the outcome `o`, and was right to. */
  ghost predicate Blamed(steps: seq<Step>, k: nat, o: Outcome) {
    exists j :: 0 <= j < |steps| && Justified(steps[..j], steps[j], k, o)
  }

  lemma CausedIsBlamed(steps: seq<Step>, k: nat, o: Outcome)
    requires Caused(steps, k, o)
    ensures Blamed(steps, k, o)
  {
    var j :| 0 <= j < |steps| && Causes(After(steps[..j]), steps[j], k, o);
    CauseIsJustified(steps[..j], steps[j], k, o);
  }

  /** Every outcome a request has in any run was given to it, rightly, by one of the run's steps. */
  lemma EveryOutcomeIsJustified(steps: seq<Step>, k: nat)
    requires k in After(steps).table && After(steps).table[k].result.Some?
    ensures Blamed(steps, k, After(steps).table[k].result.value)
  {
    EveryOutcomeIsCaused(steps, k);
    CausedIsBlamed(steps, k, After(steps).table[k].result.value);
  }

  /**
   Every success, error or panic a task was given goes back to a step of the run that was right
   to cause it.
   */
  lemma EveryOutputIsJustified(steps: seq<Step>, i: nat)
    requires i < |After(steps).outputs|
    ensures var (k, poll) := After(steps).outputs[i];
            Told(poll).Some? && Blamed(steps, k, Told(poll).value)
  {
    EveryOutputIsCaused(steps, i);
    CausedIsBlamed(steps, After(steps).outputs[i].0, Told(After(steps).outputs[i].1).value);
  }

  // ---- Ages ----

  /** By the clock, request `k` was sent `age` milliseconds ago. */
  ghost predicate Aged(steps: seq<Step>, k: nat, age: int) {
    exists j: nat :: Sends(steps, j, k) && age == Clock(steps) - Clock(steps[..j])
  }

  lemma AgeIsByStamp(steps: seq<Step>, x: Entry<nat>, age: int)
    requires x in After(steps).pending && Aged(steps, x.future, age)
    ensures age == After(steps).now - x.timestamp
  {
    RunFollowsSteps(steps);
    var j := ListedIsStamped(steps, x);
    var l: nat :| Sends(steps, l, x.future) && age == Clock(steps) - Clock(steps[..l]);
    SentOnce(steps, j, l, x.future);
  }

  lemma {:induction false} ListedIsAged(steps: seq<Step>, x: Entry<nat>)
    requires x in After(steps).pending
    ensures Aged(steps, x.future, After(steps).now - x.timestamp)
  {
    RunFollowsSteps(steps);
    var j := ListedIsStamped(steps, x);
  }

  lemma TickSetsTimer(steps: seq<Step>)
    requires !ClockBehind(After(steps))
    ensures After(steps + [Tick]).lastTick == Clock(steps)
  {
    RunFollowsSteps(steps + [Tick]);
    assert (steps + [Tick])[..|steps|] == steps;
  }

  /**
   A tick that finds no request stamped in the future times out exactly the listed requests
   that were sent at least 15 s ago, and touches no other.
   */
  lemma TickGoesByAge(steps: seq<Step>, x: Entry<nat>, age: int)
    requires !ClockBehind(After(steps)) && x in After(steps).pending && Aged(steps, x.future, age)
    ensures var s, s' := After(steps), After(steps + [Tick]);
            && x.future in s.table && x.future in s'.table && s'.lastTick == Clock(steps)
            && (age >= 15_000 ==>
                  x.future !in Futures(s'.pending) && s'.table[x.future].result == Some(Failed(TimedOut)))
            && (age < 15_000 ==> x in s'.pending && s'.table[x.future] == s.table[x.future])
  {
    var s := After(steps);
    var i :| 0 <= i < |s.pending| && s.pending[i] == x;
    TickIsExact(steps, i);
    AgeIsByStamp(steps, x, age);
    TickSetsTimer(steps);
  }

  /** With a punctual timer no request is ever pending for 17 s after it was sent. */
  lemma NobodyWaitsTooLong(steps: seq<Step>, x: Entry<nat>, age: int)
    requires Punctual(steps) && x in After(steps).pending && Aged(steps, x.future, age)
    ensures age < 17_000
  {
    NoRequestOutlivesItsTimeout(steps, x);
    AgeIsByStamp(steps, x, age);
  }

  /** A request is sent, and then only the timer goes: `n` ticks, the first after 999 ms, the others 2 s apart. */
  ghost function Quiet(r: Request, n: nat): seq<Step> {
    if n == 0 then [Send(r)] else Quiet(r, n - 1) + [SetClock(2_000 * n - 1_001)] + [Tick]
  }

  lemma {:induction false} PunctualLonger(steps: seq<Step>, step: Step)
    requires Punctual(steps)
    requires step.SetClock? ==> After(steps).now <= step.time <= After(steps).lastTick + 2_000
    ensures Punctual(steps + [step])
  {
    assert (steps + [step])[..|steps|] == steps;
  }

  lemma YoungOne(x: Entry<nat>, now: nat)
    requires x.timestamp <= now < x.timestamp + 15_000
    ensures Left([x], now) == [x] && FutureAt([x], now) == 1
  {
    SteadyPurge([x], now);
    assert [x][..0] == [];
  }

  lemma {:induction false} QuietWait(front: seq<Step>, x: Entry<nat>, t: nat)
    requires Punctual(front) && After(front).pending == [x]
    requires After(front).now <= t <= After(front).lastTick + 2_000
    ensures var steps := front + [SetClock(t)];
            Punctual(steps) && After(steps).pending == [x] && After(steps).now == t
  {
    EveryRunIsSafe(front);
    PunctualLonger(front, SetClock(t));
    OneMoreStep(front, SetClock(t));
  }

  lemma YoungTick(s: System, x: Entry<nat>)
    requires Safe(s) && s.pending == [x] && x.timestamp <= s.now < x.timestamp + 15_000
    ensures var s' := Next(s, Tick); s'.pending == [x] && s'.now == s'.lastTick == s.now
  {
    YoungOne(x, s.now);
  }

  lemma {:induction false} QuietPurge(waited: seq<Step>, x: Entry<nat>, t: nat)
    requires Punctual(waited) && After(waited).pending == [x] && After(waited).now == t
    requires x.timestamp <= t < x.timestamp + 15_000
    ensures var steps := waited + [Tick];
            Punctual(steps) && After(steps).pending == [x] && After(steps).now == After(steps).lastTick == t
  {
    EveryRunIsSafe(waited);
    PunctualLonger(waited, Tick);
    OneMoreStep(waited, Tick);
    YoungTick(After(waited), x);
  }

  lemma QuietStart(r: Request)
    ensures Punctual([Send(r)]) && After([Send(r)]).pending == [Entry(0, 0, 0)]
    ensures After([Send(r)]).now == After([Send(r)]).lastTick == 0
  {
    assert [] + [Send(r)] == [Send(r)];
    OneMoreStep([], Send(r));
    PunctualLonger([], Send(r));
  }

  lemma {:induction false} QuietRuns(r: Request, n: nat)
    requires n <= 8
    ensures var s := After(Quiet(r, n));
            && Punctual(Quiet(r, n)) && s.pending == [Entry(0, 0, 0)]
            && s.now == s.lastTick == if n == 0 then 0 else 2_000 * n - 1_001
  {
    if n == 0 {
      QuietStart(r);
    } else {
      QuietRuns(r, n - 1);
      var front, t := Quiet(r, n - 1), 2_000 * n - 1_001;
      QuietWait(front, Entry(0, 0, 0), t);
      QuietPurge(front + [SetClock(t)], Entry(0, 0, 0), t);
    }
  }

  /** That bound is sharp: a request can be listed 16,999 ms after it was sent. */
  lemma BoundIsSharp(r: Request, n: nat) returns (steps: seq<Step>)
    requires n == 8
    ensures Punctual(steps) && Entry(0, 0, 0) in After(steps).pending && Aged(steps, 0, 16_999)
  {
    QuietRuns(r, n);
    steps := Quiet(r, n) + [SetClock(16_999)];
    QuietWait(Quiet(r, n), Entry(0, 0, 0), 16_999);
    assert After(steps).pending[0] == Entry(0, 0, 0);
    ListedIsAged(steps, Entry(0, 0, 0));
  }

  // ---- What a poll and a refused send do ----

  /** A poll takes the outcome of a request and hands it out, or leaves its waker with it. */
  lemma PollIsExact(steps: seq<Step>, k: nat, task: Waker)
    ensures var s, s' := After(steps), After(steps + [Poll(k, task)]);
            if k !in s.table then s' == s
            else if s.table[k].result.None? then s'.outputs == s.outputs && Sleeps(s', k, task)
            else
              && |s'.outputs| == |s.outputs| + 1 && s'.outputs[..|s.outputs|] == s.outputs
              && s'.outputs[|s.outputs|].0 == k && Told(s'.outputs[|s.outputs|].1) == s.table[k].result
              && k in s'.table && s'.table[k].result.None?
  {
    EveryRunIsSafe(steps);
    OneMoreStep(steps, Poll(k, task));
  }

  /** A refused request is off the list, everybody else is not, and its caller has a failed future. */
  lemma RefusalIsExact(steps: seq<Step>, k: nat, err: RequestError, j: nat)
    requires k < After(steps).next
    ensures var s, s' := After(steps), After(steps + [SendFailed(k, err)]);
            && (j in Futures(s'.pending) <==> j in Futures(s.pending) && j != k)
            && (j in s.table ==> j in s'.table && s'.table[j] == s.table[j])
            && s.next in s'.table && s'.table[s.next] == FutureState(None, Some(Failed(err)), None)
  {
    EveryRunIsSafe(steps);
    OneMoreStep(steps, SendFailed(k, err));
    RetainSparesOthers(After(steps).pending, k, j);
  }
}
