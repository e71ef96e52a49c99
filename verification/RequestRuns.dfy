/**
 Whole runs of the request correlator: sends, stanzas, timer ticks, disconnects and
 polls in any order, each lock-protected section one step.
 */
module RequestRuns {
  import opened Basics
  import opened Requests
  import opened PendingRequests
  import opened RequestPurge

  const TICK_INTERVAL := 2_000  // milliseconds, crates/prose-xmpp/src/connector/xmpp_rs.rs:158

  datatype Sent = Sent(request: Request, sentAt: nat)

  /**
   The correlator plus a record of its run. Requests are numbered in the order they are
   created. `cancelling` holds the requests a disconnect has taken off the list but not failed
   yet. `arrivals` holds every element received, `takers` who took each of them, `delivered`
   what the modules got, `answers` the position of the element that decided a request,
   `outputs` what polling tasks received, `tickPanics` how many ticks have panicked.
   */
  datatype System = System(
    pending: seq<Entry<nat>>, cancelling: seq<nat>, table: map<nat, FutureState>, next: nat, now: nat, lastTick: nat,
    panicked: bool, arrivals: seq<XmppElement>, takers: seq<Option<nat>>, delivered: seq<XmppElement>,
    sent: map<nat, Sent>, answers: map<nat, nat>, abandoned: set<nat>, outputs: seq<(nat, TaskPoll)>, tickPanics: nat)

  datatype Step =
    | Send(request: Request)                     // push the entry, hand the stanza to the connection
    | SendFailed(future: nat, err: RequestError) // it was refused: retain all others, return a failed future
    | Stanza(element: XmppElement)
    | Tick
    | Disconnect                                 // take the whole list
    | CancelOne(index: nat)                      // fail one of the requests taken
    | Poll(future: nat, task: Waker)
    | SetClock(time: nat)                        // the wall clock, which may also go back

  const START := System([], [], map[], 0, 0, 0, false, [], [], [], map[], map[], {}, [], 0)

  ghost function DoSend(s: System, r: Request): System {
    s.(pending := s.pending + [Entry(s.next, s.next, s.now)], table := s.table[s.next := NewFuture(r)],
       sent := s.sent[s.next := Sent(r, |s.arrivals|)], next := s.next + 1)
  }

  ghost function DoSendFailed(s: System, k: nat, err: RequestError): System {
    if k >= s.next then s
    else s.(pending := Retain(s.pending, k), table := s.table[s.next := FailedFuture(err)],
            abandoned := s.abandoned + {k}, next := s.next + 1)
  }

  ghost function DoStanza(s: System, e: XmppElement): System
    requires Known(s.pending, s.table)
  {
    var v := VisitFrom(s.pending, s.table, 0, e);
    s.(pending := v.pending, table := v.table, panicked := v.panicked,
       arrivals := s.arrivals + [e], takers := s.takers + [v.taker],
       delivered := if v.left.Some? then s.delivered + [v.left.value] else s.delivered,
       answers := if v.taker.None? || |v.pending| == |s.pending| then s.answers
                  else s.answers[v.taker.value := |s.arrivals|])
  }

  /**
   A tick works through the list until an entry stamped in the future makes it panic. That ends
   the handling of the tick, not the client; what was timed out until then stays so.
   */
  ghost function DoTick(s: System): System {
    var done := FutureAt(s.pending, s.now) == |s.pending|;
    s.(pending := Left(s.pending, s.now), table := FailAll(s.table, Overdue(s.pending, s.now), TimedOut),
       lastTick := if done then s.now else s.lastTick, tickPanics := if done then s.tickPanics else s.tickPanics + 1)
  }

  /** Some listed request was stamped later than the clock says. */
  ghost predicate ClockBehind(s: System) { exists x :: x in s.pending && x.timestamp > s.now }

  ghost function Handles(pending: seq<Entry<nat>>): seq<nat> {
    seq(|pending|, i requires 0 <= i < |pending| => pending[i].future)
  }

  ghost function DoDisconnect(s: System): System {
    s.(pending := [], cancelling := s.cancelling + Handles(s.pending))
  }

  ghost function DoCancelOne(s: System, i: nat): System {
    if i >= |s.cancelling| || s.cancelling[i] !in s.table then s
    else
      var k := s.cancelling[i];
      s.(cancelling := s.cancelling[..i] + s.cancelling[i + 1..],
         table := s.table[k := FailWith(s.table[k], Disconnected)])
  }

  /** A panic in a polling task ends that task, not the client. */
  ghost function DoPoll(s: System, k: nat, task: Waker): System {
    if k !in s.table then s
    else
      var (f, poll) := PollFuture(s.table[k], task);
      s.(table := s.table[k := f], outputs := if poll.NotReady? then s.outputs else s.outputs + [(k, poll)])
  }

  ghost function DoSetClock(s: System, t: nat): System { s.(now := t) }

  ghost function Next(s: System, step: Step): System {
    if s.panicked || !Known(s.pending, s.table) then s
    else match step
      case Send(r) => DoSend(s, r)
      case SendFailed(k, err) => DoSendFailed(s, k, err)
      case Stanza(e) => DoStanza(s, e)
      case Tick => DoTick(s)
      case Disconnect => DoDisconnect(s)
      case CancelOne(i) => DoCancelOne(s, i)
      case Poll(k, task) => DoPoll(s, k, task)
      case SetClock(t) => DoSetClock(s, t)
  }

  ghost function Run(s: System, steps: seq<Step>): System {
    if steps == [] then s else Next(Run(s, steps[..|steps| - 1]), steps[|steps| - 1])
  }

  ghost function After(steps: seq<Step>): System { Run(START, steps) }

  lemma OneMoreStep(steps: seq<Step>, step: Step)
    ensures After(steps + [step]) == Next(After(steps), step)
  {
    assert (steps + [step])[..|steps|] == steps;
  }

  // ---- What every run keeps ----

  /** The request is still to be answered: listed, or taken by a disconnect and not failed yet. */
  ghost predicate Awaits(s: System, k: nat) { k in Futures(s.pending) || k in s.cancelling }

  ghost predicate Numbered(s: System) {
    && (forall k :: k in s.table <==> 0 <= k < s.next)
    && forall i :: 0 <= i < |s.pending| ==> s.pending[i].id == s.pending[i].future
  }

  ghost predicate CancellingLive(s: System) {
    && (forall k :: k in s.cancelling ==> k in s.table && s.table[k].Live() && k !in Futures(s.pending))
    && forall i, j :: 0 <= i < j < |s.cancelling| ==> s.cancelling[i] != s.cancelling[j]
  }

  ghost predicate PolledOut(s: System, k: nat) { exists i :: 0 <= i < |s.outputs| && s.outputs[i].0 == k }

  ghost predicate Accounted(s: System) {
    && (forall k :: k in s.table ==> Awaits(s, k) || s.table[k].result.Some? || PolledOut(s, k) || k in s.abandoned)
    && (forall i, j :: 0 <= i < j < |s.outputs| ==> s.outputs[i].0 != s.outputs[j].0)
    && (forall i :: 0 <= i < |s.outputs| ==>
        var k := s.outputs[i].0;
        k in s.table && s.table[k].result.None? && !Awaits(s, k))
  }

  ghost predicate Safe(s: System) {
    && !s.panicked && Sound(s.pending, s.table) && Numbered(s) && CancellingLive(s) && Readable(s.table) && Accounted(s)
  }

  /** Steps that only bring requests nearer to their end are safe. */
  lemma WorkIsSafe(s: System, s': System)
    requires Safe(s) && !s'.panicked
    requires s'.next == s.next && s'.outputs == s.outputs && s'.abandoned == s.abandoned
    requires s'.table.Keys == s.table.Keys && Sound(s'.pending, s'.table) && CancellingLive(s') && Readable(s'.table)
    requires forall i :: 0 <= i < |s'.pending| ==> s'.pending[i] in s.pending
    requires forall k :: k in s.table && Awaits(s', k) ==> Awaits(s, k)
    requires forall k :: k in s.table && !Awaits(s, k) ==> s'.table[k] == s.table[k]
    requires forall k :: k in s.table && Awaits(s, k) && !Awaits(s', k) ==> s'.table[k].result.Some?
    ensures Safe(s')
  {
    assert forall k :: PolledOut(s', k) <==> PolledOut(s, k);
  }

  lemma FuturesGrow(pending: seq<Entry<nat>>, x: Entry<nat>)
    ensures Futures(pending + [x]) == Futures(pending) + {x.future}
  {
    var more := pending + [x];
    assert more[|pending|] == x;
    forall k | k in Futures(pending) ensures k in Futures(more) {
      var i :| 0 <= i < |pending| && pending[i].future == k;
      assert more[i].future == k;
    }
  }

  lemma SendIsSafe(s: System, r: Request)
    requires Safe(s)
    ensures Safe(DoSend(s, r))
  {
    var s' := DoSend(s, r);
    FuturesGrow(s.pending, Entry(s.next, s.next, s.now));
    assert forall i :: 0 <= i < |s.pending| ==> s.pending[i].future in s.table;
    assert forall k :: PolledOut(s', k) <==> PolledOut(s, k);
    assert forall k :: k in s.table ==> (Awaits(s', k) <==> Awaits(s, k));
    assert Awaits(s', s.next);
  }

  lemma RetainSparesOthers(pending: seq<Entry<nat>>, k: nat, j: nat)
    requires forall i :: 0 <= i < |pending| ==> pending[i].id == pending[i].future
    ensures j in Futures(Retain(pending, k)) <==> j in Futures(pending) && j != k
  {
    RetainIsExactly(pending, k);
    if j in Futures(pending) && j != k {
      var i :| 0 <= i < |pending| && pending[i].future == j;
      assert pending[i] in Retain(pending, k);
    }
  }

  lemma SendFailedKeepsLists(s: System, k: nat, err: RequestError)
    requires Safe(s) && k < s.next
    ensures var s' := DoSendFailed(s, k, err);
            && Sound(s'.pending, s'.table) && Numbered(s') && CancellingLive(s')
            && forall j :: j in s.table ==>
                 (Awaits(s', j) <==> j in s.cancelling || (j in Futures(s.pending) && j != k))
  {
    RetainIsExactly(s.pending, k);
    RetainKeepsNoRepeats(s.pending, k);
    forall j { RetainSparesOthers(s.pending, k, j); }
  }

  lemma SendFailedIsSafe(s: System, k: nat, err: RequestError)
    requires Safe(s)
    ensures Safe(DoSendFailed(s, k, err))
  {
    if k < s.next {
      SendFailedKeepsLists(s, k, err);
      assert forall j :: PolledOut(DoSendFailed(s, k, err), j) <==> PolledOut(s, j);
    }
  }

  /** The entries a visit leaves are those of the requests it does not resolve. */
  lemma VisitFutures(s: System, e: XmppElement, k: nat)
    requires Sound(s.pending, s.table) && k in s.table
    ensures var v := VisitFrom(s.pending, s.table, 0, e);
            && v.table.Keys == s.table.Keys
            && (k in Futures(v.pending) <==> k in Futures(s.pending) && v.table[k].result.None?)
            && (k !in Futures(s.pending) ==> v.table[k] == s.table[k])
  {
    var claim := VisitOutcome(s.pending, s.table, e);
    if claim.Some? { ClaimedFutures(s.pending, s.table, claim.value, e, k); }
  }

  lemma StanzaIsSafe(s: System, e: XmppElement)
    requires Safe(s)
    ensures Safe(DoStanza(s, e))
  {
    VisitKeepsSound(s.pending, s.table, e);
    VisitKeepsReadable(s.pending, s.table, e);
    VisitOnlyRemoves(s.pending, s.table, e);
    forall k | k in s.table { VisitFutures(s, e, k); }
    WorkIsSafe(s, DoStanza(s, e));
  }

  lemma TickIsSafe(s: System)
    requires Safe(s)
    ensures Safe(DoTick(s))
  {
    PurgeLeavesSound(s.pending, s.table, s.now);
    LeftIsFromTheList(s.pending, s.now);
    PurgeDivides(s.pending, s.now);
    FailAllKeepsReadable(s.table, Overdue(s.pending, s.now), TimedOut);
    WorkIsSafe(s, DoTick(s));
  }

  lemma DisconnectTakes(s: System, k: nat)
    requires Safe(s)
    ensures k in DoDisconnect(s).cancelling <==> Awaits(s, k)
  {
    var taken := Handles(s.pending);
    if k in Futures(s.pending) {
      var i :| 0 <= i < |s.pending| && s.pending[i].future == k;
      assert taken[i] == k;
    }
  }

  lemma DisconnectIsSafe(s: System)
    requires Safe(s)
    ensures Safe(DoDisconnect(s))
  {
    var s' := DoDisconnect(s);
    forall k { DisconnectTakes(s, k); }
    forall i, j | 0 <= i < j < |s'.cancelling| ensures s'.cancelling[i] != s'.cancelling[j] {
      if i < |s.cancelling| <= j {
        assert s.cancelling[i] in s.cancelling;
        assert s.pending[j - |s.cancelling|].future in Futures(s.pending);
      }
    }
    WorkIsSafe(s, s');
  }

  lemma CancelRemoves(s: System, i: nat)
    requires Safe(s) && i < |s.cancelling|
    ensures var s' := DoCancelOne(s, i);
            && (forall k :: k in s'.cancelling <==> k in s.cancelling && k != s.cancelling[i])
            && forall j, l :: 0 <= j < l < |s'.cancelling| ==> s'.cancelling[j] != s'.cancelling[l]
  {
    var s' := DoCancelOne(s, i);
    assert s.cancelling[i] in s.cancelling;
    forall k | k in s.cancelling && k != s.cancelling[i] ensures k in s'.cancelling {
      var j :| 0 <= j < |s.cancelling| && s.cancelling[j] == k;
      assert s'.cancelling[if j < i then j else j - 1] == k;
    }
    assert forall j :: 0 <= j < |s'.cancelling| ==> s'.cancelling[j] == s.cancelling[if j < i then j else j + 1];
  }

  lemma CancelIsSafe(s: System, i: nat)
    requires Safe(s)
    ensures Safe(DoCancelOne(s, i))
  {
    if i < |s.cancelling| {
      assert s.cancelling[i] in s.cancelling;
      CancelRemoves(s, i);
      WorkIsSafe(s, DoCancelOne(s, i));
    }
  }

  lemma PollIsSafe(s: System, k: nat, task: Waker)
    requires Safe(s)
    ensures Safe(DoPoll(s, k, task))
  {
    if k in s.table {
      var s' := DoPoll(s, k, task);
      assert forall j :: Awaits(s', j) <==> Awaits(s, j);
      assert forall j :: PolledOut(s, j) ==> PolledOut(s', j) by {
        forall j | PolledOut(s, j) ensures PolledOut(s', j) {
          var i :| 0 <= i < |s.outputs| && s.outputs[i].0 == j;
          assert s'.outputs[i].0 == j;
        }
      }
      if s.table[k].result.Some? {
        assert s'.outputs[|s.outputs|].0 == k;
        assert PolledOut(s', k) && !Awaits(s, k);
      }
    }
  }

  lemma SetClockIsSafe(s: System, t: nat)
    requires Safe(s)
    ensures Safe(DoSetClock(s, t))
  {
    var s' := DoSetClock(s, t);
    assert forall k :: (PolledOut(s', k) <==> PolledOut(s, k)) && (Awaits(s', k) <==> Awaits(s, k));
  }

  lemma NextIsSafe(s: System, step: Step)
    requires Safe(s)
    ensures Safe(Next(s, step))
  {
    match step
    case Send(r) => SendIsSafe(s, r);
    case SendFailed(k, err) => SendFailedIsSafe(s, k, err);
    case Stanza(e) => StanzaIsSafe(s, e);
    case Tick => TickIsSafe(s);
    case Disconnect => DisconnectIsSafe(s);
    case CancelOne(i) => CancelIsSafe(s, i);
    case Poll(k, task) => PollIsSafe(s, k, task);
    case SetClock(t) => SetClockIsSafe(s, t);
  }

  /**
   In every run the requests still to be answered are unresolved and hold their value, so the
   client never panics on an "already fulfilled" request, no element is swallowed by a resolved
   one, and every request hands out at most one outcome, also after ticks that have panicked.
   */
  lemma {:induction false} EveryRunIsSafe(steps: seq<Step>)
    ensures Safe(After(steps))
  {
    if steps != [] {
      EveryRunIsSafe(steps[..|steps| - 1]);
      NextIsSafe(After(steps[..|steps| - 1]), steps[|steps| - 1]);
    }
  }

  // ---- A request that has left is left alone ----

  ghost predicate Retired(s: System, k: nat) { k in s.table && !Awaits(s, k) }

  lemma NextLeavesRetiredAlone(s: System, step: Step, k: nat)
    requires Safe(s) && Retired(s, k)
    ensures var s' := Next(s, step);
            && Retired(s', k)
            && (s.table[k].result.None? ==> s'.table[k].result.None?)
            && (!(step.Poll? && step.future == k) ==> s'.table[k] == s.table[k])
  {
    match step
    case Send(r) => FuturesGrow(s.pending, Entry(s.next, s.next, s.now));
    case SendFailed(j, err) => if j < s.next { RetainSparesOthers(s.pending, j, k); }
    case Stanza(e) => VisitFutures(s, e, k);
    case Tick => PurgeDivides(s.pending, s.now);
    case Disconnect => DisconnectTakes(s, k);
    case CancelOne(i) => if i < |s.cancelling| { CancelRemoves(s, i); }
    case Poll(j, task) =>
    case SetClock(t) =>
  }

  /**
   A request that has left never comes back and is never resolved again: whatever happens
   later, only polling it can change its state, and once its outcome has been taken it has
   none any more.
   */
  lemma {:induction false} RetiredForever(steps: seq<Step>, more: seq<Step>, k: nat)
    requires Retired(After(steps), k)
    ensures var s, s' := After(steps), After(steps + more);
            && Retired(s', k)
            && (s.table[k].result.None? ==> s'.table[k].result.None?)
            && ((forall i :: 0 <= i < |more| ==> !(more[i].Poll? && more[i].future == k)) ==> s'.table[k] == s.table[k])
  {
    if more == [] {
      assert steps + more == steps;
    } else {
      var front, last := more[..|more| - 1], more[|more| - 1];
      RetiredForever(steps, front, k);
      EveryRunIsSafe(steps + front);
      NextLeavesRetiredAlone(After(steps + front), last, k);
      assert steps + more == steps + front + [last];
      OneMoreStep(steps + front, last);
    }
  }

  // ---- Whoever sleeps on a request is woken when it is resolved ----

  /** The tasks a step wakes; a tick that panics wakes none. */
  ghost function Wakes(s: System, step: Step): seq<Waker>
    requires Known(s.pending, s.table)
  {
    match step
    case Stanza(e) =>
      var woken := VisitFrom(s.pending, s.table, 0, e).woken;
      if woken.Some? then [woken.value] else []
    case Tick => if PanickingTick(s, step) then [] else WakersOf(s.pending, Overdue(s.pending, s.now), s.table)
    case CancelOne(i) =>
      if i < |s.cancelling| && s.cancelling[i] in s.table && s.table[s.cancelling[i]].waker.Some?
      then [s.table[s.cancelling[i]].waker.value] else []
    case _ => []
  }

  ghost predicate PanickingTick(s: System, step: Step) { step.Tick? && FutureAt(s.pending, s.now) < |s.pending| }

  ghost predicate Resolves(s: System, step: Step, k: nat) {
    && k in s.table && s.table[k].result.None?
    && k in Next(s, step).table && Next(s, step).table[k].result.Some?
  }

  lemma StanzaWakes(s: System, e: XmppElement, k: nat)
    requires Safe(s) && Resolves(s, Stanza(e), k)
    ensures Wakes(s, Stanza(e)) == if s.table[k].waker.Some? then [s.table[k].waker.value] else []
  {
    var claim := VisitOutcome(s.pending, s.table, e);
    assert s.pending[claim.value].future == k;
    ReduceRespectsClaims(s.table[k].value.value, e);
  }

  lemma StanzaWakesNobodyElse(s: System, e: XmppElement, w: Waker) returns (k: nat)
    requires Safe(s) && w in Wakes(s, Stanza(e))
    ensures Resolves(s, Stanza(e), k) && s.table[k].waker == Some(w)
  {
    var claim := VisitOutcome(s.pending, s.table, e);
    k := s.pending[claim.value].future;
    ReduceRespectsClaims(s.table[k].value.value, e);
  }

  lemma TickResolves(s: System, k: nat)
    requires Safe(s)
    ensures Resolves(s, Tick, k) <==> k in Overdue(s.pending, s.now)
    ensures k in Overdue(s.pending, s.now) ==> k in Futures(s.pending)
  {
    PurgeDivides(s.pending, s.now);
    if k in Overdue(s.pending, s.now) {
      var i :| 0 <= i < |s.pending| && s.pending[i].future == k;
      assert s.table[k].Live();
    }
  }

  lemma TickWakesSleeper(s: System, k: nat, w: Waker)
    requires Safe(s) && !PanickingTick(s, Tick) && Resolves(s, Tick, k) && s.table[k].waker == Some(w)
    ensures w in Wakes(s, Tick)
  {
    TickResolves(s, k);
    WakersAreExactly(s.pending, Overdue(s.pending, s.now), s.table, w);
    var i :| 0 <= i < |s.pending| && s.pending[i].future == k;
    assert s.pending[i] in s.pending;
  }

  lemma TickWakesNobodyElse(s: System, w: Waker) returns (k: nat)
    requires Safe(s) && w in Wakes(s, Tick)
    ensures Resolves(s, Tick, k) && s.table[k].waker == Some(w)
  {
    WakersAreExactly(s.pending, Overdue(s.pending, s.now), s.table, w);
    var x :| x in s.pending && x.future in Overdue(s.pending, s.now) && s.table[x.future].waker == Some(w);
    k := x.future;
    TickResolves(s, k);
  }

  lemma CancelWakes(s: System, i: nat, w: Waker)
    requires Safe(s)
    ensures w in Wakes(s, CancelOne(i)) <==> exists k :: Resolves(s, CancelOne(i), k) && s.table[k].waker == Some(w)
  {
    if i < |s.cancelling| {
      var k := s.cancelling[i];
      assert k in s.cancelling && Resolves(s, CancelOne(i), k);
      assert forall l :: Resolves(s, CancelOne(i), l) ==> l == k;
    }
  }

  /** Unless it is a tick that panics, a step wakes exactly the tasks that sleep on a request it resolves. */
  lemma WakesExactly(s: System, step: Step, w: Waker)
    requires Safe(s) && !PanickingTick(s, step)
    ensures w in Wakes(s, step) <==> exists k :: Resolves(s, step, k) && s.table[k].waker == Some(w)
  {
    match step
    case Stanza(e) =>
      if w in Wakes(s, step) {
        var k := StanzaWakesNobodyElse(s, e, w);
      }
      forall k | Resolves(s, step, k) && s.table[k].waker == Some(w) ensures w in Wakes(s, step) {
        StanzaWakes(s, e, k);
      }
    case Tick =>
      if w in Wakes(s, step) {
        var k := TickWakesNobodyElse(s, w);
      }
      forall k | Resolves(s, step, k) && s.table[k].waker == Some(w) ensures w in Wakes(s, step) {
        TickWakesSleeper(s, k, w);
      }
    case CancelOne(i) => CancelWakes(s, i, w);
    case _ =>
  }

  /** Task `w` has found request `k` unresolved and waits to be woken. */
  ghost predicate Sleeps(s: System, k: nat, w: Waker) {
    k in s.table && s.table[k].result.None? && s.table[k].waker == Some(w)
  }

  lemma SleepsOnOrIsResolved(s: System, step: Step, k: nat, w: Waker)
    requires Safe(s) && Sleeps(s, k, w) && !(step.Poll? && step.future == k)
    ensures Sleeps(Next(s, step), k, w) || Resolves(s, step, k)
  {
    match step
    case Stanza(e) => VisitFutures(s, e, k); StanzaKeepsWaker(s, e, k);
    case _ =>
  }

  lemma StanzaKeepsWaker(s: System, e: XmppElement, k: nat)
    requires Safe(s) && k in s.table
    ensures k in DoStanza(s, e).table
    ensures DoStanza(s, e).table[k].result.None? ==> DoStanza(s, e).table[k].waker == s.table[k].waker
  {
    var claim := VisitOutcome(s.pending, s.table, e);
  }

  /** Since step `j` of the run nobody has polled `k`. */
  ghost predicate UnpolledSince(steps: seq<Step>, j: nat, k: nat) {
    forall i :: j < i < |steps| ==> !(steps[i].Poll? && steps[i].future == k)
  }

  /** Some step after `j` resolves `k`, and wakes `w` unless it is a tick that panics. */
  ghost predicate WokenSince(steps: seq<Step>, j: nat, k: nat, w: Waker) {
    exists i :: j < i < |steps| && Wakened(After(steps[..i]), steps[i], k, w)
  }

  ghost predicate Wakened(s: System, step: Step, k: nat, w: Waker) {
    Resolves(s, step, k) && Known(s.pending, s.table) && (w in Wakes(s, step) <==> !PanickingTick(s, step))
  }

  lemma ResolvingWakes(s: System, step: Step, k: nat, w: Waker)
    requires Safe(s) && Sleeps(s, k, w) && Resolves(s, step, k)
    ensures Wakened(s, step, k, w)
  {
    if !PanickingTick(s, step) { WakesExactly(s, step, w); }
  }

  lemma WokenEarlier(front: seq<Step>, last: Step, j: nat, k: nat, w: Waker)
    requires WokenSince(front, j, k, w)
    ensures WokenSince(front + [last], j, k, w)
  {
    var steps := front + [last];
    var i :| j < i < |front| && Wakened(After(front[..i]), front[i], k, w);
    assert front[..i] == steps[..i] && front[i] == steps[i];
  }

  lemma WokenNow(front: seq<Step>, last: Step, j: nat, k: nat, w: Waker)
    requires j < |front| && Wakened(After(front), last, k, w)
    ensures WokenSince(front + [last], j, k, w)
  {
    var steps := front + [last];
    assert steps[..|front|] == front && steps[|front|] == last;
  }

  lemma {:induction false} SleepsUntilWoken(steps: seq<Step>, j: nat, k: nat, w: Waker)
    requires j < |steps| && steps[j] == Poll(k, w) && UnpolledSince(steps, j, k)
    requires k in After(steps[..j]).table && After(steps[..j]).table[k].result.None?
    ensures Sleeps(After(steps), k, w) || WokenSince(steps, j, k, w)
  {
    var front, last := steps[..|steps| - 1], steps[|steps| - 1];
    assert steps == front + [last];
    EveryRunIsSafe(front);
    if j == |front| {
      assert steps[..j] == front;
    } else {
      assert front[..j] == steps[..j];
      SleepsUntilWoken(front, j, k, w);
      if WokenSince(front, j, k, w) {
        WokenEarlier(front, last, j, k, w);
      } else {
        SleepsOnOrIsResolved(After(front), last, k, w);
        if Resolves(After(front), last, k) {
          ResolvingWakes(After(front), last, k, w);
          WokenNow(front, last, j, k, w);
        }
      }
    }
  }

  /**
   In every run: if a poll by task `w` found request `k` unresolved, nobody has polled it
   since, and it is resolved now, then the later step that resolved it woke `w`, unless that
   step is a tick that panicked.
   */
  lemma NoLostWakeup(steps: seq<Step>, j: nat, k: nat, w: Waker)
    requires j < |steps| && steps[j] == Poll(k, w) && UnpolledSince(steps, j, k)
    requires k in After(steps[..j]).table && After(steps[..j]).table[k].result.None?
    requires k in After(steps).table && After(steps).table[k].result.Some?
    ensures WokenSince(steps, j, k, w)
  {
    SleepsUntilWoken(steps, j, k, w);
  }

  /**
   A clock that goes back does lose a wake-up: the tick times out the first request, panics on
   the second, and wakes nobody.
   */
  lemma PanickingTickLosesWakeup(r: Request, r': Request, w: Waker)
    ensures var polled := Next(Next(START, Send(r)), Poll(0, w));
            var s := Next(Next(Next(polled, SetClock(20_000)), Send(r')), SetClock(15_000));
            && Sleeps(s, 0, w) && Known(s.pending, s.table) && Wakes(s, Tick) == []
            && 0 in Next(s, Tick).table && Next(s, Tick).table[0].result == Some(Failed(TimedOut))
  {
    var polled := Next(Next(START, Send(r)), Poll(0, w));
    assert polled.pending == [Entry(0, 0, 0)];
    var s := Next(Next(Next(polled, SetClock(20_000)), Send(r')), SetClock(15_000));
    assert s.pending == [Entry(0, 0, 0), Entry(1, 1, 20_000)];
    HalfDoneTick(s);
  }

  lemma HalfDoneTick(s: System)
    requires s.pending == [Entry(0, 0, 0), Entry(1, 1, 20_000)] && s.now == 15_000 && !s.panicked
    requires Known(s.pending, s.table)
    ensures Wakes(s, Tick) == []
    ensures 0 in Next(s, Tick).table && Next(s, Tick).table[0].result == Some(Failed(TimedOut))
  {
    assert s.pending[0].future in s.table && s.pending[1].timestamp > s.now;
    var n := FutureAt(s.pending, s.now);
    assert n == 1;
    assert s.pending[..n][0].future == 0;
  }

  // ---- Every outcome has its cause ----

  /** The outcome an element that decides `r` brings about. */
  function Verdict(e: XmppElement, r: Request): Outcome { if Fulfils(e, r) then Done else Failed(Rejection(e)) }

  /** In state `s`, `step` gives request `k` the outcome `o`, and is right to do so. */
  ghost predicate Causes(s: System, step: Step, k: nat, o: Outcome) {
    match step
    case Stanza(e) =>
      && k in Futures(s.pending) && k in s.table && s.table[k].value.Some?
      && Decides(e, s.table[k].value.value.Request()) && o == Verdict(e, s.table[k].value.value.Request())
    case Tick => k in Overdue(s.pending, s.now) && o == Failed(TimedOut)
    case CancelOne(i) => i < |s.cancelling| && k == s.cancelling[i] && o == Failed(Disconnected)
    case SendFailed(_, err) => k == s.next && o == Failed(err)
    case _ => false
  }

  lemma StanzaCauses(s: System, e: XmppElement, k: nat)
    requires Safe(s) && k in s.table && s.table[k].result.None?
    requires k in DoStanza(s, e).table && DoStanza(s, e).table[k].result.Some?
    ensures Causes(s, Stanza(e), k, DoStanza(s, e).table[k].result.value)
  {
    var claim := VisitOutcome(s.pending, s.table, e);
    var i := claim.value;
    assert s.pending[i].future == k;
    ReduceRespectsClaims(s.table[k].value.value, e);
  }

  lemma NextResolvesForCause(s: System, step: Step, k: nat)
    requires Safe(s) && k in Next(s, step).table && Next(s, step).table[k].result.Some?
    requires k in s.table ==> s.table[k].result.None?
    ensures Causes(s, step, k, Next(s, step).table[k].result.value)
  {
    match step
    case Stanza(e) => VisitKeepsSound(s.pending, s.table, e); StanzaCauses(s, e, k);
    case _ =>
  }

  lemma NextKeepsResult(s: System, step: Step, k: nat)
    requires Safe(s) && k in s.table && s.table[k].result.Some?
    ensures k in Next(s, step).table
    ensures Next(s, step).table[k].result == s.table[k].result || Next(s, step).table[k].result.None?
  {
    NextLeavesRetiredAlone(s, step, k);
  }

  /** What a poll says about the outcome it took. */
  function Told(p: TaskPoll): Option<Outcome> {
    match p
    case NotReady => None
    case ReadyErr(err) => Some(Failed(err))
    case _ => Some(Done)
  }

  ghost predicate Caused(steps: seq<Step>, k: nat, o: Outcome) {
    exists j :: 0 <= j < |steps| && Causes(After(steps[..j]), steps[j], k, o)
  }

  lemma CausedEarlier(front: seq<Step>, last: Step, k: nat, o: Outcome)
    requires Caused(front, k, o)
    ensures Caused(front + [last], k, o)
  {
    var steps := front + [last];
    var j :| 0 <= j < |front| && Causes(After(front[..j]), front[j], k, o);
    assert front[..j] == steps[..j] && front[j] == steps[j];
  }

  lemma CausedNow(front: seq<Step>, last: Step, k: nat, o: Outcome)
    requires Causes(After(front), last, k, o)
    ensures Caused(front + [last], k, o)
  {
    var steps := front + [last];
    assert steps[..|front|] == front && steps[|front|] == last;
  }

  /** Every outcome a request has in any run was given to it, rightly, by one of the run's steps. */
  lemma {:induction false} EveryOutcomeIsCaused(steps: seq<Step>, k: nat)
    requires k in After(steps).table && After(steps).table[k].result.Some?
    ensures Caused(steps, k, After(steps).table[k].result.value)
  {
    if steps != [] {
      var front, last := steps[..|steps| - 1], steps[|steps| - 1];
      assert steps == front + [last];
      var s := After(front);
      EveryRunIsSafe(front);
      if k in s.table && s.table[k].result.Some? {
        NextKeepsResult(s, last, k);
        EveryOutcomeIsCaused(front, k);
        CausedEarlier(front, last, k, s.table[k].result.value);
      } else {
        NextResolvesForCause(s, last, k);
        CausedNow(front, last, k, After(steps).table[k].result.value);
      }
    }
  }

  /**
   Every success, error or panic a task was given goes back to a step of the run that was right
   to cause it: an answer or a rejection to the element that decided the request, a time-out to
   a tick at which the request was 15 s old, a disconnect to one that took it off the list, a
   refusal to the attempt to send it.
   */
  lemma {:induction false} EveryOutputIsCaused(steps: seq<Step>, i: nat)
    requires i < |After(steps).outputs|
    ensures OutputCaused(steps, After(steps).outputs[i])
  {
    if steps != [] {
      var front, last := steps[..|steps| - 1], steps[|steps| - 1];
      assert steps == front + [last];
      if i < |After(front).outputs| {
        EveryOutputIsCaused(front, i);
        OutputsGrow(After(front), last, i);
        OutputCausedEarlier(front, last, After(front).outputs[i]);
      } else {
        NewOutputIsCaused(front, last);
      }
    }
  }

  ghost predicate OutputCaused(steps: seq<Step>, output: (nat, TaskPoll)) {
    Told(output.1).Some? && Caused(steps, output.0, Told(output.1).value)
  }

  lemma OutputCausedEarlier(front: seq<Step>, last: Step, output: (nat, TaskPoll))
    requires OutputCaused(front, output)
    ensures OutputCaused(front + [last], output)
  {
    CausedEarlier(front, last, output.0, Told(output.1).value);
  }

  lemma NewOutputIsCaused(front: seq<Step>, last: Step)
    requires |Next(After(front), last).outputs| > |After(front).outputs|
    ensures |Next(After(front), last).outputs| == |After(front).outputs| + 1
    ensures OutputCaused(front + [last], Next(After(front), last).outputs[|After(front).outputs|])
  {
    OutputIsTaken(After(front), last);
    EveryOutcomeIsCaused(front, last.future);
    CausedEarlier(front, last, last.future, After(front).table[last.future].result.value);
  }

  lemma OutputIsTaken(s: System, step: Step)
    requires |Next(s, step).outputs| > |s.outputs|
    ensures step.Poll? && step.future in s.table && s.table[step.future].result.Some?
    ensures |Next(s, step).outputs| == |s.outputs| + 1
    ensures var (k, poll) := Next(s, step).outputs[|s.outputs|];
            k == step.future && Told(poll) == s.table[k].result
  {
  }

  lemma OutputsGrow(s: System, step: Step, i: nat)
    requires i < |s.outputs|
    ensures i < |Next(s, step).outputs| && Next(s, step).outputs[i] == s.outputs[i]
  {
  }

  // ---- Timeouts and disconnects ----

  lemma TickReaches(s: System, i: nat)
    requires Safe(s) && i < FutureAt(s.pending, s.now)
    ensures var x := s.pending[i];
            if s.now - x.timestamp >= TIMEOUT then x.future in Overdue(s.pending, s.now) else x in DoTick(s).pending
  {
    var a := s.pending[..FutureAt(s.pending, s.now)];
    YoungIsExactly(a, s.now);
    assert a[i] == s.pending[i] && a[i] in a;
    if s.now - a[i].timestamp < TIMEOUT { assert a[i] in Young(a, s.now); }
  }

  lemma TickOnEntry(s: System, i: nat)
    requires Safe(s) && i < |s.pending|
    ensures var s', x, n := DoTick(s), s.pending[i], FutureAt(s.pending, s.now);
            && x.future in s.table && x.future in s'.table
            && (i < n && s.now - x.timestamp >= TIMEOUT ==>
                  x.future !in Futures(s'.pending) && s'.table[x.future].result == Some(Failed(TimedOut)))
            && (i >= n || s.now - x.timestamp < TIMEOUT ==>
                  x in s'.pending && s'.table[x.future] == s.table[x.future])
  {
    var n, x, left := FutureAt(s.pending, s.now), s.pending[i], DoTick(s).pending;
    PurgeDivides(s.pending, s.now);
    if i < n {
      TickReaches(s, i);
    } else {
      assert left[|left| - |s.pending| + i] == x;
    }
    if x in left { InFutures(left, x); }
  }

  lemma InFutures(pending: seq<Entry<nat>>, x: Entry<nat>)
    requires x in pending
    ensures x.future in Futures(pending)
  {
    var i :| 0 <= i < |pending| && pending[i] == x;
  }

  /**
   A tick times out exactly the requests that are at least 15 s old, among those it gets to,
   and touches no other; it gets to all of them if and only if none is stamped in the future.
   */
  lemma TickIsExact(steps: seq<Step>, i: nat)
    requires i < |After(steps).pending|
    ensures var s, s' := After(steps), After(steps + [Tick]);
            var x, n := s.pending[i], FutureAt(s.pending, s.now);
            && x.future in s.table && x.future in s'.table
            && (i < n && s.now - x.timestamp >= TIMEOUT ==>
                  x.future !in Futures(s'.pending) && s'.table[x.future].result == Some(Failed(TimedOut)))
            && (i >= n || s.now - x.timestamp < TIMEOUT ==>
                  x in s'.pending && s'.table[x.future] == s.table[x.future])
            && (n == |s.pending| <==> !ClockBehind(s))
  {
    EveryRunIsSafe(steps);
    OneMoreStep(steps, Tick);
    TickOnEntry(After(steps), i);
    var s := After(steps);
    var n := FutureAt(s.pending, s.now);
    if n < |s.pending| { assert s.pending[n] in s.pending; }
  }

  // ---- When do ticks panic? ----

  /** The clock never goes back. */
  ghost predicate Steady(steps: seq<Step>) {
    steps != [] ==>
      var front, last := steps[..|steps| - 1], steps[|steps| - 1];
      Steady(front) && (last.SetClock? ==> After(front).now <= last.time)
  }

  /** No tick is taken while the clock is behind the stamp of a listed request. */
  ghost predicate NeverBehind(steps: seq<Step>) {
    steps != [] ==>
      var front, last := steps[..|steps| - 1], steps[|steps| - 1];
      NeverBehind(front) && (last.Tick? ==> !ClockBehind(After(front)))
  }

  /** The client gets through a run without a panic if and only if no tick finds the clock behind. */
  lemma {:induction false} ClientPanicsExactly(steps: seq<Step>)
    ensures !After(steps).panicked && (After(steps).tickPanics == 0 <==> NeverBehind(steps))
  {
    EveryRunIsSafe(steps);
    if steps != [] {
      var front, last := steps[..|steps| - 1], steps[|steps| - 1];
      ClientPanicsExactly(front);
      EveryRunIsSafe(front);
      var s := After(front);
      if last.Tick? {
        var n := FutureAt(s.pending, s.now);
        if n < |s.pending| { assert s.pending[n] in s.pending; }
      }
    }
  }

  lemma NextStaysAhead(s: System, step: Step)
    requires Safe(s) && !ClockBehind(s) && (step.SetClock? ==> s.now <= step.time)
    ensures !ClockBehind(Next(s, step))
  {
    match step
    case SendFailed(k, err) => if k < s.next { RetainIsExactly(s.pending, k); }
    case Stanza(e) => VisitOnlyRemoves(s.pending, s.table, e);
    case Tick => LeftIsFromTheList(s.pending, s.now);
    case _ =>
  }

  /** With a clock that never goes back that is every run. */
  lemma {:induction false} SteadyClockNeverPanics(steps: seq<Step>)
    requires Steady(steps)
    ensures NeverBehind(steps) && !ClockBehind(After(steps)) && After(steps).tickPanics == 0
  {
    if steps != [] {
      var front, last := steps[..|steps| - 1], steps[|steps| - 1];
      SteadyClockNeverPanics(front);
      EveryRunIsSafe(front);
      NextStaysAhead(After(front), last);
      ClientPanicsExactly(steps);
    }
  }

  // ---- Disconnects ----

  /** A disconnect empties the list at once and takes over exactly the requests that were on it. */
  lemma DisconnectIsExact(steps: seq<Step>, k: nat)
    ensures var s, s' := After(steps), After(steps + [Disconnect]);
            s'.pending == [] && s'.table == s.table && (k in s'.cancelling <==> Awaits(s, k))
  {
    EveryRunIsSafe(steps);
    OneMoreStep(steps, Disconnect);
    DisconnectTakes(After(steps), k);
  }

  /** Cancelling fails one of these, unresolved until then, as disconnected, and touches no other. */
  lemma CancelIsExact(steps: seq<Step>, i: nat, k: nat)
    requires i < |After(steps).cancelling| && k in After(steps).table
    ensures var s, s' := After(steps), After(steps + [CancelOne(i)]);
            && k in s'.table && (k in s'.cancelling <==> k in s.cancelling && k != s.cancelling[i])
            && (k == s.cancelling[i] ==> s.table[k].Live() && s'.table[k].result == Some(Failed(Disconnected)))
            && (k != s.cancelling[i] ==> s'.table[k] == s.table[k])
  {
    EveryRunIsSafe(steps);
    OneMoreStep(steps, CancelOne(i));
    assert After(steps).cancelling[i] in After(steps).cancelling;
    CancelRemoves(After(steps), i);
  }

  // ---- No request is pending for too long ----

  /** The clock never goes back, and the timer never lets more than its interval pass. */
  ghost predicate Punctual(steps: seq<Step>) {
    steps != [] ==>
      var front, last := steps[..|steps| - 1], steps[|steps| - 1];
      && Punctual(front)
      && (last.SetClock? ==> After(front).now <= last.time <= After(front).lastTick + TICK_INTERVAL)
  }

  ghost predicate Timely(s: System) {
    && !ClockBehind(s) && s.lastTick <= s.now <= s.lastTick + TICK_INTERVAL
    && forall x :: x in s.pending ==> s.lastTick - x.timestamp < TIMEOUT
  }

  lemma TickIsTimely(s: System)
    requires Safe(s) && Timely(s)
    ensures Timely(DoTick(s))
  {
    forall i | 0 <= i < |s.pending| ensures s.pending[i].timestamp <= s.now { assert s.pending[i] in s.pending; }
    SteadyPurge(s.pending, s.now);
    YoungIsExactly(s.pending, s.now);
  }

  lemma NextIsTimely(s: System, step: Step)
    requires Safe(s) && Timely(s)
    requires step.SetClock? ==> s.now <= step.time <= s.lastTick + TICK_INTERVAL
    ensures Timely(Next(s, step))
  {
    NextStaysAhead(s, step);
    match step
    case SendFailed(k, err) => if k < s.next { RetainIsExactly(s.pending, k); }
    case Stanza(e) => VisitOnlyRemoves(s.pending, s.table, e);
    case Tick => TickIsTimely(s);
    case _ =>
  }

  lemma {:induction false} PunctualRunIsTimely(steps: seq<Step>)
    requires Punctual(steps)
    ensures Timely(After(steps))
  {
    if steps != [] {
      var front := steps[..|steps| - 1];
      PunctualRunIsTimely(front);
      EveryRunIsSafe(front);
      NextIsTimely(After(front), steps[|steps| - 1]);
    }
  }

  /** With a punctual timer no request is ever pending for 17 s. */
  lemma NoRequestOutlivesItsTimeout(steps: seq<Step>, x: Entry<nat>)
    requires Punctual(steps) && x in After(steps).pending
    ensures After(steps).now - x.timestamp < TIMEOUT + TICK_INTERVAL
  {
    PunctualRunIsTimely(steps);
  }
}
