/**
 What the requests of a run are answered with: who gets which element, and what whoever
 awaits a request is finally given.
 */
module RequestAnswers {
  import opened Basics
  import opened Requests
  import opened PendingRequests
  import opened RequestPurge
  import opened RequestRuns

  // ---- The elements nobody took, and those one request took ----

  ghost function Untaken(es: seq<XmppElement>, takers: seq<Option<nat>>): seq<XmppElement>
    requires |es| == |takers|
  {
    if es == [] then []
    else
      var n := |es| - 1;
      Untaken(es[..n], takers[..n]) + if takers[n].None? then [es[n]] else []
  }

  ghost function TakenBy(es: seq<XmppElement>, takers: seq<Option<nat>>, k: nat): seq<XmppElement>
    requires |es| == |takers|
  {
    if es == [] then []
    else
      var n := |es| - 1;
      TakenBy(es[..n], takers[..n], k) + if takers[n] == Some(k) then [es[n]] else []
  }

  lemma TakenPush(es: seq<XmppElement>, takers: seq<Option<nat>>, e: XmppElement, taker: Option<nat>, k: nat)
    requires |es| == |takers|
    ensures TakenBy(es + [e], takers + [taker], k) ==
            if taker == Some(k) then TakenBy(es, takers, k) + [e] else TakenBy(es, takers, k)
    ensures Untaken(es + [e], takers + [taker]) ==
            if taker.None? then Untaken(es, takers) + [e] else Untaken(es, takers)
  {
    assert (es + [e])[..|es|] == es && (takers + [taker])[..|es|] == takers;
  }

  lemma {:induction false} TakenNone(es: seq<XmppElement>, takers: seq<Option<nat>>, k: nat)
    requires |es| == |takers| && forall a :: 0 <= a < |takers| ==> takers[a] != Some(k)
    ensures TakenBy(es, takers, k) == []
  {
    if es != [] { TakenNone(es[..|es| - 1], takers[..|es| - 1], k); }
  }

  // ---- The record of a run ----

  ghost function Gathered(s: System, k: nat): ReducerState
    requires |s.arrivals| == |s.takers| && k in s.sent
  {
    ReduceAll(s.sent[k].request, TakenBy(s.arrivals, s.takers, k))
  }

  /** Every element was handed on, or taken by a request that was waiting for it. */
  ghost predicate TrafficKept(s: System) {
    && |s.takers| == |s.arrivals| && s.delivered == Untaken(s.arrivals, s.takers)
    && (forall k :: k in s.sent ==> k < s.next && s.sent[k].sentAt <= |s.arrivals|)
    && forall a :: 0 <= a < |s.takers| && s.takers[a].Some? ==> TakenRightly(s, a, s.takers[a].value)
  }

  /** Request `k` took the element at `a` after it was sent; the one that decides it is the last it takes. */
  ghost predicate TakenRightly(s: System, a: nat, k: nat)
    requires a < |s.arrivals|
  {
    && k in s.sent && s.sent[k].sentAt <= a && Claims(s.sent[k].request, s.arrivals[a])
    && (Decides(s.arrivals[a], s.sent[k].request) <==> k in s.answers && s.answers[k] == a)
    && (k in s.answers ==> a <= s.answers[k])
  }

  ghost predicate AnswersKept(s: System)
    requires |s.takers| == |s.arrivals|
  {
    forall k :: k in s.answers ==>
      k in s.sent && !Awaits(s, k) && s.answers[k] < |s.arrivals| && s.takers[s.answers[k]] == Some(k)
  }

  /** The request was decided in its favour. */
  ghost predicate Fulfilled(s: System, k: nat) {
    k in s.sent && k in s.answers && s.answers[k] < |s.arrivals| && Fulfils(s.arrivals[s.answers[k]], s.sent[k].request)
  }

  /** Requests hold what their reducers made of the elements they took, and tasks were given that. */
  ghost predicate StatesKept(s: System)
    requires |s.takers| == |s.arrivals|
  {
    && (forall k :: Awaits(s, k) ==> k in s.sent && k in s.table && s.table[k].value == Some(Gathered(s, k)))
    && (forall k :: k in s.table && s.table[k].result == Some(Done) ==>
          Fulfilled(s, k) && s.table[k].value == Some(Gathered(s, k)))
    && (forall i :: 0 <= i < |s.outputs| && Told(s.outputs[i].1) == Some(Done) ==> GivenRightly(s, i))
  }

  ghost predicate GivenRightly(s: System, i: nat)
    requires |s.takers| == |s.arrivals| && i < |s.outputs|
  {
    var (k, poll) := s.outputs[i];
    && Fulfilled(s, k)
    && poll == match Transform(Gathered(s, k)) case Some(out) => ReadyOk(out) case None => TaskPanic
  }

  ghost predicate Kept(s: System) { TrafficKept(s) && AnswersKept(s) && StatesKept(s) }

  ghost predicate Recorded(s: System) { Safe(s) && Kept(s) }

  // ---- Steps that receive nothing ----

  /** The record of what was received and taken stays as it is. */
  ghost predicate SameTraffic(s: System, s': System) {
    && s'.arrivals == s.arrivals && s'.takers == s.takers && s'.delivered == s.delivered
    && s'.sent == s.sent && s'.answers == s.answers && s.next <= s'.next
  }

  /** No request is added, and those that go on waiting keep their value. */
  ghost predicate OnlyLeaving(s: System, s': System) {
    && (forall k :: Awaits(s', k) ==>
          Awaits(s, k) && k in s.table && k in s'.table && s'.table[k].value == s.table[k].value)
    && forall k :: k in s'.table && s'.table[k].result == Some(Done) ==> k in s.table && s'.table[k] == s.table[k]
  }

  lemma QuietStepKeepsTraffic(s: System, s': System)
    requires TrafficKept(s) && SameTraffic(s, s')
    ensures TrafficKept(s')
  {
    forall a | 0 <= a < |s'.takers| && s'.takers[a].Some? ensures TakenRightly(s', a, s'.takers[a].value) {
      assert TakenRightly(s, a, s.takers[a].value);
    }
  }

  lemma QuietStepKeepsStates(s: System, s': System)
    requires |s.takers| == |s.arrivals| && AnswersKept(s) && StatesKept(s) && SameTraffic(s, s') && OnlyLeaving(s, s')
    requires forall i :: 0 <= i < |s'.outputs| && Told(s'.outputs[i].1) == Some(Done) ==> GivenRightly(s', i)
    ensures AnswersKept(s') && StatesKept(s')
  {
    assert forall k :: k in s.sent ==> Gathered(s', k) == Gathered(s, k);
    assert forall k :: Fulfilled(s, k) <==> Fulfilled(s', k);
  }

  lemma QuietStepIsRecorded(s: System, s': System)
    requires Kept(s) && SameTraffic(s, s') && OnlyLeaving(s, s')
    requires forall i :: 0 <= i < |s'.outputs| && Told(s'.outputs[i].1) == Some(Done) ==> GivenRightly(s', i)
    ensures Kept(s')
  {
    QuietStepKeepsTraffic(s, s');
    QuietStepKeepsStates(s, s');
  }

  lemma SameOutputsGivenRightly(s: System, s': System)
    requires Kept(s) && SameTraffic(s, s') && s'.outputs == s.outputs
    ensures forall i :: 0 <= i < |s'.outputs| && Told(s'.outputs[i].1) == Some(Done) ==> GivenRightly(s', i)
  {
    forall i | 0 <= i < |s'.outputs| && Told(s'.outputs[i].1) == Some(Done) ensures GivenRightly(s', i) {
      assert GivenRightly(s, i);
    }
  }

  lemma SilentStepIsRecorded(s: System, s': System)
    requires Kept(s) && SameTraffic(s, s') && OnlyLeaving(s, s') && s'.outputs == s.outputs
    ensures Kept(s')
  {
    SameOutputsGivenRightly(s, s');
    QuietStepIsRecorded(s, s');
  }

  lemma SendFailedIsRecorded(s: System, k: nat, err: RequestError)
    requires Recorded(s)
    ensures Kept(Next(s, SendFailed(k, err)))
  {
    if k < s.next {
      SendFailedAddsNobody(s, k, err);
      SilentStepIsRecorded(s, DoSendFailed(s, k, err));
    }
  }

  lemma SendFailedAddsNobody(s: System, k: nat, err: RequestError)
    requires Safe(s) && k < s.next
    ensures OnlyLeaving(s, DoSendFailed(s, k, err))
  {
    forall j { RetainSparesOthers(s.pending, k, j); }
  }

  lemma TickAddsNobody(s: System)
    requires Safe(s)
    ensures OnlyLeaving(s, DoTick(s))
  {
    PurgeDivides(s.pending, s.now);
  }

  lemma TickIsRecorded(s: System)
    requires Recorded(s)
    ensures Kept(Next(s, Tick))
  {
    TickAddsNobody(s);
    SilentStepIsRecorded(s, DoTick(s));
  }

  lemma DisconnectIsRecorded(s: System)
    requires Recorded(s)
    ensures Kept(Next(s, Disconnect))
  {
    forall k { DisconnectTakes(s, k); }
    assert OnlyLeaving(s, DoDisconnect(s));
    SilentStepIsRecorded(s, DoDisconnect(s));
  }

  lemma CancelIsRecorded(s: System, i: nat)
    requires Recorded(s)
    ensures Kept(Next(s, CancelOne(i)))
  {
    if i < |s.cancelling| {
      CancelRemoves(s, i);
      assert OnlyLeaving(s, DoCancelOne(s, i));
      SilentStepIsRecorded(s, DoCancelOne(s, i));
    }
  }

  lemma SetClockAddsNobody(s: System, t: nat)
    requires Safe(s)
    ensures OnlyLeaving(s, DoSetClock(s, t))
  {
    assert forall k :: Awaits(DoSetClock(s, t), k) <==> Awaits(s, k);
  }

  lemma SetClockIsRecorded(s: System, t: nat)
    requires Recorded(s)
    ensures Kept(Next(s, SetClock(t)))
  {
    SetClockAddsNobody(s, t);
    SilentStepIsRecorded(s, DoSetClock(s, t));
  }

  lemma PollGivesRightly(s: System, k: nat, task: Waker, i: nat)
    requires Recorded(s) && k in s.table
    requires i < |DoPoll(s, k, task).outputs| && Told(DoPoll(s, k, task).outputs[i].1) == Some(Done)
    ensures GivenRightly(DoPoll(s, k, task), i)
  {
    if i < |s.outputs| {
      assert GivenRightly(s, i);
    } else {
      assert s.table[k].result == Some(Done);
      assert Fulfilled(s, k) && s.table[k].value == Some(Gathered(s, k));
    }
  }

  lemma PollIsRecorded(s: System, k: nat, task: Waker)
    requires Recorded(s)
    ensures Kept(Next(s, Poll(k, task)))
  {
    if k in s.table {
      var s' := DoPoll(s, k, task);
      assert forall j :: Awaits(s', j) <==> Awaits(s, j);
      assert OnlyLeaving(s, s');
      forall i | 0 <= i < |s'.outputs| && Told(s'.outputs[i].1) == Some(Done) ensures GivenRightly(s', i) {
        PollGivesRightly(s, k, task, i);
      }
      QuietStepIsRecorded(s, s');
    }
  }

  // ---- Sending ----

  lemma SendKeepsTraffic(s: System, r: Request)
    requires Recorded(s)
    ensures TrafficKept(DoSend(s, r))
  {
    var s' := DoSend(s, r);
    NewRequestHasTakenNothing(s);
    forall a | 0 <= a < |s'.takers| && s'.takers[a].Some? ensures TakenRightly(s', a, s'.takers[a].value) {
      assert TakenRightly(s, a, s.takers[a].value);
    }
  }

  lemma SendKeepsAnswers(s: System, r: Request)
    requires Recorded(s)
    ensures AnswersKept(DoSend(s, r))
  {
    FuturesGrow(s.pending, Entry(s.next, s.next, s.now));
    NewRequestHasTakenNothing(s);
  }

  lemma SendKeepsState(s: System, r: Request, k: nat)
    requires Recorded(s) && k in s.table
    ensures var s' := DoSend(s, r);
            && (Awaits(s', k) <==> Awaits(s, k)) && s'.table[k] == s.table[k]
            && (Fulfilled(s, k) ==> Fulfilled(s', k)) && (k in s.sent ==> Gathered(s', k) == Gathered(s, k))
  {
    FuturesGrow(s.pending, Entry(s.next, s.next, s.now));
  }

  lemma SendKeepsStates(s: System, r: Request)
    requires Recorded(s)
    ensures StatesKept(DoSend(s, r))
  {
    var s' := DoSend(s, r);
    NewRequestHasTakenNothing(s);
    forall k | k in s.table { SendKeepsState(s, r, k); }
    forall i | 0 <= i < |s'.outputs| && Told(s'.outputs[i].1) == Some(Done) ensures GivenRightly(s', i) {
      assert GivenRightly(s, i);
      SendKeepsState(s, r, s.outputs[i].0);
    }
  }

  lemma SendIsRecorded(s: System, r: Request)
    requires Recorded(s)
    ensures Kept(Next(s, Send(r)))
  {
    SendKeepsTraffic(s, r);
    SendKeepsAnswers(s, r);
    SendKeepsStates(s, r);
  }

  lemma NewRequestHasTakenNothing(s: System)
    requires Recorded(s)
    ensures TakenBy(s.arrivals, s.takers, s.next) == [] && s.next !in s.sent && s.next !in s.answers
  {
    forall a | 0 <= a < |s.takers| ensures s.takers[a] != Some(s.next) {
      if s.takers[a].Some? { assert TakenRightly(s, a, s.takers[a].value); }
    }
    TakenNone(s.arrivals, s.takers, s.next);
  }

  // ---- Receiving ----

  /** The stanza's record: who took it, and whether that decided the request. */
  lemma StanzaOutcome(s: System, e: XmppElement) returns (claim: Option<nat>)
    requires Recorded(s)
    ensures var s' := DoStanza(s, e);
            && s'.takers == s.takers + [claim] && s'.arrivals == s.arrivals + [e]
            && s'.sent == s.sent && s'.outputs == s.outputs
    ensures claim.None? ==> DoStanza(s, e) == s.(arrivals := s.arrivals + [e], takers := s.takers + [None],
                                                 delivered := s.delivered + [e])
    ensures claim.Some? ==>
              var s', k := DoStanza(s, e), claim.value;
              && k in Futures(s.pending) && k in s.sent && Claims(s.sent[k].request, e)
              && s'.delivered == s.delivered && s'.table == s.table[k := HandleElement(s.table[k], e).0]
              && s'.answers == if Decides(e, s.sent[k].request) then s.answers[k := |s.arrivals|] else s.answers
  {
    var c := VisitOutcome(s.pending, s.table, e);
    if c.None? {
      claim := None;
    } else {
      var k := s.pending[c.value].future;
      claim := Some(k);
      assert Awaits(s, k);
      ReduceRespectsClaims(s.table[k].value.value, e);
    }
  }

  /** Nothing changes for a request that did not take the stanza. */
  lemma BystanderIsSpared(s: System, s': System, e: XmppElement, claim: Option<nat>, k: nat)
    requires |s.takers| == |s.arrivals| && k in s.sent && claim != Some(k)
    requires s'.takers == s.takers + [claim] && s'.arrivals == s.arrivals + [e] && s'.sent == s.sent
    ensures Gathered(s', k) == Gathered(s, k)
  {
    TakenPush(s.arrivals, s.takers, e, claim, k);
  }

  lemma TakerGathers(s: System, s': System, e: XmppElement, k: nat)
    requires |s.takers| == |s.arrivals| && k in s.sent
    requires s'.takers == s.takers + [Some(k)] && s'.arrivals == s.arrivals + [e] && s'.sent == s.sent
    ensures Gathered(s', k) == Reduce(Gathered(s, k), e).0
  {
    TakenPush(s.arrivals, s.takers, e, Some(k), k);
    ReduceLast(s.sent[k].request, TakenBy(s.arrivals, s.takers, k), e);
  }

  lemma StanzaKeepsTraffic(s: System, e: XmppElement)
    requires Recorded(s)
    ensures TrafficKept(DoStanza(s, e))
  {
    var s', n := DoStanza(s, e), |s.arrivals|;
    var claim := StanzaOutcome(s, e);
    TakenPush(s.arrivals, s.takers, e, claim, 0);
    if claim.Some? { assert Awaits(s, claim.value); }
    forall a | 0 <= a < |s'.takers| && s'.takers[a].Some? ensures TakenRightly(s', a, s'.takers[a].value) {
      if a < n { assert TakenRightly(s, a, s.takers[a].value); }
    }
  }

  lemma StanzaKeepsAnswers(s: System, e: XmppElement)
    requires Recorded(s) && |DoStanza(s, e).takers| == |DoStanza(s, e).arrivals|
    ensures AnswersKept(DoStanza(s, e))
  {
    var s' := DoStanza(s, e);
    var claim := StanzaOutcome(s, e);
    forall k | k in s.table { VisitFutures(s, e, k); }
    if claim.Some? {
      assert Awaits(s, claim.value);
      ReduceRespectsClaims(s.table[claim.value].value.value, e);
    }
    forall k | k in s'.answers
      ensures k in s'.sent && !Awaits(s', k) && s'.answers[k] < |s'.arrivals| && s'.takers[s'.answers[k]] == Some(k)
    {
      if k in s.answers { assert !Awaits(s, k) && s.answers[k] < |s.arrivals|; }
    }
  }

  lemma StanzaKeepsFulfilled(s: System, e: XmppElement, k: nat)
    requires Recorded(s) && Fulfilled(s, k)
    ensures Fulfilled(DoStanza(s, e), k) && Gathered(DoStanza(s, e), k) == Gathered(s, k)
  {
    var claim := StanzaOutcome(s, e);
    assert !Awaits(s, k);
    BystanderIsSpared(s, DoStanza(s, e), e, claim, k);
  }

  lemma StanzaKeepsState(s: System, e: XmppElement, k: nat)
    requires Recorded(s) && k in s.table
    ensures var s' := DoStanza(s, e);
            && k in s'.table
            && (Awaits(s', k) ==> k in s'.sent && s'.table[k].value == Some(Gathered(s', k)))
            && (s'.table[k].result == Some(Done) ==> Fulfilled(s', k) && s'.table[k].value == Some(Gathered(s', k)))
  {
    var claim := StanzaOutcome(s, e);
    VisitFutures(s, e, k);
    if claim == Some(k) {
      assert Awaits(s, k);
      TakerGathers(s, DoStanza(s, e), e, k);
      ReduceRespectsClaims(s.table[k].value.value, e);
    } else {
      if k in s.sent { BystanderIsSpared(s, DoStanza(s, e), e, claim, k); }
      if s.table[k].result == Some(Done) { StanzaKeepsFulfilled(s, e, k); }
    }
  }

  lemma StanzaIsRecorded(s: System, e: XmppElement)
    requires Recorded(s)
    ensures Kept(Next(s, Stanza(e)))
  {
    var s' := DoStanza(s, e);
    StanzaIsSafe(s, e);
    StanzaKeepsTraffic(s, e);
    StanzaKeepsAnswers(s, e);
    VisitKeepsSound(s.pending, s.table, e);
    forall k | Awaits(s', k) ensures k in s'.sent && k in s'.table && s'.table[k].value == Some(Gathered(s', k)) {
      StanzaKeepsState(s, e, k);
    }
    forall k | k in s'.table && s'.table[k].result == Some(Done)
      ensures Fulfilled(s', k) && s'.table[k].value == Some(Gathered(s', k))
    {
      StanzaKeepsState(s, e, k);
    }
    forall i | 0 <= i < |s'.outputs| && Told(s'.outputs[i].1) == Some(Done) ensures GivenRightly(s', i) {
      assert GivenRightly(s, i);
      StanzaKeepsFulfilled(s, e, s.outputs[i].0);
    }
  }

  lemma NextIsRecorded(s: System, step: Step)
    requires Recorded(s)
    ensures Kept(Next(s, step))
  {
    match step
    case Send(r) => SendIsRecorded(s, r);
    case SendFailed(k, err) => SendFailedIsRecorded(s, k, err);
    case Stanza(e) => StanzaIsRecorded(s, e);
    case Tick => TickIsRecorded(s);
    case Disconnect => DisconnectIsRecorded(s);
    case CancelOne(i) => CancelIsRecorded(s, i);
    case Poll(k, task) => PollIsRecorded(s, k, task);
    case SetClock(t) => SetClockIsRecorded(s, t);
  }

  lemma {:induction false} EveryRunIsRecorded(steps: seq<Step>)
    ensures Recorded(After(steps))
  {
    EveryRunIsSafe(steps);
    if steps != [] {
      EveryRunIsRecorded(steps[..|steps| - 1]);
      NextIsRecorded(After(steps[..|steps| - 1]), steps[|steps| - 1]);
    }
  }

  /**
   In every run the modules receive, unchanged and in order, exactly the elements no request
   took; every taken element arrived after the taker was sent and is one it waits for, and the
   taker takes nothing more once it is decided.
   */
  lemma TrafficIsConserved(steps: seq<Step>)
    ensures TrafficKept(After(steps))
  {
    EveryRunIsRecorded(steps);
  }

  // ---- What tasks are given, in terms of the elements the request took ----

  lemma {:induction false} TakenUpTo(es: seq<XmppElement>, takers: seq<Option<nat>>, k: nat, at: nat)
    requires |es| == |takers| && at < |es| && takers[at] == Some(k)
    requires forall a :: at < a < |takers| ==> takers[a] != Some(k)
    ensures TakenBy(es, takers, k) == TakenBy(es[..at], takers[..at], k) + [es[at]]
  {
    var n := |es| - 1;
    if at < n {
      TakenUpTo(es[..n], takers[..n], k, at);
      assert es[..n][..at] == es[..at] && takers[..n][..at] == takers[..at];
    }
  }

  function Wrap(out: Option<Output>): TaskPoll { if out.Some? then ReadyOk(out.value) else TaskPanic }

  /** What request `k` should be given for the elements it took before the one that decided it. */
  ghost function Due(s: System, k: nat): Option<Output>
    requires |s.takers| == |s.arrivals| && Fulfilled(s, k)
  {
    var at := s.answers[k];
    Expected(s.sent[k].request, TakenBy(s.arrivals[..at], s.takers[..at], k), s.arrivals[at])
  }

  lemma TransformedIsDue(s: System, k: nat)
    requires Recorded(s) && Fulfilled(s, k)
    ensures Transform(Gathered(s, k)) == Due(s, k)
  {
    var at := s.answers[k];
    forall a | at < a < |s.takers| ensures s.takers[a] != Some(k) {
      if s.takers[a].Some? { assert TakenRightly(s, a, s.takers[a].value); }
    }
    TakenUpTo(s.arrivals, s.takers, k, at);
    TransformedAsExpected(s.sent[k].request, TakenBy(s.arrivals[..at], s.takers[..at], k), s.arrivals[at]);
  }

  /** In every run a task whose request succeeded is given what the elements its request took amount to. */
  lemma EveryOutputIsDue(steps: seq<Step>, i: nat)
    requires i < |After(steps).outputs| && Told(After(steps).outputs[i].1) == Some(Done)
    ensures var s := After(steps);
            var (k, poll) := s.outputs[i];
            |s.takers| == |s.arrivals| && Fulfilled(s, k) && poll == Wrap(Due(s, k))
  {
    EveryRunIsRecorded(steps);
    assert GivenRightly(After(steps), i);
    TransformedIsDue(After(steps), After(steps).outputs[i].0);
  }

  // ---- When does a polling task panic? ----

  /** A join that took no presence of its own occupant. */
  ghost predicate NeverWelcomed(s: System, k: nat) {
    && k in s.sent && s.sent[k].request.JoinRequest? && |s.takers| == |s.arrivals|
    && forall a :: 0 <= a < |s.takers| && s.takers[a] == Some(k) ==>
         OwnPresence(s.sent[k].request.room, s.sent[k].request.nick)(s.arrivals[a]).None?
  }

  lemma SelectPush<T>(taken: seq<XmppElement>, e: XmppElement, takes: bool, pick: XmppElement -> Option<T>)
    ensures Select(if takes then taken + [e] else taken, pick) == [] <==>
            Select(taken, pick) == [] && (takes ==> pick(e).None?)
  {
    SelectLast(taken, e, pick);
  }

  lemma {:induction false} SelectTaken<T>(
    es: seq<XmppElement>, takers: seq<Option<nat>>, k: nat, n: nat, pick: XmppElement -> Option<T>)
    requires |es| == |takers| && n <= |es|
    ensures Select(TakenBy(es[..n], takers[..n], k), pick) == [] <==>
            forall a :: 0 <= a < n && takers[a] == Some(k) ==> pick(es[a]).None?
  {
    if n > 0 {
      SelectTaken(es, takers, k, n - 1, pick);
      OneMoreOf(es, 0, n);
      OneMoreOf(takers, 0, n);
      TakenPush(es[..n - 1], takers[..n - 1], es[n - 1], takers[n - 1], k);
      SelectPush(TakenBy(es[..n - 1], takers[..n - 1], k), es[n - 1], takers[n - 1] == Some(k), pick);
    }
  }

  lemma GatheredUnwelcomed(s: System, k: nat)
    requires |s.takers| == |s.arrivals| && k in s.sent
    ensures Unwelcomed(Gathered(s, k)) <==> NeverWelcomed(s, k)
  {
    var r := s.sent[k].request;
    if r.JoinRequest? {
      JoinCollects(r.room, r.nick, TakenBy(s.arrivals, s.takers, k));
      SelectTaken(s.arrivals, s.takers, k, |s.arrivals|, OwnPresence(r.room, r.nick));
      assert s.arrivals[..|s.arrivals|] == s.arrivals && s.takers[..|s.takers|] == s.takers;
    }
  }

  ghost predicate PanicsWhenPolled(s: System, k: nat) {
    k in s.table && s.table[k].result == Some(Done) && NeverWelcomed(s, k)
  }

  lemma PollPanics(s: System, k: nat, task: Waker)
    requires Recorded(s)
    ensures k in s.table && PollFuture(s.table[k], task).1.TaskPanic? <==> PanicsWhenPolled(s, k)
  {
    if k in s.table && s.table[k].result == Some(Done) {
      assert Fulfilled(s, k) && s.table[k].value == Some(Gathered(s, k));
      GatheredUnwelcomed(s, k);
    }
  }

  /**
   In every run, polling a request panics if and only if it is a join that its room's subject
   has ended before the room announced the joining occupant. A server that keeps to section
   7.1 of XEP-0045 sends the presence first.
   */
  lemma PollPanicsExactly(steps: seq<Step>, k: nat, task: Waker)
    ensures var s, s' := After(steps), After(steps + [Poll(k, task)]);
            s'.outputs == s.outputs + [(k, TaskPanic)] <==> PanicsWhenPolled(s, k)
  {
    EveryRunIsRecorded(steps);
    OneMoreStep(steps, Poll(k, task));
    PollPanics(After(steps), k, task);
    PollAdds(After(steps), k, task);
  }

  lemma PollAdds(s: System, k: nat, task: Waker)
    ensures DoPoll(s, k, task).outputs == s.outputs + [(k, TaskPanic)] <==>
            k in s.table && PollFuture(s.table[k], task).1.TaskPanic?
  {
    var added := s.outputs + [(k, TaskPanic)];
    if k in s.table {
      var poll := PollFuture(s.table[k], task).1;
      assert added[|s.outputs|] == (k, TaskPanic) && (s.outputs + [(k, poll)])[|s.outputs|] == (k, poll);
    }
  }

  ghost predicate NoPanics(s: System) { forall i :: 0 <= i < |s.outputs| ==> !s.outputs[i].1.TaskPanic? }

  /** No step polls a join that was never welcomed. */
  ghost predicate PollsOnlyWelcomed(steps: seq<Step>) {
    steps != [] ==>
      var front, last := steps[..|steps| - 1], steps[|steps| - 1];
      PollsOnlyWelcomed(front) && (last.Poll? ==> !PanicsWhenPolled(After(front), last.future))
  }

  lemma StepPanics(s: System, step: Step)
    requires Recorded(s)
    ensures NoPanics(Next(s, step)) <==> NoPanics(s) && (step.Poll? ==> !PanicsWhenPolled(s, step.future))
  {
    var s' := Next(s, step);
    forall i | 0 <= i < |s.outputs| ensures s'.outputs[i] == s.outputs[i] { OutputsGrow(s, step, i); }
    if step.Poll? && step.future in s.table {
      var poll := PollFuture(s.table[step.future], step.task).1;
      PollPanics(s, step.future, step.task);
      if !poll.NotReady? { assert s'.outputs[|s.outputs|] == (step.future, poll); }
    }
  }

  /** A run is free of panics altogether if and only if no step polls a join that was never welcomed. */
  lemma {:induction false} RunPanicsExactly(steps: seq<Step>)
    ensures !After(steps).panicked && (NoPanics(After(steps)) <==> PollsOnlyWelcomed(steps))
  {
    EveryRunIsSafe(steps);
    if steps != [] {
      var front := steps[..|steps| - 1];
      RunPanicsExactly(front);
      EveryRunIsRecorded(front);
      StepPanics(After(front), steps[|steps| - 1]);
    }
  }

  /** A room whose first word is its subject brings the joining task down. */
  lemma EarlySubjectPanics(room: string, nick: string, subject: string, task: Waker)
    ensures var message := MessageStanza(Some(Jid(room, None)), None, Some(subject), NoResult, "");
            After([Send(JoinRequest(room, nick)), Stanza(Message(message)), Poll(0, task)]).outputs == [(0, TaskPanic)]
  {
    var r := JoinRequest(room, nick);
    var e := Message(MessageStanza(Some(Jid(room, None)), None, Some(subject), NoResult, ""));
    assert [] + [Send(r)] == [Send(r)] && [Send(r)] + [Stanza(e)] == [Send(r), Stanza(e)];
    assert [Send(r), Stanza(e)] + [Poll(0, task)] == [Send(r), Stanza(e), Poll(0, task)];
    OneMoreStep([], Send(r));
    OneMoreStep([Send(r)], Stanza(e));
    OneMoreStep([Send(r), Stanza(e)], Poll(0, task));
    SubjectEndsJoin(DoSend(START, r), r, e, task);
  }

  lemma SubjectEndsJoin(s: System, r: Request, e: XmppElement, task: Waker)
    requires s == DoSend(START, r) && r.JoinRequest? && LiveIn(e, r.room) && e.message.subject.Some?
    ensures Next(Next(s, Stanza(e)), Poll(0, task)).outputs == [(0, TaskPanic)]
  {
    assert s.pending == [Entry(0, 0, 0)] && s.table[0] == NewFuture(r);
    var s' := Next(s, Stanza(e));
    assert s'.table[0].result == Some(Done) && Transform(s'.table[0].value.value).None?;
  }

  // ---- The right answer ----

  /**
   `poll` is the right answer to request `k`: the first element after the send that decides it
   fulfils it, and `poll` is what all that arrived in between amounts to.
   */
  ghost predicate Answered(s: System, k: nat, poll: TaskPoll) {
    && k in s.sent && k in s.answers && s.sent[k].sentAt <= s.answers[k] < |s.arrivals|
    && var Sent(r, from), at := s.sent[k], s.answers[k];
    && (forall a :: from <= a < at ==> !Decides(s.arrivals[a], r))
    && Fulfils(s.arrivals[at], r) && poll == Wrap(Expected(r, s.arrivals[from..at], s.arrivals[at]))
  }

  /** The elements that arrived for `k` until it was decided. */
  ghost function Arrived(s: System, k: nat): seq<XmppElement>
    requires Fulfilled(s, k) && s.sent[k].sentAt <= s.answers[k]
  {
    s.arrivals[s.sent[k].sentAt..s.answers[k]]
  }

  /** The elements `k` took until it was decided. */
  ghost function Taken(s: System, k: nat): seq<XmppElement>
    requires |s.takers| == |s.arrivals| && Fulfilled(s, k)
  {
    TakenBy(s.arrivals[..s.answers[k]], s.takers[..s.answers[k]], k)
  }

  /** No other request took an element that `k` claims, before `k` was decided. */
  ghost predicate Unrobbed(s: System, k: nat)
    requires |s.takers| == |s.arrivals| && Fulfilled(s, k)
  {
    forall a :: s.sent[k].sentAt <= a < s.answers[k] && Claims(s.sent[k].request, s.arrivals[a]) ==>
      s.takers[a] == Some(k)
  }

  /** Of the elements that arrived for it, request `k` took all that `pick` picks. */
  ghost predicate TookAll<T>(s: System, k: nat, pick: XmppElement -> Option<T>)
    requires |s.takers| == |s.arrivals| && Fulfilled(s, k)
  {
    forall a :: s.sent[k].sentAt <= a < s.answers[k] && pick(s.arrivals[a]).Some? ==> s.takers[a] == Some(k)
  }

  /** No element that would have decided `k` went to another request. */
  ghost predicate DecidedFirst(s: System, k: nat)
    requires |s.takers| == |s.arrivals| && Fulfilled(s, k)
  {
    forall a :: s.sent[k].sentAt <= a < s.answers[k] ==> !Decides(s.arrivals[a], s.sent[k].request)
  }

  lemma OneMoreOf<T>(es: seq<T>, from: nat, n: nat)
    requires from < n <= |es|
    ensures es[..n] == es[..n - 1] + [es[n - 1]] && es[from..n] == es[from..n - 1] + [es[n - 1]]
  {
  }

  lemma CountsOneMore<T>(
      taken: seq<XmppElement>, all: seq<XmppElement>, e: XmppElement, takes: bool, pick: XmppElement -> Option<T>)
    requires |Select(taken, pick)| <= |Select(all, pick)|
    requires |Select(taken, pick)| == |Select(all, pick)| ==> Select(taken, pick) == Select(all, pick)
    ensures var t, a := Select(if takes then taken + [e] else taken, pick), Select(all + [e], pick);
            && |t| <= |a| && (|t| == |a| ==> t == a)
            && (|t| == |a| <==> |Select(taken, pick)| == |Select(all, pick)| && (pick(e).Some? ==> takes))
  {
    SelectLast(taken, e, pick);
    SelectLast(all, e, pick);
  }

  /** What a request took is no more than what arrived for it, and as much only if it took it all. */
  lemma {:induction false} TakenCounts<T>(
      es: seq<XmppElement>, takers: seq<Option<nat>>, k: nat, from: nat, n: nat, pick: XmppElement -> Option<T>)
    requires |es| == |takers| && from <= n <= |es| && forall a :: 0 <= a < n && takers[a] == Some(k) ==> from <= a
    ensures var taken, all := Select(TakenBy(es[..n], takers[..n], k), pick), Select(es[from..n], pick);
            && |taken| <= |all| && (|taken| == |all| ==> taken == all)
            && (|taken| == |all| <==> forall a :: from <= a < n && pick(es[a]).Some? ==> takers[a] == Some(k))
  {
    if n == from {
      TakenNone(es[..n], takers[..n], k);
      assert es[from..n] == [];
    } else {
      var taken, e := TakenBy(es[..n - 1], takers[..n - 1], k), es[n - 1];
      TakenCounts(es, takers, k, from, n - 1, pick);
      CountsOneMore(taken, es[from..n - 1], e, takers[n - 1] == Some(k), pick);
      OneMoreOf(es, from, n);
      OneMoreOf(takers, from, n);
      TakenPush(es[..n - 1], takers[..n - 1], e, takers[n - 1], k);
      assert TakenBy(es[..n], takers[..n], k) == if takers[n - 1] == Some(k) then taken + [e] else taken;
    }
  }

  /** A request has everything `pick` picks, in order, exactly if it took all of it. */
  lemma TookAllExactly<T>(s: System, k: nat, pick: XmppElement -> Option<T>)
    requires Recorded(s) && Fulfilled(s, k)
    ensures s.sent[k].sentAt <= s.answers[k]
    ensures Select(Taken(s, k), pick) == Select(Arrived(s, k), pick) <==> TookAll(s, k, pick)
  {
    var from, at := s.sent[k].sentAt, s.answers[k];
    assert TakenRightly(s, at, k);
    forall a | 0 <= a < at && s.takers[a] == Some(k) ensures from <= a { assert TakenRightly(s, a, k); }
    TakenCounts(s.arrivals, s.takers, k, from, at, pick);
  }

  lemma TakenMeansUndecided(s: System, k: nat, a: nat)
    requires Recorded(s) && Fulfilled(s, k) && a < s.answers[k] && s.takers[a] == Some(k)
    ensures !Decides(s.arrivals[a], s.sent[k].request)
  {
    assert TakenRightly(s, a, k);
  }

  /** What a request is given is right exactly if it was decided first and the two answers agree. */
  lemma DueIsRight(s: System, k: nat)
    requires Recorded(s) && Fulfilled(s, k)
    ensures s.sent[k].sentAt <= s.answers[k]
    ensures var r, e := s.sent[k].request, s.arrivals[s.answers[k]];
            Answered(s, k, Wrap(Due(s, k))) <==>
            DecidedFirst(s, k) && Expected(r, Taken(s, k), e) == Expected(r, Arrived(s, k), e)
  {
    assert TakenRightly(s, s.answers[k], k);
  }

  lemma UnrobbedIsDecidedFirst(s: System, k: nat)
    requires Recorded(s) && Fulfilled(s, k) && Unrobbed(s, k)
    ensures DecidedFirst(s, k)
  {
    forall a | s.sent[k].sentAt <= a < s.answers[k] ensures !Decides(s.arrivals[a], s.sent[k].request) {
      if Claims(s.sent[k].request, s.arrivals[a]) { TakenMeansUndecided(s, k, a); }
    }
  }

  // ---- Requests other than joins ----

  lemma SimpleAnswerExactly(s: System, k: nat)
    requires Recorded(s) && Fulfilled(s, k) && (s.sent[k].request.IqRequest? || s.sent[k].request.MucMessageRequest?)
    ensures Answered(s, k, Wrap(Due(s, k))) <==> Unrobbed(s, k)
  {
    DueIsRight(s, k);
    if Unrobbed(s, k) { UnrobbedIsDecidedFirst(s, k); }
  }

  lemma QueryAnswerExactly(s: System, k: nat)
    requires Recorded(s) && Fulfilled(s, k) && s.sent[k].request.MamRequest?
    ensures Answered(s, k, Wrap(Due(s, k))) <==> Unrobbed(s, k)
  {
    var q := s.sent[k].request.queryId;
    DueIsRight(s, k);
    TookAllExactly(s, k, Archived(q));
    assert forall a :: 0 <= a < |s.arrivals| ==> (Archived(q)(s.arrivals[a]).Some? <==> Bears(s.arrivals[a], q));
    if Unrobbed(s, k) { UnrobbedIsDecidedFirst(s, k); }
  }

  // ---- Joins ----

  /**
   A join took the latest presence of its own occupant, or an equal one; and unless there was
   none, all presences and messages of its room.
   */
  ghost predicate JoinServed(s: System, k: nat)
    requires |s.takers| == |s.arrivals| && Fulfilled(s, k) && s.sent[k].request.JoinRequest?
    requires s.sent[k].sentAt <= s.answers[k]
  {
    var JoinRequest(room, nick) := s.sent[k].request;
    var own := OwnPresence(room, nick);
    && DecidedFirst(s, k) && Last(Select(Taken(s, k), own)) == Last(Select(Arrived(s, k), own))
    && (Select(Arrived(s, k), own) != [] ==>
          TookAll(s, k, OtherPresence(room, nick)) && TookAll(s, k, RoomMessage(room)))
  }

  lemma JoinAnswerExactly(s: System, k: nat)
    requires Recorded(s) && Fulfilled(s, k) && s.sent[k].request.JoinRequest?
    ensures s.sent[k].sentAt <= s.answers[k]
    ensures Answered(s, k, Wrap(Due(s, k))) <==> JoinServed(s, k)
  {
    var r := s.sent[k].request;
    DueIsRight(s, k);
    TookAllExactly(s, k, OtherPresence(r.room, r.nick));
    TookAllExactly(s, k, RoomMessage(r.room));
  }

  lemma UnrobbedJoinIsServed(s: System, k: nat)
    requires Recorded(s) && Fulfilled(s, k) && s.sent[k].request.JoinRequest? && Unrobbed(s, k)
    ensures s.sent[k].sentAt <= s.answers[k] && JoinServed(s, k)
  {
    var r := s.sent[k].request;
    UnrobbedIsDecidedFirst(s, k);
    TookAllExactly(s, k, OwnPresence(r.room, r.nick));
  }

  // ---- All outputs of all runs ----

  /**
   In every run, a task whose IQ request, archive query or room message succeeded is given
   exactly what arrived for it if and only if no other request took an element its own request
   claims: the payload of the first result bearing its id; the archived messages bearing its
   query id between its send and its `fin`, in arrival order; the reflection of its message.
   */
  lemma OutputExactlyIfUnrobbed(steps: seq<Step>, i: nat)
    requires i < |After(steps).outputs| && Told(After(steps).outputs[i].1) == Some(Done)
    requires var k := After(steps).outputs[i].0; k in After(steps).sent && !After(steps).sent[k].request.JoinRequest?
    ensures var s, (k, poll) := After(steps), After(steps).outputs[i];
            && |s.takers| == |s.arrivals| && Fulfilled(s, k)
            && (Answered(s, k, poll) <==> Unrobbed(s, k))
  {
    var s, k := After(steps), After(steps).outputs[i].0;
    EveryRunIsRecorded(steps);
    EveryOutputIsDue(steps, i);
    if s.sent[k].request.MamRequest? { QueryAnswerExactly(s, k); } else { SimpleAnswerExactly(s, k); }
  }

  /** In every run, a task that joined a room is given what it should be if and only if its join was served. */
  lemma JoinOutputExactly(steps: seq<Step>, i: nat)
    requires i < |After(steps).outputs| && Told(After(steps).outputs[i].1) == Some(Done)
    requires var k := After(steps).outputs[i].0; k in After(steps).sent && After(steps).sent[k].request.JoinRequest?
    ensures var s, (k, poll) := After(steps), After(steps).outputs[i];
            && |s.takers| == |s.arrivals| && Fulfilled(s, k) && s.sent[k].sentAt <= s.answers[k]
            && (Answered(s, k, poll) <==> JoinServed(s, k))
  {
    EveryRunIsRecorded(steps);
    EveryOutputIsDue(steps, i);
    JoinAnswerExactly(After(steps), After(steps).outputs[i].0);
  }

  /** In every run, a task whose request succeeded without having been robbed is given the right answer. */
  lemma UnrobbedOutputsAreExact(steps: seq<Step>, i: nat)
    requires i < |After(steps).outputs| && Told(After(steps).outputs[i].1) == Some(Done)
    ensures var s, (k, poll) := After(steps), After(steps).outputs[i];
            && |s.takers| == |s.arrivals| && Fulfilled(s, k)
            && (Unrobbed(s, k) ==> Answered(s, k, poll))
  {
    var s, k := After(steps), After(steps).outputs[i].0;
    EveryRunIsRecorded(steps);
    EveryOutputIsDue(steps, i);
    if s.sent[k].request.JoinRequest? {
      JoinOutputExactly(steps, i);
      if Unrobbed(s, k) { UnrobbedJoinIsServed(s, k); }
    } else {
      OutputExactlyIfUnrobbed(steps, i);
    }
  }

  /** An archived message that bears the id of a room message sent before goes to that request. */
  lemma ContestedMessageIsLost(room: string, messageId: string, id: string, q: string, fin: Fin, task: Waker)
    ensures var message := MessageStanza(Some(Jid(room, None)), Some(messageId), None,
                                         GoodResult(ArchivedMessage(Some(q), "")), "");
            var both := Next(Next(START, Send(MucMessageRequest(room, messageId))), Send(MamRequest(id, q)));
            var answered := Next(Next(both, Stanza(Message(message))), Stanza(Iq(id, IqResult(Some(FinPayload(fin))))));
            Next(answered, Poll(1, task)).outputs == [(1, ReadyOk(MamOutput([], fin)))]
  {
    var r, r' := MucMessageRequest(room, messageId), MamRequest(id, q);
    var message := MessageStanza(Some(Jid(room, None)), Some(messageId), None,
                                 GoodResult(ArchivedMessage(Some(q), "")), "");
    var both := Next(Next(START, Send(r)), Send(r'));
    assert both.pending == [Entry(0, 0, 0), Entry(1, 1, 0)];
    assert both.table[0] == NewFuture(r) && both.table[1] == NewFuture(r');
    FirstTakesAll(both, Message(message), r, r');
    FinEndsQuery(Next(both, Stanza(Message(message))), id, q, fin, task);
  }

  lemma FirstTakesAll(s: System, e: XmppElement, r: Request, r': Request)
    requires s.pending == [Entry(0, 0, 0), Entry(1, 1, 0)] && s.table == map[0 := NewFuture(r), 1 := NewFuture(r')]
    requires Decides(e, r) && !s.panicked && s.outputs == []
    ensures var s' := Next(s, Stanza(e));
            && s'.pending == [Entry(1, 1, 0)] && s'.table.Keys == {0, 1} && s'.table[1] == NewFuture(r')
            && !s'.panicked && s'.outputs == []
  {
    ReduceRespectsClaims(Initial(r), e);
  }

  lemma FinEndsQuery(s: System, id: string, q: string, fin: Fin, task: Waker)
    requires s.pending == [Entry(1, 1, 0)] && s.table.Keys == {0, 1} && s.table[1] == NewFuture(MamRequest(id, q))
    requires !s.panicked && s.outputs == []
    ensures var answered := Next(s, Stanza(Iq(id, IqResult(Some(FinPayload(fin))))));
            Next(answered, Poll(1, task)).outputs == [(1, ReadyOk(MamOutput([], fin)))]
  {
    var answered := Next(s, Stanza(Iq(id, IqResult(Some(FinPayload(fin))))));
    assert answered.table[1].value == Some(MamState(id, q, Some(fin), []));
  }

  // ---- Runs in which no element is contested ----

  /** No element arrives that two pending requests would take. */
  ghost predicate ClearRun(steps: seq<Step>) {
    steps != [] ==>
      var front, last := steps[..|steps| - 1], steps[|steps| - 1];
      ClearRun(front) && (last.Stanza? ==> Clear(After(front), last.element))
  }

  ghost predicate Clear(s: System, e: XmppElement) {
    Sound(s.pending, s.table) ==> Unambiguous(s.pending, s.table, e)
  }

  /** Request `k` was there for the element at `a`, and waiting for it. */
  ghost predicate WaitedFor(s: System, k: nat, a: nat) {
    && k in s.sent && s.sent[k].sentAt <= a < |s.arrivals| && a < |s.takers|
    && (k in Futures(s.pending) || (k in s.answers && a <= s.answers[k]))
    && Claims(s.sent[k].request, s.arrivals[a])
  }

  /** Listed requests have taken all they claim, decided ones up to the decision. */
  ghost predicate Undivided(s: System) { forall k: nat, a: nat :: WaitedFor(s, k, a) ==> s.takers[a] == Some(k) }

  lemma ListedClaimantTakes(s: System, e: XmppElement, k: nat)
    requires Recorded(s) && Clear(s, e) && k in Futures(s.pending) && k in s.sent && Claims(s.sent[k].request, e)
    ensures DoStanza(s, e).takers == s.takers + [Some(k)]
  {
    var i :| 0 <= i < |s.pending| && s.pending[i].future == k;
    assert Awaits(s, k) && RequestAt(s.pending, s.table, i) == s.sent[k].request;
    ClaimantTakesStanza(s.pending, s.table, i, e);
  }

  lemma StanzaStaysUndivided(s: System, e: XmppElement)
    requires Recorded(s) && Undivided(s) && Clear(s, e)
    ensures Undivided(DoStanza(s, e))
  {
    var s', n := DoStanza(s, e), |s.arrivals|;
    var claim := StanzaOutcome(s, e);
    VisitOnlyRemoves(s.pending, s.table, e);
    forall k: nat, a: nat | WaitedFor(s', k, a) ensures s'.takers[a] == Some(k) {
      if k in Futures(s'.pending) {
        StillListed(s, s', k);
        if a == n { ListedClaimantTakes(s, e, k); }
      }
      if a < n { assert WaitedFor(s, k, a); }
    }
  }

  lemma StillListed(s: System, s': System, k: nat)
    requires k in Futures(s'.pending) && forall i :: 0 <= i < |s'.pending| ==> s'.pending[i] in s.pending
    ensures k in Futures(s.pending)
  {
    var i :| 0 <= i < |s'.pending| && s'.pending[i].future == k;
    var j :| 0 <= j < |s.pending| && s.pending[j] == s'.pending[i];
  }

  /** Only a send lists a new request. */
  lemma NextListsNobody(s: System, step: Step)
    requires Safe(s) && !step.Send?
    ensures Futures(Next(s, step).pending) <= Futures(s.pending)
  {
    match step
    case SendFailed(k, err) => if k < s.next { forall j { RetainSparesOthers(s.pending, k, j); } }
    case Stanza(e) =>
      VisitOnlyRemoves(s.pending, s.table, e);
      forall k | k in Futures(DoStanza(s, e).pending)
        ensures k in Futures(s.pending)
      {
        StillListed(s, DoStanza(s, e), k);
      }
    case Tick => PurgeDivides(s.pending, s.now);
    case _ =>
  }

  lemma NextIsQuiet(s: System, step: Step)
    requires !step.Send? && !step.Stanza?
    ensures SameTraffic(s, Next(s, step))
  {
  }

  lemma QuietStaysUndivided(s: System, s': System)
    requires Undivided(s) && SameTraffic(s, s') && Futures(s'.pending) <= Futures(s.pending)
    ensures Undivided(s')
  {
    forall k: nat, a: nat | WaitedFor(s', k, a) ensures s'.takers[a] == Some(k) { assert WaitedFor(s, k, a); }
  }

  lemma SendStaysUndivided(s: System, r: Request)
    requires Recorded(s) && Undivided(s)
    ensures Undivided(DoSend(s, r))
  {
    var s' := DoSend(s, r);
    FuturesGrow(s.pending, Entry(s.next, s.next, s.now));
    NewRequestHasTakenNothing(s);
    forall k: nat, a: nat | WaitedFor(s', k, a) ensures s'.takers[a] == Some(k) {
      assert k != s.next;
      assert WaitedFor(s, k, a);
    }
  }

  lemma NextStaysUndivided(s: System, step: Step)
    requires Recorded(s) && Undivided(s) && (step.Stanza? ==> Clear(s, step.element))
    ensures Undivided(Next(s, step))
  {
    match step
    case Send(r) => SendStaysUndivided(s, r);
    case Stanza(e) => StanzaStaysUndivided(s, e);
    case _ => NextIsQuiet(s, step); NextListsNobody(s, step); QuietStaysUndivided(s, Next(s, step));
  }

  lemma {:induction false} ClearRunStaysUndivided(steps: seq<Step>)
    requires ClearRun(steps)
    ensures Undivided(After(steps))
  {
    if steps != [] {
      var front := steps[..|steps| - 1];
      ClearRunStaysUndivided(front);
      EveryRunIsRecorded(front);
      NextStaysUndivided(After(front), steps[|steps| - 1]);
    }
  }

  lemma UndividedIsUnrobbed(s: System, k: nat)
    requires Recorded(s) && Undivided(s) && Fulfilled(s, k)
    ensures Unrobbed(s, k)
  {
    forall a | s.sent[k].sentAt <= a < s.answers[k] && Claims(s.sent[k].request, s.arrivals[a])
      ensures s.takers[a] == Some(k)
    {
      assert WaitedFor(s, k, a);
    }
  }

  /** If no element that arrives is claimed by two listed requests, every success is the right answer. */
  lemma ClearRunsAnswerRightly(steps: seq<Step>, i: nat)
    requires ClearRun(steps)
    requires i < |After(steps).outputs| && Told(After(steps).outputs[i].1) == Some(Done)
    ensures Answered(After(steps), After(steps).outputs[i].0, After(steps).outputs[i].1)
  {
    EveryRunIsRecorded(steps);
    ClearRunStaysUndivided(steps);
    UnrobbedOutputsAreExact(steps, i);
    UndividedIsUnrobbed(After(steps), After(steps).outputs[i].0);
  }

  // ---- Distinct ids keep runs clear ----

  /** Every request is disjoint from those listed when it is sent. */
  ghost predicate FreshRun(steps: seq<Step>) {
    steps != [] ==>
      var front, last := steps[..|steps| - 1], steps[|steps| - 1];
      FreshRun(front) && (last.Send? ==> Fresh(After(front), last.request))
  }

  ghost predicate Fresh(s: System, r: Request) {
    forall k :: k in Futures(s.pending) && k in s.sent ==> Disjoint(s.sent[k].request, r)
  }

  ghost predicate Apart(s: System) {
    forall k, l :: k in Futures(s.pending) && l in Futures(s.pending) && k != l && k in s.sent && l in s.sent ==>
      Disjoint(s.sent[k].request, s.sent[l].request)
  }

  lemma DisjointIsSymmetric(r: Request, r': Request)
    ensures Disjoint(r, r') <==> Disjoint(r', r)
  {
  }

  lemma NextStaysApart(s: System, step: Step)
    requires Recorded(s) && Apart(s) && (step.Send? ==> Fresh(s, step.request))
    ensures Apart(Next(s, step))
  {
    if step.Send? {
      FuturesGrow(s.pending, Entry(s.next, s.next, s.now));
      forall k | k in s.sent { DisjointIsSymmetric(s.sent[k].request, step.request); }
    } else {
      NextListsNobody(s, step);
    }
  }

  lemma ApartIsClear(s: System, e: XmppElement)
    requires Recorded(s) && Apart(s)
    ensures Clear(s, e)
  {
    forall i, j | 0 <= i < j < |s.pending|
      ensures !(Claims(RequestAt(s.pending, s.table, i), e) && Claims(RequestAt(s.pending, s.table, j), e))
    {
      var k, l := s.pending[i].future, s.pending[j].future;
      assert Awaits(s, k) && Awaits(s, l);
      DisjointRequestsClaimApart(s.sent[k].request, s.sent[l].request, e);
    }
  }

  /** If requests that are pending together are disjoint, no element is ever contested. */
  lemma {:induction false} FreshRunIsClear(steps: seq<Step>)
    requires FreshRun(steps)
    ensures ClearRun(steps) && Apart(After(steps))
  {
    if steps != [] {
      var front, last := steps[..|steps| - 1], steps[|steps| - 1];
      FreshRunIsClear(front);
      EveryRunIsRecorded(front);
      if last.Stanza? { ApartIsClear(After(front), last.element); }
      NextStaysApart(After(front), last);
    }
  }
}
