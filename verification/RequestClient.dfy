/**
 The correlator as the program runs it: request states shared between the pending
 list and polling tasks, and loops that edit the list in place. Every method is
 proved against the functions of `Requests`, `PendingRequests` and `RequestPurge` that the
 steps of `RequestRuns` are made of, and keeps the invariant that rules panics out.
 */
module RequestClient {
  import opened Basics
  import opened Requests
  import opened PendingRequests
  import opened RequestPurge

  /** `ReducerFutureState`, shared by the client and the future that awaits the request. */
  class RequestFuture {
    var value: Option<ReducerState>
    var result: Option<Outcome>
    var waker: Option<Waker>

    ghost function View(): FutureState reads this { FutureState(value, result, waker) }

    constructor (r: Request)
      ensures View() == NewFuture(r)
    {
      value, result, waker := Some(Initial(r)), None, None;
    }

    constructor Failed(err: RequestError)
      ensures View() == FailedFuture(err)
    {
      value, result, waker := None, Some(Outcome.Failed(err)), None;
    }

    method TakeWaker() returns (w: Option<Waker>)
      modifies this`waker
      ensures w == old(waker) && waker == None
    {
      w := waker;
      waker := None;
    }

    method Handle(e: XmppElement) returns (poll: FuturePoll)
      requires result.Some? || value.Some?
      modifies this
      ensures (View(), poll) == old(HandleElement(View(), e))
    {
      if result.Some? {
        var w := TakeWaker();
        return Resolved(w);
      }
      var (v, reduced) := Reduce(value.value, e);
      value := Some(v);
      match reduced {
        case Failing(err) =>
          result := Some(Outcome.Failed(err));
          var w := TakeWaker();
          poll := Resolved(w);
        case Ready =>
          result := Some(Done);
          var w := TakeWaker();
          poll := Resolved(w);
        case Pending(left) =>
          poll := StillPending(left);
      }
    }

    method Fail(err: RequestError) returns (w: Option<Waker>)
      modifies this
      ensures View() == old(FailWith(View(), err)) && w == old(waker)
    {
      result := Some(Outcome.Failed(err));
      w := TakeWaker();
    }

    method Poll(task: Waker) returns (poll: TaskPoll)
      modifies this
      ensures (View(), poll) == old(PollFuture(View(), task))
    {
      if result.None? {
        waker := Some(task);
        return NotReady;
      }
      var taken := result.value;
      result := None;
      match taken {
        case Failed(err) => poll := ReadyErr(err);
        case Done =>
          var v := value;
          value := None;
          if v.None? || Transform(v.value).None? { return TaskPanic; }
          poll := ReadyOk(Transform(v.value).value);
      }
    }
  }

  class Client {
    var pending: seq<Entry<RequestFuture>>
    var nextId: nat       // stands for the random entry ids, which do not repeat
    var connected: bool
    ghost var futures: set<RequestFuture>  // every request state handed to the list so far

    ghost function Table(): map<RequestFuture, FutureState>
      reads this, futures
    {
      map f | f in futures :: f.View()
    }

    ghost predicate Valid()
      reads this, futures
    {
      && Sound(pending, Table()) && Readable(Table())
      && forall i :: 0 <= i < |pending| ==> pending[i].id < nextId
    }

    constructor ()
      ensures Valid() && pending == [] && futures == {} && !connected
    {
      pending, nextId, connected, futures := [], 0, false, {};
    }

    method Offer(f: RequestFuture, e: XmppElement) returns (poll: FuturePoll)
      requires f in futures && f.value.Some?
      modifies f
      ensures Table() == old(Table())[f := old(HandleElement(f.View(), e).0)] &&
              poll == old(HandleElement(f.View(), e).1)
    {
      poll := f.Handle(e);
    }

    method FailOne(f: RequestFuture, err: RequestError) returns (w: Option<Waker>)
      requires f in futures
      modifies f
      ensures Table() == old(Table())[f := old(FailWith(f.View(), err))] && w == old(f.waker)
    {
      w := f.Fail(err);
    }

    /** One turn of the visit: offer the element to request `idx`, drop the request if that resolves it. */
    method VisitOne(idx: nat, e: XmppElement) returns (poll: FuturePoll)
      requires idx < |pending| && Sound(pending, Table())
      modifies this`pending, futures
      ensures futures == old(futures) && !poll.Panic?
      ensures poll.StillPending? && poll.element.Some? ==>
                && pending == old(pending) && Table() == old(Table())
                && old(VisitFrom(pending, Table(), idx, e)) == old(VisitFrom(pending, Table(), idx + 1, e))
                && poll.element.value == e
      ensures poll.StillPending? && poll.element.None? ==>
                old(VisitFrom(pending, Table(), idx, e)) ==
                    Visit(pending, Table(), None, Some(old(pending)[idx].future), None, false)
      ensures poll.Resolved? ==>
                old(VisitFrom(pending, Table(), idx, e)) ==
                    Visit(pending, Table(), None, Some(old(pending)[idx].future), poll.waker, false)
    {
      var f := pending[idx].future;
      ghost var before := Table();
      assert before[f] == f.View() && before[f].Live();
      ReduceRespectsClaims(f.value.value, e);
      poll := Offer(f, e);
      if poll.Resolved? {
        pending := pending[..idx] + pending[idx + 1..];
      } else if poll.element.Some? {
        assert before[f := before[f]] == before;
      }
    }

    /** The index loop over the pending requests. */
    method VisitLoop(element: XmppElement) returns (left: Option<XmppElement>, woken: Option<Waker>)
      requires Sound(pending, Table())
      modifies this`pending, futures
      ensures futures == old(futures)
      ensures var v := old(VisitFrom(pending, Table(), 0, element));
              pending == v.pending && Table() == v.table && left == v.left && woken == v.woken && !v.panicked
    {
      ghost var before, list := Table(), pending;
      ghost var v := VisitFrom(list, before, 0, element);
      var idx, e := 0, element;
      left, woken := None, None;
      while true
        invariant 0 <= idx <= |pending| && pending == list && Table() == before && left == None && woken == None
        invariant VisitFrom(list, before, idx, e) == v
        decreases |pending| - idx
      {
        if idx == |pending| {
          left := Some(e);
          break;
        }
        var poll := VisitOne(idx, e);
        if poll.Resolved? {
          woken := poll.waker;
          break;
        }
        if poll.element.None? {
          break;
        }
        idx, e := idx + 1, poll.element.value;
      }
    }

    method VisitFutures(element: XmppElement) returns (left: Option<XmppElement>, woken: Option<Waker>)
      requires Valid()
      modifies this`pending, futures
      ensures Valid() && futures == old(futures) && nextId == old(nextId)
      ensures var v := old(VisitFrom(pending, Table(), 0, element));
              pending == v.pending && Table() == v.table && left == v.left && woken == v.woken && !v.panicked
    {
      VisitKeepsSound(pending, Table(), element);
      VisitKeepsReadable(pending, Table(), element);
      VisitOnlyRemoves(pending, Table(), element);
      left, woken := VisitLoop(element);
    }

    /** Fails request `idx` and removes it from the list. */
    method TimeOutOne(idx: nat) returns (w: Option<Waker>)
      requires idx < |pending| && pending[idx].future in futures
      modifies this`pending, futures
      ensures futures == old(futures)
      ensures pending == old(pending[..idx] + pending[idx + 1..])
      ensures var f := old(pending[idx].future);
              Table() == old(Table())[f := FailWith(old(Table())[f], TimedOut)] && w == old(Table())[f].waker
    {
      var f := pending[idx].future;
      w := FailOne(f, TimedOut);
      pending := pending[..idx] + pending[idx + 1..];
    }

    /** One turn of the purge: keep the entry at `idx` or time it out. */
    method PurgeOne(
        idx: nat, now: nat, woken: seq<Waker>, ghost p: Purged<RequestFuture>, ghost rest: seq<Entry<RequestFuture>>)
        returns (idx': nat, woken': seq<Waker>)
      requires idx == |p.kept| < |pending| && pending[idx].future in futures && pending[idx].timestamp <= now
      requires pending == p.kept + [pending[idx]] + rest && Table() == p.table && woken == p.woken
      modifies this`pending, futures
      ensures futures == old(futures)
      ensures var p' := PurgeEntry(p, old(pending[idx]), now);
              idx' == |p'.kept| && pending == p'.kept + rest && Table() == p'.table && woken' == p'.woken
    {
      if now - pending[idx].timestamp < TIMEOUT {
        return idx + 1, woken;
      }
      assert pending[..idx] + pending[idx + 1..] == p.kept + rest;
      var w := TimeOutOne(idx);
      return idx, if w.Some? then woken + [w.value] else woken;
    }

    /** The index loop that fails and removes expired requests; it panics on an entry stamped in the future. */
    method PurgeLoop(now: nat) returns (woken: seq<Waker>, panicked: bool)
      requires Known(pending, Table())
      modifies this`pending, futures
      ensures futures == old(futures)
      ensures panicked <==> old(FutureAt(pending, now) < |pending|)
      ensures var n := FutureAt(old(pending), now);
              var p := PurgeFold(old(pending)[..n], old(Table()), now);
              pending == p.kept + old(pending)[n..] && Table() == p.table && woken == p.woken
    {
      ghost var list, before := pending, Table();
      ghost var n, p := 0, Purged([], before, []);
      var idx := 0;
      woken, panicked := [], false;
      while idx < |pending|
        invariant 0 <= n <= FutureAt(list, now) <= |list| && p == PurgeFold(list[..n], before, now)
        invariant idx == |p.kept| && pending == p.kept + list[n..]
        invariant Table() == p.table && woken == p.woken && !panicked
        decreases |list| - n
      {
        SliceStep(p.kept, list, n);
        FutureFoundAt(list, now, n);
        if pending[idx].timestamp > now {
          panicked := true;
          return;
        }
        PurgeFoldStep(list, before, now, n);
        assert list[n].future in before;
        idx, woken := PurgeOne(idx, now, woken, p, list[n + 1..]);
        p, n := PurgeEntry(p, list[n], now), n + 1;
      }
      SliceEnd(p.kept, list, n);
    }

    /** What was timed out before a panic stays so, but nobody is woken. */
    method PurgeExpired(now: nat) returns (woken: seq<Waker>, panicked: bool)
      requires Valid()
      modifies this`pending, futures
      ensures Valid() && futures == old(futures) && nextId == old(nextId)
      ensures panicked <==> old(FutureAt(pending, now) < |pending|)
      ensures pending == old(Left(pending, now))
      ensures Table() == old(FailAll(Table(), Overdue(pending, now), TimedOut))
      ensures woken == old(if FutureAt(pending, now) < |pending| then []
                           else WakersOf(pending, Overdue(pending, now), Table()))
    {
      PurgeLeavesSound(pending, Table(), now);
      LeftIsFromTheList(pending, now);
      FailAllKeepsReadable(Table(), Overdue(pending, now), TimedOut);
      PurgeAmountsTo(pending, Table(), now);
      woken, panicked := PurgeLoop(now);
      if panicked {
        woken := [];
      }
    }

    /** Takes the whole list, then fails each request in turn. */
    method CancelPending() returns (woken: seq<Waker>)
      requires Valid()
      modifies this`pending, futures
      ensures Valid() && futures == old(futures) && nextId == old(nextId)
      ensures pending == []
      ensures Table() == old(FailAll(Table(), Futures(pending), Disconnected))
      ensures woken == old(WakersOf(pending, Futures(pending), Table()))
    {
      ghost var before, all := Table(), Futures(pending);
      FailAllKeepsReadable(before, all, Disconnected);
      var taken := pending;
      pending := [];
      woken := [];
      assert FailAll(before, Futures(taken[..0]), Disconnected) == before;
      for n := 0 to |taken|
        invariant pending == []
        invariant Table() == FailAll(before, Futures(taken[..n]), Disconnected)
        invariant woken == WakersOf(taken[..n], all, before)
      {
        assert taken[..n + 1][..n] == taken[..n] && taken[..n + 1][n] == taken[n];
        FuturesGrow(taken, n);
        var f := taken[n].future;
        FailOneMore(before, Futures(taken[..n]), f, Disconnected);
        assert Table()[f] == f.View();
        var w := FailOne(f, Disconnected);
        if w.Some? {
          woken := woken + [w.value];
        }
      }
      assert taken[..|taken|] == taken;
    }

    /** The stanza goes out if there is a connection and it accepts it. */
    method SendStanza(refusal: Option<string>) returns (r: Result<(), RequestError>)
      ensures r.Ok? <==> connected && refusal.None?
      ensures r.Err? ==> r.error == (if connected then Generic(refusal.value) else Disconnected)
    {
      if !connected {
        return Err(Disconnected);
      }
      if refusal.Some? {
        return Err(Generic(refusal.value));
      }
      return Ok(());
    }

    method Enqueue(r: Request, now: nat) returns (future: RequestFuture)
      requires Valid()
      modifies this
      ensures Valid() && fresh(future) && connected == old(connected) && nextId == old(nextId) + 1
      ensures futures == old(futures) + {future} && future.View() == NewFuture(r)
      ensures pending == old(pending) + [Entry(old(nextId), future, now)]
    {
      ghost var before := Table();
      future := new RequestFuture(r);
      NewKeepsReadable(before, future, r);
      futures := futures + {future};
      assert Table() == before[future := NewFuture(r)];
      pending := pending + [Entry(nextId, future, now)];
      nextId := nextId + 1;
    }

    /**
     Queues the request before sending it; a refused send takes exactly that request
     back out of the list and returns a future that has failed already.
     */
    method SendWithFuture(r: Request, now: nat, refusal: Option<string>) returns (future: RequestFuture)
      requires Valid()
      modifies this
      ensures Valid() && fresh(future) && fresh(futures - old(futures)) && old(futures) <= futures
      ensures connected == old(connected)
      ensures connected && refusal.None? ==>
                && pending == old(pending) + [Entry(old(nextId), future, now)]
                && future in futures && future.View() == NewFuture(r)
      ensures !(connected && refusal.None?) ==>
                && pending == old(pending)
                && future.View() == FailedFuture(if connected then Generic(refusal.value) else Disconnected)
    {
      var id := nextId;
      future := Enqueue(r, now);
      var sent := SendStanza(refusal);
      if sent.Err? {
        RetainUndoesPush(old(pending), pending[|pending| - 1]);
        RetainOthers(id);
        future := new RequestFuture.Failed(sent.error);
      }
    }

    /** Takes the request with that id off the list, wherever it stands by now, and keeps the rest in order. */
    method RetainOthers(id: nat)
      requires Valid()
      modifies this`pending
      ensures Valid() && pending == Retain(old(pending), id)
    {
      RetainKeepsSound(pending, Table(), id);
      RetainIsExactly(pending, id);
      var kept := [];
      for i := 0 to |pending|
        invariant pending == old(pending) && kept == Retain(pending[..i], id)
      {
        assert pending[..i + 1][..i] == pending[..i];
        if pending[i].id != id {
          kept := kept + [pending[i]];
        }
      }
      assert pending[..|pending|] == pending;
      pending := kept;
    }

    /** A task polls its request: it panics exactly if that is a join which succeeded without self-presence. */
    method PollRequest(f: RequestFuture, task: Waker) returns (poll: TaskPoll)
      requires Valid() && f in futures
      modifies f
      ensures Valid() && Table() == old(Table())[f := old(PollFuture(f.View(), task)).0]
      ensures poll == old(PollFuture(f.View(), task)).1
      ensures poll.TaskPanic? <==> old(f.result == Some(Done) && f.value.Some? && Unwelcomed(f.value.value))
    {
      ghost var before := Table();
      assert before[f] == f.View();
      PollKeepsValid(pending, before, f, task);
      poll := f.Poll(task);
      assert Table() == before[f := PollFuture(before[f], task).0];
    }
  }

  lemma PollKeepsValid(
    pending: seq<Entry<RequestFuture>>, table: map<RequestFuture, FutureState>, f: RequestFuture, task: Waker)
    requires Sound(pending, table) && Readable(table) && f in table
    ensures var table' := table[f := PollFuture(table[f], task).0];
            Sound(pending, table') && Readable(table')
  {
  }

  lemma SliceStep<T>(kept: seq<T>, list: seq<T>, n: nat)
    requires n < |list|
    ensures kept + list[n..] == kept + [list[n]] + list[n + 1..] && (kept + list[n..])[|kept|] == list[n]
  {
  }

  lemma SliceEnd<T>(kept: seq<T>, list: seq<T>, n: nat)
    requires n <= |list| && |kept| >= |kept + list[n..]|
    ensures list[..n] == list && kept + list[n..] == kept
  {
  }

  lemma FuturesGrow(list: seq<Entry<RequestFuture>>, n: nat)
    requires n < |list| && NoRepeats(list)
    ensures Futures(list[..n + 1]) == Futures(list[..n]) + {list[n].future}
    ensures list[n].future !in Futures(list[..n]) && list[n].future in Futures(list)
  {
    var more := list[..n + 1];
    assert forall i :: 0 <= i < n ==> more[i] == list[i] && list[..n][i] == list[i];
    assert more[n] == list[n];
    forall k | k in Futures(list[..n]) ensures k in Futures(more) {
      var i :| 0 <= i < n && list[..n][i].future == k;
      assert more[i].future == k;
    }
  }
}
