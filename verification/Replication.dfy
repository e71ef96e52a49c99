/**
 A cached copy of server data, loaded on demand and kept up to date by the pushes the
 server sends for every change (section 2.1.6 of RFC 6121; sections 3.3 to 3.5 of
 XEP-0191). Pushes arrive completely and in order, but a load may see changes whose
 pushes are still in flight, and its answer may be stored after later pushes.
 */
module Replication {
  import opened Basics

  datatype Push<K, V> = Put(key: K, value: V) | Drop(key: K) | DropAll

  ghost function Apply<K, V>(m: map<K, V>, p: Push<K, V>): map<K, V> {
    match p
    case Put(k, v) => m[k := v]
    case Drop(k) => m - {k}
    case DropAll => map[]
  }

  ghost function ApplyAll<K, V>(m: map<K, V>, ps: seq<Push<K, V>>): map<K, V> {
    if ps == [] then m else Apply(ApplyAll(m, ps[..|ps| - 1]), ps[|ps| - 1])
  }

  // ---- Only the last push on a key matters ----

  predicate Touches<K(==), V>(p: Push<K, V>, k: K) { p.DropAll? || p.key == k }

  ghost predicate Touched<K, V>(ps: seq<Push<K, V>>, k: K) { exists i :: 0 <= i < |ps| && Touches(ps[i], k) }

  ghost function Get<K, V>(m: map<K, V>, k: K): Option<V> { if k in m then Some(m[k]) else None }

  ghost function Agrees<K, V>(a: map<K, V>, b: map<K, V>, k: K): bool { Get(a, k) == Get(b, k) }

  lemma TouchedByMore<K, V>(ps: seq<Push<K, V>>, p: Push<K, V>, k: K)
    ensures Touched(ps + [p], k) <==> Touched(ps, k) || Touches(p, k)
  {
    if Touched(ps, k) {
      var i :| 0 <= i < |ps| && Touches(ps[i], k);
      assert Touches((ps + [p])[i], k);
    }
    if Touches(p, k) { assert Touches((ps + [p])[|ps|], k); }
  }

  lemma ApplyAllMore<K, V>(m: map<K, V>, ps: seq<Push<K, V>>, p: Push<K, V>)
    ensures ApplyAll(m, ps + [p]) == Apply(ApplyAll(m, ps), p)
  {
    assert (ps + [p])[..|ps|] == ps;
  }

  lemma {:induction false} ApplyAllFirst<K, V>(m: map<K, V>, p: Push<K, V>, ps: seq<Push<K, V>>)
    ensures ApplyAll(m, [p] + ps) == ApplyAll(Apply(m, p), ps)
  {
    if ps == [] {
      assert [p] + ps == [p] && [p][..0] == [];
    } else {
      var front, last := ps[..|ps| - 1], ps[|ps| - 1];
      ApplyAllFirst(m, p, front);
      assert ([p] + ps)[..|[p] + ps| - 1] == [p] + front;
    }
  }

  /** The same pushes on two copies: a touched key ends up equal, an untouched one keeps what it had. */
  lemma {:induction false} LastPushWins<K, V>(a: map<K, V>, b: map<K, V>, ps: seq<Push<K, V>>, k: K)
    ensures Touched(ps, k) ==> Agrees(ApplyAll(a, ps), ApplyAll(b, ps), k)
    ensures !Touched(ps, k) ==> Agrees(ApplyAll(a, ps), a, k)
  {
    if ps != [] {
      var front, last := ps[..|ps| - 1], ps[|ps| - 1];
      assert ps == front + [last];
      LastPushWins(a, b, front, k);
      TouchedByMore(front, last, k);
    }
  }

  lemma SameEverywhere<K(!new), V>(a: map<K, V>, b: map<K, V>)
    requires forall k :: Agrees(a, b, k)
    ensures a == b
  {
    forall k ensures k in a <==> k in b { assert Agrees(a, b, k); }
    forall k | k in a ensures a[k] == b[k] { assert Agrees(a, b, k); }
  }

  // ---- The replicated system ----

  /** `answers`: what the server has replied to loads that have not stored it yet. */
  datatype Replica<!K, !V> = Replica(
    server: map<K, V>, cache: Option<map<K, V>>, inflight: seq<Push<K, V>>, answers: seq<map<K, V>>)

  datatype Step<K, V> =
    | Change(push: Push<K, V>)   // the server changes and sends a push
    | Answer                     // the server answers a load
    | Store(answer: nat)         // the call that asked for it stores the answer
    | Handle(loadable: bool)     // the oldest push is handled; `loadable`: a load it may need succeeds at once
    | HandleWith(answer: nat)    // the same, after storing the answer to the load its handler asked for
    | Reset                      // the cache is cleared
    | Reconnect                  // the cache is cleared, the old stream's pushes and answers are gone

  /** Which pushes make the repository load the list before it applies them. */
  datatype Policy = LoadForAll | LoadForPut

  predicate Loads<K, V>(policy: Policy, p: Push<K, V>) { policy.LoadForAll? || p.Put? }

  ghost function HandlePush<K, V>(
    policy: Policy, server: map<K, V>, cache: Option<map<K, V>>, p: Push<K, V>, loadable: bool): Option<map<K, V>>
  {
    if cache.Some? then Some(Apply(cache.value, p))
    else if Loads(policy, p) then (if loadable then Some(Apply(server, p)) else None)
    else if p.DropAll? then None
    else Some(Apply(map[], p))
  }

  ghost function Next<K, V>(policy: Policy, s: Replica<K, V>, step: Step<K, V>): Replica<K, V> {
    match step
    case Change(p) => s.(server := Apply(s.server, p), inflight := s.inflight + [p])
    case Answer => s.(answers := s.answers + [s.server])
    case Store(i) => if i < |s.answers| then s.(cache := Some(s.answers[i])) else s
    case Handle(loadable) =>
      if s.inflight == [] then s
      else s.(cache := HandlePush(policy, s.server, s.cache, s.inflight[0], loadable), inflight := s.inflight[1..])
    case HandleWith(i) =>
      if s.inflight == [] || i >= |s.answers| || !Loads(policy, s.inflight[0]) then s
      else s.(cache := Some(Apply(s.answers[i], s.inflight[0])), inflight := s.inflight[1..])
    case Reset => s.(cache := None)
    case Reconnect => s.(cache := None, inflight := [], answers := [])
  }

  ghost function Run<K, V>(policy: Policy, s: Replica<K, V>, steps: seq<Step<K, V>>): Replica<K, V> {
    if steps == [] then s else Next(policy, Run(policy, s, steps[..|steps| - 1]), steps[|steps| - 1])
  }

  /** The cache will be what the server has once the pushes on their way are applied. */
  ghost predicate Converging<K, V>(s: Replica<K, V>) {
    s.cache.Some? ==> ApplyAll(s.cache.value, s.inflight) == s.server
  }

  /** The server's state already contains everything it has pushed. */
  ghost predicate Settled<K, V>(s: Replica<K, V>) { ApplyAll(s.server, s.inflight) == s.server }

  /** Where `copy` differs from the server, a push is still to come. */
  ghost predicate Covered<K(!new), V>(s: Replica<K, V>, copy: map<K, V>) {
    forall k :: Agrees(copy, s.server, k) || Touched(s.inflight, k)
  }

  /**
   A copy will converge exactly if every key on which it differs from the server still
   has a push in flight.
   */
  lemma ConvergesExactlyIfCovered<K(!new), V>(s: Replica<K, V>, copy: map<K, V>)
    requires Settled(s)
    ensures ApplyAll(copy, s.inflight) == s.server <==> Covered(s, copy)
  {
    forall k
      ensures Touched(s.inflight, k) ==> Agrees(ApplyAll(copy, s.inflight), s.server, k)
      ensures !Touched(s.inflight, k) ==> Agrees(ApplyAll(copy, s.inflight), copy, k)
    {
      LastPushWins(copy, s.server, s.inflight, k);
    }
    if Covered(s, copy) {
      forall k ensures Agrees(ApplyAll(copy, s.inflight), s.server, k) {
        assert Agrees(copy, s.server, k) || Touched(s.inflight, k);
      }
      SameEverywhere(ApplyAll(copy, s.inflight), s.server);
    }
  }

  lemma ChangeSettles<K(!new), V>(s: Replica<K, V>, p: Push<K, V>)
    requires Settled(s)
    ensures ApplyAll(Apply(s.server, p), s.inflight + [p]) == Apply(s.server, p)
  {
    var a := ApplyAll(Apply(s.server, p), s.inflight);
    ApplyAllMore(Apply(s.server, p), s.inflight, p);
    forall k ensures Agrees(Apply(a, p), Apply(s.server, p), k) {
      LastPushWins(Apply(s.server, p), s.server, s.inflight, k);
      LastPushWins(s.server, s.server, s.inflight, k);
    }
    SameEverywhere(Apply(a, p), Apply(s.server, p));
  }

  /** Taking the oldest push off the wire leaves the server settled. */
  lemma HandlingSettles<K(!new), V>(server: map<K, V>, p: Push<K, V>, rest: seq<Push<K, V>>)
    requires ApplyAll(server, [p] + rest) == server
    ensures ApplyAll(server, rest) == server
  {
    ApplyAllFirst(server, p, rest);
    forall k ensures Agrees(ApplyAll(server, rest), server, k) {
      LastPushWins(server, Apply(server, p), rest, k);
    }
    SameEverywhere(ApplyAll(server, rest), server);
  }

  lemma NextSettles<K(!new), V>(policy: Policy, s: Replica<K, V>, step: Step<K, V>)
    requires Settled(s)
    ensures Settled(Next(policy, s, step))
  {
    match step
    case Change(p) => ChangeSettles(s, p);
    case Answer =>
    case Store(_) =>
    case _ =>
      if s.inflight != [] {
        assert s.inflight == [s.inflight[0]] + s.inflight[1..];
        HandlingSettles(s.server, s.inflight[0], s.inflight[1..]);
      }
  }

  /** A push that starts an empty copy because nothing was loaded. */
  ghost predicate Blind<K, V>(policy: Policy, s: Replica<K, V>, step: Step<K, V>) {
    step.Handle? && s.inflight != [] && s.cache.None? && !Loads(policy, s.inflight[0]) && s.inflight[0].Drop?
  }

  lemma NextConverges<K(!new), V>(policy: Policy, s: Replica<K, V>, step: Step<K, V>)
    requires Settled(s) && Converging(s) && !Blind(policy, s, step) && !step.Store? && !step.HandleWith?
    ensures Converging(Next(policy, s, step))
  {
    match step
    case Change(p) =>
      if s.cache.Some? { ApplyAllMore(s.cache.value, s.inflight, p); }
    case Answer =>
    case Handle(_) =>
      if s.inflight != [] {
        var p, rest := s.inflight[0], s.inflight[1..];
        assert s.inflight == [p] + rest;
        ApplyAllFirst(if s.cache.Some? then s.cache.value else s.server, p, rest);
      }
    case Reset =>
    case Reconnect =>
  }

  /** A blind push breaks convergence exactly when something on the server is not pushed again. */
  lemma BlindPushConvergesExactly<K(!new), V>(policy: Policy, s: Replica<K, V>, step: Step<K, V>)
    requires Settled(s) && Blind(policy, s, step)
    ensures Converging(Next(policy, s, step)) <==> forall k :: k in s.server ==> Touched(s.inflight[1..], k)
  {
    var s' := Next(policy, s, step);
    NextSettles(policy, s, step);
    assert Apply(map[], s.inflight[0]) == map[];
    ConvergesExactlyIfCovered(s', map[]);
    forall k ensures Agrees(map[], s.server, k) <==> k !in s.server { }
  }

  /** A call stores an answer that differs from the server in something no push in flight will set right. */
  ghost predicate Stale<K(!new), V>(policy: Policy, s: Replica<K, V>, step: Step<K, V>) {
    && (step.Store? || (step.HandleWith? && s.inflight != [] && Loads(policy, s.inflight[0])))
    && step.answer < |s.answers| && !Covered(s, s.answers[step.answer])
  }

  /** A blind push that leaves out something the server will not push again. */
  ghost predicate Loses<K(!new), V>(policy: Policy, s: Replica<K, V>, step: Step<K, V>) {
    Blind(policy, s, step) && exists k :: k in s.server && !Touched(s.inflight[1..], k)
  }

  ghost predicate Breaks<K(!new), V>(policy: Policy, s: Replica<K, V>, step: Step<K, V>) {
    Stale(policy, s, step) || Loses(policy, s, step)
  }

  lemma StoringConvergesExactly<K(!new), V>(policy: Policy, s: Replica<K, V>, step: Step<K, V>)
    requires Settled(s) && Converging(s) && (step.Store? || step.HandleWith?) && step.answer < |s.answers|
    ensures Converging(Next(policy, s, step)) <==> !Stale(policy, s, step)
  {
    var answer := s.answers[step.answer];
    ConvergesExactlyIfCovered(s, answer);
    if step.HandleWith? && s.inflight != [] {
      assert s.inflight == [s.inflight[0]] + s.inflight[1..];
      ApplyAllFirst(answer, s.inflight[0], s.inflight[1..]);
    }
  }

  lemma StepConvergesExactly<K(!new), V>(policy: Policy, s: Replica<K, V>, step: Step<K, V>)
    requires Settled(s) && Converging(s)
    ensures Converging(Next(policy, s, step)) <==> !Breaks(policy, s, step)
  {
    if step.Store? || step.HandleWith? {
      if step.answer < |s.answers| { StoringConvergesExactly(policy, s, step); }
    } else if Blind(policy, s, step) {
      BlindPushConvergesExactly(policy, s, step);
    } else {
      NextConverges(policy, s, step);
    }
  }

  lemma {:induction false} RunSettles<K(!new), V>(policy: Policy, server: map<K, V>, steps: seq<Step<K, V>>)
    ensures Settled(Run(policy, Replica(server, None, [], []), steps))
  {
    if steps != [] {
      RunSettles(policy, server, steps[..|steps| - 1]);
      NextSettles(policy, Run(policy, Replica(server, None, [], []), steps[..|steps| - 1]), steps[|steps| - 1]);
    }
  }

  /** After the run, and after every prefix of it, the cache is on its way to the server's state. */
  ghost predicate AlwaysConverging<K, V>(policy: Policy, s: Replica<K, V>, steps: seq<Step<K, V>>) {
    Converging(Run(policy, s, steps)) && (steps != [] ==> AlwaysConverging(policy, s, steps[..|steps| - 1]))
  }

  /** No step of the run breaks convergence in the state it is taken in. */
  ghost predicate NeverBreaks<K(!new), V>(policy: Policy, s: Replica<K, V>, steps: seq<Step<K, V>>) {
    steps != [] ==>
      var front := steps[..|steps| - 1];
      NeverBreaks(policy, s, front) && !Breaks(policy, Run(policy, s, front), steps[|steps| - 1])
  }

  /**
   In every run from an unloaded cache: whenever a list is loaded, applying the pushes still
   in flight gives the server's list, also when the load already saw the changes they report,
   if and only if no late answer overwrites a handled push and no removal meets an unloaded
   list that it does not load.
   */
  lemma {:induction false} RunConvergesExactly<K(!new), V>(policy: Policy, server: map<K, V>, steps: seq<Step<K, V>>)
    ensures var start := Replica(server, None, [], []);
            AlwaysConverging(policy, start, steps) <==> NeverBreaks(policy, start, steps)
  {
    var start := Replica(server, None, [], []);
    if steps != [] {
      var front, last := steps[..|steps| - 1], steps[|steps| - 1];
      RunConvergesExactly(policy, server, front);
      RunSettles(policy, server, front);
      if AlwaysConverging(policy, start, front) { StepConvergesExactly(policy, Run(policy, start, front), last); }
    }
  }

  // ---- When is an answer late? ----

  lemma CoverageKept<K(!new), V>(policy: Policy, s: Replica<K, V>, step: Step<K, V>, copy: map<K, V>)
    requires Covered(s, copy) && !step.Handle? && !step.HandleWith? && !step.Reconnect?
    ensures Covered(Next(policy, s, step), copy)
  {
    if step.Change? {
      forall k ensures Agrees(copy, Next(policy, s, step).server, k) || Touched(s.inflight + [step.push], k) {
        TouchedByMore(s.inflight, step.push, k);
        assert Agrees(copy, s.server, k) || Touched(s.inflight, k);
      }
    }
  }

  /** An answer stored before any further push is handled is not late, whatever the server does meanwhile. */
  lemma {:induction false} PromptStoreIsNotStale<K(!new), V>(policy: Policy, s: Replica<K, V>, between: seq<Step<K, V>>)
    requires forall i :: 0 <= i < |between| ==>
               !between[i].Handle? && !between[i].HandleWith? && !between[i].Reconnect?
    ensures var s' := Run(policy, Next(policy, s, Answer), between);
            |s.answers| < |s'.answers| && s'.answers[|s.answers|] == s.server && Covered(s', s.server)
  {
    if between != [] {
      var front := between[..|between| - 1];
      PromptStoreIsNotStale(policy, s, front);
      CoverageKept(policy, Run(policy, Next(policy, s, Answer), front), between[|between| - 1], s.server);
    }
  }

  /** A push handled between an answer and its storing is forgotten. */
  lemma LateStoreForgetsPush<K(!new), V>(policy: Policy, k: K, v: V)
    ensures var start: Replica<K, V> := Replica(map[], None, [], []);
            var handled := Next(policy, Next(policy, Next(policy, start, Answer), Change(Put(k, v))), Handle(true));
            && Stale(policy, handled, Store(0)) && handled.cache == Some(map[k := v])
            && Next(policy, handled, Store(0)).cache == Some(map[])
  {
    var start: Replica<K, V> := Replica(map[], None, [], []);
    var handled := Next(policy, Next(policy, Next(policy, start, Answer), Change(Put(k, v))), Handle(true));
    assert handled.inflight == [] && handled.answers == [map[]] && handled.server == map[k := v];
    assert Apply(map[k := v], Put(k, v)) == map[k := v];
    assert !Agrees(handled.answers[0], handled.server, k) && !Touched(handled.inflight, k);
  }

  /** No answer is stored late. */
  ghost predicate NeverStale<K(!new), V>(policy: Policy, s: Replica<K, V>, steps: seq<Step<K, V>>) {
    steps != [] ==>
      var front := steps[..|steps| - 1];
      NeverStale(policy, s, front) && !Stale(policy, Run(policy, s, front), steps[|steps| - 1])
  }

  /** A repository that loads before every push is never blind. */
  lemma {:induction false} LoadForAllOnlyBreaksByStaleness<K(!new), V>(s: Replica<K, V>, steps: seq<Step<K, V>>)
    ensures NeverBreaks(LoadForAll, s, steps) <==> NeverStale(LoadForAll, s, steps)
  {
    if steps != [] { LoadForAllOnlyBreaksByStaleness(s, steps[..|steps| - 1]); }
  }

  /** Every answer is stored as soon as it is there: loads are atomic. */
  ghost predicate LoadsAtOnce<K, V>(policy: Policy, s: Replica<K, V>, steps: seq<Step<K, V>>) {
    steps != [] ==>
      var front, last := steps[..|steps| - 1], steps[|steps| - 1];
      && LoadsAtOnce(policy, s, front)
      && !last.HandleWith?
      && (last.Store? ==>
            front != [] && front[|front| - 1].Answer? && last.answer + 1 == |Run(policy, s, front).answers|)
  }

  lemma {:induction false} LoadsAtOnceLonger<K, V>(
      policy: Policy, s: Replica<K, V>, steps: seq<Step<K, V>>, step: Step<K, V>)
    requires LoadsAtOnce(policy, s, steps) && !step.HandleWith?
    requires step.Store? ==>
               steps != [] && steps[|steps| - 1].Answer? && step.answer + 1 == |Run(policy, s, steps).answers|
    ensures LoadsAtOnce(policy, s, steps + [step])
  {
    assert (steps + [step])[..|steps|] == steps;
  }

  /** A load may come at any time, and then holds what the server has. */
  lemma {:induction false} AtomicLoadIsAllowed<K, V>(policy: Policy, s: Replica<K, V>, steps: seq<Step<K, V>>)
    requires LoadsAtOnce(policy, s, steps)
    ensures var s' := Run(policy, s, steps);
            var loaded := steps + [Answer] + [Store(|s'.answers|)];
            LoadsAtOnce(policy, s, loaded) && Run(policy, s, loaded).cache == Some(s'.server)
  {
    var asked, store := steps + [Answer], Store(|Run(policy, s, steps).answers|);
    LoadsAtOnceLonger(policy, s, steps, Answer);
    RunOneMore(policy, s, steps, Answer);
    LoadsAtOnceLonger(policy, s, asked, store);
    RunOneMore(policy, s, asked, store);
  }

  lemma {:induction false} AtomicLoadsAreNeverStale<K(!new), V>(
      policy: Policy, s: Replica<K, V>, steps: seq<Step<K, V>>)
    requires LoadsAtOnce(policy, s, steps)
    ensures NeverStale(policy, s, steps)
  {
    if steps != [] {
      var front := steps[..|steps| - 1];
      AtomicLoadsAreNeverStale(policy, s, front);
      if steps[|steps| - 1].Store? {
        var asked := Run(policy, s, front[..|front| - 1]);
        PromptStoreIsNotStale(policy, asked, []);
        assert Run(policy, s, front) == Next(policy, asked, Answer);
      }
    }
  }

  // ---- Clearing and reconnecting ----

  lemma {:induction false} RunAppends<K, V>(policy: Policy, s: Replica<K, V>, a: seq<Step<K, V>>, b: seq<Step<K, V>>)
    ensures Run(policy, s, a + b) == Run(policy, Run(policy, s, a), b)
    decreases |b|
  {
    if b == [] {
      assert a + b == a;
    } else {
      RunAppends(policy, s, a, b[..|b| - 1]);
      assert (a + b)[..|a + b| - 1] == a + b[..|b| - 1];
    }
  }

  lemma {:induction false} RunOneMore<K, V>(policy: Policy, s: Replica<K, V>, steps: seq<Step<K, V>>, step: Step<K, V>)
    ensures Run(policy, s, steps + [step]) == Next(policy, Run(policy, s, steps), step)
  {
    assert (steps + [step])[..|steps|] == steps;
  }

  /** After a reconnect everything goes as it would for a client that has only just started. */
  lemma {:induction false} ReconnectStartsAfresh<K, V>(
      policy: Policy, s: Replica<K, V>, before: seq<Step<K, V>>, after: seq<Step<K, V>>)
    ensures Run(policy, s, before + [Reconnect] + after) ==
            Run(policy, Replica(Run(policy, s, before).server, None, [], []), after)
  {
    RunAppends(policy, s, before + [Reconnect], after);
    RunOneMore(policy, s, before, Reconnect);
  }

  /** The step puts a list into an empty cache. */
  ghost predicate Fills<K, V>(policy: Policy, s: Replica<K, V>, step: Step<K, V>) {
    match step
    case Store(i) => i < |s.answers|
    case HandleWith(i) => i < |s.answers| && s.inflight != [] && Loads(policy, s.inflight[0])
    case Handle(loadable) =>
      s.inflight != [] && if Loads(policy, s.inflight[0]) then loadable else s.inflight[0].Drop?
    case _ => false
  }

  /** Step `j` fills the cache and no later one clears it. */
  ghost predicate FilledAt<K, V>(policy: Policy, s: Replica<K, V>, steps: seq<Step<K, V>>, j: nat) {
    && j < |steps| && Fills(policy, Run(policy, s, steps[..j]), steps[j])
    && forall i :: j < i < |steps| ==> !steps[i].Reset? && !steps[i].Reconnect?
  }

  lemma FilledLonger<K, V>(policy: Policy, s: Replica<K, V>, steps: seq<Step<K, V>>, j: nat)
    requires steps != [] && j < |steps| - 1
    ensures FilledAt(policy, s, steps, j) <==>
            FilledAt(policy, s, steps[..|steps| - 1], j) && !steps[|steps| - 1].Reset? && !steps[|steps| - 1].Reconnect?
  {
    var front := steps[..|steps| - 1];
    assert front[..j] == steps[..j] && front[j] == steps[j];
    if FilledAt(policy, s, front, j) && !steps[|steps| - 1].Reset? && !steps[|steps| - 1].Reconnect? {
      forall i | j < i < |steps| ensures !steps[i].Reset? && !steps[i].Reconnect? {
        if i < |front| { assert front[i] == steps[i]; }
      }
    }
  }

  lemma NextFilled<K, V>(policy: Policy, s: Replica<K, V>, step: Step<K, V>)
    ensures Next(policy, s, step).cache.Some? <==>
            Fills(policy, s, step) || (s.cache.Some? && !step.Reset? && !step.Reconnect?)
  {
  }

  ghost predicate Filled<K, V>(policy: Policy, s: Replica<K, V>, steps: seq<Step<K, V>>) {
    exists j: nat :: FilledAt(policy, s, steps, j)
  }

  lemma FilledByLast<K, V>(policy: Policy, s: Replica<K, V>, front: seq<Step<K, V>>, last: Step<K, V>)
    ensures Filled(policy, s, front + [last]) <==>
            Fills(policy, Run(policy, s, front), last) || (Filled(policy, s, front) && !last.Reset? && !last.Reconnect?)
  {
    var steps := front + [last];
    assert steps[..|front|] == front;
    assert FilledAt(policy, s, steps, |front|) <==> Fills(policy, Run(policy, s, front), last);
    forall j: nat | j < |front|
      ensures FilledAt(policy, s, steps, j) <==> FilledAt(policy, s, front, j) && !last.Reset? && !last.Reconnect?
    {
      FilledLonger(policy, s, steps, j);
    }
  }

  /** A list is cached exactly if some step filled the cache and nothing has cleared it since. */
  lemma {:induction false} CachedExactly<K, V>(policy: Policy, server: map<K, V>, steps: seq<Step<K, V>>)
    ensures var start := Replica(server, None, [], []);
            Run(policy, start, steps).cache.Some? <==> Filled(policy, start, steps)
  {
    var start := Replica(server, None, [], []);
    if steps != [] {
      var front, last := steps[..|steps| - 1], steps[|steps| - 1];
      CachedExactly(policy, server, front);
      NextFilled(policy, Run(policy, start, front), last);
      assert steps == front + [last];
      FilledByLast(policy, start, front, last);
    }
  }
}
