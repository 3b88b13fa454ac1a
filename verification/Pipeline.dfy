/**
 * The live-query pipeline as interleaved threads: informer event threads that
 * trigger queries while they hold the cache lock, one debounce loop and one
 * response loop per query, and the resolvers of a running handler, which need
 * the cache lock to register what they read. Channels are unbuffered: both
 * ends take a step together.
 */
module Pipeline {
  import opened Wrappers
  import D = Debounce

  datatype Resp =
    | Handling   // the handler and its resolvers run
    | Returned   // a response went to the client; the next call resumes the handler
    | Resetting  // sending rearm
    | Waiting    // on Ready or on the end of the query
    | Gone       // the query is over

  /** `want`: resolvers of the handler that wait for the cache lock. */
  datatype Query = Query(loop: D.Loop, throttle: nat, resp: Resp, want: nat, done: bool)

  /** `todo`: the queries still to be triggered, in the order of the broadcast. */
  datatype Informer = Quiet | WantsLock | Broadcasting(todo: seq<nat>)

  datatype Owner = EventThread(e: nat) | Resolver(q: nat)

  datatype System = System(now: int, queries: seq<Query>, informers: seq<Informer>, lock: Option<Owner>)

  datatype Step =
    // the surroundings
    | Pass(until: int)
    | Event(e: nat)                  // an object changed
    | Track(q: nat)                  // a resolver has read an object
    | Yield(q: nat)                  // the handler produced a response to send
    | Call(q: nat)                   // the client asks for the next one
    | End(q: nat)                    // the handler has nothing more
    | Expire(q: nat)                 // the throttle timer
    | Cancel(q: nat)                 // the client went away
    | ReadyClosed(q: nat)            // Ready was asked before the end and its channel is closed now
    // the pipeline itself
    | LockForEvent(e: nat, todo: seq<nat>)
    | Trigger(e: nat)
    | UnlockEvent(e: nat)
    | LockForResolver(q: nat)
    | UnlockResolver(q: nat)
    | Reset(q: nat)
    | Ready(q: nat)
    | Leave(q: nat)

  predicate Internal(s: Step) {
    s.LockForEvent? || s.Trigger? || s.UnlockEvent? || s.LockForResolver? || s.UnlockResolver? ||
    s.Reset? || s.Ready? || s.Leave?
  }

  predicate Distinct(todo: seq<nat>, n: nat) {
    (forall i :: 0 <= i < |todo| ==> todo[i] < n) && |todo| <= n &&
    (forall i, j :: 0 <= i < j < |todo| ==> todo[i] != todo[j])
  }

  predicate Enabled(y: System, s: Step) {
    match s
    case Pass(until) => y.now <= until
    case Event(e) => e < |y.informers| && y.informers[e] == Quiet
    case Track(q) => q < |y.queries| && y.queries[q].resp == Handling
    case Yield(q) => HandlerFree(y, q)
    case Call(q) => q < |y.queries| && y.queries[q].resp == Returned
    case End(q) => HandlerFree(y, q)
    case Expire(q) => q < |y.queries| && D.Enabled(y.queries[q].loop, D.Timer(y.now))
    case Cancel(q) => q < |y.queries| && !y.queries[q].done
    case ReadyClosed(q) => q < |y.queries| && y.queries[q].resp == Waiting && y.queries[q].done
    case LockForEvent(e, todo) =>
      e < |y.informers| && y.informers[e] == WantsLock && y.lock.None? && Distinct(todo, |y.queries|)
    case Trigger(e) =>
      && e < |y.informers| && y.informers[e].Broadcasting? && y.informers[e].todo != []
      && y.informers[e].todo[0] < |y.queries|
      && var q := y.queries[y.informers[e].todo[0]];
         q.done || D.Enabled(q.loop, D.Fire(y.now))
    case UnlockEvent(e) => e < |y.informers| && y.informers[e] == Broadcasting([])
    case LockForResolver(q) => q < |y.queries| && y.queries[q].want > 0 && y.lock.None?
    case UnlockResolver(q) => q < |y.queries| && y.lock == Some(Resolver(q))
    case Reset(q) =>
      && q < |y.queries| && y.queries[q].resp == Resetting
      && (y.queries[q].done || D.Enabled(y.queries[q].loop, D.Rearm(y.now)))
    case Ready(q) =>
      q < |y.queries| && y.queries[q].resp == Waiting && D.Enabled(y.queries[q].loop, D.Deliver(y.now))
    case Leave(q) => q < |y.queries| && y.queries[q].resp == Waiting && y.queries[q].done
  }

  /** The handler can finish a response only when its resolvers are done with the lock. */
  predicate HandlerFree(y: System, q: nat) {
    q < |y.queries| && y.queries[q].resp == Handling && y.queries[q].want == 0 && y.lock != Some(Resolver(q))
  }

  function SetQuery(y: System, q: nat, v: Query): System
    requires q < |y.queries|
  {
    y.(queries := y.queries[q := v])
  }

  function SetInformer(y: System, e: nat, v: Informer): System
    requires e < |y.informers|
  {
    y.(informers := y.informers[e := v])
  }

  /** The loop takes the event unless the query is done and the loop has left. */
  function Feed(q: Query, e: D.Event): Query {
    if D.Enabled(q.loop, e) then q.(loop := D.Next(q.throttle, q.loop, e)) else q
  }

  function Next(y: System, s: Step): System
    requires Enabled(y, s)
  {
    match s
    case Pass(until) => y.(now := until)
    case Event(e) => SetInformer(y, e, WantsLock)
    case Track(q) => SetQuery(y, q, y.queries[q].(want := y.queries[q].want + 1))
    case Yield(q) => SetQuery(y, q, y.queries[q].(resp := Returned))
    case Call(q) => SetQuery(y, q, y.queries[q].(resp := Handling))
    case End(q) => SetQuery(y, q, y.queries[q].(resp := Resetting))
    case Expire(q) => SetQuery(y, q, Feed(y.queries[q], D.Timer(y.now)))
    case Cancel(q) => SetQuery(y, q, Feed(y.queries[q], D.Done(y.now)).(done := true))
    case ReadyClosed(q) => SetQuery(y, q, y.queries[q].(resp := Handling))
    case LockForEvent(e, todo) => SetInformer(y, e, Broadcasting(todo)).(lock := Some(EventThread(e)))
    case Trigger(e) =>
      var i := y.informers[e].todo[0];
      SetInformer(SetQuery(y, i, Feed(y.queries[i], D.Fire(y.now))), e, Broadcasting(y.informers[e].todo[1..]))
    case UnlockEvent(e) => SetInformer(y, e, Quiet).(lock := None)
    case LockForResolver(q) =>
      SetQuery(y, q, y.queries[q].(want := y.queries[q].want - 1)).(lock := Some(Resolver(q)))
    case UnlockResolver(q) => y.(lock := None)
    case Reset(q) => SetQuery(y, q, Feed(y.queries[q], D.Rearm(y.now)).(resp := Waiting))
    case Ready(q) => SetQuery(y, q, Feed(y.queries[q], D.Deliver(y.now)).(resp := Handling))
    case Leave(q) => SetQuery(y, q, y.queries[q].(resp := Gone))
  }

  // ----- What every reachable state keeps -----

  /** Until it is done, a query's response loop waits exactly while the query is rearmed and not yet delivered. */
  predicate QueryInv(q: Query) {
    && (q.loop.phase == D.Closed <==> q.done)
    && (q.want > 0 ==> q.resp == Handling)
    && (q.resp == Gone ==> q.done)
    && (!q.done ==>
          && (q.loop.phase == D.Sending ==> q.loop == D.Loop(false, false, None, D.Sending))
          && (q.loop.armed ==> !q.loop.fired)
          && (q.resp == Waiting <==> q.loop.armed || q.loop.timer.Some? || q.loop.phase == D.Sending))
  }

  ghost predicate LockInv(y: System) {
    && (forall e :: 0 <= e < |y.informers| ==>
          (y.informers[e].Broadcasting? <==> y.lock == Some(EventThread(e))))
    && (forall e :: 0 <= e < |y.informers| && y.informers[e].Broadcasting? ==>
          Distinct(y.informers[e].todo, |y.queries|))
    && (match y.lock
        case Some(EventThread(e)) => e < |y.informers|
        case Some(Resolver(q)) => q < |y.queries| && y.queries[q].resp == Handling
        case None => true)
  }

  ghost predicate Inv(y: System) {
    LockInv(y) && forall q :: 0 <= q < |y.queries| ==> QueryInv(y.queries[q])
  }

  ghost predicate Init(y: System) {
    && y.lock.None?
    && (forall e :: 0 <= e < |y.informers| ==> y.informers[e] == Quiet)
    && (forall q :: 0 <= q < |y.queries| ==>
          y.queries[q].loop == D.START && y.queries[q].resp == Handling && y.queries[q].want == 0 && !y.queries[q].done)
  }

  lemma InitInv(y: System)
    requires Init(y)
    ensures Inv(y)
  {
    assert forall e :: 0 <= e < |y.informers| ==> !y.informers[e].Broadcasting?;
  }

  lemma QueriesStep(y: System, s: Step)
    requires Inv(y) && Enabled(y, s)
    ensures |Next(y, s).queries| == |y.queries|
    ensures forall q :: 0 <= q < |y.queries| ==> QueryInv(Next(y, s).queries[q])
  {
  }

  /** The holder of the lock is where it was, and so are the event threads. */
  lemma LockFrame(y: System, y': System)
    requires LockInv(y) && y'.informers == y.informers && y'.lock == y.lock && |y'.queries| == |y.queries|
    requires y.lock.Some? && y.lock.value.Resolver? ==> y'.queries[y.lock.value.q].resp == Handling
    ensures LockInv(y')
  {
  }

  lemma LockStep(y: System, s: Step)
    requires Inv(y) && Enabled(y, s)
    ensures LockInv(Next(y, s))
  {
    if !(s.Event? || s.LockForEvent? || s.Trigger? || s.UnlockEvent? || s.LockForResolver? || s.UnlockResolver?) {
      LockFrame(y, Next(y, s));
    } else if s.LockForResolver? || s.UnlockResolver? {
      LockStepResolver(y, s);
    } else {
      LockStepEvent(y, s);
    }
  }

  lemma LockStepResolver(y: System, s: Step)
    requires Inv(y) && Enabled(y, s) && (s.LockForResolver? || s.UnlockResolver?)
    ensures LockInv(Next(y, s))
  {
  }

  lemma LockStepEvent(y: System, s: Step)
    requires Inv(y) && Enabled(y, s) && (s.Event? || s.LockForEvent? || s.Trigger? || s.UnlockEvent?)
    ensures LockInv(Next(y, s))
  {
  }

  lemma StepInv(y: System, s: Step)
    requires Inv(y) && Enabled(y, s)
    ensures Inv(Next(y, s))
  {
    QueriesStep(y, s);
    LockStep(y, s);
  }

  // ----- No deadlock -----

  /** An event thread in the middle of a broadcast gets on without the lock, after at most one other step. */
  lemma TriggerNotStuck(y: System, e: nat)
    requires Inv(y) && e < |y.informers| && y.informers[e].Broadcasting? && y.informers[e].todo != []
    ensures var q := y.informers[e].todo[0];
            Enabled(y, Trigger(e)) ||
            (Enabled(y, Ready(q)) && Next(y, Ready(q)).lock == y.lock && Enabled(Next(y, Ready(q)), Trigger(e)))
  {
    var q := y.informers[e].todo[0];
    assert QueryInv(y.queries[q]);
  }

  /** A response loop that rearms is never held up, and a debounce loop that sends is always being waited for. */
  lemma HandshakesNotStuck(y: System, q: nat)
    requires Inv(y) && q < |y.queries|
    ensures y.queries[q].resp == Resetting ==> Enabled(y, Reset(q))
    ensures y.queries[q].loop.phase == D.Sending ==> Enabled(y, Ready(q))
  {
    assert QueryInv(y.queries[q]);
  }

  /** Somebody waits for the lock, holds it, or is at a channel operation the pipeline has to complete. */
  ghost predicate Blocked(y: System) {
    || (exists e :: 0 <= e < |y.informers| && y.informers[e] != Quiet)
    || (exists q :: 0 <= q < |y.queries| && QueryBlocked(y.queries[q]))
    || y.lock.Some?
  }

  predicate QueryBlocked(q: Query) {
    q.want > 0 || q.resp == Resetting || q.loop.phase == D.Sending || (q.resp == Waiting && q.done)
  }

  /**
   * Whoever is blocked, some step of the pipeline itself is possible: no state
   * deadlocks. An event thread that can take the lock can take it for any
   * broadcast.
   */
  lemma NoDeadlock(y: System) returns (s: Step)
    requires Inv(y) && Blocked(y)
    ensures Internal(s) && Enabled(y, s)
    ensures s.LockForEvent? ==> forall todo :: Distinct(todo, |y.queries|) ==> Enabled(y, LockForEvent(s.e, todo))
  {
    match y.lock {
      case Some(EventThread(e)) =>
        assert y.informers[e].Broadcasting?;
        if y.informers[e].todo == [] {
          s := UnlockEvent(e);
        } else {
          TriggerNotStuck(y, e);
          s := if Enabled(y, Trigger(e)) then Trigger(e) else Ready(y.informers[e].todo[0]);
        }
      case Some(Resolver(q)) =>
        s := UnlockResolver(q);
      case None =>
        if e :| 0 <= e < |y.informers| && y.informers[e] != Quiet {
          assert !y.informers[e].Broadcasting?;
          s := LockForEvent(e, []);
        } else {
          var q :| 0 <= q < |y.queries| && QueryBlocked(y.queries[q]);
          HandshakesNotStuck(y, q);
          s := if y.queries[q].want > 0 then LockForResolver(q)
               else if y.queries[q].resp == Resetting then Reset(q)
               else if y.queries[q].loop.phase == D.Sending then Ready(q)
               else Leave(q);
        }
    }
  }

  // ----- Every wait ends -----

  function QueryRank(q: Query): nat {
    2 * q.want +
    (if q.resp == Resetting then 2 else if q.resp == Waiting && q.done then 1 else 0) +
    (if q.loop.phase == D.Sending then 1 else 0)
  }

  function InformerRank(i: Informer, n: nat): nat {
    match i
    case Quiet => 0
    case WantsLock => n + 2
    case Broadcasting(todo) => |todo| + 1
  }

  function QuerySum(qs: seq<Query>): nat {
    if qs == [] then 0 else QueryRank(qs[0]) + QuerySum(qs[1..])
  }

  function InformerSum(ths: seq<Informer>, n: nat): nat {
    if ths == [] then 0 else InformerRank(ths[0], n) + InformerSum(ths[1..], n)
  }

  /** An upper bound on the steps the pipeline can take on its own. */
  function Rank(y: System): nat {
    QuerySum(y.queries) + InformerSum(y.informers, |y.queries|) +
    (if y.lock.Some? && y.lock.value.Resolver? then 1 else 0)
  }

  lemma {:induction false} QuerySumUpdate(qs: seq<Query>, i: nat, v: Query)
    requires i < |qs|
    ensures QuerySum(qs[i := v]) == QuerySum(qs) - QueryRank(qs[i]) + QueryRank(v)
  {
    if i == 0 {
      assert qs[i := v][1..] == qs[1..];
    } else {
      assert qs[i := v][1..] == qs[1..][i - 1 := v];
      QuerySumUpdate(qs[1..], i - 1, v);
    }
  }

  lemma {:induction false} InformerSumUpdate(ths: seq<Informer>, n: nat, i: nat, v: Informer)
    requires i < |ths|
    ensures InformerSum(ths[i := v], n) == InformerSum(ths, n) - InformerRank(ths[i], n) + InformerRank(v, n)
  {
    if i == 0 {
      assert ths[i := v][1..] == ths[1..];
    } else {
      assert ths[i := v][1..] == ths[1..][i - 1 := v];
      InformerSumUpdate(ths[1..], n, i - 1, v);
    }
  }

  /** Every step of the pipeline itself uses up some of the rank. */
  lemma RankDecreases(y: System, s: Step)
    requires Inv(y) && Enabled(y, s) && Internal(s)
    ensures Rank(Next(y, s)) < Rank(y)
  {
    var y', n := Next(y, s), |y.queries|;
    match s {
      case LockForEvent(e, todo) => InformerSumUpdate(y.informers, n, e, y'.informers[e]);
      case Trigger(e) =>
        var i := y.informers[e].todo[0];
        InformerSumUpdate(y.informers, n, e, y'.informers[e]);
        QuerySumUpdate(y.queries, i, y'.queries[i]);
      case UnlockEvent(e) => InformerSumUpdate(y.informers, n, e, Quiet);
      case LockForResolver(q) => QuerySumUpdate(y.queries, q, y'.queries[q]);
      case UnlockResolver(q) =>
      case Reset(q) =>
        assert QueryInv(y.queries[q]);
        QuerySumUpdate(y.queries, q, y'.queries[q]);
      case Ready(q) =>
        assert QueryInv(y.queries[q]);
        QuerySumUpdate(y.queries, q, y'.queries[q]);
      case Leave(q) => QuerySumUpdate(y.queries, q, y'.queries[q]);
    }
  }

  ghost predicate IsRun(y: System, steps: seq<Step>)
    decreases |steps|
  {
    steps == [] || (Enabled(y, steps[0]) && IsRun(Next(y, steps[0]), steps[1..]))
  }

  ghost function After(y: System, steps: seq<Step>): System
    requires IsRun(y, steps)
    decreases |steps|
  {
    if steps == [] then y else After(Next(y, steps[0]), steps[1..])
  }

  lemma {:induction false} RunInv(y: System, steps: seq<Step>)
    requires Inv(y) && IsRun(y, steps)
    ensures Inv(After(y, steps))
    decreases |steps|
  {
    if steps != [] {
      StepInv(y, steps[0]);
      RunInv(Next(y, steps[0]), steps[1..]);
    }
  }

  /**
   * From every reachable state the pipeline on its own takes at most Rank
   * steps, however they interleave, and where it cannot go on nobody is
   * blocked: every trigger, rearm, delivery and wait for the lock completes.
   */
  lemma {:induction false} EveryWaitEnds(y: System, steps: seq<Step>)
    requires Inv(y) && IsRun(y, steps) && forall i :: 0 <= i < |steps| ==> Internal(steps[i])
    ensures |steps| + Rank(After(y, steps)) <= Rank(y)
    ensures (forall s :: Internal(s) ==> !Enabled(After(y, steps), s)) ==> !Blocked(After(y, steps))
    decreases |steps|
  {
    if steps == [] {
      if Blocked(y) {
        var s := NoDeadlock(y);
      }
    } else {
      StepInv(y, steps[0]);
      RankDecreases(y, steps[0]);
      EveryWaitEnds(Next(y, steps[0]), steps[1..]);
    }
  }

  /** Both together, for every run from the start. */
  lemma ReachableNeverDeadlocks(y: System, steps: seq<Step>)
    requires Init(y) && IsRun(y, steps)
    ensures Inv(After(y, steps))
    ensures Blocked(After(y, steps)) ==> exists s :: Internal(s) && Enabled(After(y, steps), s)
  {
    InitInv(y);
    RunInv(y, steps);
    if Blocked(After(y, steps)) {
      var s := NoDeadlock(After(y, steps));
    }
  }

  // ----- No change is lost on the way -----

  /** A change reached the query and its handler has not been run again since. */
  predicate ChangePending(q: Query) {
    q.loop.fired || q.loop.timer.Some? || q.loop.phase == D.Sending
  }

  /** A trigger makes the change pending; only a new run of the handler, or the end of the query, settles it. */
  lemma ChangeKept(y: System, s: Step, q: nat)
    requires Inv(y) && Enabled(y, s) && q < |y.queries| && !y.queries[q].done
    ensures s.Trigger? && y.informers[s.e].todo[0] == q ==> ChangePending(Next(y, s).queries[q])
    ensures ChangePending(y.queries[q]) && !ChangePending(Next(y, s).queries[q]) ==>
              s == Cancel(q) || (s == Ready(q) && Next(y, s).queries[q].resp == Handling)
    ensures y.queries[q].resp == Waiting && Next(y, s).queries[q].resp != Waiting ==>
              s == Ready(q) && y.queries[q].loop.phase == D.Sending
  {
    assert QueryInv(y.queries[q]);
  }

  /** Over whole runs: a pending change stays pending unless its query was run again or cancelled. */
  lemma {:induction false} ChangeKeptOverRun(y: System, steps: seq<Step>, q: nat)
    requires Inv(y) && IsRun(y, steps) && q < |y.queries| && !y.queries[q].done && ChangePending(y.queries[q])
    ensures |After(y, steps).queries| == |y.queries|
    ensures ChangePending(After(y, steps).queries[q]) || Ready(q) in steps || Cancel(q) in steps
    decreases |steps|
  {
    RunKeepsQueries(y, steps);
    if steps != [] {
      ChangeKept(y, steps[0], q);
      StepInv(y, steps[0]);
      assert steps == [steps[0]] + steps[1..];
      if steps[0] != Ready(q) && steps[0] != Cancel(q) {
        ChangeKeptOverRun(Next(y, steps[0]), steps[1..], q);
      }
    }
  }

  lemma {:induction false} RunKeepsQueries(y: System, steps: seq<Step>)
    requires IsRun(y, steps)
    ensures |After(y, steps).queries| == |y.queries|
    decreases |steps|
  {
    if steps != [] {
      RunKeepsQueries(Next(y, steps[0]), steps[1..]);
    }
  }

  // ----- Broadcasts and resolvers -----

  /** Before an event thread unlocks, each query on its list was triggered: its change is pending, or was settled. */
  lemma {:induction false} BroadcastReachesAll(y: System, steps: seq<Step>, e: nat, q: nat)
    requires Inv(y) && IsRun(y, steps) && e < |y.informers| && y.informers[e].Broadcasting?
    requires q in y.informers[e].todo && q < |y.queries| && !y.queries[q].done
    requires UnlockEvent(e) in steps
    ensures |After(y, steps).queries| == |y.queries|
    ensures ChangePending(After(y, steps).queries[q]) || Ready(q) in steps || Cancel(q) in steps
    decreases |steps|
  {
    var s, rest := steps[0], steps[1..];
    var y' := Next(y, s);
    assert steps == [s] + rest;
    StepInv(y, s);
    RunKeepsQueries(y, steps);
    if s != Cancel(q) {
      if s == Trigger(e) && y.informers[e].todo[0] == q {
        ChangeKept(y, s, q);
        ChangeKeptOverRun(y', rest, q);
      } else {
        assert y'.informers[e].Broadcasting? && q in y'.informers[e].todo by { StillOnList(y, s, e, q); }
        BroadcastReachesAll(y', rest, e, q);
      }
    }
  }

  lemma StillOnList(y: System, s: Step, e: nat, q: nat)
    requires Inv(y) && Enabled(y, s) && e < |y.informers| && y.informers[e].Broadcasting? && q in y.informers[e].todo
    requires !(s == Trigger(e) && y.informers[e].todo[0] == q)
    ensures e < |Next(y, s).informers| && Next(y, s).informers[e].Broadcasting? && q in Next(y, s).informers[e].todo
  {
    var todo := y.informers[e].todo;
    if s == Trigger(e) {
      assert todo == [todo[0]] + todo[1..];
    }
  }

  /** How often a step occurs. */
  function Count(steps: seq<Step>, s: Step): nat {
    if steps == [] then 0 else (if steps[0] == s then 1 else 0) + Count(steps[1..], s)
  }

  /** Every resolver that wants the lock gets it once: the handler sends or ends only when none is left waiting. */
  lemma {:induction false} ResolversCounted(y: System, steps: seq<Step>, q: nat)
    requires IsRun(y, steps) && q < |y.queries|
    ensures |After(y, steps).queries| == |y.queries|
    ensures After(y, steps).queries[q].want + Count(steps, LockForResolver(q)) ==
            y.queries[q].want + Count(steps, Track(q))
    ensures Enabled(After(y, steps), Yield(q)) || Enabled(After(y, steps), End(q)) ==>
              Count(steps, LockForResolver(q)) == y.queries[q].want + Count(steps, Track(q)) &&
              After(y, steps).lock != Some(Resolver(q))
    decreases |steps|
  {
    if steps != [] {
      ResolversCounted(Next(y, steps[0]), steps[1..], q);
    }
  }

  // ----- What the steps lead to -----

  /** The broadcast of an event reaches every query on its list before the lock is released. */
  lemma EventReachesAll(y: System, e: nat, todo: seq<nat>, steps: seq<Step>, q: nat)
    requires Inv(y) && Enabled(y, LockForEvent(e, todo)) && IsRun(Next(y, LockForEvent(e, todo)), steps)
    requires q in todo && q < |y.queries| && !y.queries[q].done && UnlockEvent(e) in steps
    ensures var y' := After(Next(y, LockForEvent(e, todo)), steps);
            |y'.queries| == |y.queries| && (ChangePending(y'.queries[q]) || Ready(q) in steps || Cancel(q) in steps)
  {
    StepInv(y, LockForEvent(e, todo));
    BroadcastReachesAll(Next(y, LockForEvent(e, todo)), steps, e, q);
  }

  /** The pipeline itself cannot go on. */
  ghost predicate Settled(y: System) {
    forall s :: Internal(s) ==> !Enabled(y, s)
  }

  ghost predicate AllInternal(steps: seq<Step>) {
    forall i :: 0 <= i < |steps| ==> Internal(steps[i])
  }

  lemma InternalTail(steps: seq<Step>)
    requires AllInternal(steps) && steps != []
    ensures AllInternal(steps[1..])
  {
    forall i | 0 <= i < |steps[1..]| ensures Internal(steps[1..][i]) {
      assert steps[1..][i] == steps[i + 1];
    }
  }

  /** An event is broadcast before the pipeline settles. */
  lemma {:induction false} WaitingIsBroadcast(y: System, steps: seq<Step>, e: nat)
    requires Inv(y) && IsRun(y, steps) && AllInternal(steps) && Settled(After(y, steps))
    requires e < |y.informers| && y.informers[e] == WantsLock
    ensures exists i :: 0 <= i < |steps| && steps[i].LockForEvent? && steps[i].e == e
    decreases |steps|
  {
    if steps == [] {
      EveryWaitEnds(y, []);
    } else if steps[0].LockForEvent? && steps[0].e == e {
    } else {
      InternalTail(steps);
      StepInv(y, steps[0]);
      assert e < |Next(y, steps[0]).informers| && Next(y, steps[0]).informers[e] == WantsLock;
      WaitingIsBroadcast(Next(y, steps[0]), steps[1..], e);
      var i :| 0 <= i < |steps[1..]| && steps[1..][i].LockForEvent? && steps[1..][i].e == e;
      assert steps[i + 1].LockForEvent? && steps[i + 1].e == e;
    }
  }

  lemma EventIsBroadcast(y: System, steps: seq<Step>, e: nat)
    requires Inv(y) && Enabled(y, Event(e)) && IsRun(Next(y, Event(e)), steps)
    requires AllInternal(steps) && Settled(After(Next(y, Event(e)), steps))
    ensures exists i :: 0 <= i < |steps| && steps[i].LockForEvent? && steps[i].e == e
  {
    StepInv(y, Event(e));
    WaitingIsBroadcast(Next(y, Event(e)), steps, e);
  }

  /** The response loop is about to rearm, or has, and waits. */
  predicate Rearming(q: Query) {
    !q.done && q.loop.phase == D.Selecting &&
    (q.resp == Resetting || (q.resp == Waiting && (q.loop.armed || q.loop.timer.Some?)))
  }

  lemma RearmingStep(y: System, s: Step, q: nat)
    requires Inv(y) && Enabled(y, s) && Internal(s) && q < |y.queries| && Rearming(y.queries[q])
    ensures |Next(y, s).queries| == |y.queries| && Rearming(Next(y, s).queries[q])
    ensures ChangePending(y.queries[q]) ==> ChangePending(Next(y, s).queries[q])
  {
    assert QueryInv(y.queries[q]);
  }

  lemma {:induction false} RearmingRun(y: System, steps: seq<Step>, q: nat)
    requires Inv(y) && IsRun(y, steps) && AllInternal(steps) && q < |y.queries| && Rearming(y.queries[q])
    ensures |After(y, steps).queries| == |y.queries| && Rearming(After(y, steps).queries[q]) && Inv(After(y, steps))
    ensures ChangePending(y.queries[q]) ==> ChangePending(After(y, steps).queries[q])
    decreases |steps|
  {
    if steps != [] {
      InternalTail(steps);
      StepInv(y, steps[0]);
      RearmingStep(y, steps[0], q);
      RearmingRun(Next(y, steps[0]), steps[1..], q);
    }
  }

  /** A handler that has ended rearms its query, and with a change pending the throttle timer runs. */
  lemma EndRearms(y: System, steps: seq<Step>, q: nat)
    requires Inv(y) && Enabled(y, End(q)) && !y.queries[q].done && IsRun(Next(y, End(q)), steps)
    requires AllInternal(steps) && Settled(After(Next(y, End(q)), steps))
    ensures var y' := After(Next(y, End(q)), steps);
            && |y'.queries| == |y.queries| && y'.queries[q].resp == Waiting
            && (y'.queries[q].loop.armed || y'.queries[q].loop.timer.Some?)
            && (ChangePending(y.queries[q]) ==> y'.queries[q].loop.timer.Some?)
  {
    StepInv(y, End(q));
    assert QueryInv(y.queries[q]);
    RearmingRun(Next(y, End(q)), steps, q);
    var y' := After(Next(y, End(q)), steps);
    assert QueryInv(y'.queries[q]);
    if y'.queries[q].resp == Resetting {
      HandshakesNotStuck(y', q);
      assert Internal(Reset(q));
    }
  }

  /** When the timer expires the change can be delivered at once, and then the handler runs again. */
  lemma ExpiryDelivers(y: System, q: nat)
    requires Inv(y) && Enabled(y, Expire(q))
    ensures var y' := Next(y, Expire(q));
            Enabled(y', Ready(q)) && Next(y', Ready(q)).queries[q].resp == Handling &&
            !ChangePending(Next(y', Ready(q)).queries[q])
  {
    assert QueryInv(y.queries[q]);
  }

  /** A query that is cancelled stays so, its loop ends, and nothing is delivered for it again; its response loop leaves. */
  lemma {:induction false} DoneIsFinal(y: System, steps: seq<Step>, q: nat)
    requires Inv(y) && IsRun(y, steps) && q < |y.queries| && y.queries[q].done
    ensures |After(y, steps).queries| == |y.queries| && After(y, steps).queries[q].done
    ensures After(y, steps).queries[q].loop.phase == D.Closed && Ready(q) !in steps
    ensures Settled(After(y, steps)) ==> After(y, steps).queries[q].resp != Waiting
    decreases |steps|
  {
    assert QueryInv(y.queries[q]);
    if steps == [] {
      assert Internal(Leave(q));
    } else {
      StepInv(y, steps[0]);
      assert steps == [steps[0]] + steps[1..];
      DoneIsFinal(Next(y, steps[0]), steps[1..], q);
    }
  }

  lemma CancelIsFinal(y: System, steps: seq<Step>, q: nat)
    requires Inv(y) && Enabled(y, Cancel(q)) && IsRun(Next(y, Cancel(q)), steps)
    ensures var y' := After(Next(y, Cancel(q)), steps);
            && |y'.queries| == |y.queries| && y'.queries[q].done && y'.queries[q].loop.phase == D.Closed
            && Ready(q) !in steps && (Settled(y') ==> y'.queries[q].resp != Waiting)
  {
    StepInv(y, Cancel(q));
    DoneIsFinal(Next(y, Cancel(q)), steps, q);
  }

  function Locks(steps: seq<Step>): nat {
    if steps == [] then 0
    else (if steps[0].LockForEvent? || steps[0].LockForResolver? then 1 else 0) + Locks(steps[1..])
  }

  function Unlocks(steps: seq<Step>): nat {
    if steps == [] then 0
    else (if steps[0].UnlockEvent? || steps[0].UnlockResolver? then 1 else 0) + Unlocks(steps[1..])
  }

  /** The lock excludes: over every run it is taken once more than released, or as often, and so never twice. */
  lemma {:induction false} LockExcludes(y: System, steps: seq<Step>)
    requires Inv(y) && IsRun(y, steps)
    ensures Locks(steps) + (if y.lock.Some? then 1 else 0) ==
            Unlocks(steps) + (if After(y, steps).lock.Some? then 1 else 0)
    decreases |steps|
  {
    if steps != [] {
      LockCounts(y, steps[0]);
      StepInv(y, steps[0]);
      LockExcludes(Next(y, steps[0]), steps[1..]);
    }
  }

  lemma LockCounts(y: System, s: Step)
    requires Inv(y) && Enabled(y, s)
    ensures s.LockForEvent? || s.LockForResolver? ==> y.lock.None? && Next(y, s).lock.Some?
    ensures s.UnlockEvent? || s.UnlockResolver? ==> y.lock.Some? && Next(y, s).lock.None?
    ensures !(s.LockForEvent? || s.LockForResolver? || s.UnlockEvent? || s.UnlockResolver?) ==>
              Next(y, s).lock == y.lock
  {
  }
}
