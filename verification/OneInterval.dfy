/**
 * Callers that all schedule at one interval, as the cache does. Schedule reads
 * the clock before it reaches the queue, so callers that run side by side can
 * reach it out of the order of their readings, each with what is left of the
 * interval. Where reading and adding are not interleaved with other calls the
 * whole interval is left, and these are the runs of SameInterval.
 */
module OneInterval {
  import opened Wrappers
  import opened ExpiryQueue
  import opened ExpiryRuns
  import opened CleanerLoop
  import opened LostSignals

  // ----- Callers that are not interleaved -----

  ghost predicate SameInterval<T>(events: seq<Event<T>>, interval: nat) {
    forall i :: 0 <= i < |events| && events[i].Call? ==> events[i].left == interval
  }

  ghost predicate ScheduledUpTo<T>(ops: seq<Op<T>>, at: int) {
    forall i :: 0 <= i < |ops| && ops[i].Schedule? ==> ops[i].at <= at
  }

  /** Such callers never give a key an earlier deadline. */
  lemma {:induction false} SameIntervalNondecreasing<T(!new)>(c: Config, now: int, events: seq<Event<T>>, interval: nat)
    requires IsRun(c, Init<T>(now), events) && SameInterval(events, interval)
    ensures Nondecreasing(Trace(c, Init(now), events))
    ensures ScheduledUpTo(Trace(c, Init(now), events), After(c, Init(now), events).now + interval)
    decreases |events|
  {
    if events != [] {
      var pre, e := events[..|events| - 1], events[|events| - 1];
      assert SameInterval(pre, interval) by {
        forall i | 0 <= i < |pre| && pre[i].Call? ensures pre[i].left == interval { assert pre[i] == events[i]; }
      }
      SameIntervalNondecreasing(c, now, pre, interval);
    }
  }

  /** The promise to such callers, as long as no signal is lost to harm. */
  lemma UninterleavedInTime<T(!new)>(c: Config, now: int, events: seq<Event<T>>, interval: nat)
    requires IsRun(c, Init<T>(now), events) && AllHarmless(c, Init(now), events) && SameInterval(events, interval)
    ensures var s := After(c, Init(now), events);
            var m := SpecRun(Trace(c, Init(now), events));
            && Valid(s.q) && View(s.q) == m
            && (forall k :: k in m ==> s.now <= m[k].at + c.tick + c.work)
            && IsBatch(m, s.now, Handed(c, s, Wake))
  {
    SameIntervalNondecreasing(c, now, events, interval);
    EveryObjectInTime(c, now, events);
  }

  // ----- A loop that sleeps -----

  /** The loop sleeps without a timer, or is about to, beside pending entries. */
  ghost predicate Asleep<T>(s: State<T>) {
    && Valid(s.q) && s.q.exps != []
    && match s.phase
       case Parked(w) => w == None
       case Busy(_, exp, w) => exp == None && w == None
  }

  /** A call reaches a loop that is parked, with a deadline before the head of the queue. */
  predicate Rouses<T>(s: State<T>, e: Event<T>) {
    e.Call? && s.phase.Parked? && Newest(s.q, s.now + e.left)
  }

  /** Only such a call ends the sleep, and until then nothing is handed out. */
  lemma RousedIff<T(!new)>(c: Config, s: State<T>, e: Event<T>)
    requires Asleep(s) && Enabled(c, s, e)
    ensures !Asleep(Next(c, s, e)) <==> Rouses(s, e)
    ensures !Rouses(s, e) ==> Handed(c, s, e) == [] && s.q.refs.Keys <= Next(c, s, e).q.refs.Keys
  {
    if e.Call? {
      AddedView(s.q, e.key, e.obj, s.now + e.left);
      if Rouses(s, e) {
        LaterHeadStays(s.q, e.key, e.obj, s.now, s.now + e.left);
      }
    }
  }

  /** An entry that is not due is still there after a collect. */
  lemma LaterHeadStays<T(!new)>(q: Queue<T>, key: Key, obj: T, now: int, at: int)
    requires Valid(q) && q.exps != [] && Newest(q, at) && now <= at
    ensures Drain(Added(q, key, obj, at), now).rest.exps != []
  {
    var added := Added(q, key, obj, at);
    AddedView(q, key, obj, at);
    InsertSorted(q.exps, Entry(NextGen(q, key), key, at));
    assert q.exps[0] in added.exps;
    var i :| 0 <= i < |added.exps| && added.exps[i] == q.exps[0];
    LaterStays(added, now);
  }

  lemma {:induction false} LaterStays<T>(q: Queue<T>, now: int)
    requires exists i :: 0 <= i < |q.exps| && q.exps[i].at > now
    ensures Drain(q, now).rest.exps != []
    decreases |q.exps|
  {
    var i :| 0 <= i < |q.exps| && q.exps[i].at > now;
    if q.exps[0].at <= now {
      var e := q.exps[0];
      var refs := if e.key in q.refs && q.refs[e.key].gen == e.gen then q.refs - {e.key} else q.refs;
      assert q.exps[1..][i - 1].at > now;
      LaterStays(Queue(q.exps[1..], refs), now);
    }
  }

  /** No event of the run rouses the loop. */
  ghost predicate Undisturbed<T>(c: Config, s0: State<T>, events: seq<Event<T>>)
    requires IsRun(c, s0, events)
    decreases |events|
  {
    events == [] || (Undisturbed(c, s0, events[..|events| - 1]) &&
                     !Rouses(After(c, s0, events[..|events| - 1]), events[|events| - 1]))
  }

  /** Whatever the intervals: a loop asleep sleeps until a call reaches it with a deadline before the head. */
  lemma {:induction false} NotWokenUntilRoused<T(!new)>(c: Config, s: State<T>, events: seq<Event<T>>)
    requires Asleep(s) && IsRun(c, s, events) && Undisturbed(c, s, events)
    ensures Asleep(After(c, s, events))
    ensures s.q.refs.Keys <= After(c, s, events).q.refs.Keys
    ensures forall x :: !HandedIn(c, s, events, x)
    decreases |events|
  {
    if events != [] {
      NotWokenUntilRoused(c, s, events[..|events| - 1]);
      RousedIff(c, After(c, s, events[..|events| - 1]), events[|events| - 1]);
    }
  }

  // ----- Within one interval -----

  /** Each call reaches the queue before its deadline, with at most the interval left. */
  ghost predicate WithinInterval<T>(events: seq<Event<T>>, interval: nat) {
    forall i :: 0 <= i < |events| && events[i].Call? ==> 0 < events[i].left <= interval
  }

  /** What holds of callers within one interval. */
  ghost predicate OneInterval<T>(s: State<T>, interval: nat) {
    && Valid(s.q) && AllDueBy(s.q, s.now + interval)
    && (s.phase.Busy? && s.phase.exp == None ==> s.phase.wakeup == None)
    && (s.phase.Busy? && s.phase.exp.Some? ==> s.q.exps != [])
  }

  ghost predicate AllDueBy<T>(q: Queue<T>, at: int) {
    forall i :: 0 <= i < |q.exps| ==> q.exps[i].at <= at
  }

  lemma AddedDueBy<T>(q: Queue<T>, key: Key, obj: T, at: int, bound: int)
    requires Valid(q) && AllDueBy(q, bound) && at <= bound
    ensures Valid(Added(q, key, obj, at)) && AllDueBy(Added(q, key, obj, at), bound)
    ensures Added(q, key, obj, at).exps != []
  {
    AddedView(q, key, obj, at);
    var q' := Added(q, key, obj, at);
    if !HasEntry(q.exps, key, at) {
      InsertSorted(q.exps, Entry(NextGen(q, key), key, at));
      forall i | 0 <= i < |q'.exps| ensures q'.exps[i].at <= bound {
        assert q'.exps[i] in q'.exps;
      }
    }
  }

  lemma {:induction false} DrainDueBy<T(!new)>(q: Queue<T>, now: int, at: int)
    requires AllDueBy(q, at)
    ensures AllDueBy(Drain(q, now).rest, at)
    ensures (exists i :: 0 <= i < |q.exps| && q.exps[i].at > now) ==> Drain(q, now).rest.exps != []
    decreases |q.exps|
  {
    if q.exps != [] && q.exps[0].at <= now {
      var e := q.exps[0];
      var q' := Queue(q.exps[1..], if e.key in q.refs && q.refs[e.key].gen == e.gen then q.refs - {e.key} else q.refs);
      DrainDueBy(q', now, at);
      if i :| 0 <= i < |q.exps| && q.exps[i].at > now {
        assert q'.exps[i - 1].at > now;
      }
    }
  }

  lemma OneIntervalCall<T(!new)>(c: Config, s: State<T>, key: Key, obj: T, left: nat, interval: nat)
    requires OneInterval(s, interval) && 0 < left <= interval
    ensures OneInterval(Next(c, s, Call(key, obj, left)), interval)
  {
    if Newest(s.q, s.now + left) && s.phase.Parked? {
      OneIntervalTurn(c, s, key, obj, left, interval);
    } else {
      AddedDueBy(s.q, key, obj, s.now + left, s.now + interval);
    }
  }

  lemma OneIntervalTurn<T(!new)>(c: Config, s: State<T>, key: Key, obj: T, left: nat, interval: nat)
    requires OneInterval(s, interval) && 0 < left <= interval && Newest(s.q, s.now + left) && s.phase.Parked?
    ensures OneInterval(Next(c, s, Call(key, obj, left)), interval)
  {
    var q := Added(s.q, key, obj, s.now + left);
    AddedDueBy(s.q, key, obj, s.now + left, s.now + interval);
    NewestIsHead(s.q, key, obj, s.now + left);
    DrainExact(q, s.now);
    DrainDueBy(q, s.now, s.now + interval);
    assert Next(c, s, Call(key, obj, left)) == BeginTurn(q, s.now, s.phase.wakeup);
  }

  lemma OneIntervalStep<T(!new)>(c: Config, s: State<T>, e: Event<T>, interval: nat)
    requires OneInterval(s, interval) && Enabled(c, s, e) && (e.Call? ==> 0 < e.left <= interval)
    ensures OneInterval(Next(c, s, e), interval)
  {
    match e {
      case Pass(_) =>
      case Park =>
      case Wake =>
        DrainExact(s.q, s.now);
        DrainDueBy(s.q, s.now, s.now + interval);
      case Call(key, obj, left) =>
        OneIntervalCall(c, s, key, obj, left, interval);
    }
  }

  lemma {:induction false} OneIntervalRun<T(!new)>(c: Config, now: int, events: seq<Event<T>>, interval: nat)
    requires IsRun(c, Init<T>(now), events) && WithinInterval(events, interval)
    ensures OneInterval(After(c, Init(now), events), interval)
    decreases |events|
  {
    if events != [] {
      OneIntervalRun(c, now, events[..|events| - 1], interval);
      OneIntervalStep(c, After(c, Init(now), events[..|events| - 1]), events[|events| - 1], interval);
    }
  }

  /**
   * Callers within one interval, in whatever order they read the clock: a
   * signal that is lost is harmless exactly if the turn is about to set a timer
   * that is early enough. If it is about to set none, which is so if the turn
   * emptied the queue, the loop sleeps from then on, beside the new object.
   */
  lemma LossSleeps<T(!new)>(c: Config, now: int, events: seq<Event<T>>, e: Event<T>, interval: nat)
    requires IsRun(c, Init<T>(now), events) && WithinInterval(events, interval)
    requires Enabled(c, After(c, Init(now), events), e) && e.Call? && 0 < e.left <= interval
    ensures var s := After(c, Init(now), events);
            && (Drops(s, e) <==> s.phase.Busy? && Newest(s.q, s.now + e.left))
            && (s.phase.Busy? && s.q.exps == [] ==> s.phase.exp == None)
            && (Drops(s, e) ==>
                  (Harmless(c, s, e) <==>
                   s.phase.exp.Some? && s.phase.exp.value <= s.now + e.left + c.tick + c.work))
            && (Drops(s, e) && s.phase.exp == None ==> Asleep(Next(c, s, e)) && e.key in Next(c, s, e).q.refs)
  {
    var s := After(c, Init(now), events);
    OneIntervalRun(c, now, events, interval);
    if Drops(s, e) {
      NewestIsHead(s.q, e.key, e.obj, s.now + e.left);
    }
  }

  /** Callers that are not interleaved never rouse a sleeping loop. */
  lemma {:induction false} SameIntervalUndisturbed<T(!new)>(c: Config, s: State<T>, events: seq<Event<T>>,
                                                            interval: nat)
    requires Asleep(s) && s.q.exps[0].at <= s.now + interval && IsRun(c, s, events) && SameInterval(events, interval)
    ensures Undisturbed(c, s, events) && Asleep(After(c, s, events))
    ensures After(c, s, events).q.exps[0].at <= After(c, s, events).now + interval
    decreases |events|
  {
    if events != [] {
      var pre, e := events[..|events| - 1], events[|events| - 1];
      var s1 := After(c, s, pre);
      SameIntervalUndisturbed(c, s, pre, interval);
      RousedIff(c, s1, e);
      if e.Call? {
        HeadStays(s1.q, e.key, e.obj, s1.now + interval);
      }
    }
  }

  /**
   * Callers with one positive interval that are not interleaved: a signal is
   * lost exactly if it meets a turn that emptied the queue, each loss is
   * harmful, and the loop never hands out anything again.
   */
  lemma OneLossIsFinal<T(!new)>(c: Config, now: int, events: seq<Event<T>>, e: Event<T>, more: seq<Event<T>>,
                                interval: nat)
    requires interval > 0 && IsRun(c, Init<T>(now), events) && SameInterval(events, interval)
    requires Enabled(c, After(c, Init(now), events), e) && e.Call? && e.left == interval
    ensures var s := After(c, Init(now), events);
            && (Drops(s, e) <==> s.phase.Busy? && s.q.exps == [])
            && (Harmless(c, s, e) <==> !Drops(s, e))
            && (Drops(s, e) && IsRun(c, Next(c, s, e), more) && SameInterval(more, interval) ==>
                  && Asleep(After(c, Next(c, s, e), more))
                  && e.key in After(c, Next(c, s, e), more).q.refs
                  && forall x :: !HandedIn(c, Next(c, s, e), more, x))
  {
    var s := After(c, Init(now), events);
    OneIntervalRun(c, now, events, interval);
    LossSleeps(c, now, events, e, interval);
    if Drops(s, e) && IsRun(c, Next(c, s, e), more) && SameInterval(more, interval) {
      NewestIsHead(s.q, e.key, e.obj, s.now + interval);
      SameIntervalUndisturbed(c, Next(c, s, e), more, interval);
      NotWokenUntilRoused(c, Next(c, s, e), more);
    }
  }

  /** When the timer for the first object of one interval fires. */
  function FirstWake(c: Config, interval: nat): int {
    Rewake(Some(interval), 0, c.tick).value
  }

  /** The second object, scheduled while the first one is being cleaned, meets a busy loop with an empty queue. */
  lemma LostWakeup(c: Config, interval: nat)
    requires interval > 0
    ensures var events := [Call("a", 0, interval), Park, Pass(FirstWake(c, interval)), Wake];
            && IsRun(c, Init(0), events) && SameInterval(events, interval)
            && After(c, Init(0), events) ==
               State(Queue([], map[]), FirstWake(c, interval), Busy(FirstWake(c, interval), None, None))
            && Drops(After(c, Init(0), events), Call("b", 1, interval))
  {
    var w := FirstWake(c, interval);
    var e1, e2, e3, e4 := Call("a", 0, interval), Event<int>.Park, Event<int>.Pass(w), Event<int>.Wake;
    var q := Queue([Entry(1, "a", interval)], map["a" := Ref(1, 0)]);
    assert Next(c, Init(0), e1) == State(q, 0, Busy(0, Some(interval as int), None)) by {
      assert Added(Queue([], map[]), "a", 0, interval) == q;
    }
    assert Next(c, State(q, w, Parked(Some(w))), e4) == State(Queue([], map[]), w, Busy(w, None, None)) by {
      var rest: Queue<int> := Queue(q.exps[1..], q.refs - {"a"});
      assert rest == Queue([], map[]) && Drain(rest, w) == Drained([], rest);
    }
    AfterFour(c, Init(0), e1, e2, e3, e4);
  }

  lemma AfterFour<T>(c: Config, s: State<T>, e1: Event<T>, e2: Event<T>, e3: Event<T>, e4: Event<T>)
    requires Enabled(c, s, e1) && Enabled(c, Next(c, s, e1), e2)
    requires var s2 := Next(c, Next(c, s, e1), e2); Enabled(c, s2, e3) && Enabled(c, Next(c, s2, e3), e4)
    ensures IsRun(c, s, [e1, e2, e3, e4])
    ensures After(c, s, [e1, e2, e3, e4]) == Next(c, Next(c, Next(c, Next(c, s, e1), e2), e3), e4)
  {
    assert [] + [e1] == [e1] && [e1] + [e2] == [e1, e2];
    assert [e1, e2] + [e3] == [e1, e2, e3] && [e1, e2, e3] + [e4] == [e1, e2, e3, e4];
    AfterSnoc(c, s, [], e1);
    AfterSnoc(c, s, [e1], e2);
    AfterSnoc(c, s, [e1, e2], e3);
    AfterSnoc(c, s, [e1, e2, e3], e4);
  }

  // ----- Callers that are interleaved -----

  ghost function SpecOps<T>(m: map<Key, Item<T>>, ops: seq<Op<T>>): map<Key, Item<T>>
    decreases |ops|
  {
    if ops == [] then m else SpecOps(SpecStep(m, ops[0]), ops[1..])
  }

  lemma {:induction false} SpecRunConcat<T>(t: seq<Op<T>>, ops: seq<Op<T>>)
    ensures SpecRun(t + ops) == SpecOps(SpecRun(t), ops)
    decreases |ops|
  {
    if ops == [] {
      assert t + ops == t;
    } else {
      assert t + ops == t + [ops[0]] + ops[1..];
      RunSnoc(t, ops[0]);
      SpecRunConcat(t + [ops[0]], ops[1..]);
    }
  }

  /** A run without harmful loss comes to the state `s`, and the plain map to `m`. */
  ghost predicate ComesTo<T>(c: Config, events: seq<Event<T>>, s: State<T>, m: map<Key, Item<T>>) {
    && IsRun(c, Init(0), events) && AllHarmless(c, Init(0), events)
    && After(c, Init(0), events) == s && SpecRun(Trace(c, Init(0), events)) == m
  }

  lemma ComesToNext<T>(c: Config, events: seq<Event<T>>, s: State<T>, m: map<Key, Item<T>>, e: Event<T>)
    requires ComesTo(c, events, s, m) && Enabled(c, s, e) && Harmless(c, s, e)
    ensures ComesTo(c, events + [e], Next(c, s, e), SpecOps(m, Ops(s, e)))
  {
    assert (events + [e])[..|events|] == events;
    SpecRunConcat(Trace(c, Init(0), events), Ops(s, e));
  }

  /** Deadlines 61 and 60 of one key, added in that order: readings of the clock at 1 and at 0. */
  function OutOfOrder(): seq<Event<int>> {
    [Pass(1)] + [Call("k", 0, 60)] + [Park] + [Call("k", 1, 59)] + [Park]
  }

  function Interleaved(): seq<Event<int>> {
    OutOfOrder() + [Pass(60)] + [Wake] + [Call("k", 2, 60)]
  }

  lemma FirstAdded(c: Config)
    requires c.tick <= 59
    ensures ComesTo(c, [Pass(1)] + [Call("k", 0, 60)] + [Park],
                    State(Queue([Entry(1, "k", 61)], map["k" := Ref(1, 0)]), 1, Parked(Some(61))),
                    map["k" := Item("k", 61, 0)])
  {
    var e1, e2: Event<int> := Pass(1), Call("k", 0, 60);
    var q := Queue([Entry(1, "k", 61)], map["k" := Ref(1, 0)]);
    var s1: State<int> := State(Queue([], map[]), 1, Parked(None));
    assert [] + [e1] == [e1];
    ComesToNext(c, [], Init(0), map[], e1);
    assert Added(s1.q, "k", 0, 61) == q;
    assert Next(c, s1, e2) == State(q, 1, Busy(1, Some(61), None));
    ComesToNext(c, [e1], s1, map[], e2);
    ComesToNext(c, [e1] + [e2], Next(c, s1, e2), SpecOps(map[], Ops(s1, e2)), Park);
    SpecCall(map[], "k", 0, 61, 1);
  }

  lemma SpecCall(m: map<Key, Item<int>>, key: Key, obj: int, at: int, now: int)
    requires forall k :: k in m ==> m[k].at > now
    requires at > now && (key in m ==> m[key].at != at)
    ensures SpecOps(m, [Schedule(key, obj, at), Collect(now)]) == m[key := Item(key, at, obj)]
  {
    var o1: Op<int>, o2: Op<int> := Schedule(key, obj, at), Collect(now);
    assert [o1, o2][1..] == [o2] && [o2][1..] == [];
    assert SpecOps(m[key := Item(key, at, obj)], [o2]) == StillPending(m[key := Item(key, at, obj)], now);
  }

  lemma SecondAdded(c: Config)
    requires c.tick <= 59
    ensures ComesTo(c, OutOfOrder(),
                    State(Queue([Entry(2, "k", 60), Entry(1, "k", 61)], map["k" := Ref(2, 1)]), 1, Parked(Some(60))),
                    map["k" := Item("k", 60, 1)])
  {
    FirstAdded(c);
    var e: Event<int> := Call("k", 1, 59);
    var m := map["k" := Item("k", 61, 0)];
    var s := State(Queue([Entry(1, "k", 61)], map["k" := Ref(1, 0)]), 1, Parked(Some(61)));
    var q := Queue([Entry(2, "k", 60), Entry(1, "k", 61)], map["k" := Ref(2, 1)]);
    assert Added(s.q, "k", 1, 60) == q;
    assert Next(c, s, e) == State(q, 1, Busy(1, Some(60), Some(61)));
    ComesToNext(c, [Pass(1)] + [Call("k", 0, 60)] + [Park], s, m, e);
    ComesToNext(c, [Pass(1)] + [Call("k", 0, 60)] + [Park] + [e], Next(c, s, e), SpecOps(m, Ops(s, e)), Park);
    SpecCall(m, "k", 1, 60, 1);
    assert m["k" := Item("k", 60, 1)] == map["k" := Item("k", 60, 1)];
  }

  lemma FirstCleaned(c: Config)
    requires c.tick <= 59
    ensures ComesTo(c, OutOfOrder() + [Pass(60)] + [Wake],
                    State(Queue([Entry(1, "k", 61)], map[]), 60, Busy(60, Some(61), None)), map[])
  {
    SecondAdded(c);
    var q := Queue([Entry(2, "k", 60), Entry(1, "k", 61)], map["k" := Ref(2, 1)]);
    var m := map["k" := Item("k", 60, 1)];
    var rest: Queue<int> := Queue(q.exps[1..], q.refs - {"k"});
    assert rest == Queue([Entry(1, "k", 61)], map[]) && Drain(rest, 60) == Drained([], rest);
    ComesToNext(c, OutOfOrder(), State(q, 1, Parked(Some(60))), m, Pass(60));
    ComesToNext(c, OutOfOrder() + [Pass(60)], State(q, 60, Parked(Some(60))), m, Wake);
    var o: Op<int> := Collect(60);
    assert [o][1..] == [] && SpecOps(m, [o]) == StillPending(m, 60) == map[];
  }

  function Leftover(): Queue<int> {
    Queue([Entry(1, "k", 61), Entry(1, "k", 120)], map["k" := Ref(1, 2)])
  }

  lemma ThirdAdded(c: Config)
    requires c.tick <= 59
    ensures ComesTo(c, Interleaved(), State(Leftover(), 60, Busy(60, Some(61), None)), map["k" := Item("k", 120, 2)])
  {
    FirstCleaned(c);
    var e: Event<int> := Call("k", 2, 60);
    var s: State<int> := State(Queue([Entry(1, "k", 61)], map[]), 60, Busy(60, Some(61), None));
    assert Insert(s.q.exps[1..], Entry(1, "k", 120)) == [Entry(1, "k", 120)];
    assert Added(s.q, "k", 2, 120) == Leftover();
    assert Next(c, s, e) == State(Leftover(), 60, Busy(60, Some(61), None));
    ComesToNext(c, OutOfOrder() + [Pass(60)] + [Wake], s, map[], e);
    var o: Op<int> := Schedule("k", 2, 120);
    assert [o][1..] == [] && SpecOps(map[], [o]) == map["k" := Item("k", 120, 2)];
  }

  lemma LeftoverIsDue()
    ensures Valid(Leftover()) && View(Leftover()) == map["k" := Item("k", 61, 2)]
  {
    assert FirstDue(Leftover().exps, "k", 1) == Some(61);
  }

  /**
   * Two callers of one interval, the second to read the clock being the first
   * to reach the queue. No signal is lost, and yet the object of a third call
   * is due at the leftover deadline 61, where the plain map has 120.
   */
  lemma InterleavedEarly(c: Config)
    requires c.tick <= 59
    ensures WithinInterval(Interleaved(), 60)
    ensures ComesTo(c, Interleaved(), State(Leftover(), 60, Busy(60, Some(61), None)), map["k" := Item("k", 120, 2)])
    ensures Valid(Leftover()) && View(Leftover()) == map["k" := Item("k", 61, 2)]
  {
    ThirdAdded(c);
    LeftoverIsDue();
  }
}
