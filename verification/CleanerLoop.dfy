/**
 * The cleanup loop and its wakeups in time: a loop that is parked on a timer
 * and a signal channel, or busy with a batch, beside callers that schedule.
 * A signal reaches the loop only while it is parked.
 */
module CleanerLoop {
  import opened Wrappers
  import opened ExpiryQueue
  import opened ExpiryRuns

  datatype Phase =
    | Parked(wakeup: Option<int>)
    | Busy(since: int, exp: Option<int>, wakeup: Option<int>)

  /** `tick` is the least pause between turns, `work` the longest a turn may take. */
  datatype Config = Config(tick: nat, work: nat)
  datatype State<+T> = State(q: Queue<T>, now: int, phase: Phase)

  datatype Event<+T> =
    | Pass(until: int)                       // the clock moves
    | Call(key: Key, obj: T, left: nat)      // Schedule reaches the queue, `left` before its deadline
    | Wake                                   // the timer fires
    | Park                                   // the turn ends and the timer is set

  function Init<T>(now: int): State<T> {
    State(Queue([], map[]), now, Parked(None))
  }

  /** The clock never runs past a due wakeup or past the end of a turn. */
  predicate Enabled<T>(c: Config, s: State<T>, e: Event<T>) {
    match e
    case Pass(until) =>
      && s.now <= until
      && (match s.phase
          case Parked(w) => w.Some? ==> until <= w.value
          case Busy(since, _, _) => until <= since + c.work)
    case Call(_, _, _) => true
    case Wake => s.phase.Parked? && s.phase.wakeup.Some? && s.phase.wakeup.value <= s.now
    case Park => s.phase.Busy?
  }

  /** A turn begins: the queue is drained at the current time. */
  function BeginTurn<T>(q: Queue<T>, now: int, wakeup: Option<int>): State<T> {
    var d := Drain(q, now);
    State(d.rest, now, Busy(now, NextDue(d.rest), wakeup))
  }

  function Next<T>(c: Config, s: State<T>, e: Event<T>): State<T>
    requires Enabled(c, s, e)
  {
    match e
    case Pass(until) => s.(now := until)
    case Call(key, obj, left) =>
      var at := s.now + left;
      if Newest(s.q, at) && s.phase.Parked? then BeginTurn(Added(s.q, key, obj, at), s.now, s.phase.wakeup)
      else s.(q := Added(s.q, key, obj, at))
    case Wake => BeginTurn(s.q, s.now, None)
    case Park =>
      s.(phase := Parked(match s.phase.exp
                         case None => s.phase.wakeup
                         case Some(_) => Rewake(s.phase.exp, s.now, c.tick)))
  }

  /** What the step hands to the clean function. */
  function Handed<T>(c: Config, s: State<T>, e: Event<T>): seq<Item<T>> {
    match e
    case Call(key, obj, left) =>
      if Newest(s.q, s.now + left) && s.phase.Parked? then Drain(Added(s.q, key, obj, s.now + left), s.now).items
      else []
    case Wake => Drain(s.q, s.now).items
    case _ => []
  }

  /** The step sends a signal while nobody receives it. */
  predicate Drops<T>(s: State<T>, e: Event<T>) {
    e.Call? && s.phase.Busy? && Newest(s.q, s.now + e.left)
  }

  /** The timer the turn is about to set, or to leave, is due early enough for a deadline. */
  predicate EarlyEnough<T>(c: Config, s: State<T>, at: int)
    requires s.phase.Busy?
  {
    match s.phase.exp
    case None => s.phase.wakeup.Some? && s.phase.wakeup.value <= at + c.tick + c.work
    case Some(next) => next <= at + c.tick + c.work
  }

  /** Either the signal is delivered or the loop does without it. */
  predicate Harmless<T>(c: Config, s: State<T>, e: Event<T>) {
    Drops(s, e) ==> EarlyEnough(c, s, s.now + e.left)
  }

  // ----- The wakeup bound -----

  /** What holds in every state, whether or not signals are delivered. */
  ghost predicate Sane<T>(c: Config, s: State<T>) {
    && Valid(s.q)
    && (s.phase.Busy? ==>
          && s.phase.since <= s.now <= s.phase.since + c.work
          && (s.q.exps != [] ==> s.phase.since <= s.q.exps[0].at))
  }

  /**
   * A parked loop with a nonempty queue has a timer, and neither timer nor
   * clock is past the first deadline by more than one tick and one turn; a
   * busy loop is about to set such a timer.
   */
  ghost predicate Inv<T>(c: Config, s: State<T>) {
    && Sane(c, s)
    && (s.q.exps != [] ==>
          match s.phase
          case Parked(w) =>
            var bound := s.q.exps[0].at + c.tick + c.work;
            w.Some? && w.value <= bound && s.now <= bound
          case Busy(_, _, _) => EarlyEnough(c, s, s.q.exps[0].at))
  }

  ghost predicate InWindow<T>(c: Config, now: int, items: seq<Item<T>>) {
    forall i :: 0 <= i < |items| ==> items[i].at <= now <= items[i].at + c.tick + c.work
  }

  /** No pending object is overdue by more than a tick and a turn. */
  ghost predicate NothingLate<T>(c: Config, s: State<T>) {
    Valid(s.q) && forall k :: k in View(s.q) ==> s.now <= View(s.q)[k].at + c.tick + c.work
  }

  lemma NothingOverdue<T>(c: Config, s: State<T>)
    requires Inv(c, s)
    ensures NothingLate(c, s)
  {
    forall k | k in View(s.q) ensures s.now <= View(s.q)[k].at + c.tick + c.work {
      HeadIsEarliest(s.q, k);
    }
  }

  lemma BatchInWindow<T(!new)>(c: Config, q: Queue<T>, now: int)
    requires Valid(q)
    requires q.exps != [] ==> now <= q.exps[0].at + c.tick + c.work
    ensures InWindow(c, now, Drain(q, now).items)
    ensures var rest := Drain(q, now).rest; Valid(rest) && (rest.exps != [] ==> now < rest.exps[0].at)
  {
    DrainExact(q, now);
    var items := Drain(q, now).items;
    forall i | 0 <= i < |items| ensures items[i].at <= now <= items[i].at + c.tick + c.work {
      assert items[i] in items;
      HeadIsEarliest(q, items[i].key);
    }
  }

  lemma StepSane<T(!new)>(c: Config, s: State<T>, e: Event<T>)
    requires Sane(c, s) && Enabled(c, s, e)
    ensures Sane(c, Next(c, s, e))
  {
    match e {
      case Pass(_) =>
      case Park =>
      case Wake => TurnSane(c, s.q, s.now, None);
      case Call(key, obj, left) => CallSane(c, s, key, obj, s.now + left, left);
    }
  }

  lemma CallSane<T(!new)>(c: Config, s: State<T>, key: Key, obj: T, at: int, left: nat)
    requires Sane(c, s) && at == s.now + left
    ensures Sane(c, Next(c, s, Call(key, obj, left)))
  {
    if !Newest(s.q, at) {
      HeadStays(s.q, key, obj, at);
    } else {
      NewestIsHead(s.q, key, obj, at);
      if s.phase.Parked? {
        TurnSane(c, Added(s.q, key, obj, at), s.now, s.phase.wakeup);
      }
    }
  }

  /** A turn begins with the timer it needs. */
  lemma TurnSane<T(!new)>(c: Config, q: Queue<T>, now: int, wakeup: Option<int>)
    requires Valid(q)
    ensures Inv(c, BeginTurn(q, now, wakeup))
  {
    DrainExact(q, now);
  }

  /**
   * A step keeps the bound exactly if it sends no signal in vain or the loop
   * does without it, and then hands out objects in their window.
   */
  lemma StepKeepsInvIff<T(!new)>(c: Config, s: State<T>, e: Event<T>)
    requires Inv(c, s) && Enabled(c, s, e)
    ensures Inv(c, Next(c, s, e)) <==> Harmless(c, s, e)
    ensures InWindow(c, s.now, Handed(c, s, e))
  {
    StepSane(c, s, e);
    match e {
      case Pass(_) =>
      case Park =>
      case Wake =>
        BatchInWindow(c, s.q, s.now);
        TurnSane(c, s.q, s.now, None);
      case Call(key, obj, left) =>
        CallKeepsInvIff(c, s, key, obj, left);
    }
  }

  lemma CallKeepsInvIff<T(!new)>(c: Config, s: State<T>, key: Key, obj: T, left: nat)
    requires Inv(c, s)
    ensures Inv(c, Next(c, s, Call(key, obj, left))) <==> Harmless(c, s, Call(key, obj, left))
    ensures InWindow(c, s.now, Handed(c, s, Call(key, obj, left)))
  {
    if !Newest(s.q, s.now + left) {
      CallWaits(c, s, key, obj, left);
    } else if s.phase.Parked? {
      CallWakes(c, s, key, obj, left);
    } else {
      DroppedSignalHarmlessIff(c, s, key, obj, left);
    }
  }

  lemma CallWaits<T>(c: Config, s: State<T>, key: Key, obj: T, left: nat)
    requires Inv(c, s) && !Newest(s.q, s.now + left)
    ensures Inv(c, Next(c, s, Call(key, obj, left)))
  {
    HeadStays(s.q, key, obj, s.now + left);
  }

  lemma CallWakes<T(!new)>(c: Config, s: State<T>, key: Key, obj: T, left: nat)
    requires Valid(s.q) && Newest(s.q, s.now + left) && s.phase.Parked?
    ensures Inv(c, Next(c, s, Call(key, obj, left)))
    ensures InWindow(c, s.now, Handed(c, s, Call(key, obj, left)))
  {
    var q := Added(s.q, key, obj, s.now + left);
    assert Valid(q) && q.exps != [] && q.exps[0].at == s.now + left by {
      NewestIsHead(s.q, key, obj, s.now + left);
    }
    BatchInWindow(c, q, s.now);
    TurnSane(c, q, s.now, s.phase.wakeup);
    assert Next(c, s, Call(key, obj, left)) == BeginTurn(q, s.now, s.phase.wakeup);
    assert Handed(c, s, Call(key, obj, left)) == Drain(q, s.now).items;
  }

  /**
   * A signal sent while the loop is busy is lost, whatever was lost before:
   * afterwards the bound holds exactly if the timer about to be set is early
   * enough for the new deadline.
   */
  lemma DroppedSignalHarmlessIff<T(!new)>(c: Config, s: State<T>, key: Key, obj: T, left: nat)
    requires Sane(c, s) && Drops(s, Call(key, obj, left))
    ensures Inv(c, Next(c, s, Call(key, obj, left))) <==> EarlyEnough(c, s, s.now + left)
  {
    StepSane(c, s, Call(key, obj, left));
    NewestIsHead(s.q, key, obj, s.now + left);
  }

  lemma NewestIsHead<T>(q: Queue<T>, key: Key, obj: T, at: int)
    requires Valid(q) && Newest(q, at)
    ensures Valid(Added(q, key, obj, at))
    ensures Added(q, key, obj, at).exps != [] && Added(q, key, obj, at).exps[0].at == at
  {
    AddedView(q, key, obj, at);
  }

  lemma HeadStays<T>(q: Queue<T>, key: Key, obj: T, at: int)
    requires Valid(q) && !Newest(q, at)
    ensures Valid(Added(q, key, obj, at))
    ensures Added(q, key, obj, at).exps != [] && Added(q, key, obj, at).exps[0].at == q.exps[0].at
  {
    AddedView(q, key, obj, at);
    if Before(at, key, q.exps[0].at, q.exps[0].key) {
      assert at == q.exps[0].at;
    }
  }

  /** A signal interrupts a wait but not its timer: if the turn finds nothing to wait for, that timer stays. */
  lemma SignalKeepsTimer<T(!new)>(c: Config, s: State<T>, e: Event<T>)
    requires Valid(s.q) && s.phase.Parked? && e.Call? && Newest(s.q, s.now + e.left)
    ensures var s' := Next(c, s, e);
            && s'.phase.Busy? && Enabled(c, s', Park)
            && var w := Next(c, s', Park).phase.wakeup;
               if s'.q.exps == [] then w == s.phase.wakeup
               else w.Some? && w.value >= s.now + c.tick && w.value >= s'.q.exps[0].at &&
                    (w.value == s.now + c.tick || w.value == s'.q.exps[0].at)
  {
    AddedView(s.q, e.key, e.obj, s.now + e.left);
    DrainExact(Added(s.q, e.key, e.obj, s.now + e.left), s.now);
  }

  // ----- Runs -----

  ghost predicate IsRun<T>(c: Config, s0: State<T>, events: seq<Event<T>>)
    decreases |events|, 0
  {
    events == [] || (IsRun(c, s0, events[..|events| - 1]) &&
                     Enabled(c, After(c, s0, events[..|events| - 1]), events[|events| - 1]))
  }

  ghost function After<T>(c: Config, s0: State<T>, events: seq<Event<T>>): State<T>
    requires IsRun(c, s0, events)
    decreases |events|, 1
  {
    if events == [] then s0
    else Next(c, After(c, s0, events[..|events| - 1]), events[|events| - 1])
  }

  /** Every signal of the run is delivered, or lost without harm. */
  ghost predicate AllHarmless<T>(c: Config, s0: State<T>, events: seq<Event<T>>)
    requires IsRun(c, s0, events)
    decreases |events|
  {
    events == [] || (AllHarmless(c, s0, events[..|events| - 1]) &&
                     Harmless(c, After(c, s0, events[..|events| - 1]), events[|events| - 1]))
  }

  /** The queue operations a step performs. */
  function Ops<T>(s: State<T>, e: Event<T>): seq<Op<T>> {
    match e
    case Call(key, obj, left) =>
      if Newest(s.q, s.now + left) && s.phase.Parked? then [Schedule(key, obj, s.now + left), Collect(s.now)]
      else [Schedule(key, obj, s.now + left)]
    case Wake => [Collect(s.now)]
    case _ => []
  }

  ghost function Trace<T>(c: Config, s0: State<T>, events: seq<Event<T>>): seq<Op<T>>
    requires IsRun(c, s0, events)
    decreases |events|
  {
    if events == [] then []
    else Trace(c, s0, events[..|events| - 1]) + Ops(After(c, s0, events[..|events| - 1]), events[|events| - 1])
  }

  lemma ScheduleRun<T>(t: seq<Op<T>>, q: Queue<T>, key: Key, obj: T, at: int)
    requires q == Run(t)
    ensures Run(t + [Schedule(key, obj, at)]) == Added(q, key, obj, at)
  {
    RunSnoc(t, Schedule(key, obj, at));
  }

  lemma CollectRun<T>(t: seq<Op<T>>, q: Queue<T>, now: int)
    requires q == Run(t)
    ensures Run(t + [Collect(now)]) == Drain(q, now).rest
  {
    RunSnoc(t, Collect(now));
  }

  lemma CallIsOps<T>(c: Config, s: State<T>, key: Key, obj: T, left: nat, t: seq<Op<T>>)
    requires s.q == Run(t)
    ensures Next(c, s, Call(key, obj, left)).q == Run(t + Ops(s, Call(key, obj, left)))
  {
    var o1: Op<T> := Schedule(key, obj, s.now + left);
    var q := Added(s.q, key, obj, s.now + left);
    ScheduleRun(t, s.q, key, obj, s.now + left);
    if Newest(s.q, s.now + left) && s.phase.Parked? {
      CollectRun(t + [o1], q, s.now);
      assert t + [o1, Collect(s.now)] == t + [o1] + [Collect(s.now)];
    }
  }

  lemma StepIsOps<T>(c: Config, s: State<T>, e: Event<T>, t: seq<Op<T>>)
    requires Enabled(c, s, e) && s.q == Run(t)
    ensures Next(c, s, e).q == Run(t + Ops(s, e))
  {
    match e {
      case Call(key, obj, left) => CallIsOps(c, s, key, obj, left, t);
      case Wake => CollectRun(t, s.q, s.now);
      case _ => assert t + [] == t;
    }
  }

  /** The queue of the loop is the queue after the operations the run performed. */
  lemma {:induction false} TraceIsRun<T(!new)>(c: Config, now: int, events: seq<Event<T>>)
    requires IsRun(c, Init<T>(now), events)
    ensures After(c, Init(now), events).q == Run(Trace(c, Init(now), events))
    decreases |events|
  {
    if events != [] {
      var pre, e := events[..|events| - 1], events[|events| - 1];
      TraceIsRun(c, now, pre);
      StepIsOps(c, After(c, Init(now), pre), e, Trace(c, Init(now), pre));
    }
  }

  lemma {:induction false} RunKeepsInv<T(!new)>(c: Config, s0: State<T>, events: seq<Event<T>>)
    requires Inv(c, s0) && IsRun(c, s0, events) && AllHarmless(c, s0, events)
    ensures Inv(c, After(c, s0, events))
    decreases |events|
  {
    if events != [] {
      RunKeepsInv(c, s0, events[..|events| - 1]);
      StepKeepsInvIff(c, After(c, s0, events[..|events| - 1]), events[|events| - 1]);
    }
  }

  /**
   * In every run whose deadlines do not decrease per key and in which no
   * signal is lost to harm: the pending objects are the plain map's, none of
   * them is overdue by more than a tick and a turn, and whatever the next
   * step hands to the clean function is what the map has due, in its window.
   */
  lemma EveryObjectInTime<T(!new)>(c: Config, now: int, events: seq<Event<T>>)
    requires IsRun(c, Init<T>(now), events) && AllHarmless(c, Init(now), events)
    requires Nondecreasing(Trace(c, Init(now), events))
    ensures var s := After(c, Init(now), events);
            var m := SpecRun(Trace(c, Init(now), events));
            && Valid(s.q) && View(s.q) == m
            && (forall k :: k in m ==> s.now <= m[k].at + c.tick + c.work)
            && IsBatch(m, s.now, Handed(c, s, Wake))
            && (forall e :: Enabled(c, s, e) ==> InWindow(c, s.now, Handed(c, s, e)))
  {
    var s := After(c, Init(now), events);
    TraceIsRun(c, now, events);
    RunKeepsInv(c, Init(now), events);
    RunRefines(Trace(c, Init(now), events));
    NothingOverdue(c, s);
    DrainExact(s.q, s.now);
    forall e | Enabled(c, s, e) ensures InWindow(c, s.now, Handed(c, s, e)) {
      StepKeepsInvIff(c, s, e);
    }
  }

  // ----- Every object is handed out -----

  /** A step keeps a pending object as it is, hands it out, or schedules its key again. */
  lemma StepAccounts<T(!new)>(c: Config, s: State<T>, e: Event<T>, k: Key)
    requires Inv(c, s) && Enabled(c, s, e) && k in View(s.q)
    requires e.Call? ==> e.key != k
    ensures Sane(c, Next(c, s, e))
    ensures (k in View(Next(c, s, e).q) && View(Next(c, s, e).q)[k] == View(s.q)[k]) || View(s.q)[k] in Handed(c, s, e)
  {
    StepSane(c, s, e);
    match e
    case Call(key, obj, left) =>
      var q := Added(s.q, key, obj, s.now + left);
      AddedOther(s.q, key, obj, s.now + left, k);
      DrainAccounts(q, s.now, k);
      assert Next(c, s, e).q == q || Next(c, s, e).q == Drain(q, s.now).rest;
    case Wake => DrainAccounts(s.q, s.now, k);
    case _ =>
  }

  lemma AddedOther<T>(q: Queue<T>, key: Key, obj: T, at: int, k: Key)
    requires Valid(q) && k in View(q) && key != k
    ensures var q' := Added(q, key, obj, at);
            Valid(q') && k in View(q') && View(q')[k] == View(q)[k]
  {
    AddedView(q, key, obj, at);
  }

  lemma DrainAccounts<T(!new)>(q: Queue<T>, now: int, k: Key)
    requires Valid(q) && k in View(q)
    ensures var d := Drain(q, now);
            Valid(d.rest) && ((k in View(d.rest) && View(d.rest)[k] == View(q)[k]) || View(q)[k] in d.items)
  {
    DrainExact(q, now);
  }

  /** `x` is handed out at some step of the run, not before its deadline and in its window. */
  ghost predicate HandedIn<T(!new)>(c: Config, s0: State<T>, events: seq<Event<T>>, x: Item<T>)
    requires IsRun(c, s0, events)
    decreases |events|
  {
    events != [] &&
    (HandedIn(c, s0, events[..|events| - 1], x) ||
     var s := After(c, s0, events[..|events| - 1]);
     x in Handed(c, s, events[|events| - 1]) && x.at <= s.now <= x.at + c.tick + c.work)
  }

  lemma {:induction false} PendingOrHanded<T(!new)>(c: Config, s0: State<T>, events: seq<Event<T>>, k: Key)
    requires Inv(c, s0) && k in View(s0.q)
    requires IsRun(c, s0, events) && AllHarmless(c, s0, events)
    requires forall i :: 0 <= i < |events| && events[i].Call? ==> events[i].key != k
    ensures var s := After(c, s0, events);
            && Inv(c, s)
            && ((k in View(s.q) && View(s.q)[k] == View(s0.q)[k]) || HandedIn(c, s0, events, View(s0.q)[k]))
    decreases |events|
  {
    if events != [] {
      var pre, e := events[..|events| - 1], events[|events| - 1];
      var s, x := After(c, s0, pre), View(s0.q)[k];
      PendingOrHanded(c, s0, pre, k);
      StepKeepsInvIff(c, s, e);
      if !HandedIn(c, s0, pre, x) {
        StepAccounts(c, s, e, k);
        if x in Handed(c, s, e) {
          var i :| 0 <= i < |Handed(c, s, e)| && Handed(c, s, e)[i] == x;
        }
      }
    }
  }

  /**
   * Once the clock is past its window, an object that was not scheduled again
   * has been handed to the clean function, in its window.
   */
  lemma EveryObjectIsHanded<T(!new)>(c: Config, s0: State<T>, events: seq<Event<T>>, k: Key)
    requires Inv(c, s0) && k in View(s0.q)
    requires IsRun(c, s0, events) && AllHarmless(c, s0, events)
    requires forall i :: 0 <= i < |events| && events[i].Call? ==> events[i].key != k
    requires After(c, s0, events).now > View(s0.q)[k].at + c.tick + c.work
    ensures HandedIn(c, s0, events, View(s0.q)[k])
  {
    PendingOrHanded(c, s0, events, k);
    NothingOverdue(c, After(c, s0, events));
  }
}
