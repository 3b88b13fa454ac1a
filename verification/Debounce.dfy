/**
 * The debounce loop of a live query: it turns accepted fire and rearm actions
 * into deliveries on the changes channel, at most one per throttle interval.
 */
module Debounce {
  import opened Wrappers

  datatype Phase = Selecting | Sending | Closed
  datatype Loop = Loop(armed: bool, fired: bool, timer: Option<int>, phase: Phase)

  /** What the loop takes part in, with the time at which it does. */
  datatype Event =
    | Fire(t: int)     // receives fire on the actions channel
    | Rearm(t: int)    // receives rearm on the actions channel
    | Timer(t: int)    // the throttle timer has expired
    | Deliver(t: int)  // its send on the changes channel is received
    | Done(t: int)     // the query is done

  const START := Loop(false, false, None, Selecting)

  predicate Enabled(l: Loop, e: Event) {
    match e
    case Fire(_) => l.phase == Selecting
    case Rearm(_) => l.phase == Selecting
    case Timer(t) => l.phase == Selecting && l.timer.Some? && l.timer.value <= t
    case Deliver(_) => l.phase == Sending
    case Done(_) => l.phase != Closed
  }

  function After(timer: Option<int>, due: int): Option<int> {
    if timer.None? then Some(due) else timer
  }

  function Next(throttle: nat, l: Loop, e: Event): Loop {
    match e
    case Fire(t) => if l.armed then l.(timer := After(l.timer, t + throttle)) else l.(fired := true)
    case Rearm(t) => if l.fired then l.(timer := After(l.timer, t + throttle)) else l.(armed := true)
    case Timer(_) => Loop(false, false, None, Sending)
    case Deliver(_) => l.(phase := Selecting)
    case Done(_) => l.(phase := Closed)
  }

  datatype Action = ActFire | ActRearm

  /** The loop's variables, updated branch by branch. */
  class LiveQuery {
    const throttle: nat
    var armed: bool
    var fired: bool
    var timer: Option<int>
    var phase: Phase

    ghost function State(): Loop
      reads this
    {
      Loop(armed, fired, timer, phase)
    }

    constructor (throttle: nat)
      ensures State() == START && this.throttle == throttle
    {
      this.throttle := throttle;
      armed, fired, timer, phase := false, false, None, Selecting;
    }

    method Receive(a: Action, now: int)
      requires phase == Selecting
      modifies this`armed, this`fired, this`timer
      ensures State() == Next(throttle, old(State()), if a == ActFire then Fire(now) else Rearm(now))
    {
      match a {
        case ActFire =>
          if armed {
            if timer == None {
              timer := Some(now + throttle);
            }
            return;
          }
          fired := true;
        case ActRearm =>
          if fired {
            if timer == None {
              timer := Some(now + throttle);
            }
            return;
          }
          armed := true;
      }
    }

    method TimerExpired(now: int)
      requires phase == Selecting && timer.Some? && timer.value <= now
      modifies this`armed, this`fired, this`timer, this`phase
      ensures State() == Next(throttle, old(State()), Timer(now))
    {
      fired := false;
      armed := false;
      timer := None;
      phase := Sending;
    }

    method Delivered(now: int)
      requires phase == Sending
      modifies this`phase
      ensures State() == Next(throttle, old(State()), Deliver(now))
    {
      phase := Selecting;
    }
  }

  // ----- Runs -----

  function Time(h: seq<Event>): Option<int> {
    if h == [] then None else Some(h[|h| - 1].t)
  }

  function StateAfter(throttle: nat, h: seq<Event>): Loop {
    if h == [] then START else Next(throttle, StateAfter(throttle, h[..|h| - 1]), h[|h| - 1])
  }

  /** Each event is possible when it happens, and time does not run backwards. */
  ghost predicate IsRun(throttle: nat, h: seq<Event>) {
    h == [] ||
    (var pre, e := h[..|h| - 1], h[|h| - 1];
     && IsRun(throttle, pre)
     && Enabled(StateAfter(throttle, pre), e)
     && (Time(pre).Some? ==> Time(pre).value <= e.t))
  }

  /** The first fire and the first rearm accepted since the timer last expired. */
  datatype Since = Since(fire: Option<int>, rearm: Option<int>)

  function SinceLast(h: seq<Event>): Since {
    if h == [] then Since(None, None)
    else
      var s := SinceLast(h[..|h| - 1]);
      match h[|h| - 1]
      case Fire(t) => s.(fire := After(s.fire, t))
      case Rearm(t) => s.(rearm := After(s.rearm, t))
      case Timer(_) => Since(None, None)
      case _ => s
  }

  /** The number of events up to the last expiry. */
  function Expired(h: seq<Event>): nat {
    if h == [] then 0 else if h[|h| - 1].Timer? then |h| else Expired(h[..|h| - 1])
  }

  /** Event `i` is the first fire since the last expiry, or the first rearm. */
  ghost predicate FirstFire(h: seq<Event>, i: nat) {
    Expired(h) <= i < |h| && h[i].Fire? && forall j :: Expired(h) <= j < i ==> !h[j].Fire?
  }

  ghost predicate FirstRearm(h: seq<Event>, i: nat) {
    Expired(h) <= i < |h| && h[i].Rearm? && forall j :: Expired(h) <= j < i ==> !h[j].Rearm?
  }

  /** The times recorded are those of the first fire and the first rearm since the last expiry, if there are any. */
  lemma {:induction false} SinceMeaning(h: seq<Event>)
    ensures Expired(h) <= |h|
    ensures SinceLast(h).fire == None ==> forall j :: Expired(h) <= j < |h| ==> !h[j].Fire?
    ensures SinceLast(h).fire.Some? ==> exists i: nat :: FirstFire(h, i) && h[i].t == SinceLast(h).fire.value
    ensures SinceLast(h).rearm == None ==> forall j :: Expired(h) <= j < |h| ==> !h[j].Rearm?
    ensures SinceLast(h).rearm.Some? ==> exists i: nat :: FirstRearm(h, i) && h[i].t == SinceLast(h).rearm.value
  {
    if h != [] {
      var pre, e := h[..|h| - 1], h[|h| - 1];
      SinceMeaning(pre);
      if !e.Timer? {
        if SinceLast(pre).fire.Some? {
          var i: nat :| FirstFire(pre, i) && pre[i].t == SinceLast(pre).fire.value;
          assert FirstFire(h, i) && h[i].t == pre[i].t;
        } else if e.Fire? {
          assert FirstFire(h, |h| - 1);
        }
        if SinceLast(pre).rearm.Some? {
          var i: nat :| FirstRearm(pre, i) && pre[i].t == SinceLast(pre).rearm.value;
          assert FirstRearm(h, i) && h[i].t == pre[i].t;
        } else if e.Rearm? {
          assert FirstRearm(h, |h| - 1);
        }
      }
    }
  }

  function LastDelivery(h: seq<Event>): Option<int> {
    if h == [] then None
    else if h[|h| - 1].Deliver? then Some(h[|h| - 1].t)
    else LastDelivery(h[..|h| - 1])
  }

  function Later(a: int, b: int): int {
    if a < b then b else a
  }

  function DueBy(throttle: nat, s: Since): Option<int> {
    match (s.fire, s.rearm)
    case (Some(f), Some(r)) => Some(Later(f, r) + throttle)
    case _ => None
  }

  /**
   * In every reachable state: the loop remembers a fire exactly if one was
   * accepted since the timer last expired, and likewise a rearm; it is never
   * both armed and fired; and the timer runs exactly if both were accepted,
   * due one throttle after the later of the first of each.
   */
  ghost predicate Remembers(throttle: nat, h: seq<Event>) {
    var l, s := StateAfter(throttle, h), SinceLast(h);
    && (s.fire.Some? <==> l.fired || l.timer.Some?)
    && (s.rearm.Some? <==> l.armed || l.timer.Some?)
    && !(l.armed && l.fired)
    && l.timer == DueBy(throttle, s)
  }

  lemma {:induction false} RunRemembers(throttle: nat, h: seq<Event>)
    requires IsRun(throttle, h)
    ensures Remembers(throttle, h)
    ensures StateAfter(throttle, h).phase == Sending ==> SinceLast(h) == Since(None, None)
    ensures SinceLast(h).fire.Some? ==> Time(h).Some? && SinceLast(h).fire.value <= Time(h).value
    ensures SinceLast(h).rearm.Some? ==> Time(h).Some? && SinceLast(h).rearm.value <= Time(h).value
  {
    if h != [] {
      RunRemembers(throttle, h[..|h| - 1]);
    }
  }

  /** A timer that runs, or a send in progress, is a throttle away from the last delivery. */
  lemma {:induction false} DueAfterLast(throttle: nat, h: seq<Event>)
    requires IsRun(throttle, h) && LastDelivery(h).Some?
    ensures LastDelivery(h).value <= Time(h).value
    ensures SinceLast(h).fire.Some? ==> SinceLast(h).fire.value >= LastDelivery(h).value
    ensures SinceLast(h).rearm.Some? ==> SinceLast(h).rearm.value >= LastDelivery(h).value
    ensures StateAfter(throttle, h).phase == Sending ==> Time(h).value >= LastDelivery(h).value + throttle
  {
    RunRemembers(throttle, h);
    var pre := h[..|h| - 1];
    RunRemembers(throttle, pre);
    if !h[|h| - 1].Deliver? {
      DueAfterLast(throttle, pre);
    }
  }

  lemma {:induction false} LastIsLatest(throttle: nat, h: seq<Event>, i: nat)
    requires IsRun(throttle, h) && i < |h| && h[i].Deliver?
    ensures LastDelivery(h).Some? && h[i].t <= LastDelivery(h).value
  {
    var pre := h[..|h| - 1];
    if i == |h| - 1 {
    } else if h[|h| - 1].Deliver? {
      LastIsLatest(throttle, pre, i);
      DueAfterLast(throttle, pre);
    } else {
      LastIsLatest(throttle, pre, i);
    }
  }

  /** Any two deliveries of a run are at least a throttle apart. */
  lemma {:induction false} ThrottleHolds(throttle: nat, h: seq<Event>, i: nat, j: nat)
    requires IsRun(throttle, h) && i < j < |h| && h[i].Deliver? && h[j].Deliver?
    ensures h[j].t >= h[i].t + throttle
  {
    var pre := h[..|h| - 1];
    if j < |h| - 1 {
      ThrottleHolds(throttle, pre, i, j);
    } else {
      LastIsLatest(throttle, pre, i);
      DueAfterLast(throttle, pre);
    }
  }

  /**
   * No change is lost: after any run that is not done, each accepted fire has
   * either been followed by a delivery, or the loop is about to deliver, or
   * it still remembers a fire.
   */
  lemma {:induction false} NoLostChange(throttle: nat, h: seq<Event>, i: nat)
    requires IsRun(throttle, h) && i < |h| && h[i].Fire?
    requires forall j :: 0 <= j < |h| ==> !h[j].Done?
    ensures (exists j :: i < j < |h| && h[j].Deliver?) ||
            StateAfter(throttle, h).phase == Sending ||
            StateAfter(throttle, h).fired || StateAfter(throttle, h).timer.Some?
  {
    RunRemembers(throttle, h);
    var pre, e := h[..|h| - 1], h[|h| - 1];
    if i < |pre| {
      NoLostChange(throttle, pre, i);
      if j :| i < j < |pre| && pre[j].Deliver? {
        assert h[j].Deliver?;
      } else {
        assert e == h[|h| - 1];
      }
    }
  }

  /**
   * From every run that remembers a fire a delivery can be reached: a rearm
   * starts the timer if it does not run, and the timer and the send follow.
   */
  lemma DeliveryIsPossible(throttle: nat, h: seq<Event>, t: int, due: int)
    requires IsRun(throttle, h) && StateAfter(throttle, h).phase == Selecting
    requires SinceLast(h).fire.Some? && Time(h).value <= t
    requires due >= t + throttle
    ensures var h' := h + [Rearm(t), Timer(due), Deliver(due)];
            IsRun(throttle, h') && StateAfter(throttle, h') == START
  {
    RunRemembers(throttle, h);
    var e1, e2, e3 := Rearm(t), Timer(due), Deliver(due);
    Snoc(throttle, h, e1);
    RunRemembers(throttle, h + [e1]);
    Snoc(throttle, h + [e1], e2);
    Snoc(throttle, h + [e1] + [e2], e3);
    assert h + [e1] + [e2] + [e3] == h + [e1, e2, e3];
  }

  lemma {:induction false} PrefixRun(throttle: nat, h: seq<Event>, n: nat)
    requires n <= |h| && IsRun(throttle, h)
    ensures IsRun(throttle, h[..n])
  {
    if n == |h| {
      assert h[..n] == h;
    } else {
      assert h[..|h| - 1][..n] == h[..n];
      PrefixRun(throttle, h[..|h| - 1], n);
    }
  }

  /** Time does not run past a timer that is due, nor past a send that is being waited for. */
  predicate InTime(l: Loop, last: Option<int>, t: int) {
    && (l.phase == Selecting && l.timer.Some? ==> t <= l.timer.value)
    && (l.phase == Sending && last.Some? ==> t <= last.value)
  }

  ghost predicate Prompt(throttle: nat, h: seq<Event>) {
    h == [] ||
    (var pre := h[..|h| - 1];
     Prompt(throttle, pre) && InTime(StateAfter(throttle, pre), Time(pre), h[|h| - 1].t))
  }

  ghost predicate NotDone(h: seq<Event>) {
    forall i :: 0 <= i < |h| ==> !h[i].Done?
  }

  lemma {:induction false} NotClosed(throttle: nat, h: seq<Event>)
    requires NotDone(h)
    ensures StateAfter(throttle, h).phase != Closed
  {
    if h != [] {
      NotClosed(throttle, h[..|h| - 1]);
    }
  }

  ghost predicate DeliveredAt(h: seq<Event>, from: nat, t: int) {
    exists j :: from <= j < |h| && h[j] == Deliver(t)
  }

  /** A timer that runs is waited for, or has expired into a send, or that was received. */
  lemma {:induction false} TimerIsFollowed(throttle: nat, h: seq<Event>, n: nat, due: int)
    requires n <= |h| && IsRun(throttle, h) && Prompt(throttle, h) && NotDone(h)
    requires StateAfter(throttle, h[..n]).timer == Some(due)
    ensures var l := StateAfter(throttle, h);
            || DeliveredAt(h, n, due)
            || (l.phase == Selecting && l.timer == Some(due))
            || (l.phase == Sending && Time(h) == Some(due))
  {
    RunRemembers(throttle, h);
    NotClosed(throttle, h);
    if n == |h| {
      assert h[..n] == h;
    } else {
      var pre, e := h[..|h| - 1], h[|h| - 1];
      assert pre[..n] == h[..n];
      TimerIsFollowed(throttle, pre, n, due);
      if DeliveredAt(pre, n, due) {
        var j :| n <= j < |pre| && pre[j] == Deliver(due);
        assert h[j] == Deliver(due);
      } else if e.Deliver? {
        assert h[|h| - 1] == Deliver(due);
      }
    }
  }

  /**
   * And it comes: in every run that is not done, observed until `until`, in
   * which timer and receiver are prompt. Once a fire and a rearm have been
   * accepted, a delivery follows exactly one throttle after the later of the
   * first of each.
   */
  lemma RememberedIsDelivered(throttle: nat, h: seq<Event>, n: nat, until: int)
    requires n <= |h| && IsRun(throttle, h) && Prompt(throttle, h) && NotDone(h)
    requires InTime(StateAfter(throttle, h), Time(h), until)
    requires DueBy(throttle, SinceLast(h[..n])).Some? && DueBy(throttle, SinceLast(h[..n])).value < until
    ensures DeliveredAt(h, n, DueBy(throttle, SinceLast(h[..n])).value)
  {
    PrefixRun(throttle, h, n);
    RunRemembers(throttle, h[..n]);
    TimerIsFollowed(throttle, h, n, DueBy(throttle, SinceLast(h[..n])).value);
  }

  lemma Snoc(throttle: nat, h: seq<Event>, e: Event)
    requires IsRun(throttle, h) && Enabled(StateAfter(throttle, h), e) && (Time(h).Some? ==> Time(h).value <= e.t)
    ensures IsRun(throttle, h + [e]) && Time(h + [e]) == Some(e.t)
    ensures StateAfter(throttle, h + [e]) == Next(throttle, StateAfter(throttle, h), e)
  {
    assert (h + [e])[..|h|] == h;
  }
}
