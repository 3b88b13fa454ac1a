/**
 * What it does to the cleanup loop that a signal sent while it is busy is
 * lost: the runs in which everything stays on time are given exactly.
 */
module LostSignals {
  import opened Wrappers
  import opened ExpiryQueue
  import opened ExpiryRuns
  import opened CleanerLoop

  ghost predicate NoCalls<T>(events: seq<Event<T>>) {
    forall i :: 0 <= i < |events| ==> !events[i].Call?
  }

  /** However the loop goes on from the run, without further calls, nothing is late. */
  ghost predicate OnTime<T(!new)>(c: Config, s0: State<T>, events: seq<Event<T>>)
    requires IsRun(c, s0, events)
  {
    forall more :: IsRun(c, s0, events + more) && NoCalls(more) ==> NothingLate(c, After(c, s0, events + more))
  }

  lemma {:induction false} QuietIsHarmless<T>(c: Config, s0: State<T>, events: seq<Event<T>>, more: seq<Event<T>>)
    requires IsRun(c, s0, events) && AllHarmless(c, s0, events) && IsRun(c, s0, events + more) && NoCalls(more)
    ensures AllHarmless(c, s0, events + more)
    decreases |more|
  {
    if more == [] {
      assert events + more == events;
    } else {
      assert (events + more)[..|events + more| - 1] == events + more[..|more| - 1];
      QuietIsHarmless(c, s0, events, more[..|more| - 1]);
    }
  }

  lemma {:induction false} RunSane<T(!new)>(c: Config, s0: State<T>, events: seq<Event<T>>)
    requires Sane(c, s0) && IsRun(c, s0, events)
    ensures Sane(c, After(c, s0, events))
    decreases |events|
  {
    if events != [] {
      RunSane(c, s0, events[..|events| - 1]);
      StepSane(c, After(c, s0, events[..|events| - 1]), events[|events| - 1]);
    }
  }

  /** After a harmful loss the turn ends, time passes, and the new object is late. */
  lemma HarmfulIsLate<T(!new)>(c: Config, s: State<T>, e: Event<T>) returns (t: int)
    requires Sane(c, s) && Enabled(c, s, e) && !Harmless(c, s, e)
    ensures var s1 := Next(c, s, e);
            && Enabled(c, s1, Park) && Enabled(c, Next(c, s1, Park), Pass(t))
            && !NothingLate(c, Next(c, Next(c, s1, Park), Pass(t)))
  {
    var at := s.now + e.left;
    var parked := Next(c, Next(c, s, e), Park);
    t := if parked.phase.wakeup.Some? then parked.phase.wakeup.value else at + c.tick + c.work + 1;
    AddedView(s.q, e.key, e.obj, at);
    LowersHeadIsDue(s.q, e.key, at);
    assert e.key in View(parked.q) && View(parked.q)[e.key].at == at;
  }

  lemma LowersHeadIsDue<T>(q: Queue<T>, key: Key, at: int)
    requires Valid(q) && Newest(q, at)
    ensures EffectiveDue(q, key, at) == at
  {
    if FirstDue(q.exps, key, NextGen(q, key)).Some? {
      var i := FirstDueWitness(q.exps, key, NextGen(q, key));
    }
  }

  /**
   * In every run, whatever the intervals: objects are on time after each of
   * its events, however the loop goes on, exactly if no signal of the run was
   * lost to harm.
   */
  lemma {:induction false} OnTimeIff<T(!new)>(c: Config, now: int, events: seq<Event<T>>)
    requires IsRun(c, Init<T>(now), events)
    ensures AllHarmless(c, Init(now), events) <==>
            forall n :: 0 <= n <= |events| ==> IsRun(c, Init(now), events[..n]) && OnTime(c, Init(now), events[..n])
    decreases |events|
  {
    var s0 := Init<T>(now);
    if AllHarmless(c, s0, events) {
      HarmlessIsOnTime(c, now, events);
    }
    if events == [] {
      assert forall n :: 0 <= n <= |events| ==> events[..n] == events;
    } else {
      var last := |events| - 1;
      var pre := events[..last];
      OnTimeIff(c, now, pre);
      forall n | 0 <= n <= last ensures pre[..n] == events[..n] {}
      assert events[..|events|] == events;
      if AllHarmless(c, s0, pre) && !AllHarmless(c, s0, events) {
        HarmfulRunIsLate(c, now, pre, events[last]);
        assert pre + [events[last]] == events;
        assert !OnTime(c, s0, events[..|events|]);
      } else if !AllHarmless(c, s0, pre) {
        var n :| 0 <= n <= last && !(IsRun(c, s0, pre[..n]) && OnTime(c, s0, pre[..n]));
        assert pre[..n] == events[..n];
      }
    }
  }

  lemma HarmlessIsOnTime<T(!new)>(c: Config, now: int, events: seq<Event<T>>)
    requires IsRun(c, Init<T>(now), events) && AllHarmless(c, Init(now), events)
    ensures OnTime(c, Init(now), events)
  {
    forall more | IsRun(c, Init(now), events + more) && NoCalls(more)
      ensures NothingLate(c, After(c, Init(now), events + more))
    {
      QuietIsHarmless(c, Init(now), events, more);
      RunKeepsInv(c, Init(now), events + more);
      NothingOverdue(c, After(c, Init(now), events + more));
    }
  }

  lemma HarmfulRunIsLate<T(!new)>(c: Config, now: int, pre: seq<Event<T>>, e: Event<T>)
    requires IsRun(c, Init<T>(now), pre) && Enabled(c, After(c, Init(now), pre), e)
    requires !Harmless(c, After(c, Init(now), pre), e)
    ensures IsRun(c, Init(now), pre + [e]) && !OnTime(c, Init(now), pre + [e])
  {
    var s0 := Init<T>(now);
    RunSane(c, s0, pre);
    var t := HarmfulIsLate(c, After(c, s0, pre), e);
    var more: seq<Event<T>> := [Park, Pass(t)];
    AfterSnoc(c, s0, pre, e);
    AfterSnoc(c, s0, pre + [e], Park);
    AfterSnoc(c, s0, pre + [e] + [Park], Pass(t));
    assert pre + [e] + more == pre + [e] + [Park] + [Pass(t)];
  }

  lemma AfterSnoc<T>(c: Config, s0: State<T>, pre: seq<Event<T>>, e: Event<T>)
    requires IsRun(c, s0, pre) && Enabled(c, After(c, s0, pre), e)
    ensures IsRun(c, s0, pre + [e]) && After(c, s0, pre + [e]) == Next(c, After(c, s0, pre), e)
  {
    assert (pre + [e])[..|pre|] == pre;
  }
}
