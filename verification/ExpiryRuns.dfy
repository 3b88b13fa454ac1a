/**
 * Runs of the expiry queue against the plain map from key to pending object
 * that a user of the cleaner has in mind.
 */
module ExpiryRuns {
  import opened Wrappers
  import opened ExpiryQueue

  datatype Op<+T> = Schedule(key: Key, obj: T, at: int) | Collect(now: int)

  function Step<T>(q: Queue<T>, op: Op<T>): Queue<T> {
    match op
    case Schedule(key, obj, at) => Added(q, key, obj, at)
    case Collect(now) => Drain(q, now).rest
  }

  function Run<T>(ops: seq<Op<T>>): Queue<T> {
    if ops == [] then Queue([], map[]) else Step(Run(ops[..|ops| - 1]), ops[|ops| - 1])
  }

  // ----- The plain map -----

  /** Rescheduling overwrites; scheduling again for the very same deadline does not. */
  ghost function SpecStep<T>(m: map<Key, Item<T>>, op: Op<T>): map<Key, Item<T>> {
    match op
    case Schedule(key, obj, at) => if key in m && m[key].at == at then m else m[key := Item(key, at, obj)]
    case Collect(now) => StillPending(m, now)
  }

  ghost function SpecRun<T>(ops: seq<Op<T>>): map<Key, Item<T>> {
    if ops == [] then map[] else SpecStep(SpecRun(ops[..|ops| - 1]), ops[|ops| - 1])
  }

  // ----- When one step agrees with the map -----

  /**
   * No leftover entry gets in the way of scheduling `key` at `at`: if the
   * queue already has an entry at that deadline it is the current one, and no
   * earlier entry carries the generation the key is about to get.
   */
  predicate NoLeftover<T>(q: Queue<T>, key: Key, at: int) {
    if HasEntry(q.exps, key, at) then key in q.refs && FirstDue(q.exps, key, q.refs[key].gen) == Some(at)
    else match FirstDue(q.exps, key, NextGen(q, key))
         case None => true
         case Some(d) => d >= at
  }

  /** In every valid state, scheduling agrees with the plain map exactly when no leftover entry is in the way. */
  lemma ScheduleAgreesIff<T>(q: Queue<T>, key: Key, obj: T, at: int)
    requires Valid(q)
    ensures Valid(Added(q, key, obj, at))
    ensures View(Added(q, key, obj, at)) == SpecStep(View(q), Schedule(key, obj, at)) <==> NoLeftover(q, key, at)
  {
    AddedView(q, key, obj, at);
    var m := View(q);
    if HasEntry(q.exps, key, at) {
      if !NoLeftover(q, key, at) {
        var m' := SpecStep(m, Schedule(key, obj, at));
        assert key in m' && m'[key].at == at;
      }
    } else {
      if key in m && m[key].at == at {
        var i := FirstDueWitness(q.exps, key, q.refs[key].gen);
        assert HasEntry(q.exps, key, at);
      }
      var m1, m2 := SpecStep(m, Schedule(key, obj, at)), View(Added(q, key, obj, at));
      assert m1[key].at == at && m2[key].at == EffectiveDue(q, key, at);
    }
  }

  /** Every state a run reaches is valid. */
  lemma {:induction false} RunValid<T(!new)>(ops: seq<Op<T>>)
    ensures Valid(Run(ops))
  {
    if ops != [] {
      var pre, op := ops[..|ops| - 1], ops[|ops| - 1];
      RunValid(pre);
      match op
      case Schedule(key, obj, at) => AddedView(Run(pre), key, obj, at);
      case Collect(now) => DrainExact(Run(pre), now);
    }
  }

  ghost predicate Agrees<T>(ops: seq<Op<T>>) {
    Valid(Run(ops)) && View(Run(ops)) == SpecRun(ops)
  }

  /** The last step of `ops` schedules past no leftover entry, or is a collect. */
  ghost predicate LastIsClear<T>(ops: seq<Op<T>>)
    requires ops != []
  {
    var op := ops[|ops| - 1];
    op.Schedule? ==> NoLeftover(Run(ops[..|ops| - 1]), op.key, op.at)
  }

  lemma LastStepAgreesIff<T(!new)>(ops: seq<Op<T>>)
    requires ops != [] && Agrees(ops[..|ops| - 1])
    ensures Agrees(ops) <==> LastIsClear(ops)
  {
    var pre, op := ops[..|ops| - 1], ops[|ops| - 1];
    match op
    case Schedule(key, obj, at) => ScheduleAgreesIff(Run(pre), key, obj, at);
    case Collect(now) => DrainExact(Run(pre), now);
  }

  /** A run agrees with the plain map all the way exactly when no schedule in it finds a leftover in its way. */
  lemma {:induction false} RunAgreesIff<T(!new)>(ops: seq<Op<T>>)
    ensures (forall n :: 0 <= n <= |ops| ==> Agrees(ops[..n])) <==>
            (forall n :: 0 < n <= |ops| ==> LastIsClear(ops[..n]))
  {
    assert ops[..|ops|] == ops;
    if ops == [] {
      assert forall n :: 0 <= n <= |ops| ==> ops[..n] == ops;
    } else {
      var last := |ops| - 1;
      var pre := ops[..last];
      RunAgreesIff(pre);
      forall n | 0 <= n <= last ensures pre[..n] == ops[..n] {}
      if forall n :: 0 <= n <= last ==> Agrees(pre[..n]) {
        assert pre[..last] == pre && Agrees(pre);
        LastStepAgreesIff(ops);
      } else {
        var n :| 0 <= n <= last && !Agrees(pre[..n]);
        assert !Agrees(ops[..n]);
      }
    }
  }

  // ----- Nondecreasing schedules -----

  /** The deadlines given for one key never decrease. */
  ghost predicate Nondecreasing<T>(ops: seq<Op<T>>) {
    forall i, j :: 0 <= i < j < |ops| && ops[i].Schedule? && ops[j].Schedule? && ops[i].key == ops[j].key
      ==> ops[i].at <= ops[j].at
  }

  /** Generations of one key grow along the queue, up to the current one. */
  ghost predicate Orderly<T>(q: Queue<T>) {
    && (forall i :: 0 <= i < |q.exps| ==> q.exps[i].key in q.refs && q.exps[i].gen <= q.refs[q.exps[i].key].gen)
    && (forall i, j :: 0 <= i < j < |q.exps| && q.exps[i].key == q.exps[j].key ==> q.exps[i].gen < q.exps[j].gen)
  }

  ghost predicate ScheduledIn<T>(ops: seq<Op<T>>, e: Entry) {
    exists i :: 0 <= i < |ops| && ops[i].Schedule? && ops[i].key == e.key && ops[i].at == e.at
  }

  ghost predicate AllScheduledIn<T>(ops: seq<Op<T>>, exps: seq<Entry>) {
    forall i :: 0 <= i < |exps| ==> ScheduledIn(ops, exps[i])
  }

  lemma OrderlyNoLeftover<T>(q: Queue<T>, key: Key, at: int)
    requires Valid(q) && Orderly(q)
    requires forall i :: 0 <= i < |q.exps| && q.exps[i].key == key ==> q.exps[i].at <= at
    ensures NoLeftover(q, key, at)
  {
    if HasEntry(q.exps, key, at) {
      var i :| 0 <= i < |q.exps| && q.exps[i].key == key && q.exps[i].at == at;
      var j := FirstDueWitness(q.exps, key, q.refs[key].gen);
    } else if FirstDue(q.exps, key, NextGen(q, key)).Some? {
      var i := FirstDueWitness(q.exps, key, NextGen(q, key));
    }
  }

  lemma {:induction false} InsertPosition(exps: seq<Entry>, e: Entry) returns (i: nat)
    requires Sorted(exps) && !HasEntry(exps, e.key, e.at)
    ensures i <= |exps| && Insert(exps, e) == exps[..i] + [e] + exps[i..]
    ensures forall j :: 0 <= j < i ==> exps[j].at <= e.at
    ensures forall j :: i <= j < |exps| ==> exps[j].at >= e.at
    ensures forall j :: i <= j < |exps| && exps[j].key == e.key ==> exps[j].at > e.at
  {
    if exps == [] || Before(e.at, e.key, exps[0].at, exps[0].key) {
      i := 0;
    } else {
      var i0 := InsertPosition(exps[1..], e);
      i := i0 + 1;
      BeforeTotal(e.at, e.key, exps[0].at, exps[0].key);
      assert exps == [exps[0]] + exps[1..];
      forall j | i <= j < |exps| ensures exps[j].at >= e.at {
        assert exps[j] == exps[1..][j - 1];
      }
      forall j | 0 <= j < i ensures exps[j].at <= e.at {
        if j > 0 { assert exps[j] == exps[1..][j - 1]; }
      }
    }
  }

  lemma OrderlyAdded<T>(q: Queue<T>, key: Key, obj: T, at: int)
    requires Valid(q) && Orderly(q)
    requires forall i :: 0 <= i < |q.exps| && q.exps[i].key == key ==> q.exps[i].at <= at
    ensures Orderly(Added(q, key, obj, at))
  {
    if !HasEntry(q.exps, key, at) {
      var e := Entry(NextGen(q, key), key, at);
      var p := InsertPosition(q.exps, e);
      var q' := Added(q, key, obj, at);
      GenerationsGrow(q, q'.exps, e, p);
    }
  }

  lemma GenerationsGrow<T>(q: Queue<T>, exps: seq<Entry>, e: Entry, p: nat)
    requires Orderly(q) && p <= |q.exps| && exps == q.exps[..p] + [e] + q.exps[p..]
    requires forall i :: p <= i < |q.exps| ==> q.exps[i].key != e.key
    requires e.gen == NextGen(q, e.key)
    ensures forall i, j :: 0 <= i < j < |exps| && exps[i].key == exps[j].key ==> exps[i].gen < exps[j].gen
  {
    forall i, j | 0 <= i < j < |exps| && exps[i].key == exps[j].key ensures exps[i].gen < exps[j].gen {
      assert exps[i] == if i < p then q.exps[i] else if i == p then e else q.exps[i - 1];
      assert exps[j] == if j < p then q.exps[j] else if j == p then e else q.exps[j - 1];
    }
  }

  lemma {:induction false} OrderlyDrained<T(!new)>(q: Queue<T>, now: int)
    requires Valid(q) && Orderly(q)
    ensures Orderly(Drain(q, now).rest)
    ensures |Drain(q, now).rest.exps| <= |q.exps|
    ensures Drain(q, now).rest.exps == q.exps[|q.exps| - |Drain(q, now).rest.exps|..]
    decreases |q.exps|
  {
    if q.exps != [] && q.exps[0].at <= now {
      var e := q.exps[0];
      var tail := q.exps[1..];
      if e.key in q.refs && q.refs[e.key].gen == e.gen {
        DropCurrent(q);
        forall i | 0 <= i < |tail| ensures tail[i].key != e.key {
          assert tail[i] == q.exps[i + 1];
        }
        OrderlyDrained(Queue(tail, q.refs - {e.key}), now);
      } else {
        DropStale(q);
        OrderlyDrained(Queue(tail, q.refs), now);
      }
    }
  }

  lemma {:induction false} RunOrderly<T(!new)>(ops: seq<Op<T>>)
    requires Nondecreasing(ops)
    ensures Valid(Run(ops)) && Orderly(Run(ops)) && AllScheduledIn(ops, Run(ops).exps)
  {
    RunValid(ops);
    if ops != [] {
      var pre, op := ops[..|ops| - 1], ops[|ops| - 1];
      assert ops == pre + [op];
      RunOrderly(pre);
      var q := Run(pre);
      forall e | ScheduledIn(pre, e) ensures ScheduledIn(ops, e) {
        var i :| 0 <= i < |pre| && pre[i].Schedule? && pre[i].key == e.key && pre[i].at == e.at;
        assert ops[i] == pre[i];
      }
      match op {
        case Schedule(key, obj, at) =>
          LatestSoFar(pre, op);
          OrderlyAdded(q, key, obj, at);
          if !HasEntry(q.exps, key, at) {
            assert ops[|ops| - 1].key == key;
            var e := Entry(NextGen(q, key), key, at);
            assert ScheduledIn(ops, e);
            InsertSorted(q.exps, e);
            forall i | 0 <= i < |Run(ops).exps| ensures ScheduledIn(ops, Run(ops).exps[i]) {
              assert Run(ops).exps[i] in Run(ops).exps;
            }
          }
        case Collect(now) =>
          OrderlyDrained(q, now);
      }
    }
  }

  lemma LatestSoFar<T>(pre: seq<Op<T>>, op: Op<T>)
    requires Nondecreasing(pre + [op]) && op.Schedule?
    requires AllScheduledIn(pre, Run(pre).exps)
    ensures forall i :: 0 <= i < |Run(pre).exps| && Run(pre).exps[i].key == op.key ==> Run(pre).exps[i].at <= op.at
  {
    var ops := pre + [op];
    var exps := Run(pre).exps;
    forall i | 0 <= i < |exps| && exps[i].key == op.key ensures exps[i].at <= op.at {
      assert ScheduledIn(pre, exps[i]);
      var j :| 0 <= j < |pre| && pre[j].Schedule? && pre[j].key == exps[i].key && pre[j].at == exps[i].at;
      assert ops[j] == pre[j] && ops[|pre|] == op;
    }
  }

  /**
   * Refinement over runs: as long as the deadlines of each key never
   * decrease, the queue with generations is the plain map.
   */
  lemma {:induction false} RunRefines<T(!new)>(ops: seq<Op<T>>)
    requires Nondecreasing(ops)
    ensures Valid(Run(ops)) && View(Run(ops)) == SpecRun(ops)
  {
    RunValid(ops);
    if ops != [] {
      var pre, op := ops[..|ops| - 1], ops[|ops| - 1];
      assert ops == pre + [op];
      RunRefines(pre);
      RunOrderly(pre);
      match op {
        case Schedule(key, obj, at) =>
          LatestSoFar(pre, op);
          OrderlyNoLeftover(Run(pre), key, at);
          ScheduleAgreesIff(Run(pre), key, obj, at);
        case Collect(now) =>
          DrainExact(Run(pre), now);
      }
    }
  }

  /** What a collect hands out after any such run is what the plain map has due. */
  lemma CollectAfterRun<T(!new)>(ops: seq<Op<T>>, now: int)
    requires Nondecreasing(ops)
    ensures IsBatch(SpecRun(ops), now, Drain(Run(ops), now).items)
    ensures forall items :: IsBatch(SpecRun(ops), now, items) ==> items == Drain(Run(ops), now).items
  {
    RunRefines(ops);
    DrainExact(Run(ops), now);
    forall items | IsBatch(SpecRun(ops), now, items) ensures items == Drain(Run(ops), now).items {
      BatchUnique(SpecRun(ops), now, items, Drain(Run(ops), now).items);
    }
  }

  // ----- Arbitrary schedules -----

  /** One step of the record of the last deadline of each key that was neither skipped nor collected since. */
  ghost function Record<T>(p: Queue<T>, rec: map<Key, int>, op: Op<T>): map<Key, int> {
    match op
    case Schedule(key, obj, at) => if HasEntry(p.exps, key, at) then rec else rec[key := at]
    case Collect(now) => map k | k in rec && k in Drain(p, now).rest.refs :: rec[k]
  }

  ghost function Recorded<T>(ops: seq<Op<T>>): map<Key, int> {
    if ops == [] then map[]
    else Record(Run(ops[..|ops| - 1]), Recorded(ops[..|ops| - 1]), ops[|ops| - 1])
  }

  ghost predicate HasCurrent<T>(q: Queue<T>, k: Key, at: int) {
    k in q.refs && Entry(q.refs[k].gen, k, at) in q.exps
  }

  lemma {:induction false} DrainKeeps<T(!new)>(q: Queue<T>, now: int, k: Key, at: int)
    requires Valid(q) && HasCurrent(q, k, at)
    ensures Drain(q, now).rest.refs.Keys <= q.refs.Keys
    ensures k in Drain(q, now).rest.refs ==> HasCurrent(Drain(q, now).rest, k, at)
    decreases |q.exps|
  {
    if q.exps != [] && q.exps[0].at <= now {
      var e, tail := q.exps[0], q.exps[1..];
      assert q.exps == [e] + tail;
      if e.key in q.refs && q.refs[e.key].gen == e.gen {
        DropCurrent(q);
        var q' := Queue(tail, q.refs - {e.key});
        if e.key == k {
          DrainGone(q', now, k);
        } else {
          DrainKeeps(q', now, k, at);
        }
      } else {
        DropStale(q);
        DrainKeeps(Queue(tail, q.refs), now, k, at);
      }
    }
  }

  lemma {:induction false} DrainGone<T>(q: Queue<T>, now: int, k: Key)
    requires k !in q.refs
    ensures k !in Drain(q, now).rest.refs
    ensures Drain(q, now).rest.refs.Keys <= q.refs.Keys
    decreases |q.exps|
  {
    if q.exps != [] && q.exps[0].at <= now {
      var e, tail := q.exps[0], q.exps[1..];
      var refs := if e.key in q.refs && q.refs[e.key].gen == e.gen then q.refs - {e.key} else q.refs;
      DrainGone(Queue(tail, refs), now, k);
    }
  }

  ghost predicate RecordHolds<T>(q: Queue<T>, rec: map<Key, int>) {
    rec.Keys == q.refs.Keys && forall k :: k in rec ==> HasCurrent(q, k, rec[k])
  }

  lemma RecordAdded<T>(p: Queue<T>, rec: map<Key, int>, key: Key, obj: T, at: int)
    requires Valid(p) && RecordHolds(p, rec)
    ensures RecordHolds(Added(p, key, obj, at), Record(p, rec, Schedule(key, obj, at)))
  {
    if !HasEntry(p.exps, key, at) {
      InsertSorted(p.exps, Entry(NextGen(p, key), key, at));
    }
  }

  lemma RecordDrained<T(!new)>(p: Queue<T>, rec: map<Key, int>, now: int)
    requires Valid(p) && RecordHolds(p, rec)
    ensures RecordHolds(Drain(p, now).rest, Record(p, rec, Collect(now)))
  {
    var q := Drain(p, now).rest;
    forall k | k in q.refs ensures k in rec && HasCurrent(q, k, rec[k]) {
      if k in rec {
        DrainKeeps(p, now, k, rec[k]);
      } else {
        DrainGone(p, now, k);
      }
    }
  }

  /**
   * After any run, with deadlines moving either way, every reference is due
   * no later than the deadline last recorded for it; so the first collect at
   * or after that deadline hands it out.
   */
  lemma {:induction false} NeverLaterThanRecorded<T(!new)>(ops: seq<Op<T>>)
    ensures Valid(Run(ops)) && RecordHolds(Run(ops), Recorded(ops))
    ensures forall k :: k in Run(ops).refs ==> View(Run(ops))[k].at <= Recorded(ops)[k]
  {
    RunValid(ops);
    if ops != [] {
      var pre, op := ops[..|ops| - 1], ops[|ops| - 1];
      NeverLaterThanRecorded(pre);
      match op
      case Schedule(key, obj, at) => RecordAdded(Run(pre), Recorded(pre), key, obj, at);
      case Collect(now) => RecordDrained(Run(pre), Recorded(pre), now);
    }
    DueByRecord(Run(ops), Recorded(ops));
  }

  lemma DueByRecord<T>(q: Queue<T>, rec: map<Key, int>)
    requires Valid(q) && RecordHolds(q, rec)
    ensures forall k :: k in q.refs ==> View(q)[k].at <= rec[k]
  {
    forall k | k in q.refs ensures View(q)[k].at <= rec[k] {
      assert HasCurrent(q, k, rec[k]);
      var i :| 0 <= i < |q.exps| && q.exps[i] == Entry(q.refs[k].gen, k, rec[k]);
      FirstDueEarliest(q.exps, k, q.refs[k].gen, i);
    }
  }

  // ----- What decreasing deadlines can do -----

  /**
   * Rescheduled earlier, collected, then scheduled for its first deadline
   * again: the leftover entry makes `add` skip, and the object is never
   * handed out.
   */
  lemma LostSchedule()
    ensures var ops := [Schedule("k", 0, 5), Schedule("k", 1, 2), Collect(2), Schedule("k", 2, 5)];
            "k" !in Run(ops).refs && "k" in SpecRun(ops) && !Nondecreasing(ops)
  {
    var o1, o2, o3, o4 := Schedule("k", 0, 5), Schedule("k", 1, 2), Collect(2), Schedule("k", 2, 5);
    var q1 := Queue([Entry(1, "k", 5)], map["k" := Ref(1, 0)]);
    var q2 := Queue([Entry(2, "k", 2), Entry(1, "k", 5)], map["k" := Ref(2, 1)]);
    var q3: Queue<int> := Queue([Entry(1, "k", 5)], map[]);
    assert Step(Queue([], map[]), o1) == q1;
    assert Step(q1, o2) == q2;
    assert Step(q2, o3) == q3 by {
      assert q2.exps[1..] == [Entry(1, "k", 5)];
      assert Drain(Queue(q2.exps[1..], q2.refs - {"k"}), 2) == Drained([], q3);
    }
    assert Step(q3, o4) == q3 by { assert q3.exps[0].key == "k" && q3.exps[0].at == 5; }
    RunFour(o1, o2, o3, o4);
    assert [o1, o2, o3, o4][0].at > [o1, o2, o3, o4][1].at;
  }

  /**
   * Rescheduled earlier, collected, then scheduled later: the new entry gets
   * the generation of the leftover one, and the object is handed out early.
   */
  lemma EarlyCleanup()
    ensures var ops := [Schedule("k", 0, 5), Schedule("k", 1, 2), Collect(2), Schedule("k", 2, 9)];
            && Valid(Run(ops)) && View(Run(ops)) == map["k" := Item("k", 5, 2)]
            && SpecRun(ops) == map["k" := Item("k", 9, 2)]
  {
    var o1, o2, o3, o4 := Schedule("k", 0, 5), Schedule("k", 1, 2), Collect(2), Schedule("k", 2, 9);
    var q1 := Queue([Entry(1, "k", 5)], map["k" := Ref(1, 0)]);
    var q2 := Queue([Entry(2, "k", 2), Entry(1, "k", 5)], map["k" := Ref(2, 1)]);
    var q3: Queue<int> := Queue([Entry(1, "k", 5)], map[]);
    var q4 := Queue([Entry(1, "k", 5), Entry(1, "k", 9)], map["k" := Ref(1, 2)]);
    assert Step(Queue([], map[]), o1) == q1;
    assert Step(q1, o2) == q2;
    assert Step(q2, o3) == q3 by {
      assert q2.exps[1..] == [Entry(1, "k", 5)];
      assert Drain(Queue(q2.exps[1..], q2.refs - {"k"}), 2) == Drained([], q3);
    }
    assert Step(q3, o4) == q4 by { assert Insert(q3.exps[1..], Entry(1, "k", 9)) == [Entry(1, "k", 9)]; }
    RunFour(o1, o2, o3, o4);
    RunValid([o1, o2, o3, o4]);
  }

  lemma RunSnoc<T>(pre: seq<Op<T>>, op: Op<T>)
    ensures Run(pre + [op]) == Step(Run(pre), op)
    ensures SpecRun(pre + [op]) == SpecStep(SpecRun(pre), op)
  {
    assert (pre + [op])[..|pre|] == pre;
  }

  lemma RunFour<T>(o1: Op<T>, o2: Op<T>, o3: Op<T>, o4: Op<T>)
    ensures Run([o1, o2, o3, o4]) == Step(Step(Step(Step(Queue([], map[]), o1), o2), o3), o4)
    ensures SpecRun([o1, o2, o3, o4]) == SpecStep(SpecStep(SpecStep(SpecStep(map[], o1), o2), o3), o4)
  {
    RunSnoc([], o1);
    RunSnoc([o1], o2);
    RunSnoc([o1, o2], o3);
    RunSnoc([o1, o2, o3], o4);
    assert [] + [o1] == [o1] && [o1] + [o2] == [o1, o2];
    assert [o1, o2] + [o3] == [o1, o2, o3] && [o1, o2, o3] + [o4] == [o1, o2, o3, o4];
  }
}
