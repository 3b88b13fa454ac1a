/**
 * The expiry queue of the cleaner, on values: a list of deadlines sorted by
 * (deadline, key) with lazy deletion by generation number, and the map of
 * references. The class Cleaner keeps these two as fields; everything said
 * here about its states holds of the class.
 */
module ExpiryQueue {
  import opened Wrappers
  import opened Ordering

  type Key = string

  datatype Entry = Entry(gen: nat, key: Key, at: int)
  datatype Ref<+T> = Ref(gen: nat, obj: T)
  datatype Queue<+T> = Queue(exps: seq<Entry>, refs: map<Key, Ref<T>>)

  /** One object together with the deadline at which it will be handed out. */
  datatype Item<+T> = Item(key: Key, at: int, obj: T)
  datatype Drained<+T> = Drained(items: seq<Item<T>>, rest: Queue<T>)

  // ----- Order of entries -----

  predicate Before(at1: int, key1: Key, at2: int, key2: Key) {
    at1 < at2 || (at1 == at2 && Less(key1, key2))
  }

  ghost predicate Sorted(exps: seq<Entry>) {
    forall i, j :: 0 <= i < j < |exps| ==> Before(exps[i].at, exps[i].key, exps[j].at, exps[j].key)
  }

  lemma BeforeTransitive(a1: int, k1: Key, a2: int, k2: Key, a3: int, k3: Key)
    requires Before(a1, k1, a2, k2) && Before(a2, k2, a3, k3)
    ensures Before(a1, k1, a3, k3)
  {
    if a1 == a2 == a3 {
      LessTransitive(k1, k2, k3);
    }
  }

  lemma BeforeTotal(a1: int, k1: Key, a2: int, k2: Key)
    ensures Before(a1, k1, a2, k2) || (a1 == a2 && k1 == k2) || Before(a2, k2, a1, k1)
    ensures !(Before(a1, k1, a2, k2) && Before(a2, k2, a1, k1))
    ensures a1 == a2 && k1 == k2 ==> !Before(a1, k1, a2, k2)
  {
    LessTotal(k1, k2);
    LessIrreflexive(k1);
    if Less(k1, k2) {
      LessAsymmetric(k1, k2);
    }
  }

  predicate HasEntry(exps: seq<Entry>, key: Key, at: int) {
    exists i :: 0 <= i < |exps| && exps[i].key == key && exps[i].at == at
  }

  // ----- What the queue stands for -----

  /** The deadline of the first entry for `key` that carries generation `gen`. */
  function FirstDue(exps: seq<Entry>, key: Key, gen: nat): Option<int> {
    if exps == [] then None
    else if exps[0].key == key && exps[0].gen == gen then Some(exps[0].at)
    else FirstDue(exps[1..], key, gen)
  }

  /** Every reference has an entry carrying its current generation. */
  ghost predicate Covered<T>(q: Queue<T>) {
    forall k :: k in q.refs ==> FirstDue(q.exps, k, q.refs[k].gen).Some?
  }

  ghost predicate Valid<T>(q: Queue<T>) {
    Sorted(q.exps) && Covered(q)
  }

  /** The map from key to pending object that a valid queue stands for. */
  ghost function View<T>(q: Queue<T>): map<Key, Item<T>>
    requires Covered(q)
  {
    map k | k in q.refs :: Item(k, FirstDue(q.exps, k, q.refs[k].gen).value, q.refs[k].obj)
  }

  function NextDue<T>(q: Queue<T>): Option<int> {
    if q.exps == [] then None else Some(q.exps[0].at)
  }

  lemma {:induction false} FirstDueWitness(exps: seq<Entry>, key: Key, gen: nat) returns (i: nat)
    requires FirstDue(exps, key, gen).Some?
    ensures i < |exps| && exps[i].key == key && exps[i].gen == gen
    ensures exps[i].at == FirstDue(exps, key, gen).value
    ensures forall j :: 0 <= j < i ==> !(exps[j].key == key && exps[j].gen == gen)
  {
    if exps[0].key == key && exps[0].gen == gen {
      i := 0;
    } else {
      var i0 := FirstDueWitness(exps[1..], key, gen);
      i := i0 + 1;
      forall j | 0 <= j < i ensures !(exps[j].key == key && exps[j].gen == gen) {
        if j > 0 { assert exps[j] == exps[1..][j - 1]; }
      }
    }
  }

  lemma {:induction false} FirstDueEarliest(exps: seq<Entry>, key: Key, gen: nat, i: nat)
    requires Sorted(exps) && i < |exps| && exps[i].key == key && exps[i].gen == gen
    ensures FirstDue(exps, key, gen).Some? && FirstDue(exps, key, gen).value <= exps[i].at
  {
    if !(exps[0].key == key && exps[0].gen == gen) {
      assert exps[i] == exps[1..][i - 1];
      FirstDueEarliest(exps[1..], key, gen, i - 1);
    }
  }

  // ----- add -----

  function Insert(exps: seq<Entry>, e: Entry): seq<Entry> {
    if exps == [] || Before(e.at, e.key, exps[0].at, exps[0].key) then [e] + exps
    else [exps[0]] + Insert(exps[1..], e)
  }

  function NextGen<T>(q: Queue<T>, key: Key): nat {
    if key in q.refs then q.refs[key].gen + 1 else 1
  }

  /** The queue after adding `obj` under `key` with deadline `at`. */
  function Added<T>(q: Queue<T>, key: Key, obj: T, at: int): Queue<T> {
    if HasEntry(q.exps, key, at) then q
    else
      var gen := NextGen(q, key);
      Queue(Insert(q.exps, Entry(gen, key, at)), q.refs[key := Ref(gen, obj)])
  }

  /** Whether the loop has to be told: the queue was empty or its head was later. */
  predicate Newest<T>(q: Queue<T>, at: int) {
    |q.exps| == 0 || q.exps[0].at > at
  }

  /** Insertion at the index the binary search finds is insertion in order. */
  lemma {:induction false} InsertAtIndex(exps: seq<Entry>, e: Entry, i: nat)
    requires i <= |exps|
    requires forall j :: 0 <= j < i ==> !Before(e.at, e.key, exps[j].at, exps[j].key)
    requires i < |exps| ==> Before(e.at, e.key, exps[i].at, exps[i].key)
    ensures Insert(exps, e) == exps[..i] + [e] + exps[i..]
  {
    if i > 0 {
      InsertAtIndex(exps[1..], e, i - 1);
      assert exps[1..][..i - 1] == exps[1..i] && exps[1..][i - 1..] == exps[i..];
    }
  }

  lemma {:induction false} InsertSorted(exps: seq<Entry>, e: Entry)
    requires Sorted(exps) && !HasEntry(exps, e.key, e.at)
    ensures Sorted(Insert(exps, e))
    ensures multiset(Insert(exps, e)) == multiset(exps) + multiset{e}
    ensures forall x :: x in Insert(exps, e) <==> x == e || x in exps
  {
    if exps != [] {
      assert exps == [exps[0]] + exps[1..];
      if Before(e.at, e.key, exps[0].at, exps[0].key) {
        forall j | 0 <= j < |exps| ensures Before(e.at, e.key, exps[j].at, exps[j].key) {
          if j > 0 { BeforeTransitive(e.at, e.key, exps[0].at, exps[0].key, exps[j].at, exps[j].key); }
        }
      } else {
        BeforeTotal(e.at, e.key, exps[0].at, exps[0].key);
        InsertSorted(exps[1..], e);
        var tail := Insert(exps[1..], e);
        forall j | 0 <= j < |tail|
          ensures Before(exps[0].at, exps[0].key, tail[j].at, tail[j].key)
        {
          assert tail[j] in tail;
        }
      }
    }
  }

  /** What one insertion does to the first entry of any key and generation. */
  lemma {:induction false} FirstDueInsert(exps: seq<Entry>, e: Entry, key: Key, gen: nat)
    requires Sorted(exps)
    ensures FirstDue(Insert(exps, e), key, gen) ==
            if !(e.key == key && e.gen == gen) then FirstDue(exps, key, gen)
            else match FirstDue(exps, key, gen)
                 case None => Some(e.at)
                 case Some(d) => Some(if d <= e.at then d else e.at)
  {
    if exps == [] {
      assert [e] + exps == [e] && [e][1..] == [];
    } else if Before(e.at, e.key, exps[0].at, exps[0].key) {
      assert ([e] + exps)[1..] == exps;
      if FirstDue(exps, key, gen).Some? {
        var i := FirstDueWitness(exps, key, gen);
        assert exps[0].at <= exps[i].at;
      }
    } else {
      assert ([exps[0]] + Insert(exps[1..], e))[1..] == Insert(exps[1..], e);
      FirstDueInsert(exps[1..], e, key, gen);
    }
  }

  /** The deadline under which a newly inserted key will be handed out. */
  function EffectiveDue<T>(q: Queue<T>, key: Key, at: int): int {
    match FirstDue(q.exps, key, NextGen(q, key))
    case None => at
    case Some(d) => if d <= at then d else at
  }

  /**
   * What `add` does to the map the queue stands for, in every valid state:
   * a repeated (deadline, key) changes nothing; otherwise the key is
   * overwritten, under its new deadline unless a leftover entry carries the
   * same generation and is earlier.
   */
  lemma AddedView<T>(q: Queue<T>, key: Key, obj: T, at: int)
    requires Valid(q)
    ensures Valid(Added(q, key, obj, at))
    ensures View(Added(q, key, obj, at)) ==
            if HasEntry(q.exps, key, at) then View(q)
            else View(q)[key := Item(key, EffectiveDue(q, key, at), obj)]
    ensures Newest(q, at) ==> !HasEntry(q.exps, key, at)
    ensures Newest(q, at) <==>
            q.exps == [] || NextDue(Added(q, key, obj, at)).value < NextDue(q).value
  {
    if !HasEntry(q.exps, key, at) {
      var e := Entry(NextGen(q, key), key, at);
      var q' := Added(q, key, obj, at);
      InsertSorted(q.exps, e);
      forall k | k in q'.refs
        ensures FirstDue(q'.exps, k, q'.refs[k].gen).Some?
      {
        FirstDueInsert(q.exps, e, k, q'.refs[k].gen);
      }
      forall k | k in q'.refs
        ensures View(q')[k] == View(q)[key := Item(key, EffectiveDue(q, key, at), obj)][k]
      {
        FirstDueInsert(q.exps, e, k, q'.refs[k].gen);
      }
    }
  }

  // ----- collect -----

  /** Pops every entry whose deadline is not after `now`. */
  function Drain<T>(q: Queue<T>, now: int): Drained<T>
    decreases |q.exps|
  {
    if q.exps == [] || q.exps[0].at > now then Drained([], q)
    else
      var e := q.exps[0];
      if e.key in q.refs && q.refs[e.key].gen == e.gen then
        var d := Drain(Queue(q.exps[1..], q.refs - {e.key}), now);
        Drained([Item(e.key, e.at, q.refs[e.key].obj)] + d.items, d.rest)
      else
        Drain(Queue(q.exps[1..], q.refs), now)
  }

  ghost predicate ItemsSorted<T>(items: seq<Item<T>>) {
    forall i, j :: 0 <= i < j < |items| ==> Before(items[i].at, items[i].key, items[j].at, items[j].key)
  }

  /**
   * `items` are exactly the objects of `m` due at `now`, each once, in
   * (deadline, key) order.
   */
  ghost predicate IsBatch<T(!new)>(m: map<Key, Item<T>>, now: int, items: seq<Item<T>>) {
    && ItemsSorted(items)
    && (forall x :: x in items <==> (x.key in m && m[x.key] == x && x.at <= now))
  }

  ghost function StillPending<T>(m: map<Key, Item<T>>, now: int): map<Key, Item<T>> {
    map k | k in m && m[k].at > now :: m[k]
  }

  /** The order leaves no freedom: there is one batch. */
  lemma {:induction false} BatchUnique<T(!new)>(m: map<Key, Item<T>>, now: int, a: seq<Item<T>>, b: seq<Item<T>>)
    requires IsBatch(m, now, a) && IsBatch(m, now, b)
    ensures a == b
  {
    assert a != [] ==> a[0] in a && a[0] in b;
    assert b != [] ==> b[0] in b && b[0] in a;
    if a != [] && b != [] {
      HeadUnique(m, now, a, b);
      var m' := m - {a[0].key};
      TailBatch(m, now, a);
      TailBatch(m, now, b);
      BatchUnique(m', now, a[1..], b[1..]);
      assert a == [a[0]] + a[1..] && b == [b[0]] + b[1..];
    }
  }

  lemma HeadUnique<T(!new)>(m: map<Key, Item<T>>, now: int, a: seq<Item<T>>, b: seq<Item<T>>)
    requires IsBatch(m, now, a) && IsBatch(m, now, b) && a != [] && b != []
    ensures a[0] == b[0]
  {
    assert a[0] in a && b[0] in b;
    var i :| 0 <= i < |a| && a[i] == b[0];
    var j :| 0 <= j < |b| && b[j] == a[0];
    BeforeTotal(a[0].at, a[0].key, b[0].at, b[0].key);
  }

  lemma TailBatch<T(!new)>(m: map<Key, Item<T>>, now: int, a: seq<Item<T>>)
    requires IsBatch(m, now, a) && a != []
    ensures IsBatch(m - {a[0].key}, now, a[1..])
  {
    var m' := m - {a[0].key};
    forall x ensures x in a[1..] <==> (x.key in m' && m'[x.key] == x && x.at <= now) {
      if x in a[1..] {
        var i :| 0 <= i < |a[1..]| && a[1..][i] == x;
        assert a[i + 1] == x && x in a;
        if x.key == a[0].key {
          assert a[0] in a && x == a[0];
          BeforeTotal(a[0].at, a[0].key, x.at, x.key);
        }
      }
      if x.key in m' && m'[x.key] == x && x.at <= now {
        assert x in a && x != a[0];
        var i :| 0 <= i < |a| && a[i] == x;
        assert a[1..][i - 1] == x;
      }
    }
  }

  /** Dropping the head of a valid queue, when it does not carry its key's current generation. */
  lemma DropStale<T>(q: Queue<T>)
    requires Valid(q) && q.exps != []
    requires !(q.exps[0].key in q.refs && q.refs[q.exps[0].key].gen == q.exps[0].gen)
    ensures Valid(Queue(q.exps[1..], q.refs))
    ensures View(Queue(q.exps[1..], q.refs)) == View(q)
  {
  }

  /** Dropping the head of a valid queue together with the reference it carries. */
  lemma DropCurrent<T>(q: Queue<T>)
    requires Valid(q) && q.exps != []
    requires q.exps[0].key in q.refs && q.refs[q.exps[0].key].gen == q.exps[0].gen
    ensures Valid(Queue(q.exps[1..], q.refs - {q.exps[0].key}))
    ensures View(Queue(q.exps[1..], q.refs - {q.exps[0].key})) == View(q) - {q.exps[0].key}
    ensures View(q)[q.exps[0].key] == Item(q.exps[0].key, q.exps[0].at, q.refs[q.exps[0].key].obj)
  {
  }

  /** Nothing is due before the head of the queue. */
  lemma HeadIsEarliest<T>(q: Queue<T>, k: Key)
    requires Valid(q) && k in q.refs
    ensures q.exps != [] && q.exps[0].at <= View(q)[k].at
    ensures View(q)[k].at == q.exps[0].at ==> k == q.exps[0].key || Less(q.exps[0].key, k)
  {
    var i := FirstDueWitness(q.exps, k, q.refs[k].gen);
  }

  /** The next deadline is after `now` and not after anything still pending. */
  ghost predicate NextInTime<T>(q: Queue<T>, now: int)
    requires Covered(q)
  {
    match NextDue(q)
    case None => q.refs == map[]
    case Some(at) => now < at && forall k :: k in View(q) ==> at <= View(q)[k].at
  }

  /** What collecting at `now` is to make of a queue. */
  ghost predicate Collects<T(!new)>(q: Queue<T>, now: int, d: Drained<T>)
    requires Valid(q)
  {
    && Valid(d.rest)
    && IsBatch(View(q), now, d.items)
    && View(d.rest) == StillPending(View(q), now)
    && NextInTime(d.rest, now)
  }

  /** Where the head is not due, nothing is. */
  lemma NothingDue<T(!new)>(q: Queue<T>, now: int)
    requires Valid(q) && (q.exps == [] || q.exps[0].at > now)
    ensures Collects(q, now, Drained([], q))
  {
    forall k | k in q.refs ensures q.exps != [] && q.exps[0].at <= View(q)[k].at {
      HeadIsEarliest(q, k);
    }
  }

  lemma CollectsCons<T(!new)>(q: Queue<T>, now: int, d: Drained<T>)
    requires Valid(q) && q.exps != [] && q.exps[0].at <= now
    requires q.exps[0].key in q.refs && q.refs[q.exps[0].key].gen == q.exps[0].gen
    requires Valid(Queue(q.exps[1..], q.refs - {q.exps[0].key}))
    requires Collects(Queue(q.exps[1..], q.refs - {q.exps[0].key}), now, d)
    ensures Collects(q, now, Drained([Item(q.exps[0].key, q.exps[0].at, q.refs[q.exps[0].key].obj)] + d.items, d.rest))
  {
    DropCurrent(q);
    BatchCons(q, now, d.items);
    assert StillPending(View(q), now) == StillPending(View(q) - {q.exps[0].key}, now);
  }

  /**
   * `collect(now)` on any valid queue, whatever the schedule that built it:
   * it hands out exactly the objects due, each once and in order, keeps the
   * rest as it was, and its next wakeup is after `now` and not after any
   * object that is still pending.
   */
  lemma {:induction false} DrainExact<T(!new)>(q: Queue<T>, now: int)
    requires Valid(q)
    ensures Collects(q, now, Drain(q, now))
    decreases |q.exps|
  {
    if q.exps == [] || q.exps[0].at > now {
      NothingDue(q, now);
    } else {
      var e := q.exps[0];
      if e.key in q.refs && q.refs[e.key].gen == e.gen {
        var q' := Queue(q.exps[1..], q.refs - {e.key});
        DropCurrent(q);
        DrainExact(q', now);
        CollectsCons(q, now, Drain(q', now));
      } else {
        DropStale(q);
        DrainExact(Queue(q.exps[1..], q.refs), now);
      }
    }
  }

  lemma BatchCons<T(!new)>(q: Queue<T>, now: int, items: seq<Item<T>>)
    requires Valid(q) && q.exps != [] && q.exps[0].at <= now
    requires q.exps[0].key in q.refs && q.refs[q.exps[0].key].gen == q.exps[0].gen
    requires IsBatch(View(q) - {q.exps[0].key}, now, items)
    ensures IsBatch(View(q), now, [View(q)[q.exps[0].key]] + items)
  {
    var x := View(q)[q.exps[0].key];
    var all := [x] + items;
    forall j | 0 <= j < |items| ensures Before(x.at, x.key, items[j].at, items[j].key) {
      assert items[j] in items;
      HeadIsEarliest(q, items[j].key);
    }
    forall y ensures y in all <==> (y.key in View(q) && View(q)[y.key] == y && y.at <= now) {
      assert y in all <==> y == x || y in items;
    }
  }

  function Objects<T>(items: seq<Item<T>>): seq<T> {
    seq(|items|, i requires 0 <= i < |items| => items[i].obj)
  }

  /** The wakeup a turn sets when it parks at `parked`: at the next deadline, but not within a tick. */
  function Rewake(exp: Option<int>, parked: int, tick: nat): Option<int> {
    match exp
    case None => None
    case Some(at) => Some(if at < parked + tick then parked + tick else at)
  }

  /** That is the least time that is not before the deadline nor within a tick. */
  lemma RewakeLeast(at: int, parked: int, tick: nat)
    ensures Rewake(None, parked, tick) == None && Rewake(Some(at), parked, tick).Some?
    ensures var w := Rewake(Some(at), parked, tick).value;
            w >= at && w >= parked + tick && (w == at || w == parked + tick)
  {
  }
}
