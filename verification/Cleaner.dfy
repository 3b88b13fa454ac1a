/** The cleaner: the expiry queue as an object whose fields are updated in place. */
module Cleaners {
  import opened Wrappers
  import opened Ordering
  import opened ExpiryQueue

  class Cleaner<T(!new)> {
    const keyFn: T -> Key
    const tick: nat
    var exps: seq<Entry>
    var refs: map<Key, Ref<T>>

    ghost function State(): Queue<T>
      reads this
    {
      Queue(exps, refs)
    }

    constructor (keyFn: T -> Key, tick: nat)
      ensures State() == Queue([], map[]) && Valid(State())
      ensures this.keyFn == keyFn && this.tick == tick
    {
      this.keyFn := keyFn;
      this.tick := tick;
      exps, refs := [], map[];
    }

    /** The binary search for the first entry that is not before (at, key). */
    method Search(key: Key, at: int) returns (i: nat)
      requires Sorted(exps)
      ensures i <= |exps|
      ensures forall j :: 0 <= j < i ==> Before(exps[j].at, exps[j].key, at, key)
      ensures forall j :: i <= j < |exps| ==> !Before(exps[j].at, exps[j].key, at, key)
    {
      i := 0;
      var hi := |exps|;
      while i < hi
        invariant 0 <= i <= hi <= |exps|
        invariant forall j :: 0 <= j < i ==> Before(exps[j].at, exps[j].key, at, key)
        invariant forall j :: hi <= j < |exps| ==> !Before(exps[j].at, exps[j].key, at, key)
      {
        var h := (i + hi) / 2;
        // the predicate handed to the search: same deadline, then by key
        var found := if exps[h].at == at then exps[h].key == key || Less(key, exps[h].key)
                     else exps[h].at > at;
        BeforeTotal(exps[h].at, exps[h].key, at, key);
        assert found == !Before(exps[h].at, exps[h].key, at, key);
        if found {
          forall j | h <= j < hi ensures !Before(exps[j].at, exps[j].key, at, key) {
            if h < j && Before(exps[j].at, exps[j].key, at, key) {
              BeforeTransitive(exps[h].at, exps[h].key, exps[j].at, exps[j].key, at, key);
            }
          }
          hi := h;
        } else {
          forall j | i <= j <= h ensures Before(exps[j].at, exps[j].key, at, key) {
            if j < h {
              BeforeTransitive(exps[j].at, exps[j].key, exps[h].at, exps[h].key, at, key);
            }
          }
          i := h + 1;
        }
      }
    }

    /** Adds or reschedules an object; the result says whether the loop must be woken. */
    method Add(obj: T, at: int) returns (newest: bool)
      requires Valid(State())
      modifies this`exps, this`refs
      ensures Valid(State())
      ensures State() == Added(old(State()), keyFn(obj), obj, at)
      ensures newest <==> old(exps) == [] || exps[0].at < old(exps)[0].at
    {
      var k := keyFn(obj);
      ghost var q := State();
      AddedView(q, k, obj, at);
      newest := |exps| == 0 || exps[0].at > at;
      var i := Search(k, at);
      if i < |exps| && exps[i].key == k && exps[i].at == at {
        return false;
      }
      NotPresent(k, at, i);
      var g := if k in refs then refs[k].gen + 1 else 1;
      InsertAtIndexOf(k, at, g, i);
      refs := refs[k := Ref(g, obj)];
      if i < |exps| {
        exps := exps[..i + 1] + exps[i..];
        exps := exps[i := Entry(g, k, at)];
        GrowThenSet(q.exps, i, Entry(g, k, at));
        assert State() == Added(q, k, obj, at);
        return;
      }
      exps := exps + [Entry(g, k, at)];
      assert exps == q.exps[..i] + [Entry(g, k, at)] + q.exps[i..];
      assert State() == Added(q, k, obj, at);
    }

    /** Growing the list by a copy of one element and overwriting it is an insertion. */
    static lemma GrowThenSet(exps: seq<Entry>, i: nat, e: Entry)
      requires i < |exps|
      ensures (exps[..i + 1] + exps[i..])[i := e] == exps[..i] + [e] + exps[i..]
    {
    }

    lemma NotPresent(k: Key, at: int, i: nat)
      requires i <= |exps| && Sorted(exps)
      requires forall j :: 0 <= j < i ==> Before(exps[j].at, exps[j].key, at, k)
      requires forall j :: i <= j < |exps| ==> !Before(exps[j].at, exps[j].key, at, k)
      requires !(i < |exps| && exps[i].key == k && exps[i].at == at)
      ensures !HasEntry(exps, k, at)
    {
      forall j | 0 <= j < |exps| ensures !(exps[j].key == k && exps[j].at == at) {
        BeforeTotal(exps[j].at, exps[j].key, at, k);
        if i < j {
          BeforeTotal(exps[i].at, exps[i].key, at, k);
        }
      }
    }

    lemma InsertAtIndexOf(k: Key, at: int, g: nat, i: nat)
      requires i <= |exps|
      requires forall j :: 0 <= j < i ==> Before(exps[j].at, exps[j].key, at, k)
      requires forall j :: i <= j < |exps| ==> !Before(exps[j].at, exps[j].key, at, k)
      requires !HasEntry(exps, k, at)
      ensures Insert(exps, Entry(g, k, at)) == exps[..i] + [Entry(g, k, at)] + exps[i..]
    {
      forall j | 0 <= j < |exps|
        ensures Before(at, k, exps[j].at, exps[j].key) <==> i <= j
      {
        BeforeTotal(exps[j].at, exps[j].key, at, k);
      }
      InsertAtIndex(exps, Entry(g, k, at), i);
    }

    /** Hands out every object due at `now` and reports the next deadline. */
    method Collect(now: int) returns (objs: seq<T>, exp: Option<int>)
      requires Valid(State())
      modifies this`exps, this`refs
      ensures Valid(State())
      ensures State() == Drain(old(State()), now).rest
      ensures objs == Objects(Drain(old(State()), now).items)
      ensures |objs| == |Drain(old(State()), now).items|
      ensures forall i :: 0 <= i < |objs| ==> objs[i] == Drain(old(State()), now).items[i].obj
      ensures exp == NextDue(State())
    {
      ghost var q := State();
      DrainExact(q, now);
      objs := [];
      ghost var items: seq<Item<T>> := [];
      while true
        invariant Valid(State()) && Drains(q, now, items, State())
        invariant objs == Objects(items)
        decreases |exps|
      {
        if |exps| == 0 {
          assert items + [] == items;
          return objs, None;
        }
        if exps[0].at > now {
          assert items + [] == items;
          return objs, Some(exps[0].at);
        }
        DrainsOn(q, now, items, State());
        var k, g := exps[0].key, exps[0].gen;
        if k in refs && refs[k].gen == g {
          DropCurrent(State());
          ObjectsSnoc(items, Item(k, exps[0].at, refs[k].obj));
          items := items + [Item(k, exps[0].at, refs[k].obj)];
          objs := objs + [refs[k].obj];
          refs := refs - {k};
        } else {
          DropStale(State());
        }
        exps := exps[1..];
      }
    }

    /** Draining `q` comes to `items` and then draining what is left. */
    static ghost predicate Drains(q: Queue<T>, now: int, items: seq<Item<T>>, left: Queue<T>) {
      Drain(q, now).items == items + Drain(left, now).items && Drain(q, now).rest == Drain(left, now).rest
    }

    static lemma DrainsOn(q: Queue<T>, now: int, items: seq<Item<T>>, left: Queue<T>)
      requires Drains(q, now, items, left) && left.exps != [] && left.exps[0].at <= now
      ensures var e := left.exps[0];
              if e.key in left.refs && left.refs[e.key].gen == e.gen then
                Drains(q, now, items + [Item(e.key, e.at, left.refs[e.key].obj)],
                       Queue(left.exps[1..], left.refs - {e.key}))
              else Drains(q, now, items, Queue(left.exps[1..], left.refs))
    {
      var e := left.exps[0];
      if e.key in left.refs && left.refs[e.key].gen == e.gen {
        var x := Item(e.key, e.at, left.refs[e.key].obj);
        var d := Drain(Queue(left.exps[1..], left.refs - {e.key}), now);
        assert items + ([x] + d.items) == items + [x] + d.items;
      }
    }

    static lemma ObjectsSnoc(items: seq<Item<T>>, x: Item<T>)
      ensures Objects(items + [x]) == Objects(items) + [x.obj]
    {
    }

    /**
     * One turn of the cleanup loop after it was woken: what is handed to the
     * clean function, and the time of the next wakeup, if the turn sets one.
     * `parked` is the clock when the loop is about to wait again.
     */
    method Turn(now: int, parked: int) returns (objs: seq<T>, wakeup: Option<int>)
      requires Valid(State())
      modifies this`exps, this`refs
      ensures Valid(State())
      ensures State() == Drain(old(State()), now).rest
      ensures objs == Objects(Drain(old(State()), now).items)
      ensures wakeup == Rewake(NextDue(State()), parked, tick)
      ensures wakeup.Some? <==> NextDue(State()).Some?
      ensures wakeup.Some? ==> wakeup.value >= parked + tick && wakeup.value >= NextDue(State()).value
    {
      var exp;
      objs, exp := Collect(now);
      wakeup := None;
      if exp.Some? {
        var after := exp.value - parked;
        if after < tick {
          after := tick;
        }
        wakeup := Some(parked + after);
      }
    }
  }
}
