/**
 * Which live queries a changed object concerns: one tracker per query, and
 * the cache that registers event handlers and broadcasts changes to them.
 */
module Trackers {
  import opened Wrappers

  type Kind = string
  type UID = string

  /** The calls a tracker receives. */
  datatype Call =
    | Track(oid: UID, gvk: Kind)
    | TrackList(gvk: Kind)
    | OnCreate(oid: UID, gvk: Kind)
    | OnUpdate(oldOid: UID, newOid: UID, gvk: Kind)
    | OnDelete(oid: UID, gvk: Kind)

  /** Those of them that informers cause. */
  type Event = c: Call | c.OnCreate? || c.OnUpdate? || c.OnDelete? witness OnCreate("", "")

  /** Per kind the objects tracked; None stands for the whole list. */
  type Oids = map<Kind, Option<set<UID>>>

  function Step(oids: Oids, c: Call): Oids {
    match c
    case Track(oid, gvk) =>
      if gvk !in oids then oids[gvk := Some({oid})]
      else if oids[gvk].None? then oids
      else oids[gvk := Some(oids[gvk].value + {oid})]
    case TrackList(gvk) => oids[gvk := None]
    case OnDelete(oid, gvk) =>
      if gvk in oids && oids[gvk].Some? then oids[gvk := Some(oids[gvk].value - {oid})] else oids
    case _ => oids
  }

  predicate Decision(oids: Oids, c: Call) {
    match c
    case OnCreate(_, gvk) => gvk in oids && oids[gvk].None?
    case OnUpdate(o, n, gvk) => gvk in oids && (oids[gvk].None? || o in oids[gvk].value || n in oids[gvk].value)
    case OnDelete(oid, gvk) => gvk in oids && (oids[gvk].None? || oid in oids[gvk].value)
    case _ => false
  }

  function OidsAfter(h: seq<Call>): Oids {
    if h == [] then map[] else Step(OidsAfter(h[..|h| - 1]), h[|h| - 1])
  }

  // ----- The decision in terms of what was called -----

  /** The whole list of the kind was asked for at some point. */
  ghost predicate ListWatched(h: seq<Call>, gvk: Kind) {
    TrackList(gvk) in h
  }

  /** The object was tracked, and not deleted since. */
  ghost predicate Followed(h: seq<Call>, oid: UID, gvk: Kind) {
    exists i :: 0 <= i < |h| && h[i] == Track(oid, gvk) && OnDelete(oid, gvk) !in h[i..]
  }

  ghost predicate ShouldNotify(h: seq<Call>, c: Call) {
    match c
    case OnCreate(_, gvk) => ListWatched(h, gvk)
    case OnUpdate(o, n, gvk) => ListWatched(h, gvk) || Followed(h, o, gvk) || Followed(h, n, gvk)
    case OnDelete(oid, gvk) => ListWatched(h, gvk) || Followed(h, oid, gvk)
    case _ => false
  }

  lemma FollowedSnoc(h: seq<Call>, c: Call, oid: UID, gvk: Kind)
    ensures Followed(h + [c], oid, gvk) <==>
            c == Track(oid, gvk) || (Followed(h, oid, gvk) && c != OnDelete(oid, gvk))
  {
    var h' := h + [c];
    if c == Track(oid, gvk) {
      assert h'[|h|..] == [c];
    } else {
      forall i | 0 <= i < |h| ensures h'[i..] == h[i..] + [c] {}
      if Followed(h', oid, gvk) {
        var i :| 0 <= i < |h'| && h'[i] == Track(oid, gvk) && OnDelete(oid, gvk) !in h'[i..];
        assert h[i] == Track(oid, gvk) && h'[i..] == h[i..] + [c];
        assert c in h'[i..];
      }
      if Followed(h, oid, gvk) && c != OnDelete(oid, gvk) {
        var i :| 0 <= i < |h| && h[i] == Track(oid, gvk) && OnDelete(oid, gvk) !in h[i..];
        assert h'[i] == Track(oid, gvk) && h'[i..] == h[i..] + [c];
      }
    }
  }

  /** The sets say that the whole list is tracked; that the object is. */
  predicate Lists(oids: Oids, gvk: Kind) {
    gvk in oids && oids[gvk].None?
  }

  predicate Has(oids: Oids, oid: UID, gvk: Kind) {
    gvk in oids && oids[gvk].Some? && oid in oids[gvk].value
  }

  lemma StepEffect(oids: Oids, c: Call, oid: UID, gvk: Kind)
    ensures Lists(Step(oids, c), gvk) <==> Lists(oids, gvk) || c == TrackList(gvk)
    ensures !Lists(Step(oids, c), gvk) ==>
              (Has(Step(oids, c), oid, gvk) <==>
               c == Track(oid, gvk) || (Has(oids, oid, gvk) && c != OnDelete(oid, gvk)))
  {
  }

  /** The tracker's sets say exactly which lists and objects the history asked for. */
  lemma {:induction false} OidsMeaning(h: seq<Call>, oid: UID, gvk: Kind)
    ensures Lists(OidsAfter(h), gvk) <==> ListWatched(h, gvk)
    ensures !ListWatched(h, gvk) ==> (Has(OidsAfter(h), oid, gvk) <==> Followed(h, oid, gvk))
  {
    if h != [] {
      var pre, c := h[..|h| - 1], h[|h| - 1];
      assert h == pre + [c];
      OidsMeaning(pre, oid, gvk);
      StepEffect(OidsAfter(pre), c, oid, gvk);
      FollowedSnoc(pre, c, oid, gvk);
      assert ListWatched(h, gvk) <==> ListWatched(pre, gvk) || c == TrackList(gvk);
    }
  }

  /** The decision to notify is the one the history of calls justifies. */
  lemma DecisionMeaning(h: seq<Call>, c: Call)
    ensures Decision(OidsAfter(h), c) <==> ShouldNotify(h, c)
  {
    match c
    case OnCreate(oid, gvk) => OidsMeaning(h, oid, gvk);
    case OnUpdate(o, n, gvk) =>
      OidsMeaning(h, o, gvk);
      OidsMeaning(h, n, gvk);
    case OnDelete(oid, gvk) => OidsMeaning(h, oid, gvk);
    case _ =>
  }

  class LiveQueryTracker {
    const id: nat  // of the query in its context
    var oids: Oids

    constructor (id: nat)
      ensures oids == map[] && this.id == id
    {
      this.id := id;
      oids := map[];
    }

    method Track(oid: UID, gvk: Kind)
      modifies this`oids
      ensures oids == Step(old(oids), Call.Track(oid, gvk))
    {
      if gvk in oids {
        // the whole list covers the object
        if oids[gvk] == None {
          return;
        }
        oids := oids[gvk := Some(oids[gvk].value + {oid})];
        return;
      }
      oids := oids[gvk := Some({oid})];
    }

    method TrackList(gvk: Kind)
      modifies this`oids
      ensures oids == Step(old(oids), Call.TrackList(gvk))
    {
      oids := oids[gvk := None];
    }

    /** OnCreate, OnUpdate and OnDelete; the result is whether the query is triggered. */
    method Observe(c: Event) returns (notify: bool)
      modifies this`oids
      ensures oids == Step(old(oids), c)
      ensures notify <==> Decision(old(oids), c)
    {
      match c {
        case OnCreate(_, gvk) =>
          notify := gvk in oids && oids[gvk] == None;
        case OnUpdate(o, n, gvk) =>
          notify := gvk in oids && (oids[gvk] == None || o in oids[gvk].value || n in oids[gvk].value);
        case OnDelete(oid, gvk) =>
          if gvk !in oids {
            notify := false;
          } else if oids[gvk] == None {
            notify := true;
          } else {
            notify := oid in oids[gvk].value;
            oids := oids[gvk := Some(oids[gvk].value - {oid})];
          }
      }
    }
  }

  datatype Object = Single(oid: UID) | List

  function Reading(what: Object, gvk: Kind): Call {
    match what
    case Single(oid) => Track(oid, gvk)
    case List => TrackList(gvk)
  }

  /** The cache of trackers; the ghost `view` gives the sets of every query. */
  class LiveQueryCache {
    var queries: map<nat, LiveQueryTracker>
    var handles: set<Kind>
    ghost var view: map<nat, Oids>
    ghost var registered: multiset<Kind>  // successful registrations of event handlers
    ghost var repr: set<LiveQueryTracker>

    ghost predicate Valid()
      reads this, repr
    {
      && view.Keys == queries.Keys
      && (forall i :: i in queries ==> queries[i] in repr && queries[i].id == i && queries[i].oids == view[i])
      && (forall i :: i in view ==> view[i].Keys <= handles)
      && (forall gvk :: registered[gvk] == if gvk in handles then 1 else 0)
    }

    constructor ()
      ensures Valid() && view == map[]
    {
      queries, handles, view, registered, repr := map[], {}, map[], multiset{}, {};
    }

    /** Adds the event handler of a kind unless it is there; `added` is what the informer answers. */
    method Register(gvk: Kind, added: bool) returns (ok: bool)
      requires Valid()
      modifies this`handles, this`registered
      ensures Valid() && ok == (gvk in old(handles) || added)
      ensures handles == old(handles) + (if ok then {gvk} else {})
      ensures ok ==> registered[gvk] == 1
    {
      if gvk !in handles {
        handles := handles + {gvk};
        if !added {
          handles := handles - {gvk};
          return false;
        }
        registered := registered + multiset{gvk};
      }
      return true;
    }

    /** The tracker of a query, created on first use. */
    method TrackerOf(qid: nat) returns (q: LiveQueryTracker)
      requires Valid()
      modifies this`queries, this`view, this`repr
      ensures Valid() && fresh(repr - old(repr)) && q in repr
      ensures qid in queries && q == queries[qid] && q.oids == view[qid]
      ensures queries == old(queries)[qid := q] && (qid in old(queries) ==> q == old(queries)[qid])
      ensures view == WithQuery(old(view), qid)
    {
      if qid !in queries {
        q := new LiveQueryTracker(qid);
        queries := queries[qid := q];
        view := view[qid := map[]];
        repr := repr + {q};
      }
      q := queries[qid];
    }

    /** Passes on what was read to the tracker of the query. */
    method Note(qid: nat, gvk: Kind, what: Object)
      requires Valid() && qid in queries && gvk in handles
      modifies queries[qid], this`view
      ensures Valid()
      ensures view == old(view)[qid := Step(old(view)[qid], Reading(what, gvk))]
    {
      match what {
        case Single(oid) => queries[qid].Track(oid, gvk);
        case List => queries[qid].TrackList(gvk);
      }
      view := view[qid := Step(view[qid], Reading(what, gvk))];
    }

    /** Registers what was read with the tracker of the query. */
    method Record(qid: nat, gvk: Kind, what: Object)
      requires Valid() && gvk in handles
      modifies this`queries, this`view, this`repr, repr
      ensures Valid() && fresh(repr - old(repr))
      ensures view == CacheStep(old(view), Read(qid, what, gvk))
      ensures forall i :: i in old(queries) ==> i in queries && queries[i] == old(queries)[i]
    {
      CreatedThenRead(view, qid, what, gvk);
      var q := TrackerOf(qid);
      Note(qid, gvk, what);
    }

    /**
     * Registers an object or list read by query `qid`. `added` is what the
     * informer answers if it is asked to add the event handler.
     */
    method TrackObject(qid: nat, live: bool, gvk: Kind, what: Object, added: bool) returns (ok: bool)
      requires Valid()
      modifies this, repr
      ensures Valid() && fresh(repr - old(repr))
      ensures ok <==> !live || gvk in old(handles) || added
      ensures handles == old(handles) + (if live && ok then {gvk} else {})
      ensures live && ok ==> registered[gvk] == 1
      ensures view == if live && ok then CacheStep(old(view), Read(qid, what, gvk)) else old(view)
      ensures forall i :: i in old(queries) ==> i in queries && queries[i] == old(queries)[i]
    {
      if !live {
        return true;
      }
      ok := Register(gvk, added);
      if !ok {
        return;
      }
      Record(qid, gvk, what);
    }

    /** One query of a broadcast: it is dropped if it is dead, and told otherwise. */
    method Visit(i: nat, c: Event, alive: bool) returns (notify: bool)
      requires Valid() && i in queries
      modifies this`queries, this`view, queries[i]
      ensures Valid()
      ensures queries == if alive then old(queries) else old(queries) - {i}
      ensures view == if alive then old(view)[i := Step(old(view)[i], c)] else old(view) - {i}
      ensures notify <==> alive && Decision(old(view)[i], c)
    {
      if !alive {
        queries := queries - {i};
        view := view - {i};
        return false;
      }
      notify := queries[i].Observe(c);
      view := view[i := Step(view[i], c)];
    }

    /**
     * One event: dead queries are dropped, every live one is told, and those
     * it concerns are triggered, each once.
     */
    method Broadcast(c: Event, live: set<nat>) returns (triggered: multiset<nat>)
      requires Valid()
      modifies this`queries, this`view, repr
      ensures Valid()
      ensures view == CacheStep(old(view), Change(c, live))
      ensures forall i :: i in queries ==> i in old(queries) && queries[i] == old(queries)[i]
      ensures Triggers(triggered, old(view), {}, c, live)
    {
      triggered := multiset{};
      var todo := queries.Keys;
      ghost var v, qs := view, queries;
      while todo != {}
        invariant Valid() && todo <= queries.Keys
        invariant view == Partly(v, todo, c, live)
        invariant forall i :: i in queries ==> i in qs && queries[i] == qs[i]
        invariant Triggers(triggered, v, todo, c, live)
        decreases todo
      {
        var i :| i in todo;
        PartlyStep(v, todo, i, c, live);
        TriggersStep(triggered, v, todo, i, c, live);
        var notify := Visit(i, c, i in live);
        todo := todo - {i};
        if notify {
          triggered := triggered + multiset{i};
        }
      }
    }
  }

  function WithQuery(v: map<nat, Oids>, qid: nat): map<nat, Oids> {
    if qid in v then v else v[qid := map[]]
  }

  lemma CreatedThenRead(v: map<nat, Oids>, qid: nat, what: Object, gvk: Kind)
    ensures var v1 := WithQuery(v, qid);
            qid in v1 && v1[qid := Step(v1[qid], Reading(what, gvk))] == CacheStep(v, Read(qid, what, gvk))
  {
  }

  /** A broadcast that has yet to visit the queries in `todo`. */
  function Partly(v: map<nat, Oids>, todo: set<nat>, c: Event, live: set<nat>): map<nat, Oids> {
    map i | i in v && (i in todo || i in live) :: if i in todo then v[i] else Step(v[i], c)
  }

  /** Of the queries visited, exactly the live ones the event concerns were triggered, each once. */
  ghost predicate Triggers(triggered: multiset<nat>, v: map<nat, Oids>, todo: set<nat>, c: Event, live: set<nat>) {
    forall i: nat :: triggered[i] == if i in v && i !in todo && i in live && Decision(v[i], c) then 1 else 0
  }

  lemma TriggersStep(triggered: multiset<nat>, v: map<nat, Oids>, todo: set<nat>, i: nat, c: Event, live: set<nat>)
    requires i in todo && i in v && Triggers(triggered, v, todo, c, live)
    ensures var triggered' := if i in live && Decision(v[i], c) then triggered + multiset{i} else triggered;
            Triggers(triggered', v, todo - {i}, c, live)
  {
  }

  lemma PartlyStep(v: map<nat, Oids>, todo: set<nat>, i: nat, c: Event, live: set<nat>)
    requires i in todo && todo <= v.Keys
    ensures i in Partly(v, todo, c, live) && Partly(v, todo, c, live)[i] == v[i]
    ensures Partly(v, todo - {i}, c, live) ==
            if i in live then Partly(v, todo, c, live)[i := Step(v[i], c)] else Partly(v, todo, c, live) - {i}
  {
  }

  // ----- Runs of the cache -----

  /** A read by a live query, or an event with the queries that are live when it is broadcast. */
  datatype CacheOp = Read(qid: nat, what: Object, gvk: Kind) | Change(c: Event, live: set<nat>)

  function CacheStep(qs: map<nat, Oids>, op: CacheOp): map<nat, Oids> {
    match op
    case Read(qid, what, gvk) => qs[qid := Step(if qid in qs then qs[qid] else map[], Reading(what, gvk))]
    case Change(c, live) => map i | i in qs && i in live :: Step(qs[i], c)
  }

  function CacheAfter(ops: seq<CacheOp>): map<nat, Oids> {
    if ops == [] then map[] else CacheStep(CacheAfter(ops[..|ops| - 1]), ops[|ops| - 1])
  }

  // ----- The decision of a broadcast in terms of the run -----

  /** The step does not drop the query. */
  predicate Keeps(op: CacheOp, qid: nat) {
    op.Change? ==> qid in op.live
  }

  /** The query has not been dropped from step `i` on. */
  ghost predicate KeptSince(ops: seq<CacheOp>, qid: nat, i: nat) {
    forall j :: i <= j < |ops| ==> Keeps(ops[j], qid)
  }

  ghost predicate NotDeletedSince(ops: seq<CacheOp>, oid: UID, gvk: Kind, i: nat) {
    forall j :: i <= j < |ops| && ops[j].Change? ==> ops[j].c != OnDelete(oid, gvk)
  }

  /** The query has read something since it was last dropped. */
  ghost predicate HasRead(ops: seq<CacheOp>, qid: nat) {
    exists i :: 0 <= i < |ops| && ops[i].Read? && ops[i].qid == qid && KeptSince(ops, qid, i)
  }

  /** It has listed the kind. */
  ghost predicate HasListed(ops: seq<CacheOp>, qid: nat, gvk: Kind) {
    exists i :: 0 <= i < |ops| && ops[i] == Read(qid, List, gvk) && KeptSince(ops, qid, i)
  }

  /** It has got the object, and no deletion of it was broadcast since. */
  ghost predicate HasGot(ops: seq<CacheOp>, qid: nat, oid: UID, gvk: Kind) {
    exists i :: 0 <= i < |ops| && ops[i] == Read(qid, Single(oid), gvk) &&
                KeptSince(ops, qid, i) && NotDeletedSince(ops, oid, gvk, i)
  }

  lemma HasReadSnoc(ops: seq<CacheOp>, op: CacheOp, qid: nat)
    ensures HasRead(ops + [op], qid) <==> (op.Read? && op.qid == qid) || (HasRead(ops, qid) && Keeps(op, qid))
  {
    var all := ops + [op];
    if op.Read? && op.qid == qid {
      assert all[|ops|] == op && KeptSince(all, qid, |ops|);
    }
    if i :| 0 <= i < |ops| && ops[i].Read? && ops[i].qid == qid && KeptSince(ops, qid, i) && Keeps(op, qid) {
      assert all[i] == ops[i] && KeptSince(all, qid, i);
    }
    if i :| 0 <= i < |all| && all[i].Read? && all[i].qid == qid && KeptSince(all, qid, i) {
      assert Keeps(all[|ops|], qid);
      if i < |ops| { KeptBefore(ops, op, qid, i); }
    }
  }

  /** What is kept over a run is kept over its beginning. */
  lemma KeptBefore(ops: seq<CacheOp>, op: CacheOp, qid: nat, i: nat)
    requires i <= |ops| && KeptSince(ops + [op], qid, i)
    ensures KeptSince(ops, qid, i)
  {
    assert forall j :: i <= j < |ops| ==> ops[j] == (ops + [op])[j];
  }

  lemma HasListedSnoc(ops: seq<CacheOp>, op: CacheOp, qid: nat, gvk: Kind)
    ensures HasListed(ops + [op], qid, gvk) <==>
            op == Read(qid, List, gvk) || (HasListed(ops, qid, gvk) && Keeps(op, qid))
  {
    var all := ops + [op];
    if op == Read(qid, List, gvk) {
      assert all[|ops|] == op && KeptSince(all, qid, |ops|);
    }
    if i :| 0 <= i < |ops| && ops[i] == Read(qid, List, gvk) && KeptSince(ops, qid, i) && Keeps(op, qid) {
      assert all[i] == ops[i] && KeptSince(all, qid, i);
    }
    if i :| 0 <= i < |all| && all[i] == Read(qid, List, gvk) && KeptSince(all, qid, i) {
      assert Keeps(all[|ops|], qid);
      if i < |ops| { KeptBefore(ops, op, qid, i); }
    }
  }

  lemma HasGotSnoc(ops: seq<CacheOp>, op: CacheOp, qid: nat, oid: UID, gvk: Kind)
    ensures HasGot(ops + [op], qid, oid, gvk) <==>
            op == Read(qid, Single(oid), gvk) ||
            (HasGot(ops, qid, oid, gvk) && Keeps(op, qid) && !(op.Change? && op.c == OnDelete(oid, gvk)))
  {
    var all, read := ops + [op], Read(qid, Single(oid), gvk);
    if op == read {
      assert all[|ops|] == op && KeptSince(all, qid, |ops|) && NotDeletedSince(all, oid, gvk, |ops|);
    }
    if i :| 0 <= i < |ops| && ops[i] == read && KeptSince(ops, qid, i) && NotDeletedSince(ops, oid, gvk, i) {
      if Keeps(op, qid) && !(op.Change? && op.c == OnDelete(oid, gvk)) {
        assert all[i] == ops[i] && KeptSince(all, qid, i) && NotDeletedSince(all, oid, gvk, i);
      }
    }
    if i :| 0 <= i < |all| && all[i] == read && KeptSince(all, qid, i) && NotDeletedSince(all, oid, gvk, i) {
      assert Keeps(all[|ops|], qid) && !(op.Change? && all[|ops|].c == OnDelete(oid, gvk));
      if i < |ops| {
        KeptBefore(ops, op, qid, i);
        assert NotDeletedSince(ops, oid, gvk, i) by {
          assert forall j :: i <= j < |ops| ==> ops[j] == all[j];
        }
      }
    }
  }

  lemma ReadEffect(v: map<nat, Oids>, op: CacheOp, qid: nat, oid: UID, gvk: Kind)
    requires op.Read? && op.qid == qid
    ensures var oids, oids' := if qid in v then v[qid] else map[], CacheStep(v, op)[qid];
            && (Lists(oids', gvk) <==> Lists(oids, gvk) || op == Read(qid, List, gvk))
            && (!Lists(oids', gvk) ==>
                  (Has(oids', oid, gvk) <==> op == Read(qid, Single(oid), gvk) || Has(oids, oid, gvk)))
  {
  }

  /** The cache tracks the queries that have read, and their sets say what each has listed and got. */
  lemma {:induction false} CacheMeaning(ops: seq<CacheOp>, qid: nat, oid: UID, gvk: Kind)
    ensures qid in CacheAfter(ops) <==> HasRead(ops, qid)
    ensures var oids := if qid in CacheAfter(ops) then CacheAfter(ops)[qid] else map[];
            && (Lists(oids, gvk) <==> HasListed(ops, qid, gvk))
            && (!HasListed(ops, qid, gvk) ==> (Has(oids, oid, gvk) <==> HasGot(ops, qid, oid, gvk)))
  {
    if ops != [] {
      var pre, op := ops[..|ops| - 1], ops[|ops| - 1];
      assert ops == pre + [op];
      CacheMeaning(pre, qid, oid, gvk);
      HasReadSnoc(pre, op, qid);
      HasListedSnoc(pre, op, qid, gvk);
      HasGotSnoc(pre, op, qid, oid, gvk);
      if op.Read? && op.qid == qid {
        ReadEffect(CacheAfter(pre), op, qid, oid, gvk);
      } else if op.Change? && qid in CacheAfter(pre) {
        StepEffect(CacheAfter(pre)[qid], op.c, oid, gvk);
      }
    }
  }

  /** What a change is to a query: of a list it asked for, or of an object it got. */
  ghost predicate Concerns(ops: seq<CacheOp>, qid: nat, c: Event) {
    HasListed(ops, qid, c.gvk) ||
    match c
    case OnCreate(_, _) => false
    case OnUpdate(o, n, gvk) => HasGot(ops, qid, o, gvk) || HasGot(ops, qid, n, gvk)
    case OnDelete(oid, gvk) => HasGot(ops, qid, oid, gvk)
  }

  /**
   * After any run, a broadcast decides to trigger a query exactly if the
   * change is of a list the query asked for, or of an object it got, since it
   * was last dropped; a created object is never one it got.
   */
  lemma BroadcastAfterRun(ops: seq<CacheOp>, c: Event, qid: nat)
    ensures qid in CacheAfter(ops) <==> HasRead(ops, qid)
    ensures qid in CacheAfter(ops) ==> (Decision(CacheAfter(ops)[qid], c) <==> Concerns(ops, qid, c))
  {
    match c
    case OnCreate(oid, gvk) => CacheMeaning(ops, qid, oid, gvk);
    case OnUpdate(o, n, gvk) =>
      CacheMeaning(ops, qid, o, gvk);
      CacheMeaning(ops, qid, n, gvk);
    case OnDelete(oid, gvk) => CacheMeaning(ops, qid, oid, gvk);
  }
}
