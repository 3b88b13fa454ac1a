/**
 * The cache that spills objects to a database: expired objects are written
 * out and zeroed in memory, and read back when somebody asks for them. Memory
 * is explicit, so that the object in the underlying cache and the copies
 * handed to callers can be told apart.
 */
module BoltCache {
  import opened Wrappers

  type UID = string
  type Ptr = nat
  type Bytes = string
  type Request = nat

  datatype Obj = Obj(uid: UID, name: string, body: string)

  /** Zeroing keeps the UID. */
  function Zeroed(o: Obj): Obj {
    Obj(o.uid, "", "")
  }

  predicate IsZero(o: Obj) {
    o.name == ""
  }

  /** And nothing else. */
  lemma ZeroedKeepsUid(a: Obj, b: Obj)
    ensures IsZero(Zeroed(a)) && Zeroed(a).uid == a.uid
    ensures Zeroed(a) == Zeroed(b) <==> a.uid == b.uid
  {
  }

  /** Marshalling, and unmarshalling into an object. */
  datatype Codec = Codec(marshal: Obj -> Bytes, unmarshal: (Bytes, Obj) -> Obj)

  /** What is written can be read back into the zeroed object. */
  ghost predicate RoundTrips(c: Codec) {
    forall o :: !IsZero(o) ==> c.unmarshal(c.marshal(o), Zeroed(o)) == o
  }

  /**
   * `store` is the underlying cache, `refs` the references the cleaner holds,
   * `readers` the readers of each request between txOnce and done, and `snaps`
   * the shared read transactions that are open, each with the database as it
   * was.
   */
  datatype State = State(mem: map<Ptr, Obj>, store: map<UID, Ptr>, refs: map<UID, Ptr>, db: map<UID, Bytes>,
                         readers: multiset<Request>, snaps: map<Request, map<UID, Bytes>>)

  const INIT := State(map[], map[], map[], map[], multiset{}, map[])

  // ----- Steps -----

  /** Schedule(object): the cleaner takes the new reference unless it skips a repeated deadline. */
  function Scheduled(s: State, p: Ptr, skip: bool): State
    requires p in s.mem
  {
    if skip then s else s.(refs := s.refs[s.mem[p].uid := p])
  }

  /** The underlying cache stores a new object, having scheduled it. */
  function Put(s: State, p: Ptr, o: Obj, skip: bool): State {
    var s' := s.(mem := s.mem[p := o], store := s.store[o.uid := p]);
    Scheduled(s', p, skip)
  }

  /** The references of a batch are to objects of their keys. */
  predicate RefsHold(s: State, us: set<UID>) {
    us <= s.refs.Keys && forall u :: u in us ==> s.refs[u] in s.mem && s.mem[s.refs[u]].uid == u
  }

  function MemCleaned(s: State, us: set<UID>): map<Ptr, Obj>
    requires RefsHold(s, us)
  {
    map p | p in s.mem :: if s.mem[p].uid in us && s.refs[s.mem[p].uid] == p then Zeroed(s.mem[p]) else s.mem[p]
  }

  function DbCleaned(c: Codec, s: State, us: set<UID>): map<UID, Bytes>
    requires RefsHold(s, us)
  {
    map u | u in s.db.Keys + us :: if u in us then c.marshal(s.mem[s.refs[u]]) else s.db[u]
  }

  /** The objects of a batch are written under their UIDs and zeroed, in one transaction. */
  function Cleaned(c: Codec, s: State, us: set<UID>): State
    requires RefsHold(s, us)
  {
    State(MemCleaned(s, us), s.store, s.refs - us, DbCleaned(c, s, us), s.readers, s.snaps)
  }

  predicate Distinct(us: seq<UID>) {
    forall i, j :: 0 <= i < j < |us| ==> us[i] != us[j]
  }

  /** The first i keys of a batch. */
  function Firsts(us: seq<UID>, i: nat): set<UID>
    requires i <= |us|
  {
    set u | u in us[..i]
  }

  lemma OneMoreCleaned(c: Codec, s: State, us: seq<UID>, i: nat)
    requires i < |us| && Distinct(us) && RefsHold(s, Firsts(us, |us|))
    ensures us[i] in s.refs && s.refs[us[i]] in s.mem && s.mem[s.refs[us[i]]].uid == us[i]
    ensures RefsHold(s, Firsts(us, i)) && RefsHold(s, Firsts(us, i + 1))
    ensures var p := s.refs[us[i]];
            && MemCleaned(s, Firsts(us, i))[p] == s.mem[p]
            && MemCleaned(s, Firsts(us, i + 1)) == MemCleaned(s, Firsts(us, i))[p := Zeroed(s.mem[p])]
            && DbCleaned(c, s, Firsts(us, i + 1)) == DbCleaned(c, s, Firsts(us, i))[us[i] := c.marshal(s.mem[p])]
  {
    assert us[i] in us[..|us|];
    assert us[..i + 1] == us[..i] + [us[i]];
    assert us[i] !in us[..i];
    forall u | u in us[..i + 1] ensures u in Firsts(us, |us|) {
      assert u in us[..|us|];
    }
  }

  function View(s: State, req: Option<Request>): map<UID, Bytes> {
    if req.Some? && req.value in s.snaps then s.snaps[req.value] else s.db
  }

  /** What a copy of the object becomes, if the database has it. */
  function Rehydrated(c: Codec, s: State, o: Obj, req: Option<Request>): Obj {
    if IsZero(o) && o.uid in View(s, req) then c.unmarshal(View(s, req)[o.uid], o) else o
  }

  /** A request's transaction begins when a reader of it first meets a zeroed object. */
  function SnapsFor(s: State, o: Obj, req: Option<Request>): map<Request, map<UID, Bytes>> {
    if IsZero(o) && req.Some? && req.value !in s.snaps then s.snaps[req.value := s.db] else s.snaps
  }

  /** The object is copied out, rescheduled, and rehydrated if it is zeroed. */
  function Got(c: Codec, s: State, u: UID, out: Ptr, skip: bool, req: Option<Request>): State
    requires u in s.store && s.store[u] in s.mem
  {
    var o := s.mem[s.store[u]];
    State(s.mem[out := Rehydrated(c, s, o, req)], s.store, if skip then s.refs else s.refs[o.uid := out], s.db,
          s.readers, SnapsFor(s, o, req))
  }

  /** txOnce, and done: the last reader of a request rolls its transaction back. */
  function Entered(s: State, r: Request): State {
    s.(readers := s.readers + multiset{r})
  }

  function Left(s: State, r: Request): State {
    var s' := s.(readers := s.readers - multiset{r});
    if r in s'.readers then s' else s'.(snaps := s.snaps - {r})
  }

  /** What the caller is given; None when the database does not have it. */
  function Answer(c: Codec, s: State, u: UID, req: Option<Request>): Option<Obj>
    requires u in s.store && s.store[u] in s.mem
  {
    var o := s.mem[s.store[u]];
    if !IsZero(o) then Some(o)
    else if o.uid in View(s, req) then Some(c.unmarshal(View(s, req)[o.uid], o))
    else None
  }

  datatype Item = Item(u: UID, out: Ptr, skip: bool)

  /** The items of a list are rehydrated one by one, up to the first that cannot be. */
  ghost function Listed(c: Codec, s: State, items: seq<Item>, req: Option<Request>): Option<seq<Obj>>
    decreases |items|
  {
    if items == [] then Some([])
    else if !(items[0].u in s.store && s.store[items[0].u] in s.mem) then None
    else
      match (Answer(c, s, items[0].u, req),
             Listed(c, Got(c, s, items[0].u, items[0].out, items[0].skip, req), items[1..], req))
      case (Some(o), Some(os)) => Some([o] + os)
      case _ => None
  }

  /** The state in which that leaves the cache. */
  ghost function ListedState(c: Codec, s: State, items: seq<Item>, req: Option<Request>): State
    decreases |items|
  {
    if items == [] || !(items[0].u in s.store && s.store[items[0].u] in s.mem) then s
    else
      var s' := Got(c, s, items[0].u, items[0].out, items[0].skip, req);
      if Answer(c, s, items[0].u, req).None? then s' else ListedState(c, s', items[1..], req)
  }

  function Prepend(objs: seq<Obj>, rest: Option<seq<Obj>>): Option<seq<Obj>> {
    match rest
    case None => None
    case Some(os) => Some(objs + os)
  }

  lemma PrependLaws(objs: seq<Obj>, o: Obj, rest: Option<seq<Obj>>)
    ensures Prepend([], rest) == rest
    ensures Prepend(objs, Prepend([o], rest)) == Prepend(objs + [o], rest)
    ensures Prepend(objs, Some([])) == Some(objs)
  {
    assert objs + [] == objs;
    match rest
    case None =>
    case Some(os) => assert [] + os == os && objs + ([o] + os) == objs + [o] + os;
  }

  class BBoltCache {
    const codec: Codec
    var mem: map<Ptr, Obj>
    var store: map<UID, Ptr>
    var refs: map<UID, Ptr>
    var db: map<UID, Bytes>
    var readers: multiset<Request>
    var snaps: map<Request, map<UID, Bytes>>

    ghost function S(): State
      reads this
    {
      State(mem, store, refs, db, readers, snaps)
    }

    /** One object of a batch: it is written under its UID and zeroed. */
    method Spill(p: Ptr)
      requires p in mem
      modifies this`mem, this`db
      ensures db == old(db)[old(mem)[p].uid := codec.marshal(old(mem)[p])]
      ensures mem == old(mem)[p := Zeroed(old(mem)[p])]
    {
      db := db[mem[p].uid := codec.marshal(mem[p])];
      mem := mem[p := Zeroed(mem[p])];
    }

    /** The loop of one cleanup over the objects the cleaner hands out, each key once. */
    method Cleanup(us: seq<UID>)
      requires RefsHold(S(), Firsts(us, |us|)) && Distinct(us)
      modifies this`mem, this`db, this`refs
      ensures S() == Cleaned(codec, old(S()), Firsts(us, |us|))
    {
      ghost var s := S();
      for i := 0 to |us|
        invariant refs == s.refs && RefsHold(s, Firsts(us, i))
        invariant mem == MemCleaned(s, Firsts(us, i)) && db == DbCleaned(codec, s, Firsts(us, i))
      {
        OneMoreCleaned(codec, s, us, i);
        Spill(refs[us[i]]);
      }
      refs := refs - Firsts(us, |us|);
    }

    /** What txOnce and done do to a shared transaction. */
    method Enter(r: Request)
      modifies this`readers
      ensures S() == Entered(old(S()), r)
    {
      readers := readers + multiset{r};
    }

    method Leave(r: Request)
      requires r in readers
      modifies this`readers, this`snaps
      ensures S() == Left(old(S()), r)
    {
      readers := readers - multiset{r};
      if r !in readers {
        snaps := snaps - {r};
      }
    }

    /** The bucket of the request's transaction, begun if it has to be; without a request, of one of its own. */
    method GetBucket(req: Option<Request>) returns (bucket: map<UID, Bytes>)
      modifies this`snaps
      ensures bucket == View(old(S()), req)
      ensures snaps == if req.Some? && req.value !in old(snaps) then old(snaps)[req.value := db] else old(snaps)
    {
      if req == None {
        return db;
      }
      if req.value !in snaps {
        snaps := snaps[req.value := db];
      }
      return snaps[req.value];
    }

    /** Reschedules the object and fills it in from the database if it is zeroed. */
    method RehydrateObject(out: Ptr, skip: bool, req: Option<Request>) returns (ok: bool)
      requires out in mem
      modifies this`mem, this`refs, this`snaps
      ensures var o := old(mem)[out];
              && mem == old(mem)[out := Rehydrated(codec, old(S()), o, req)]
              && refs == (if skip then old(refs) else old(refs)[o.uid := out])
              && snaps == SnapsFor(old(S()), o, req)
              && snaps == (if IsZero(o) && req.Some? && req.value !in old(snaps) then old(snaps)[req.value := db]
                           else old(snaps))
              && (ok <==> !IsZero(o) || o.uid in View(old(S()), req))
    {
      var o := mem[out];
      if !skip {
        refs := refs[o.uid := out];
      }
      if o.name != "" {
        assert mem == mem[out := o];
        return true;
      }
      var bucket := GetBucket(req);
      if o.uid !in bucket {
        assert mem == mem[out := o];
        return false;
      }
      mem := mem[out := codec.unmarshal(bucket[o.uid], o)];
      return true;
    }

    /** Get, between its txOnce and done: `out` is the caller's object; what the wrapped cache lacks changes nothing. */
    method Get(u: UID, out: Ptr, skip: bool, req: Option<Request>) returns (ok: bool)
      requires u in store ==> store[u] in mem
      modifies this`mem, this`refs, this`snaps
      ensures u !in store ==> !ok && S() == old(S())
      ensures u in store ==>
                && S() == Got(codec, old(S()), u, out, skip, req)
                && (ok <==> Answer(codec, old(S()), u, req).Some?)
                && (ok ==> mem[out] == Answer(codec, old(S()), u, req).value)
    {
      if u !in store {
        return false;
      }
      ghost var was := mem;
      mem := mem[out := mem[store[u]]];
      ok := RehydrateObject(out, skip, req);
      assert mem == was[out := mem[out]];
    }

    /** List: the items of the wrapped cache's list, in its order; an item that cannot be read ends it. */
    method List(items: seq<Item>, req: Option<Request>) returns (ok: bool, objs: seq<Obj>)
      requires forall i :: 0 <= i < |items| ==> items[i].u in store && store[items[i].u] in mem
      modifies this`mem, this`refs, this`snaps
      ensures Listed(codec, old(S()), items, req) == if ok then Some(objs) else None
      ensures S() == ListedState(codec, old(S()), items, req)
    {
      objs := [];
      assert items[0..] == items;
      ghost var zero := Obj("", "", "");
      PrependLaws([], zero, Listed(codec, S(), items, req));
      for i := 0 to |items|
        invariant mem.Keys >= old(mem.Keys)
        invariant Listed(codec, old(S()), items, req) == Prepend(objs, Listed(codec, S(), items[i..], req))
        invariant ListedState(codec, old(S()), items, req) == ListedState(codec, S(), items[i..], req)
      {
        var x := items[i];
        assert items[i..][0] == x && items[i..][1..] == items[i + 1..];
        ok := Get(x.u, x.out, x.skip, req);
        if !ok {
          return;
        }
        PrependLaws(objs, mem[x.out], Listed(codec, S(), items[i + 1..], req));
        objs := objs + [mem[x.out]];
      }
      PrependLaws(objs, zero, None);
      ok := true;
    }
  }
}
