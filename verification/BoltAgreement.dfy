/**
 * When the spill-to-disk cache agrees with the cache it wraps: what its
 * operations keep, over which runs nothing is lost, and what a cleanup empties.
 */
module BoltAgreement {
  import opened Wrappers
  import opened BoltCache

  /** The stored object is the last one put, or is zeroed and written out. */
  ghost predicate StoredAgrees(c: Codec, s: State, u: UID, o: Obj) {
    && u in s.store && s.store[u] in s.mem && o.uid == u && !IsZero(o)
    && (s.mem[s.store[u]] == o ||
        (s.mem[s.store[u]] == Zeroed(o) && u in s.db && s.db[u] == c.marshal(o)))
  }

  /** A reference is to a whole object of its key, which is current if the stored one is zeroed. */
  ghost predicate RefAgrees(s: State, last: map<UID, Obj>, u: UID)
    requires u in s.refs
  {
    var p := s.refs[u];
    && p in s.mem && s.mem[p].uid == u && !IsZero(s.mem[p])
    && (u in last && u in s.store && s.store[u] in s.mem && IsZero(s.mem[s.store[u]]) ==> s.mem[p] == last[u])
  }

  ghost predicate Written(c: Codec, u: UID, v: Bytes) {
    exists o: Obj :: o.uid == u && !IsZero(o) && v == c.marshal(o)
  }

  /** Every value in the database and its snapshots is a whole object written under its UID. */
  ghost predicate AllWritten(c: Codec, s: State) {
    && (forall u :: u in s.db ==> Written(c, u, s.db[u]))
    && (forall r, u :: r in s.snaps && u in s.snaps[r] ==> Written(c, u, s.snaps[r][u]))
  }

  ghost predicate Inv(c: Codec, s: State, last: map<UID, Obj>) {
    && s.store.Keys == last.Keys
    && (forall u :: u in last ==> StoredAgrees(c, s, u, last[u]))
    && (forall u :: u in s.refs ==> RefAgrees(s, last, u))
    && AllWritten(c, s)
  }

  // ----- When a read agrees -----

  /** The object is whole in memory, or the transaction read from has what was last written. */
  predicate FreshRead(s: State, u: UID, req: Option<Request>)
    requires u in s.store && s.store[u] in s.mem
  {
    !IsZero(s.mem[s.store[u]]) || (u in View(s, req) && u in s.db && View(s, req)[u] == s.db[u])
  }

  /** A read gives the object last put exactly if it is fresh. */
  lemma ReadAgreesIff(c: Codec, s: State, last: map<UID, Obj>, u: UID, req: Option<Request>)
    requires RoundTrips(c) && Inv(c, s, last) && u in last
    ensures StoredAgrees(c, s, u, last[u])
    ensures Answer(c, s, u, req) == Some(last[u]) <==> FreshRead(s, u, req)
  {
    assert StoredAgrees(c, s, u, last[u]);
    if IsZero(s.mem[s.store[u]]) && u in View(s, req) {
      assert c.unmarshal(c.marshal(last[u]), Zeroed(last[u])) == last[u];
      assert Written(c, u, View(s, req)[u]);
      var o: Obj :| o.uid == u && !IsZero(o) && View(s, req)[u] == c.marshal(o);
      assert Zeroed(o) == Zeroed(last[u]) && c.unmarshal(c.marshal(o), Zeroed(o)) == o;
    }
  }

  // ----- Steps keep agreement -----

  lemma PutKeeps(c: Codec, s: State, last: map<UID, Obj>, p: Ptr, o: Obj, skip: bool)
    requires Inv(c, s, last) && p !in s.mem && !IsZero(o)
    ensures Inv(c, Put(s, p, o, skip), last[o.uid := o])
  {
    var s', last' := Put(s, p, o, skip), last[o.uid := o];
    forall u | u in last' ensures StoredAgrees(c, s', u, last'[u]) {
      if u != o.uid { assert StoredAgrees(c, s, u, last[u]); }
    }
    forall u | u in s'.refs ensures RefAgrees(s', last', u) {
      PutKeepsRef(c, s, last, p, o, skip, u);
    }
  }

  lemma PutKeepsRef(c: Codec, s: State, last: map<UID, Obj>, p: Ptr, o: Obj, skip: bool, u: UID)
    requires Inv(c, s, last) && p !in s.mem && !IsZero(o) && u in Put(s, p, o, skip).refs
    ensures RefAgrees(Put(s, p, o, skip), last[o.uid := o], u)
  {
    if u in s.refs { assert RefAgrees(s, last, u); }
    if u in last { assert StoredAgrees(c, s, u, last[u]); }
  }

  lemma CleanedKeeps(c: Codec, s: State, last: map<UID, Obj>, us: set<UID>)
    requires Inv(c, s, last) && us <= s.refs.Keys
    ensures RefsHold(s, us)
    ensures Inv(c, Cleaned(c, s, us), last)
  {
    forall u | u in us ensures s.refs[u] in s.mem && s.mem[s.refs[u]].uid == u {
      assert RefAgrees(s, last, u);
    }
    forall u | u in last ensures StoredAgrees(c, Cleaned(c, s, us), u, last[u]) {
      CleanedKeepsStored(c, s, last, us, u);
    }
    forall u | u in s.refs - us ensures RefAgrees(Cleaned(c, s, us), last, u) {
      CleanedKeepsRef(c, s, last, us, u);
    }
    CleanedAllWritten(c, s, last, us);
  }

  lemma CleanedKeepsStored(c: Codec, s: State, last: map<UID, Obj>, us: set<UID>, u: UID)
    requires Inv(c, s, last) && RefsHold(s, us) && u in last
    ensures StoredAgrees(c, Cleaned(c, s, us), u, last[u])
  {
    assert StoredAgrees(c, s, u, last[u]);
    if u in us { assert RefAgrees(s, last, u); }
  }

  lemma CleanedKeepsRef(c: Codec, s: State, last: map<UID, Obj>, us: set<UID>, u: UID)
    requires Inv(c, s, last) && RefsHold(s, us) && u in s.refs - us
    ensures RefAgrees(Cleaned(c, s, us), last, u)
  {
    assert RefAgrees(s, last, u);
    if u in last { assert StoredAgrees(c, s, u, last[u]); }
  }

  lemma CleanedAllWritten(c: Codec, s: State, last: map<UID, Obj>, us: set<UID>)
    requires Inv(c, s, last) && RefsHold(s, us)
    ensures AllWritten(c, Cleaned(c, s, us))
  {
    var s' := Cleaned(c, s, us);
    forall u | u in s'.db ensures Written(c, u, s'.db[u]) {
      if u in us {
        assert RefAgrees(s, last, u);
        var o := s.mem[s.refs[u]];
        assert o.uid == u && !IsZero(o) && s'.db[u] == c.marshal(o);
      } else {
        assert Written(c, u, s.db[u]);
      }
    }
  }

  /** A read harms nothing if the cleaner does not take its result, or if it is fresh. */
  predicate Sound(s: State, u: UID, skip: bool, req: Option<Request>)
    requires u in s.store && s.store[u] in s.mem
  {
    skip || FreshRead(s, u, req)
  }

  lemma GotKeeps(c: Codec, s: State, last: map<UID, Obj>, u: UID, out: Ptr, skip: bool, req: Option<Request>)
    requires RoundTrips(c) && Inv(c, s, last) && u in last && out !in s.mem
    requires u in s.store && s.store[u] in s.mem && Sound(s, u, skip, req)
    ensures Inv(c, Got(c, s, u, out, skip, req), last)
    ensures FreshRead(s, u, req) ==> Got(c, s, u, out, skip, req).mem[out] == last[u]
  {
    ReadAgreesIff(c, s, last, u, req);
    var s' := Got(c, s, u, out, skip, req);
    assert FreshRead(s, u, req) ==> s'.mem[out] == last[u];
    forall v | v in last ensures StoredAgrees(c, s', v, last[v]) {
      GotKeepsStored(c, s, last, u, out, skip, req, v);
    }
    forall v | v in s'.refs ensures RefAgrees(s', last, v) {
      GotKeepsRef(c, s, last, u, out, skip, req, v);
    }
  }

  lemma GotKeepsStored(c: Codec, s: State, last: map<UID, Obj>, u: UID, out: Ptr, skip: bool, req: Option<Request>,
                       v: UID)
    requires Inv(c, s, last) && u in last && v in last && out !in s.mem && u in s.store && s.store[u] in s.mem
    ensures StoredAgrees(c, Got(c, s, u, out, skip, req), v, last[v])
  {
    assert StoredAgrees(c, s, v, last[v]);
  }

  lemma GotKeepsRef(c: Codec, s: State, last: map<UID, Obj>, u: UID, out: Ptr, skip: bool, req: Option<Request>, v: UID)
    requires Inv(c, s, last) && u in last && out !in s.mem && u in s.store && s.store[u] in s.mem
    requires !skip ==> Got(c, s, u, out, skip, req).mem[out] == last[u]
    requires v in Got(c, s, u, out, skip, req).refs
    ensures RefAgrees(Got(c, s, u, out, skip, req), last, v)
  {
    assert StoredAgrees(c, s, u, last[u]);
    if v in s.refs { assert RefAgrees(s, last, v); }
    if v in last { assert StoredAgrees(c, s, v, last[v]); }
  }

  /** What an unsound read leaves in the result the cleaner now refers to. */
  lemma UnsoundResult(c: Codec, s: State, last: map<UID, Obj>, u: UID, out: Ptr, skip: bool, req: Option<Request>)
    requires RoundTrips(c) && Inv(c, s, last) && u in last && out !in s.mem
    requires u in s.store && s.store[u] in s.mem && !Sound(s, u, skip, req)
    ensures var s' := Got(c, s, u, out, skip, req);
            && u in s'.refs && s'.refs[u] == out && s'.mem[s'.store[u]] == Zeroed(last[u])
            && s'.mem[out].uid == u && s'.mem[out] != last[u]
            && (s'.mem[out] == Zeroed(last[u]) || !IsZero(s'.mem[out]))
  {
    assert StoredAgrees(c, s, u, last[u]);
    if u in View(s, req) {
      assert Written(c, u, View(s, req)[u]);
      var o: Obj :| o.uid == u && !IsZero(o) && View(s, req)[u] == c.marshal(o);
      assert Zeroed(o) == Zeroed(last[u]) && c.unmarshal(c.marshal(o), Zeroed(o)) == o;
    }
  }

  /** A read keeps agreement exactly if it is sound. */
  lemma ReadKeepsIff(c: Codec, s: State, last: map<UID, Obj>, u: UID, out: Ptr, skip: bool, req: Option<Request>)
    requires RoundTrips(c) && Inv(c, s, last) && u in last && out !in s.mem
    ensures u in s.store && s.store[u] in s.mem
    ensures Inv(c, Got(c, s, u, out, skip, req), last) <==> Sound(s, u, skip, req)
  {
    assert StoredAgrees(c, s, u, last[u]);
    if Sound(s, u, skip, req) {
      GotKeeps(c, s, last, u, out, skip, req);
    } else {
      UnsoundResult(c, s, last, u, out, skip, req);
      assert !RefAgrees(Got(c, s, u, out, skip, req), last, u);
    }
  }

  /** What is written of an object without a name has no name when it is read back. */
  ghost predicate NamelessStays(c: Codec) {
    forall o :: IsZero(c.unmarshal(c.marshal(Zeroed(o)), Zeroed(o)))
  }

  /** After an unsound read the next cleanup writes its result over the object, which is then lost to every reader. */
  lemma UnsoundReadLoses(c: Codec, s: State, last: map<UID, Obj>, u: UID, out: Ptr, skip: bool, req: Option<Request>)
    requires RoundTrips(c) && NamelessStays(c) && Inv(c, s, last) && u in last && out !in s.mem
    requires u in s.store && s.store[u] in s.mem && !Sound(s, u, skip, req)
    ensures var s' := Got(c, s, u, out, skip, req);
            && u in s'.store && RefsHold(s', {u})
            && u in Cleaned(c, s', {u}).db && Cleaned(c, s', {u}).db[u] == c.marshal(s'.mem[out])
            && s'.store[u] in Cleaned(c, s', {u}).mem
            && Answer(c, Cleaned(c, s', {u}), u, None) != Some(last[u])
  {
    UnsoundResult(c, s, last, u, out, skip, req);
    assert StoredAgrees(c, s, u, last[u]);
    var s' := Got(c, s, u, out, skip, req);
    var o := s'.mem[out];
    var s2 := Cleaned(c, s', {u});
    assert s'.store[u] != out && s2.mem[s'.store[u]] == Zeroed(last[u]);
    if IsZero(o) {
      assert IsZero(c.unmarshal(c.marshal(Zeroed(last[u])), Zeroed(last[u])));
    } else {
      assert Zeroed(o) == Zeroed(last[u]) && c.unmarshal(c.marshal(o), Zeroed(o)) == o;
    }
  }

  // ----- Runs -----

  datatype Step =
    | PutObject(p: Ptr, o: Obj, skip: bool)  // the informer stores an object
    | Forget(u: UID)                         // the informer drops it
    | Clean(us: set<UID>)                    // a cleanup commits
    | Read(u: UID, out: Ptr, skip: bool, req: Option<Request>)
    | Enter(r: Request)                      // a reader of the request calls txOnce
    | Leave(r: Request)                      // and done

  /** New objects and results are new memory, objects have names, and who reads for a request is one of its readers. */
  ghost predicate Enabled(s: State, e: Step) {
    match e
    case PutObject(p, o, _) => p !in s.mem && !IsZero(o)
    case Forget(u) => u in s.store
    case Clean(us) => RefsHold(s, us)
    case Read(u, out, _, req) =>
      u in s.store && s.store[u] in s.mem && out !in s.mem && (req.Some? ==> req.value in s.readers)
    case Enter(r) => true
    case Leave(r) => r in s.readers
  }

  ghost function Next(c: Codec, s: State, e: Step): State
    requires Enabled(s, e)
  {
    match e
    case PutObject(p, o, skip) => Put(s, p, o, skip)
    case Forget(u) => s.(store := s.store - {u})
    case Clean(us) => Cleaned(c, s, us)
    case Read(u, out, skip, req) => Got(c, s, u, out, skip, req)
    case Enter(r) => Entered(s, r)
    case Leave(r) => Left(s, r)
  }

  function LastStep(last: map<UID, Obj>, e: Step): map<UID, Obj> {
    match e
    case PutObject(_, o, _) => last[o.uid := o]
    case Forget(u) => last - {u}
    case _ => last
  }

  ghost predicate IsRun(c: Codec, steps: seq<Step>)
    decreases |steps|, 0
  {
    steps == [] ||
    (IsRun(c, steps[..|steps| - 1]) && Enabled(After(c, steps[..|steps| - 1]), steps[|steps| - 1]))
  }

  ghost function After(c: Codec, steps: seq<Step>): State
    requires IsRun(c, steps)
    decreases |steps|, 1
  {
    if steps == [] then INIT else Next(c, After(c, steps[..|steps| - 1]), steps[|steps| - 1])
  }

  function Last(steps: seq<Step>): map<UID, Obj> {
    if steps == [] then map[] else LastStep(Last(steps[..|steps| - 1]), steps[|steps| - 1])
  }

  ghost predicate SoundStep(s: State, e: Step)
    requires Enabled(s, e)
  {
    e.Read? ==> Sound(s, e.u, e.skip, e.req)
  }

  ghost predicate AllSound(c: Codec, steps: seq<Step>)
    requires IsRun(c, steps)
    decreases |steps|
  {
    steps == [] ||
    (AllSound(c, steps[..|steps| - 1]) && SoundStep(After(c, steps[..|steps| - 1]), steps[|steps| - 1]))
  }

  lemma StepKeeps(c: Codec, s: State, last: map<UID, Obj>, e: Step)
    requires RoundTrips(c) && Inv(c, s, last) && Enabled(s, e) && SoundStep(s, e)
    ensures Inv(c, Next(c, s, e), LastStep(last, e))
  {
    match e
    case PutObject(p, o, skip) => PutKeeps(c, s, last, p, o, skip);
    case Clean(us) => CleanedKeeps(c, s, last, us);
    case Read(u, out, skip, req) => GotKeeps(c, s, last, u, out, skip, req);
    case Forget(u) => ForgetKeeps(c, s, last, u);
    case Enter(r) => FewerSnapsKeep(c, s, last, Entered(s, r));
    case Leave(r) => FewerSnapsKeep(c, s, last, Left(s, r));
  }

  lemma ForgetKeeps(c: Codec, s: State, last: map<UID, Obj>, v: UID)
    requires Inv(c, s, last) && v in s.store
    ensures Inv(c, s.(store := s.store - {v}), last - {v})
  {
    var s' := s.(store := s.store - {v});
    forall u | u in last - {v} ensures StoredAgrees(c, s', u, last[u]) {
      assert StoredAgrees(c, s, u, last[u]);
    }
    forall u | u in s.refs ensures RefAgrees(s', last - {v}, u) {
      assert RefAgrees(s, last, u);
    }
  }

  lemma FewerSnapsKeep(c: Codec, s: State, last: map<UID, Obj>, s': State)
    requires Inv(c, s, last) && s'.mem == s.mem && s'.store == s.store && s'.refs == s.refs && s'.db == s.db
    requires forall r :: r in s'.snaps ==> r in s.snaps && s'.snaps[r] == s.snaps[r]
    ensures Inv(c, s', last)
  {
    forall u | u in last ensures StoredAgrees(c, s', u, last[u]) {
      assert StoredAgrees(c, s, u, last[u]);
    }
    forall u | u in s.refs ensures RefAgrees(s', last, u) {
      assert RefAgrees(s, last, u);
    }
  }

  lemma {:induction false} RunKeeps(c: Codec, steps: seq<Step>)
    requires RoundTrips(c) && IsRun(c, steps) && AllSound(c, steps)
    ensures Inv(c, After(c, steps), Last(steps))
    decreases |steps|
  {
    if steps != [] {
      RunKeeps(c, steps[..|steps| - 1]);
      StepKeeps(c, After(c, steps[..|steps| - 1]), Last(steps[..|steps| - 1]), steps[|steps| - 1]);
    }
  }

  /** No cleanup commits while a shared read transaction is open. */
  ghost predicate NoCleanupWhileOpen(c: Codec, steps: seq<Step>)
    requires IsRun(c, steps)
    decreases |steps|
  {
    steps == [] ||
    (NoCleanupWhileOpen(c, steps[..|steps| - 1]) &&
     (steps[|steps| - 1].Clean? ==> After(c, steps[..|steps| - 1]).snaps == map[]))
  }

  lemma {:induction false} SnapshotsCurrent(c: Codec, steps: seq<Step>)
    requires RoundTrips(c) && IsRun(c, steps) && NoCleanupWhileOpen(c, steps)
    ensures AllSound(c, steps)
    ensures forall r :: r in After(c, steps).snaps ==> After(c, steps).snaps[r] == After(c, steps).db
    decreases |steps|
  {
    if steps != [] {
      var pre, e := steps[..|steps| - 1], steps[|steps| - 1];
      SnapshotsCurrent(c, pre);
      RunKeeps(c, pre);
      StepCurrent(c, After(c, pre), Last(pre), e);
    }
  }

  lemma StepCurrent(c: Codec, s: State, last: map<UID, Obj>, e: Step)
    requires Inv(c, s, last) && Enabled(s, e) && (e.Clean? ==> s.snaps == map[])
    requires forall r :: r in s.snaps ==> s.snaps[r] == s.db
    ensures SoundStep(s, e)
    ensures forall r :: r in Next(c, s, e).snaps ==> Next(c, s, e).snaps[r] == Next(c, s, e).db
  {
    if e.Read? {
      assert StoredAgrees(c, s, e.u, last[e.u]);
    }
  }

  /**
   * The cache agrees with the one it wraps: after every run in which no
   * cleanup commits while a shared read transaction is open, whatever is read
   * is the object last put for its UID.
   */
  lemma CacheAgrees(c: Codec, steps: seq<Step>, u: UID, req: Option<Request>)
    requires RoundTrips(c) && IsRun(c, steps) && NoCleanupWhileOpen(c, steps)
    ensures var s := After(c, steps);
            && s.store.Keys == Last(steps).Keys
            && (u in s.store ==> s.store[u] in s.mem && Answer(c, s, u, req) == Some(Last(steps)[u]))
  {
    SnapshotsCurrent(c, steps);
    RunKeeps(c, steps);
    if u in Last(steps) {
      var s := After(c, steps);
      assert StoredAgrees(c, s, u, Last(steps)[u]);
      ReadAgreesIff(c, s, Last(steps), u, req);
    }
  }

  ghost predicate SnapsRead(s: State) {
    forall r :: r in s.snaps ==> r in s.readers
  }

  lemma StepSnapsRead(c: Codec, s: State, e: Step)
    requires SnapsRead(s) && Enabled(s, e)
    ensures SnapsRead(Next(c, s, e))
  {
  }

  /** A transaction is open only while a reader of its request is in flight. */
  lemma {:induction false} SnapshotsHaveReaders(c: Codec, steps: seq<Step>)
    requires IsRun(c, steps)
    ensures SnapsRead(After(c, steps))
    decreases |steps|
  {
    if steps != [] {
      SnapshotsHaveReaders(c, steps[..|steps| - 1]);
      StepSnapsRead(c, After(c, steps[..|steps| - 1]), steps[|steps| - 1]);
    }
  }

  /** The step is a read for request `r` of an object that is zeroed. */
  predicate NeedsBucket(s: State, e: Step, r: Request)
    requires Enabled(s, e)
  {
    e.Read? && e.req == Some(r) && IsZero(s.mem[s.store[e.u]])
  }

  /** What becomes of the readers and the transaction of one request. */
  ghost predicate Lives(s: State, s': State, needed: bool, enters: bool, leaves: bool, r: Request) {
    && (r in s'.snaps <==> (r in s.snaps || needed) && !(leaves && s.readers[r] == 1))
    && (r in s'.snaps ==> s'.snaps[r] == if r in s.snaps then s.snaps[r] else s.db)
    && s'.readers[r] + (if leaves then 1 else 0) == s.readers[r] + (if enters then 1 else 0)
  }

  /**
   * The life of a shared transaction: it begins with the first read of a
   * zeroed object for its request, sees the database as it was then, and ends
   * when the last reader of the request leaves.
   */
  lemma TransactionLife(c: Codec, s: State, e: Step, r: Request)
    requires SnapsRead(s) && Enabled(s, e)
    ensures Lives(s, Next(c, s, e), NeedsBucket(s, e, r), e == Enter(r), e == Leave(r), r)
  {
    match e
    case Read(u, out, skip, req) => ReadLife(c, s, u, out, skip, req, r);
    case Leave(q) => LeaveLife(s, q, r);
    case _ =>
  }

  lemma ReadLife(c: Codec, s: State, u: UID, out: Ptr, skip: bool, req: Option<Request>, r: Request)
    requires u in s.store && s.store[u] in s.mem
    ensures Lives(s, Got(c, s, u, out, skip, req), req == Some(r) && IsZero(s.mem[s.store[u]]), false, false, r)
  {
  }

  lemma LeaveLife(s: State, q: Request, r: Request)
    requires SnapsRead(s) && q in s.readers
    ensures Lives(s, Left(s, q), false, false, q == r, r)
  {
  }

  /** Every reader of a request, and so its transaction, ends before a cleanup commits. */
  ghost predicate NoReaderAcrossCleanup(c: Codec, steps: seq<Step>)
    requires IsRun(c, steps)
    decreases |steps|
  {
    steps == [] ||
    (NoReaderAcrossCleanup(c, steps[..|steps| - 1]) &&
     (steps[|steps| - 1].Clean? ==> After(c, steps[..|steps| - 1]).readers == multiset{}))
  }

  /** In terms of readers alone: if none is in flight across a cleanup, no transaction is open across one. */
  lemma {:induction false} NoReaderNoSnapshot(c: Codec, steps: seq<Step>)
    requires IsRun(c, steps) && NoReaderAcrossCleanup(c, steps)
    ensures NoCleanupWhileOpen(c, steps)
    decreases |steps|
  {
    if steps != [] {
      var pre := steps[..|steps| - 1];
      NoReaderNoSnapshot(c, pre);
      SnapshotsHaveReaders(c, pre);
    }
  }

  // ----- Exactly which runs lose nothing -----

  /** Whatever the next cleanup takes, a new reader is given the object last put. */
  ghost predicate Recoverable(c: Codec, steps: seq<Step>, us: set<UID>, u: UID)
    requires IsRun(c, steps) && RefsHold(After(c, steps), us) && u in Last(steps)
  {
    var s := Cleaned(c, After(c, steps), us);
    u in s.store && s.store[u] in s.mem && Answer(c, s, u, None) == Some(Last(steps)[u])
  }

  ghost predicate NothingLost(c: Codec, steps: seq<Step>)
    requires IsRun(c, steps)
  {
    forall us, u :: RefsHold(After(c, steps), us) && u in Last(steps) ==> Recoverable(c, steps, us, u)
  }

  lemma SoundLosesNothing(c: Codec, steps: seq<Step>)
    requires RoundTrips(c) && IsRun(c, steps) && AllSound(c, steps)
    ensures NothingLost(c, steps)
  {
    RunKeeps(c, steps);
    forall us, u | RefsHold(After(c, steps), us) && u in Last(steps) ensures Recoverable(c, steps, us, u) {
      CleanedKeeps(c, After(c, steps), Last(steps), us);
      var s := Cleaned(c, After(c, steps), us);
      assert StoredAgrees(c, s, u, Last(steps)[u]);
      ReadAgreesIff(c, s, Last(steps), u, None);
    }
  }

  lemma UnsoundLoses(c: Codec, pre: seq<Step>, e: Step)
    requires RoundTrips(c) && NamelessStays(c) && IsRun(c, pre) && AllSound(c, pre)
    requires Enabled(After(c, pre), e) && !SoundStep(After(c, pre), e)
    ensures IsRun(c, pre + [e]) && !NothingLost(c, pre + [e])
  {
    RunKeeps(c, pre);
    RunSnoc(c, pre, e);
    assert (pre + [e])[..|pre|] == pre;
    assert e.u in Last(pre + [e]);
    UnsoundReadLoses(c, After(c, pre), Last(pre), e.u, e.out, e.skip, e.req);
    assert !Recoverable(c, pre + [e], {e.u}, e.u);
  }

  /** Nothing is lost at the start or after any step of the run. */
  ghost predicate LosesNowhere(c: Codec, steps: seq<Step>)
    requires IsRun(c, steps)
    decreases |steps|
  {
    NothingLost(c, steps) && (steps == [] || LosesNowhere(c, steps[..|steps| - 1]))
  }

  /**
   * In every run, with whatever transactions open: nothing is lost anywhere
   * exactly if every read whose result the cleaner took was fresh.
   */
  lemma {:induction false} NothingLostIff(c: Codec, steps: seq<Step>)
    requires RoundTrips(c) && NamelessStays(c) && IsRun(c, steps)
    ensures AllSound(c, steps) <==> LosesNowhere(c, steps)
    decreases |steps|
  {
    if AllSound(c, steps) {
      SoundLosesNothing(c, steps);
    }
    if steps != [] {
      var pre, e := steps[..|steps| - 1], steps[|steps| - 1];
      NothingLostIff(c, pre);
      if AllSound(c, pre) && !AllSound(c, steps) {
        UnsoundLoses(c, pre, e);
        assert pre + [e] == steps;
      }
    }
  }

  // ----- What a cleanup empties -----

  /** Pointers are to memory, and stored objects keep their UIDs. */
  ghost predicate PointersHold(s: State) {
    && (forall u :: u in s.store ==> s.store[u] in s.mem && s.mem[s.store[u]].uid == u)
    && (forall u :: u in s.refs ==> s.refs[u] in s.mem)
  }

  /** The cleaner refers to the stored object itself. */
  predicate Hooked(s: State, u: UID) {
    u in s.store && u in s.refs && s.refs[u] == s.store[u]
  }

  /**
   * The object was put, its deadline was not skipped, and since then it was
   * neither cleaned nor read by a caller whose result the cleaner took.
   */
  function PutAndUntouched(steps: seq<Step>, u: UID): bool {
    steps != [] &&
    match steps[|steps| - 1]
    case PutObject(_, o, skip) => if o.uid == u then !skip else PutAndUntouched(steps[..|steps| - 1], u)
    case Forget(v) => v != u && PutAndUntouched(steps[..|steps| - 1], u)
    case Clean(us) => u !in us && PutAndUntouched(steps[..|steps| - 1], u)
    case Read(v, _, skip, _) => (v != u || skip) && PutAndUntouched(steps[..|steps| - 1], u)
    case _ => PutAndUntouched(steps[..|steps| - 1], u)
  }

  lemma StepPointers(c: Codec, s: State, e: Step)
    requires PointersHold(s) && Enabled(s, e)
    ensures PointersHold(Next(c, s, e))
  {
    match e
    case Clean(us) => CleanedPointers(c, s, us);
    case _ =>
  }

  lemma CleanedPointers(c: Codec, s: State, us: set<UID>)
    requires PointersHold(s) && RefsHold(s, us)
    ensures PointersHold(Cleaned(c, s, us))
  {
    assert MemCleaned(s, us).Keys == s.mem.Keys;
  }

  lemma StepHooked(c: Codec, s: State, e: Step, u: UID)
    requires PointersHold(s) && Enabled(s, e)
    ensures Hooked(Next(c, s, e), u) <==>
              match e
              case PutObject(_, o, skip) => if o.uid == u then !skip else Hooked(s, u)
              case Forget(v) => v != u && Hooked(s, u)
              case Clean(us) => u !in us && Hooked(s, u)
              case Read(v, _, skip, _) => (v != u || skip) && Hooked(s, u)
              case _ => Hooked(s, u)
  {
  }

  lemma {:induction false} HookedIff(c: Codec, steps: seq<Step>, u: UID)
    requires IsRun(c, steps)
    ensures PointersHold(After(c, steps))
    ensures Hooked(After(c, steps), u) <==> PutAndUntouched(steps, u)
    decreases |steps|
  {
    if steps != [] {
      HookedIff(c, steps[..|steps| - 1], u);
      StepPointers(c, After(c, steps[..|steps| - 1]), steps[|steps| - 1]);
      StepHooked(c, After(c, steps[..|steps| - 1]), steps[|steps| - 1], u);
    }
  }

  /** The step hands the cleaner the reference `p` for `u`: an object put, or the result of a read. */
  predicate Hands(e: Step, u: UID, p: Ptr) {
    match e
    case PutObject(q, o, skip) => q == p && o.uid == u && !skip
    case Read(v, out, skip, _) => v == u && out == p && !skip
    case _ => false
  }

  lemma OlderReference(c: Codec, s: State, e: Step, u: UID)
    requires PointersHold(s) && Enabled(s, e) && u in Next(c, s, e).refs && !Hands(e, u, Next(c, s, e).refs[u])
    ensures u in s.refs && s.refs[u] == Next(c, s, e).refs[u]
  {
  }

  lemma {:induction false} ReferencesWereHanded(c: Codec, steps: seq<Step>, u: UID)
    requires IsRun(c, steps) && u in After(c, steps).refs
    ensures exists i :: 0 <= i < |steps| && Hands(steps[i], u, After(c, steps).refs[u])
    decreases |steps|
  {
    var pre, e := steps[..|steps| - 1], steps[|steps| - 1];
    HookedIff(c, pre, u);
    if Hands(e, u, After(c, steps).refs[u]) {
      assert Hands(steps[|steps| - 1], u, After(c, steps).refs[u]);
    } else {
      OlderReference(c, After(c, pre), e, u);
      ReferencesWereHanded(c, pre, u);
      var i :| 0 <= i < |pre| && Hands(pre[i], u, After(c, pre).refs[u]);
      assert Hands(steps[i], u, After(c, steps).refs[u]);
    }
  }

  /** What was last handed to the cleaner for the key, and not cleaned since. */
  function LastHanded(steps: seq<Step>, u: UID): Option<Ptr> {
    if steps == [] then None
    else
      match steps[|steps| - 1]
      case PutObject(p, o, skip) => if o.uid == u && !skip then Some(p) else LastHanded(steps[..|steps| - 1], u)
      case Read(v, out, skip, _) => if v == u && !skip then Some(out) else LastHanded(steps[..|steps| - 1], u)
      case Clean(us) => if u in us then None else LastHanded(steps[..|steps| - 1], u)
      case _ => LastHanded(steps[..|steps| - 1], u)
  }

  function Reference(refs: map<UID, Ptr>, u: UID): Option<Ptr> {
    if u in refs then Some(refs[u]) else None
  }

  lemma StepReference(c: Codec, s: State, e: Step, u: UID)
    requires PointersHold(s) && Enabled(s, e)
    ensures Reference(Next(c, s, e).refs, u) ==
              match e
              case PutObject(p, o, skip) => if o.uid == u && !skip then Some(p) else Reference(s.refs, u)
              case Read(v, out, skip, _) => if v == u && !skip then Some(out) else Reference(s.refs, u)
              case Clean(us) => if u in us then None else Reference(s.refs, u)
              case _ => Reference(s.refs, u)
  {
  }

  /** After every run the cleaner refers to what it was last handed. */
  lemma {:induction false} ReferenceIsLastHanded(c: Codec, steps: seq<Step>, u: UID)
    requires IsRun(c, steps)
    ensures Reference(After(c, steps).refs, u) == LastHanded(steps, u)
    decreases |steps|
  {
    if steps != [] {
      HookedIff(c, steps[..|steps| - 1], u);
      ReferenceIsLastHanded(c, steps[..|steps| - 1], u);
      StepReference(c, After(c, steps[..|steps| - 1]), steps[|steps| - 1], u);
    }
  }

  /**
   * After every run: a cleanup of an object's key empties the stored object
   * exactly if it was put and not read since; otherwise it empties what else
   * the cleaner was handed for the key, the result of a read or an object put
   * earlier, and the stored object stays as it is in memory.
   */
  lemma CleanupEmptiesIff(c: Codec, steps: seq<Step>, us: set<UID>, u: UID)
    requires IsRun(c, steps) && RefsHold(After(c, steps), us) && u in us && u in After(c, steps).store
    ensures var s := After(c, steps);
            var s' := Cleaned(c, s, us);
            && s.store[u] in s.mem && s'.mem[s.refs[u]] == Zeroed(s.mem[s.refs[u]])
            && (s.refs[u] == s.store[u] <==> PutAndUntouched(steps, u))
            && s'.mem[s.store[u]] ==
               (if PutAndUntouched(steps, u) then Zeroed(s.mem[s.store[u]]) else s.mem[s.store[u]])
    ensures exists i :: 0 <= i < |steps| && Hands(steps[i], u, After(c, steps).refs[u])
  {
    HookedIff(c, steps, u);
    ReferencesWereHanded(c, steps, u);
  }

  /** A read that needs the database finds the bucket, and its object in it: cleanups are atomic here. */
  lemma BucketIsThere(c: Codec, steps: seq<Step>, u: UID)
    requires RoundTrips(c) && IsRun(c, steps) && AllSound(c, steps) && u in After(c, steps).store
    ensures var s := After(c, steps);
            s.store[u] in s.mem && (IsZero(s.mem[s.store[u]]) ==> u in s.db)
  {
    RunKeeps(c, steps);
    assert StoredAgrees(c, After(c, steps), u, Last(steps)[u]);
  }

  // ----- Lists -----

  /** The items are stored objects, each with memory of its own. */
  ghost predicate NewItems(s: State, last: map<UID, Obj>, items: seq<Item>) {
    && (forall i :: 0 <= i < |items| ==> items[i].u in last && items[i].out !in s.mem)
    && (forall i, j :: 0 <= i < j < |items| ==> items[i].out != items[j].out)
  }

  lemma NewItemsTail(c: Codec, s: State, last: map<UID, Obj>, items: seq<Item>, req: Option<Request>)
    requires NewItems(s, last, items) && items != [] && items[0].u in s.store && s.store[items[0].u] in s.mem
    ensures NewItems(Got(c, s, items[0].u, items[0].out, items[0].skip, req), last, items[1..])
    ensures View(Got(c, s, items[0].u, items[0].out, items[0].skip, req), req) == View(s, req)
    ensures Got(c, s, items[0].u, items[0].out, items[0].skip, req).db == s.db
  {
  }

  function LastOf(last: map<UID, Obj>, items: seq<Item>): seq<Obj>
    requires forall i :: 0 <= i < |items| ==> items[i].u in last
  {
    if items == [] then [] else [last[items[0].u]] + LastOf(last, items[1..])
  }

  /** A list gives the objects last put, in the order of the wrapped cache's list. */
  lemma {:induction false} ListAgrees(c: Codec, s: State, last: map<UID, Obj>, items: seq<Item>, req: Option<Request>)
    requires RoundTrips(c) && Inv(c, s, last) && View(s, req) == s.db && NewItems(s, last, items)
    ensures Listed(c, s, items, req) == Some(LastOf(last, items))
    decreases |items|
  {
    if items != [] {
      var x := items[0];
      assert StoredAgrees(c, s, x.u, last[x.u]);
      ReadAgreesIff(c, s, last, x.u, req);
      GotKeeps(c, s, last, x.u, x.out, x.skip, req);
      var rest := items[1..];
      NewItemsTail(c, s, last, items, req);
      ListAgrees(c, Got(c, s, x.u, x.out, x.skip, req), last, rest, req);
    }
  }

  /** After every run in which no cleanup commits under an open transaction, a list is of the objects last put. */
  lemma ListAgreesAfterRun(c: Codec, steps: seq<Step>, items: seq<Item>, req: Option<Request>)
    requires RoundTrips(c) && IsRun(c, steps) && NoCleanupWhileOpen(c, steps)
    requires NewItems(After(c, steps), Last(steps), items)
    ensures Listed(c, After(c, steps), items, req) == Some(LastOf(Last(steps), items))
  {
    SnapshotsCurrent(c, steps);
    RunKeeps(c, steps);
    ListAgrees(c, After(c, steps), Last(steps), items, req);
  }

  // ----- What a list reads -----

  /** How many of the items are read: up to the first that cannot be. */
  function ReadUpTo(c: Codec, s: State, items: seq<Item>, req: Option<Request>): nat
    requires forall i :: 0 <= i < |items| ==> items[i].u in s.store && s.store[items[i].u] in s.mem
  {
    if items == [] then 0
    else 1 + if Answer(c, s, items[0].u, req).None? then 0 else ReadUpTo(c, s, items[1..], req)
  }

  /** What a read leaves to the others: what is stored, and what they would be given. */
  lemma GotLeaves(c: Codec, s: State, x: Item, req: Option<Request>, u: UID)
    requires PointersHold(s) && x.u in s.store && u in s.store && x.out !in s.mem
    ensures var s' := Got(c, s, x.u, x.out, x.skip, req);
            && s'.store == s.store && s.store[u] in s'.mem && Answer(c, s', u, req) == Answer(c, s, u, req)
            && (forall v :: v in s.store ==> s.store[v] in s'.mem && s'.mem[s.store[v]] == s.mem[s.store[v]])
            && PointersHold(s')
  {
  }

  /** The items are stored, each with new memory of its own. */
  ghost predicate Fresh(s: State, items: seq<Item>) {
    && (forall i :: 0 <= i < |items| ==> items[i].u in s.store && items[i].out !in s.mem)
    && (forall i, j :: 0 <= i < j < |items| ==> items[i].out != items[j].out)
  }

  lemma {:induction false} SameReadUpTo(c: Codec, s: State, s': State, items: seq<Item>, req: Option<Request>)
    requires s'.store == s.store && forall i :: 0 <= i < |items| ==>
               items[i].u in s.store && s.store[items[i].u] in s.mem && s.store[items[i].u] in s'.mem &&
               Answer(c, s', items[i].u, req) == Answer(c, s, items[i].u, req)
    ensures ReadUpTo(c, s', items, req) == ReadUpTo(c, s, items, req)
    decreases |items|
  {
    if items != [] {
      assert forall i :: 0 <= i < |items[1..]| ==> items[1..][i] == items[i + 1];
      SameReadUpTo(c, s, s', items[1..], req);
    }
  }

  /**
   * A list in terms of single reads of the state it starts in: it succeeds
   * exactly if each of its items can be read, with what each read gives, in
   * order.
   */
  lemma {:induction false} ListMeaning(c: Codec, s: State, items: seq<Item>, req: Option<Request>)
    requires PointersHold(s) && Fresh(s, items)
    ensures Listed(c, s, items, req).Some? <==>
            forall i :: 0 <= i < |items| ==> Answer(c, s, items[i].u, req).Some?
    ensures Listed(c, s, items, req).Some? ==>
              |Listed(c, s, items, req).value| == |items| &&
              forall i :: 0 <= i < |items| ==> Answer(c, s, items[i].u, req) == Some(Listed(c, s, items, req).value[i])
    decreases |items|
  {
    if items != [] {
      AfterFirst(c, s, items, req);
      ListMeaning(c, Got(c, s, items[0].u, items[0].out, items[0].skip, req), items[1..], req);
    }
  }

  /** What the first read of a list leaves to the rest of it. */
  lemma AfterFirst(c: Codec, s: State, items: seq<Item>, req: Option<Request>)
    requires PointersHold(s) && Fresh(s, items) && items != []
    ensures var x, rest := items[0], items[1..];
            var s' := Got(c, s, x.u, x.out, x.skip, req);
            && s'.mem.Keys == s.mem.Keys + {x.out} && s'.store == s.store
            && PointersHold(s') && Fresh(s', rest)
            && (forall i :: 0 <= i < |rest| ==> rest[i] == items[i + 1])
            && (forall i :: 0 <= i < |rest| ==> Answer(c, s', rest[i].u, req) == Answer(c, s, rest[i].u, req))
  {
    var x, rest := items[0], items[1..];
    forall i | 0 <= i < |rest|
      ensures Answer(c, Got(c, s, x.u, x.out, x.skip, req), rest[i].u, req) == Answer(c, s, rest[i].u, req)
    {
      GotLeaves(c, s, x, req, rest[i].u);
    }
    GotLeaves(c, s, x, req, x.u);
  }

  function Outs(items: seq<Item>): set<Ptr> {
    set i | 0 <= i < |items| :: items[i].out
  }

  /** Exactly the items up to the first that cannot be read have been copied out. */
  lemma {:induction false} ListStops(c: Codec, s: State, items: seq<Item>, req: Option<Request>)
    requires PointersHold(s) && Fresh(s, items)
    ensures ReadUpTo(c, s, items, req) <= |items|
    ensures ListedState(c, s, items, req).mem.Keys == s.mem.Keys + Outs(items[..ReadUpTo(c, s, items, req)])
    decreases |items|
  {
    if items != [] {
      var x, rest := items[0], items[1..];
      var s' := Got(c, s, x.u, x.out, x.skip, req);
      AfterFirst(c, s, items, req);
      ListStops(c, s', rest, req);
      SameReadUpTo(c, s, s', rest, req);
      OutsTail(items, ReadUpTo(c, s, items, req));
    }
  }

  lemma OutsTail(items: seq<Item>, n: nat)
    requires 0 < n <= |items|
    ensures Outs(items[..n]) == {items[0].out} + Outs(items[1..][..n - 1])
  {
    var tail := items[1..][..n - 1];
    assert forall i :: 0 <= i < |tail| ==> tail[i] == items[..n][i + 1];
    assert items[..n][0].out == items[0].out;
    forall p | p in Outs(items[..n]) ensures p in {items[0].out} + Outs(tail) {
      var i :| 0 <= i < n && items[..n][i].out == p;
      if i > 0 { assert tail[i - 1].out == p; }
    }
  }

  // ----- A cleanup under an open transaction -----

  /** Two objects were put, the first was spilled, and a reader of request 7 is in flight. */
  ghost function OneSpilled(c: Codec, a: Obj, b: Obj): State {
    State(map[0 := Zeroed(a), 1 := b], map[a.uid := 0, b.uid := 1], map[b.uid := 1],
          map[a.uid := c.marshal(a)], multiset{7}, map[])
  }

  /** The reader has read the first object, the second was spilled, and another reader came in. */
  ghost function BothSpilled(c: Codec, a: Obj, b: Obj): State {
    State(map[0 := Zeroed(a), 1 := Zeroed(b), 2 := a], map[a.uid := 0, b.uid := 1], map[a.uid := 2],
          map[a.uid := c.marshal(a), b.uid := c.marshal(b)], multiset{7, 7}, map[7 := map[a.uid := c.marshal(a)]])
  }

  function TwoPut(a: Obj, b: Obj): State {
    State(map[0 := a, 1 := b], map[a.uid := 0, b.uid := 1], map[a.uid := 0, b.uid := 1], map[], multiset{}, map[])
  }

  lemma BothPut(c: Codec, a: Obj, b: Obj)
    requires !IsZero(a) && !IsZero(b) && a.uid != b.uid
    ensures var steps := [PutObject(0, a, false)] + [PutObject(1, b, false)];
            IsRun(c, steps) && After(c, steps) == TwoPut(a, b) && Last(steps) == map[a.uid := a, b.uid := b]
  {
    var e1, e2 := PutObject(0, a, false), PutObject(1, b, false);
    assert [] + [e1] == [e1];
    RunSnoc(c, [], e1);
    RunSnoc(c, [e1], e2);
  }

  lemma SpillFirst(c: Codec, a: Obj, b: Obj)
    requires !IsZero(a) && !IsZero(b) && a.uid != b.uid
    ensures Enabled(TwoPut(a, b), Clean({a.uid}))
    ensures Entered(Next(c, TwoPut(a, b), Clean({a.uid})), 7) == OneSpilled(c, a, b)
  {
    SpillFirstDb(c, a, b);
    SpillFirstMem(a, b);
    assert TwoPut(a, b).refs - {a.uid} == map[b.uid := 1];
  }

  lemma SpillFirstDb(c: Codec, a: Obj, b: Obj)
    requires a.uid != b.uid
    ensures RefsHold(TwoPut(a, b), {a.uid}) && DbCleaned(c, TwoPut(a, b), {a.uid}) == map[a.uid := c.marshal(a)]
  {
    assert TwoPut(a, b).mem[TwoPut(a, b).refs[a.uid]] == a;
  }

  lemma SpillFirstMem(a: Obj, b: Obj)
    requires a.uid != b.uid
    ensures RefsHold(TwoPut(a, b), {a.uid}) && MemCleaned(TwoPut(a, b), {a.uid}) == map[0 := Zeroed(a), 1 := b]
  {
    assert TwoPut(a, b).mem[TwoPut(a, b).refs[a.uid]] == a;
  }

  /** The read of the first object, for which the transaction begins. */
  ghost function OneRead(c: Codec, a: Obj, b: Obj): State {
    State(map[0 := Zeroed(a), 1 := b, 2 := a], map[a.uid := 0, b.uid := 1], map[b.uid := 1, a.uid := 2],
          map[a.uid := c.marshal(a)], multiset{7}, map[7 := map[a.uid := c.marshal(a)]])
  }

  lemma ReadFirst(c: Codec, a: Obj, b: Obj)
    requires RoundTrips(c) && !IsZero(a) && a.uid != b.uid
    ensures var s := OneSpilled(c, a, b);
            && Enabled(s, Read(a.uid, 2, false, Some(7))) && Answer(c, s, a.uid, Some(7)) == Some(a)
            && Next(c, s, Read(a.uid, 2, false, Some(7))) == OneRead(c, a, b)
  {
    assert c.unmarshal(c.marshal(a), Zeroed(a)) == a;
  }

  lemma SpillSecond(c: Codec, a: Obj, b: Obj)
    requires a.uid != b.uid
    ensures Enabled(OneRead(c, a, b), Clean({b.uid}))
    ensures Entered(Next(c, OneRead(c, a, b), Clean({b.uid})), 7) == BothSpilled(c, a, b)
  {
    SpillSecondDb(c, a, b);
    SpillSecondMem(c, a, b);
    assert OneRead(c, a, b).refs - {b.uid} == map[a.uid := 2];
  }

  lemma SpillSecondDb(c: Codec, a: Obj, b: Obj)
    requires a.uid != b.uid
    ensures RefsHold(OneRead(c, a, b), {b.uid})
    ensures DbCleaned(c, OneRead(c, a, b), {b.uid}) == BothSpilled(c, a, b).db
  {
    assert OneRead(c, a, b).mem[OneRead(c, a, b).refs[b.uid]] == b;
  }

  lemma SpillSecondMem(c: Codec, a: Obj, b: Obj)
    requires a.uid != b.uid
    ensures RefsHold(OneRead(c, a, b), {b.uid})
    ensures MemCleaned(OneRead(c, a, b), {b.uid}) == BothSpilled(c, a, b).mem
  {
    assert OneRead(c, a, b).mem[OneRead(c, a, b).refs[b.uid]] == b;
  }

  /** Two readers of one request, the first still in flight when the second comes in. */
  function StaleRun(a: Obj, b: Obj): seq<Step> {
    [PutObject(0, a, false)] + [PutObject(1, b, false)] + [Clean({a.uid})] +
    [Enter(7)] + [Read(a.uid, 2, false, Some(7))] + [Clean({b.uid})] + [Enter(7)]
  }

  lemma StaleRunReaches(c: Codec, a: Obj, b: Obj)
    requires RoundTrips(c) && !IsZero(a) && !IsZero(b) && a.uid != b.uid
    ensures IsRun(c, StaleRun(a, b)) && After(c, StaleRun(a, b)) == BothSpilled(c, a, b)
    ensures Last(StaleRun(a, b)) == map[a.uid := a, b.uid := b]
  {
    BothPut(c, a, b);
    SpillFirst(c, a, b);
    ReadFirst(c, a, b);
    SpillSecond(c, a, b);
    var p2 := [PutObject(0, a, false)] + [PutObject(1, b, false)];
    var p4 := p2 + [Clean({a.uid})] + [Enter(7)];
    var p5 := p4 + [Read(a.uid, 2, false, Some(7))];
    RunTwo(c, p2, Clean({a.uid}), Enter(7));
    RunSnoc(c, p4, Read(a.uid, 2, false, Some(7)));
    RunTwo(c, p5, Clean({b.uid}), Enter(7));
  }

  lemma StaleRead(c: Codec, a: Obj, b: Obj)
    requires RoundTrips(c) && NamelessStays(c) && !IsZero(a) && !IsZero(b) && a.uid != b.uid
    ensures var s := BothSpilled(c, a, b);
            && Answer(c, s, b.uid, Some(7)) == None && Enabled(s, Read(b.uid, 3, false, Some(7)))
            && var s' := Next(c, s, Read(b.uid, 3, false, Some(7)));
               Enabled(s', Clean({b.uid})) && LostTo(c, Next(c, s', Clean({b.uid})), b)
  {
    BothSpilledInv(c, a, b);
    UnsoundReadLoses(c, BothSpilled(c, a, b), map[a.uid := a, b.uid := b], b.uid, 3, false, Some(7));
  }

  /** A new reader of the object is not given it. */
  predicate LostTo(c: Codec, s: State, o: Obj) {
    o.uid in s.store && s.store[o.uid] in s.mem && Answer(c, s, o.uid, None) != Some(o)
  }

  /**
   * A request reads an object that was spilled; a second object is spilled
   * while its transaction is open; its read of that one fails, and as the
   * empty result was scheduled, the next cleanup writes it over the object.
   */
  lemma StaleReadCorrupts(c: Codec, a: Obj, b: Obj)
    requires RoundTrips(c) && NamelessStays(c) && !IsZero(a) && !IsZero(b) && a.uid != b.uid
    ensures IsRun(c, StaleRun(a, b)) && After(c, StaleRun(a, b)) == BothSpilled(c, a, b)
    ensures Answer(c, BothSpilled(c, a, b), b.uid, Some(7)) == None
    ensures var steps := StaleRun(a, b) + [Read(b.uid, 3, false, Some(7))] + [Clean({b.uid})];
            IsRun(c, steps) && b.uid in Last(steps) && Last(steps)[b.uid] == b && LostTo(c, After(c, steps), b)
  {
    StaleRunReaches(c, a, b);
    StaleRead(c, a, b);
    RunTwo(c, StaleRun(a, b), Read(b.uid, 3, false, Some(7)), Clean({b.uid}));
  }

  lemma RunTwo(c: Codec, steps: seq<Step>, e1: Step, e2: Step)
    requires IsRun(c, steps) && Enabled(After(c, steps), e1) && Enabled(Next(c, After(c, steps), e1), e2)
    ensures IsRun(c, steps + [e1] + [e2])
    ensures After(c, steps + [e1] + [e2]) == Next(c, Next(c, After(c, steps), e1), e2)
    ensures Last(steps + [e1] + [e2]) == LastStep(LastStep(Last(steps), e1), e2)
  {
    RunSnoc(c, steps, e1);
    RunSnoc(c, steps + [e1], e2);
  }

  lemma BothSpilledInv(c: Codec, a: Obj, b: Obj)
    requires !IsZero(a) && !IsZero(b) && a.uid != b.uid
    ensures Inv(c, BothSpilled(c, a, b), map[a.uid := a, b.uid := b])
  {
    assert Written(c, a.uid, c.marshal(a)) && Written(c, b.uid, c.marshal(b));
  }

  lemma RunSnoc(c: Codec, steps: seq<Step>, e: Step)
    requires IsRun(c, steps) && Enabled(After(c, steps), e)
    ensures IsRun(c, steps + [e]) && After(c, steps + [e]) == Next(c, After(c, steps), e)
    ensures Last(steps + [e]) == LastStep(Last(steps), e)
  {
    assert (steps + [e])[..|steps|] == steps;
  }
}
