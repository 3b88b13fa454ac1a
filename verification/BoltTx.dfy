/**
 * The read transaction shared by the readers of one request: begun by the
 * first reader that needs the bucket, rolled back by the last one to finish.
 */
module BoltTx {
  import opened Wrappers

  type Tx = nat
  type Reader = nat

  /** What beginning a transaction and looking up the bucket comes to. */
  datatype Outcome = Present | Absent | BeginFails

  /**
   * `used`, `tx` and `b` are the shared variables; a bucket is named by its
   * transaction. `open` and `rolled` are the database's view of transactions,
   * `readers` the readers in flight with the buckets they were given.
   */
  datatype State = State(used: int, tx: Option<Tx>, b: Option<Tx>,
                         open: set<Tx>, rolled: multiset<Tx>, next: Tx,
                         readers: map<Reader, set<Tx>>)

  datatype Step =
    | Enter(r: Reader)                  // txOnce
    | GetBucket(r: Reader, o: Outcome)
    | Leave(r: Reader)                  // done

  const INIT := State(0, None, None, {}, multiset{}, 0, map[])

  /** Each reader calls txOnce, then getBucket any number of times, then done once. */
  predicate Enabled(s: State, e: Step) {
    match e
    case Enter(r) => r !in s.readers
    case GetBucket(r, _) => r in s.readers
    case Leave(r) => r in s.readers
  }

  function Hold(s: State, r: Reader, b: Tx): State
    requires r in s.readers
  {
    s.(readers := s.readers[r := s.readers[r] + {b}])
  }

  function Next(s: State, e: Step): State
    requires Enabled(s, e)
  {
    match e
    case Enter(r) => s.(used := s.used + 1, readers := s.readers[r := {}])
    case GetBucket(r, o) =>
      if s.b.Some? then Hold(s, r, s.b.value)
      else
        (match o
         case BeginFails => s.(tx := None)
         case Absent => s.(tx := Some(s.next), open := s.open + {s.next}, next := s.next + 1)
         case Present =>
           Hold(s.(tx := Some(s.next), b := Some(s.next), open := s.open + {s.next}, next := s.next + 1), r, s.next))
    case Leave(r) =>
      var s' := s.(used := s.used - 1, readers := s.readers - {r});
      if s'.used > 0 || s.tx.None? then s'
      else s'.(tx := None, b := None, open := s.open - {s.tx.value}, rolled := s.rolled + multiset{s.tx.value})
  }

  /** The shared context with its closures' variables. */
  class BoltTxCtx {
    var used: int
    var tx: Option<Tx>
    var b: Option<Tx>
    var open: set<Tx>
    var next: Tx
    ghost var rolled: multiset<Tx>
    ghost var readers: map<Reader, set<Tx>>

    ghost function S(): State
      reads this
    {
      State(used, tx, b, open, rolled, next, readers)
    }

    constructor ()
      ensures S() == INIT
    {
      used, tx, b, open, next, rolled, readers := 0, None, None, {}, 0, multiset{}, map[];
    }

    method TxOnce(ghost r: Reader)
      requires Inv(S()) && Enabled(S(), Enter(r))
      modifies this
      ensures Inv(S()) && S() == Next(old(S()), Enter(r))
    {
      EnterInv(S(), r);
      used := used + 1;
      readers := readers[r := {}];
    }

    /**
     * `o` is the database's answer if it is asked. A bucket that is shared
     * already is returned; one that is there is shared, with the transaction
     * begun for it, from then on.
     */
    method GetBucket(ghost r: Reader, o: Outcome) returns (bucket: Option<Tx>, failed: bool)
      requires Inv(S()) && Enabled(S(), Step.GetBucket(r, o))
      modifies this
      ensures Inv(S()) && S() == Next(old(S()), Step.GetBucket(r, o))
      ensures failed <==> old(b).None? && o == BeginFails
      ensures bucket.Some? <==> old(b).Some? || o == Present
      ensures bucket.Some? ==> bucket == b && bucket.value in open && bucket.value in readers[r]
      ensures old(b).Some? ==> bucket == old(b) && open == old(open) && tx == old(tx)
      ensures old(b).None? && o != BeginFails ==> tx.Some? && tx.value !in old(open) && open == old(open) + {tx.value}
      ensures failed ==> tx == None && open == old(open)
    {
      GetBucketInv(S(), r, o);
      if b != None {
        readers := readers[r := readers[r] + {b.value}];
        return b, false;
      }
      if o == BeginFails {
        tx := None;
        return None, true;
      }
      tx := Some(next);
      open := open + {next};
      next := next + 1;
      b := if o == Present then tx else None;
      if b.Some? {
        readers := readers[r := readers[r] + {b.value}];
      }
      return b, false;
    }

    method Done(ghost r: Reader)
      requires Inv(S()) && Enabled(S(), Leave(r))
      modifies this
      ensures Inv(S()) && S() == Next(old(S()), Leave(r))
    {
      LeaveInv(S(), r);
      used := used - 1;
      readers := readers - {r};
      if used > 0 {
        return;
      }
      if tx == None {
        return;
      }
      open := open - {tx.value};
      rolled := rolled + multiset{tx.value};
      tx, b := None, None;
    }
  }

  // ----- What every interleaving keeps -----

  ghost predicate Inv(s: State) {
    && s.used == |s.readers|
    && (s.used == 0 ==> s.tx.None? && s.b.None?)
    && (s.b.Some? ==> s.tx == s.b)
    && (s.tx.Some? ==> s.tx.value in s.open)
    && (forall r, b :: r in s.readers && b in s.readers[r] ==> s.b == Some(b))
    && (forall t :: t in s.open ==> t < s.next)
    && (forall t: Tx :: s.rolled[t] == if t < s.next && t !in s.open then 1 else 0)
  }

  lemma RemoveReader(m: map<Reader, set<Tx>>, r: Reader)
    requires r in m
    ensures |m - {r}| == |m| - 1
  {
    assert (m - {r}).Keys == m.Keys - {r};
    assert |(m - {r}).Keys| == |m.Keys| - 1;
  }

  lemma AddReader(m: map<Reader, set<Tx>>, r: Reader, v: set<Tx>)
    ensures |m[r := v]| == if r in m then |m| else |m| + 1
  {
    assert m[r := v].Keys == m.Keys + {r};
    assert |m[r := v].Keys| == |m.Keys + {r}|;
  }

  lemma EnterInv(s: State, r: Reader)
    requires Inv(s) && Enabled(s, Enter(r))
    ensures Inv(Next(s, Enter(r)))
  {
    AddReader(s.readers, r, {});
  }

  lemma GetBucketInv(s: State, r: Reader, o: Outcome)
    requires Inv(s) && Enabled(s, GetBucket(r, o))
    ensures Inv(Next(s, GetBucket(r, o)))
  {
    AddReader(s.readers, r, Next(s, GetBucket(r, o)).readers[r]);
  }

  lemma LeaveInv(s: State, r: Reader)
    requires Inv(s) && Enabled(s, Leave(r))
    ensures Inv(Next(s, Leave(r)))
  {
    RemoveReader(s.readers, r);
  }

  lemma StepInv(s: State, e: Step)
    requires Inv(s) && Enabled(s, e)
    ensures Inv(Next(s, e))
  {
    match e
    case Enter(r) => EnterInv(s, r);
    case GetBucket(r, o) => GetBucketInv(s, r, o);
    case Leave(r) => LeaveInv(s, r);
  }

  ghost predicate IsRun(steps: seq<Step>)
    decreases |steps|, 0
  {
    steps == [] ||
    (IsRun(steps[..|steps| - 1]) && Enabled(After(steps[..|steps| - 1]), steps[|steps| - 1]))
  }

  ghost function After(steps: seq<Step>): State
    requires IsRun(steps)
    decreases |steps|, 1
  {
    if steps == [] then INIT else Next(After(steps[..|steps| - 1]), steps[|steps| - 1])
  }

  lemma {:induction false} RunInv(steps: seq<Step>)
    requires IsRun(steps)
    ensures Inv(After(steps))
    decreases |steps|
  {
    if steps != [] {
      RunInv(steps[..|steps| - 1]);
      StepInv(After(steps[..|steps| - 1]), steps[|steps| - 1]);
    }
  }

  /**
   * The counter is the number of readers in flight; no reader holds the
   * bucket of a transaction that was rolled back; each transaction is rolled
   * back at most once; and with no reader left the shared variables are as
   * they were before the first.
   */
  ghost predicate Orderly(s: State) {
    && s.used == |s.readers|
    && (forall r, b :: r in s.readers && b in s.readers[r] ==> b in s.open && s.rolled[b] == 0)
    && (forall t: Tx :: s.rolled[t] <= 1)
    && (s.readers == map[] ==> s.used == 0 && s.tx.None? && s.b.None?)
  }

  lemma InvOrderly(s: State)
    requires Inv(s)
    ensures Orderly(s)
  {
    forall r, b | r in s.readers && b in s.readers[r] ensures b in s.open && s.rolled[b] == 0 {
      assert s.b == Some(b);
    }
    forall t: Tx ensures s.rolled[t] <= 1 {
      assert s.rolled[t] == if t < s.next && t !in s.open then 1 else 0;
    }
  }

  /** In every interleaving of any number of readers. */
  lemma EveryInterleaving(steps: seq<Step>)
    requires IsRun(steps)
    ensures Orderly(After(steps))
  {
    RunInv(steps);
    InvOrderly(After(steps));
  }

  /**
   * In every interleaving a reader that asks for a bucket that is there holds
   * one afterwards, of a transaction that is open: the one already shared if
   * there is one, and otherwise one begun just then and shared from then on.
   */
  lemma BucketIsGiven(steps: seq<Step>, r: Reader)
    requires IsRun(steps) && r in After(steps).readers
    ensures var s, s' := After(steps), Next(After(steps), GetBucket(r, Present));
            && s'.b.Some? && s'.b == s'.tx && s'.readers == s.readers[r := s.readers[r] + {s'.b.value}]
            && s'.b.value in s'.open && s'.rolled[s'.b.value] == 0 && s'.rolled == s.rolled
            && (s.b.Some? ==> s'.b == s.b && s'.open == s.open)
            && (s.b.None? ==> s'.b.value !in s.open && s'.open == s.open + {s'.b.value})
  {
    RunInv(steps);
    GetBucketInv(After(steps), r, Present);
  }

  // ----- Transactions that are left open -----

  /** A transaction is open but its bucket was absent: the next getBucket begins another one over it. */
  predicate Overwrites(s: State, e: Step) {
    e.GetBucket? && s.b.None? && s.tx.Some?
  }

  ghost function Overwritten(steps: seq<Step>): nat
    requires IsRun(steps)
    decreases |steps|
  {
    if steps == [] then 0
    else
      Overwritten(steps[..|steps| - 1]) +
      (if Overwrites(After(steps[..|steps| - 1]), steps[|steps| - 1]) then 1 else 0)
  }

  /** The open transactions are the shared one and those that were begun over. */
  lemma {:induction false} OpenCount(steps: seq<Step>)
    requires IsRun(steps)
    ensures var s := After(steps);
            |s.open| == Overwritten(steps) + (if s.tx.Some? then 1 else 0)
    decreases |steps|
  {
    if steps != [] {
      var pre, e := steps[..|steps| - 1], steps[|steps| - 1];
      OpenCount(pre);
      RunInv(pre);
      var s := After(pre);
      assert s.next !in s.open;
      assert |s.open + {s.next}| == |s.open| + 1;
      if s.tx.Some? {
        assert |s.open - {s.tx.value}| == |s.open| - 1;
      }
    }
  }

  /**
   * When the last reader has finished, every transaction has been rolled back
   * exactly once, if and only if getBucket was never called again after it
   * found no bucket.
   */
  lemma NothingLeftOpenIff(steps: seq<Step>)
    requires IsRun(steps) && After(steps).readers == map[]
    ensures (forall t: Tx :: t < After(steps).next ==> After(steps).rolled[t] == 1) <==> Overwritten(steps) == 0
  {
    RunInv(steps);
    OpenCount(steps);
    var s := After(steps);
    if s.open != {} {
      var t :| t in s.open;
      assert t < s.next && s.rolled[t] == 0;
    }
  }

  /** With the bucket there, at most one transaction is open, and none after the last reader. */
  lemma {:induction false} BucketPresent(steps: seq<Step>)
    requires IsRun(steps) && forall i :: 0 <= i < |steps| && steps[i].GetBucket? ==> steps[i].o == Present
    ensures Overwritten(steps) == 0 && After(steps).tx == After(steps).b
    ensures |After(steps).open| <= 1 && (After(steps).readers == map[] ==> After(steps).open == {})
    decreases |steps|
  {
    OpenCount(steps);
    RunInv(steps);
    if steps != [] {
      var pre := steps[..|steps| - 1];
      BucketPresent(pre);
      RunInv(pre);
      assert steps[|steps| - 1].GetBucket? ==> steps[|steps| - 1].o == Present;
    }
  }

  lemma RunSnoc(steps: seq<Step>, e: Step)
    requires IsRun(steps) && Enabled(After(steps), e)
    ensures IsRun(steps + [e]) && After(steps + [e]) == Next(After(steps), e)
    ensures Overwritten(steps + [e]) == Overwritten(steps) + (if Overwrites(After(steps), e) then 1 else 0)
  {
    assert (steps + [e])[..|steps|] == steps;
  }

  /** Two readers that both find no bucket: the second begins over the first, whose transaction stays open. */
  lemma AbsentBucketLeaks()
    ensures var steps := [Enter(0)] + [GetBucket(0, Absent)] + [Enter(1)] + [GetBucket(1, Absent)] +
                         [Leave(0)] + [Leave(1)];
            && IsRun(steps) && Overwritten(steps) == 1
            && After(steps) == State(0, None, None, {0}, multiset{1}, 2, map[])
  {
    var p2 := [Enter(0)] + [GetBucket(0, Absent)];
    var p4 := p2 + [Enter(1)] + [GetBucket(1, Absent)];
    assert [] + [Enter(0)] == [Enter(0)];
    RunSnoc([], Enter(0));
    RunSnoc([Enter(0)], GetBucket(0, Absent));
    assert After(p2) == State(1, Some(0), None, {0}, multiset{}, 1, map[0 := {}]);
    RunSnoc(p2, Enter(1));
    RunSnoc(p2 + [Enter(1)], GetBucket(1, Absent));
    assert After(p4) == State(2, Some(1), None, {0, 1}, multiset{}, 2, map[0 := {}, 1 := {}]);
    RunSnoc(p4, Leave(0));
    RunSnoc(p4 + [Leave(0)], Leave(1));
  }
}
