/**
 * The composed resources of a composite: fetched by one goroutine per
 * reference, appended as they arrive, then sorted by identity.
 */
module Resources {
  import opened Ordering

  datatype ReferenceID = ReferenceID(apiVersion: string, kind: string, namespace: string, name: string)
  datatype Resource = Resource(id: ReferenceID, body: string)

  function Join(id: ReferenceID): string {
    id.apiVersion + id.kind + id.namespace + id.name
  }

  function Key(r: Resource): string {
    Join(r.id)
  }

  // ----- The connection and its order -----

  /** Insertion from the right: past every node whose key is greater. */
  function InsertStable(nodes: seq<Resource>, x: Resource): (r: seq<Resource>)
    ensures |r| == |nodes| + 1
  {
    if nodes == [] || !Less(Key(x), Key(nodes[|nodes| - 1])) then nodes + [x]
    else InsertStable(nodes[..|nodes| - 1], x) + [nodes[|nodes| - 1]]
  }

  function SortStable(nodes: seq<Resource>): (r: seq<Resource>)
    ensures |r| == |nodes|
  {
    if nodes == [] then [] else InsertStable(SortStable(nodes[..|nodes| - 1]), nodes[|nodes| - 1])
  }

  class KubernetesResourceConnection {
    var nodes: seq<Resource>
    var totalCount: nat

    ghost predicate Valid()
      reads this
    {
      totalCount == |nodes|
    }

    constructor ()
      ensures Valid() && nodes == []
    {
      nodes, totalCount := [], 0;
    }

    /** What each successful goroutine does under the mutex. */
    method Append(r: Resource)
      requires Valid()
      modifies this
      ensures Valid() && nodes == old(nodes) + [r]
    {
      nodes := nodes + [r];
      totalCount := totalCount + 1;
    }

    method Swap(i: nat, j: nat)
      requires i < |nodes| && j < |nodes|
      modifies this`nodes
      ensures nodes == old(nodes)[i := old(nodes)[j]][j := old(nodes)[i]]
    {
      var x, y := nodes[i], nodes[j];
      nodes := nodes[i := y];
      nodes := nodes[j := x];
    }

    /** Moves the node at `i` left past every node of greater key. */
    method Settle(i: nat)
      requires Valid() && i < totalCount
      modifies this`nodes
      ensures Valid() && nodes == InsertStable(old(nodes)[..i], old(nodes)[i]) + old(nodes)[i + 1..]
    {
      ghost var done, x, rest := nodes[..i], nodes[i], nodes[i + 1..];
      var j := i;
      assert done[..i] == done && done[i..] == [];
      while j > 0 && Less(Key(nodes[j]), Key(nodes[j - 1]))
        invariant 0 <= j <= i == |done|
        invariant nodes == Laid(done, x, rest, j)
        invariant InsertStable(done, x) == InsertStable(done[..j], x) + done[j..]
      {
        LaidStep(done, x, rest, j);
        Swap(j, j - 1);
        j := j - 1;
      }
      if j > 0 {
        LaidStep(done, x, rest, j);
      }
      LaidEnd(done, x, rest, j);
    }

    /** The stable sort, by adjacent swaps. */
    method Stable()
      requires Valid()
      modifies this`nodes
      ensures Valid() && nodes == SortStable(old(nodes))
    {
      ghost var input := nodes;
      var i := 0;
      while i < totalCount
        invariant i <= totalCount == |nodes| == |input|
        invariant nodes == SortStable(input[..i]) + input[i..]
      {
        assert nodes[..i] == SortStable(input[..i]) && nodes[i + 1..] == input[i + 1..];
        assert input[..i + 1][..i] == input[..i];
        Settle(i);
        i := i + 1;
      }
      assert input[..i] == input;
    }
  }

  /** The nodes while `x` is on its way left through `done`. */
  ghost function Laid(done: seq<Resource>, x: Resource, rest: seq<Resource>, j: nat): seq<Resource>
    requires j <= |done|
  {
    done[..j] + [x] + done[j..] + rest
  }

  lemma LaidStep(done: seq<Resource>, x: Resource, rest: seq<Resource>, j: nat)
    requires 0 < j <= |done|
    ensures var l := Laid(done, x, rest, j);
            l[j] == x && l[j - 1] == done[j - 1] && l[j := l[j - 1]][j - 1 := l[j]] == Laid(done, x, rest, j - 1)
    ensures Less(Key(x), Key(done[j - 1])) ==>
              InsertStable(done[..j], x) + done[j..] == InsertStable(done[..j - 1], x) + done[j - 1..]
  {
    assert done[..j][..j - 1] == done[..j - 1];
    assert [done[j - 1]] + done[j..] == done[j - 1..];
  }

  lemma LaidEnd(done: seq<Resource>, x: Resource, rest: seq<Resource>, j: nat)
    requires j <= |done| && (j > 0 ==> !Less(Key(x), Key(done[j - 1])))
    ensures InsertStable(done[..j], x) + done[j..] + rest == Laid(done, x, rest, j)
  {
  }

  // ----- What a stable sort is -----

  ghost predicate Sorted(nodes: seq<Resource>) {
    forall i, j :: 0 <= i < j < |nodes| ==> !Less(Key(nodes[j]), Key(nodes[i]))
  }

  /** The nodes of one key, in order. */
  function WithKey(nodes: seq<Resource>, key: string): seq<Resource> {
    if nodes == [] then []
    else if Key(nodes[|nodes| - 1]) == key then WithKey(nodes[..|nodes| - 1], key) + [nodes[|nodes| - 1]]
    else WithKey(nodes[..|nodes| - 1], key)
  }

  lemma {:induction false} InsertStableMultiset(nodes: seq<Resource>, x: Resource)
    ensures multiset(InsertStable(nodes, x)) == multiset(nodes) + multiset{x}
  {
    if nodes != [] && Less(Key(x), Key(nodes[|nodes| - 1])) {
      var pre, last := nodes[..|nodes| - 1], nodes[|nodes| - 1];
      InsertStableMultiset(pre, x);
      assert nodes == pre + [last];
      SnocMultiset(pre, last);
      SnocMultiset(InsertStable(pre, x), last);
    } else {
      SnocMultiset(nodes, x);
    }
  }

  lemma SnocMultiset(nodes: seq<Resource>, x: Resource)
    ensures multiset(nodes + [x]) == multiset(nodes) + multiset{x}
  {
  }

  lemma SortedSnoc(nodes: seq<Resource>, x: Resource)
    requires Sorted(nodes) && forall i :: 0 <= i < |nodes| ==> !Less(Key(x), Key(nodes[i]))
    ensures Sorted(nodes + [x])
  {
  }

  lemma {:induction false} InsertStableSorted(nodes: seq<Resource>, x: Resource)
    requires Sorted(nodes)
    ensures Sorted(InsertStable(nodes, x))
  {
    if nodes == [] || !Less(Key(x), Key(nodes[|nodes| - 1])) {
      forall i | 0 <= i < |nodes| ensures !Less(Key(x), Key(nodes[i])) {
        if i < |nodes| - 1 {
          NotLessTransitive(Key(x), Key(nodes[|nodes| - 1]), Key(nodes[i]));
        }
      }
      SortedSnoc(nodes, x);
    } else {
      var pre, last := nodes[..|nodes| - 1], nodes[|nodes| - 1];
      var r := InsertStable(pre, x);
      InsertStableSorted(pre, x);
      LessAsymmetric(Key(x), Key(last));
      forall i | 0 <= i < |r| ensures !Less(Key(last), Key(r[i])) {
        InsertStableMember(pre, x, r[i]);
      }
      SortedSnoc(r, last);
    }
  }

  lemma InsertStableMember(nodes: seq<Resource>, x: Resource, y: Resource)
    requires y in InsertStable(nodes, x)
    ensures y == x || y in nodes
  {
    InsertStableMultiset(nodes, x);
    assert y in multiset(InsertStable(nodes, x));
  }

  lemma WithKeySnoc(nodes: seq<Resource>, x: Resource, key: string)
    ensures WithKey(nodes + [x], key) == if Key(x) == key then WithKey(nodes, key) + [x] else WithKey(nodes, key)
  {
    assert (nodes + [x])[..|nodes|] == nodes;
  }

  lemma {:induction false} InsertStableKeeps(nodes: seq<Resource>, x: Resource, key: string)
    ensures WithKey(InsertStable(nodes, x), key) == WithKey(nodes + [x], key)
  {
    if nodes != [] && Less(Key(x), Key(nodes[|nodes| - 1])) {
      var pre, last := nodes[..|nodes| - 1], nodes[|nodes| - 1];
      assert nodes == pre + [last];
      LessIrreflexive(Key(x));
      InsertStableKeeps(pre, x, key);
      WithKeySnoc(InsertStable(pre, x), last, key);
      WithKeySnoc(pre, x, key);
      WithKeySnoc(pre, last, key);
      WithKeySnoc(nodes, x, key);
    }
  }

  lemma NotLessTransitive(a: string, b: string, c: string)
    requires !Less(a, b) && !Less(b, c)
    ensures !Less(a, c)
  {
    LessTotal(a, b);
    LessTotal(b, c);
    if Less(a, c) {
      if Less(b, a) { LessTransitive(b, a, c); }
    }
  }

  /** Sorted, the same nodes, and nodes of equal key in their old order. */
  lemma {:induction false} SortStableCorrect(nodes: seq<Resource>)
    ensures Sorted(SortStable(nodes))
    ensures multiset(SortStable(nodes)) == multiset(nodes)
    ensures forall key :: WithKey(SortStable(nodes), key) == WithKey(nodes, key)
  {
    if nodes != [] {
      var pre, x := nodes[..|nodes| - 1], nodes[|nodes| - 1];
      assert nodes == pre + [x];
      SortStableCorrect(pre);
      InsertStableSorted(SortStable(pre), x);
      InsertStableMultiset(SortStable(pre), x);
      forall key ensures WithKey(SortStable(nodes), key) == WithKey(nodes, key) {
        InsertStableKeeps(SortStable(pre), x, key);
        WithKeySnoc(SortStable(pre), x, key);
      }
    }
  }

  lemma {:induction false} InWithKey(nodes: seq<Resource>, key: string, r: Resource)
    ensures r in WithKey(nodes, key) <==> r in nodes && Key(r) == key
  {
    if nodes != [] {
      assert nodes == nodes[..|nodes| - 1] + [nodes[|nodes| - 1]];
      InWithKey(nodes[..|nodes| - 1], key, r);
    }
  }

  /** Sorted, and for each key the same nodes in the same order. */
  ghost predicate SameByKey(a: seq<Resource>, b: seq<Resource>) {
    Sorted(a) && Sorted(b) && forall key :: WithKey(a, key) == WithKey(b, key)
  }

  lemma SameMembers(a: seq<Resource>, b: seq<Resource>, r: Resource)
    requires SameByKey(a, b) && r in a
    ensures r in b
  {
    InWithKey(a, Key(r), r);
    InWithKey(b, Key(r), r);
  }

  lemma LastEqual(a: seq<Resource>, b: seq<Resource>)
    requires SameByKey(a, b) && a != [] && b != []
    ensures a[|a| - 1] == b[|b| - 1]
  {
    var x, y := a[|a| - 1], b[|b| - 1];
    SameMembers(a, b, x);
    SameMembers(b, a, y);
    LastIsGreatest(a, y);
    LastIsGreatest(b, x);
    LessTotal(Key(x), Key(y));
    assert WithKey(a, Key(x)) == WithKey(b, Key(x));
    SnocEqual(WithKey(a[..|a| - 1], Key(x)), x, WithKey(b[..|b| - 1], Key(x)), y);
  }

  lemma PrefixSame(pa: seq<Resource>, pb: seq<Resource>, x: Resource)
    requires SameByKey(pa + [x], pb + [x])
    ensures SameByKey(pa, pb)
  {
    forall key ensures WithKey(pa, key) == WithKey(pb, key) {
      assert WithKey(pa + [x], key) == WithKey(pb + [x], key);
      WithKeySnoc(pa, x, key);
      WithKeySnoc(pb, x, key);
      if Key(x) == key {
        SnocEqual(WithKey(pa, key), x, WithKey(pb, key), x);
      }
    }
    SortedPrefix(pa, x);
    SortedPrefix(pb, x);
  }

  lemma SortedPrefix(pre: seq<Resource>, x: Resource)
    requires Sorted(pre + [x])
    ensures Sorted(pre)
  {
    forall i, j | 0 <= i < j < |pre| ensures !Less(Key(pre[j]), Key(pre[i])) {
      assert pre[i] == (pre + [x])[i] && pre[j] == (pre + [x])[j];
    }
  }

  /** Order and stability leave one possible result. */
  lemma {:induction false} StableUnique(a: seq<Resource>, b: seq<Resource>)
    requires SameByKey(a, b)
    ensures a == b
  {
    if a != [] { SameMembers(a, b, a[0]); }
    if b != [] { SameMembers(b, a, b[0]); }
    if a != [] && b != [] {
      LastEqual(a, b);
      var pa, pb, x := a[..|a| - 1], b[..|b| - 1], a[|a| - 1];
      assert a == pa + [x] && b == pb + [x];
      PrefixSame(pa, pb, x);
      StableUnique(pa, pb);
    }
  }

  lemma SnocEqual(a: seq<Resource>, x: Resource, b: seq<Resource>, y: Resource)
    requires a + [x] == b + [y]
    ensures a == b && x == y
  {
    assert (a + [x])[|a|] == x && (b + [y])[|b|] == y;
    assert a == (a + [x])[..|a|] && b == (b + [y])[..|b|];
  }

  lemma LastIsGreatest(a: seq<Resource>, r: Resource)
    requires Sorted(a) && r in a
    ensures !Less(Key(a[|a| - 1]), Key(r))
  {
    LessIrreflexive(Key(r));
    var i :| 0 <= i < |a| && a[i] == r;
  }

  // ----- The goroutines -----

  /** What one reference comes to. */
  datatype Outcome =
    | Fetched(resource: Resource)
    | NotFound
    | Error
    | Nameless  // a reference without a name is not fetched

  /** The nodes appended when the goroutines finish in the given order. */
  function Arrived(outcomes: seq<Outcome>, order: seq<nat>): seq<Resource>
    requires forall i :: 0 <= i < |order| ==> order[i] < |outcomes|
  {
    if order == [] then []
    else Arrived(outcomes, order[..|order| - 1]) + Appended(outcomes[order[|order| - 1]])
  }

  function Appended(o: Outcome): seq<Resource> {
    if o.Fetched? then [o.resource] else []
  }

  /** Every goroutine finishes once. */
  ghost predicate IsOrder(order: seq<nat>, n: nat) {
    (forall i :: 0 <= i < |order| ==> order[i] < n) &&
    (forall k: nat :: multiset(order)[k] == if k < n then 1 else 0)
  }

  function Result(outcomes: seq<Outcome>, order: seq<nat>): seq<Resource>
    requires forall i :: 0 <= i < |order| ==> order[i] < |outcomes|
  {
    SortStable(Arrived(outcomes, order))
  }

  /** The loop over the references, in whatever order the fetches finish. */
  method CollectResources(outcomes: seq<Outcome>, order: seq<nat>) returns (out: KubernetesResourceConnection)
    requires IsOrder(order, |outcomes|)
    ensures fresh(out) && out.Valid() && out.nodes == Result(outcomes, order)
    ensures forall r :: multiset(out.nodes)[r] == Fetches(outcomes, r)
    ensures out.totalCount == Successes(outcomes)
  {
    out := new KubernetesResourceConnection();
    for i := 0 to |order|
      invariant fresh(out) && out.Valid() && out.nodes == Arrived(outcomes, order[..i])
    {
      assert order[..i + 1][..i] == order[..i];
      var o := outcomes[order[i]];
      if o.Fetched? {
        out.Append(o.resource);
      }
    }
    assert order[..|order|] == order;
    out.Stable();
    ResultCounts(outcomes, order);
  }

  // ----- The order in which the fetches finish -----

  ghost predicate InRange(order: seq<nat>, n: nat) {
    forall i :: 0 <= i < |order| ==> order[i] < n
  }

  /** The nodes that arrive, counted. */
  function ArrivedBag(outcomes: seq<Outcome>, order: seq<nat>): multiset<Resource>
    requires InRange(order, |outcomes|)
  {
    multiset(Arrived(outcomes, order))
  }

  lemma BagSnoc(outcomes: seq<Outcome>, pre: seq<nat>, k: nat)
    requires InRange(pre, |outcomes|) && k < |outcomes|
    ensures ArrivedBag(outcomes, pre + [k]) == ArrivedBag(outcomes, pre) + multiset(Appended(outcomes[k]))
  {
    assert (pre + [k])[..|pre|] == pre;
  }

  function Without(order: seq<nat>, p: nat): seq<nat>
    requires p < |order|
  {
    order[..p] + order[p + 1..]
  }

  lemma WithoutSnoc(pre: seq<nat>, k: nat, p: nat)
    requires p <= |pre|
    ensures Without(pre + [k], p) == if p == |pre| then pre else Without(pre, p) + [k]
  {
  }

  lemma {:induction false} RemoveAtKeeps(outcomes: seq<Outcome>, order: seq<nat>, p: nat)
    requires p < |order| && InRange(order, |outcomes|)
    ensures ArrivedBag(outcomes, order) ==
            ArrivedBag(outcomes, Without(order, p)) + multiset(Appended(outcomes[order[p]]))
  {
    var pre, k := order[..|order| - 1], order[|order| - 1];
    assert order == pre + [k];
    BagSnoc(outcomes, pre, k);
    WithoutSnoc(pre, k, p);
    if p < |pre| {
      RemoveAtKeeps(outcomes, pre, p);
      BagSnoc(outcomes, Without(pre, p), k);
    }
  }

  lemma RemoveAtMultiset(o: seq<nat>, p: nat)
    requires p < |o|
    ensures multiset(Without(o, p)) == multiset(o) - multiset{o[p]}
  {
    assert o == o[..p] + [o[p]] + o[p + 1..];
  }

  lemma FindLast(o1: seq<nat>, o2: seq<nat>) returns (p: nat)
    requires o1 != [] && multiset(o1) == multiset(o2)
    ensures p < |o2| && o2[p] == o1[|o1| - 1]
    ensures multiset(o1[..|o1| - 1]) == multiset(Without(o2, p))
  {
    var last := |o1| - 1;
    assert o1[last] in multiset(o1) && o1[last] in multiset(o2);
    p :| 0 <= p < |o2| && o2[p] == o1[last];
    RemoveAtMultiset(o1, last);
    RemoveAtMultiset(o2, p);
    assert o1[..last] + o1[last + 1..] == o1[..last];
  }

  /** The nodes that arrive are the same, whatever the order. */
  lemma {:induction false} ArrivedMultiset(outcomes: seq<Outcome>, o1: seq<nat>, o2: seq<nat>)
    requires InRange(o1, |outcomes|) && InRange(o2, |outcomes|)
    requires multiset(o1) == multiset(o2)
    ensures multiset(Arrived(outcomes, o1)) == multiset(Arrived(outcomes, o2))
  {
    if o1 == [] {
      assert |multiset(o1)| == |multiset(o2)|;
    } else {
      var p := FindLast(o1, o2);
      var pre, k := o1[..|o1| - 1], o1[|o1| - 1];
      assert o1 == pre + [k];
      ArrivedMultiset(outcomes, pre, Without(o2, p));
      RemoveAtKeeps(outcomes, o2, p);
      BagSnoc(outcomes, pre, k);
    }
  }

  lemma SameOrders(o1: seq<nat>, o2: seq<nat>, n: nat)
    requires IsOrder(o1, n) && IsOrder(o2, n)
    ensures multiset(o1) == multiset(o2)
  {
  }

  /** Whatever the order: sorted, and exactly the resources that could be fetched. */
  lemma ResultCorrect(outcomes: seq<Outcome>, order: seq<nat>, other: seq<nat>)
    requires IsOrder(order, |outcomes|) && IsOrder(other, |outcomes|)
    ensures Sorted(Result(outcomes, order))
    ensures multiset(Result(outcomes, order)) == multiset(Arrived(outcomes, other))
  {
    SortStableCorrect(Arrived(outcomes, order));
    SameOrders(order, other, |outcomes|);
    ArrivedMultiset(outcomes, order, other);
  }

  // ----- Exactly the resources fetched -----

  /** How many of the references were fetched as the resource. */
  function Fetches(outcomes: seq<Outcome>, r: Resource): nat {
    if outcomes == [] then 0
    else Fetches(outcomes[..|outcomes| - 1], r) + (if outcomes[|outcomes| - 1] == Fetched(r) then 1 else 0)
  }

  /** How many were fetched at all. */
  function Successes(outcomes: seq<Outcome>): nat {
    if outcomes == [] then 0
    else Successes(outcomes[..|outcomes| - 1]) + (if outcomes[|outcomes| - 1].Fetched? then 1 else 0)
  }

  /** The goroutines in the order of their references. */
  function InTurn(n: nat): seq<nat> {
    seq(n, i => i)
  }

  lemma {:induction false} InTurnIsOrder(n: nat)
    ensures IsOrder(InTurn(n), n)
  {
    if n > 0 {
      InTurnIsOrder(n - 1);
      assert InTurn(n) == InTurn(n - 1) + [n - 1];
    }
  }

  /** One more goroutine, in turn. */
  lemma InTurnNext(outcomes: seq<Outcome>, n: nat)
    requires n < |outcomes|
    ensures InRange(InTurn(n), |outcomes|) && InRange(InTurn(n + 1), |outcomes|)
    ensures Arrived(outcomes, InTurn(n + 1)) == Arrived(outcomes, InTurn(n)) + Appended(outcomes[n])
    ensures outcomes[..n + 1][..n] == outcomes[..n]
  {
    assert InTurn(n + 1)[..n] == InTurn(n);
  }

  lemma {:induction false} InTurnFetches(outcomes: seq<Outcome>, n: nat, r: Resource)
    requires n <= |outcomes|
    ensures InRange(InTurn(n), |outcomes|)
    ensures multiset(Arrived(outcomes, InTurn(n)))[r] == Fetches(outcomes[..n], r)
  {
    if n > 0 {
      InTurnFetches(outcomes, n - 1, r);
      InTurnNext(outcomes, n - 1);
    }
  }

  lemma {:induction false} InTurnSuccesses(outcomes: seq<Outcome>, n: nat)
    requires n <= |outcomes|
    ensures InRange(InTurn(n), |outcomes|)
    ensures |Arrived(outcomes, InTurn(n))| == Successes(outcomes[..n])
  {
    if n > 0 {
      InTurnSuccesses(outcomes, n - 1);
      InTurnNext(outcomes, n - 1);
    }
  }

  /** Whatever the order: each resource is there as often as it was fetched, and nothing else is. */
  lemma ResultCounts(outcomes: seq<Outcome>, order: seq<nat>)
    requires IsOrder(order, |outcomes|)
    ensures Sorted(Result(outcomes, order))
    ensures forall r :: multiset(Result(outcomes, order))[r] == Fetches(outcomes, r)
    ensures |Result(outcomes, order)| == Successes(outcomes)
  {
    var n := |outcomes|;
    InTurnIsOrder(n);
    ResultCorrect(outcomes, order, InTurn(n));
    assert outcomes[..n] == outcomes;
    forall r ensures multiset(Result(outcomes, order))[r] == Fetches(outcomes, r) {
      InTurnFetches(outcomes, n, r);
    }
    InTurnSuccesses(outcomes, n);
    assert |multiset(Result(outcomes, order))| == |multiset(Arrived(outcomes, InTurn(n)))|;
  }

  // ----- When the order does not matter -----

  /** Resources that share a sort key are the same resource. */
  ghost predicate KeysDistinguish(outcomes: seq<Outcome>) {
    forall i, j :: 0 <= i < j < |outcomes| && outcomes[i].Fetched? && outcomes[j].Fetched? &&
                   Key(outcomes[i].resource) == Key(outcomes[j].resource)
      ==> outcomes[i].resource == outcomes[j].resource
  }

  lemma {:induction false} ArrivedMember(outcomes: seq<Outcome>, order: seq<nat>, r: Resource)
    requires InRange(order, |outcomes|)
    ensures r in Arrived(outcomes, order) ==> exists i :: 0 <= i < |order| && outcomes[order[i]] == Fetched(r)
  {
    if order != [] {
      var last := |order| - 1;
      ArrivedMember(outcomes, order[..last], r);
      if r in Arrived(outcomes, order[..last]) {
        var i :| 0 <= i < last && outcomes[order[..last][i]] == Fetched(r);
        assert order[..last][i] == order[i];
      } else if r in Arrived(outcomes, order) {
        assert outcomes[order[last]] == Fetched(r);
      }
    }
  }

  lemma {:induction false} WithKeyConstant(nodes: seq<Resource>, r: Resource)
    requires forall x :: x in nodes && Key(x) == Key(r) ==> x == r
    ensures WithKey(nodes, Key(r)) == seq(multiset(nodes)[r], _ => r)
  {
    if nodes != [] {
      var pre, x := nodes[..|nodes| - 1], nodes[|nodes| - 1];
      assert nodes == pre + [x];
      WithKeyConstant(pre, r);
    }
  }

  lemma SameKeySame(outcomes: seq<Outcome>, order: seq<nat>, x: Resource, r: Resource, k: nat)
    requires InRange(order, |outcomes|) && KeysDistinguish(outcomes)
    requires x in Arrived(outcomes, order) && Key(x) == Key(r) && k < |outcomes| && outcomes[k] == Fetched(r)
    ensures x == r
  {
    ArrivedMember(outcomes, order, x);
    var i :| 0 <= i < |order| && outcomes[order[i]] == Fetched(x);
    if order[i] < k {
      assert outcomes[order[i]].resource == outcomes[k].resource;
    }
  }

  lemma NoneWithKey(nodes: seq<Resource>, key: string)
    requires forall x :: x in nodes ==> Key(x) != key
    ensures WithKey(nodes, key) == []
  {
    if WithKey(nodes, key) != [] {
      InWithKey(nodes, key, WithKey(nodes, key)[0]);
    }
  }

  /** If keys distinguish resources, all orders lead to the same list. */
  lemma DistinctKeysSameResult(outcomes: seq<Outcome>, o1: seq<nat>, o2: seq<nat>)
    requires IsOrder(o1, |outcomes|) && IsOrder(o2, |outcomes|) && KeysDistinguish(outcomes)
    ensures Result(outcomes, o1) == Result(outcomes, o2)
  {
    var a1, a2 := Arrived(outcomes, o1), Arrived(outcomes, o2);
    SameOrders(o1, o2, |outcomes|);
    ArrivedMultiset(outcomes, o1, o2);
    SortStableCorrect(a1);
    SortStableCorrect(a2);
    forall key ensures WithKey(a1, key) == WithKey(a2, key) {
      SameWithKey(outcomes, o1, o2, key);
    }
    StableUnique(Result(outcomes, o1), Result(outcomes, o2));
  }

  lemma SameWithKey(outcomes: seq<Outcome>, o1: seq<nat>, o2: seq<nat>, key: string)
    requires InRange(o1, |outcomes|) && InRange(o2, |outcomes|) && KeysDistinguish(outcomes)
    requires multiset(Arrived(outcomes, o1)) == multiset(Arrived(outcomes, o2))
    ensures WithKey(Arrived(outcomes, o1), key) == WithKey(Arrived(outcomes, o2), key)
  {
    var a1, a2 := Arrived(outcomes, o1), Arrived(outcomes, o2);
    forall x ensures x in a1 <==> x in a2 {
      assert x in multiset(a1) <==> x in multiset(a2);
    }
    if r :| r in a1 && Key(r) == key {
      ArrivedMember(outcomes, o1, r);
      var i :| 0 <= i < |o1| && outcomes[o1[i]] == Fetched(r);
      forall x | x in a1 && Key(x) == key ensures x == r {
        SameKeySame(outcomes, o1, x, r, o1[i]);
      }
      WithKeyConstant(a1, r);
      WithKeyConstant(a2, r);
    } else {
      NoneWithKey(a1, key);
      NoneWithKey(a2, key);
    }
  }

  /** Every index below n except i and j. */
  function Others(n: nat, i: nat, j: nat): seq<nat> {
    if n == 0 then []
    else Others(n - 1, i, j) + (if n - 1 == i || n - 1 == j then [] else [n - 1])
  }

  lemma {:induction false} OthersMembers(n: nat, i: nat, j: nat)
    ensures InRange(Others(n, i, j), n)
    ensures forall k: nat :: multiset(Others(n, i, j))[k] == if k < n && k != i && k != j then 1 else 0
  {
    if n > 0 {
      OthersMembers(n - 1, i, j);
    }
  }

  lemma {:induction false} ArrivedConcat(outcomes: seq<Outcome>, a: seq<nat>, b: seq<nat>)
    requires InRange(a, |outcomes|) && InRange(b, |outcomes|)
    ensures Arrived(outcomes, a + b) == Arrived(outcomes, a) + Arrived(outcomes, b)
  {
    if b == [] {
      assert a + b == a;
    } else {
      assert (a + b)[..|a + b| - 1] == a + b[..|b| - 1];
      ArrivedConcat(outcomes, a, b[..|b| - 1]);
    }
  }

  lemma {:induction false} WithKeyConcat(a: seq<Resource>, b: seq<Resource>, key: string)
    ensures WithKey(a + b, key) == WithKey(a, key) + WithKey(b, key)
  {
    if b == [] {
      assert a + b == a;
    } else {
      var pre := b[..|b| - 1];
      assert (a + b)[..|a + b| - 1] == a + pre;
      WithKeyConcat(a, pre, key);
    }
  }

  lemma FirstTwo(outcomes: seq<Outcome>, i: nat, j: nat, rest: seq<nat>)
    requires i < |outcomes| && j < |outcomes| && InRange(rest, |outcomes|)
    requires outcomes[i].Fetched? && outcomes[j].Fetched?
    requires Key(outcomes[i].resource) == Key(outcomes[j].resource)
    ensures var ns := WithKey(Arrived(outcomes, [i, j] + rest), Key(outcomes[i].resource));
            ns != [] && ns[0] == outcomes[i].resource
  {
    var ri, rj := outcomes[i].resource, outcomes[j].resource;
    var one, two: seq<nat> := [i], [i, j];
    assert one[..|one| - 1] == [] && Arrived(outcomes, one) == [ri];
    assert two[..|two| - 1] == one && Arrived(outcomes, two) == [ri] + [rj];
    ArrivedConcat(outcomes, [i, j], rest);
    WithKeyConcat([ri] + [rj], Arrived(outcomes, rest), Key(ri));
    WithKeyConcat([ri], [rj], Key(ri));
    assert [ri][..0] == [];
  }

  lemma PairFirst(n: nat, i: nat, j: nat)
    requires i < n && j < n && i != j
    ensures IsOrder([i, j] + Others(n, i, j), n)
  {
    OthersMembers(n, i, j);
    forall k: nat ensures multiset([i, j] + Others(n, i, j))[k] == if k < n then 1 else 0 {
      assert multiset([i, j])[k] == if k == i || k == j then 1 else 0;
    }
  }

  lemma OthersSymmetric(n: nat, i: nat, j: nat)
    ensures Others(n, i, j) == Others(n, j, i)
  {
  }

  /** Two different resources with one key come out in the order in which they arrived. */
  lemma SharedKeyOrderShows(outcomes: seq<Outcome>, i: nat, j: nat) returns (o1: seq<nat>, o2: seq<nat>)
    requires i < j < |outcomes| && outcomes[i].Fetched? && outcomes[j].Fetched?
    requires Key(outcomes[i].resource) == Key(outcomes[j].resource) && outcomes[i].resource != outcomes[j].resource
    ensures IsOrder(o1, |outcomes|) && IsOrder(o2, |outcomes|)
    ensures Result(outcomes, o1) != Result(outcomes, o2)
  {
    var rest := Others(|outcomes|, i, j);
    o1, o2 := [i, j] + rest, [j, i] + rest;
    OthersMembers(|outcomes|, i, j);
    OthersSymmetric(|outcomes|, i, j);
    PairFirst(|outcomes|, i, j);
    PairFirst(|outcomes|, j, i);
    FirstTwo(outcomes, i, j, rest);
    FirstTwo(outcomes, j, i, rest);
    SortStableCorrect(Arrived(outcomes, o1));
    SortStableCorrect(Arrived(outcomes, o2));
    var key := Key(outcomes[i].resource);
    assert WithKey(Result(outcomes, o1), key) != WithKey(Result(outcomes, o2), key);
  }

  /** The list is the same for all orders exactly if the sort keys tell the fetched resources apart. */
  lemma OrderIndependentIff(outcomes: seq<Outcome>)
    ensures KeysDistinguish(outcomes) <==>
            forall o1, o2 :: IsOrder(o1, |outcomes|) && IsOrder(o2, |outcomes|) ==>
              Result(outcomes, o1) == Result(outcomes, o2)
  {
    if KeysDistinguish(outcomes) {
      forall o1, o2 | IsOrder(o1, |outcomes|) && IsOrder(o2, |outcomes|)
        ensures Result(outcomes, o1) == Result(outcomes, o2)
      {
        DistinctKeysSameResult(outcomes, o1, o2);
      }
    } else {
      var i, j :| 0 <= i < j < |outcomes| && outcomes[i].Fetched? && outcomes[j].Fetched? &&
                  Key(outcomes[i].resource) == Key(outcomes[j].resource) &&
                  outcomes[i].resource != outcomes[j].resource;
      var o1, o2 := SharedKeyOrderShows(outcomes, i, j);
    }
  }

  /** The parts of an identity in a key: API version, kind, namespace and name, in this order. */
  lemma JoinParts(id: ReferenceID)
    ensures var a, k, n := |id.apiVersion|, |id.kind|, |id.namespace|;
            && |Join(id)| == a + k + n + |id.name|
            && Join(id)[..a] == id.apiVersion && Join(id)[a..a + k] == id.kind
            && Join(id)[a + k..a + k + n] == id.namespace && Join(id)[a + k + n..] == id.name
  {
  }

  /** Keys run the parts of an identity together, so different identities can share one. */
  lemma KeysCanCollide()
    ensures var a, b := ReferenceID("v1", "Kind", "ab", "c"), ReferenceID("v1", "Kind", "a", "bc");
            a != b && Join(a) == Join(b)
  {
    assert "ab" + "c" == "a" + "bc";
    var a, b := ReferenceID("v1", "Kind", "ab", "c"), ReferenceID("v1", "Kind", "a", "bc");
    assert Join(a) == "v1Kindabc" && Join(b) == "v1Kindabc";
    assert |a.namespace| == 2 && |b.namespace| == 1;
  }
}
