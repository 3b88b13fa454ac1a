/**
 * The resource tree query: a recursive, concurrent walk over references that
 * returns one flat list of nodes with parent identifiers.
 */
module ResourceTree {
  import opened Wrappers

  datatype Kind = Composite | Claim | Plain
  datatype Res = Res(id: string, kind: Kind)

  /** One entry of the flat list. */
  datatype Node = Node(parent: Option<string>, res: Res)

  /**
   * What the API server answers: the resources a composite is composed of, the
   * composite a claim is bound to, and whether asking for them records an error.
   */
  datatype World = World(composed: Res -> seq<Res>, composite: Res -> Option<Res>, fails: Res -> bool,
                         rank: string -> nat)

  // ----- The tree the references unfold to -----

  datatype Tree = Tree(res: Res, kids: seq<Tree>)

  /** The resources a step of the walk goes on to: those composed, or the composite a claim is bound to. */
  function Expanded(w: World, r: Res): seq<Res> {
    match r.kind
    case Plain => []
    case Composite => w.composed(r)
    case Claim => if w.composite(r).None? then [] else [w.composite(r).value]
  }

  /** References have no cycles. */
  ghost predicate Acyclic(w: World) {
    forall r, i :: 0 <= i < |Expanded(w, r)| ==> w.rank(Expanded(w, r)[i].id) < w.rank(r.id)
  }

  ghost function Unfold(w: World, r: Res): Tree
    requires Acyclic(w)
    decreases w.rank(r.id)
  {
    var rs := Expanded(w, r);
    Tree(r, seq(|rs|, i requires 0 <= i < |rs| => Unfold(w, rs[i])))
  }

  /** The nodes of a tree, each before its descendants, children in order. */
  function Preorder(t: Tree, parent: Option<string>): seq<Node> {
    [Node(parent, t.res)] + PreorderAll(t.kids, Some(t.res.id))
  }

  function PreorderAll(ts: seq<Tree>, parent: Option<string>): seq<Node> {
    if ts == [] then [] else Preorder(ts[0], parent) + PreorderAll(ts[1..], parent)
  }

  ghost predicate SomeFails(w: World, t: Tree) {
    (t.res.kind != Plain && w.fails(t.res)) || exists i :: 0 <= i < |t.kids| && SomeFails(w, t.kids[i])
  }

  // ----- One run of the walk -----

  /**
   * What one call of the walk observed: whether it saw a recorded error after
   * fetching, its children's calls, and whether it saw one after they ended.
   * Errors are recorded in one place for the whole request, so a call can see
   * those of any other call, and those of resolvers outside the walk.
   */
  datatype Call = Call(seen: bool, kids: seq<Call>, seenAfter: bool)

  /** Whether a call or one of its children's calls records an error. */
  ghost predicate Records(w: World, r: Res, c: Call)
    decreases c
  {
    r.kind != Plain &&
    (w.fails(r) ||
     (!c.seen && |c.kids| == |Expanded(w, r)| &&
      exists i :: 0 <= i < |c.kids| && Records(w, Expanded(w, r)[i], c.kids[i])))
  }

  /** A call sees at least the errors recorded before its checks by itself and its children. */
  ghost predicate Observes(w: World, r: Res, c: Call)
    decreases c
  {
    r.kind != Plain ==>
      && (w.fails(r) ==> c.seen)
      && (!c.seen ==>
            && |c.kids| == |Expanded(w, r)|
            && (forall i :: 0 <= i < |c.kids| ==> Observes(w, Expanded(w, r)[i], c.kids[i]))
            && (Records(w, r, c) ==> c.seenAfter))
  }

  /** Some check of the call or below came out positive. */
  ghost predicate SawError(w: World, r: Res, c: Call)
    decreases c
  {
    r.kind != Plain &&
    (c.seen || c.seenAfter ||
     (|c.kids| == |Expanded(w, r)| && exists i :: 0 <= i < |c.kids| && SawError(w, Expanded(w, r)[i], c.kids[i])))
  }

  /** getAllDescendant: nothing if an error is seen, otherwise itself and its children's lists in order. */
  function GetAllDescendant(w: World, r: Res, parent: Option<string>, c: Call): seq<Node>
    decreases c
  {
    if r.kind == Plain then [Node(parent, r)]
    else if c.seen || |c.kids| != |Expanded(w, r)| then []
    else
      var lists := seq(|c.kids|, i requires 0 <= i < |c.kids| =>
                       GetAllDescendant(w, Expanded(w, r)[i], Some(r.id), c.kids[i]));
      if c.seenAfter then [] else [Node(parent, r)] + Concat(lists)
  }

  function Concat(lists: seq<seq<Node>>): seq<Node> {
    if lists == [] then [] else lists[0] + Concat(lists[1..])
  }

  datatype Connection = Connection(nodes: seq<Node>, totalCount: nat)

  /**
   * The whole query. `outside` says whether anything else in the request, the
   * fetch of the root included, has recorded an error by the last check.
   */
  ghost function CrossplaneResourceTree(w: World, root: Res, c: Call, outside: bool): Connection {
    if outside || Records(w, root, c) then Connection([], 0)
    else
      var list := GetAllDescendant(w, root, None, c);
      Connection(list, |list|)
  }

  /** A run: every call sees what it must, and an error that is seen was recorded, in the walk or outside. */
  ghost predicate IsRun(w: World, root: Res, c: Call, outside: bool) {
    Observes(w, root, c) && (SawError(w, root, c) ==> outside || Records(w, root, c))
  }

  // ----- The result of every run -----

  lemma ExpandedKids(w: World, r: Res, i: nat)
    requires Acyclic(w) && i < |Expanded(w, r)|
    ensures w.rank(Expanded(w, r)[i].id) < w.rank(r.id)
    ensures |Unfold(w, r).kids| == |Expanded(w, r)| && Unfold(w, r).kids[i] == Unfold(w, Expanded(w, r)[i])
    ensures r.kind != Plain
  {
  }

  /** Where no check is positive and nothing is recorded, a call returns the preorder of its subtree. */
  lemma {:induction false} CleanCall(w: World, r: Res, parent: Option<string>, c: Call)
    requires Acyclic(w) && Observes(w, r, c) && !SawError(w, r, c)
    ensures GetAllDescendant(w, r, parent, c) == Preorder(Unfold(w, r), parent)
    ensures !SomeFails(w, Unfold(w, r)) && !Records(w, r, c)
    decreases c
  {
    var rs, t := Expanded(w, r), Unfold(w, r);
    if r.kind == Plain {
      assert t.kids == [];
    } else {
      var lists := seq(|c.kids|, i requires 0 <= i < |c.kids| => GetAllDescendant(w, rs[i], Some(r.id), c.kids[i]));
      forall i | 0 <= i < |c.kids|
        ensures lists[i] == Preorder(t.kids[i], Some(r.id)) && !SomeFails(w, t.kids[i]) && !Records(w, rs[i], c.kids[i])
      {
        ExpandedKids(w, r, i);
        CleanCall(w, rs[i], Some(r.id), c.kids[i]);
      }
      ConcatPreorders(t.kids, lists, Some(r.id));
    }
  }

  lemma {:induction false} ConcatPreorders(ts: seq<Tree>, lists: seq<seq<Node>>, parent: Option<string>)
    requires |ts| == |lists| && forall i :: 0 <= i < |ts| ==> lists[i] == Preorder(ts[i], parent)
    ensures Concat(lists) == PreorderAll(ts, parent)
  {
    if ts != [] {
      ConcatPreorders(ts[1..], lists[1..], parent);
    }
  }

  /** Whatever is recorded comes from a step below that fails. */
  lemma {:induction false} RecordedFails(w: World, r: Res, c: Call)
    requires Acyclic(w) && Records(w, r, c)
    ensures SomeFails(w, Unfold(w, r))
    decreases c
  {
    if !w.fails(r) {
      var i :| 0 <= i < |c.kids| && Records(w, Expanded(w, r)[i], c.kids[i]);
      ExpandedKids(w, r, i);
      RecordedFails(w, Expanded(w, r)[i], c.kids[i]);
    }
  }

  /**
   * Every run, however its goroutines interleave and whatever errors they
   * happen to see of each other or of the rest of the request, is all or
   * nothing: the preorder list of the whole tree with its size, or empty. It
   * is empty exactly if something was recorded, which is exactly if something
   * outside failed or some step of the tree does.
   */
  lemma EveryRun(w: World, root: Res, c: Call, outside: bool)
    requires Acyclic(w) && IsRun(w, root, c, outside)
    ensures CrossplaneResourceTree(w, root, c, outside) ==
            if outside || SomeFails(w, Unfold(w, root)) then Connection([], 0)
            else Connection(Preorder(Unfold(w, root), None), Size(Unfold(w, root)))
    ensures outside || Records(w, root, c) <==> outside || SomeFails(w, Unfold(w, root))
    ensures CrossplaneResourceTree(w, root, c, outside).nodes == [] <==> outside || Records(w, root, c)
  {
    if Records(w, root, c) {
      RecordedFails(w, root, c);
    } else if !outside {
      CleanCall(w, root, None, c);
      PreorderSize(Unfold(w, root), None);
    }
  }

  function Size(t: Tree): nat {
    1 + SizeAll(t.kids)
  }

  function SizeAll(ts: seq<Tree>): nat {
    if ts == [] then 0 else Size(ts[0]) + SizeAll(ts[1..])
  }

  lemma {:induction false} PreorderSize(t: Tree, parent: Option<string>)
    ensures |Preorder(t, parent)| == Size(t)
    decreases t, 0
  {
    PreorderAllSize(t.kids, Some(t.res.id));
  }

  lemma {:induction false} PreorderAllSize(ts: seq<Tree>, parent: Option<string>)
    ensures |PreorderAll(ts, parent)| == SizeAll(ts)
    decreases ts, 1
  {
    if ts != [] {
      PreorderSize(ts[0], parent);
      PreorderAllSize(ts[1..], parent);
    }
  }

  // ----- The list determines the tree -----

  /** Identifiers rank lower further down, so none recurs below itself. */
  ghost predicate Ranked(rank: string -> nat, t: Tree) {
    forall i :: 0 <= i < |t.kids| ==> rank(t.kids[i].res.id) < rank(t.res.id) && Ranked(rank, t.kids[i])
  }

  lemma {:induction false} UnfoldRanked(w: World, r: Res)
    requires Acyclic(w)
    ensures Ranked(w.rank, Unfold(w, r))
    decreases w.rank(r.id)
  {
    forall i | 0 <= i < |Expanded(w, r)|
      ensures w.rank(Unfold(w, r).kids[i].res.id) < w.rank(r.id) && Ranked(w.rank, Unfold(w, r).kids[i])
    {
      ExpandedKids(w, r, i);
      UnfoldRanked(w, Expanded(w, r)[i]);
    }
  }

  /** How many entries from the front have another parent. */
  function Run(list: seq<Node>, parent: Option<string>): (n: nat)
    ensures n <= |list|
  {
    if list == [] || list[0].parent == parent then 0 else 1 + Run(list[1..], parent)
  }

  /**
   * A client's way back from the list to the tree: the first entry is the
   * root, and each entry that names it as parent starts a child's subtree.
   */
  function Rebuild(list: seq<Node>): Tree
    requires list != []
    decreases |list|, 0
  {
    Tree(list[0].res, RebuildAll(list[1..], Some(list[0].res.id)))
  }

  function RebuildAll(list: seq<Node>, parent: Option<string>): seq<Tree>
    decreases |list|, 1
  {
    if list == [] then []
    else
      var n := 1 + Run(list[1..], parent);
      [Rebuild(list[..n])] + RebuildAll(list[n..], parent)
  }

  /** Below the first entry of a subtree nobody names a parent from outside it. */
  lemma {:induction false} InnerParents(rank: string -> nat, t: Tree, parent: Option<string>, bound: nat)
    requires Ranked(rank, t) && rank(t.res.id) < bound
    ensures forall k :: 0 < k < |Preorder(t, parent)| ==>
              Preorder(t, parent)[k].parent.Some? && rank(Preorder(t, parent)[k].parent.value) < bound
    decreases t, 0
  {
    InnerParentsAll(rank, t.kids, t.res.id, bound);
  }

  lemma {:induction false} InnerParentsAll(rank: string -> nat, ts: seq<Tree>, id: string, bound: nat)
    requires rank(id) < bound
    requires forall i :: 0 <= i < |ts| ==> rank(ts[i].res.id) < rank(id) && Ranked(rank, ts[i])
    ensures forall k :: 0 <= k < |PreorderAll(ts, Some(id))| ==>
              PreorderAll(ts, Some(id))[k].parent.Some? && rank(PreorderAll(ts, Some(id))[k].parent.value) < bound
    decreases ts, 1
  {
    if ts != [] {
      InnerParents(rank, ts[0], Some(id), bound);
      InnerParentsAll(rank, ts[1..], id, bound);
    }
  }

  lemma {:induction false} RunStops(list: seq<Node>, rest: seq<Node>, parent: Option<string>)
    requires forall k :: 0 <= k < |list| ==> list[k].parent != parent
    requires rest != [] ==> rest[0].parent == parent
    ensures Run(list + rest, parent) == |list|
  {
    if list == [] {
      assert list + rest == rest;
    } else {
      assert (list + rest)[1..] == list[1..] + rest;
      RunStops(list[1..], rest, parent);
    }
  }

  /** A list that starts a subtree with an entry under `parent` is rebuilt subtree by subtree. */
  lemma RebuildFirst(first: seq<Node>, rest: seq<Node>, parent: Option<string>)
    requires first != [] && Run(first[1..] + rest, parent) == |first| - 1
    ensures RebuildAll(first + rest, parent) == [Rebuild(first)] + RebuildAll(rest, parent)
  {
    assert (first + rest)[1..] == first[1..] + rest;
    assert (first + rest)[..|first|] == first && (first + rest)[|first|..] == rest;
  }

  lemma {:induction false} RebuildPreorder(rank: string -> nat, t: Tree, parent: Option<string>)
    requires Ranked(rank, t)
    ensures Rebuild(Preorder(t, parent)) == t
    decreases t, 0
  {
    assert Preorder(t, parent)[1..] == PreorderAll(t.kids, Some(t.res.id));
    RebuildPreorderAll(rank, t.kids, t.res.id);
  }

  lemma {:induction false} RebuildPreorderAll(rank: string -> nat, ts: seq<Tree>, id: string)
    requires forall i :: 0 <= i < |ts| ==> rank(ts[i].res.id) < rank(id) && Ranked(rank, ts[i])
    ensures RebuildAll(PreorderAll(ts, Some(id)), Some(id)) == ts
    decreases ts, 1
  {
    if ts != [] {
      var first, rest := Preorder(ts[0], Some(id)), PreorderAll(ts[1..], Some(id));
      InnerParents(rank, ts[0], Some(id), rank(id));
      RebuildPreorder(rank, ts[0], Some(id));
      RebuildPreorderAll(rank, ts[1..], id);
      assert rest != [] ==> rest[0].parent == Some(id);
      RunStops(first[1..], rest, Some(id));
      RebuildFirst(first, rest, Some(id));
    }
  }

  /** From every nonempty result the tree can be rebuilt, repeated resources included. */
  lemma ResultRebuilds(w: World, root: Res, c: Call, outside: bool)
    requires Acyclic(w) && IsRun(w, root, c, outside) && CrossplaneResourceTree(w, root, c, outside).nodes != []
    ensures Rebuild(CrossplaneResourceTree(w, root, c, outside).nodes) == Unfold(w, root)
  {
    EveryRun(w, root, c, outside);
    UnfoldRanked(w, root);
    RebuildPreorder(w.rank, Unfold(w, root), None);
  }

  /** Every node of the tree has below it exactly what its resource refers to, in order. */
  ghost predicate Follows(w: World, t: Tree) {
    && (t.res.kind == Plain ==> t.kids == [])
    && (t.res.kind == Composite ==>
          |t.kids| == |w.composed(t.res)| && forall i :: 0 <= i < |t.kids| ==> t.kids[i].res == w.composed(t.res)[i])
    && (t.res.kind == Claim ==>
          if w.composite(t.res).None? then t.kids == []
          else |t.kids| == 1 && t.kids[0].res == w.composite(t.res).value)
    && (forall i :: 0 <= i < |t.kids| ==> Follows(w, t.kids[i]))
  }

  lemma {:induction false} UnfoldFollows(w: World, r: Res)
    requires Acyclic(w)
    ensures Unfold(w, r).res == r && Follows(w, Unfold(w, r))
    decreases w.rank(r.id)
  {
    var t := Unfold(w, r);
    forall i | 0 <= i < |Expanded(w, r)| ensures t.kids[i].res == Expanded(w, r)[i] && Follows(w, t.kids[i]) {
      ExpandedKids(w, r, i);
      UnfoldFollows(w, Expanded(w, r)[i]);
    }
  }

  /**
   * The tree a client rebuilds from a nonempty result is that of the
   * references: under each composite its composed resources in order, under
   * each claim its composite, and nothing else.
   */
  lemma ResultFollows(w: World, root: Res, c: Call, outside: bool)
    requires Acyclic(w) && IsRun(w, root, c, outside) && CrossplaneResourceTree(w, root, c, outside).nodes != []
    ensures var t := Rebuild(CrossplaneResourceTree(w, root, c, outside).nodes);
            t.res == root && Follows(w, t)
  {
    ResultRebuilds(w, root, c, outside);
    UnfoldFollows(w, root);
  }

  // ----- Parents come first -----

  ghost predicate ParentsEarlier(list: seq<Node>, from: nat) {
    forall k :: from <= k < |list| ==> HasParentBefore(list, k)
  }

  ghost predicate HasParentBefore(list: seq<Node>, k: nat)
    requires k < |list|
  {
    list[k].parent.Some? && exists j :: 0 <= j < k && list[j].res.id == list[k].parent.value
  }

  lemma {:induction false} PreorderParents(t: Tree, parent: Option<string>)
    ensures Preorder(t, parent)[0] == Node(parent, t.res)
    ensures ParentsEarlier(Preorder(t, parent), 1)
    decreases t, 0
  {
    assert [Node(parent, t.res)][0].res.id == t.res.id;
    PreorderAllParents([Node(parent, t.res)], t.kids, t.res.id);
  }

  lemma {:induction false} PreorderAllParents(before: seq<Node>, ts: seq<Tree>, id: string)
    requires exists j :: 0 <= j < |before| && before[j].res.id == id
    ensures ParentsEarlier(before + PreorderAll(ts, Some(id)), |before|)
    decreases ts, 1
  {
    if ts != [] {
      var first, rest := Preorder(ts[0], Some(id)), PreorderAll(ts[1..], Some(id));
      PreorderParents(ts[0], Some(id));
      var j :| 0 <= j < |before| && before[j].res.id == id;
      assert (before + first)[j].res.id == id;
      PreorderAllParents(before + first, ts[1..], id);
      var all := before + first + rest;
      assert before + (first + rest) == all;
      forall k | |before| <= k < |all| ensures HasParentBefore(all, k) {
        if k == |before| {
          assert all[k] == first[0] && all[j] == before[j];
        } else if k < |before| + |first| {
          var i := k - |before|;
          assert HasParentBefore(first, i);
          var m :| 0 <= m < i && first[m].res.id == first[i].parent.value;
          assert all[k] == first[i] && all[|before| + m] == first[m];
        }
      }
    }
  }

  /** In every result the root comes first, without a parent, and every other entry after its parent. */
  lemma ResultParents(w: World, root: Res, c: Call, outside: bool)
    requires Acyclic(w) && IsRun(w, root, c, outside) && CrossplaneResourceTree(w, root, c, outside).nodes != []
    ensures var list := CrossplaneResourceTree(w, root, c, outside).nodes;
            list[0] == Node(None, root) && ParentsEarlier(list, 1)
  {
    EveryRun(w, root, c, outside);
    PreorderParents(Unfold(w, root), None);
  }
}
