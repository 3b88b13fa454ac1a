/**
 * The stream of responses of a live query: the first response of a path is
 * sent whole, later ones as a patch with a revision, and a client folds what
 * it receives back into the data.
 */
module RevisionStream {
  import opened Wrappers
  import opened JsonDocuments
  import opened PatchCoalescing

  type Path = string

  datatype Response = Response(path: Path, data: Json, failed: bool)

  /** What leaves the server: the whole data, or a patch extension in its place. */
  datatype Delivery = Full(path: Path, data: Json) | Patched(path: Path, revision: nat, patch: seq<Operation>)

  datatype Stats = Stats(revisions: map<Path, nat>, prevData: map<Path, Json>)

  /** The JSON differ: patches between two values. */
  type Differ = (Json, Json) -> seq<Operation>

  /** All that is asked of the differ: its patch leads from the one value to the other. */
  ghost predicate Diffs(diff: Differ) {
    forall x, y :: ApplyPatch(diff(x, y), Present(x)) == Some(Present(y))
  }

  function Revision(st: Stats, path: Path): nat {
    if path in st.revisions then st.revisions[path] else 0
  }

  function Record(st: Stats, resp: Response): Stats {
    Stats(st.revisions[resp.path := Revision(st, resp.path) + 1], st.prevData[resp.path := resp.data])
  }

  /** What one response becomes; None when nothing changed and nothing failed. */
  function Delivered(diff: Differ, st: Stats, resp: Response): Option<Delivery> {
    if resp.path !in st.prevData then Some(Full(resp.path, resp.data))
    else
      var patch := Coalesced(diff(st.prevData[resp.path], resp.data));
      if patch != [] then Some(Patched(resp.path, Revision(st, resp.path), patch))
      else if resp.failed then Some(Full(resp.path, resp.data))
      else None
  }

  function Responded(diff: Differ, st: Stats, resp: Response): Stats {
    if Delivered(diff, st, resp).None? then st else Record(st, resp)
  }

  class LiveQueryStats {
    const diff: Differ
    var revisions: map<Path, nat>
    var prevData: map<Path, Json>

    ghost function State(): Stats
      reads this
    {
      Stats(revisions, prevData)
    }

    constructor (diff: Differ)
      ensures State() == Stats(map[], map[]) && this.diff == diff
    {
      this.diff := diff;
      revisions, prevData := map[], map[];
    }

    /** Handles one response of the handler. */
    method Respond(resp: Response) returns (out: Option<Delivery>)
      modifies this`revisions, this`prevData
      ensures out == Delivered(diff, old(State()), resp)
      ensures State() == Responded(diff, old(State()), resp)
    {
      out := Some(Full(resp.path, resp.data));
      if resp.path in prevData {
        var patch := Coalesce(diff(prevData[resp.path], resp.data));
        if |patch| > 0 {
          out := Some(Patched(resp.path, if resp.path in revisions then revisions[resp.path] else 0, patch));
        } else if !resp.failed {
          // skip a response that tells the client nothing new
          return None;
        }
      }
      revisions := revisions[resp.path := (if resp.path in revisions then revisions[resp.path] else 0) + 1];
      prevData := prevData[resp.path := resp.data];
    }

    /**
     * One call of the response handler over what the resolvers yield: None
     * ends a handler and rearms the query. It returns at the first response
     * that has to be sent.
     */
    method Serve(turns: seq<Option<Response>>) returns (out: Option<Delivery>, used: nat, resets: nat)
      modifies this`revisions, this`prevData
      ensures used <= |turns|
      ensures State() == StatsAfter(diff, old(State()), Yielded(turns[..used]))
      ensures Sent(diff, old(State()), Yielded(turns[..used])) == (if out.Some? then [out.value] else [])
      ensures out.None? ==> used == |turns|
      ensures resets == used - |Yielded(turns[..used])|
    {
      out, used, resets := None, 0, 0;
      while used < |turns|
        invariant used <= |turns|
        invariant State() == StatsAfter(diff, old(State()), Yielded(turns[..used]))
        invariant Sent(diff, old(State()), Yielded(turns[..used])) == []
        invariant resets == used - |Yielded(turns[..used])|
        invariant out.None?
      {
        var turn := turns[used];
        YieldedSnoc(turns[..used], turn);
        YieldedOne(turn);
        assert turns[..used + 1] == turns[..used] + [turn];
        used := used + 1;
        if turn.None? {
          assert Yielded(turns[..used]) == Yielded(turns[..used - 1]);
          resets := resets + 1;
          continue;
        }
        FoldSnoc(diff, old(State()), Yielded(turns[..used - 1]), turn.value);
        out := Respond(turn.value);
        if out.Some? {
          return;
        }
      }
    }
  }

  function Yielded(turns: seq<Option<Response>>): seq<Response> {
    if turns == [] then []
    else (if turns[0].Some? then [turns[0].value] else []) + Yielded(turns[1..])
  }

  lemma {:induction false} YieldedSnoc(turns: seq<Option<Response>>, turn: Option<Response>)
    ensures Yielded(turns + [turn]) == Yielded(turns) + Yielded([turn])
  {
    if turns == [] {
      assert [] + [turn] == [turn];
    } else {
      var rest := turns[1..];
      assert (turns + [turn])[1..] == rest + [turn];
      YieldedSnoc(rest, turn);
    }
  }

  lemma YieldedOne(turn: Option<Response>)
    ensures Yielded([turn]) == if turn.Some? then [turn.value] else []
  {
  }

  // ----- Runs -----

  function StatsAfter(diff: Differ, st: Stats, resps: seq<Response>): Stats
    decreases |resps|
  {
    if resps == [] then st else StatsAfter(diff, Responded(diff, st, resps[0]), resps[1..])
  }

  function Sent(diff: Differ, st: Stats, resps: seq<Response>): seq<Delivery>
    decreases |resps|
  {
    if resps == [] then []
    else
      var rest := Sent(diff, Responded(diff, st, resps[0]), resps[1..]);
      match Delivered(diff, st, resps[0])
      case None => rest
      case Some(d) => [d] + rest
  }

  lemma {:induction false} FoldSnoc(diff: Differ, st: Stats, resps: seq<Response>, last: Response)
    ensures StatsAfter(diff, st, resps + [last]) == Responded(diff, StatsAfter(diff, st, resps), last)
    ensures Sent(diff, st, resps + [last]) ==
            Sent(diff, st, resps) +
            match Delivered(diff, StatsAfter(diff, st, resps), last)
            case None => []
            case Some(d) => [d]
    decreases |resps|
  {
    if resps == [] {
      assert (resps + [last])[1..] == [];
    } else {
      assert (resps + [last])[1..] == resps[1..] + [last];
      FoldSnoc(diff, Responded(diff, st, resps[0]), resps[1..], last);
    }
  }

  /** A client keeps whole data and applies each patch; None is a patch that does not apply. */
  function Receive(client: map<Path, Json>, d: Delivery): Option<map<Path, Json>> {
    match d
    case Full(path, data) => Some(client[path := data])
    case Patched(path, _, patch) =>
      if path !in client then None
      else
        match ApplyPatch(patch, Present(client[path]))
        case Some(Present(v)) => Some(client[path := v])
        case _ => None
  }

  function ReceiveAll(client: map<Path, Json>, ds: seq<Delivery>): Option<map<Path, Json>>
    decreases |ds|
  {
    if ds == [] then Some(client)
    else
      match Receive(client, ds[0])
      case None => None
      case Some(c) => ReceiveAll(c, ds[1..])
  }

  function LastData(resps: seq<Response>): map<Path, Json> {
    if resps == [] then map[]
    else LastData(resps[..|resps| - 1])[resps[|resps| - 1].path := resps[|resps| - 1].data]
  }

  function CountFor(ds: seq<Delivery>, path: Path): nat {
    if ds == [] then 0 else (if ds[0].path == path then 1 else 0) + CountFor(ds[1..], path)
  }

  lemma {:induction false} CountSnoc(ds: seq<Delivery>, d: Delivery, path: Path)
    ensures CountFor(ds + [d], path) == CountFor(ds, path) + (if d.path == path then 1 else 0)
  {
    if ds == [] {
      assert (ds + [d])[1..] == [];
    } else {
      assert (ds + [d])[1..] == ds[1..] + [d];
      CountSnoc(ds[1..], d, path);
    }
  }

  lemma {:induction false} ReceiveSnoc(client: map<Path, Json>, ds: seq<Delivery>, d: Delivery)
    ensures ReceiveAll(client, ds + [d]) ==
            match ReceiveAll(client, ds)
            case None => None
            case Some(c) => Receive(c, d)
    decreases |ds|
  {
    if ds == [] {
      assert (ds + [d])[1..] == [];
    } else {
      assert (ds + [d])[1..] == ds[1..] + [d];
      if Receive(client, ds[0]).Some? {
        ReceiveSnoc(Receive(client, ds[0]).value, ds[1..], d);
      }
    }
  }

  /** One response: a client that agrees with the server's data agrees with the response afterwards. */
  lemma OneResponse(diff: Differ, st: Stats, resp: Response)
    requires Diffs(diff)
    ensures match Delivered(diff, st, resp)
            case None => resp.path in st.prevData && st.prevData[resp.path] == resp.data
            case Some(d) => d.path == resp.path && Receive(st.prevData, d) == Some(st.prevData[resp.path := resp.data])
  {
    if resp.path in st.prevData {
      var x := st.prevData[resp.path];
      CoalescedSameMeaning(diff(x, resp.data), Present(x));
      CoalescedNormal(diff(x, resp.data));
    }
  }

  /** The diff of equal values is empty. */
  ghost predicate NoIdleDiff(diff: Differ) {
    forall x :: diff(x, x) == []
  }

  /**
   * What becomes of a response: it is skipped exactly if it says nothing new
   * and did not fail, it is a patch exactly if there is other data to patch,
   * and otherwise it is sent whole.
   */
  lemma DeliveredIff(diff: Differ, st: Stats, resp: Response)
    requires Diffs(diff) && NoIdleDiff(diff)
    ensures var d := Delivered(diff, st, resp);
            && (d == None <==> resp.path in st.prevData && st.prevData[resp.path] == resp.data && !resp.failed)
            && (d.Some? && d.value.Patched? <==> resp.path in st.prevData && st.prevData[resp.path] != resp.data)
            && (d.Some? && d.value.Full? ==> d.value == Full(resp.path, resp.data))
            && (d.Some? && d.value.Patched? ==>
                  d.value.path == resp.path && d.value.revision == Revision(st, resp.path))
  {
    if resp.path in st.prevData {
      var x := st.prevData[resp.path];
      CoalescedNormal(diff(x, resp.data));
      assert ApplyPatch(diff(x, resp.data), Present(x)) == Some(Present(resp.data));
    }
  }

  /**
   * Over every run of responses: every patch applies, the client holds the
   * server's previous data, which is the data of the last response of each
   * path, sent or skipped; and the revision of a path counts its deliveries.
   */
  lemma {:induction false} ClientFollows(diff: Differ, resps: seq<Response>)
    requires Diffs(diff)
    ensures var st := StatsAfter(diff, Stats(map[], map[]), resps);
            var sent := Sent(diff, Stats(map[], map[]), resps);
            && ReceiveAll(map[], sent) == Some(st.prevData)
            && st.prevData == LastData(resps)
            && (forall path :: Revision(st, path) == CountFor(sent, path))
  {
    if resps != [] {
      var pre, last := resps[..|resps| - 1], resps[|resps| - 1];
      assert resps == pre + [last];
      var st0 := Stats(map[], map[]);
      var st, sent := StatsAfter(diff, st0, pre), Sent(diff, st0, pre);
      ClientFollows(diff, pre);
      FoldSnoc(diff, st0, pre, last);
      OneResponse(diff, st, last);
      match Delivered(diff, st, last) {
        case None =>
          assert sent + [] == sent;
          assert st.prevData[last.path := last.data] == st.prevData;
        case Some(d) =>
          ReceiveSnoc(map[], sent, d);
          forall path { CountSnoc(sent, d, path); }
      }
    }
  }

  /** The delivery `d` is what a response is sent as, after data `last` of each path. */
  predicate SentAs(last: map<Path, Json>, resp: Response, d: Delivery) {
    && d.path == resp.path
    && (d.Patched? <==> resp.path in last && last[resp.path] != resp.data)
    && (d.Full? ==> d.data == resp.data)
  }

  /**
   * In every run, in terms of the responses alone: the next response adds
   * nothing to what was sent exactly if the last one of its path had its data
   * and it did not fail; otherwise it adds one delivery, a patch exactly if
   * the path had other data. So every failed response is delivered.
   */
  lemma EveryResponse(diff: Differ, resps: seq<Response>, next: Response)
    requires Diffs(diff) && NoIdleDiff(diff)
    ensures var sent, sent' := Sent(diff, Stats(map[], map[]), resps), Sent(diff, Stats(map[], map[]), resps + [next]);
            var last := LastData(resps);
            if next.path in last && last[next.path] == next.data && !next.failed then sent' == sent
            else exists d :: sent' == sent + [d] && SentAs(last, next, d)
  {
    var st := StatsAfter(diff, Stats(map[], map[]), resps);
    var sent := Sent(diff, Stats(map[], map[]), resps);
    ClientFollows(diff, resps);
    FoldSnoc(diff, Stats(map[], map[]), resps, next);
    DeliveredIff(diff, st, next);
    match Delivered(diff, st, next)
    case None => assert sent + [] == sent;
    case Some(d) => assert SentAs(LastData(resps), next, d);
  }

  /** The revision a patch carries is the number of deliveries its path had before it. */
  lemma RevisionCounts(diff: Differ, resps: seq<Response>, next: Response)
    requires Diffs(diff)
    ensures var d := Delivered(diff, StatsAfter(diff, Stats(map[], map[]), resps), next);
            d.Some? && d.value.Patched? ==>
              d.value.revision == CountFor(Sent(diff, Stats(map[], map[]), resps), next.path) && d.value.revision > 0
  {
    ClientFollows(diff, resps);
    PositiveRevision(diff, resps, next.path);
  }

  lemma {:induction false} PositiveRevision(diff: Differ, resps: seq<Response>, path: Path)
    ensures var st := StatsAfter(diff, Stats(map[], map[]), resps);
            path in st.prevData ==> Revision(st, path) > 0
  {
    if resps != [] {
      var pre, last := resps[..|resps| - 1], resps[|resps| - 1];
      assert resps == pre + [last];
      PositiveRevision(diff, pre, path);
      FoldSnoc(diff, Stats(map[], map[]), pre, last);
    }
  }
}
