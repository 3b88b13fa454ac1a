/**
 * The JSON form of patch operations: members that are empty are omitted when
 * an operation is written, and section 4 of RFC 6902 says which members an
 * operation must have when it is read.
 */
module PatchWire {
  import opened Wrappers
  import opened JsonDocuments
  import opened PatchCoalescing
  import opened RevisionStream

  function OpName(op: Op): string {
    match op
    case Add => "add"
    case Remove => "remove"
    case Replace => "replace"
    case Move => "move"
    case Other(name) => name
  }

  function OpOf(name: string): Op {
    if name == "add" then Add
    else if name == "remove" then Remove
    else if name == "replace" then Replace
    else if name == "move" then Move
    else Other(name)
  }

  /** Operations as read from JSON: a name that has a constant of its own is that constant. */
  ghost predicate WellNamed(o: Operation) {
    OpOf(OpName(o.op)) == o.op
  }

  function Encode(o: Operation): Json {
    var head := map["op" := Str(OpName(o.op)), "path" := Str(o.path)];
    var withFrom := if o.from == "" then head else head["from" := Str(o.from)];
    Obj(if o.value == Null then withFrom else withFrom["value" := o.value])
  }

  predicate NeedsValue(op: Op) {
    op == Add || op == Replace || op == Other("test")
  }

  predicate NeedsFrom(op: Op) {
    op == Move || op == Other("copy")
  }

  function StringMember(ms: map<string, Json>, name: string): Option<string> {
    if name in ms && ms[name].Str? then Some(ms[name].s) else None
  }

  function Decode(j: Json): Option<Operation> {
    if !j.Obj? then None
    else
      match (StringMember(j.members, "op"), StringMember(j.members, "path"))
      case (Some(name), Some(path)) =>
        var op := OpOf(name);
        if NeedsValue(op) && "value" !in j.members then None
        else if NeedsFrom(op) && StringMember(j.members, "from").None? then None
        else
          var from := match StringMember(j.members, "from") case None => "" case Some(f) => f;
          Some(Operation(op, path, from, if "value" in j.members then j.members["value"] else Null))
      case _ => None
  }

  /** The JSON form: these members, and an empty one is omitted. */
  lemma WireForm(o: Operation)
    ensures Encode(o).Obj?
    ensures Encode(o).members.Keys ==
            {"op", "path"} + (if o.from == "" then {} else {"from"}) + (if o.value == Null then {} else {"value"})
    ensures Encode(o).members["path"] == Str(o.path)
    ensures o.from != "" ==> Encode(o).members["from"] == Str(o.from)
    ensures o.value != Null ==> Encode(o).members["value"] == o.value
    ensures Encode(o).members["op"] ==
            Str(match o.op
                case Add => "add"
                case Remove => "remove"
                case Replace => "replace"
                case Move => "move"
                case Other(name) => name)
  {
  }

  ghost predicate IsString(ms: map<string, Json>, name: string) {
    name in ms && ms[name].Str?
  }

  /** What a reader accepts: an operation with a path, and a value or a source where section 4 asks for one. */
  lemma ReadIff(ms: map<string, Json>)
    ensures Decode(Obj(ms)).Some? <==>
            && IsString(ms, "op") && IsString(ms, "path")
            && (ms["op"].s in {"add", "replace", "test"} ==> "value" in ms)
            && (ms["op"].s in {"move", "copy"} ==> IsString(ms, "from"))
    ensures forall j: Json :: !j.Obj? ==> Decode(j) == None
  {
  }

  /** What the writer omits is not a member the reader insists on. */
  predicate Survives(o: Operation) {
    !(NeedsValue(o.op) && o.value == Null) && !(NeedsFrom(o.op) && o.from == "")
  }

  /** An operation comes back from its JSON form exactly if it survives; otherwise it is rejected. */
  lemma OperationRoundTripIff(o: Operation)
    requires WellNamed(o)
    ensures Decode(Encode(o)) == if Survives(o) then Some(o) else None
  {
    var ms := Encode(o).members;
    assert "op" in ms && ms["op"] == Str(OpName(o.op));
    assert "path" in ms && ms["path"] == Str(o.path);
    assert "from" in ms <==> o.from != "";
    assert "value" in ms <==> o.value != Null;
  }

  function EncodeAll(ops: seq<Operation>): seq<Json> {
    seq(|ops|, i requires 0 <= i < |ops| => Encode(ops[i]))
  }

  function DecodeAll(js: seq<Json>): Option<seq<Operation>> {
    if js == [] then Some([])
    else
      match (Decode(js[0]), DecodeAll(js[1..]))
      case (Some(o), Some(os)) => Some([o] + os)
      case _ => None
  }

  predicate AllSurvive(ops: seq<Operation>) {
    forall o :: o in ops ==> Survives(o)
  }

  ghost predicate AllNamed(ops: seq<Operation>) {
    forall o :: o in ops ==> WellNamed(o)
  }

  lemma {:induction false} PatchRoundTripIff(ops: seq<Operation>)
    requires AllNamed(ops)
    ensures DecodeAll(EncodeAll(ops)) == if AllSurvive(ops) then Some(ops) else None
  {
    if ops != [] {
      var rest := ops[1..];
      assert ops == [ops[0]] + rest;
      assert AllSurvive(ops) <==> Survives(ops[0]) && AllSurvive(rest);
      assert EncodeAll(ops)[1..] == EncodeAll(rest);
      OperationRoundTripIff(ops[0]);
      PatchRoundTripIff(rest);
    }
  }

  /** A client that receives the JSON form of what is delivered. */
  function ReceiveWritten(client: map<Path, Json>, d: Delivery): Option<map<Path, Json>> {
    match d
    case Full(_, _) => Receive(client, d)
    case Patched(path, revision, patch) =>
      match DecodeAll(EncodeAll(patch))
      case None => None
      case Some(ops) => Receive(client, Patched(path, revision, ops))
  }

  /**
   * A delivery brings such a client to the new data exactly if it is whole, or
   * every operation of the diff it was made from survives being written.
   */
  lemma WrittenDeliveryIff(diff: Differ, st: Stats, resp: Response)
    requires Diffs(diff) && Delivered(diff, st, resp).Some?
    requires forall x, y :: AllNamed(diff(x, y))
    ensures var d := Delivered(diff, st, resp).value;
            ReceiveWritten(st.prevData, d) == Some(st.prevData[resp.path := resp.data]) <==>
            d.Full? || (resp.path in st.prevData && AllSurvive(diff(st.prevData[resp.path], resp.data)))
  {
    OneResponse(diff, st, resp);
    var d := Delivered(diff, st, resp).value;
    if d.Patched? {
      var ops := diff(st.prevData[resp.path], resp.data);
      CoalescedNames(ops);
      CoalescedSurvives(ops);
      PatchRoundTripIff(d.patch);
    }
  }

  /** Coalescing neither saves an operation from being lost nor loses one. */
  lemma {:induction false} CoalescedSurvives(ops: seq<Operation>)
    ensures AllSurvive(Coalesced(ops)) <==> AllSurvive(ops)
    decreases |ops|
  {
    if |ops| >= 2 {
      SurviveHead(ops);
      SurviveHead(ops[1..]);
      if Mergeable(ops[0], ops[1]) {
        assert ops[1..][1..] == ops[2..];
        CoalescedSurvives(ops[2..]);
        SurviveCons(Merge(ops[1]), Coalesced(ops[2..]));
      } else {
        CoalescedSurvives(ops[1..]);
        SurviveCons(ops[0], Coalesced(ops[1..]));
      }
    }
  }

  lemma SurviveCons(o: Operation, rest: seq<Operation>)
    ensures AllSurvive([o] + rest) <==> Survives(o) && AllSurvive(rest)
  {
    assert o in [o] + rest;
    assert forall x :: x in [o] + rest <==> x == o || x in rest;
  }

  lemma SurviveHead(ops: seq<Operation>)
    requires ops != []
    ensures AllSurvive(ops) <==> Survives(ops[0]) && AllSurvive(ops[1..])
  {
    SurviveCons(ops[0], ops[1..]);
    assert ops == [ops[0]] + ops[1..];
  }

  lemma {:induction false} CoalescedNames(ops: seq<Operation>)
    requires AllNamed(ops)
    ensures AllNamed(Coalesced(ops))
    decreases |ops|
  {
    if |ops| >= 2 {
      if Mergeable(ops[0], ops[1]) {
        CoalescedNames(ops[2..]);
      } else {
        CoalescedNames(ops[1..]);
      }
    }
  }

  /** A field that becomes null: the patch is right, but written out it is rejected. */
  lemma NullIsLost()
    ensures var patch := [Operation(Replace, "/a", "", Null)];
            && ApplyPatch(patch, Present(Obj(map["a" := Bool(true)]))) == Some(Present(Obj(map["a" := Null])))
            && DecodeAll(EncodeAll(patch)) == None
  {
    var o := Operation(Replace, "/a", "", Null);
    PatchRoundTripIff([o]);
    assert o in [o] && !Survives(o);
    assert ParsePointer("/a") == Some(["a"]) by {
      var a := "a";
      assert "/a"[1..] == a && a[1..] == "" && a == ['a'] + "";
      assert Split("") == [""] && Split(a) == [a];
      assert Unescape("") == Some("") && Unescape(a) == Some(a);
      var parts: seq<string> := [a];
      assert parts[1..] == [] && UnescapeAll(parts) == Some(parts);
    }
    var d := Obj(map["a" := Bool(true)]);
    assert ReplaceAt(d, ["a"], Null) == Some(Obj(map["a" := Null])) by {
      assert ["a"][1..] == [];
      assert d.members["a" := Null] == map["a" := Null];
    }
    assert [o][1..] == [];
  }
}
