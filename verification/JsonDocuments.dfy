/**
 * JSON documents, JSON pointers (RFC 6901) and the operations of a JSON patch
 * (section 4 of RFC 6902) on them.
 */
module JsonDocuments {
  import opened Wrappers

  datatype Json =
    | Null
    | Bool(b: bool)
    | Num(n: real)
    | Str(s: string)
    | Arr(elems: seq<Json>)
    | Obj(members: map<string, Json>)

  type Pointer = seq<string>

  // ----- Pointers -----

  function Split(s: string): seq<string>
    ensures Split(s) != []
  {
    if s == "" then [""]
    else if s[0] == '/' then [""] + Split(s[1..])
    else [[s[0]] + Split(s[1..])[0]] + Split(s[1..])[1..]
  }

  function Unescape(s: string): Option<string> {
    if s == "" then Some("")
    else if s[0] != '~' then
      match Unescape(s[1..])
      case None => None
      case Some(t) => Some([s[0]] + t)
    else if |s| < 2 || (s[1] != '0' && s[1] != '1') then None
    else
      match Unescape(s[2..])
      case None => None
      case Some(t) => Some([if s[1] == '0' then '~' else '/'] + t)
  }

  function UnescapeAll(parts: seq<string>): Option<Pointer> {
    if parts == [] then Some([])
    else
      match (Unescape(parts[0]), UnescapeAll(parts[1..]))
      case (Some(p), Some(ps)) => Some([p] + ps)
      case _ => None
  }

  function ParsePointer(path: string): Option<Pointer> {
    if path == "" then Some([])
    else if path[0] != '/' then None
    else UnescapeAll(Split(path[1..]))
  }

  function Digits(s: string): Option<nat> {
    if s == "" then Some(0)
    else if !('0' <= s[|s| - 1] <= '9') then None
    else
      match Digits(s[..|s| - 1])
      case None => None
      case Some(n) => Some(10 * n + (s[|s| - 1] as int - '0' as int))
  }

  /** An array index: digits without a leading zero. */
  function Index(token: string): Option<nat> {
    if token == "" || (token[0] == '0' && token != "0") then None else Digits(token)
  }

  // ----- One level of a document -----

  function Child(d: Json, token: string): Option<Json> {
    match d
    case Obj(ms) => if token in ms then Some(ms[token]) else None
    case Arr(es) =>
      (match Index(token)
       case Some(i) => if i < |es| then Some(es[i]) else None
       case None => None)
    case _ => None
  }

  function WithChild(d: Json, token: string, c: Json): Json
    requires Child(d, token).Some?
  {
    match d
    case Obj(ms) => Obj(ms[token := c])
    case Arr(es) => Arr(es[Index(token).value := c])
  }

  /** Adding at a member sets it, at an index inserts before it, at "-" appends. */
  function Place(d: Json, token: string, v: Json): Option<Json> {
    match d
    case Obj(ms) => Some(Obj(ms[token := v]))
    case Arr(es) =>
      if token == "-" then Some(Arr(es + [v]))
      else
        (match Index(token)
         case Some(i) => if i <= |es| then Some(Arr(es[..i] + [v] + es[i..])) else None
         case None => None)
    case _ => None
  }

  function Drop(d: Json, token: string): Option<Json> {
    if Child(d, token).None? then None
    else
      match d
      case Obj(ms) => Some(Obj(ms - {token}))
      case Arr(es) => var i := Index(token).value; Some(Arr(es[..i] + es[i + 1..]))
  }

  // ----- Operations at a pointer -----

  function Lookup(d: Json, p: Pointer): Option<Json> {
    if p == [] then Some(d)
    else
      match Child(d, p[0])
      case None => None
      case Some(c) => Lookup(c, p[1..])
  }

  function InChild(d: Json, token: string, c: Option<Json>): Option<Json>
    requires Child(d, token).Some?
  {
    match c
    case None => None
    case Some(v) => Some(WithChild(d, token, v))
  }

  function AddAt(d: Json, p: Pointer, v: Json): Option<Json> {
    if p == [] then Some(v)
    else if |p| == 1 then Place(d, p[0], v)
    else
      match Child(d, p[0])
      case None => None
      case Some(c) => InChild(d, p[0], AddAt(c, p[1..], v))
  }

  function RemoveAt(d: Json, p: Pointer): Option<Json>
    requires p != []
  {
    if |p| == 1 then Drop(d, p[0])
    else
      match Child(d, p[0])
      case None => None
      case Some(c) => InChild(d, p[0], RemoveAt(c, p[1..]))
  }

  /** Replacing requires the target to exist and changes nothing but its value. */
  function ReplaceAt(d: Json, p: Pointer, v: Json): Option<Json> {
    if p == [] then Some(v)
    else
      match Child(d, p[0])
      case None => None
      case Some(c) => InChild(d, p[0], ReplaceAt(c, p[1..], v))
  }

  // ----- Patches -----

  datatype Op = Add | Remove | Replace | Move | Other(name: string)
  datatype Operation = Operation(op: Op, path: string, from: string, value: Json)

  /** A whole document; removing its root leaves none. */
  datatype Document = Absent | Present(value: Json)

  function Wrap(d: Option<Json>): Option<Document> {
    match d
    case None => None
    case Some(v) => Some(Present(v))
  }

  function AddDoc(doc: Document, p: Pointer, v: Json): Option<Document> {
    if p == [] then Some(Present(v))
    else if doc.Absent? then None
    else Wrap(AddAt(doc.value, p, v))
  }

  function RemoveDoc(doc: Document, p: Pointer): Option<Document> {
    if doc.Absent? then None
    else if p == [] then Some(Absent)
    else Wrap(RemoveAt(doc.value, p))
  }

  function ReplaceDoc(doc: Document, p: Pointer, v: Json): Option<Document> {
    if doc.Absent? then None else Wrap(ReplaceAt(doc.value, p, v))
  }

  /** One operation; None is failure. */
  function Apply(o: Operation, doc: Document): Option<Document> {
    match (ParsePointer(o.path), o.op)
    case (None, _) => None
    case (Some(p), Add) => AddDoc(doc, p, o.value)
    case (Some(p), Remove) => RemoveDoc(doc, p)
    case (Some(p), Replace) => ReplaceDoc(doc, p, o.value)
    case (Some(p), Move) => ApplyMove(o, p, doc)
    case (Some(p), Other("copy")) =>
      (match ParsePointer(o.from)
       case Some(f) =>
         if doc.Absent? || Lookup(doc.value, f).None? then None
         else AddDoc(doc, p, Lookup(doc.value, f).value)
       case None => None)
    case (Some(p), Other("test")) =>
      if doc.Present? && Lookup(doc.value, p) == Some(o.value) then Some(doc) else None
    case (Some(p), Other(_)) => None
  }

  function ApplyMove(o: Operation, p: Pointer, doc: Document): Option<Document> {
    match ParsePointer(o.from)
    case None => None
    case Some(f) =>
      if doc.Absent? || Lookup(doc.value, f).None? || f < p then None
      else
        match RemoveDoc(doc, f)
        case None => None
        case Some(rest) => AddDoc(rest, p, Lookup(doc.value, f).value)
  }

  /** The operations in order, up to the first failure. */
  function ApplyPatch(ops: seq<Operation>, doc: Document): Option<Document> {
    if ops == [] then Some(doc)
    else
      match Apply(ops[0], doc)
      case None => None
      case Some(next) => ApplyPatch(ops[1..], next)
  }

  lemma {:induction false} ApplyPatchConcat(a: seq<Operation>, b: seq<Operation>, doc: Document)
    ensures ApplyPatch(a + b, doc) ==
            match ApplyPatch(a, doc)
            case None => None
            case Some(next) => ApplyPatch(b, next)
  {
    if a == [] {
      assert a + b == b;
    } else {
      assert (a + b)[1..] == a[1..] + b;
      if Apply(a[0], doc).Some? {
        ApplyPatchConcat(a[1..], b, Apply(a[0], doc).value);
      }
    }
  }

  // ----- remove, then add at the same place, is replace -----

  /** At one level: the target of a removal takes an addition back, at the same place. */
  lemma DropThenPlace(d: Json, token: string, v: Json)
    ensures Drop(d, token).None? <==> Child(d, token).None?
    ensures Drop(d, token).Some? ==> Place(Drop(d, token).value, token, v) == Some(WithChild(d, token, v))
  {
    if Child(d, token).Some? {
      match d
      case Obj(ms) =>
        assert (ms - {token})[token := v] == ms[token := v];
      case Arr(es) =>
        var i := Index(token).value;
        var rest := es[..i] + es[i + 1..];
        assert rest[..i] + [v] + rest[i..] == es[i := v];
    }
  }

  lemma WithChildTwice(d: Json, token: string, c1: Json, c2: Json)
    requires Child(d, token).Some?
    ensures Child(WithChild(d, token, c1), token) == Some(c1)
    ensures WithChild(WithChild(d, token, c1), token, c2) == WithChild(d, token, c2)
  {
    match d
    case Obj(ms) => assert ms[token := c1][token := c2] == ms[token := c2];
    case Arr(es) =>
      var i := Index(token).value;
      assert es[i := c1][i := c2] == es[i := c2];
  }

  /** At any depth: both fail together, and otherwise agree. */
  lemma {:induction false} RemoveThenAdd(d: Json, p: Pointer, v: Json)
    requires p != []
    ensures RemoveAt(d, p).None? <==> ReplaceAt(d, p, v).None?
    ensures RemoveAt(d, p).Some? ==> AddAt(RemoveAt(d, p).value, p, v) == ReplaceAt(d, p, v)
  {
    var token := p[0];
    if |p| == 1 {
      DropThenPlace(d, token, v);
      assert p[1..] == [];
    } else if Child(d, token).Some? {
      var c := Child(d, token).value;
      RemoveThenAdd(c, p[1..], v);
      if RemoveAt(c, p[1..]).Some? {
        WithChildTwice(d, token, RemoveAt(c, p[1..]).value, ReplaceAt(c, p[1..], v).value);
      }
    }
  }

  // ----- What the operations do, seen through lookups -----

  lemma {:induction false} RemoveAtExists(d: Json, p: Pointer)
    requires p != []
    ensures RemoveAt(d, p).Some? <==> Lookup(d, p).Some?
  {
    if |p| == 1 {
      assert p[1..] == [];
    } else if Child(d, p[0]).Some? {
      RemoveAtExists(Child(d, p[0]).value, p[1..]);
    }
  }

  /** The pointer leads past the end of an array, where adding appends. */
  predicate Appends(d: Json, p: Pointer) {
    p != [] && p[|p| - 1] == "-" && Lookup(d, p[..|p| - 1]).Some? && Lookup(d, p[..|p| - 1]).value.Arr?
  }

  /** What was added at a pointer is found there, unless it was appended to an array. */
  lemma {:induction false} AddAtLookup(d: Json, p: Pointer, v: Json)
    ensures AddAt(d, p, v).Some? ==> (Lookup(AddAt(d, p, v).value, p) == Some(v) <==> !Appends(d, p))
  {
    if |p| == 1 {
      assert p[1..] == [] && p[..0] == [];
      assert "-"[..0] == "" && Digits("-") == None;
    } else if |p| > 1 && Child(d, p[0]).Some? {
      var c := Child(d, p[0]).value;
      assert p[1..][..|p| - 2] == p[..|p| - 1][1..];
      AddAtLookup(c, p[1..], v);
      if AddAt(c, p[1..], v).Some? {
        WithChildTwice(d, p[0], AddAt(c, p[1..], v).value, v);
      }
    }
  }

  lemma {:induction false} DigitsPositive(s: string)
    requires s != "" && s[0] != '0' && Digits(s).Some?
    ensures Digits(s).value > 0
  {
    if |s| > 1 {
      DigitsPositive(s[..|s| - 1]);
    }
  }

  lemma {:induction false} DigitsInjective(a: string, b: string)
    requires Digits(a).Some? && Digits(a) == Digits(b)
    requires (a != "" ==> a[0] != '0') && (b != "" ==> b[0] != '0')
    ensures a == b
  {
    if a == "" {
      if b != "" { DigitsPositive(b); }
    } else if b == "" {
      DigitsPositive(a);
    } else {
      var pa, pb := a[..|a| - 1], b[..|b| - 1];
      DigitsInjective(pa, pb);
      assert a == pa + [a[|a| - 1]] && b == pb + [b[|b| - 1]];
    }
  }

  /** An array element has one token. */
  lemma IndexInjective(a: string, b: string)
    requires Index(a).Some? && Index(a) == Index(b)
    ensures a == b
  {
    assert Digits("") == Some(0);
    if a == "0" {
      assert a[..|a| - 1] == "";
      if b != "0" { DigitsPositive(b); }
    } else if b == "0" {
      assert b[..|b| - 1] == "";
      DigitsPositive(a);
    } else {
      DigitsInjective(a, b);
    }
  }

  lemma OtherChildStays(d: Json, token: string, c: Json, other: string)
    requires Child(d, token).Some? && other != token
    ensures Child(WithChild(d, token, c), other) == Child(d, other)
  {
    if d.Arr? && Index(other) == Index(token) {
      IndexInjective(other, token);
    }
  }

  /** Neither pointer leads through the other. */
  predicate Apart(p: Pointer, q: Pointer) {
    !(p <= q) && !(q <= p)
  }

  /** Replacing succeeds exactly where there is something, puts the value there, and changes nothing apart from it. */
  lemma {:induction false} ReplaceChangesOnlyTarget(d: Json, p: Pointer, v: Json, q: Pointer)
    ensures ReplaceAt(d, p, v).Some? <==> Lookup(d, p).Some?
    ensures ReplaceAt(d, p, v).Some? ==> Lookup(ReplaceAt(d, p, v).value, p) == Some(v)
    ensures ReplaceAt(d, p, v).Some? && Apart(p, q) ==> Lookup(ReplaceAt(d, p, v).value, q) == Lookup(d, q)
  {
    if p != [] && Child(d, p[0]).Some? {
      var c := Child(d, p[0]).value;
      var q' := if q == [] then [] else q[1..];
      ReplaceChangesOnlyTarget(c, p[1..], v, q');
      if ReplaceAt(c, p[1..], v).Some? {
        var c' := ReplaceAt(c, p[1..], v).value;
        WithChildTwice(d, p[0], c', v);
        if Apart(p, q) {
          assert q != [] by { assert [] <= p; }
          if q[0] != p[0] {
            OtherChildStays(d, p[0], c', q[0]);
          } else {
            assert p == [p[0]] + p[1..] && q == [q[0]] + q[1..];
            assert Apart(p[1..], q[1..]);
          }
        }
      }
    }
  }
}
