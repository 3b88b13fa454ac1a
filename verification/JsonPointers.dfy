/**
 * The text of JSON pointers (RFC 6901) and of array indices: what is parsed is
 * exactly what is rendered.
 */
module JsonPointers {
  import opened Wrappers
  import opened JsonDocuments

  // ----- Rendering -----

  /** Section 3 of RFC 6901: "~" is written "~0" and "/" is written "~1". */
  function Escape(t: string): string {
    if t == "" then ""
    else (if t[0] == '~' then "~0" else if t[0] == '/' then "~1" else [t[0]]) + Escape(t[1..])
  }

  function Render(p: Pointer): string {
    if p == [] then "" else "/" + Escape(p[0]) + Render(p[1..])
  }

  /** Parts, each behind a slash. */
  function Slashed(parts: seq<string>): string {
    if parts == [] then "" else "/" + parts[0] + Slashed(parts[1..])
  }

  predicate NoSlash(t: string) {
    '/' !in t
  }

  // ----- Tokens -----

  lemma {:induction false} UnescapeEscape(t: string)
    ensures Unescape(Escape(t)) == Some(t) && NoSlash(Escape(t))
  {
    if t != "" {
      UnescapeEscape(t[1..]);
      var e := Escape(t[1..]);
      assert t == [t[0]] + t[1..];
      if t[0] == '~' {
        assert ("~0" + e)[2..] == e;
      } else if t[0] == '/' {
        assert ("~1" + e)[2..] == e;
      } else {
        assert ([t[0]] + e)[1..] == e;
      }
    }
  }

  lemma {:induction false} EscapeUnescape(s: string)
    requires NoSlash(s) && Unescape(s).Some?
    ensures Escape(Unescape(s).value) == s
  {
    if s != "" {
      var t := Unescape(s).value;
      if s[0] != '~' {
        EscapeUnescape(s[1..]);
        assert t[1..] == Unescape(s[1..]).value && s == [s[0]] + s[1..];
      } else {
        EscapeUnescape(s[2..]);
        assert t[1..] == Unescape(s[2..]).value && s == [s[0], s[1]] + s[2..];
      }
    }
  }

  // ----- Parts -----

  lemma {:induction false} SplitNoSlash(s: string)
    ensures forall i :: 0 <= i < |Split(s)| ==> NoSlash(Split(s)[i])
  {
    if s != "" {
      SplitNoSlash(s[1..]);
      var parts := Split(s[1..]);
      if s[0] == '/' {
        assert forall i :: 0 < i < |Split(s)| ==> Split(s)[i] == parts[i - 1];
      } else {
        assert Split(s)[0] == [s[0]] + parts[0];
        assert forall i :: 0 < i < |Split(s)| ==> Split(s)[i] == parts[i];
      }
    }
  }

  lemma {:induction false} SplitParts(s: string)
    ensures Slashed(Split(s)) == "/" + s
  {
    if s == "" {
      assert Slashed([""]) == "/" + "" + Slashed([]);
    } else {
      SplitParts(s[1..]);
      var parts := Split(s[1..]);
      assert s == [s[0]] + s[1..];
      if s[0] == '/' {
        assert Split(s)[1..] == parts;
      } else {
        assert Split(s)[1..] == parts[1..];
        SlashedHead(parts, s[1..]);
      }
    }
  }

  /** Without its slash, the text of some parts begins with the first. */
  lemma SlashedHead(parts: seq<string>, s: string)
    requires parts != [] && Slashed(parts) == "/" + s
    ensures s == parts[0] + Slashed(parts[1..])
  {
    assert s == ("/" + s)[1..] == ("/" + parts[0] + Slashed(parts[1..]))[1..];
  }

  lemma {:induction false} SplitSlashed(first: string, parts: seq<string>)
    requires NoSlash(first) && forall i :: 0 <= i < |parts| ==> NoSlash(parts[i])
    ensures Split(first + Slashed(parts)) == [first] + parts
    decreases |parts|, |first|
  {
    var s := first + Slashed(parts);
    if first != "" {
      SplitSlashed(first[1..], parts);
      assert s[1..] == first[1..] + Slashed(parts) && s[0] == first[0];
      assert first == [first[0]] + first[1..];
    } else if parts != [] {
      SplitSlashed(parts[0], parts[1..]);
      assert s == "/" + (parts[0] + Slashed(parts[1..]));
      assert s[1..] == parts[0] + Slashed(parts[1..]);
      assert parts == [parts[0]] + parts[1..];
    }
  }

  // ----- Pointers -----

  function Escaped(p: Pointer): seq<string> {
    seq(|p|, i requires 0 <= i < |p| => Escape(p[i]))
  }

  lemma {:induction false} UnescapeAllEscaped(p: Pointer)
    ensures UnescapeAll(Escaped(p)) == Some(p) && Slashed(Escaped(p)) == Render(p)
  {
    if p != [] {
      UnescapeAllEscaped(p[1..]);
      UnescapeEscape(p[0]);
      assert Escaped(p)[1..] == Escaped(p[1..]) && p == [p[0]] + p[1..];
    }
  }

  lemma {:induction false} RenderUnescaped(parts: seq<string>)
    requires UnescapeAll(parts).Some? && forall i :: 0 <= i < |parts| ==> NoSlash(parts[i])
    ensures Render(UnescapeAll(parts).value) == Slashed(parts)
  {
    if parts != [] {
      RenderUnescaped(parts[1..]);
      EscapeUnescape(parts[0]);
      assert UnescapeAll(parts).value[1..] == UnescapeAll(parts[1..]).value;
    }
  }

  lemma RenderedIsParsed(p: Pointer)
    ensures ParsePointer(Render(p)) == Some(p)
  {
    if p != [] {
      UnescapeAllEscaped(p);
      RenderedParts(p);
    }
  }

  lemma RenderedParts(p: Pointer)
    requires p != []
    ensures Render(p) != "" && Render(p)[0] == '/' && Split(Render(p)[1..]) == Escaped(p)
  {
    UnescapeAllEscaped(p);
    var es := Escaped(p);
    forall i | 0 <= i < |es| ensures NoSlash(es[i]) {
      UnescapeEscape(p[i]);
    }
    SplitSlashed(es[0], es[1..]);
    SlashedHead(es, Render(p)[1..]);
    assert es == [es[0]] + es[1..];
  }

  lemma ParsedIsRendered(path: string, p: Pointer)
    requires ParsePointer(path) == Some(p)
    ensures path == Render(p)
  {
    if path != "" {
      SplitParts(path[1..]);
      SplitNoSlash(path[1..]);
      RenderUnescaped(Split(path[1..]));
      assert path == "/" + path[1..];
    }
  }

  /** A text is parsed to a pointer exactly if it is what the pointer is rendered to. */
  lemma ParsedIffRendered(path: string, p: Pointer)
    ensures ParsePointer(path) == Some(p) <==> path == Render(p)
  {
    RenderedIsParsed(p);
    if ParsePointer(path) == Some(p) {
      ParsedIsRendered(path, p);
    }
  }

  // ----- Indices -----

  function Digit(n: nat): char
    requires n < 10
  {
    ('0' as int + n) as char
  }

  function Decimal(n: nat): string {
    if n < 10 then [Digit(n)] else Decimal(n / 10) + [Digit(n % 10)]
  }

  lemma {:induction false} DigitsDecimal(n: nat)
    ensures Digits(Decimal(n)) == Some(n)
    ensures Decimal(n) != "" && (Decimal(n)[0] == '0' <==> n == 0)
  {
    if n < 10 {
      assert Decimal(n)[..0] == "";
    } else {
      DigitsDecimal(n / 10);
      assert Decimal(n)[..|Decimal(n)| - 1] == Decimal(n / 10);
    }
  }

  /** A token is an index exactly if it is the number in decimal, without leading zeros. */
  lemma IndexIffDecimal(token: string, n: nat)
    ensures Index(token) == Some(n) <==> token == Decimal(n)
  {
    DigitsDecimal(n);
    if Index(token) == Some(n) {
      IndexInjective(token, Decimal(n));
    }
  }

  /** What a pointer finds: members by name and elements by decimal index, one token after the other. */
  lemma LookupMeaning(d: Json, token: string, p: Pointer)
    ensures Lookup(d, []) == Some(d)
    ensures d.Obj? ==> Lookup(d, [token] + p) == if token in d.members then Lookup(d.members[token], p) else None
    ensures d.Arr? ==> forall i: nat :: token == Decimal(i) ==>
              Lookup(d, [token] + p) == if i < |d.elems| then Lookup(d.elems[i], p) else None
    ensures d.Arr? && (forall i: nat :: token != Decimal(i)) ==> Lookup(d, [token] + p) == None
    ensures !d.Obj? && !d.Arr? ==> Lookup(d, [token] + p) == None
  {
    assert ([token] + p)[1..] == p;
    forall i: nat ensures Index(token) == Some(i) <==> token == Decimal(i) {
      IndexIffDecimal(token, i);
    }
    if d.Arr? && Index(token).Some? {
      assert token == Decimal(Index(token).value);
    }
  }

  // ----- Adding and removing, in terms of the parent -----

  /** The elements are those before `i`, then `v`, then the others. */
  predicate Inserted(es: seq<Json>, i: nat, v: Json, r: seq<Json>) {
    && i <= |es| && |r| == |es| + 1 && r[i] == v
    && (forall j :: 0 <= j < i ==> r[j] == es[j])
    && (forall j :: i <= j < |es| ==> r[j + 1] == es[j])
  }

  /** Section 4.1 of RFC 6902: a member is set, an element inserted before the index, or after all others at "-". */
  lemma PlaceMeaning(d: Json, token: string, v: Json)
    ensures d.Obj? ==> Place(d, token, v) == Some(Obj(d.members[token := v]))
    ensures d.Arr? && token == "-" ==>
              Place(d, token, v).Some? && Place(d, token, v).value.Arr? &&
              Inserted(d.elems, |d.elems|, v, Place(d, token, v).value.elems)
    ensures d.Arr? ==> forall i: nat :: token == Decimal(i) ==>
              if i <= |d.elems| then Place(d, token, v).Some? && Place(d, token, v).value.Arr? &&
                                     Inserted(d.elems, i, v, Place(d, token, v).value.elems)
              else Place(d, token, v) == None
    ensures d.Arr? && token != "-" && (forall i: nat :: token != Decimal(i)) ==> Place(d, token, v) == None
    ensures !d.Obj? && !d.Arr? ==> Place(d, token, v) == None
  {
    forall i: nat ensures Index(token) == Some(i) <==> token == Decimal(i) {
      IndexIffDecimal(token, i);
    }
    assert Index("-") == None by { assert Digits("-") == None; }
    if d.Arr? && Index(token).Some? {
      assert token == Decimal(Index(token).value);
    }
  }

  /** Section 4.2: a member is removed, or an element, and those after it move up. */
  lemma DropMeaning(d: Json, token: string)
    ensures Drop(d, token).Some? <==> Lookup(d, [token]).Some?
    ensures d.Obj? && token in d.members ==> Drop(d, token) == Some(Obj(d.members - {token}))
    ensures d.Arr? && Drop(d, token).Some? ==>
              exists i: nat :: token == Decimal(i) && i < |d.elems| && Drop(d, token).value.Arr? &&
                Inserted(Drop(d, token).value.elems, i, d.elems[i], d.elems)
  {
    assert [token][1..] == [];
    if d.Arr? && Drop(d, token).Some? {
      var i := Index(token).value;
      IndexIffDecimal(token, i);
      assert Inserted(Drop(d, token).value.elems, i, d.elems[i], d.elems);
    }
  }

  function Instead(d: Json, p: Pointer, parent: Option<Json>): Option<Json> {
    match parent
    case None => None
    case Some(v) => ReplaceAt(d, p, v)
  }

  /** Adding and removing replace the parent, if it exists, by what it becomes. */
  lemma {:induction false} ChangesParentOnly(d: Json, p: Pointer, token: string, v: Json)
    ensures AddAt(d, p + [token], v) ==
            if Lookup(d, p).None? then None else Instead(d, p, Place(Lookup(d, p).value, token, v))
    ensures RemoveAt(d, p + [token]) ==
            if Lookup(d, p).None? then None else Instead(d, p, Drop(Lookup(d, p).value, token))
  {
    if p == [] {
      assert [] + [token] == [token];
    } else {
      assert (p + [token])[1..] == p[1..] + [token] && (p + [token])[0] == p[0];
      if Child(d, p[0]).Some? {
        ChangesParentOnly(Child(d, p[0]).value, p[1..], token, v);
      }
    }
  }

  // ----- Operations on documents -----

  /** Sections 4.1 to 4.3 on a document: the root can be added, removed and replaced; without it only be added. */
  lemma BasicOperations(path: string, p: Pointer, d: Json, v: Json)
    requires ParsePointer(path) == Some(p)
    ensures Apply(Operation(Add, path, "", v), Present(d)) == if p == [] then Some(Present(v)) else Wrap(AddAt(d, p, v))
    ensures Apply(Operation(Remove, path, "", v), Present(d)) == if p == [] then Some(Absent) else Wrap(RemoveAt(d, p))
    ensures Apply(Operation(Replace, path, "", v), Present(d)) ==
            if p == [] then Some(Present(v)) else Wrap(ReplaceAt(d, p, v))
    ensures Apply(Operation(Add, path, "", v), Absent) == if p == [] then Some(Present(v)) else None
    ensures Apply(Operation(Remove, path, "", v), Absent) == None
    ensures Apply(Operation(Replace, path, "", v), Absent) == None
  {
  }

  lemma ApplyOne(o: Operation, doc: Document)
    ensures ApplyPatch([o], doc) == Apply(o, doc)
  {
    assert [o][1..] == [];
    if Apply(o, doc).Some? {
      assert ApplyPatch([], Apply(o, doc).value) == Apply(o, doc);
    }
  }

  lemma ApplyTwo(o1: Operation, o2: Operation, doc: Document)
    ensures ApplyPatch([o1, o2], doc) == if Apply(o1, doc).None? then None else Apply(o2, Apply(o1, doc).value)
  {
    assert [o1, o2][1..] == [o2];
    if Apply(o1, doc).Some? {
      ApplyOne(o2, Apply(o1, doc).value);
    }
  }

  /** Section 4.4: moving is removing, and then adding what was there; not to a place below it. */
  lemma MoveMeaning(o: Operation, d: Json, p: Pointer, f: Pointer)
    requires o.op == Move && ParsePointer(o.path) == Some(p) && ParsePointer(o.from) == Some(f)
    ensures var v := Lookup(d, f);
            Apply(o, Present(d)) ==
            if v.None? || f < p then None
            else ApplyPatch([Operation(Remove, o.from, "", Null), Operation(Add, o.path, "", v.value)], Present(d))
  {
    var v := Lookup(d, f);
    if v.Some? {
      var rm, ad := Operation(Remove, o.from, "", Null), Operation(Add, o.path, "", v.value);
      ApplyTwo(rm, ad, Present(d));
      assert Apply(rm, Present(d)) == RemoveDoc(Present(d), f);
      assert RemoveDoc(Present(d), f).Some? ==>
          Apply(ad, RemoveDoc(Present(d), f).value) == AddDoc(RemoveDoc(Present(d), f).value, p, v.value);
    }
  }

  /** Section 4.5: copying is adding what is there. */
  lemma CopyMeaning(o: Operation, d: Json, f: Pointer)
    requires o.op == Other("copy") && ParsePointer(o.from) == Some(f)
    ensures Apply(o, Present(d)) ==
            if Lookup(d, f).None? then None else Apply(Operation(Add, o.path, "", Lookup(d, f).value), Present(d))
  {
  }

  /** Section 4.6: testing succeeds exactly on an equal value and changes nothing. */
  lemma TestMeaning(o: Operation, d: Json, p: Pointer)
    requires o.op == Other("test") && ParsePointer(o.path) == Some(p)
    ensures Apply(o, Present(d)) == if Lookup(d, p) == Some(o.value) then Some(Present(d)) else None
  {
  }
}
