/** The coalescing of adjacent remove and add operations into one replace. */
module PatchCoalescing {
  import opened Wrappers
  import opened JsonDocuments

  predicate Mergeable(rm: Operation, ad: Operation) {
    rm.path == ad.path && rm.op == Remove && ad.op == Add
  }

  function Merge(ad: Operation): Operation {
    Operation(Replace, ad.path, "", ad.value)
  }

  /** Pairs are merged from the left, each operation at most once. */
  function Coalesced(ops: seq<Operation>): seq<Operation> {
    if |ops| < 2 then ops
    else if Mergeable(ops[0], ops[1]) then [Merge(ops[1])] + Coalesced(ops[2..])
    else [ops[0]] + Coalesced(ops[1..])
  }

  /** The neighbours that remove something and add something in its place. */
  function Pairs(ops: seq<Operation>): nat {
    if |ops| < 2 then 0
    else (if ops[0].op == Remove && ops[1].op == Add && ops[0].path == ops[1].path then 1 else 0) + Pairs(ops[1..])
  }

  /** The loop over the generated patch, rewriting it in place. */
  method Coalesce(ops: seq<Operation>) returns (patch: seq<Operation>)
    ensures patch == Coalesced(ops)
    ensures forall doc :: ApplyPatch(patch, doc) == ApplyPatch(ops, doc)
    ensures IsNormal(patch) && |patch| == |ops| - Pairs(ops)
    ensures patch == [] <==> ops == []
  {
    patch := ops;
    var i := 1;
    while i < |patch|
      invariant 1 <= i <= |patch| + 1
      invariant Coalesced(ops) == DoneThen(patch, i)
      decreases |patch| - i
    {
      var rm, ad := patch[i - 1], patch[i];
      if rm.path != ad.path {
        StepKept(patch, i);
        i := i + 1;
        continue;
      }
      if rm.op == Remove && ad.op == Add {
        StepMerged(patch, i);
        patch := patch[i := Operation(Replace, ad.path, "", ad.value)];
        patch := patch[..i - 1] + patch[i..];
      } else {
        StepKept(patch, i);
      }
      i := i + 1;
    }
    assert patch[..i - 1] + patch[i - 1..] == patch;
    CoalescedNormal(ops);
    CoalescedLength(ops);
    forall doc ensures ApplyPatch(patch, doc) == ApplyPatch(ops, doc) {
      CoalescedSameMeaning(ops, doc);
    }
  }

  /** The part of the patch the loop has settled, and what is to become of the rest. */
  ghost function DoneThen(patch: seq<Operation>, i: nat): seq<Operation>
    requires 1 <= i <= |patch| + 1
  {
    patch[..i - 1] + Coalesced(patch[i - 1..])
  }

  lemma StepKept(patch: seq<Operation>, i: nat)
    requires 1 <= i < |patch| && !Mergeable(patch[i - 1], patch[i])
    ensures DoneThen(patch, i) == DoneThen(patch, i + 1)
  {
    var rest := patch[i - 1..];
    assert rest[0] == patch[i - 1] && rest[1] == patch[i] && rest[1..] == patch[i..];
    assert patch[..i] == patch[..i - 1] + [patch[i - 1]];
    assert DoneThen(patch, i) == patch[..i - 1] + ([patch[i - 1]] + Coalesced(patch[i..]));
  }

  lemma StepMerged(patch: seq<Operation>, i: nat)
    requires 1 <= i < |patch| && Mergeable(patch[i - 1], patch[i])
    ensures var written := patch[i := Merge(patch[i])];
            DoneThen(patch, i) == DoneThen(written[..i - 1] + written[i..], i + 1)
  {
    var written := patch[i := Merge(patch[i])];
    var next := written[..i - 1] + written[i..];
    var rest := patch[i - 1..];
    assert rest[0] == patch[i - 1] && rest[1] == patch[i] && rest[2..] == patch[i + 1..];
    assert next[..i] == patch[..i - 1] + [Merge(patch[i])] && next[i..] == patch[i + 1..];
    assert DoneThen(patch, i) == patch[..i - 1] + ([Merge(patch[i])] + Coalesced(patch[i + 1..]));
  }

  // ----- Meaning -----

  lemma PairSameMeaning(rm: Operation, ad: Operation, doc: Document)
    requires Mergeable(rm, ad)
    ensures ApplyPatch([rm, ad], doc) == ApplyPatch([Merge(ad)], doc)
  {
    assert [rm, ad][1..] == [ad] && [ad][1..] == [] && [Merge(ad)][1..] == [];
    if ParsePointer(rm.path).Some? {
      var p := ParsePointer(rm.path).value;
      if doc.Present? && p != [] {
        RemoveThenAdd(doc.value, p, ad.value);
      }
    }
  }

  /** The coalesced patch does to every document what the patch does, failures included. */
  lemma {:induction false} CoalescedSameMeaning(ops: seq<Operation>, doc: Document)
    ensures ApplyPatch(Coalesced(ops), doc) == ApplyPatch(ops, doc)
    decreases |ops|
  {
    if |ops| >= 2 {
      if Mergeable(ops[0], ops[1]) {
        PairSameMeaning(ops[0], ops[1], doc);
        assert ops == [ops[0], ops[1]] + ops[2..];
        ApplyPatchConcat([ops[0], ops[1]], ops[2..], doc);
        ApplyPatchConcat([Merge(ops[1])], Coalesced(ops[2..]), doc);
        if ApplyPatch([Merge(ops[1])], doc).Some? {
          CoalescedSameMeaning(ops[2..], ApplyPatch([Merge(ops[1])], doc).value);
        }
      } else {
        assert ([ops[0]] + Coalesced(ops[1..]))[1..] == Coalesced(ops[1..]);
        if Apply(ops[0], doc).Some? {
          CoalescedSameMeaning(ops[1..], Apply(ops[0], doc).value);
        }
      }
    }
  }

  // ----- Normal form -----

  ghost predicate IsNormal(ops: seq<Operation>) {
    forall i :: 0 <= i < |ops| - 1 ==> !(ops[i].op == Remove && ops[i + 1].op == Add && ops[i].path == ops[i + 1].path)
  }

  /** No adjacent pair is left, although the loop steps past the merged slot. */
  lemma {:induction false} CoalescedNormal(ops: seq<Operation>)
    ensures IsNormal(Coalesced(ops))
    ensures ops != [] ==> Coalesced(ops) != [] && (Coalesced(ops)[0] == ops[0] || Coalesced(ops)[0].op == Replace)
    ensures ops == [] <==> Coalesced(ops) == []
    decreases |ops|
  {
    if |ops| >= 2 {
      var rest := if Mergeable(ops[0], ops[1]) then ops[2..] else ops[1..];
      CoalescedNormal(rest);
      var r, t := Coalesced(ops), Coalesced(rest);
      forall i | 0 <= i < |r| - 1 ensures !Mergeable(r[i], r[i + 1]) {
        assert r[i + 1] == t[i];
        if i > 0 { assert r[i] == t[i - 1]; }
      }
    }
  }

  /** Merged pairs never overlap, so each one shortens the patch by one. */
  lemma {:induction false} CoalescedLength(ops: seq<Operation>)
    ensures |Coalesced(ops)| == |ops| - Pairs(ops)
    decreases |ops|
  {
    if |ops| >= 2 {
      if Mergeable(ops[0], ops[1]) {
        CoalescedLength(ops[2..]);
        assert ops[1..][1..] == ops[2..];
      } else {
        CoalescedLength(ops[1..]);
      }
    }
  }

  predicate Becomes(rm: Operation, ad: Operation, x: Operation) {
    rm.op == Remove && ad.op == Add && rm.path == ad.path && x == Operation(Replace, rm.path, "", ad.value)
  }

  /** An operation of the patch, or the replace that a removal and an addition at one place become. */
  ghost predicate ComesFrom(x: Operation, ops: seq<Operation>) {
    || (exists i :: 0 <= i < |ops| && ops[i] == x)
    || (exists i :: 0 <= i < |ops| - 1 && Becomes(ops[i], ops[i + 1], x))
  }

  lemma ComesFromTail(x: Operation, ops: seq<Operation>, k: nat)
    requires k <= |ops| && ComesFrom(x, ops[k..])
    ensures ComesFrom(x, ops)
  {
    var tail := ops[k..];
    if i :| 0 <= i < |tail| && tail[i] == x {
      assert ops[i + k] == x;
    } else {
      var i :| 0 <= i < |tail| - 1 && Becomes(tail[i], tail[i + 1], x);
      assert Becomes(ops[i + k], ops[i + k + 1], x);
    }
  }

  /** Nothing else is in the coalesced patch. */
  lemma {:induction false} CoalescedComesFrom(ops: seq<Operation>, x: Operation)
    requires x in Coalesced(ops)
    ensures ComesFrom(x, ops)
    decreases |ops|
  {
    if |ops| < 2 {
      assert ops[0] == x;
    } else if Mergeable(ops[0], ops[1]) {
      if x == Merge(ops[1]) {
        assert Becomes(ops[0], ops[0 + 1], x);
      } else {
        CoalescedComesFrom(ops[2..], x);
        ComesFromTail(x, ops, 2);
      }
    } else if x != ops[0] {
      CoalescedComesFrom(ops[1..], x);
      ComesFromTail(x, ops, 1);
    }
  }

  lemma {:induction false} NormalUnchanged(ops: seq<Operation>)
    requires IsNormal(ops)
    ensures Coalesced(ops) == ops
  {
    if |ops| >= 2 {
      assert !Mergeable(ops[0], ops[0 + 1]);
      NormalUnchanged(ops[1..]);
    }
  }

  /** A second pass changes nothing. */
  lemma {:induction false} CoalescedIdempotent(ops: seq<Operation>)
    ensures Coalesced(Coalesced(ops)) == Coalesced(ops)
  {
    CoalescedNormal(ops);
    NormalUnchanged(Coalesced(ops));
  }
}
