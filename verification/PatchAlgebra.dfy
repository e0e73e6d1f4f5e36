/**
 Laws of patches: operations on unrelated paths can be reordered freely, and a patch can
 be undone by another patch exactly when it destroys nothing but text and nulls.
*/
module PatchAlgebra {
  import opened Results
  import opened Trees
  import opened Patch

  // ---------- an operation seen from one key of the root ----------

  function At(entries: map<string, Tree>, k: string): Option<Tree> {
    if k in entries then Some(entries[k]) else None
  }

  function Put(entries: map<string, Tree>, k: string, v: Option<Tree>): map<string, Tree> {
    if v.Some? then entries[k := v.value] else entries - {k}
  }

  /** What op does to the entry of the first key of its path; None if it fails. */
  function AtKey(v: Option<Tree>, rest: seq<string>, op: PatchOp): Option<Option<Tree>> {
    if rest == [] then
      if op.kind != Add && v.None? then None else Some(Held(op))
    else if v.None? then None
    else match ApplyAt(v.value, rest, op)
      case Failure(_) => None
      case Success(child) => Some(Some(child))
  }

  lemma ApplyAtKey(t: Tree, parts: seq<string>, op: PatchOp)
    requires parts != []
    ensures ApplyAt(t, parts, op).ToOption() ==
            if !t.Dict? then None
            else match AtKey(At(t.entries, parts[0]), parts[1..], op)
              case None => None
              case Some(v) => Some(Dict(Put(t.entries, parts[0], v)))
  {
  }

  // ---------- reordering ----------

  /** a at p, then b at q; None if either fails. */
  function Both(t: Tree, p: seq<string>, a: PatchOp, q: seq<string>, b: PatchOp): Option<Tree>
    requires p != [] && q != []
  {
    match ApplyAt(t, p, a)
    case Failure(_) => None
    case Success(s) => ApplyAt(s, q, b).ToOption()
  }

  lemma {:induction false} CommuteAt(t: Tree, p: seq<string>, a: PatchOp, q: seq<string>, b: PatchOp)
    requires p != [] && q != [] && Incomparable(p, q)
    ensures Both(t, p, a, q, b) == Both(t, q, b, p, a)
  {
    if t.Dict? {
      ApplyAtKey(t, p, a);
      ApplyAtKey(t, q, b);
      if p[0] != q[0] {
        CommuteApart(t.entries, p, a, q, b);
      } else {
        assert p == [p[0]] + p[1..] && q == [q[0]] + q[1..];
        if p[0] in t.entries {
          CommuteAt(t.entries[p[0]], p[1..], a, q[1..], b);
          BothBelow(t.entries, p, a, q, b);
          BothBelow(t.entries, q, b, p, a);
        }
      }
    }
  }

  lemma BothBelow(entries: map<string, Tree>, p: seq<string>, a: PatchOp, q: seq<string>, b: PatchOp)
    requires |p| > 1 && |q| > 1 && p[0] == q[0] && p[0] in entries
    ensures Both(Dict(entries), p, a, q, b) ==
            match Both(entries[p[0]], p[1..], a, q[1..], b)
            case None => None
            case Some(child) => Some(Dict(entries[p[0] := child]))
  {
    var k := p[0];
    if ApplyAt(entries[k], p[1..], a).Success? {
      var c := ApplyAt(entries[k], p[1..], a).value;
      if ApplyAt(c, q[1..], b).Success? {
        var d := ApplyAt(c, q[1..], b).value;
        assert entries[k := c][k := d] == entries[k := d];
      }
    }
  }

  lemma CommuteApart(entries: map<string, Tree>, p: seq<string>, a: PatchOp, q: seq<string>, b: PatchOp)
    requires p != [] && q != [] && p[0] != q[0]
    ensures Both(Dict(entries), p, a, q, b) == Both(Dict(entries), q, b, p, a)
  {
    var t, j, k := Dict(entries), p[0], q[0];
    ApplyAtKey(t, p, a);
    ApplyAtKey(t, q, b);
    var u, v := AtKey(At(entries, j), p[1..], a), AtKey(At(entries, k), q[1..], b);
    if u.Some? {
      ApplyAtKey(Dict(Put(entries, j, u.value)), q, b);
      assert At(Put(entries, j, u.value), k) == At(entries, k);
    }
    if v.Some? {
      ApplyAtKey(Dict(Put(entries, k, v.value)), p, a);
      assert At(Put(entries, k, v.value), j) == At(entries, j);
    }
    if u.Some? && v.Some? {
      assert Put(Put(entries, j, u.value), k, v.value) == Put(Put(entries, k, v.value), j, u.value);
    }
  }

  /** The operations' paths are unrelated: neither leads to the other. */
  predicate Unrelated(a: PatchOp, b: PatchOp) {
    Incomparable(Parts(a.path), Parts(b.path))
  }

  /** Two operations on unrelated paths can be swapped, failures included. */
  lemma Commute(t: Tree, a: PatchOp, b: PatchOp, rest: seq<PatchOp>)
    requires Unrelated(a, b)
    ensures ApplyPatch(t, [a, b] + rest).ToOption() == ApplyPatch(t, [b, a] + rest).ToOption()
  {
    var p, q := Parts(a.path), Parts(b.path);
    assert p != [] && q != [];
    CommuteAt(t, p, a, q, b);
    ApplyTwo(t, a, b, rest);
    ApplyTwo(t, b, a, rest);
  }

  lemma ApplyTwo(t: Tree, a: PatchOp, b: PatchOp, rest: seq<PatchOp>)
    requires Parts(a.path) != [] && Parts(b.path) != []
    ensures ApplyPatch(t, [a, b] + rest).ToOption() ==
            match Both(t, Parts(a.path), a, Parts(b.path), b)
            case None => None
            case Some(s) => ApplyPatch(s, rest).ToOption()
  {
  }

  lemma {:induction false} MoveToFront(t: Tree, pre: seq<PatchOp>, x: PatchOp, post: seq<PatchOp>)
    requires forall y | y in pre :: Unrelated(y, x)
    ensures ApplyPatch(t, pre + [x] + post).ToOption() == ApplyPatch(t, [x] + pre + post).ToOption()
    decreases |pre|
  {
    if pre == [] {
      assert pre + [x] + post == [x] + pre + post;
    } else {
      var y, tail := pre[0], pre[1..];
      assert pre + [x] + post == [y] + (tail + [x] + post);
      if ApplyOne(t, y).Success? {
        var s := ApplyOne(t, y).value;
        MoveToFront(s, tail, x, post);
        assert ([y] + ([x] + tail + post))[1..] == [x] + tail + post;
      }
      assert ApplyPatch(t, [y] + (tail + [x] + post)).ToOption() == ApplyPatch(t, [y] + ([x] + tail + post)).ToOption();
      assert [y] + ([x] + tail + post) == [y, x] + (tail + post);
      Commute(t, y, x, tail + post);
      assert [x, y] + (tail + post) == [x] + pre + post;
    }
  }

  predicate PairwiseUnrelated(ops: seq<PatchOp>) {
    forall i, j | 0 <= i < |ops| && 0 <= j < |ops| && i != j :: Unrelated(ops[i], ops[j])
  }

  lemma PairwiseTail(x: PatchOp, rest: seq<PatchOp>)
    requires PairwiseUnrelated([x] + rest)
    ensures PairwiseUnrelated(rest)
    ensures forall y | y in rest :: Unrelated(y, x)
  {
    var p := [x] + rest;
    forall a, b | 0 <= a < |rest| && 0 <= b < |rest| && a != b ensures Unrelated(rest[a], rest[b]) {
      assert rest[a] == p[a + 1] && rest[b] == p[b + 1];
    }
    forall y | y in rest ensures Unrelated(y, x) {
      var j :| 0 <= j < |rest| && rest[j] == y;
      assert p[j + 1] == y && p[0] == x;
    }
  }

  lemma SameRest(x: PatchOp, rest: seq<PatchOp>, pre: seq<PatchOp>, post: seq<PatchOp>)
    requires multiset([x] + rest) == multiset(pre + [x] + post)
    ensures multiset(rest) == multiset(pre + post)
  {
    assert multiset(pre + [x] + post) == multiset(pre) + multiset{x} + multiset(post);
    assert multiset([x] + rest) == multiset{x} + multiset(rest);
    assert multiset(rest) == multiset([x] + rest) - multiset{x};
  }

  /**
   The order of operations on pairwise unrelated paths does not matter: any two
   arrangements of them give the same document, or both fail.
  */
  lemma {:induction false} ReorderPatch(t: Tree, p: seq<PatchOp>, q: seq<PatchOp>)
    requires multiset(p) == multiset(q)
    requires PairwiseUnrelated(p)
    ensures ApplyPatch(t, p).ToOption() == ApplyPatch(t, q).ToOption()
    decreases |p|, 0
  {
    if p == [] {
      assert |multiset(q)| == 0;
      assert q == [];
    } else {
      var x, rest := p[0], p[1..];
      assert p == [x] + rest;
      var pre, post := SplitAt(q, x);
      SameRest(x, rest, pre, post);
      PairwiseTail(x, rest);
      AllIn(pre, post, rest);
      MoveToFront(t, pre, x, post);
      ReorderBehind(t, x, rest, pre + post);
      assert [x] + pre + post == [x] + (pre + post);
    }
  }

  lemma SplitAt(q: seq<PatchOp>, x: PatchOp) returns (pre: seq<PatchOp>, post: seq<PatchOp>)
    requires x in multiset(q)
    ensures q == pre + [x] + post
  {
    var i :| 0 <= i < |q| && q[i] == x;
    pre, post := q[..i], q[i + 1..];
  }

  lemma AllIn(pre: seq<PatchOp>, post: seq<PatchOp>, rest: seq<PatchOp>)
    requires multiset(pre + post) == multiset(rest)
    ensures forall y | y in pre :: y in rest
  {
    forall y | y in pre ensures y in rest {
      assert y in pre + post;
      assert y in multiset(rest);
    }
  }

  lemma ReorderBehind(t: Tree, x: PatchOp, p: seq<PatchOp>, q: seq<PatchOp>)
    requires multiset(p) == multiset(q) && PairwiseUnrelated(p)
    ensures ApplyPatch(t, [x] + p).ToOption() == ApplyPatch(t, [x] + q).ToOption()
    decreases |p|, 1
  {
    assert ([x] + p)[1..] == p && ([x] + q)[1..] == q;
    if ApplyOne(t, x).Success? {
      ReorderPatch(ApplyOne(t, x).value, p, q);
    }
  }

  // ---------- undoing ----------

  /** What a patch can write. */
  predicate Writable(t: Tree) {
    t.Str? || t.Null?
  }

  /** op overwrites or removes a value no patch can write back. */
  predicate Destroys(t: Tree, op: PatchOp) {
    var prior := Lookup(t, Parts(op.path));
    prior.Some? && !Writable(prior.value)
  }

  /** The operation that puts back what op found at its path. */
  function Inverse(t: Tree, op: PatchOp): PatchOp {
    match Lookup(t, Parts(op.path))
    case None => PatchOp(Remove, op.path, None)
    case Some(prior) => PatchOp(Add, op.path, if prior.Str? then Some(prior.text) else None)
  }

  lemma {:induction false} InverseAt(t: Tree, parts: seq<string>, op: PatchOp, inv: PatchOp)
    requires parts != [] && ApplyAt(t, parts, op).Success?
    requires var prior := Lookup(t, parts);
             if prior.None? then inv.kind == Remove else inv.kind == Add && Written(inv) == prior.value
    ensures ApplyAt(ApplyAt(t, parts, op).value, parts, inv) == Success(t)
  {
    var k, r := parts[0], ApplyAt(t, parts, op).value;
    if |parts| == 1 {
      assert parts[1..] == [];
      if k in t.entries {
        assert Lookup(t, parts) == Lookup(t.entries[k], []);
        assert r.entries[k := t.entries[k]] == t.entries;
      } else {
        assert r.entries - {k} == t.entries;
      }
    } else {
      InverseAt(t.entries[k], parts[1..], op, inv);
      assert r.entries[k := t.entries[k]] == t.entries;
    }
  }

  /** No operation of the patch destroys anything in the tree its predecessors left. */
  predicate Sparing(t: Tree, ops: seq<PatchOp>)
    requires ApplyPatch(t, ops).Success?
    decreases |ops|
  {
    ops == [] || (!Destroys(t, ops[0]) && Sparing(ApplyOne(t, ops[0]).value, ops[1..]))
  }

  /** The inverse operations, last one first. */
  function Undo(t: Tree, ops: seq<PatchOp>): seq<PatchOp>
    requires ApplyPatch(t, ops).Success?
    decreases |ops|
  {
    if ops == [] then [] else Undo(ApplyOne(t, ops[0]).value, ops[1..]) + [Inverse(t, ops[0])]
  }

  lemma {:induction false} UndoRestores(t: Tree, ops: seq<PatchOp>)
    requires ApplyPatch(t, ops).Success? && Sparing(t, ops)
    ensures ApplyPatch(ApplyPatch(t, ops).value, Undo(t, ops)) == Success(t)
    decreases |ops|
  {
    if ops != [] {
      var next := ApplyOne(t, ops[0]).value;
      var undo, inv := Undo(next, ops[1..]), Inverse(t, ops[0]);
      UndoRestores(next, ops[1..]);
      InverseAt(t, Parts(ops[0].path), ops[0], inv);
      ApplyPatchConcat(ApplyPatch(t, ops).value, undo, [inv]);
      assert [inv][1..] == [];
      assert ApplyPatch(t, [inv][1..]) == Success(t);
    }
  }

  /** Every dict, list, number and flag of t is in u at the same place. */
  ghost predicate Within(t: Tree, u: Tree) {
    forall q :: Lookup(t, q).Some? && !Writable(Lookup(t, q).value) ==>
      && Lookup(u, q).Some?
      && (Lookup(u, q).value == Lookup(t, q).value || (Lookup(u, q).value.Dict? && Lookup(t, q).value.Dict?))
  }

  /** A patch creates nothing but text and nulls. */
  lemma {:induction false} PatchIsWithin(t: Tree, ops: seq<PatchOp>)
    requires ApplyPatch(t, ops).Success?
    ensures Within(ApplyPatch(t, ops).value, t)
    decreases |ops|
  {
    if ops != [] {
      var next := ApplyOne(t, ops[0]).value;
      PatchIsWithin(next, ops[1..]);
      OpIsWithin(t, ops[0]);
      WithinTransitive(ApplyPatch(t, ops).value, next, t);
    }
  }

  lemma OpIsWithin(t: Tree, op: PatchOp)
    requires ApplyOne(t, op).Success?
    ensures Within(ApplyOne(t, op).value, t)
  {
    var r := ApplyOne(t, op).value;
    forall q | Lookup(r, q).Some? && !Writable(Lookup(r, q).value)
      ensures Lookup(t, q).Some? &&
              (Lookup(t, q).value == Lookup(r, q).value || (Lookup(t, q).value.Dict? && Lookup(r, q).value.Dict?))
    {
      ApplyOneLookup(t, op, q);
    }
  }

  lemma WithinTransitive(t: Tree, u: Tree, v: Tree)
    requires Within(t, u) && Within(u, v)
    ensures Within(t, v)
  {
  }

  /** Once something is destroyed, no patch brings it back. */
  lemma {:induction false} DestroyedForGood(t: Tree, ops: seq<PatchOp>)
    requires ApplyPatch(t, ops).Success? && !Sparing(t, ops)
    ensures !Within(t, ApplyPatch(t, ops).value)
    decreases |ops|
  {
    var r, next, p := ApplyPatch(t, ops).value, ApplyOne(t, ops[0]).value, Parts(ops[0].path);
    PatchIsWithin(next, ops[1..]);
    if Destroys(t, ops[0]) {
      ApplyOneLookup(t, ops[0], p);
      assert Lookup(r, p).None? || Writable(Lookup(r, p).value);
    } else {
      DestroyedForGood(next, ops[1..]);
      InverseAt(t, p, ops[0], Inverse(t, ops[0]));
      OpIsWithin(next, Inverse(t, ops[0]));
      if Within(t, r) {
        assert !Within(next, r);
        OpIsWithin(t, ops[0]);
        WithinTransitive(next, t, r);
      }
    }
  }

  /**
   A successful patch can be undone by some patch exactly when none of its operations
   overwrites or removes a dict, a list, a number or a flag; and that is so exactly when
   every dict, list, number and flag of the document survives it.
  */
  lemma UndoableExactlyWhenSparing(t: Tree, ops: seq<PatchOp>)
    requires ApplyPatch(t, ops).Success?
    ensures var r := ApplyPatch(t, ops).value;
            && (Sparing(t, ops) <==> exists undo :: ApplyPatch(r, undo) == Success(t))
            && (Sparing(t, ops) <==> Within(t, r))
  {
    var r := ApplyPatch(t, ops).value;
    if Sparing(t, ops) {
      UndoRestores(t, ops);
      PatchIsWithin(r, Undo(t, ops));
    } else {
      DestroyedForGood(t, ops);
      forall undo | ApplyPatch(r, undo) == Success(t) ensures false {
        PatchIsWithin(r, undo);
      }
    }
  }
}
