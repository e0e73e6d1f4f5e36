/**
 The patch engine of app/healing/dry_run.py: dotted-path replace, add and remove on
 nested dicts, one operation after another.
*/
module Patch {
  import opened Results
  import opened Trees

  datatype OpKind = Replace | Add | Remove

  /** One change of a patch candidate. Its text is the `new` field; the `old` field is never read by the engine. */
  datatype PatchOp = PatchOp(kind: OpKind, path: string, text: Option<string>)

  datatype PatchError = EmptyPath | PathNotFound | ParentNotDict | TargetNotFound

  /** The value a replace or add stores: the new text, or null when there is none. */
  function Written(op: PatchOp): Tree {
    if op.text.Some? then Str(op.text.value) else Null
  }

  /** What a path holds once op has been applied at it. */
  function Held(op: PatchOp): Option<Tree> {
    if op.kind == Remove then None else Some(Written(op))
  }

  /** The effect of op on the dict that is the parent of its target. */
  function ApplyToParent(entries: map<string, Tree>, last: string, op: PatchOp): Result<map<string, Tree>, PatchError> {
    if op.kind != Add && last !in entries then Failure(TargetNotFound)
    else if op.kind == Remove then Success(entries - {last})
    else Success(entries[last := Written(op)])
  }

  /** Navigate to the parent of the target and apply op there. */
  function ApplyAt(t: Tree, parts: seq<string>, op: PatchOp): Result<Tree, PatchError>
    requires parts != []
  {
    if |parts| == 1 then
      if !t.Dict? then Failure(ParentNotDict)
      else match ApplyToParent(t.entries, parts[0], op)
        case Failure(e) => Failure(e)
        case Success(entries) => Success(Dict(entries))
    else if !t.Dict? || parts[0] !in t.entries then Failure(PathNotFound)
    else match ApplyAt(t.entries[parts[0]], parts[1..], op)
      case Failure(e) => Failure(e)
      case Success(child) => Success(Dict(t.entries[parts[0] := child]))
  }

  function ApplyOne(t: Tree, op: PatchOp): Result<Tree, PatchError> {
    var parts := Parts(op.path);
    if parts == [] then Failure(EmptyPath) else ApplyAt(t, parts, op)
  }

  /** apply_patch: every operation in turn, stopping at the first that is not applicable. */
  function ApplyPatch(t: Tree, ops: seq<PatchOp>): Result<Tree, PatchError>
    decreases |ops|
  {
    if ops == [] then Success(t)
    else match ApplyOne(t, ops[0])
      case Failure(e) => Failure(e)
      case Success(next) => ApplyPatch(next, ops[1..])
  }

  // ---------- when one operation succeeds, and what it changes ----------

  /** The target's parent is a dict, and the target exists unless it is being added. */
  predicate Applicable(t: Tree, op: PatchOp) {
    var parts := Parts(op.path);
    parts != [] &&
    var parent := Lookup(t, parts[..|parts| - 1]);
    parent.Some? && parent.value.Dict? && (op.kind == Add || Lookup(t, parts).Some?)
  }

  lemma {:induction false} ApplyAtSucceeds(t: Tree, parts: seq<string>, op: PatchOp)
    requires parts != []
    ensures var parent := Lookup(t, parts[..|parts| - 1]);
            ApplyAt(t, parts, op).Success? <==>
            parent.Some? && parent.value.Dict? && (op.kind == Add || Lookup(t, parts).Some?)
  {
    if |parts| == 1 {
      assert parts[..0] == [];
      if t.Dict? && parts[0] in t.entries {
        assert Lookup(t, parts) == Lookup(t.entries[parts[0]], parts[1..]) && parts[1..] == [];
      }
    } else {
      assert parts[..|parts| - 1][0] == parts[0];
      assert parts[..|parts| - 1][1..] == parts[1..][..|parts[1..]| - 1];
      if t.Dict? && parts[0] in t.entries {
        ApplyAtSucceeds(t.entries[parts[0]], parts[1..], op);
      }
    }
  }

  /** One operation succeeds exactly when it is applicable. */
  lemma ApplyOneSucceeds(t: Tree, op: PatchOp)
    ensures ApplyOne(t, op).Success? <==> Applicable(t, op)
  {
    if Parts(op.path) != [] {
      ApplyAtSucceeds(t, Parts(op.path), op);
    }
  }

  /** Neither path is a prefix of the other. */
  predicate Incomparable(p: seq<string>, q: seq<string>) {
    !(p <= q) && !(q <= p)
  }

  /**
   What every path holds after a successful operation at parts: the written value or
   nothing at parts itself, nothing below it, the old subtree beside it, and a dict
   above it.
  */
  lemma {:induction false} ApplyAtLookup(t: Tree, parts: seq<string>, op: PatchOp, q: seq<string>)
    requires parts != [] && ApplyAt(t, parts, op).Success?
    ensures var r := ApplyAt(t, parts, op).value;
            && (q == parts ==> Lookup(r, q) == Held(op))
            && (parts < q ==> Lookup(r, q) == None)
            && (Incomparable(parts, q) ==> Lookup(r, q) == Lookup(t, q))
            && (q < parts ==>
                && Lookup(t, q).Some? && Lookup(t, q).value.Dict?
                && Lookup(r, q).Some? && Lookup(r, q).value.Dict?)
  {
    var r := ApplyAt(t, parts, op).value;
    if q != [] {
      if q[0] != parts[0] {
        assert Lookup(r, q) == Lookup(t, q);
      } else if |parts| == 1 {
        assert parts <= q;
        if |q| == 1 {
          assert q == parts && q[1..] == [];
        } else if op.kind != Remove {
          assert Lookup(r, q) == Lookup(Written(op), q[1..]);
        }
      } else {
        var k := parts[0];
        var child := t.entries[k];
        ApplyAtLookup(child, parts[1..], op, q[1..]);
        assert Lookup(r, q) == Lookup(ApplyAt(child, parts[1..], op).value, q[1..]);
        assert parts == [k] + parts[1..] && q == [k] + q[1..];
      }
    }
  }

  /** ApplyAtLookup for an operation given by its dotted path. */
  lemma ApplyOneLookup(t: Tree, op: PatchOp, q: seq<string>)
    requires ApplyOne(t, op).Success?
    ensures Parts(op.path) != []
    ensures var r, p := ApplyOne(t, op).value, Parts(op.path);
            && (q == p ==> Lookup(r, q) == Held(op))
            && (p < q ==> Lookup(r, q) == None)
            && (Incomparable(p, q) ==> Lookup(r, q) == Lookup(t, q))
            && (q < p ==>
                && Lookup(t, q).Some? && Lookup(t, q).value.Dict?
                && Lookup(r, q).Some? && Lookup(r, q).value.Dict?)
  {
    ApplyAtLookup(t, Parts(op.path), op, q);
  }

  /**
   One change in terms of the pieces of its path: it succeeds exactly when all but the last
   lead to a dict, which has the last as a key unless it is being added; then the path holds
   the new text, null if there is none, or nothing any more, and every path neither above nor
   below it holds what it did.
  */
  lemma ChangeMeans(t: Tree, op: PatchOp, pieces: seq<string>, q: seq<string>)
    requires op.path == DotJoined(pieces) && forall p | p in pieces :: p != "" && '.' !in p
    ensures pieces == [] ==> ApplyOne(t, op) == Failure(EmptyPath)
    ensures pieces != [] ==>
              var parent := Lookup(t, pieces[..|pieces| - 1]);
              ApplyOne(t, op).Success? <==>
              parent.Some? && parent.value.Dict? && (op.kind == Add || pieces[|pieces| - 1] in parent.value.entries)
    ensures ApplyOne(t, op).Success? ==>
              var r := ApplyOne(t, op).value;
              && (op.kind == Remove ==> Lookup(r, pieces) == None)
              && (op.kind != Remove && op.text.Some? ==> Lookup(r, pieces) == Some(Str(op.text.value)))
              && (op.kind != Remove && op.text.None? ==> Lookup(r, pieces) == Some(Null))
              && (!(pieces <= q) && !(q <= pieces) ==> Lookup(r, q) == Lookup(t, q))
  {
    PartsOfJoined(pieces);
    ApplyOneSucceeds(t, op);
    if pieces != [] {
      var init, last := pieces[..|pieces| - 1], pieces[|pieces| - 1];
      assert init + [last] == pieces;
      LookupConcat(t, init, [last]);
      assert [last][1..] == [];
    }
    if ApplyOne(t, op).Success? {
      ApplyOneLookup(t, op, q);
      ApplyOneLookup(t, op, pieces);
    }
  }

  // ---------- a whole patch ----------

  /** The trees a patch goes through: trees[i] is what operation i is applied to. */
  ghost predicate IsTrace(t: Tree, ops: seq<PatchOp>, trees: seq<Tree>) {
    && |trees| == |ops| + 1
    && trees[0] == t
    && forall i | 0 <= i < |ops| :: Applicable(trees[i], ops[i]) && ApplyOne(trees[i], ops[i]) == Success(trees[i + 1])
  }

  /**
   A patch succeeds with r exactly when there is a trace from t to r in which each
   operation is applicable in the tree its predecessors left.
  */
  lemma {:induction false} ApplyPatchSucceeds(t: Tree, ops: seq<PatchOp>, r: Tree)
    ensures ApplyPatch(t, ops) == Success(r) <==>
            exists trees :: IsTrace(t, ops, trees) && trees[|ops|] == r
    decreases |ops|
  {
    if ops == [] {
      assert r == t ==> IsTrace(t, ops, [t]);
    } else {
      ApplyOneSucceeds(t, ops[0]);
      if ApplyOne(t, ops[0]).Success? {
        var next := ApplyOne(t, ops[0]).value;
        ApplyPatchSucceeds(next, ops[1..], r);
        if ApplyPatch(t, ops) == Success(r) {
          var rest :| IsTrace(next, ops[1..], rest) && rest[|ops[1..]|] == r;
          assert IsTrace(t, ops, [t] + rest) by {
            forall i | 0 <= i < |ops|
              ensures Applicable(([t] + rest)[i], ops[i]) && ApplyOne(([t] + rest)[i], ops[i])
                == Success(([t] + rest)[i + 1])
            {
              if i > 0 {
                assert ops[i] == ops[1..][i - 1];
              }
            }
          }
        }
        forall trees | IsTrace(t, ops, trees) && trees[|ops|] == r
          ensures IsTrace(next, ops[1..], trees[1..]) && trees[1..][|ops[1..]|] == r
        {
        }
      }
    }
  }

  /** The last operation whose path is q or leads to q, counted from 1; 0 if there is none. */
  function LastTouch(ops: seq<PatchOp>, q: seq<string>): (n: nat)
    ensures n <= |ops|
    ensures n > 0 ==> Parts(ops[n - 1].path) <= q
    ensures forall i | n <= i < |ops| :: !(Parts(ops[i].path) <= q)
  {
    if ops == [] then 0
    else if Parts(ops[|ops| - 1].path) <= q then |ops|
    else LastTouch(ops[..|ops| - 1], q)
  }

  /** Applying p + q is applying p and then q. */
  lemma {:induction false} ApplyPatchConcat(t: Tree, p: seq<PatchOp>, q: seq<PatchOp>)
    ensures ApplyPatch(t, p + q) ==
            match ApplyPatch(t, p) case Failure(e) => Failure(e) case Success(s) => ApplyPatch(s, q)
    decreases |p|
  {
    if p == [] {
      assert p + q == q;
    } else {
      assert (p + q)[0] == p[0] && (p + q)[1..] == p[1..] + q;
      match ApplyOne(t, p[0])
      case Failure(_) =>
      case Success(next) => ApplyPatchConcat(next, p[1..], q);
    }
  }

  lemma ApplyPatchSnoc(t: Tree, ops: seq<PatchOp>)
    requires ops != []
    ensures var init := ApplyPatch(t, ops[..|ops| - 1]);
            ApplyPatch(t, ops) ==
            match init case Failure(e) => Failure(e) case Success(s) => ApplyOne(s, ops[|ops| - 1])
  {
    var p, q := ops[..|ops| - 1], [ops[|ops| - 1]];
    assert p + q == ops;
    ApplyPatchConcat(t, p, q);
    if ApplyPatch(t, p).Success? {
      var s := ApplyPatch(t, p).value;
      assert q[1..] == [];
      match ApplyOne(s, q[0])
      case Failure(_) =>
      case Success(r) => assert ApplyPatch(r, q[1..]) == Success(r);
    }
  }

  /** Some operation's path is q or lies below it. */
  predicate LeadsBelow(ops: seq<PatchOp>, q: seq<string>) {
    exists i | 0 <= i < |ops| :: q <= Parts(ops[i].path)
  }

  /**
   What a path holds after a successful patch. A path neither above nor below an
   operated path is unchanged. A path that some operation reached holds what the last
   such operation left: its value if the path is the operation's own, nothing if it is
   below it. A path that is only above operated ones is a dict before and after.
  */
  ghost predicate PatchedAt(t: Tree, ops: seq<PatchOp>, r: Tree, q: seq<string>) {
    var n := LastTouch(ops, q);
    if n > 0 then
      Lookup(r, q) == if Parts(ops[n - 1].path) == q then Held(ops[n - 1]) else None
    else if LeadsBelow(ops, q) then
      && Lookup(t, q).Some? && Lookup(t, q).value.Dict?
      && Lookup(r, q).Some? && Lookup(r, q).value.Dict?
    else
      Lookup(r, q) == Lookup(t, q)
  }

  lemma {:induction false} ApplyPatchLookup(t: Tree, ops: seq<PatchOp>, q: seq<string>)
    requires ApplyPatch(t, ops).Success?
    ensures PatchedAt(t, ops, ApplyPatch(t, ops).value, q)
    decreases |ops|
  {
    if ops != [] {
      var init, last := ops[..|ops| - 1], ops[|ops| - 1];
      ApplyPatchSnoc(t, ops);
      ApplyPatchLookup(t, init, q);
      var s := ApplyPatch(t, init).value;
      PatchedAtSnoc(t, init, last, s, q);
      assert init + [last] == ops;
    }
  }

  /** One more operation keeps the account of what a path holds. */
  lemma PatchedAtSnoc(t: Tree, init: seq<PatchOp>, last: PatchOp, s: Tree, q: seq<string>)
    requires PatchedAt(t, init, s, q) && ApplyOne(s, last).Success?
    ensures PatchedAt(t, init + [last], ApplyOne(s, last).value, q)
  {
    ApplyOneLookup(s, last, q);
    TouchSnoc(init, last, q);
    LeadsBelowSnoc(init, last, q);
  }

  lemma TouchSnoc(init: seq<PatchOp>, last: PatchOp, q: seq<string>)
    ensures LastTouch(init + [last], q) == if Parts(last.path) <= q then |init| + 1 else LastTouch(init, q)
  {
  }

  lemma LeadsBelowSnoc(init: seq<PatchOp>, last: PatchOp, q: seq<string>)
    ensures LeadsBelow(init + [last], q) <==> LeadsBelow(init, q) || q <= Parts(last.path)
  {
    var ops := init + [last];
    assert ops[|init|] == last;
    if LeadsBelow(init, q) {
      var i :| 0 <= i < |init| && q <= Parts(init[i].path);
      assert ops[i] == init[i];
    }
  }
}
