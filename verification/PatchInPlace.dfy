/**
 The patch engine as app/healing/dry_run.py runs it: dict objects on the heap, a deep copy
 of the input, and one assignment or deletion in the dict that a cursor has walked to.
*/
module PatchInPlace {
  import opened Results
  import opened Trees
  import opened Patch

  /** What a key of a dict object refers to: another dict object, or a value nothing mutates. */
  datatype Value = Sub(node: Node) | Leaf(tree: Tree)

  /** An operation whose path is path and then last. */
  datatype Edit = Edit(path: seq<string>, last: string, op: PatchOp)

  /** The one assignment or deletion an operation makes. */
  function Assigned(entries: map<string, Value>, last: string, op: PatchOp): map<string, Value> {
    if op.kind == Remove then entries - {last} else entries[last := Leaf(Written(op))]
  }

  /** A dict object. Nested dict objects form a tree: no two keys share one. */
  class Node {
    var entries: map<string, Value>
    ghost var repr: set<Node>

    ghost predicate Valid()
      reads this, repr
      ensures Valid() ==> this in repr
      decreases repr
    {
      && this in repr
      && (forall k | k in entries && entries[k].Sub? ::
            && entries[k].node in repr
            && entries[k].node.repr <= repr
            && this !in entries[k].node.repr
            && entries[k].node.Valid())
      && (forall k | k in entries && entries[k].Leaf? :: !entries[k].tree.Dict?)
      && (forall j, k | j in entries && k in entries && j != k && entries[j].Sub? && entries[k].Sub? ::
            entries[j].node.repr !! entries[k].node.repr)
    }

    /** The document the dict object stands for. */
    ghost function Abs(): (t: Tree)
      requires Valid()
      reads this, repr
      ensures t.Dict? && t.entries.Keys == entries.Keys
      decreases repr
    {
      Dict(map k | k in entries :: if entries[k].Sub? then entries[k].node.Abs() else entries[k].tree)
    }

    constructor ()
      ensures Valid() && fresh(repr) && entries == map[] && repr == {this}
    {
      entries := map[];
      repr := {this};
    }

    /** Binds a new key to a value that is not part of this document yet. */
    method Attach(k: string, v: Value)
      requires Valid() && k !in entries
      requires v.Sub? ==> v.node.Valid() && v.node.repr !! repr
      requires v.Leaf? ==> !v.tree.Dict?
      modifies this
      ensures Valid() && repr == old(repr) + if v.Sub? then v.node.repr else {}
      ensures entries == old(entries)[k := v]
      ensures Abs().entries == old(Abs()).entries[k := if v.Sub? then old(v.node.Abs()) else v.tree]
    {
      entries := entries[k := v];
      if v.Sub? {
        repr := repr + v.node.repr;
      }
    }

    /** Following path from this dict object ends at a dict object. */
    ghost predicate Leads(path: seq<string>)
      requires Valid()
      reads this, repr
      decreases |path|
    {
      path != [] ==>
        && path[0] in entries && entries[path[0]].Sub?
        && entries[path[0]].node.Leads(path[1..])
    }

    /** The dict object at the end of path. */
    ghost function End(path: seq<string>): (target: Node)
      requires Valid() && Leads(path)
      reads this, repr
      ensures target in repr && target.repr <= repr && target.Valid()
      ensures path != [] ==> target in entries[path[0]].node.repr
      decreases |path|
    {
      if path == [] then this else entries[path[0]].node.End(path[1..])
    }

    lemma {:induction false} EndIsLookup(path: seq<string>)
      requires Valid() && Leads(path)
      ensures Lookup(Abs(), path) == Some(End(path).Abs())
      decreases |path|
    {
      if path != [] {
        entries[path[0]].node.EndIsLookup(path[1..]);
      }
    }

    lemma {:induction false} LeadsFurther(path: seq<string>, k: string)
      requires Valid() && Leads(path) && k in End(path).entries && End(path).entries[k].Sub?
      ensures Leads(path + [k]) && End(path + [k]) == End(path).entries[k].node
      decreases |path|
    {
      if path == [] {
        assert path + [k] == [k] && [k][1..] == [];
      } else {
        entries[path[0]].node.LeadsFurther(path[1..], k);
        assert (path + [k])[0] == path[0] && (path + [k])[1..] == path[1..] + [k];
      }
    }

    /** The effect of an edit of this dict object itself. */
    twostate lemma EditedHere(edit: Edit)
      requires old(Valid())
      requires forall n: Node | n in old(repr) && n != this :: unchanged(n)
      requires repr == old(repr)
      requires edit.op.kind == Add || edit.last in old(entries)
      requires entries == Assigned(old(entries), edit.last, edit.op)
      ensures Valid()
      ensures ApplyToParent(old(Abs()).entries, edit.last, edit.op) == Success(Abs().entries)
    {
      forall k | k in entries && k != edit.last
        ensures k in old(entries) && entries[k] == old(entries[k])
        ensures entries[k].Sub? ==> entries[k].node.Valid() && entries[k].node.Abs() == old(entries[k].node.Abs())
      {
      }
      var was, now := old(Abs()).entries, Abs().entries;
      if edit.op.kind == Remove {
        assert now == was - {edit.last};
      } else {
        assert now == was[edit.last := Written(edit.op)];
      }
    }

    /** A change confined to the dict object under k changes the document under k. */
    twostate lemma ChangedBelow(k: string)
      requires old(Valid()) && k in old(entries) && old(entries[k].Sub?)
      requires unchanged(this)
      requires forall n: Node | n in old(repr) && n !in old(entries[k].node.repr) :: unchanged(n)
      requires entries[k].node.Valid() && entries[k].node.repr == old(entries[k].node.repr)
      ensures Valid()
      ensures Abs().entries == old(Abs()).entries[k := entries[k].node.Abs()]
    {
      forall j | j in entries && j != k && entries[j].Sub?
        ensures entries[j].node.Valid() && entries[j].node.Abs() == old(entries[j].node.Abs())
        ensures entries[j].node.repr == old(entries[j].node.repr)
      {
        assert entries[j] == old(entries[j]);
      }
    }

    /** Making one edit in one dict object changes the document exactly as its operation says. */
    twostate lemma {:induction false} Edited(edit: Edit)
      requires old(Valid()) && old(Leads(edit.path))
      requires forall n: Node | n in old(repr) && n != old(End(edit.path)) :: unchanged(n)
      requires old(End(edit.path)).repr == old(End(edit.path).repr)
      requires edit.op.kind == Add || edit.last in old(End(edit.path).entries)
      requires old(End(edit.path)).entries == Assigned(old(End(edit.path).entries), edit.last, edit.op)
      ensures Valid() && repr == old(repr)
      ensures ApplyAt(old(Abs()), edit.path + [edit.last], edit.op) == Success(Abs())
      decreases |edit.path|
    {
      var path, last, op := edit.path, edit.last, edit.op;
      if path == [] {
        EditedHere(edit);
        assert path + [last] == [last];
      } else {
        var child := old(entries[path[0]].node);
        child.Edited(Edit(path[1..], last, op));
        ChangedBelow(path[0]);
        assert (path + [last])[0] == path[0] && (path + [last])[1..] == path[1..] + [last];
      }
    }
  }

  /** copy.deepcopy of a dict object. */
  method DeepCopy(n: Node) returns (c: Node)
    requires n.Valid()
    ensures c.Valid() && fresh(c.repr) && c.Abs() == n.Abs()
    decreases n.repr, 1
  {
    c := new Node();
    var todo := n.entries.Keys;
    while todo != {}
      invariant todo <= n.entries.Keys && n.Valid() && n.Abs() == old(n.Abs())
      invariant c.Valid() && fresh(c.repr) && c.entries.Keys == n.entries.Keys - todo
      invariant c.Abs().entries == old(n.Abs()).entries - todo
      decreases todo
    {
      var k :| k in todo;
      CopyEntry(n, k, c);
      todo := todo - {k};
    }
    assert old(n.Abs()).entries - {} == old(n.Abs()).entries;
  }

  /** Copies the entry of n under k into c. */
  method CopyEntry(n: Node, k: string, c: Node)
    requires n.Valid() && k in n.entries && c.Valid() && k !in c.entries && n.repr !! c.repr
    modifies c
    ensures c.Valid() && fresh(c.repr - old(c.repr)) && c.entries.Keys == old(c.entries.Keys) + {k}
    ensures n.Valid() && n.Abs() == old(n.Abs())
    ensures c.Abs().entries == old(c.Abs()).entries[k := n.Abs().entries[k]]
    decreases n.repr, 0
  {
    var v := n.entries[k];
    if v.Sub? {
      var child := DeepCopy(v.node);
      v := Sub(child);
    }
    c.Attach(k, v);
  }

  /**
   Walks a cursor down from root, one key at a time, as long as it is on a dict that has
   the next key; what it ends on must be a dict.
  */
  method NavigateParent(root: Node, parts: seq<string>, ghost last: string, ghost op: PatchOp)
    returns (r: Result<Node, PatchError>)
    requires root.Valid()
    ensures match r
      case Success(n) => root.Leads(parts) && n == root.End(parts)
      case Failure(e) => ApplyAt(root.Abs(), parts + [last], op) == Failure(e)
  {
    var cursor, i := Sub(root), 0;
    while i < |parts|
      invariant i <= |parts|
      invariant cursor.Sub? ==> root.Leads(parts[..i]) && cursor.node == root.End(parts[..i])
      invariant cursor.Leaf? ==> !cursor.tree.Dict?
      invariant Lookup(root.Abs(), parts[..i]) == Some(Seen(cursor))
    {
      if !cursor.Sub? || parts[i] !in cursor.node.entries {
        StuckAt(root.Abs(), parts, i, last, op);
        return Failure(PathNotFound);
      }
      LookupNext(root.Abs(), parts, i);
      assert parts[..i + 1] == parts[..i] + [parts[i]];
      if cursor.node.entries[parts[i]].Sub? {
        root.LeadsFurther(parts[..i], parts[i]);
      }
      cursor := cursor.node.entries[parts[i]];
      i := i + 1;
    }
    assert parts[..i] == parts;
    if !cursor.Sub? {
      NoParent(root.Abs(), parts, last, op);
      return Failure(ParentNotDict);
    }
    return Success(cursor.node);
  }

  /** _apply_one: the assignment or deletion happens in the dict object the path leads to. */
  method ApplyOneInPlace(root: Node, op: PatchOp) returns (error: Option<PatchError>)
    requires root.Valid()
    modifies root.repr
    ensures root.Valid() && root.repr == old(root.repr)
    ensures match error
      case None => ApplyOne(old(root.Abs()), op) == Success(root.Abs())
      case Some(e) => ApplyOne(old(root.Abs()), op) == Failure(e) && root.Abs() == old(root.Abs())
  {
    var parts := Parts(op.path);
    if parts == [] {
      return Some(EmptyPath);
    }
    var above, last := parts[..|parts| - 1], parts[|parts| - 1];
    assert parts == above + [last];
    var found := NavigateParent(root, above, last, op);
    if found.Failure? {
      return Some(found.error);
    }
    var parent := found.value;
    if op.kind != Add && last !in parent.entries {
      root.EndIsLookup(above);
      NoTarget(root.Abs(), above, last, op);
      return Some(TargetNotFound);
    }
    parent.entries := Assigned(parent.entries, last, op);
    root.Edited(Edit(above, last, op));
    return None;
  }

  /** apply_patch: the operations run on a deep copy; the caller's dicts are not touched. */
  method ApplyPatchToCopy(base: Node, ops: seq<PatchOp>) returns (r: Result<Node, PatchError>)
    requires base.Valid()
    ensures base.Valid() && base.Abs() == old(base.Abs())
    ensures match r
      case Success(n) => n.Valid() && fresh(n.repr) && ApplyPatch(base.Abs(), ops) == Success(n.Abs())
      case Failure(e) => ApplyPatch(base.Abs(), ops) == Failure(e)
  {
    var copy := DeepCopy(base);
    var i := 0;
    while i < |ops|
      invariant i <= |ops|
      invariant copy.Valid() && fresh(copy.repr) && base.Valid() && base.Abs() == old(base.Abs())
      invariant ApplyPatch(old(base.Abs()), ops) == ApplyPatch(copy.Abs(), ops[i..])
    {
      var error := ApplyOneInPlace(copy, ops[i]);
      if error.Some? {
        return Failure(error.value);
      }
      i := i + 1;
    }
    return Success(copy);
  }

  // ---------- the same walk on the document ----------

  ghost function Seen(v: Value): Tree
    requires v.Sub? ==> v.node.Valid()
    reads if v.Sub? then {v.node} + v.node.repr else {}
  {
    if v.Sub? then v.node.Abs() else v.tree
  }

  lemma LookupNext(t: Tree, parts: seq<string>, i: nat)
    requires i < |parts| && Lookup(t, parts[..i]).Some?
    ensures var s := Lookup(t, parts[..i]).value;
            Lookup(t, parts[..i + 1]) == if s.Dict? && parts[i] in s.entries then Some(s.entries[parts[i]]) else None
  {
    assert parts[..i + 1] == parts[..i] + [parts[i]];
    LookupConcat(t, parts[..i], [parts[i]]);
    assert [parts[i]][1..] == [];
  }

  lemma {:induction false} StuckAt(t: Tree, parts: seq<string>, i: nat, last: string, op: PatchOp)
    requires i < |parts| && Lookup(t, parts[..i]).Some?
    requires var s := Lookup(t, parts[..i]).value; !s.Dict? || parts[i] !in s.entries
    ensures ApplyAt(t, parts + [last], op) == Failure(PathNotFound)
  {
    assert (parts + [last])[1..] == parts[1..] + [last];
    if i > 0 {
      assert parts[..i][1..] == parts[1..][..i - 1];
      StuckAt(t.entries[parts[0]], parts[1..], i - 1, last, op);
    }
  }

  lemma {:induction false} NoParent(t: Tree, parts: seq<string>, last: string, op: PatchOp)
    requires Lookup(t, parts).Some? && !Lookup(t, parts).value.Dict?
    ensures ApplyAt(t, parts + [last], op) == Failure(ParentNotDict)
  {
    if parts == [] {
      assert parts + [last] == [last];
    } else {
      assert (parts + [last])[1..] == parts[1..] + [last];
      NoParent(t.entries[parts[0]], parts[1..], last, op);
    }
  }

  lemma {:induction false} NoTarget(t: Tree, parts: seq<string>, last: string, op: PatchOp)
    requires Lookup(t, parts).Some? && Lookup(t, parts).value.Dict?
    requires op.kind != Add && last !in Lookup(t, parts).value.entries
    ensures ApplyAt(t, parts + [last], op) == Failure(TargetNotFound)
  {
    if parts == [] {
      assert parts + [last] == [last];
    } else {
      assert (parts + [last])[1..] == parts[1..] + [last];
      NoTarget(t.entries[parts[0]], parts[1..], last, op);
    }
  }
}
