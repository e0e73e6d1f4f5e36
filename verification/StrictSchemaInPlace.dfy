/**
 _make_strict_schema as app/llm/client.py runs it: a walk over dict objects on the heap that
 rewrites each of them in place.
*/
module StrictSchemaInPlace {
  import opened Results
  import opened StrictSchema

  /** What a key of a dict object refers to: a dict object, a list, or a value nothing mutates. */
  datatype Val = Leaf(json: Json) | Ref(dict: Dict) | Refs(elems: seq<Elem>)

  datatype Elem = Plain(json: Json) | Schema(dict: Dict)

  /** The dict object in place i of a value: a list has many places, a dict object one. */
  function At(v: Val, i: nat): Option<Dict> {
    match v
    case Leaf(_) => None
    case Ref(d) => if i == 0 then Some(d) else None
    case Refs(elems) => if i < |elems| && elems[i].Schema? then Some(elems[i].dict) else None
  }

  predicate FlatLeaf(j: Json) {
    !j.Obj? && (j.Arr? ==> forall x | x in j.items :: !x.Obj?)
  }

  predicate Flat(v: Val) {
    match v
    case Leaf(j) => FlatLeaf(j)
    case Ref(_) => true
    case Refs(elems) => forall e | e in elems && e.Plain? :: !e.json.Obj?
  }

  /** A dict object; the dict objects below it form a tree. */
  class Dict {
    var keys: seq<string>
    var vals: map<string, Val>
    ghost var repr: set<Dict>

    ghost predicate Valid()
      reads this, repr
      ensures Valid() ==> this in repr
      decreases repr
    {
      && this in repr
      && (forall k | k in vals :: Flat(vals[k]))
      && (forall k, i: nat | k in vals && At(vals[k], i).Some? ::
            var d := At(vals[k], i).value;
            d in repr && d.repr <= repr && this !in d.repr && d.Valid())
      && (forall k, i: nat, l, j: nat |
            k in vals && l in vals && At(vals[k], i).Some? && At(vals[l], j).Some? && (k != l || i != j) ::
            At(vals[k], i).value.repr !! At(vals[l], j).value.repr)
    }

    /** The document the dict object stands for. */
    ghost function Abs(): (j: Json)
      requires Valid()
      reads this, repr
      ensures j.Obj? && j.keys == keys && j.vals.Keys == vals.Keys
      decreases repr, 1
    {
      Obj(keys, map k | k in vals :: Value(k))
    }

    ghost function Value(k: string): (j: Json)
      requires Valid() && k in vals
      reads this, repr
      ensures vals[k].Leaf? ==> j == vals[k].json
      ensures vals[k].Ref? ==> j.Obj?
      ensures vals[k].Refs? ==> j.Arr? && |j.items| == |vals[k].elems|
      decreases repr, 0
    {
      match vals[k]
      case Leaf(j) => j
      case Ref(d) => assert At(vals[k], 0) == Some(d); d.Abs()
      case Refs(elems) =>
        Arr(seq(|elems|, i requires Valid() && k in vals && vals[k] == Refs(elems)
          && 0 <= i < |elems| reads this, repr =>
          match elems[i]
          case Plain(j) => j
          case Schema(d) => assert At(vals[k], i).Some?; d.Abs()))
    }

    /** The value under a key depends on the dict objects under it only. */
    twostate lemma SameValue(l: string)
      requires old(Valid()) && Valid() && l in old(vals) && l in vals && vals[l] == old(vals[l])
      requires forall i: nat | At(vals[l], i).Some? :: At(vals[l], i).value.Abs() == old(At(vals[l], i).value.Abs())
      ensures Value(l) == old(Value(l))
    {
      match vals[l]
      case Leaf(_) =>
      case Ref(d) => assert At(vals[l], 0) == Some(d);
      case Refs(elems) =>
        forall i | 0 <= i < |elems| ensures Value(l).items[i] == old(Value(l)).items[i] {
          assert elems[i].Schema? ==> At(vals[l], i) == Some(elems[i].dict);
        }
    }

    /** d[k] = json, for a value without dict objects in it. */
    method SetLeaf(k: string, json: Json)
      requires Valid() && FlatLeaf(json)
      modifies this
      ensures Valid() && repr == old(repr)
      ensures Abs() == old(Abs()).Put(k, json)
      ensures vals == old(vals)[k := Leaf(json)]
    {
      keys := if k in vals then keys else keys + [k];
      vals := vals[k := Leaf(json)];
      LeafSet((k, json));
    }

    twostate lemma LeafSet(put: (string, Json))
      requires old(Valid()) && FlatLeaf(put.1)
      requires repr == old(repr) && vals == old(vals)[put.0 := Leaf(put.1)]
      requires keys == if put.0 in old(vals) then old(keys) else old(keys) + [put.0]
      requires forall d: Dict | d in old(repr) && d != this :: unchanged(d)
      ensures Valid() && Abs() == old(Abs()).Put(put.0, put.1)
    {
      Untouched(put.0);
      forall l | l in vals && l != put.0 ensures Value(l) == old(Value(l)) {
        SameValue(l);
      }
      assert Abs().vals == old(Abs()).vals[put.0 := put.1];
    }

    /** With all other dict objects as they were, a change of what key k refers to leaves a valid tree. */
    twostate lemma Untouched(k: string)
      requires old(Valid()) && repr == old(repr) && k in vals && vals[k].Leaf? && Flat(vals[k])
      requires forall l | l in vals && l != k :: l in old(vals) && vals[l] == old(vals[l])
      requires forall d: Dict | d in old(repr) && d != this :: unchanged(d)
      ensures Valid()
      ensures forall l, i: nat | l in vals && l != k && At(vals[l], i).Some? ::
                At(vals[l], i).value.Abs() == old(At(vals[l], i).value.Abs())
    {
      forall l, i: nat | l in vals && l != k && At(vals[l], i).Some?
        ensures At(vals[l], i).value.Valid()
        ensures At(vals[l], i).value.Abs() == old(At(vals[l], i).value.Abs())
      {
        assert old(At(vals[l], i).Some?);
      }
    }

    /** A change confined to the dict objects under k changes the value under k and nothing else. */
    twostate lemma ChangedUnder(k: string)
      requires old(Valid()) && k in old(vals) && unchanged(this)
      requires OnlyUnder(k)
      ensures Valid()
      ensures Abs().vals == old(Abs()).vals[k := Value(k)]
    {
      OutsideSame(k);
      forall l | l in vals && l != k ensures Value(l) == old(Value(l)) {
        SameValue(l);
      }
    }

    /** A change confined to one element of a list changes that element and nothing else. */
    twostate lemma ChangedElement(place: (string, nat))
      requires old(Valid()) && place.0 in old(vals) && unchanged(this) && Valid()
      requires old(At(vals[place.0], place.1).Some? && vals[place.0].Refs?)
      requires forall d: Dict | d in old(repr) && d !in old(At(vals[place.0], place.1).value.repr) :: unchanged(d)
      ensures Value(place.0).items ==
              old(Value(place.0)).items[place.1 := At(vals[place.0], place.1).value.Abs()]
    {
      var k, i := place.0, place.1;
      forall j | 0 <= j < |vals[k].elems| && j != i
        ensures Value(k).items[j] == old(Value(k)).items[j]
      {
        if vals[k].elems[j].Schema? {
          var d := vals[k].elems[j].dict;
          assert At(vals[k], j) == Some(d) && old(At(vals[k], j)) == Some(d);
          forall e | e in old(d.repr) ensures unchanged(e) {
          }
        }
      }
      assert At(vals[k], i) == Some(vals[k].elems[i].dict);
    }

    twostate predicate OnlyUnder(k: string)
      requires old(Valid()) && k in old(vals) && unchanged(this)
      reads *
    {
      && (forall d: Dict | d in old(repr) && d != this &&
            (forall i: nat | At(old(vals)[k], i).Some? :: d !in old(At(vals[k], i).value.repr)) :: unchanged(d))
      && (forall i: nat | At(vals[k], i).Some? ::
            At(vals[k], i).value.Valid() && At(vals[k], i).value.repr == old(At(vals[k], i).value.repr))
    }

    twostate lemma OutsideSame(k: string)
      requires old(Valid()) && k in old(vals) && unchanged(this) && OnlyUnder(k)
      ensures Valid()
      ensures forall l, i: nat | l in vals && l != k && At(vals[l], i).Some? ::
                At(vals[l], i).value.Abs() == old(At(vals[l], i).value.Abs())
    {
      forall l, i: nat | l in vals && l != k && At(vals[l], i).Some?
        ensures At(vals[l], i).value.Valid()
        ensures At(vals[l], i).value.repr == old(At(vals[l], i).value.repr)
        ensures At(vals[l], i).value.Abs() == old(At(vals[l], i).value.Abs())
      {
        var d := At(vals[l], i).value;
        forall e | e in old(d.repr) ensures unchanged(e) {
        }
      }
    }
  }

  /** The value under k of s made strict; nothing else. */
  ghost function WithStrict(s: Json, k: string): Json
    requires s.Obj?
  {
    if k in s.vals then Obj(s.keys, s.vals[k := StrictUnder(k, s.vals[k])]) else s
  }

  lemma StrictBelowInSteps(s: Json)
    requires s.Obj?
    ensures StrictBelow(s) == WithStrict(WithStrict(WithStrict(WithStrict(s, "properties"), "items"), "$defs"), "anyOf")
  {
    var r := WithStrict(WithStrict(WithStrict(WithStrict(s, "properties"), "items"), "$defs"), "anyOf");
    forall k | k in s.vals ensures r.vals[k] == StrictBelow(s).vals[k] {
      BelowUnder(s, k);
    }
    assert StrictBelow(s).vals == r.vals;
  }

  /** _make_strict_schema */
  method MakeStrict(d: Dict)
    requires d.Valid() && Shaped(d.Abs())
    modifies d.repr
    ensures d.Valid() && d.repr == old(d.repr)
    ensures d.Abs() == Strict(old(d.Abs()))
    decreases d.repr, 3
  {
    ghost var s := d.Abs();
    MarkedThenBelow(s);
    StrictBelowInSteps(Marked(s));
    MarkedShaped(s);
    Mark(d);
    MakeStrictUnder(d, "properties");
    MakeStrictUnder(d, "items");
    MakeStrictUnder(d, "$defs");
    MakeStrictUnder(d, "anyOf");
  }

  /** What each key of the marked schema refers to keeps its shape until its turn comes. */
  lemma MarkedShaped(s: Json)
    requires s.Obj? && Shaped(s)
    ensures var m := Marked(s);
            var p := WithStrict(m, "properties");
            var i := WithStrict(p, "items");
            var d := WithStrict(i, "$defs");
            && ("properties" in m.vals ==> ShapedUnder("properties", m.vals["properties"]))
            && ("items" in p.vals ==> ShapedUnder("items", p.vals["items"]))
            && ("$defs" in i.vals ==> ShapedUnder("$defs", i.vals["$defs"]))
            && ("anyOf" in d.vals ==> ShapedUnder("anyOf", d.vals["anyOf"]))
  {
    MarkedKeeps(s, "properties");
    MarkedKeeps(s, "items");
    MarkedKeeps(s, "$defs");
    MarkedKeeps(s, "anyOf");
  }

  /** The branch for object schemas: `required` and `additionalProperties`. */
  method Mark(d: Dict)
    requires d.Valid()
    modifies d
    ensures d.Valid() && d.repr == old(d.repr)
    ensures d.Abs() == Marked(old(d.Abs()))
  {
    if ("type" in d.vals && d.vals["type"] == Leaf(Text("object"))) || "properties" in d.vals {
      var names := [];
      if "properties" in d.vals && d.vals["properties"].Ref? {
        assert At(d.vals["properties"], 0).Some?;
        names := d.vals["properties"].dict.keys;
      }
      if names != [] {
        d.SetLeaf("required", Texts(names));
      }
      d.SetLeaf("additionalProperties", Flag(false));
    }
  }

  /** The recursion into what one key of a schema refers to. */
  method MakeStrictUnder(d: Dict, k: string)
    requires d.Valid() && k in {"properties", "items", "$defs", "anyOf"}
    requires k in d.vals ==> ShapedUnder(k, d.Abs().vals[k])
    modifies d.repr
    ensures d.Valid() && d.repr == old(d.repr) && d.vals == old(d.vals)
    ensures d.Abs() == WithStrict(old(d.Abs()), k)
    decreases d.repr, 2
  {
    if k !in d.vals {
      return;
    }
    BelowUnder(d.Abs(), k);
    if k == "items" {
      MakeStrictEntry(d, k);
    } else if k == "anyOf" {
      if d.vals[k].Refs? {
        MakeStrictElements(d, k);
      } else {
        FlatStays(d.vals[k].json);
      }
    } else if d.vals[k].Ref? {
      assert At(d.vals[k], 0).Some?;
      var o := d.vals[k].dict;
      assert forall j | j in o.vals :: Shaped(o.Value(j)) by {
        assert d.Value(k) == o.Abs();
        forall j | j in o.vals ensures Shaped(o.Value(j)) {
          assert o.Abs().vals[j] == o.Value(j);
        }
      }
      label before:
      MakeStrictValues(o);
      d.ChangedUnder@before(k);
    }
  }

  lemma FlatStays(j: Json)
    requires FlatLeaf(j) && j.Arr?
    ensures StrictElements(j) == j
  {
  }

  /** One value of a dict object; a value that is not a dict is left alone. */
  method MakeStrictEntry(d: Dict, k: string)
    requires d.Valid() && k in d.vals && Shaped(d.Value(k))
    modifies d.repr
    ensures d.Valid() && d.repr == old(d.repr) && d.vals == old(d.vals) && d.keys == old(d.keys)
    ensures d.Abs().vals == old(d.Abs()).vals[k := Strict(old(d.Abs()).vals[k])]
    decreases d.repr, 0
  {
    if d.vals[k].Ref? {
      assert At(d.vals[k], 0).Some?;
      label before:
      MakeStrict(d.vals[k].dict);
      d.ChangedUnder@before(k);
    } else {
      assert d.Abs().vals == d.Abs().vals[k := Strict(d.Abs().vals[k])];
    }
  }

  /** for v in d.values(): each made strict. */
  method MakeStrictValues(d: Dict)
    requires d.Valid() && forall k | k in d.vals :: Shaped(d.Value(k))
    modifies d.repr
    ensures d.Valid() && d.repr == old(d.repr) && d.vals == old(d.vals) && d.keys == old(d.keys)
    ensures d.Abs() == StrictValues(old(d.Abs()))
    decreases d.repr, 1
  {
    ghost var s := d.Abs();
    var todo := d.vals.Keys;
    while todo != {}
      invariant todo <= d.vals.Keys && d.vals == old(d.vals) && d.keys == old(d.keys)
      invariant d.Valid() && d.repr == old(d.repr)
      invariant forall k | k in d.vals :: d.Abs().vals[k] == if k in todo then s.vals[k] else Strict(s.vals[k])
      decreases todo
    {
      var k :| k in todo;
      MakeStrictEntry(d, k);
      todo := todo - {k};
    }
    assert d.Abs().vals == StrictValues(s).vals;
  }

  /** for v in d[k]: each element that is a dict made strict. */
  method MakeStrictElements(d: Dict, k: string)
    requires d.Valid() && k in d.vals && d.vals[k].Refs?
    requires forall i | 0 <= i < |d.vals[k].elems| :: Shaped(d.Value(k).items[i])
    modifies d.repr
    ensures d.Valid() && d.repr == old(d.repr) && d.vals == old(d.vals) && d.keys == old(d.keys)
    ensures d.Abs().vals == old(d.Abs()).vals[k := StrictElements(old(d.Abs()).vals[k])]
    decreases d.repr, 1
  {
    ghost var s := d.Abs();
    var elems := d.vals[k].elems;
    for i := 0 to |elems|
      invariant d.Valid() && d.repr == old(d.repr) && d.vals == old(d.vals) && d.keys == old(d.keys)
      invariant forall l | l in d.vals && l != k :: d.Abs().vals[l] == s.vals[l]
      invariant forall j | 0 <= j < |elems| ::
                  d.Value(k).items[j] == if j < i then Strict(s.vals[k].items[j]) else s.vals[k].items[j]
    {
      if elems[i].Schema? {
        MakeStrictElement(d, k, i);
      }
    }
    assert d.Value(k).items == StrictElements(s.vals[k]).items;
    assert d.Abs().vals == s.vals[k := StrictElements(s.vals[k])];
  }

  method MakeStrictElement(d: Dict, k: string, i: nat)
    requires d.Valid() && k in d.vals && d.vals[k].Refs? && i < |d.vals[k].elems| && d.vals[k].elems[i].Schema?
    requires Shaped(d.Value(k).items[i])
    modifies d.repr
    ensures d.Valid() && d.repr == old(d.repr) && d.vals == old(d.vals) && d.keys == old(d.keys)
    ensures forall l | l in d.vals && l != k :: d.Abs().vals[l] == old(d.Abs()).vals[l]
    ensures d.Value(k).items == old(d.Value(k)).items[i := Strict(old(d.Value(k)).items[i])]
    decreases d.repr, 0
  {
    var c := d.vals[k].elems[i].dict;
    assert At(d.vals[k], i) == Some(c);
    label before:
    MakeStrict(c);
    d.ChangedUnder@before(k);
    d.ChangedElement@before((k, i));
  }
}
