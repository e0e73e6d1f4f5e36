/** The strict form of a JSON schema (_make_strict_schema in app/llm/client.py), as a transformation of documents. */
module StrictSchema {
  import opened Results

  /** A JSON document. Objects keep the order of their keys, as Python dicts do. */
  datatype Json =
    | Obj(keys: seq<string>, vals: map<string, Json>)
    | Arr(items: seq<Json>)
    | Text(text: string)
    | Number(number: int)
    | Flag(flag: bool)
    | Null
  {
    /** d[k] = v: an existing key keeps its place, a new one comes last. */
    function Put(k: string, v: Json): Json
      requires Obj?
    {
      Obj(if k in vals then keys else keys + [k], vals[k := v])
    }
  }

  predicate Falsy(j: Json) {
    match j
    case Obj(_, vals) => vals == map[]
    case Arr(items) => items == []
    case Text(text) => text == ""
    case Number(number) => number == 0
    case Flag(flag) => !flag
    case Null => true
  }

  // ---------- the transformation ----------

  predicate IsObjectSchema(s: Json)
    requires s.Obj?
  {
    ("type" in s.vals && s.vals["type"] == Text("object")) || "properties" in s.vals
  }

  /** schema.get("properties") or {}, as the list of its keys. */
  function PropertyKeys(s: Json): seq<string>
    requires s.Obj?
  {
    if "properties" in s.vals && s.vals["properties"].Obj? then s.vals["properties"].keys else []
  }

  function Texts(keys: seq<string>): Json {
    Arr(seq(|keys|, i requires 0 <= i < |keys| => Text(keys[i])))
  }

  /** What an object schema itself gains: its properties are required and no others are allowed. */
  function Marked(s: Json): Json
    requires s.Obj?
  {
    if !IsObjectSchema(s) then s
    else
      var listed := if PropertyKeys(s) == [] then s else s.Put("required", Texts(PropertyKeys(s)));
      listed.Put("additionalProperties", Flag(false))
  }

  /** The strict form of every value of an object. */
  function StrictValues(o: Json): Json
    requires o.Obj?
    decreases o, 0
  {
    Obj(o.keys, map k | k in o.vals :: Strict(o.vals[k]))
  }

  function StrictElements(a: Json): Json
    requires a.Arr?
    decreases a, 0
  {
    Arr(seq(|a.items|, i requires 0 <= i < |a.items| => Strict(a.items[i])))
  }

  /** What becomes of the value under one key of a schema. */
  function StrictUnder(k: string, v: Json): Json
    decreases v, 2
  {
    if k == "items" then Strict(v)
    else if (k == "properties" || k == "$defs") && v.Obj? then StrictValues(v)
    else if k == "anyOf" && v.Arr? then StrictElements(v)
    else v
  }

  /** A schema whose subschemas are strict. */
  function StrictBelow(s: Json): Json
    requires s.Obj?
    decreases s, 0
  {
    Obj(s.keys, map k | k in s.vals :: StrictUnder(k, s.vals[k]))
  }

  function Strict(s: Json): Json
    decreases s, 1
  {
    if s.Obj? then Marked(StrictBelow(s)) else s
  }

  /**
   What the walk relies on, in every subschema it visits: `properties` is a dict or falsy,
   `$defs` is a dict and `anyOf` a list. Otherwise Python raises.
  */
  ghost predicate Shaped(s: Json)
    decreases s, 1
  {
    s.Obj? ==> forall k | k in s.vals :: ShapedUnder(k, s.vals[k])
  }

  ghost predicate ShapedUnder(k: string, v: Json)
    decreases v, 2
  {
    if k == "items" then Shaped(v)
    else if k == "properties" then Falsy(v) || (v.Obj? && forall j | j in v.vals :: Shaped(v.vals[j]))
    else if k == "$defs" then v.Obj? && forall j | j in v.vals :: Shaped(v.vals[j])
    else if k == "anyOf" then v.Arr? && forall i | 0 <= i < |v.items| :: Shaped(v.items[i])
    else true
  }

  // ---------- subschemas ----------

  /** The four ways from a schema to a subschema. */
  datatype Step = Property(name: string) | Items | Definition(name: string) | Alternative(index: nat)

  function Child(s: Json, step: Step): Option<Json> {
    if !s.Obj? then None
    else match step
      case Property(name) => ValueIn(s, "properties", name)
      case Items => if "items" in s.vals then Some(s.vals["items"]) else None
      case Definition(name) => ValueIn(s, "$defs", name)
      case Alternative(i) =>
        if "anyOf" in s.vals && s.vals["anyOf"].Arr? && i < |s.vals["anyOf"].items|
          then Some(s.vals["anyOf"].items[i]) else None
  }

  function ValueIn(s: Json, k: string, name: string): Option<Json>
    requires s.Obj?
  {
    if k in s.vals && s.vals[k].Obj? && name in s.vals[k].vals then Some(s.vals[k].vals[name]) else None
  }

  function Descend(s: Json, steps: seq<Step>): Option<Json> {
    if steps == [] then Some(s)
    else match Child(s, steps[0])
      case None => None
      case Some(c) => Descend(c, steps[1..])
  }

  lemma MarkedKeeps(s: Json, k: string)
    requires s.Obj?
    ensures Marked(s).Obj? && s.keys <= Marked(s).keys
    ensures k != "required" && k != "additionalProperties" ==>
              (k in Marked(s).vals <==> k in s.vals) && (k in s.vals ==> Marked(s).vals[k] == s.vals[k])
    ensures IsObjectSchema(Marked(s)) <==> IsObjectSchema(s)
    ensures PropertyKeys(Marked(s)) == PropertyKeys(s)
  {
  }

  lemma BelowKeeps(s: Json)
    requires s.Obj?
    ensures IsObjectSchema(StrictBelow(s)) <==> IsObjectSchema(s)
    ensures PropertyKeys(StrictBelow(s)) == PropertyKeys(s)
  {
    BelowUnder(s, "type");
    BelowUnder(s, "properties");
  }

  lemma BelowUnder(s: Json, k: string)
    requires s.Obj?
    ensures k in StrictBelow(s).vals <==> k in s.vals
    ensures k in s.vals ==> StrictBelow(s).vals[k] == StrictUnder(k, s.vals[k])
    ensures k in s.vals && (k == "properties" || k == "$defs") ==>
              var v, r := s.vals[k], StrictUnder(k, s.vals[k]);
              (r.Obj? <==> v.Obj?) &&
              (v.Obj? ==> r.keys == v.keys && r.vals == map j | j in v.vals :: Strict(v.vals[j]))
    ensures k in s.vals && k == "items" ==> StrictUnder(k, s.vals[k]) == Strict(s.vals[k])
    ensures k in s.vals && k == "anyOf" ==>
              var v, r := s.vals[k], StrictUnder(k, s.vals[k]);
              (r.Arr? <==> v.Arr?) &&
              (v.Arr? ==> |r.items| == |v.items| && forall i | 0 <= i < |v.items| :: r.items[i] == Strict(v.items[i]))
    ensures k in s.vals && k !in {"properties", "items", "$defs", "anyOf"} ==> StrictUnder(k, s.vals[k]) == s.vals[k]
  {
  }

  lemma ChildOfStrict(s: Json, step: Step)
    ensures Child(Strict(s), step) == match Child(s, step) case None => None case Some(c) => Some(Strict(c))
  {
    if s.Obj? {
      var b := StrictBelow(s);
      MarkedKeeps(b, "properties");
      BelowUnder(s, "properties");
      MarkedKeeps(b, "items");
      BelowUnder(s, "items");
      MarkedKeeps(b, "$defs");
      BelowUnder(s, "$defs");
      MarkedKeeps(b, "anyOf");
      BelowUnder(s, "anyOf");
    }
  }

  /** The subschemas of the strict form are the strict forms of the subschemas. */
  lemma {:induction false} DescendStrict(s: Json, steps: seq<Step>)
    ensures Descend(Strict(s), steps) == match Descend(s, steps) case None => None case Some(t) => Some(Strict(t))
  {
    if steps != [] {
      ChildOfStrict(s, steps[0]);
      match Child(s, steps[0])
      case None =>
      case Some(c) => DescendStrict(c, steps[1..]);
    }
  }

  // ---------- what the strict form says ----------

  /** No property but the listed ones is allowed, and all listed ones are required. */
  predicate Closed(s: Json)
    requires s.Obj?
  {
    "additionalProperties" in s.vals && s.vals["additionalProperties"] == Flag(false)
  }

  predicate RequiresExactly(s: Json, names: seq<string>)
    requires s.Obj?
  {
    if "required" in s.vals then s.vals["required"] == Texts(names) else names == []
  }

  /**
   Every object schema that can be reached is closed, keeps its property names, and requires
   exactly those names, provided it has some or required exactly none to begin with: a stale
   `required` next to no properties stays.
  */
  lemma StrictObjects(s: Json, steps: seq<Step>)
    requires Descend(s, steps).Some? && Descend(s, steps).value.Obj?
    requires var vals := Descend(s, steps).value.vals;
             ("type" in vals && vals["type"] == Text("object")) || "properties" in vals
    ensures Descend(Strict(s), steps).Some? && Descend(Strict(s), steps).value.Obj?
    ensures var t, r := Descend(s, steps).value, Descend(Strict(s), steps).value;
            var names := if "properties" in t.vals && t.vals["properties"].Obj? then t.vals["properties"].keys else [];
            && Closed(r)
            && PropertyKeys(r) == names
            && (RequiresExactly(r, names) <==> names != [] || RequiresExactly(t, []))
  {
    DescendStrict(s, steps);
    var t := Descend(s, steps).value;
    BelowKeeps(t);
    MarkedKeeps(StrictBelow(t), "type");
    BelowUnder(t, "required");
    assert |Texts(PropertyKeys(t)).items| == |PropertyKeys(t)|;
  }

  /** {"type": "object", "required": ["a"]} is such an object: it comes out requiring a property it forbids. */
  lemma StaleRequiredStays()
    ensures var s := Obj(["type", "required"], map["type" := Text("object"), "required" := Texts(["a"])]);
            Closed(Strict(s)) && PropertyKeys(Strict(s)) == [] && Strict(s).vals["required"] == Texts(["a"])
  {
    var s := Obj(["type", "required"], map["type" := Text("object"), "required" := Texts(["a"])]);
    BelowUnder(s, "required");
    BelowKeeps(s);
  }

  /**
   Nothing else changes: every other value of a schema and the order of its keys; a falsy
   `properties`; the names and their order in `properties` and `$defs`; the number of
   alternatives in `anyOf`.
  */
  lemma StrictFrame(s: Json, k: string)
    requires s.Obj?
    ensures Strict(s).Obj? && s.keys <= Strict(s).keys
    ensures k == "properties" && k in s.vals && Falsy(s.vals[k]) ==>
              k in Strict(s).vals && Strict(s).vals[k] == s.vals[k]
    ensures k in {"properties", "$defs"} && k in s.vals && s.vals[k].Obj? ==>
              k in Strict(s).vals && Strict(s).vals[k].Obj? && Strict(s).vals[k].keys == s.vals[k].keys
              && Strict(s).vals[k].vals.Keys == s.vals[k].vals.Keys
    ensures k == "anyOf" && k in s.vals && s.vals[k].Arr? ==>
              k in Strict(s).vals && Strict(s).vals[k].Arr? && |Strict(s).vals[k].items| == |s.vals[k].items|
    ensures k !in {"required", "additionalProperties", "properties", "items", "$defs", "anyOf"} ==>
              (k in Strict(s).vals <==> k in s.vals) && (k in s.vals ==> Strict(s).vals[k] == s.vals[k])
    ensures "properties" !in s.vals && ("type" in s.vals ==> s.vals["type"] != Text("object")) ==>
              && Strict(s).keys == s.keys && Strict(s).vals.Keys == s.vals.Keys
              && (k in {"required", "additionalProperties"} && k in s.vals ==> Strict(s).vals[k] == s.vals[k])
  {
    BelowKeeps(s);
    MarkedKeeps(StrictBelow(s), k);
    BelowUnder(s, k);
  }

  // ---------- idempotence ----------

  lemma MarkedTwice(s: Json)
    requires s.Obj?
    ensures Marked(Marked(s)) == Marked(s)
  {
  }

  lemma PutBelow(s: Json, k: string, v: Json)
    requires s.Obj? && StrictUnder(k, v) == v
    ensures StrictBelow(s.Put(k, v)) == StrictBelow(s).Put(k, v)
  {
  }

  lemma MarkedThenBelow(s: Json)
    requires s.Obj?
    ensures StrictBelow(Marked(s)) == Marked(StrictBelow(s))
  {
    BelowKeeps(s);
    var names := Texts(PropertyKeys(s));
    PutBelow(s, "required", names);
    PutBelow(s.Put("required", names), "additionalProperties", Flag(false));
    PutBelow(s, "additionalProperties", Flag(false));
  }

  /** Making a strict schema strict changes nothing. */
  lemma {:induction false} StrictIdempotent(s: Json)
    ensures Strict(Strict(s)) == Strict(s)
    decreases s, 1
  {
    if s.Obj? {
      var b := StrictBelow(s);
      forall k | k in s.vals ensures StrictUnder(k, StrictUnder(k, s.vals[k])) == StrictUnder(k, s.vals[k]) {
        UnderIdempotent(k, s.vals[k]);
      }
      assert StrictBelow(b).vals == b.vals;
      MarkedThenBelow(b);
      MarkedTwice(b);
    }
  }

  lemma {:induction false} UnderIdempotent(k: string, v: Json)
    ensures StrictUnder(k, StrictUnder(k, v)) == StrictUnder(k, v)
    decreases v, 2
  {
    if k == "items" {
      StrictIdempotent(v);
    } else if (k == "properties" || k == "$defs") && v.Obj? {
      forall j | j in v.vals ensures Strict(Strict(v.vals[j])) == Strict(v.vals[j]) {
        StrictIdempotent(v.vals[j]);
      }
      assert StrictValues(StrictValues(v)).vals == StrictValues(v).vals;
    } else if k == "anyOf" && v.Arr? {
      forall i | 0 <= i < |v.items| ensures Strict(Strict(v.items[i])) == Strict(v.items[i]) {
        StrictIdempotent(v.items[i]);
      }
      assert StrictElements(StrictElements(v)).items == StrictElements(v).items;
    }
  }
}
