/** Parsed YAML and JSON documents. */
module Trees {
  import opened Results

  /**
   A parsed document. A Python dict is a map: dict equality ignores key order, and
   nothing modelled here reads it.
  */
  datatype Tree =
    | Dict(entries: map<string, Tree>)
    | List(items: seq<Tree>)
    | Str(text: string)
    | Num(number: int)
    | Bool(flag: bool)
    | Null

  const EMPTY_DICT := Dict(map[])

  /** Python's truth test, negated. */
  predicate Falsy(t: Tree) {
    match t
    case Dict(entries) => entries == map[]
    case List(items) => items == []
    case Str(text) => text == ""
    case Num(number) => number == 0
    case Bool(flag) => !flag
    case Null => true
  }

  /** `t or {}` */
  function OrEmpty(t: Tree): Tree {
    if Falsy(t) then EMPTY_DICT else t
  }

  /** The subtree reached from t by following dict keys. */
  function Lookup(t: Tree, path: seq<string>): Option<Tree> {
    if path == [] then Some(t)
    else if t.Dict? && path[0] in t.entries then Lookup(t.entries[path[0]], path[1..])
    else None
  }

  /** Following p + q is following p and then q. */
  lemma {:induction false} LookupConcat(t: Tree, p: seq<string>, q: seq<string>)
    ensures Lookup(t, p + q) ==
            match Lookup(t, p) case None => None case Some(s) => Lookup(s, q)
  {
    if p == [] {
      assert p + q == q;
    } else {
      assert (p + q)[0] == p[0] && (p + q)[1..] == p[1..] + q;
      if t.Dict? && p[0] in t.entries {
        LookupConcat(t.entries[p[0]], p[1..], q);
      }
    }
  }

  /** The pieces of a dotted path: split at every '.', drop the empty pieces. */
  function Parts(path: string): (parts: seq<string>)
    ensures forall p | p in parts :: p != "" && '.' !in p
  {
    PartsFrom("", path)
  }

  function PartsFrom(piece: string, rest: string): (parts: seq<string>)
    requires '.' !in piece
    ensures forall p | p in parts :: p != "" && '.' !in p
    decreases |rest|
  {
    if rest == "" then Closed(piece)
    else if rest[0] == '.' then Closed(piece) + PartsFrom("", rest[1..])
    else PartsFrom(piece + [rest[0]], rest[1..])
  }

  function Closed(piece: string): seq<string> {
    if piece == "" then [] else [piece]
  }

  /** The pieces joined by dots. */
  function DotJoined(pieces: seq<string>): string {
    if pieces == [] then ""
    else if |pieces| == 1 then pieces[0]
    else pieces[0] + "." + DotJoined(pieces[1..])
  }

  lemma {:induction false} PartsFromConcat(piece: string, p: string, q: string)
    requires '.' !in piece
    ensures PartsFrom(piece, p + "." + q) == PartsFrom(piece, p) + PartsFrom("", q)
    decreases |p|
  {
    if p == "" {
      assert (p + "." + q)[1..] == q;
    } else {
      assert (p + "." + q)[0] == p[0] && (p + "." + q)[1..] == p[1..] + "." + q;
      if p[0] == '.' {
        PartsFromConcat("", p[1..], q);
      } else {
        PartsFromConcat(piece + [p[0]], p[1..], q);
      }
    }
  }

  /** At a dot, a path falls into the pieces before it and those behind it. */
  lemma PartsConcat(p: string, q: string)
    ensures Parts(p + "." + q) == Parts(p) + Parts(q)
  {
    PartsFromConcat("", p, q);
  }

  lemma {:induction false} PartsFromPiece(piece: string, rest: string)
    requires '.' !in piece && '.' !in rest
    ensures PartsFrom(piece, rest) == Closed(piece + rest)
    decreases |rest|
  {
    if rest == "" {
      assert piece + rest == piece;
    } else {
      assert piece + [rest[0]] + rest[1..] == piece + rest;
      PartsFromPiece(piece + [rest[0]], rest[1..]);
    }
  }

  /** A path without a dot is one piece, or none if it is empty. */
  lemma PartsOfPiece(p: string)
    requires '.' !in p
    ensures Parts(p) == if p == "" then [] else [p]
  {
    PartsFromPiece("", p);
    assert "" + p == p;
  }

  /** Splitting at the dots undoes joining by dots: a path has exactly the pieces it was joined from, in order. */
  lemma {:induction false} PartsOfJoined(pieces: seq<string>)
    requires forall p | p in pieces :: p != "" && '.' !in p
    ensures Parts(DotJoined(pieces)) == pieces
  {
    if |pieces| <= 1 {
      PartsOfPiece(DotJoined(pieces));
    } else {
      PartsOfPiece(pieces[0]);
      assert forall p | p in pieces[1..] :: p in pieces;
      PartsConcat(pieces[0], DotJoined(pieces[1..]));
      PartsOfJoined(pieces[1..]);
    }
  }

  /** Exactly six kinds of value count as false. */
  lemma FalsyValues(t: Tree)
    ensures Falsy(t) <==> t in {Null, Bool(false), Num(0), Str(""), List([]), Dict(map[])}
  {
  }
}
