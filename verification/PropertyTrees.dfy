/** Trees of typed configuration values as values: merging, reading out and replaying
    (pkg/kdo/property.go:74-92, pkg/kdo/struct_property.go:89-149). */
module PropertyTrees {
  import opened Options

  /** Starlark values; the order of the entries of a dict does not matter. */
  datatype Value =
    | None
    | Bool(b: bool)
    | Int(i: int)
    | Str(s: string)
    | List(elements: seq<Value>)
    | Dict(items: map<string, Value>)

  predicate Truth(v: Value) {
    match v
    case None => false
    case Bool(b) => b
    case Int(i) => i != 0
    case Str(s) => s != ""
    case List(elements) => elements != []
    case Dict(items) => items != map[]
  }

  /** These are the falsy values. */
  lemma {:induction false} FalsyIff(v: Value)
    ensures !Truth(v) <==>
            v == None || v == Bool(false) || v == Int(0) || v == Str("") || v == List([]) || v == Dict(map[])
  {
  }

  datatype Tree =
    | Leaf(value: Value, dflt: Value)
    | Struct(additional: bool, fields: map<string, Tree>)

  /** The property created for a field that was not declared. */
  function Created(v: Value, additional: bool): Tree {
    if v.Dict? then Struct(additional, map[]) else Leaf(None, None)
  }

  /** The properties declared by the values file of a chart: its values are the defaults. */
  function FromValues(v: Value): Tree {
    if v.Dict? then Struct(true, map k | k in v.items :: FromValues(v.items[k])) else Leaf(None, v)
  }

  function Field(fields: map<string, Tree>, k: string, v: Value, additional: bool): Tree {
    if k in fields then fields[k] else Created(v, additional)
  }

  predicate Settable(t: Tree, v: Value)
    decreases v
  {
    match t
    case Leaf(_, _) => true
    case Struct(additional, fields) =>
      && v.Dict?
      && forall k :: k in v.items ==>
           (k in fields || additional) && Settable(Field(fields, k, v.items[k], additional), v.items[k])
  }

  /** Deep merge: dicts are merged into structs field by field, leaves take their value as it is. */
  function Merge(t: Tree, v: Value): Tree
    requires Settable(t, v)
    decreases v
  {
    match t
    case Leaf(_, dflt) => Leaf(v, dflt)
    case Struct(additional, fields) =>
      Struct(additional, map k | k in fields.Keys + v.items.Keys ::
        if k in v.items then Merge(Field(fields, k, v.items[k], additional), v.items[k]) else fields[k])
  }

  // ---- What a merge means, path by path ----

  function Get(t: Tree, path: seq<string>): Option<Value>
    decreases |path|
  {
    match t
    case Leaf(value, _) => if path == [] then Just(value) else Nothing
    case Struct(_, fields) =>
      if path != [] && path[0] in fields then Get(fields[path[0]], path[1..]) else Nothing
  }

  /** Setting v on t writes the leaf at this path. */
  predicate Writes(t: Tree, v: Value, path: seq<string>)
    decreases |path|
  {
    match t
    case Leaf(_, _) => path == []
    case Struct(additional, fields) =>
      && path != [] && v.Dict? && path[0] in v.items
      && Writes(Field(fields, path[0], v.items[path[0]], additional), v.items[path[0]], path[1..])
  }

  function At(v: Value, path: seq<string>): Value
    decreases |path|
  {
    if path == [] then v
    else if v.Dict? && path[0] in v.items then At(v.items[path[0]], path[1..])
    else None
  }

  /** Every path that is written reads back what the dict has there, every other path is unchanged. */
  lemma {:induction false} MergeByPath(t: Tree, v: Value, path: seq<string>)
    requires Settable(t, v)
    ensures Get(Merge(t, v), path) == if Writes(t, v, path) then Just(At(v, path)) else Get(t, path)
    decreases |path|
  {
    if t.Struct? && path != [] && path[0] in v.items {
      var k := path[0];
      var field := Field(t.fields, k, v.items[k], t.additional);
      MergeByPath(field, v.items[k], path[1..]);
      if k !in t.fields && !Writes(t, v, path) {
        NothingCreated(v.items[k], t.additional, path[1..]);
      }
    }
  }

  lemma {:induction false} NothingCreated(v: Value, additional: bool, path: seq<string>)
    requires !Writes(Created(v, additional), v, path)
    ensures Get(Created(v, additional), path) == Nothing
  {
  }

  /** Where a path leads in a tree and in the value that is set on it. */
  function Met(t: Tree, v: Value, path: seq<string>): Option<(Tree, Value)>
    decreases |path|
  {
    if path == [] then Just((t, v))
    else if t.Struct? && v.Dict? && path[0] in v.items then
      Met(Field(t.fields, path[0], v.items[path[0]], t.additional), v.items[path[0]], path[1..])
    else Nothing
  }

  /** A struct takes dicts whose names it declares, or any dict if it has additional properties; a leaf takes all. */
  predicate Takes(t: Tree, v: Value) {
    t.Struct? ==> v.Dict? && forall k :: k in v.items ==> k in t.fields || t.additional
  }

  predicate TakenAt(t: Tree, v: Value, path: seq<string>) {
    var met := Met(t, v, path);
    met.Just? ==> Takes(met.value.0, met.value.1)
  }

  /** A value is accepted if and only if it is wherever a path leads. */
  lemma {:induction false} SettableByPath(t: Tree, v: Value)
    ensures Settable(t, v) <==> forall path :: TakenAt(t, v, path)
    decreases v, 1
  {
    assert TakenAt(t, v, []) <==> Takes(t, v);
    if Takes(t, v) && t.Struct? {
      forall k | k in v.items
        ensures Settable(Field(t.fields, k, v.items[k], t.additional), v.items[k]) <==>
                forall rest :: TakenAt(t, v, [k] + rest)
      {
        SettableBelow(t, v, k);
      }
      if Settable(t, v) {
        forall path
          ensures TakenAt(t, v, path)
        {
          if path != [] && path[0] in v.items {
            assert path == [path[0]] + path[1..];
            assert TakenAt(t, v, [path[0]] + path[1..]);
          }
        }
      }
    }
  }

  lemma {:induction false} SettableBelow(t: Tree, v: Value, k: string)
    requires t.Struct? && v.Dict? && k in v.items
    ensures Settable(Field(t.fields, k, v.items[k], t.additional), v.items[k]) <==>
            forall rest :: TakenAt(t, v, [k] + rest)
    decreases v, 0
  {
    var field := Field(t.fields, k, v.items[k], t.additional);
    SettableByPath(field, v.items[k]);
    forall rest: seq<string>
      ensures TakenAt(t, v, [k] + rest) <==> TakenAt(field, v.items[k], rest)
    {
      assert ([k] + rest)[1..] == rest;
    }
    if forall rest :: TakenAt(t, v, [k] + rest) {
      forall rest
        ensures TakenAt(field, v.items[k], rest)
      {
        assert TakenAt(t, v, [k] + rest);
      }
    }
  }

  /** Setting the same value again changes nothing. */
  lemma {:induction false} MergeTwice(t: Tree, v: Value)
    requires Settable(t, v)
    ensures Settable(Merge(t, v), v) && Merge(Merge(t, v), v) == Merge(t, v)
    decreases v
  {
    if t.Struct? {
      var m := Merge(t, v);
      forall k | k in v.items
        ensures Settable(m.fields[k], v.items[k]) && Merge(m.fields[k], v.items[k]) == m.fields[k]
      {
        MergeTwice(Field(t.fields, k, v.items[k], t.additional), v.items[k]);
      }
      assert Merge(m, v).fields == m.fields;
    }
  }

  // ---- Reading out ----

  /** Only values that are not falsy leave a struct. */
  function GetValue(t: Tree): Value {
    match t
    case Leaf(value, _) => value
    case Struct(_, fields) => Dict(map k | k in fields && Truth(GetValue(fields[k])) :: GetValue(fields[k]))
  }

  function GetValueOrDefault(t: Tree): Value {
    match t
    case Leaf(value, dflt) => if value == None then dflt else value
    case Struct(_, fields) =>
      Dict(map k | k in fields && Truth(GetValueOrDefault(fields[k])) :: GetValueOrDefault(fields[k]))
  }

  /** How a value looks from the enclosing struct. */
  function Shown(v: Value): Value {
    if Truth(v) then v else None
  }

  function Reading(t: Tree, orDefault: bool): Value {
    if orDefault then GetValueOrDefault(t) else GetValue(t)
  }

  /** The value of a leaf, or what stands in for it. */
  function LeafAt(t: Tree, path: seq<string>, orDefault: bool): Option<Value>
    decreases |path|
  {
    match t
    case Leaf(value, dflt) =>
      if path != [] then Nothing else if orDefault && value == None then Just(dflt) else Just(value)
    case Struct(_, fields) =>
      if path != [] && path[0] in fields then LeafAt(fields[path[0]], path[1..], orDefault) else Nothing
  }

  /** A struct that is read out holds each leaf that is not falsy. */
  lemma {:induction false} ReadOutByPath(t: Tree, path: seq<string>, orDefault: bool)
    requires LeafAt(t, path, orDefault).Just? && path != []
    ensures At(Reading(t, orDefault), path) == Shown(LeafAt(t, path, orDefault).value)
    decreases |path|
  {
    var field := t.fields[path[0]];
    if path[1..] != [] {
      ReadOutByPath(field, path[1..], orDefault);
    }
    if !Truth(Reading(field, orDefault)) {
      assert At(Reading(field, orDefault), path[1..]) == Shown(LeafAt(t, path, orDefault).value) || path[1..] == [];
    }
  }

  /** A struct on the way has no field of the next name. */
  predicate Undeclared(t: Tree, path: seq<string>)
    decreases |path|
  {
    t.Struct? && path != [] && (path[0] in t.fields ==> Undeclared(t.fields[path[0]], path[1..]))
  }

  /** And nothing but its fields. */
  lemma {:induction false} NothingElseRead(t: Tree, path: seq<string>, orDefault: bool)
    requires Undeclared(t, path)
    ensures At(Reading(t, orDefault), path) == None
    decreases |path|
  {
    if path[0] in t.fields {
      NothingElseRead(t.fields[path[0]], path[1..], orDefault);
    }
  }
}
