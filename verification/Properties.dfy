/** Property objects, updated in place (pkg/kdo/property.go:28-92, pkg/kdo/struct_property.go:12-149). */
module Properties {
  import opened Options
  import opened PropertyTrees

  class Property {
    var value: Value
    const dflt: Value

    constructor (dflt: Value)
      ensures value == None && this.dflt == dflt
    {
      value, this.dflt := None, dflt;
    }
  }

  datatype PropertyValue = Simple(p: Property) | Nested(s: StructProperty)

  /** The objects that make up a property. */
  ghost function Footprint(v: PropertyValue): set<object>
    reads if v.Nested? then {v.s} else {}
  {
    match v
    case Simple(p) => {p}
    case Nested(s) => {s} + s.Repr
  }

  ghost predicate Sane(v: PropertyValue)
    reads Footprint(v)
    decreases Footprint(v), 1
  {
    v.Nested? ==> v.s in v.s.Repr && v.s.Valid()
  }

  /** A property as a value. */
  ghost function ModelOf(v: PropertyValue): Tree
    requires Sane(v)
    reads Footprint(v)
    decreases Footprint(v), 2
  {
    match v
    case Simple(p) => Leaf(p.value, p.dflt)
    case Nested(s) => s.Model()
  }

  class StructProperty {
    var properties: map<string, PropertyValue>
    const additionalProperties: bool
    ghost var Repr: set<object>

    ghost predicate Valid()
      reads this, Repr
      decreases Repr + {this}, 0
    {
      && this in Repr
      && (forall k :: k in properties ==>
            && (properties[k].Nested? ==> properties[k].s in Repr)
            && Footprint(properties[k]) <= Repr
            && this !in Footprint(properties[k])
            && Sane(properties[k]))
      && (forall k, l :: k in properties && l in properties && k != l ==>
             Footprint(properties[k]) !! Footprint(properties[l]))
    }

    /** The fields of this struct, as values. */
    ghost function Fields(): map<string, Tree>
      requires Valid()
      reads this, Repr
      decreases Repr + {this}, 0
    {
      map k | k in properties :: ModelOf(properties[k])
    }

    /** This struct as a value. */
    ghost function Model(): Tree
      requires Valid()
      reads this, Repr
      decreases Repr + {this}, 1
    {
      Struct(additionalProperties, Fields())
    }

    constructor (additionalProperties: bool)
      ensures Valid() && fresh(Repr) && Model() == Struct(additionalProperties, map[])
    {
      this.additionalProperties, properties := additionalProperties, map[];
      Repr := {this};
    }

    /** Adds the property that an undeclared field gets: a struct for a dict, else a plain property. */
    method Create(name: string, val: Value)
      requires Valid() && name !in properties
      modifies this
      ensures Valid() && fresh(Repr - old(Repr)) && name in properties
      ensures Entry(Fields(), name) == Just(Created(val, additionalProperties))
      ensures forall k :: k != name ==> Entry(Fields(), k) == Entry(old(Fields()), k)
    {
      if val.Dict? {
        var s := new StructProperty(additionalProperties);
        Adopt(name, Nested(s));
      } else {
        var p := new Property(None);
        Adopt(name, Simple(p));
      }
    }

    method Adopt(name: string, v: PropertyValue)
      requires Valid() && name !in properties && Sane(v) && Footprint(v) !! Repr
      modifies this
      ensures Valid() && Repr == old(Repr) + Footprint(v) && properties == old(properties)[name := v]
      ensures Entry(Fields(), name) == Just(old(ModelOf(v)))
      ensures forall k :: k != name ==> Entry(Fields(), k) == Entry(old(Fields()), k)
    {
      properties := properties[name := v];
      Repr := Repr + Footprint(v);
      forall k | k in properties
        ensures Sane(properties[k]) && this !in Footprint(properties[k])
        ensures k != name ==> Footprint(properties[k]) <= old(Repr) && Footprint(properties[k]) !! Footprint(v)
        ensures ModelOf(properties[k]) == old(ModelOf(if k == name then v else properties[k]))
      {
      }
    }

    method SetField(name: string, val: Value) returns (ok: bool)
      requires Valid()
      modifies Repr
      decreases val, 3
      ensures Valid() && fresh(Repr - old(Repr))
      ensures ok <==> (name in old(Fields()) || additionalProperties)
                      && Settable(Field(old(Fields()), name, val, additionalProperties), val)
      ensures ok ==> Entry(Fields(), name) == Just(Merge(Field(old(Fields()), name, val, additionalProperties), val))
      ensures forall k :: k != name ==> Entry(Fields(), k) == Entry(old(Fields()), k)
    {
      if name !in properties {
        if !additionalProperties {
          return false;
        }
        Create(name, val);
      }
      ok := SetProperty(name, val);
    }

    /** Sets the property that is there. */
    method SetProperty(name: string, val: Value) returns (ok: bool)
      requires Valid() && name in properties
      modifies Repr
      decreases val, 2
      ensures Valid() && fresh(Repr - old(Repr))
      ensures properties.Keys == old(properties.Keys)
      ensures ok <==> Settable(old(Fields())[name], val)
      ensures ok ==> Entry(Fields(), name) == Just(Merge(old(Fields())[name], val))
      ensures forall k :: k != name ==> Entry(Fields(), k) == Entry(old(Fields()), k)
    {
      match properties[name]
      case Simple(p) =>
        p.value := val;
        ok := true;
      case Nested(s) =>
        ok := SetNested(name, s, val);
    }

    method SetNested(name: string, s: StructProperty, val: Value) returns (ok: bool)
      requires Valid() && name in properties && properties[name] == Nested(s)
      modifies Repr
      decreases val, 1
      ensures Valid() && fresh(Repr - old(Repr))
      ensures properties.Keys == old(properties.Keys)
      ensures ok <==> Settable(old(Fields())[name], val)
      ensures ok ==> Entry(Fields(), name) == Just(Merge(old(Fields())[name], val))
      ensures forall k :: k != name ==> Entry(Fields(), k) == Entry(old(Fields()), k)
    {
      ok := s.SetValue(val);
      forall k | k in properties && k != name
        ensures Footprint(properties[k]) == old(Footprint(properties[k])) && Footprint(properties[k]) !! s.Repr
        ensures Sane(properties[k]) && ModelOf(properties[k]) == old(ModelOf(properties[k]))
      {
      }
      Repr := Repr + s.Repr;
      forall k | k in properties
        ensures Sane(properties[k]) && this !in Footprint(properties[k]) && Footprint(properties[k]) <= Repr
        ensures ModelOf(properties[k]) == if k == name then s.Model() else old(ModelOf(properties[k]))
      {
      }
    }

    /** Merges a dict into this struct, entry by entry in any order; anything else is refused. When an
        entry is refused the ones before it stay. */
    method SetValue(val: Value) returns (ok: bool)
      requires Valid()
      modifies Repr
      decreases val, 0
      ensures Valid() && fresh(Repr - old(Repr))
      ensures ok <==> Settable(old(Model()), val)
      ensures ok ==> Model() == Merge(old(Model()), val)
      ensures forall k :: k !in NamesIn(val) ==> Entry(Fields(), k) == Entry(old(Fields()), k)
    {
      if !val.Dict? {
        return false;
      }
      ghost var fields := Fields();
      var todo := val.items.Keys;
      ok := true;
      while todo != {} && ok
        invariant Valid() && fresh(Repr - old(Repr)) && todo <= val.items.Keys
        invariant forall k :: k in todo || k !in val.items ==> Entry(Fields(), k) == Entry(fields, k)
        invariant forall k :: k in val.items && k !in todo && ok ==>
          SettableField(fields, k, val, additionalProperties)
          && Entry(Fields(), k) == Just(Merge(Field(fields, k, val.items[k], additionalProperties), val.items[k]))
        invariant !ok ==> exists k :: k in val.items && !SettableField(fields, k, val, additionalProperties)
        decreases |todo|
      {
        var k :| k in todo;
        ok := SetField(k, val.items[k]);
        todo := todo - {k};
      }
      if ok {
        Merged(fields, Fields(), val, additionalProperties);
      }
    }

    /** Collects what the fields read out, with or without their defaults, except for what is falsy. */
    method ReadOut(orDefault: bool) returns (v: Value)
      requires Valid()
      decreases Repr, 1
      ensures v == Reading(Model(), orDefault)
    {
      var result: map<string, Value> := map[];
      ghost var fields := Fields();
      var todo := properties.Keys;
      while todo != {}
        invariant todo <= properties.Keys && fields == Fields()
        invariant ReadSoFar(fields, todo, orDefault, result)
        decreases |todo|
      {
        var k :| k in todo;
        result := ReadField(k, orDefault, fields, todo, result);
        todo := todo - {k};
      }
      v := Dict(result);
      ReadInFull(additionalProperties, fields, orDefault, result);
    }

    method ReadField(k: string, orDefault: bool, ghost fields: map<string, Tree>, ghost todo: set<string>,
        before: map<string, Value>)
      returns (result: map<string, Value>)
      requires Valid() && k in properties && todo <= properties.Keys && k in todo && fields == Fields()
      requires ReadSoFar(fields, todo, orDefault, before)
      decreases Repr, 0
      ensures ReadSoFar(fields, todo - {k}, orDefault, result)
    {
      var r;
      match properties[k] {
        case Simple(p) => r := if orDefault && p.value == None then p.dflt else p.value;
        case Nested(s) => r := s.ReadOut(orDefault);
      }
      assert r == Reading(fields[k], orDefault);
      ReadOneMore(fields, todo, orDefault, before, k);
      result := if Truth(r) then before[k := r] else before;
    }
  }

  ghost predicate ReadSoFar(fields: map<string, Tree>, todo: set<string>, orDefault: bool, result: map<string, Value>) {
    && (forall k :: k in result <==> k in fields && k !in todo && Truth(Reading(fields[k], orDefault)))
    && (forall k :: k in result ==> result[k] == Reading(fields[k], orDefault))
  }

  lemma {:induction false} ReadOneMore(fields: map<string, Tree>, todo: set<string>, orDefault: bool,
      result: map<string, Value>, k: string)
    requires todo <= fields.Keys && k in todo && ReadSoFar(fields, todo, orDefault, result)
    ensures var r := Reading(fields[k], orDefault);
            ReadSoFar(fields, todo - {k}, orDefault, if Truth(r) then result[k := r] else result)
  {
  }

  lemma {:induction false} ReadInFull(additional: bool, fields: map<string, Tree>, orDefault: bool,
      result: map<string, Value>)
    requires ReadSoFar(fields, {}, orDefault, result)
    ensures Dict(result) == Reading(Struct(additional, fields), orDefault)
  {
    assert result == Reading(Struct(additional, fields), orDefault).items;
  }

  /** Declares the properties of a values file. */
  method ToProperty(v: Value) returns (p: PropertyValue)
    ensures Sane(p) && fresh(Footprint(p)) && ModelOf(p) == FromValues(v)
    decreases v, 0
  {
    if !v.Dict? {
      var leaf := new Property(v);
      return Simple(leaf);
    }
    var s := new StructProperty(true);
    var todo := v.items.Keys;
    while todo != {}
      invariant s.Valid() && fresh(s.Repr) && s.additionalProperties && todo <= v.items.Keys
      invariant forall k :: Entry(s.Fields(), k) == if k in v.items && k !in todo then Just(FromValues(v.items[k]))
                else Nothing
      decreases |todo|
    {
      var k :| k in todo;
      Add(s, k, v.items[k]);
      todo := todo - {k};
    }
    p := Nested(s);
    Complete(s.Fields(), v);
  }

  method Add(s: StructProperty, k: string, v: Value)
    requires s.Valid() && Entry(s.Fields(), k) == Nothing
    modifies s
    decreases v, 1
    ensures s.Valid() && fresh(s.Repr - old(s.Repr))
    ensures Entry(s.Fields(), k) == Just(FromValues(v))
    ensures forall l :: l != k ==> Entry(s.Fields(), l) == Entry(old(s.Fields()), l)
  {
    var field := ToProperty(v);
    s.Adopt(k, field);
  }

  lemma {:induction false} Complete(fields: map<string, Tree>, v: Value)
    requires v.Dict?
    requires forall k :: Entry(fields, k) == if k in v.items then Just(FromValues(v.items[k])) else Nothing
    ensures Struct(true, fields) == FromValues(v)
  {
    forall k
      ensures k in fields <==> k in v.items
      ensures k in v.items ==> fields[k] == FromValues(v.items[k])
    {
      assert Entry(fields, k) == if k in v.items then Just(FromValues(v.items[k])) else Nothing;
    }
    assert fields == FromValues(v).fields;
  }

  lemma {:induction false} Merged(before: map<string, Tree>, after: map<string, Tree>, val: Value, additional: bool)
    requires val.Dict? && forall k :: k in val.items ==>
               SettableField(before, k, val, additional) &&
               Entry(after, k) == Just(Merge(Field(before, k, val.items[k], additional), val.items[k]))
    requires forall k :: k !in val.items ==> Entry(after, k) == Entry(before, k)
    ensures Settable(Struct(additional, before), val)
    ensures Struct(additional, after) == Merge(Struct(additional, before), val)
  {
    var merged := Merge(Struct(additional, before), val).fields;
    forall k
      ensures k in after <==> k in merged
      ensures k in after ==> after[k] == merged[k]
    {
      assert Entry(after, k) == if k in val.items
             then Just(Merge(Field(before, k, val.items[k], additional), val.items[k]))
                                else Entry(before, k);
    }
    assert after == merged;
  }

  ghost function Entry(fields: map<string, Tree>, k: string): Option<Tree> {
    if k in fields then Just(fields[k]) else Nothing
  }

  ghost predicate SettableField(fields: map<string, Tree>, k: string, val: Value, additional: bool)
    requires val.Dict? && k in val.items
  {
    (k in fields || additional) && Settable(Field(fields, k, val.items[k], additional), val.items[k])
  }

  function NamesIn(val: Value): set<string> {
    if val.Dict? then val.items.Keys else {}
  }
}
