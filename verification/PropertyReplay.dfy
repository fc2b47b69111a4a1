/** Setting again, on a fresh copy of the declared properties, what was read out (pkg/kdo/struct_property.go:89-149). */
module PropertyReplay {
  import opened PropertyTrees

  /** Declared properties that nobody has set yet. */
  ghost predicate Unset(s: Tree) {
    match s
    case Leaf(value, _) => value == None
    case Struct(_, fields) => forall k :: k in fields ==> Unset(fields[k])
  }

  /** Properties that came into being by being set. */
  ghost predicate Dynamic(t: Tree) {
    match t
    case Leaf(_, dflt) => dflt == None
    case Struct(additional, fields) => additional && forall k :: k in fields ==> Dynamic(fields[k])
  }

  /** What the declared properties s can become by being set. */
  ghost predicate GrownFrom(s: Tree, t: Tree) {
    match (s, t)
    case (Leaf(_, d), Leaf(_, d')) => d == d'
    case (Struct(additional, fields), Struct(additional', fields')) =>
      && additional == additional'
      && (forall k :: k in fields ==> k in fields' && GrownFrom(fields[k], fields'[k]))
      && (forall k :: k in fields' && k !in fields ==> additional && Dynamic(fields'[k]))
    case _ => false
  }

  lemma {:induction false} NotSetYet(s: Tree)
    ensures GrownFrom(s, s)
  {
    if s.Struct? {
      forall k | k in s.fields
        ensures GrownFrom(s.fields[k], s.fields[k])
      {
        NotSetYet(s.fields[k]);
      }
    }
  }

  lemma {:induction false} DynamicStays(t: Tree, v: Value)
    requires Dynamic(t) && Settable(t, v)
    ensures Dynamic(Merge(t, v))
    decreases v
  {
    if t.Struct? {
      forall k | k in v.items
        ensures Dynamic(Merge(Field(t.fields, k, v.items[k], true), v.items[k]))
      {
        DynamicStays(Field(t.fields, k, v.items[k], true), v.items[k]);
      }
    }
  }

  /** Every successful assignment keeps within what the declaration allows. */
  lemma {:induction false} MergeKeepsDeclaration(s: Tree, t: Tree, v: Value)
    requires GrownFrom(s, t) && Settable(t, v)
    ensures GrownFrom(s, Merge(t, v))
    decreases v
  {
    if t.Struct? {
      forall k | k in v.items
        ensures var m := Merge(Field(t.fields, k, v.items[k], t.additional), v.items[k]);
                if k in s.fields then GrownFrom(s.fields[k], m) else Dynamic(m)
      {
        if k in s.fields {
          MergeKeepsDeclaration(s.fields[k], t.fields[k], v.items[k]);
        } else {
          DynamicStays(Field(t.fields, k, v.items[k], true), v.items[k]);
        }
      }
    }
  }

  /** What is left of a value that went through structs: falsy entries are gone at every level. */
  function Prune(v: Value): Value {
    if !v.Dict? then v else Dict(map k | k in v.items && Truth(Prune(v.items[k])) :: Prune(v.items[k]))
  }

  /** Without defaults the two read-outs agree. */
  lemma {:induction false} DynamicHasNoDefaults(t: Tree)
    requires Dynamic(t)
    ensures GetValueOrDefault(t) == GetValue(t)
  {
    if t.Struct? {
      forall k | k in t.fields
        ensures GetValueOrDefault(t.fields[k]) == GetValue(t.fields[k])
      {
        DynamicHasNoDefaults(t.fields[k]);
      }
      assert GetValueOrDefault(t).items == GetValue(t).items;
    }
  }

  /** A value set on an undeclared field reads back pruned. */
  lemma {:induction false} CreatedReadsPruned(v: Value)
    ensures Settable(Created(v, true), v)
    ensures GetValue(Merge(Created(v, true), v)) == Prune(v)
    decreases v
  {
    if v.Dict? {
      forall k | k in v.items
        ensures Settable(Created(v.items[k], true), v.items[k])
        ensures GetValue(Merge(Created(v.items[k], true), v.items[k])) == Prune(v.items[k])
      {
        CreatedReadsPruned(v.items[k]);
      }
      var m := Merge(Created(v, true), v);
      assert forall k :: k in v.items ==> m.fields[k] == Merge(Created(v.items[k], true), v.items[k]);
      assert GetValue(m).items == Prune(v).items;
    }
  }

  lemma {:induction false} CreatedHasNoDefaults(v: Value)
    ensures Settable(Created(v, true), v)
    ensures GetValueOrDefault(Merge(Created(v, true), v)) == GetValue(Merge(Created(v, true), v))
  {
    CreatedReadsPruned(v);
    DynamicStays(Created(v, true), v);
    DynamicHasNoDefaults(Merge(Created(v, true), v));
  }

  // ---- When is a replay faithful? ----

  /** Nothing falsy hides inside a dict that was stored whole in an undeclared field. */
  ghost predicate DynamicKept(t: Tree) {
    match t
    case Leaf(value, _) => Shown(Prune(value)) == Shown(value)
    case Struct(_, fields) => forall k :: k in fields ==> DynamicKept(fields[k])
  }

  ghost predicate ValueKept(s: Tree, t: Tree)
    requires GrownFrom(s, t)
  {
    match (s, t)
    case (Struct(_, fields), Struct(_, fields')) =>
      forall k :: k in fields' ==> if k in fields then ValueKept(fields[k], fields'[k]) else DynamicKept(fields'[k])
    case _ => true
  }

  /** In addition, no falsy value covers a default that is not falsy. */
  ghost predicate Lossless(s: Tree, t: Tree)
    requires GrownFrom(s, t)
  {
    match (s, t)
    case (Struct(_, fields), Struct(_, fields')) =>
      forall k :: k in fields' ==> if k in fields then Lossless(fields[k], fields'[k]) else DynamicKept(fields'[k])
    case (Leaf(_, _), Leaf(value, dflt)) => value == None || Truth(value) || !Truth(dflt)
  }

  function Entry(m: map<string, Value>, k: string): Value {
    if k in m then m[k] else None
  }

  /** Two read-outs are the same if and only if they show the same under every name. */
  lemma {:induction false} SameDicts(a: map<string, Value>, b: map<string, Value>)
    requires (forall k :: k in a ==> Truth(a[k])) && forall k :: k in b ==> Truth(b[k])
    ensures Shown(Dict(a)) == Shown(Dict(b)) <==> forall k :: Entry(a, k) == Entry(b, k)
  {
    if forall k :: Entry(a, k) == Entry(b, k) {
      forall k
        ensures k in a <==> k in b
        ensures k in a && k in b ==> a[k] == b[k]
      {
        assert Entry(a, k) == Entry(b, k);
      }
      assert a == b;
    }
  }

  lemma {:induction false} FalsyStaysFalsy(v: Value)
    requires !Truth(v)
    ensures !Truth(Prune(v))
  {
    if v.Dict? {
      assert Prune(v).items == map[];
    }
  }

  lemma {:induction false} DynamicKeptIff(t: Tree)
    requires Dynamic(t)
    ensures Shown(Prune(GetValue(t))) == Shown(GetValue(t)) <==> DynamicKept(t)
  {
    if t.Struct? {
      var a, b := Prune(GetValue(t)).items, GetValue(t).items;
      SameDicts(a, b);
      forall k | k in t.fields
        ensures Entry(a, k) == Entry(b, k) <==> DynamicKept(t.fields[k])
      {
        DynamicKeptIff(t.fields[k]);
        if !Truth(GetValue(t.fields[k])) {
          FalsyStaysFalsy(GetValue(t.fields[k]));
        }
      }
      if DynamicKept(t) {
        forall k
          ensures Entry(a, k) == Entry(b, k)
        {
          assert k in t.fields ==> DynamicKept(t.fields[k]);
        }
      } else {
        var k :| k in t.fields && !DynamicKept(t.fields[k]);
        assert Entry(a, k) != Entry(b, k);
      }
    }
  }

  lemma {:induction false} ReplaySettable(s: Tree, t: Tree)
    requires GrownFrom(s, t)
    ensures Settable(s, GetValue(t))
    decreases t
  {
    if s.Struct? {
      forall k | k in GetValue(t).items
        ensures (k in s.fields || s.additional)
                && Settable(Field(s.fields, k, GetValue(t).items[k], s.additional), GetValue(t).items[k])
      {
        if k in s.fields {
          ReplaySettable(s.fields[k], t.fields[k]);
        } else {
          CreatedReadsPruned(GetValue(t.fields[k]));
        }
      }
    }
  }

  /** The fresh copy after the read-out of t was set on it, as part of an enclosing struct: a read-out
      that is falsy never arrives. */
  function Replayed(s: Tree, t: Tree): Tree
    requires Settable(s, GetValue(t))
  {
    if Truth(GetValue(t)) || s.Struct? then Merge(s, GetValue(t)) else s
  }

  lemma {:induction false} ReplayedField(s: Tree, t: Tree, k: string)
    requires GrownFrom(s, t) && s.Struct? && Settable(s, GetValue(t)) && k in t.fields
    requires k in s.fields ==> Settable(s.fields[k], GetValue(t.fields[k]))
    ensures k in s.fields ==> Replayed(s, t).fields[k] == Replayed(s.fields[k], t.fields[k])
    ensures k !in s.fields && Truth(GetValue(t.fields[k])) ==>
              Replayed(s, t).fields[k] == Merge(Created(GetValue(t.fields[k]), true), GetValue(t.fields[k]))
    ensures k !in s.fields && !Truth(GetValue(t.fields[k])) ==> k !in Replayed(s, t).fields
  {
    if k in s.fields && !Truth(GetValue(t.fields[k])) && s.fields[k].Struct? {
      assert GetValue(t.fields[k]).items == map[];
      assert Merge(s.fields[k], Dict(map[])).fields == s.fields[k].fields;
    }
  }

  lemma {:induction false} ReplayedDynamicField(s: Tree, t: Tree, k: string)
    requires GrownFrom(s, t) && s.Struct? && Settable(s, GetValue(t)) && k in t.fields && k !in s.fields
    ensures Entry(GetValue(Replayed(s, t)).items, k) == Entry(GetValue(t).items, k) <==> DynamicKept(t.fields[k])
    ensures Entry(GetValueOrDefault(Replayed(s, t)).items, k) == Entry(GetValueOrDefault(t).items, k)
            <==> DynamicKept(t.fields[k])
  {
    var v := GetValue(t.fields[k]);
    ReplayedField(s, t, k);
    DynamicKeptIff(t.fields[k]);
    DynamicHasNoDefaults(t.fields[k]);
    if Truth(v) {
      CreatedReadsPruned(v);
      CreatedHasNoDefaults(v);
    } else {
      FalsyStaysFalsy(v);
    }
  }

  /** Replaying restores what was set if and only if nothing falsy hides in an undeclared dict. */
  lemma {:induction false} ReplayRestoresValue(s: Tree, t: Tree)
    requires Unset(s) && GrownFrom(s, t)
    ensures Settable(s, GetValue(t))
    ensures Shown(GetValue(Replayed(s, t))) == Shown(GetValue(t)) <==> ValueKept(s, t)
    decreases t
  {
    ReplaySettable(s, t);
    if s.Struct? {
      var a, b := GetValue(Replayed(s, t)).items, GetValue(t).items;
      SameDicts(a, b);
      forall k | k in t.fields
        ensures Entry(a, k) == Entry(b, k) <==>
                if k in s.fields then ValueKept(s.fields[k], t.fields[k]) else DynamicKept(t.fields[k])
      {
        if k in s.fields {
          ReplayRestoresValue(s.fields[k], t.fields[k]);
          ReplayedField(s, t, k);
        } else {
          ReplayedDynamicField(s, t, k);
        }
      }
      OnlyDeclaredOrSet(s, t);
      if !ValueKept(s, t) {
        var k :| k in t.fields &&
            !(if k in s.fields then ValueKept(s.fields[k], t.fields[k]) else DynamicKept(t.fields[k]));
        assert Entry(a, k) != Entry(b, k);
      }
    }
  }

  lemma {:induction false} OnlyDeclaredOrSet(s: Tree, t: Tree)
    requires GrownFrom(s, t) && s.Struct? && Settable(s, GetValue(t))
    ensures Replayed(s, t).fields.Keys <= t.fields.Keys
  {
  }

  /** Replaying restores the values with their defaults if and only if, in addition, no falsy value
      covers a default that is not falsy: that is exactly what pruning loses. */
  lemma {:induction false} ReplayRestoresDefaults(s: Tree, t: Tree)
    requires Unset(s) && GrownFrom(s, t)
    ensures Settable(s, GetValue(t))
    ensures Shown(GetValueOrDefault(Replayed(s, t))) == Shown(GetValueOrDefault(t)) <==> Lossless(s, t)
    decreases t, 1
  {
    ReplaySettable(s, t);
    if s.Struct? {
      var a, b := GetValueOrDefault(Replayed(s, t)).items, GetValueOrDefault(t).items;
      SameDicts(a, b);
      forall k | k in t.fields
        ensures Entry(a, k) == Entry(b, k) <==>
                if k in s.fields then Lossless(s.fields[k], t.fields[k]) else DynamicKept(t.fields[k])
      {
        ReplayRestoresDefault(s, t, k);
      }
      OnlyDeclaredOrSet(s, t);
      if !Lossless(s, t) {
        var k :| k in t.fields &&
            !(if k in s.fields then Lossless(s.fields[k], t.fields[k]) else DynamicKept(t.fields[k]));
        assert Entry(a, k) != Entry(b, k);
      }
    }
  }

  lemma {:induction false} ReplayRestoresDefault(s: Tree, t: Tree, k: string)
    requires Unset(s) && GrownFrom(s, t) && s.Struct? && k in t.fields && Settable(s, GetValue(t))
    ensures Entry(GetValueOrDefault(Replayed(s, t)).items, k) == Entry(GetValueOrDefault(t).items, k) <==>
            if k in s.fields then Lossless(s.fields[k], t.fields[k]) else DynamicKept(t.fields[k])
    decreases t, 0
  {
    if k in s.fields {
      ReplayRestoresDefaults(s.fields[k], t.fields[k]);
      ReplayedField(s, t, k);
    } else {
      ReplayedDynamicField(s, t, k);
    }
  }

  // ---- Two ends of the scale ----

  /** Not falsy, and no falsy entry at any level of a dict. */
  ghost predicate Solid(v: Value) {
    Truth(v) && (v.Dict? ==> forall k :: k in v.items ==> Solid(v.items[k]))
  }

  /** Whatever was set is solid. */
  ghost predicate SolidValues(t: Tree) {
    match t
    case Leaf(value, _) => value == None || Solid(value)
    case Struct(_, fields) => forall k :: k in fields ==> SolidValues(fields[k])
  }

  lemma {:induction false} SolidUnpruned(v: Value)
    requires Solid(v)
    ensures Prune(v) == v
  {
    if v.Dict? {
      forall k | k in v.items
        ensures Prune(v.items[k]) == v.items[k]
      {
        SolidUnpruned(v.items[k]);
      }
      assert Prune(v).items == v.items;
    }
  }

  lemma {:induction false} SolidKept(t: Tree)
    requires SolidValues(t)
    ensures DynamicKept(t)
  {
    match t
    case Leaf(value, _) =>
      if value != None {
        SolidUnpruned(value);
      }
    case Struct(_, fields) =>
      forall k | k in fields
        ensures DynamicKept(fields[k])
      {
        SolidKept(fields[k]);
      }
  }

  /** Solid values survive a replay, with and without defaults. */
  lemma {:induction false} SolidValuesSurvive(s: Tree, t: Tree)
    requires GrownFrom(s, t) && SolidValues(t)
    ensures ValueKept(s, t) && Lossless(s, t)
    decreases t
  {
    if t.Struct? {
      forall k | k in t.fields
        ensures if k in s.fields then ValueKept(s.fields[k], t.fields[k]) && Lossless(s.fields[k], t.fields[k])
                else DynamicKept(t.fields[k])
      {
        if k in s.fields {
          SolidValuesSurvive(s.fields[k], t.fields[k]);
        } else {
          SolidKept(t.fields[k]);
        }
      }
    }
  }

  /** Switching off what is on by default does not survive. */
  lemma {:induction false} SwitchedOffIsLost()
    ensures var s := Struct(false, map["enabled" := Leaf(None, Bool(true))]);
            var t := Struct(false, map["enabled" := Leaf(Bool(false), Bool(true))]);
            Unset(s) && GrownFrom(s, t) && !Lossless(s, t)
  {
    var t := Struct(false, map["enabled" := Leaf(Bool(false), Bool(true))]);
    assert "enabled" in t.fields;
  }

  // ---- Values files ----

  /** The values of a chart under the values that were set: dicts are laid over each other, and
      falsy entries are gone where there was a dict before. */
  function Layered(below: Value, above: Value): Value
    decreases above
  {
    if below.Dict? && above.Dict? then
      Dict(map k | k in below.items.Keys + above.items.Keys && Truth(LayeredAt(below, above, k)) ::
          LayeredAt(below, above, k))
    else if above == None then below
    else above
  }

  function LayeredAt(below: Value, above: Value, k: string): Value
    requires below.Dict? && above.Dict? && k in below.items.Keys + above.items.Keys
    decreases above, 0
  {
    if k !in above.items then Prune(below.items[k])
    else if k !in below.items then Prune(above.items[k])
    else Layered(below.items[k], above.items[k])
  }

  /** A values file reads back pruned, and nothing counts as set. */
  lemma {:induction false} ValuesReadBack(v: Value)
    ensures Unset(FromValues(v))
    ensures GetValueOrDefault(FromValues(v)) == Prune(v)
    ensures !Truth(GetValue(FromValues(v)))
  {
    if v.Dict? {
      var t := FromValues(v);
      forall k | k in v.items
        ensures Unset(t.fields[k])
        ensures GetValueOrDefault(t.fields[k]) == Prune(v.items[k])
        ensures !Truth(GetValue(t.fields[k]))
      {
        ValuesReadBack(v.items[k]);
      }
      assert GetValueOrDefault(t).items == Prune(v).items;
      assert GetValue(t).items == map[];
    }
  }

  /** What was set wins over the values file, entry by entry. */
  lemma {:induction false} SettingsWin(below: Value, above: Value)
    requires Settable(FromValues(below), above)
    ensures GetValueOrDefault(Merge(FromValues(below), above)) == Layered(below, above)
    decreases above
  {
    if below.Dict? {
      var t := FromValues(below);
      var m := Merge(t, above);
      forall k | k in below.items.Keys + above.items.Keys
        ensures GetValueOrDefault(m.fields[k]) == LayeredAt(below, above, k)
      {
        if k !in above.items {
          ValuesReadBack(below.items[k]);
        } else if k !in below.items {
          CreatedReadsPruned(above.items[k]);
          CreatedHasNoDefaults(above.items[k]);
        } else {
          SettingsWin(below.items[k], above.items[k]);
        }
      }
      assert GetValueOrDefault(m).items == Layered(below, above).items;
    }
  }

  /** At no level is a dict covered by something that is not a dict. */
  predicate NoDictCovered(below: Value, above: Value)
    decreases above
  {
    below.Dict? ==>
      above.Dict? && forall k :: k in below.items && k in above.items ==> NoDictCovered(below.items[k], above.items[k])
  }

  lemma {:induction false} SettableOverValues(below: Value, above: Value)
    ensures Settable(FromValues(below), above) <==> NoDictCovered(below, above)
    decreases above
  {
    if below.Dict? && above.Dict? {
      forall k | k in above.items
        ensures k !in below.items ==> Settable(Created(above.items[k], true), above.items[k])
        ensures k in below.items ==>
                  (Settable(FromValues(below.items[k]), above.items[k]) <==>
                      NoDictCovered(below.items[k], above.items[k]))
      {
        if k in below.items {
          SettableOverValues(below.items[k], above.items[k]);
        } else {
          CreatedReadsPruned(above.items[k]);
        }
      }
    }
  }
}
