/** The values of a chart: declared properties next to whatever else was assigned to it
    (pkg/kdo/chart.go:241-261, 593-635), and what is handed over to a dependency (pkg/kdo/dependency.go:87-94). */
module ChartValues {
  import opened Options
  import opened PropertyTrees
  import opened PropertyReplay
  import Properties

  /** A chart as a value: properties, sub-charts, which are properties as well, and raw values, which are kept but never
      read out. */
  datatype ChartTree = ChartTree(fields: map<string, Tree>, subCharts: map<string, ChartTree>, raws: map<string, Value>)

  /** No name is used twice. */
  ghost predicate WellNamed(c: ChartTree) {
    && c.fields.Keys !! c.subCharts.Keys && c.raws.Keys !! c.fields.Keys && c.raws.Keys !! c.subCharts.Keys
    && forall k :: k in c.subCharts ==> WellNamed(c.subCharts[k])
  }

  /** Any name can be set; only a property or a sub-chart can refuse its value. */
  predicate SettableChart(c: ChartTree, v: Value)
    decreases v
  {
    && v.Dict?
    && (forall k :: k in v.items && k in c.fields ==> Settable(c.fields[k], v.items[k]))
    && (forall k :: k in v.items && k in c.subCharts ==> SettableChart(c.subCharts[k], v.items[k]))
  }

  function SetChart(c: ChartTree, v: Value): ChartTree
    requires SettableChart(c, v)
    decreases v
  {
    ChartTree(
      map k | k in c.fields :: if k in v.items then Merge(c.fields[k], v.items[k]) else c.fields[k],
      map k | k in c.subCharts :: if k in v.items then SetChart(c.subCharts[k], v.items[k]) else c.subCharts[k],
      map k | k in c.raws.Keys + (v.items.Keys - c.fields.Keys - c.subCharts.Keys) ::
        if k in v.items then v.items[k] else c.raws[k])
  }

  /** What the properties and the sub-charts read out, unless it is falsy. */
  function ReadChart(c: ChartTree, orDefault: bool): (v: Value)
    ensures v.Dict?
    decreases c, 1
  {
    Dict(map k | k in c.fields.Keys + c.subCharts.Keys && Truth(ReadMember(c, k, orDefault)) ::
        ReadMember(c, k, orDefault))
  }

  function ReadMember(c: ChartTree, k: string, orDefault: bool): Value
    requires k in c.fields || k in c.subCharts
    decreases c, 0
  {
    if k in c.fields then (if orDefault then GetValueOrDefault(c.fields[k]) else GetValue(c.fields[k]))
    else ReadChart(c.subCharts[k], orDefault)
  }

  ghost predicate UnsetChart(c: ChartTree) {
    && (forall k :: k in c.fields ==> Unset(c.fields[k]))
    && forall k :: k in c.subCharts ==> UnsetChart(c.subCharts[k])
  }

  // ---- What is read back after values were set on properties nobody has set yet ----

  lemma {:induction false} UnsetReadsNothing(t: Tree)
    requires Unset(t)
    ensures !Truth(GetValue(t))
  {
    match t
    case Leaf(_, _) =>
    case Struct(_, fields) =>
      forall k | k in fields
        ensures !Truth(GetValue(fields[k]))
      {
        UnsetReadsNothing(fields[k]);
      }
      assert GetValue(t).items == map[];
  }

  /** No entry that goes into a struct is falsy, and what goes into an undeclared field has no falsy entry at
      any level. */
  ghost predicate Survives(t: Tree, v: Value)
    decreases v
  {
    t.Struct? && v.Dict? ==>
      forall k :: k in v.items ==>
        && Truth(v.items[k])
        && if k in t.fields then Survives(t.fields[k], v.items[k]) else Prune(v.items[k]) == v.items[k]
  }

  lemma {:induction false} ReadsBackIff(t: Tree, v: Value)
    requires Unset(t) && Settable(t, v)
    ensures Shown(GetValue(Merge(t, v))) == Shown(v) <==> Survives(t, v)
    decreases v
  {
    if t.Struct? {
      var a := GetValue(Merge(t, v)).items;
      if k :| k in v.items && !Truth(v.items[k]) {
        assert k !in a ==> a != v.items;
      } else {
        forall k
          ensures Entry(a, k) == Entry(v.items, k) <==> EntrySurvives(t, v, k)
        {
          EntryReadsBack(t, v, k);
        }
        SameDicts(a, v.items);
        assert forall k :: k in v.items ==>
            EntrySurvives(t, v, k) == if k in t.fields then Survives(t.fields[k], v.items[k])
                                      else Prune(v.items[k]) == v.items[k];
      }
    }
  }

  ghost predicate EntrySurvives(t: Tree, v: Value, k: string)
    requires t.Struct? && v.Dict?
  {
    k in v.items ==> if k in t.fields then Survives(t.fields[k], v.items[k]) else Prune(v.items[k]) == v.items[k]
  }

  lemma {:induction false} EntryReadsBack(t: Tree, v: Value, k: string)
    requires t.Struct? && Unset(t) && Settable(t, v) && (k in v.items ==> Truth(v.items[k]))
    ensures Entry(GetValue(Merge(t, v)).items, k) == Entry(v.items, k) <==> EntrySurvives(t, v, k)
    decreases v, 0
  {
    if k in v.items {
      if k in t.fields {
        ReadsBackIff(t.fields[k], v.items[k]);
      } else {
        CreatedReadsPruned(v.items[k]);
      }
    } else if k in t.fields {
      UnsetReadsNothing(t.fields[k]);
    }
  }

  // ---- What a chart reads back ----

  /** What is read out under one name. */
  ghost function Seen(c: ChartTree, k: string, orDefault: bool): Value {
    if k in c.fields || k in c.subCharts then Shown(ReadMember(c, k, orDefault)) else None
  }

  lemma {:induction false} ReadsWhatIsSeen(c: ChartTree, orDefault: bool)
    ensures var read := ReadChart(c, orDefault).items;
            (forall k :: k in read ==> Truth(read[k])) && forall k :: Entry(read, k) == Seen(c, k, orDefault)
  {
  }

  /** Two read-outs are the same if and only if they show the same under every name. */
  lemma {:induction false} SameItems(a: map<string, Value>, b: map<string, Value>)
    requires (forall k :: k in a ==> Truth(a[k])) && forall k :: k in b ==> Truth(b[k])
    ensures a == b <==> forall k :: Entry(a, k) == Entry(b, k)
  {
    SameDicts(a, b);
    assert a == b <==> Shown(Dict(a)) == Shown(Dict(b));
  }

  lemma {:induction false} UnsetChartReadsNothing(c: ChartTree)
    requires UnsetChart(c)
    ensures ReadChart(c, false) == Dict(map[])
  {
    forall k | k in c.fields || k in c.subCharts
      ensures !Truth(ReadMember(c, k, false))
    {
      if k in c.fields {
        UnsetReadsNothing(c.fields[k]);
      } else {
        UnsetChartReadsNothing(c.subCharts[k]);
      }
    }
    assert ReadChart(c, false).items == map[];
  }

  /** Each value is not falsy, and has the name of a property that it survives or of a sub-chart that keeps it. */
  ghost predicate KeptBy(c: ChartTree, v: Value)
    decreases v
  {
    v.Dict? && forall k :: k in v.items ==>
      && Truth(v.items[k])
      && if k in c.fields then Survives(c.fields[k], v.items[k])
         else k in c.subCharts && KeptBy(c.subCharts[k], v.items[k])
  }

  ghost predicate EntryKept(c: ChartTree, v: Value, k: string)
    requires v.Dict?
  {
    k in v.items ==>
      if k in c.fields then Survives(c.fields[k], v.items[k])
      else k in c.subCharts && KeptBy(c.subCharts[k], v.items[k])
  }

  /** A chart that is given v reads out v. */
  ghost predicate ReadsBack(c: ChartTree, v: Value)
    requires SettableChart(c, v)
  {
    ReadChart(SetChart(c, v), false) == v
  }

  /** Handed over to a chart whose properties nobody has set, values read back as they are if and only if the chart
      keeps each of them. */
  lemma {:induction false} HandOverReadsBack(c: ChartTree, v: Value)
    requires WellNamed(c) && UnsetChart(c) && SettableChart(c, v)
    ensures ReadsBack(c, v) <==> KeptBy(c, v)
    decreases v, 1
  {
    var read := ReadChart(SetChart(c, v), false).items;
    ReadsWhatIsSeen(SetChart(c, v), false);
    if NoneFalsy(v) {
      forall k
        ensures Entry(read, k) == Entry(v.items, k) <==> EntryKept(c, v, k)
      {
        EntryReadsOut(c, v, k);
      }
      SameItems(read, v.items);
      KeptByEntry(c, v);
    } else {
      var k :| k in v.items && !Truth(v.items[k]);
      assert k !in read ==> read != v.items;
    }
  }

  predicate NoneFalsy(v: Value) {
    v.Dict? && forall k :: k in v.items ==> Truth(v.items[k])
  }

  lemma {:induction false} KeptByEntry(c: ChartTree, v: Value)
    requires NoneFalsy(v)
    ensures KeptBy(c, v) <==> forall k :: EntryKept(c, v, k)
  {
    assert forall k :: k in v.items ==>
        EntryKept(c, v, k) == if k in c.fields then Survives(c.fields[k], v.items[k])
                              else k in c.subCharts && KeptBy(c.subCharts[k], v.items[k]);
  }

  lemma {:induction false} EntryReadsOut(c: ChartTree, v: Value, k: string)
    requires WellNamed(c) && UnsetChart(c) && SettableChart(c, v) && (k in v.items ==> Truth(v.items[k]))
    ensures Seen(SetChart(c, v), k, false) == Entry(v.items, k) <==> EntryKept(c, v, k)
    decreases v, 0
  {
    if k in c.fields {
      if k in v.items {
        ReadsBackIff(c.fields[k], v.items[k]);
      } else {
        UnsetReadsNothing(c.fields[k]);
      }
    } else if k in c.subCharts {
      if k in v.items {
        HandOverReadsBack(c.subCharts[k], v.items[k]);
        ReadsWhatIsSeen(SetChart(c.subCharts[k], v.items[k]), false);
      } else {
        UnsetChartReadsNothing(c.subCharts[k]);
      }
    }
  }

  /** A value under a name that is neither a property nor a sub-chart is taken, and never seen again. */
  lemma {:induction false} UndeclaredIsLost(c: ChartTree, name: string, x: Value)
    requires name !in c.fields && name !in c.subCharts
    ensures SettableChart(c, Dict(map[name := x]))
    ensures SetChart(c, Dict(map[name := x])) == c.(raws := c.raws[name := x])
    ensures forall orDefault :: ReadChart(SetChart(c, Dict(map[name := x])), orDefault) == ReadChart(c, orDefault)
  {
    var v := Dict(map[name := x]);
    var d := SetChart(c, v);
    assert d.fields == c.fields && d.subCharts == c.subCharts && d.raws == c.raws[name := x];
    RawsAreNotRead(c, c.raws[name := x]);
  }

  lemma {:induction false} RawsAreNotRead(c: ChartTree, raws: map<string, Value>)
    ensures forall orDefault :: ReadChart(c.(raws := raws), orDefault) == ReadChart(c, orDefault)
  {
    forall orDefault
      ensures ReadChart(c.(raws := raws), orDefault).items == ReadChart(c, orDefault).items
    {
      assert forall k :: k in c.fields || k in c.subCharts ==>
          ReadMember(c.(raws := raws), k, orDefault) == ReadMember(c, k, orDefault);
    }
  }

  // ---- Copies ----

  /** d has become of c by being set. */
  ghost predicate GrownChart(c: ChartTree, d: ChartTree) {
    && c.fields.Keys == d.fields.Keys && c.subCharts.Keys == d.subCharts.Keys
    && (forall k :: k in c.fields ==> GrownFrom(c.fields[k], d.fields[k]))
    && forall k :: k in c.subCharts ==> GrownChart(c.subCharts[k], d.subCharts[k])
  }

  /** No property of d, or of a sub-chart of d, loses anything that can be read, without or with defaults. */
  ghost predicate NothingLost(c: ChartTree, d: ChartTree, orDefault: bool)
    requires GrownChart(c, d)
  {
    && (forall k :: k in c.fields ==> FieldKept(c, d, k, orDefault))
    && forall k :: k in c.subCharts ==> NothingLost(c.subCharts[k], d.subCharts[k], orDefault)
  }

  ghost predicate FieldKept(c: ChartTree, d: ChartTree, k: string, orDefault: bool)
    requires k in c.fields && k in d.fields && GrownFrom(c.fields[k], d.fields[k])
  {
    if orDefault then Lossless(c.fields[k], d.fields[k]) else ValueKept(c.fields[k], d.fields[k])
  }

  /** A fresh copy of a chart that is given what the chart reads out reads the same if and only if nothing is lost. */
  lemma {:induction false} CopyReadsTheSame(c: ChartTree, d: ChartTree, orDefault: bool)
    requires WellNamed(c) && WellNamed(d) && UnsetChart(c) && GrownChart(c, d)
    ensures var v := ReadChart(d, false);
            && SettableChart(c, v)
            && (ReadChart(SetChart(c, v), orDefault) == ReadChart(d, orDefault) <==> NothingLost(c, d, orDefault))
    decreases d
  {
    forall k | k in c.subCharts
      ensures SettableChart(c.subCharts[k], ReadChart(d.subCharts[k], false))
      ensures SubChartRestored(c, d, k, orDefault) <==> NothingLost(c.subCharts[k], d.subCharts[k], orDefault)
    {
      CopyReadsTheSame(c.subCharts[k], d.subCharts[k], orDefault);
    }
    CopySettable(c, d);
    FieldsReadTheSame(c, d, orDefault);
    ReadsApart(c, d, orDefault);
  }

  ghost predicate SubChartRestored(c: ChartTree, d: ChartTree, k: string, orDefault: bool)
    requires k in c.subCharts && k in d.subCharts && SettableChart(c.subCharts[k], ReadChart(d.subCharts[k], false))
  {
    ReadChart(SetChart(c.subCharts[k], ReadChart(d.subCharts[k], false)), orDefault) ==
        ReadChart(d.subCharts[k], orDefault)
  }

  /** What the copy is given under one name. */
  lemma {:induction false} GivenUnder(d: ChartTree, k: string)
    requires WellNamed(d)
    ensures var v := ReadChart(d, false).items;
            && (k in v ==> k in d.fields || k in d.subCharts)
            && (k in d.fields ==> (k in v <==> Truth(GetValue(d.fields[k]))) &&
                                  (k in v ==> v[k] == GetValue(d.fields[k])))
            && (k in d.subCharts ==> (k in v <==> Truth(ReadChart(d.subCharts[k], false))) &&
                                     (k in v ==> v[k] == ReadChart(d.subCharts[k], false)))
  {
  }

  lemma {:induction false} CopySettable(c: ChartTree, d: ChartTree)
    requires WellNamed(c) && WellNamed(d) && GrownChart(c, d)
    requires forall k :: k in c.subCharts ==> SettableChart(c.subCharts[k], ReadChart(d.subCharts[k], false))
    ensures SettableChart(c, ReadChart(d, false))
  {
    forall k
      ensures k in c.fields && k in ReadChart(d, false).items ==> Settable(c.fields[k], ReadChart(d, false).items[k])
      ensures k in c.subCharts && k in ReadChart(d, false).items ==>
              SettableChart(c.subCharts[k], ReadChart(d, false).items[k])
    {
      GivenUnder(d, k);
      if k in c.fields {
        ReplaySettable(c.fields[k], d.fields[k]);
      }
    }
  }

  /** Under the name of a property, the copy and the chart show the same. */
  ghost predicate FieldRestored(c: ChartTree, d: ChartTree, k: string, orDefault: bool)
    requires SettableChart(c, ReadChart(d, false))
  {
    Seen(SetChart(c, ReadChart(d, false)), k, orDefault) == Seen(d, k, orDefault)
  }

  lemma {:induction false} FieldsReadTheSame(c: ChartTree, d: ChartTree, orDefault: bool)
    requires WellNamed(c) && WellNamed(d) && UnsetChart(c) && GrownChart(c, d) && SettableChart(c, ReadChart(d, false))
    ensures (forall k :: k in c.fields ==> FieldRestored(c, d, k, orDefault)) <==>
            forall k :: k in c.fields ==> FieldKept(c, d, k, orDefault)
  {
    var s, t := Struct(false, c.fields), Struct(false, d.fields);
    assert Unset(s) && GrownFrom(s, t);
    ReplaySettable(s, t);
    CopyIsReplay(c, d);
    if orDefault {
      ReplayRestoresDefaults(s, t);
    } else {
      ReplayRestoresValue(s, t);
    }
    StructsReadTheSame(Replayed(s, t), t, orDefault);
    KeptByField(c, d, orDefault);
    assert forall k :: k in c.fields ==>
        (FieldRestored(c, d, k, orDefault) <==>
         SeenIn(Replayed(s, t).fields[k], orDefault) == SeenIn(d.fields[k], orDefault));
  }

  ghost function SeenIn(t: Tree, orDefault: bool): Value {
    Shown(if orDefault then GetValueOrDefault(t) else GetValue(t))
  }

  lemma {:induction false} StructsReadTheSame(s: Tree, t: Tree, orDefault: bool)
    requires s.Struct? && t.Struct? && s.fields.Keys == t.fields.Keys
    ensures SeenIn(s, orDefault) == SeenIn(t, orDefault) <==>
            forall k :: k in s.fields ==> SeenIn(s.fields[k], orDefault) == SeenIn(t.fields[k], orDefault)
  {
    var a := (if orDefault then GetValueOrDefault(s) else GetValue(s)).items;
    var b := (if orDefault then GetValueOrDefault(t) else GetValue(t)).items;
    assert forall k :: k in s.fields ==> Entry(a, k) == SeenIn(s.fields[k], orDefault);
    assert forall k :: k in s.fields ==> Entry(b, k) == SeenIn(t.fields[k], orDefault);
    SameDicts(a, b);
  }

  lemma {:induction false} CopyIsReplay(c: ChartTree, d: ChartTree)
    requires WellNamed(c) && WellNamed(d) && GrownChart(c, d)
    requires SettableChart(c, ReadChart(d, false)) &&
             Settable(Struct(false, c.fields), GetValue(Struct(false, d.fields)))
    ensures Replayed(Struct(false, c.fields), Struct(false, d.fields)) ==
            Struct(false, SetChart(c, ReadChart(d, false)).fields)
  {
    var e, r := SetChart(c, ReadChart(d, false)), Replayed(Struct(false, c.fields), Struct(false, d.fields));
    forall k
      ensures k in e.fields <==> k in r.fields
      ensures k in e.fields ==> e.fields[k] == r.fields[k]
    {
      GivenUnder(d, k);
    }
    assert e.fields == r.fields;
  }

  lemma {:induction false} KeptByField(c: ChartTree, d: ChartTree, orDefault: bool)
    requires GrownChart(c, d) && GrownFrom(Struct(false, c.fields), Struct(false, d.fields))
    ensures var s, t := Struct(false, c.fields), Struct(false, d.fields);
            (if orDefault then Lossless(s, t) else ValueKept(s, t)) <==>
                forall k :: k in c.fields ==> FieldKept(c, d, k, orDefault)
  {
  }

  /** The copy of a chart reads the same as the chart if and only if its properties and its sub-charts do. */
  lemma {:induction false} ReadsApart(c: ChartTree, d: ChartTree, orDefault: bool)
    requires WellNamed(c) && WellNamed(d) && GrownChart(c, d) && SettableChart(c, ReadChart(d, false))
    requires forall k :: k in c.subCharts ==> SettableChart(c.subCharts[k], ReadChart(d.subCharts[k], false))
    ensures ReadChart(SetChart(c, ReadChart(d, false)), orDefault) == ReadChart(d, orDefault) <==>
            && (forall k :: k in c.fields ==> FieldRestored(c, d, k, orDefault))
            && forall k :: k in c.subCharts ==> SubChartRestored(c, d, k, orDefault)
  {
    RestoredUnderEachName(c, d, orDefault);
    forall k
      ensures k in c.subCharts ==> (FieldRestored(c, d, k, orDefault) <==> SubChartRestored(c, d, k, orDefault))
      ensures k !in c.fields && k !in c.subCharts ==> FieldRestored(c, d, k, orDefault)
    {
      SeenOfSubChart(c, d, k, orDefault);
    }
  }

  lemma {:induction false} RestoredUnderEachName(c: ChartTree, d: ChartTree, orDefault: bool)
    requires SettableChart(c, ReadChart(d, false))
    ensures ReadChart(SetChart(c, ReadChart(d, false)), orDefault) == ReadChart(d, orDefault) <==>
            forall k :: FieldRestored(c, d, k, orDefault)
  {
    var e := SetChart(c, ReadChart(d, false));
    var a, b := ReadChart(e, orDefault).items, ReadChart(d, orDefault).items;
    ReadsWhatIsSeen(e, orDefault);
    ReadsWhatIsSeen(d, orDefault);
    SameItems(a, b);
    forall k
      ensures FieldRestored(c, d, k, orDefault) <==> Entry(a, k) == Entry(b, k)
    {
    }
  }

  lemma {:induction false} SeenOfSubChart(c: ChartTree, d: ChartTree, k: string, orDefault: bool)
    requires WellNamed(c) && WellNamed(d) && GrownChart(c, d) && SettableChart(c, ReadChart(d, false))
    requires k in c.subCharts ==> SettableChart(c.subCharts[k], ReadChart(d.subCharts[k], false))
    ensures k in c.subCharts ==> (FieldRestored(c, d, k, orDefault) <==> SubChartRestored(c, d, k, orDefault))
    ensures k !in c.fields && k !in c.subCharts ==> FieldRestored(c, d, k, orDefault)
  {
    if k in c.subCharts {
      SubChartCopied(c, d, k);
      var e := SetChart(c, ReadChart(d, false));
      ShownDicts(ReadChart(e.subCharts[k], orDefault), ReadChart(d.subCharts[k], orDefault));
    }
  }

  lemma ShownDicts(v: Value, w: Value)
    requires v.Dict? && w.Dict?
    ensures Shown(v) == Shown(w) <==> v == w
  {
  }

  lemma {:induction false} SubChartCopied(c: ChartTree, d: ChartTree, k: string)
    requires WellNamed(c) && WellNamed(d) && GrownChart(c, d) && k in c.subCharts
    requires SettableChart(c, ReadChart(d, false)) && SettableChart(c.subCharts[k], ReadChart(d.subCharts[k], false))
    ensures SetChart(c, ReadChart(d, false)).subCharts[k] == SetChart(c.subCharts[k], ReadChart(d.subCharts[k], false))
  {
    GivenUnder(d, k);
    if k !in ReadChart(d, false).items {
      assert ReadChart(d.subCharts[k], false) == Dict(map[]);
      NothingSet(c.subCharts[k]);
    }
  }

  lemma {:induction false} NothingSet(c: ChartTree)
    ensures SettableChart(c, Dict(map[])) && SetChart(c, Dict(map[])) == c
  {
    var d := SetChart(c, Dict(map[]));
    assert d.fields == c.fields && d.subCharts == c.subCharts && d.raws == c.raws;
  }

  // ---- The chart as an object ----

  /** A chart without sub-charts. The source keeps properties and raw values in one map; here they are apart, under
      different names. */
  class Chart {
    const properties: Properties.StructProperty
    var raws: map<string, Value>

    ghost predicate Valid()
      reads this, properties, properties.Repr
    {
      && properties.Valid() && !properties.additionalProperties
      && this !in properties.Repr
      && raws.Keys !! properties.properties.Keys
    }

    ghost function Model(): (c: ChartTree)
      requires Valid()
      reads this, properties, properties.Repr
      ensures WellNamed(c)
    {
      ChartTree(properties.Fields(), map[], raws)
    }

    constructor (properties: Properties.StructProperty)
      requires properties.Valid() && !properties.additionalProperties
      ensures Valid() && this.properties == properties && Model() == ChartTree(properties.Fields(), map[], map[])
    {
      this.properties, raws := properties, map[];
    }

    /** Sets the property of this name, or else replaces whatever has this name. */
    method SetField(name: string, val: Value) returns (ok: bool)
      requires Valid()
      modifies this, properties.Repr
      ensures Valid() && fresh(properties.Repr - old(properties.Repr))
      ensures FieldSet(old(Model()), name, val, ok, Model())
    {
      ghost var fields := properties.Fields();
      if name in properties.properties {
        ok := properties.SetProperty(name, val);
        forall k | k in fields && (ok || k != name)
          ensures Properties.Entry(properties.Fields(), k) ==
                  Just(if k == name then Merge(fields[k], val) else fields[k])
        {
        }
      } else {
        raws := raws[name := val];
        ok := true;
      }
    }

    /** Sets all entries of a dict, in any order; when one is refused the ones before it stay. */
    method SetValue(val: Value) returns (ok: bool)
      requires Valid()
      modifies this, properties.Repr
      ensures Valid() && fresh(properties.Repr - old(properties.Repr))
      ensures ok <==> SettableChart(old(Model()), val)
      ensures ok ==> Model() == SetChart(old(Model()), val)
    {
      if !val.Dict? {
        return false;
      }
      ghost var c := Model();
      var todo := val.items.Keys;
      ok := true;
      while todo != {} && ok
        invariant Valid() && fresh(properties.Repr - old(properties.Repr)) && todo <= val.items.Keys
        invariant if ok then SetSoFar(c, val, todo, Model()) else !SettableChart(c, val)
        decreases |todo|
      {
        var k :| k in todo;
        ghost var m := Model();
        ok := SetField(k, val.items[k]);
        SetNext(c, val, todo, k, m, ok, Model());
        todo := todo - {k};
      }
      if ok {
        SetInFull(c, val, Model());
      }
    }

    method ReadOut(orDefault: bool) returns (v: Value)
      requires Valid()
      ensures v == ReadChart(Model(), orDefault)
    {
      v := properties.ReadOut(orDefault);
      ReadsProperties(Model(), orDefault);
    }

    /** Takes over the settings of the dependency that this chart turned out to be. */
    method Resolve(settings: Properties.StructProperty) returns (ok: bool, ghost given: Value)
      requires Valid() && settings.Valid() && this !in settings.Repr && settings.Repr !! properties.Repr
      modifies this, properties.Repr
      ensures Valid() && fresh(properties.Repr - old(properties.Repr))
      ensures given == GetValue(old(settings.Model()))
      ensures ok <==> SettableChart(old(Model()), given)
      ensures ok ==> Model() == SetChart(old(Model()), given)
    {
      var v := settings.ReadOut(false);
      given := v;
      ok := SetValue(v);
    }
  }

  lemma {:induction false} ReadsProperties(c: ChartTree, orDefault: bool)
    requires c.subCharts == map[]
    ensures ReadChart(c, orDefault) == Reading(Struct(false, c.fields), orDefault)
  {
    assert ReadChart(c, orDefault).items == Reading(Struct(false, c.fields), orDefault).items;
  }

  /** One name was set, or refused its value. */
  ghost predicate FieldSet(c: ChartTree, name: string, val: Value, ok: bool, d: ChartTree) {
    && (ok <==> (name in c.fields ==> Settable(c.fields[name], val)) &&
                (name in c.subCharts ==> SettableChart(c.subCharts[name], val)))
    && c.fields.Keys == d.fields.Keys && c.subCharts.Keys == d.subCharts.Keys
    && (forall k :: k in c.fields && k != name ==> d.fields[k] == c.fields[k])
    && (forall k :: k in c.subCharts && k != name ==> d.subCharts[k] == c.subCharts[k])
    && (ok && name in c.fields ==> d.fields[name] == Merge(c.fields[name], val))
    && (ok && name in c.subCharts ==> d.subCharts[name] == SetChart(c.subCharts[name], val))
    && d.raws == if name in c.fields || name in c.subCharts then c.raws else c.raws[name := val]
  }

  /** All entries of v but those still to do are set. */
  ghost predicate SetSoFar(c: ChartTree, v: Value, todo: set<string>, d: ChartTree)
    requires v.Dict?
  {
    MembersSetSoFar(c, v, todo, d) && RawsSetSoFar(c, v, todo, d.raws)
  }

  ghost predicate MembersSetSoFar(c: ChartTree, v: Value, todo: set<string>, d: ChartTree)
    requires v.Dict?
  {
    && c.fields.Keys == d.fields.Keys && c.subCharts.Keys == d.subCharts.Keys
    && (forall k :: k in c.fields ==>
          if k in v.items && k !in todo then
            Settable(c.fields[k], v.items[k]) && d.fields[k] == Merge(c.fields[k], v.items[k])
          else d.fields[k] == c.fields[k])
    && (forall k :: k in c.subCharts ==>
          if k in v.items && k !in todo then
            SettableChart(c.subCharts[k], v.items[k]) && d.subCharts[k] == SetChart(c.subCharts[k], v.items[k])
          else d.subCharts[k] == c.subCharts[k])
  }

  ghost predicate RawsSetSoFar(c: ChartTree, v: Value, todo: set<string>, raws: map<string, Value>)
    requires v.Dict?
  {
    && (forall k :: k in raws <==> k in c.raws || (k in v.items && k !in todo && k !in c.fields && k !in c.subCharts))
    && (forall k :: k in raws ==>
          raws[k] == if k in v.items && k !in todo && k !in c.fields && k !in c.subCharts then v.items[k]
              else c.raws[k])
  }

  lemma {:induction false} SetNext(c: ChartTree, v: Value, todo: set<string>, k: string, m: ChartTree, ok: bool,
      d: ChartTree)
    requires v.Dict? && k in todo && k in v.items && SetSoFar(c, v, todo, m) && FieldSet(m, k, v.items[k], ok, d)
    ensures if ok then SetSoFar(c, v, todo - {k}, d) else !SettableChart(c, v)
  {
    RawSetNext(c, v, todo, k, m.raws, d.raws);
    MemberSetNext(c, v, todo, k, m, ok, d);
  }

  lemma {:induction false} MemberSetNext(c: ChartTree, v: Value, todo: set<string>, k: string, m: ChartTree, ok: bool,
      d: ChartTree)
    requires v.Dict? && k in todo && k in v.items && MembersSetSoFar(c, v, todo, m) && FieldSet(m, k, v.items[k], ok, d)
    ensures if ok then MembersSetSoFar(c, v, todo - {k}, d) else !SettableChart(c, v)
  {
  }

  lemma {:induction false} RawSetNext(c: ChartTree, v: Value, todo: set<string>, k: string, before: map<string, Value>,
      after: map<string, Value>)
    requires v.Dict? && k in todo && k in v.items && RawsSetSoFar(c, v, todo, before)
    requires after == if k in c.fields || k in c.subCharts then before else before[k := v.items[k]]
    ensures RawsSetSoFar(c, v, todo - {k}, after)
  {
  }

  lemma {:induction false} SetInFull(c: ChartTree, v: Value, d: ChartTree)
    requires WellNamed(c) && v.Dict? && SetSoFar(c, v, {}, d)
    ensures SettableChart(c, v) && d == SetChart(c, v)
  {
    var e := SetChart(c, v);
    assert d.fields == e.fields;
    assert d.subCharts == e.subCharts;
    assert d.raws == e.raws;
  }
}
