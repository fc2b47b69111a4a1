/** The config maps through which charts find each other, as calls to the API server see them
    (pkg/k8s/k8s.go:441-501, pkg/k8s/k8s_in_memory.go:157-215). */
module Store {
  import opened Faults
  import opened References

  /** Abstract state: each recorded chart with the charts registered as its users. */
  type State = map<Genus, set<Genus>>

  ghost predicate AllWellFormed(m: map<Genus, Annotations>) {
    forall g :: g in m ==> WellFormed(m[g])
  }

  ghost function ViewOf(m: map<Genus, Annotations>): (s: State)
    ensures s.Keys == m.Keys
  {
    map g | g in m :: Users(m[g])
  }

  lemma {:induction false} RemoveFromView(m: map<Genus, Annotations>, g: Genus, user: Genus)
    requires AllWellFormed(m) && g in m
    ensures AllWellFormed(m[g := m[g] - {UsedByAnnotation(Reference(user))}])
    ensures ViewOf(m[g := m[g] - {UsedByAnnotation(Reference(user))}]) == ViewOf(m)[g := ViewOf(m)[g] - {user}]
  {
    RemovingAUser(m[g], user);
  }

  lemma {:induction false} AddToView(m: map<Genus, Annotations>, g: Genus, user: Genus)
    requires AllWellFormed(m) && g in m
    ensures AllWellFormed(m[g := m[g][UsedByAnnotation(Reference(user)) := "True"]])
    ensures ViewOf(m[g := m[g][UsedByAnnotation(Reference(user)) := "True"]]) == ViewOf(m)[g := ViewOf(m)[g] + {user}]
  {
    AddingAUser(m[g], user);
  }

  /** One call was made, and `r` is how the script says it ended. */
  ghost predicate Consumes(before: seq<Outcome>, after: seq<Outcome>, r: Reply)
    ensures Consumes(before, after, r) && AllDone(before) ==> AllDone(after) && r != Err
  {
    && (before == [] ==> r == Crash && after == [])
    && (before != [] ==> after == before[1..] && r == if before[0] == Done then Ok else Err)
  }

  /** What a call is for. */
  datatype Task =
    | Count(genus: Genus) | Find(genus: Genus) | Check(user: Genus, genus: Genus) | Load(genus: Genus)
    | HandOver(user: Genus, genus: Genus) | Register(user: Genus, genus: Genus)
    | ApplyObjects(genus: Genus) | WriteRecord(genus: Genus) | WriteSecret(genus: Genus)
    | DropRecord(genus: Genus) | DropSecret(genus: Genus) | DropObjects(genus: Genus)
    | Unregister(user: Genus, genus: Genus)

  /** What a chart leaves in the cluster besides its record: its own objects, and the secret next to the record. */
  datatype Thing = Objects(genus: Genus) | Secret(genus: Genus)

  /** The tasks whose call has ended well in this run, the things that are in the cluster, and which charts were
      recorded when the run began. `blank` are charts that were loaded and not given their properties yet, `raw` those
      whose objects were applied all the same. */
  datatype Ledger =
    Ledger(done: set<Task>, things: set<Thing>, found: set<Genus>, blank: set<Genus>, raw: set<Genus>)

  /** A chart that was just loaded is blank until it is given its properties. */
  function StillBlank(blank: set<Genus>, task: Task): set<Genus> {
    match task
    case Load(g) => blank + {g}
    case HandOver(_, g) => blank - {g}
    case _ => blank
  }

  function Effect(things: set<Thing>, task: Task): set<Thing> {
    match task
    case ApplyObjects(g) => things + {Objects(g)}
    case WriteSecret(g) => things + {Secret(g)}
    case DropObjects(g) => things - {Objects(g)}
    case DropSecret(g) => things - {Secret(g)}
    case _ => things
  }

  /** After a call for this task, the first of the script. */
  function Entered(l: Ledger, task: Task, script: seq<Outcome>): Ledger {
    if script == [] || script[0] == Failed then l
    else l.(
           done := if script[0] == Done then l.done + {task} else l.done,
           things := Effect(l.things, task),
           blank := if script[0] == Done then StillBlank(l.blank, task) else l.blank,
           raw := if task.ApplyObjects? && task.genus in l.blank then l.raw + {task.genus} else l.raw)
  }

  class Cluster {
    var configMaps: map<Genus, Annotations>
    /** How the remaining calls of this run end; the process dies at the call after the last. */
    var script: seq<Outcome>

    /** The users of each recorded chart. */
    ghost var records: State
    /** How the calls made so far have ended. */
    ghost var past: seq<Outcome>
    ghost var faults: nat
    ghost var ledger: Ledger

    ghost predicate Valid()
      reads this
    {
      AllWellFormed(configMaps) && records == ViewOf(configMaps) && faults == Faulty(past)
    }

    constructor ()
      ensures Valid() && records == map[] && script == [] && past == [] && faults == 0
      ensures ledger == Ledger({}, {}, {}, {}, {})
    {
      configMaps, script, records, past, faults, ledger := map[], [], map[], [], 0, Ledger({}, {}, {}, {}, {});
    }

    /** One call to the API server, to the chart repository or to a chart body. */
    method Call(ghost task: Task) returns (r: Reply, effective: bool)
      requires Valid()
      modifies this`script, this`past, this`faults, this`ledger
      ensures ledger == Entered(old(ledger), task, old(script))
      ensures old(script) == [] ==> r == Crash && !effective && script == []
      ensures old(script) != [] ==> script == old(script)[1..]
      ensures old(script) != [] ==> r == (if old(script)[0] == Done then Ok else Err)
      ensures old(script) != [] ==> (effective <==> old(script)[0] != Failed)
      ensures Valid() && faults == old(faults) + if old(script) == [] || old(script)[0] == Done then 0 else 1
      ensures past == old(past) + if old(script) == [] then [] else [old(script)[0]]
    {
      if script == [] {
        return Crash, false;
      }
      r, effective := if script[0] == Done then Ok else Err, script[0] != Failed;
      assert (past + [script[0]])[..|past|] == past;
      faults := faults + if script[0] == Done then 0 else 1;
      ledger := Entered(ledger, task, script);
      past, script := past + [script[0]], script[1..];
    }

    /** A call that leaves the config maps alone: reading a chart, running its body, its secret. */
    method Act(task: Task) returns (r: Reply)
      requires Valid()
      modifies this`script, this`past, this`faults, this`ledger
      ensures Valid()
      ensures ledger == Entered(old(ledger), task, old(script))
      ensures Consumes(old(script), script, r) && past + script == old(past + script)
      ensures old(faults) <= faults && (faults == old(faults) ==> r != Err)
    {
      var effective;
      r, effective := Call(task);
    }

    /** Looks for the recorded chart of a genus (pkg/kdo/repo.go:253-288). */
    method List(g: Genus) returns (r: Reply, found: bool)
      requires Valid()
      modifies this`script, this`past, this`faults, this`ledger
      ensures Valid()
      ensures Consumes(old(script), script, r) && past + script == old(past + script)
      ensures old(faults) <= faults && (faults == old(faults) ==> r != Err)
      ensures found <==> g in records
      ensures ledger == Entered(old(ledger), Find(g), old(script))
    {
      var effective;
      r, effective := Call(Find(g));
      found := g in configMaps;
    }

    /** Reads the config map and counts its references; an absent map has none (pkg/kdo/chart.go:542-549). */
    method CountReferences(g: Genus) returns (r: Reply, references: nat)
      requires Valid()
      modifies this`script, this`past, this`faults, this`ledger
      ensures Valid()
      ensures Consumes(old(script), script, r) && past + script == old(past + script)
      ensures old(faults) <= faults && (faults == old(faults) ==> r != Err)
      ensures references == if g in records then |records[g]| else 0
      ensures ledger == Entered(old(ledger), Count(g), old(script))
    {
      var effective;
      r, effective := Call(Count(g));
      references := 0;
      if g in configMaps {
        references := RemainingReferences(configMaps[g]);
      }
    }

    /** Replaces everything but the metadata, so a record keeps its users (pkg/k8s/k8s.go:462-487). */
    method CreateOrUpdate(g: Genus) returns (r: Reply, ghost effective: bool)
      requires Valid()
      modifies this
      ensures Valid()
      ensures Consumes(old(script), script, r) && past + script == old(past + script)
      ensures old(faults) <= faults && (faults == old(faults) ==> r != Err)
      ensures effective <==> old(script) != [] && old(script)[0] != Failed
      ensures records == if effective && g !in old(records) then old(records)[g := {}] else old(records)
      ensures ledger == Entered(old(ledger), WriteRecord(g), old(script))
    {
      var e;
      r, e := Call(WriteRecord(g));
      effective := e;
      if e && g !in configMaps {
        Insert(g);
      }
    }

    method Insert(g: Genus)
      requires Valid() && g !in records
      modifies this`configMaps, this`records
      ensures Valid() && records == old(records)[g := {}]
    {
      NewRecordHasNoUsers();
      configMaps := configMaps[g := map[KAPP := "true"]];
      records := records[g := {}];
    }

    method DeleteByName(g: Genus) returns (r: Reply)
      requires Valid()
      modifies this
      ensures Valid()
      ensures Consumes(old(script), script, r) && past + script == old(past + script)
      ensures old(faults) <= faults && (faults == old(faults) ==> r != Err)
      ensures r == Ok ==> records == old(records) - {g}
      ensures records == old(records) - {g} || records == old(records)
      ensures ledger == Entered(old(ledger), DropRecord(g), old(script))
    {
      var effective;
      r, effective := Call(DropRecord(g));
      if effective {
        configMaps, records := configMaps - {g}, records - {g};
      }
    }

    /** Registers `user` on the record of `g`; there must be one (pkg/kdo/chart.go:654-661). */
    method AddUsedBy(g: Genus, user: Genus) returns (r: Reply)
      requires Valid()
      modifies this
      ensures Valid()
      ensures Consumes(old(script), script, r) || (g !in old(records) && r == Err && Consumes(old(script), script, Ok))
      ensures past + script == old(past + script)
      ensures r == Ok ==> g in old(records) && records == old(records)[g := old(records)[g] + {user}]
      ensures records == old(records) || (g in old(records) && records == old(records)[g := old(records)[g] + {user}])
      ensures old(faults) <= faults && (faults == old(faults) && r != Crash ==> (r == Ok <==> g in old(records)))
      ensures g in old(records) && old(script) != [] && old(script)[0] != Failed ==>
                records == old(records)[g := old(records)[g] + {user}]
      ensures old(script) == [] || old(script)[0] == Failed ==> records == old(records)
      ensures ledger == if g in old(records) then Entered(old(ledger), Register(user, g), old(script)) else old(ledger)
    {
      ghost var l := ledger;
      var effective;
      r, effective := Call(Register(user, g));
      if g !in configMaps {
        ledger := l;
        return if r == Ok then Err else r;
      }
      if effective {
        AddToView(configMaps, g, user);
        configMaps := configMaps[g := configMaps[g][UsedByAnnotation(Reference(user)) := "True"]];
        records := records[g := records[g] + {user}];
      }
    }

    /** Unregisters `user` and reports how many users remain. A reference that is not there is
        answered with code 422, which IgnoreNotFound turns into no object at all: zero
        references and no error (pkg/k8s/k8s.go:441-460, pkg/kdo/chart.go:663-670). */
    method RemoveUsedBy(g: Genus, user: Genus) returns (r: Reply, references: nat)
      requires Valid()
      modifies this
      ensures Valid()
      ensures Consumes(old(script), script, r) && past + script == old(past + script)
      ensures old(faults) <= faults && (faults == old(faults) ==> r != Err)
      ensures records == old(records) || (g in old(records) && records == old(records)[g := old(records)[g] - {user}])
      ensures g in old(records) && old(script) != [] && old(script)[0] != Failed ==>
                records == old(records)[g := old(records)[g] - {user}]
      ensures old(script) == [] || old(script)[0] == Failed ==> records == old(records)
      ensures r == Ok && g in old(records) && user in old(records)[g] ==> references == |records[g]|
      ensures r != Ok || g !in old(records) || user !in old(records)[g] ==> references == 0
      ensures ledger == Entered(old(ledger), Unregister(user, g), old(script))
    {
      var effective;
      r, effective := Call(Unregister(user, g));
      var key := UsedByAnnotation(Reference(user));
      if g !in configMaps {
        return r, 0;
      }
      UserIffAnnotated(configMaps[g], user);
      AbsentUser(records, g, user);
      if !effective || key !in configMaps[g] {
        return r, 0;
      }
      Erase(g, user);
      references := 0;
      if r == Ok {
        references := RemainingReferences(configMaps[g]);
      }
    }

    method Erase(g: Genus, user: Genus)
      requires Valid() && g in records
      modifies this`configMaps, this`records
      ensures Valid() && records == old(records)[g := old(records)[g] - {user}]
    {
      RemoveFromView(configMaps, g, user);
      configMaps := configMaps[g := configMaps[g] - {UsedByAnnotation(Reference(user))}];
      records := records[g := records[g] - {user}];
    }
  }

  lemma {:induction false} NewRecordHasNoUsers()
    ensures Users(map[KAPP := "true"]) == {} && WellFormed(map[KAPP := "true"])
  {
    assert KAPP[0] != PREFIX[0] || KAPP[2] != PREFIX[2];
    assert !HasPrefix(KAPP, PREFIX);
    if IsUserKey(KAPP) {
      GenusDeterminesKey(KAPP);
    }
  }

  lemma {:induction false} AbsentUser(s: State, g: Genus, user: Genus)
    requires g in s
    ensures user !in s[g] ==> s[g := s[g] - {user}] == s
  {
    if user !in s[g] {
      assert s[g] - {user} == s[g];
    }
  }
}
