/** Applying a chart: its dependencies are found or installed first, then its sub-charts and its
    own objects are applied, then it is recorded (pkg/kdo/chart.go:290-308, 488-523,
    pkg/kdo/dependency.go:96-136). */
module Installation {
  import opened Faults
  import opened References
  import opened Store
  import opened Charts
  import opened Ledgers

  /** What holds all along the apply of c, whatever fails. */
  ghost predicate Rising(cat: Catalog, s0: State, s: State, c: Genus, V: set<Genus>) {
    && Sound(cat, s)
    && c in V
    && Grown(s0, s, V)
    && ApplyWithin(cat, s0, c, V)
  }

  lemma {:induction false} RisingNested(cat: Catalog, s0: State, s: State, s': State, c: Genus, V: set<Genus>, x: Genus,
      W: set<Genus>)
    requires Rising(cat, s0, s, c, V) && Sound(cat, s') && Grown(s, s', W + {c})
    requires ApplyWithin(cat, s, x, W) && (x in cat.subs(c) || (x in cat.deps(c) && x !in s))
    ensures Rising(cat, s0, s', c, V + W)
  {
    ApplyWithinNested(cat, s0, s, c, V, x, W);
  }

  ghost predicate Secured(s: State, c: Genus, done: set<Genus>) {
    forall d :: d in done ==> Uses(s, c, d)
  }

  lemma {:induction false} UserRegistered(cat: Catalog, s: State, c: Genus, d: Genus)
    requires Sound(cat, s) && d in cat.deps(c)
    ensures Sound(cat, Registered(s, c, d)) && Grown(s, Registered(s, c, d), {c})
  {
    assert forall u, g :: Uses(Registered(s, c, d), u, g) <==> Uses(s, u, g) || (u == c && g == d && d in s);
  }

  /** The dependencies installed on the way from s to s', each of them new. */
  ghost predicate Fresh(s: State, s': State, log: seq<Genus>) {
    forall i :: 0 <= i < |log| ==> log[i] !in s && log[i] in s'
  }

  /** Every member of V is c, was installed as a dependency, or is a sub-chart of a member. */
  ghost predicate Explained(cat: Catalog, c: Genus, V: set<Genus>, log: seq<Genus>) {
    && (forall i :: 0 <= i < |log| ==> log[i] in V)
    && forall x :: x in V ==> x == c || x in log || exists y :: y in V && x in cat.subs(y)
  }

  /** Everything installed below c is lower than c, and nothing was installed twice. */
  ghost predicate Once(cat: Catalog, have: set<Genus>, c: Genus, log: seq<Genus>) {
    Distinct(log) && forall i :: 0 <= i < |log| ==> Height(cat, have, log[i]) < Height(cat, have, c)
  }

  /** The apply of c is on its way without faults: it has secured the dependencies `done` and applied the
      sub-charts `applied`. */
  ghost predicate Exact(cat: Catalog, s0: State, s: State, c: Genus, V: set<Genus>, done: set<Genus>,
      applied: set<Genus>, log: seq<Genus>) {
    && Applying(cat, s0, s, c, V, done)
    && Explained(cat, c, V, log)
    && applied <= V
  }

  /** Everything in `have` is recorded, and nothing that was recorded since goes round in circles. */
  ghost predicate Grounded(cat: Catalog, have: set<Genus>, s: State) {
    have <= s.Keys && Settled(cat, have, s)
  }

  /** What an apply of c without faults has done. */
  ghost predicate Complete(cat: Catalog, s0: State, s: State, c: Genus, V: set<Genus>, log: seq<Genus>) {
    Installed(cat, s0, s, c, V) && Explained(cat, c, V, log)
  }

  /** Applies one chart. `entered` are the charts whose apply was started, `log` the dependencies
      that were installed on demand, in order; `at` is the call that wrote the record, on top of `mid`. */
  method Apply(cat: Catalog, k: Cluster, c: Genus, ghost have: set<Genus>, ghost n: nat)
    returns (r: Reply, ghost entered: set<Genus>, ghost log: seq<Genus>, ghost at: nat, ghost mid: State)
    requires cat.Loadable() && k.Valid() && Sound(cat, k.records) && Grounded(cat, have, k.records)
    requires Building(cat, k.records, k.ledger)
    requires k.ledger.blank == {}
    modifies k
    decreases |k.script|, cat.depth(c), 3
    // A success without a record: exactly if the call that should write it had no effect.
    ensures r == Ok ==> |old(k.past)| <= at < |k.past| && (c in k.records <==> c in mid || k.past[at] != Failed)
    ensures Grown(old(k.records), mid, entered)
    // A success, whatever failed on the way, means that nothing goes round in circles and no reference is missing.
    ensures r == Ok ==> Founded(cat, have, c) && Secured(k.records, c, cat.deps(c))
    ensures Grounded(cat, have, k.records)
    ensures Building(cat, k.records, k.ledger) && Added(old(k.ledger), k.ledger, entered)
    // A success rests on the objects of the chart, and so on all that comes before them.
    ensures r == Ok ==> ApplyObjects(c) in k.ledger.done
    ensures k.Valid() && Rising(cat, old(k.records), k.records, c, entered)
    ensures r == Ok ==> k.ledger.blank == {}
    ensures k.past + k.script == old(k.past + k.script)
    ensures |k.script| <= |old(k.script)| && old(k.faults) <= k.faults
    ensures k.faults == old(k.faults) && r != Crash ==>
              && r == Ok && Complete(cat, old(k.records), k.records, c, entered, log)
              && AllPut(k.ledger.done, entered)
    ensures Fresh(old(k.records), k.records, log)
    ensures Founded(cat, have, c) ==> Once(cat, have, c, log)
    ensures Finishes(cat, have, n, c) ==> Made(old(k.script), k.script, r) <= Calls(cat, have, n, c)
  {
    ghost var s0, l0 := k.records, k.ledger;
    entered, log, at, mid := {c}, [], 0, s0;
    ghost var m := if n == 0 then 0 else n - 1;
    r, entered, log := ApplyDependencies(cat, k, c, have, m);
    if r != Ok {
      return;
    }
    r, entered, log := ApplySubCharts(cat, k, c, have, m, s0, l0, entered, log);
    if r != Ok {
      return;
    }
    ghost var l := k.ledger;
    at, mid := |k.past| + 1, k.records;
    r := Record(cat, k, c);
    AddedTwice(l0, l, k.ledger, entered, {c}, entered);
    Recording(cat, have, s0, mid, k.records, c, entered, log);
  }

  /** Writing the record of c, or failing to, ends the apply of c. */
  lemma {:induction false} Recording(cat: Catalog, have: set<Genus>, s0: State, s: State, s': State, c: Genus,
      V: set<Genus>, log: seq<Genus>)
    requires Rising(cat, s0, s, c, V) && Secured(s, c, cat.deps(c)) && (s' == s || s' == Recorded(s, c))
    requires Fresh(s0, s, log) && Grounded(cat, have, s) && forall x :: x in cat.subs(c) ==> Founded(cat, have, x)
    ensures Rising(cat, s0, s', c, V) && Fresh(s0, s', log)
    ensures Grounded(cat, have, s') && Founded(cat, have, c) && Secured(s', c, cat.deps(c))
    ensures s' == Recorded(s, c) && Exact(cat, s0, s, c, V, cat.deps(c), cat.subs(c), log) ==>
              Complete(cat, s0, s', c, V, log)
  {
    RecordingIsSound(cat, s, c);
    assert forall u, g :: Uses(Recorded(s, c), u, g) <==> Uses(s, u, g);
    SecuredIsFounded(cat, have, s, c);
    if Exact(cat, s0, s, c, V, cat.deps(c), cat.subs(c), log) {
      ApplyingFinished(cat, s0, s, c, V);
    }
  }

  lemma {:induction false} SecuredIsFounded(cat: Catalog, have: set<Genus>, s: State, c: Genus)
    requires Secured(s, c, cat.deps(c)) && Settled(cat, have, s)
    requires forall x :: x in cat.subs(c) ==> Founded(cat, have, x)
    ensures Founded(cat, have, c)
  {
    forall x | Needs(cat, have, c, x)
      ensures Founded(cat, have, x)
    {
      if x in cat.deps(c) {
        assert Uses(s, c, x);
      }
    }
    FoundedFromBelow(cat, have, c);
  }

  /** Applies the objects of c itself and records it. A failure to write the record or the secret
      is not reported: the apply still counts as successful. */
  method Record(cat: Catalog, k: Cluster, c: Genus) returns (r: Reply)
    requires k.Valid() && Building(cat, k.records, k.ledger) && Allowed(cat, k.ledger.done, ApplyObjects(c))
    requires k.ledger.blank == {}
    modifies k
    ensures k.Valid()
    ensures Building(cat, k.records, k.ledger) && Added(old(k.ledger), k.ledger, {c})
    ensures r == Ok ==> ApplyObjects(c) in k.ledger.done
    ensures k.faults == old(k.faults) && r != Crash ==> AllPut(k.ledger.done, {c})
    // The secret is written if and only if the record was.
    ensures r == Ok ==> |old(k.script)| > 1
    ensures r == Ok ==> (Secret(c) in k.ledger.things <==>
                         Secret(c) in old(k.ledger.things) || SecretWritten(old(k.script)[1..]))
    ensures k.records == old(k.records) || k.records == Recorded(old(k.records), c)
    ensures r == Ok ==> k.ledger.blank == {}
    ensures k.past + k.script == old(k.past + k.script)
    ensures |k.script| <= |old(k.script)| && old(k.faults) <= k.faults
    ensures k.faults == old(k.faults) && r != Crash ==> r == Ok && k.records == Recorded(old(k.records), c)
    ensures old(k.script) != [] && old(k.script)[0] == Done &&
            |old(k.script)| > (if |old(k.script)| > 1 && old(k.script)[1] == Done then 2 else 1) ==>
              r == Ok
    ensures r == Ok ==> |k.past| > |old(k.past)| + 1 && k.past[|old(k.past)| + 1] == old(k.script)[1]
    // A success is only reported once the record was tried, and it is missing exactly if that call had no effect.
    ensures r == Ok ==> (c in k.records <==> c in old(k.records) || old(k.script)[1] != Failed)
    ensures Made(old(k.script), k.script, r) <= 3
  {
    Built(cat, k.records, k.ledger, ApplyObjects(c), k.script, c);
    r := k.Act(ApplyObjects(c));
    if r != Ok {
      return;
    }
    ghost var l := k.ledger;
    r := WriteDown(cat, k, c);
    AddedTwice(old(k.ledger), l, k.ledger, {c}, {c}, {c});
    ghost var i := |old(k.past)| + 1;
    assert r == Ok ==> (k.past + k.script)[i] == old(k.past + k.script)[i];
  }

  /** The call for the record ends well, and the next one, for the secret, has an effect. */
  predicate SecretWritten(script: seq<Outcome>) {
    |script| > 1 && script[0] == Done && script[1] != Failed
  }

  /** Writes the record, and the secret if that went well; errors are dropped. */
  method WriteDown(cat: Catalog, k: Cluster, c: Genus) returns (r: Reply)
    requires k.Valid() && Building(cat, k.records, k.ledger) && ApplyObjects(c) in k.ledger.done
    requires k.ledger.blank == {}
    modifies k
    ensures k.Valid()
    ensures Building(cat, k.records, k.ledger) && Added(old(k.ledger), k.ledger, {c})
    ensures k.faults == old(k.faults) && r != Crash ==>
              WriteRecord(c) in k.ledger.done && WriteSecret(c) in k.ledger.done &&
                  k.records == Recorded(old(k.records), c)
    ensures Secret(c) in k.ledger.things <==> Secret(c) in old(k.ledger.things) || SecretWritten(old(k.script))
    ensures r != Err && (r == Ok ==> old(k.script) != [])
    ensures r == Crash <==> |old(k.script)| < if old(k.script) != [] && old(k.script)[0] == Done then 2 else 1
    ensures k.records == if old(k.script) != [] && old(k.script)[0] != Failed then Recorded(old(k.records), c)
                         else old(k.records)
    ensures r == Ok ==> k.ledger.blank == {}
    ensures k.past + k.script == old(k.past + k.script)
    ensures |k.script| <= |old(k.script)| && old(k.faults) <= k.faults
    ensures r == Ok ==> |k.past| > |old(k.past)|
    ensures Made(old(k.script), k.script, r) <= 2
  {
    ghost var effective, s := false, k.records;
    Built(cat, s, k.ledger, WriteRecord(c), k.script, c);
    r, effective := k.CreateOrUpdate(c);
    StillBuilding(cat, s, k.records, k.ledger, c);
    if r == Ok {
      Built(cat, k.records, k.ledger, WriteSecret(c), k.script, c);
      r := k.Act(WriteSecret(c));
    }
    r := if r == Crash then Crash else Ok;
  }

  lemma {:induction false} LogsJoin(cat: Catalog, have: set<Genus>, c: Genus, s0: State, s: State, s': State,
      log: seq<Genus>, more: seq<Genus>)
    requires Fresh(s0, s, log) && Fresh(s, s', more)
    requires (forall g :: g in s0 ==> g in s) && (forall g :: g in s ==> g in s')
    ensures Fresh(s0, s', log + more)
    ensures Once(cat, have, c, log) && Once(cat, have, c, more) ==> Once(cat, have, c, log + more)
  {
  }

  lemma {:induction false} ExplainedTogether(cat: Catalog, c: Genus, V: set<Genus>, log: seq<Genus>, x: Genus,
      W: set<Genus>, more: seq<Genus>)
    requires Explained(cat, c, V, log) && c in V
    requires Explained(cat, x, W, more) && (x in cat.subs(c) || x in more)
    ensures Explained(cat, c, V + W, log + more)
  {
    forall z | z in V + W
      ensures z == c || z in log + more || exists y :: y in V + W && z in cat.subs(y)
    {
      if z in V {
        if y :| y in V && z in cat.subs(y) {
          assert y in V + W;
        }
      } else if y :| y in W && z in cat.subs(y) {
        assert y in V + W;
      } else {
        assert z in more || (z == x && c in V + W);
      }
    }
  }

  /** Finds the recorded chart d or installs it, and registers c as its user. */
  method Require(cat: Catalog, k: Cluster, c: Genus, d: Genus, ghost have: set<Genus>, ghost n: nat)
    returns (r: Reply, ghost entered: set<Genus>, ghost log: seq<Genus>, ghost mid: State)
    requires cat.Loadable() && k.Valid() && Sound(cat, k.records) && Grounded(cat, have, k.records) && d in cat.deps(c)
    requires Building(cat, k.records, k.ledger)
    requires k.ledger.blank == {}
    modifies k
    decreases |k.script|, cat.depth(c), 0
    ensures Grounded(cat, have, k.records)
    ensures Building(cat, k.records, k.ledger) && Added(old(k.ledger), k.ledger, entered)
    ensures r == Ok ==> Register(c, d) in k.ledger.done && HandOver(c, d) in k.ledger.done
    ensures k.Valid() && Sound(cat, k.records) && Grown(old(k.records), k.records, entered + {c})
    ensures d in old(k.records) ==> entered == {} && log == [] && mid == old(k.records)
    ensures d !in old(k.records) ==> ApplyWithin(cat, old(k.records), d, entered)
    ensures r == Ok ==> Uses(k.records, c, d)
    ensures r == Ok ==> k.ledger.blank == {}
    ensures k.past + k.script == old(k.past + k.script)
    ensures |k.script| <= |old(k.script)| && old(k.faults) <= k.faults
    ensures k.faults == old(k.faults) && r != Crash ==> r == Ok && k.records == Registered(mid, c, d)
    ensures k.faults == old(k.faults) && r != Crash && d !in old(k.records) ==>
              Complete(cat, old(k.records), mid, d, entered, log) && d in log && AllPut(k.ledger.done, entered)
    ensures Fresh(old(k.records), k.records, log)
    ensures Founded(cat, have, c) ==> Once(cat, have, c, log)
    ensures Finishes(cat, have, n + 1, c) ==>
              Made(old(k.script), k.script, r) <= 4 + if d in have then 0 else Calls(cat, have, n, d)
  {
    entered, log, mid := {}, [], k.records;
    var found;
    Built(cat, k.records, k.ledger, Find(d), k.script, c);
    r, found := k.List(d);
    ghost var l := k.ledger;
    if r != Ok {
      return;
    }
    if found {
      r := Use(cat, k, c, d);
    } else {
      r, entered, log, mid := Install(cat, k, c, d, have, n);
    }
    AddedTwice(old(k.ledger), l, k.ledger, {}, entered, entered);
  }

  /** A recorded chart of an allowed version is used as it is; the references are added before
      the properties are handed over. */
  method Use(cat: Catalog, k: Cluster, c: Genus, d: Genus) returns (r: Reply)
    requires k.Valid() && Sound(cat, k.records) && d in cat.deps(c) && d in k.records
    requires Building(cat, k.records, k.ledger) && Find(d) in k.ledger.done
    requires k.ledger.blank == {}
    modifies k
    ensures k.Valid() && Sound(cat, k.records)
    ensures k.records == old(k.records) || k.records == Registered(old(k.records), c, d)
    ensures Grown(old(k.records), k.records, {c})
    ensures Building(cat, k.records, k.ledger) && Added(old(k.ledger), k.ledger, {})
    ensures r == Ok ==> Register(c, d) in k.ledger.done && HandOver(c, d) in k.ledger.done
    ensures r == Ok ==> k.records == Registered(old(k.records), c, d)
    ensures r == Ok ==> k.ledger.blank == {}
    ensures k.past + k.script == old(k.past + k.script)
    ensures |k.script| <= |old(k.script)| && old(k.faults) <= k.faults && (k.faults == old(k.faults) ==> r != Err)
    ensures Made(old(k.script), k.script, r) <= 3
  {
    r := CheckAndRegister(cat, k, c, d);
    if r != Ok {
      return;
    }
    Built(cat, k.records, k.ledger, HandOver(c, d), k.script, c);
    r := k.Act(HandOver(c, d));
  }

  /** No reference without a version that is allowed. */
  method CheckAndRegister(cat: Catalog, k: Cluster, c: Genus, d: Genus) returns (r: Reply)
    requires k.Valid() && d in k.records && Building(cat, k.records, k.ledger) && Find(d) in k.ledger.done
    requires k.ledger.blank == {} && Sound(cat, k.records) && d in cat.deps(c)
    modifies k
    ensures k.Valid() && Sound(cat, k.records)
    ensures k.records == old(k.records) || k.records == Registered(old(k.records), c, d)
    ensures Grown(old(k.records), k.records, {c})
    ensures Building(cat, k.records, k.ledger) && Added(old(k.ledger), k.ledger, {})
    ensures r == Ok ==> k.records == Registered(old(k.records), c, d) && Register(c, d) in k.ledger.done
    ensures r == Ok ==> k.ledger.blank == {}
    ensures k.past + k.script == old(k.past + k.script)
    ensures |k.script| <= |old(k.script)| && old(k.faults) <= k.faults && (k.faults == old(k.faults) ==> r != Err)
    ensures Made(old(k.script), k.script, r) <= 2
  {
    UserRegistered(cat, k.records, c, d);
    Built(cat, k.records, k.ledger, Check(c, d), k.script, c);
    r := k.Act(Check(c, d));
    if r == Ok {
      r := AddUser(cat, k, c, d);
    }
  }

  /** Registers c on the record of d, if there is one. */
  method AddUser(cat: Catalog, k: Cluster, c: Genus, d: Genus) returns (r: Reply)
    requires k.Valid() && Building(cat, k.records, k.ledger) && Allowed(cat, k.ledger.done, Register(c, d))
    requires k.ledger.blank == {}
    modifies k
    ensures k.Valid()
    ensures Building(cat, k.records, k.ledger) && Added(old(k.ledger), k.ledger, {})
    ensures k.records == old(k.records) || (d in old(k.records) && k.records == Registered(old(k.records), c, d))
    ensures r == Ok ==>
              d in old(k.records) && k.records == Registered(old(k.records), c, d) && Register(c, d) in k.ledger.done
    ensures r == Ok ==> k.ledger.blank == {}
    ensures k.past + k.script == old(k.past + k.script)
    ensures |k.script| <= |old(k.script)| && Made(old(k.script), k.script, r) <= 1 && old(k.faults) <= k.faults
    ensures k.faults == old(k.faults) && d in old(k.records) ==> r != Err
  {
    ghost var s, l := k.records, k.ledger;
    Built(cat, s, l, Register(c, d), k.script, c);
    r := k.AddUsedBy(d, c);
    StillBuilding(cat, s, k.records, k.ledger, c);
  }

  /** A chart that is not recorded is loaded, given its properties, applied, and only then used. */
  method Install(cat: Catalog, k: Cluster, c: Genus, d: Genus, ghost have: set<Genus>, ghost n: nat)
    returns (r: Reply, ghost entered: set<Genus>, ghost log: seq<Genus>, ghost mid: State)
    requires cat.Loadable() && k.Valid() && Sound(cat, k.records) && Grounded(cat, have, k.records) &&
             d in cat.deps(c) && d !in k.records
    requires Building(cat, k.records, k.ledger) && Find(d) in k.ledger.done
    requires k.ledger.blank == {}
    modifies k
    decreases |k.script|, cat.depth(d), 5
    ensures Grounded(cat, have, k.records)
    ensures Building(cat, k.records, k.ledger) && Added(old(k.ledger), k.ledger, entered)
    ensures r == Ok ==> Register(c, d) in k.ledger.done && HandOver(c, d) in k.ledger.done
    ensures k.Valid() && Sound(cat, k.records) && Grown(old(k.records), k.records, entered + {c})
    ensures ApplyWithin(cat, old(k.records), d, entered)
    ensures r == Ok ==> Uses(k.records, c, d)
    ensures r == Ok ==> k.ledger.blank == {}
    ensures k.past + k.script == old(k.past + k.script)
    ensures |k.script| <= |old(k.script)| && old(k.faults) <= k.faults
    ensures k.faults == old(k.faults) && r != Crash ==> r == Ok && k.records == Registered(mid, c, d)
    ensures k.faults == old(k.faults) && r != Crash ==>
              Complete(cat, old(k.records), mid, d, entered, log) && d in log && AllPut(k.ledger.done, entered)
    ensures Fresh(old(k.records), k.records, log)
    ensures Founded(cat, have, c) ==> Once(cat, have, c, log)
    ensures Finishes(cat, have, n + 1, c) ==> Made(old(k.script), k.script, r) <= 3 + Calls(cat, have, n, d)
  {
    HeightFalls(cat, have, c, d);
    r, entered, log := LoadAndApply(cat, k, c, d, have, n);
    mid := k.records;
    if r != Ok {
      return;
    }
    ghost var l := k.ledger;
    r := AddUser(cat, k, c, d);
    AddedTwice(old(k.ledger), l, k.ledger, entered, {}, entered);
    UsedAfterInstall(cat, have, old(k.records), mid, k.records, c, d, entered, log);
    if r == Ok {
      log := log + [d];
    }
  }

  method LoadAndApply(cat: Catalog, k: Cluster, c: Genus, d: Genus, ghost have: set<Genus>, ghost n: nat)
    returns (r: Reply, ghost entered: set<Genus>, ghost log: seq<Genus>)
    requires cat.Loadable() && k.Valid() && Sound(cat, k.records) && Grounded(cat, have, k.records)
    requires Building(cat, k.records, k.ledger) && Find(d) in k.ledger.done
    requires k.ledger.blank == {}
    modifies k
    decreases |k.script|, cat.depth(d), 4
    ensures Grounded(cat, have, k.records)
    ensures Building(cat, k.records, k.ledger) && Added(old(k.ledger), k.ledger, entered)
    ensures r == Ok ==> HandOver(c, d) in k.ledger.done && ApplyObjects(d) in k.ledger.done
    ensures k.Valid() && Sound(cat, k.records) && Grown(old(k.records), k.records, entered)
    ensures ApplyWithin(cat, old(k.records), d, entered) && (r == Ok ==> d in entered)
    ensures r == Ok ==> k.ledger.blank == {}
    ensures k.past + k.script == old(k.past + k.script)
    ensures |k.script| <= |old(k.script)| && old(k.faults) <= k.faults
    ensures k.faults == old(k.faults) && r != Crash ==>
              && r == Ok && Complete(cat, old(k.records), k.records, d, entered, log)
              && AllPut(k.ledger.done, entered)
    ensures Fresh(old(k.records), k.records, log)
    ensures Founded(cat, have, d) ==> Once(cat, have, d, log)
    ensures Finishes(cat, have, n, d) ==> Made(old(k.script), k.script, r) <= 2 + Calls(cat, have, n, d)
  {
    entered, log := {}, [];
    r := LoadChart(cat, k, c, d);
    if r != Ok {
      return;
    }
    ghost var l, at, before := k.ledger, 0, map[];
    r, entered, log, at, before := Apply(cat, k, d, have, n);
    AddedTwice(old(k.ledger), l, k.ledger, {}, entered, entered);
  }

  /** Loads a chart and gives it the properties that its user has set. */
  method LoadChart(cat: Catalog, k: Cluster, c: Genus, d: Genus) returns (r: Reply)
    requires k.Valid() && Building(cat, k.records, k.ledger) && Find(d) in k.ledger.done
    requires k.ledger.blank == {}
    modifies k
    ensures k.Valid() && k.records == old(k.records)
    ensures Building(cat, k.records, k.ledger) && Added(old(k.ledger), k.ledger, {})
    ensures r == Ok ==> HandOver(c, d) in k.ledger.done
    ensures r == Ok ==> k.ledger.blank == {}
    ensures k.past + k.script == old(k.past + k.script)
    ensures |k.script| <= |old(k.script)| && (r == Ok ==> |k.script| < |old(k.script)|)
    ensures old(k.faults) <= k.faults && (k.faults == old(k.faults) ==> r != Err)
    ensures Made(old(k.script), k.script, r) <= 2
  {
    Built(cat, k.records, k.ledger, Load(d), k.script, c);
    r := k.Act(Load(d));
    if r != Ok {
      return;
    }
    Built(cat, k.records, k.ledger, HandOver(c, d), k.script, c);
    r := k.Act(HandOver(c, d));
  }

  lemma {:induction false} UsedAfterInstall(cat: Catalog, have: set<Genus>, s0: State, mid: State, s: State, c: Genus,
      d: Genus, W: set<Genus>, log: seq<Genus>)
    requires d !in s0 && d in cat.deps(c) && Rising(cat, s0, mid, d, W) && Fresh(s0, mid, log)
    requires s == mid || (d in mid && s == Registered(mid, c, d))
    ensures Sound(cat, s) && Grown(s0, s, W + {c}) && Fresh(s0, s, log) && Fresh(s0, mid, log)
    ensures d in mid ==> Fresh(s0, s, log + [d])
    ensures Once(cat, have, d, log) && Height(cat, have, d) < Height(cat, have, c) ==>
            Once(cat, have, c, log) && Once(cat, have, c, log + [d])
    ensures Complete(cat, s0, mid, d, W, log) ==> Complete(cat, s0, mid, d, W, log + [d]) && d in log + [d]
  {
    UserRegistered(cat, mid, c, d);
    assert (log + [d])[|log|] == d;
  }

  lemma {:induction false} Starting(cat: Catalog, have: set<Genus>, s: State, c: Genus)
    requires Sound(cat, s)
    ensures Rising(cat, s, s, c, {c}) && Secured(s, c, {}) && Fresh(s, s, []) && Once(cat, have, c, [])
    ensures Exact(cat, s, s, c, {c}, {}, {}, [])
  {
  }

  /** Installs or finds all dependencies of c, in any order. */
  method ApplyDependencies(cat: Catalog, k: Cluster, c: Genus, ghost have: set<Genus>, ghost n: nat)
    returns (r: Reply, ghost entered: set<Genus>, ghost log: seq<Genus>)
    requires cat.Loadable() && k.Valid() && Sound(cat, k.records) && Grounded(cat, have, k.records)
    requires Building(cat, k.records, k.ledger)
    requires k.ledger.blank == {}
    modifies k
    decreases |k.script|, cat.depth(c), 2
    ensures Grounded(cat, have, k.records)
    ensures Building(cat, k.records, k.ledger) && Added(old(k.ledger), k.ledger, entered)
    ensures r == Ok ==> Prepared(k.ledger.done, c, cat.deps(c))
    ensures k.Valid() && Rising(cat, old(k.records), k.records, c, entered)
    ensures r == Ok ==> Secured(k.records, c, cat.deps(c))
    ensures r == Ok ==> k.ledger.blank == {}
    ensures k.past + k.script == old(k.past + k.script)
    ensures |k.script| <= |old(k.script)| && old(k.faults) <= k.faults
    ensures k.faults == old(k.faults) && r != Crash ==>
              && r == Ok && Exact(cat, old(k.records), k.records, c, entered, cat.deps(c), {}, log)
              && AllPut(k.ledger.done, entered - {c})
    ensures Fresh(old(k.records), k.records, log)
    ensures Founded(cat, have, c) ==> Once(cat, have, c, log)
    ensures Finishes(cat, have, n + 1, c) ==> Made(old(k.script), k.script, r) <= DepCalls(cat, have, n, cat.deps(c))
  {
    ghost var s0, l0, done := k.records, k.ledger, {};
    r, entered, log := Ok, {c}, [];
    Starting(cat, have, s0, c);
    var todo := cat.deps(c);
    while todo != {} && r == Ok
      invariant k.Valid() && Rising(cat, s0, k.records, c, entered)
      invariant Grounded(cat, have, k.records)
      invariant Building(cat, k.records, k.ledger) && Added(l0, k.ledger, entered)
      invariant r == Ok ==> Prepared(k.ledger.done, c, done)
      invariant done + todo == cat.deps(c)
      invariant r == Ok ==> Secured(k.records, c, done)
      invariant r == Ok ==> k.ledger.blank == {}
      invariant k.past + k.script == old(k.past + k.script)
      invariant |k.script| <= |old(k.script)| && old(k.faults) <= k.faults
      invariant k.faults == old(k.faults) && r != Crash ==>
        && r == Ok && Exact(cat, s0, k.records, c, entered, done, {}, log)
        && AllPut(k.ledger.done, entered - {c})
      invariant Fresh(s0, k.records, log)
      invariant Founded(cat, have, c) ==> Once(cat, have, c, log)
      invariant Finishes(cat, have, n + 1, c) ==>
        Made(old(k.script), k.script, r) + DepCalls(cat, have, n, todo) <= DepCalls(cat, have, n, cat.deps(c))
      decreases |todo|
    {
      var d :| d in todo;
      DepCallsPick(cat, have, n, todo, d);
      r, entered, log := ApplyDependency(cat, k, c, d, have, n, s0, l0, entered, done, log);
      OneDone(done, todo, d);
      todo, done := todo - {d}, done + {d};
    }
    assert todo == {} ==> done == cat.deps(c);
  }

  method ApplyDependency(cat: Catalog, k: Cluster, c: Genus, d: Genus, ghost have: set<Genus>, ghost n: nat,
      ghost s0: State, ghost l0: Ledger, ghost before: set<Genus>, ghost done: set<Genus>, ghost earlier: seq<Genus>)
    returns (r: Reply, ghost entered: set<Genus>, ghost log: seq<Genus>)
    requires cat.Loadable() && k.Valid() && d in cat.deps(c) && Grounded(cat, have, k.records)
    requires Rising(cat, s0, k.records, c, before) && Secured(k.records, c, done) && Fresh(s0, k.records, earlier)
    requires Building(cat, k.records, k.ledger) && Added(l0, k.ledger, before) && Prepared(k.ledger.done, c, done)
    requires k.ledger.blank == {}
    modifies k
    decreases |k.script|, cat.depth(c), 1
    ensures Grounded(cat, have, k.records)
    ensures Building(cat, k.records, k.ledger) && Added(l0, k.ledger, entered)
    ensures r == Ok ==> Prepared(k.ledger.done, c, done + {d})
    ensures k.Valid() && Rising(cat, s0, k.records, c, entered)
    ensures r == Ok ==> Secured(k.records, c, done + {d})
    ensures r == Ok ==> k.ledger.blank == {}
    ensures k.past + k.script == old(k.past + k.script)
    ensures |k.script| <= |old(k.script)| && old(k.faults) <= k.faults
    ensures k.faults == old(k.faults) && r != Crash ==> r == Ok
    ensures k.faults == old(k.faults) && r != Crash && Exact(cat, s0, old(k.records), c, before, done, {}, earlier) ==>
              && Exact(cat, s0, k.records, c, entered, done + {d}, {}, log)
              && (AllPut(old(k.ledger.done), before - {c}) ==> AllPut(k.ledger.done, entered - {c}))
    ensures Fresh(s0, k.records, log)
    ensures Founded(cat, have, c) && Once(cat, have, c, earlier) ==> Once(cat, have, c, log)
    ensures Finishes(cat, have, n + 1, c) ==>
              Made(old(k.script), k.script, r) <= 4 + if d in have then 0 else Calls(cat, have, n, d)
  {
    ghost var s, l, W, more, mid := k.records, k.ledger, {}, [], map[];
    r, W, more, mid := Require(cat, k, c, d, have, n);
    entered, log := before + W, earlier + more;
    AddedTwice(l0, l, k.ledger, before, W, entered);
    if r == Ok {
      StillPrepared(l.done, k.ledger.done, c, done, d);
    }
    LogsJoin(cat, have, c, s0, s, k.records, earlier, more);
    StepDependency(cat, s0, s, k.records, c, before, W, d);
    if k.faults == old(k.faults) && r != Crash && Exact(cat, s0, s, c, before, done, {}, earlier) {
      StepClean(cat, s0, s, mid, c, before, done, earlier, d, W, more);
      if AllPut(l.done, before - {c}) {
        AllPutTogether(l.done, k.ledger.done, c, before, W);
      }
    }
  }

  lemma {:induction false} StepDependency(cat: Catalog, s0: State, s: State, s': State, c: Genus, V: set<Genus>,
      W: set<Genus>, d: Genus)
    requires Rising(cat, s0, s, c, V) && Sound(cat, s') && Grown(s, s', W + {c}) && d in cat.deps(c)
    requires if d in s then W == {} else ApplyWithin(cat, s, d, W)
    ensures Rising(cat, s0, s', c, V + W)
  {
    if d in s {
      assert V + W == V;
    } else {
      RisingNested(cat, s0, s, s', c, V, d, W);
    }
  }

  lemma {:induction false} StepClean(cat: Catalog, s0: State, s: State, mid: State, c: Genus, V: set<Genus>,
      done: set<Genus>, log: seq<Genus>, d: Genus, W: set<Genus>, more: seq<Genus>)
    requires d in cat.deps(c) && Exact(cat, s0, s, c, V, done, {}, log)
    requires if d in s then W == {} && more == [] && mid == s else Complete(cat, s, mid, d, W, more) && d in more
    ensures Exact(cat, s0, Registered(mid, c, d), c, V + W, done + {d}, {}, log + more)
  {
    if d in s {
      assert V + W == V && log + more == log;
    } else {
      ExplainedTogether(cat, c, V, log, d, W, more);
      ApplyingNested(cat, s0, s, mid, c, V, done, d, W);
    }
    ApplyingRegistered(cat, s0, mid, c, V + W, done, d);
  }

  lemma {:induction false} SubChartApplied(cat: Catalog, s0: State, s: State, s': State, c: Genus, V: set<Genus>,
      applied: set<Genus>, log: seq<Genus>, x: Genus, W: set<Genus>, more: seq<Genus>)
    requires x in cat.subs(c) && Exact(cat, s0, s, c, V, cat.deps(c), applied, log)
    requires Complete(cat, s, s', x, W, more)
    ensures Exact(cat, s0, s', c, V + W, cat.deps(c), applied + {x}, log + more)
  {
    ExplainedTogether(cat, c, V, log, x, W, more);
    ApplyingNested(cat, s0, s, s', c, V, cat.deps(c), x, W);
  }

  /** Applies the sub-charts of c, in any order; they are applied even when they are recorded already. */
  method ApplySubCharts(cat: Catalog, k: Cluster, c: Genus, ghost have: set<Genus>, ghost n: nat, ghost s0: State,
      ghost l0: Ledger, ghost before: set<Genus>, ghost earlier: seq<Genus>)
    returns (r: Reply, ghost entered: set<Genus>, ghost log: seq<Genus>)
    requires cat.Loadable() && k.Valid() && Grounded(cat, have, k.records)
    requires Rising(cat, s0, k.records, c, before) && Secured(k.records, c, cat.deps(c)) &&
             Fresh(s0, k.records, earlier)
    requires Building(cat, k.records, k.ledger) && Added(l0, k.ledger, before)
    requires k.ledger.blank == {}
    modifies k
    decreases |k.script|, cat.depth(c), 2
    ensures r == Ok ==> forall x :: x in cat.subs(c) ==> Founded(cat, have, x)
    ensures Grounded(cat, have, k.records)
    ensures Building(cat, k.records, k.ledger) && Added(l0, k.ledger, entered) && old(k.ledger.done) <= k.ledger.done
    ensures r == Ok ==> ObjectsApplied(k.ledger.done, cat.subs(c))
    ensures k.Valid() && Rising(cat, s0, k.records, c, entered) && Secured(k.records, c, cat.deps(c))
    ensures r == Ok ==> k.ledger.blank == {}
    ensures k.past + k.script == old(k.past + k.script)
    ensures |k.script| <= |old(k.script)| && old(k.faults) <= k.faults
    ensures k.faults == old(k.faults) && r != Crash ==> r == Ok
    ensures k.faults == old(k.faults) && r != Crash &&
            Exact(cat, s0, old(k.records), c, before, cat.deps(c), {}, earlier) ==>
              && Exact(cat, s0, k.records, c, entered, cat.deps(c), cat.subs(c), log)
              && (AllPut(old(k.ledger.done), before - {c}) ==> AllPut(k.ledger.done, entered - {c}))
    ensures Fresh(s0, k.records, log)
    ensures Founded(cat, have, c) && Once(cat, have, c, earlier) ==> Once(cat, have, c, log)
    ensures Finishes(cat, have, n + 1, c) ==> Made(old(k.script), k.script, r) <= SubCalls(cat, have, n, cat.subs(c))
  {
    ghost var clean := Exact(cat, s0, k.records, c, before, cat.deps(c), {}, earlier);
    r, entered, log := Ok, before, earlier;
    ghost var put := AllPut(k.ledger.done, before - {c});
    var todo := cat.subs(c);
    ghost var applied := {};
    while todo != {} && r == Ok
      invariant k.Valid() && Rising(cat, s0, k.records, c, entered) && Secured(k.records, c, cat.deps(c))
      invariant applied + todo == cat.subs(c)
      invariant Building(cat, k.records, k.ledger) && Added(l0, k.ledger, entered) &&
                old(k.ledger.done) <= k.ledger.done
      invariant r == Ok ==> ObjectsApplied(k.ledger.done, applied)
      invariant Grounded(cat, have, k.records) && (r == Ok ==> forall x :: x in applied ==> Founded(cat, have, x))
      invariant r == Ok ==> k.ledger.blank == {}
      invariant k.past + k.script == old(k.past + k.script)
      invariant |k.script| <= |old(k.script)| && old(k.faults) <= k.faults
      invariant k.faults == old(k.faults) && r != Crash ==> r == Ok
      invariant k.faults == old(k.faults) && r != Crash && clean ==>
        && Exact(cat, s0, k.records, c, entered, cat.deps(c), applied, log)
        && (put ==> AllPut(k.ledger.done, entered - {c}))
      invariant Fresh(s0, k.records, log)
      invariant Founded(cat, have, c) && Once(cat, have, c, earlier) ==> Once(cat, have, c, log)
      invariant Finishes(cat, have, n + 1, c) ==>
        Made(old(k.script), k.script, r) + SubCalls(cat, have, n, todo) <= SubCalls(cat, have, n, cat.subs(c))
      decreases |todo|
    {
      var x :| x in todo;
      SubCallsPick(cat, have, n, todo, x);
      r, entered, log := ApplySubChart(cat, k, c, x, have, n, s0, l0, entered, applied, log);
      OneDone(applied, todo, x);
      todo, applied := todo - {x}, applied + {x};
    }
    assert todo == {} ==> applied == cat.subs(c);
  }

  method ApplySubChart(cat: Catalog, k: Cluster, c: Genus, x: Genus, ghost have: set<Genus>, ghost n: nat,
      ghost s0: State, ghost l0: Ledger, ghost before: set<Genus>, ghost applied: set<Genus>, ghost earlier: seq<Genus>)
    returns (r: Reply, ghost entered: set<Genus>, ghost log: seq<Genus>)
    requires cat.Loadable() && k.Valid() && x in cat.subs(c) && Grounded(cat, have, k.records)
    requires Rising(cat, s0, k.records, c, before) && Secured(k.records, c, cat.deps(c)) &&
             Fresh(s0, k.records, earlier)
    requires Building(cat, k.records, k.ledger) && Added(l0, k.ledger, before) && ObjectsApplied(k.ledger.done, applied)
    requires k.ledger.blank == {}
    modifies k
    decreases |k.script|, cat.depth(c), 1
    ensures r == Ok ==> Founded(cat, have, x)
    ensures Grounded(cat, have, k.records)
    ensures Building(cat, k.records, k.ledger) && Added(l0, k.ledger, entered) && old(k.ledger.done) <= k.ledger.done
    ensures r == Ok ==> ObjectsApplied(k.ledger.done, applied + {x})
    ensures k.Valid() && Rising(cat, s0, k.records, c, entered) && Secured(k.records, c, cat.deps(c))
    ensures before <= entered
    ensures r == Ok ==> k.ledger.blank == {}
    ensures k.past + k.script == old(k.past + k.script)
    ensures |k.script| <= |old(k.script)| && old(k.faults) <= k.faults
    ensures k.faults == old(k.faults) && r != Crash ==> r == Ok
    ensures k.faults == old(k.faults) && r != Crash &&
            Exact(cat, s0, old(k.records), c, before, cat.deps(c), applied, earlier) ==>
              && Exact(cat, s0, k.records, c, entered, cat.deps(c), applied + {x}, log)
              && (AllPut(old(k.ledger.done), before - {c}) ==> AllPut(k.ledger.done, entered - {c}))
    ensures Fresh(s0, k.records, log)
    ensures Founded(cat, have, c) && Once(cat, have, c, earlier) ==> Once(cat, have, c, log)
    ensures Finishes(cat, have, n + 1, c) ==> Made(old(k.script), k.script, r) <= Calls(cat, have, n, x)
  {
    ghost var s, l, W, more := k.records, k.ledger, {}, [];
    HeightFalls(cat, have, c, x);
    ghost var at, mid;
    r, W, more, at, mid := Apply(cat, k, x, have, n);
    entered, log := before + W, earlier + more;
    AddedTwice(l0, l, k.ledger, before, W, entered);
    LogsJoin(cat, have, c, s0, s, k.records, earlier, more);
    RisingNested(cat, s0, s, k.records, c, before, x, W);
    if k.faults == old(k.faults) && r != Crash && Exact(cat, s0, s, c, before, cat.deps(c), applied, earlier) {
      SubChartApplied(cat, s0, s, k.records, c, before, applied, earlier, x, W, more);
      if AllPut(l.done, before - {c}) {
        AllPutTogether(l.done, k.ledger.done, c, before, W);
      }
    }
  }
}
