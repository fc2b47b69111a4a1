/** Deleting a chart and releasing, or also deleting, what it depends on
    (pkg/kdo/chart.go:437-446, 525-578, pkg/kdo/dependency.go:138-161). */
module Deletion {
  import opened Faults
  import opened References
  import opened Store
  import opened Charts
  import opened Ledgers

  /** What holds all along the deletion of c once its record is gone, whatever fails. */
  ghost predicate Ongoing(cat: Catalog, s0: State, s: State, recursive: bool, c: Genus, V: set<Genus>) {
    && Sound(cat, s)
    && c !in s
    && c in V
    && Shrunk(s0, s, V)
    && DeleteWithin(cat, s0, recursive, c, V)
  }

  /** What holds as well as long as nothing has failed. */
  ghost predicate Clean(cat: Catalog, s0: State, s: State, recursive: bool, c: Genus, V: set<Genus>, done: set<Genus>) {
    SubChartsUnshared(cat, s, recursive, c) && Deleting(cat, s0, s, recursive, c, V, done, {})
  }

  lemma {:induction false} OngoingNested(cat: Catalog, s0: State, s: State, s': State, recursive: bool, c: Genus,
      V: set<Genus>, x: Genus, W: set<Genus>)
    requires Ongoing(cat, s0, s, recursive, c, V)
    requires Sound(cat, s') && Shrunk(s, s', W + {c}) && DeleteWithin(cat, s, recursive, x, W)
    requires x == c || x in cat.subs(c)
    ensures Ongoing(cat, s0, s', recursive, c, V + W)
  {
    ShrunkTwice(s0, s, s', V, W + {c});
    assert V + (W + {c}) == V + W && V + {c} == V;
    WithinNested(cat, s0, s, recursive, c, V, x, W);
  }

  lemma {:induction false} RecordRemoved(cat: Catalog, s: State, recursive: bool, c: Genus)
    requires Sound(cat, s) && (c in s ==> Unused(s, c))
    ensures Sound(cat, s - {c})
    ensures Shrunk(s, s - {c}, {c})
    ensures DeleteWithin(cat, s, recursive, c, {c})
    ensures Deleting(cat, s, s - {c}, recursive, c, {c}, {}, {})
    ensures SubChartsUnshared(cat, s, recursive, c) ==> SubChartsUnshared(cat, s - {c}, recursive, c)
  {
    var s' := s - {c};
    assert forall u, g :: Uses(s', u, g) <==> Uses(s, u, g);
    assert {c} + {c} == {c};
    if SubChartsUnshared(cat, s, recursive, c) {
      UnsharedShrunk(cat, s, s', recursive, c, c, {c});
    }
  }

  lemma {:induction false} UserReleased(cat: Catalog, s: State, recursive: bool, c: Genus, d: Genus)
    requires Sound(cat, s) && c !in s && d in cat.deps(c)
    ensures Sound(cat, Released1(s, c, d)) && Shrunk(s, Released1(s, c, d), {c})
    ensures SubChartsUnshared(cat, s, recursive, c) && recursive && Unused(Released1(s, c, d), d) ==>
              SubChartsUnshared(cat, Released1(s, c, d), recursive, d)
  {
    var s' := Released1(s, c, d);
    assert forall u, g :: Uses(s', u, g) <==> Uses(s, u, g) && !(u == c && g == d);
    if SubChartsUnshared(cat, s, recursive, c) && recursive && Unused(s', d) {
      assert {} + {c} == {c};
      UnsharedShrunk(cat, s, s', recursive, c, c, {});
      UnsharedBelow(cat, s', recursive, c, d);
    }
  }

  lemma {:induction false} DependencyReleased(cat: Catalog, s: State, s1: State, s': State, recursive: bool, c: Genus,
      d: Genus, W: set<Genus>)
    requires Shrunk(s, s1, {c}) && Shrunk(s1, s', W) && DeleteWithin(cat, s1, recursive, d, W)
    requires W == {} || (recursive && d in cat.deps(c) && Unused(s1, d))
    ensures Shrunk(s, s', W + {c}) && DeleteWithin(cat, s, recursive, c, W)
  {
    ShrunkTwice(s, s1, s', {c}, W);
    assert {c} + W == W + {c} && {} + W == W;
    WithinNested(cat, s, s1, recursive, c, {}, d, W);
  }

  /** Neither the sub-charts of c nor, in a recursive delete, its unused dependencies reach a shared sub-chart. */
  lemma {:induction false} UnsharedBelow(cat: Catalog, s: State, recursive: bool, c: Genus, x: Genus)
    requires SubChartsUnshared(cat, s, recursive, c)
    requires x in cat.subs(c) || (recursive && x in cat.deps(c) && Unused(s, x))
    ensures SubChartsUnshared(cat, s, recursive, x)
    ensures x in cat.subs(c) && x in s ==> Unused(s, x)
  {
    var K: set<Genus> :| c in K && DeleteClosed(cat, s, recursive, K) && SubChartsUnused(cat, s, K);
    assert x in K;
    forall u | x in cat.subs(c) && x in s
      ensures u !in s[x]
    {
      assert !Uses(s, u, x);
    }
  }

  /** Deletes one chart. `visited` are the charts whose own deletion got past the reference check. */
  method Delete(cat: Catalog, k: Cluster, c: Genus, recursive: bool, ghost rest: set<Genus>)
    returns (r: Reply, ghost visited: set<Genus>)
    requires cat.Loadable() && k.Valid() && Sound(cat, k.records) && k.records.Keys - {c} <= rest
    requires Clearing(cat, k.records, k.ledger)
    modifies k
    decreases rest, cat.depth(c), 5
    ensures k.past + k.script == old(k.past + k.script)
    ensures |k.script| <= |old(k.script)| && Made(old(k.script), k.script, r) <= DeleteCalls(cat, rest, c)
    ensures r == Crash || |k.script| < |old(k.script)|
    ensures k.Valid() && Sound(cat, k.records)
    ensures Shrunk(old(k.records), k.records, visited)
    ensures DeleteWithin(cat, old(k.records), recursive, c, visited)
    ensures Clearing(cat, k.records, k.ledger) && Taken(old(k.ledger), k.ledger, visited)
    ensures r == Ok ==> GoneBelow(cat, k.records, k.ledger.done, c)
    ensures Fewer(old(k.records), k.records)
    ensures c in old(k.records) && !Unused(old(k.records), c) ==>
            r != Ok && k.records == old(k.records) && visited == {}
    ensures old(k.faults) <= k.faults
    ensures
      && k.faults == old(k.faults) && SubChartsUnshared(cat, old(k.records), recursive, c) && r != Crash
      && (c in old(k.records) ==> Unused(old(k.records), c))
      ==> r == Ok && Deleted(cat, old(k.records), k.records, recursive, c, visited) &&
          AllDropped(k.ledger.done, visited)
  {
    var references;
    visited := {};
    Cleared(cat, k.records, k.ledger, Count(c), k.script, c);
    r, references := k.CountReferences(c);
    ghost var l := k.ledger;
    if r != Ok {
      return;
    }
    if references > 0 {
      return Err, {};
    }
    r, visited := DeleteUnused(cat, k, c, recursive, rest);
    TakenTwice(old(k.ledger), l, k.ledger, {}, visited, visited);
  }

  /** Deletes the record of a chart without users, and then everything else. */
  method DeleteUnused(cat: Catalog, k: Cluster, c: Genus, recursive: bool, ghost rest: set<Genus>)
    returns (r: Reply, ghost visited: set<Genus>)
    requires cat.Loadable() && k.Valid() && Sound(cat, k.records) && (c in k.records ==> Unused(k.records, c))
    requires k.records.Keys - {c} <= rest
    requires Clearing(cat, k.records, k.ledger) && Count(c) in k.ledger.done
    modifies k
    decreases rest, cat.depth(c), 4
    ensures k.Valid() && Sound(cat, k.records)
    ensures Shrunk(old(k.records), k.records, visited)
    ensures DeleteWithin(cat, old(k.records), recursive, c, visited)
    ensures Clearing(cat, k.records, k.ledger) && Taken(old(k.ledger), k.ledger, visited)
    ensures r == Ok ==> GoneBelow(cat, k.records, k.ledger.done, c)
    ensures Fewer(old(k.records), k.records)
    ensures old(k.faults) <= k.faults
    ensures k.faults == old(k.faults) && SubChartsUnshared(cat, old(k.records), recursive, c) && r != Crash ==>
              r == Ok && Deleted(cat, old(k.records), k.records, recursive, c, visited) &&
                  AllDropped(k.ledger.done, visited)
    ensures k.past + k.script == old(k.past + k.script)
    ensures |k.script| <= |old(k.script)| && Made(old(k.script), k.script, r) < DeleteCalls(cat, rest, c)
  {
    ghost var s0 := k.records;
    RecordRemoved(cat, s0, recursive, c);
    visited := {c};
    r := DropRecordAndSecret(cat, k, c);
    ghost var l := k.ledger;
    if r != Ok {
      return;
    }
    r, visited := TakeDown(cat, k, c, recursive, rest, s0);
    TakenTwice(old(k.ledger), l, k.ledger, {c}, visited, visited);
  }

  /** Deletes the config map of c and then its secret. */
  method DropRecordAndSecret(cat: Catalog, k: Cluster, c: Genus) returns (r: Reply)
    requires k.Valid() && Clearing(cat, k.records, k.ledger) && Count(c) in k.ledger.done
    modifies k
    ensures k.Valid() && (k.records == old(k.records) - {c} || k.records == old(k.records))
    ensures Clearing(cat, k.records, k.ledger) && Taken(old(k.ledger), k.ledger, {c})
    ensures r == Ok ==> k.records == old(k.records) - {c} && DropSecret(c) in k.ledger.done
    ensures k.past + k.script == old(k.past + k.script)
    ensures old(k.faults) <= k.faults && (k.faults == old(k.faults) ==> r != Err)
    ensures |k.script| <= |old(k.script)| && Made(old(k.script), k.script, r) <= 2
    ensures Completes(old(k.script), 2) ==> r == Ok && |k.past| == |old(k.past)| + 2
  {
    ghost var s := k.records;
    Cleared(cat, s, k.ledger, DropRecord(c), k.script, c);
    r := k.DeleteByName(c);
    if r == Ok {
      StillClearing(cat, s, k.records, k.ledger, c);
      Cleared(cat, k.records, k.ledger, DropSecret(c), k.script, c);
      r := k.Act(DropSecret(c));
    } else {
      StillClearing(cat, s, k.records, k.ledger, c);
    }
  }

  /** Deletes the sub-charts of c, its own objects, and its references. */
  method TakeDown(cat: Catalog, k: Cluster, c: Genus, recursive: bool, ghost rest: set<Genus>, ghost s0: State)
    returns (r: Reply, ghost visited: set<Genus>)
    requires cat.Loadable() && k.Valid() && Ongoing(cat, s0, k.records, recursive, c, {c}) && k.records.Keys <= rest
    requires Sound(cat, s0)
    requires Clearing(cat, k.records, k.ledger) && DropSecret(c) in k.ledger.done
    modifies k
    decreases rest, cat.depth(c), 3
    ensures k.Valid() && Ongoing(cat, s0, k.records, recursive, c, visited)
    ensures Clearing(cat, k.records, k.ledger) && Taken(old(k.ledger), k.ledger, visited)
    ensures r == Ok ==> GoneBelow(cat, k.records, k.ledger.done, c)
    ensures Fewer(old(k.records), k.records)
    ensures old(k.faults) <= k.faults
    ensures k.faults == old(k.faults) && Clean(cat, s0, old(k.records), recursive, c, {c}, {}) && r != Crash ==>
              r == Ok && Deleted(cat, s0, k.records, recursive, c, visited) && AllDropped(k.ledger.done, visited)
    ensures k.past + k.script == old(k.past + k.script)
    ensures |k.script| <= |old(k.script)| && Made(old(k.script), k.script, r) < DeleteCalls(cat, rest, c) - 2
  {
    ghost var clean := Clean(cat, s0, k.records, recursive, c, {c}, {});
    r, visited := DeleteSubCharts(cat, k, c, recursive, rest, s0, {c});
    if r != Ok {
      return;
    }
    ghost var s, l, before := k.records, k.ledger, visited;
    ObjectsCleared(cat, s, l, k.script, c);
    r := k.Act(DropObjects(c));
    TakenTwice(old(k.ledger), l, k.ledger, visited, {c}, visited);
    if r != Ok {
      return;
    }
    ghost var l' := k.ledger;
    r, visited := DeleteDependencies(cat, k, c, recursive, rest, s0, visited);
    TakenTwice(old(k.ledger), l', k.ledger, before, visited, visited);
    if r == Ok {
      GoneAtLast(cat, s, k.records, l.done, k.ledger.done, c);
    }
    if clean && k.faults == old(k.faults) && r != Crash {
      DeletingFinished(cat, s0, k.records, recursive, c, visited);
    }
  }

  /** Deletes the sub-charts of c, in any order. */
  method DeleteSubCharts(cat: Catalog, k: Cluster, c: Genus, recursive: bool, ghost rest: set<Genus>, ghost s0: State,
      ghost before: set<Genus>)
    returns (r: Reply, ghost visited: set<Genus>)
    requires cat.Loadable() && k.Valid() && Ongoing(cat, s0, k.records, recursive, c, before) && k.records.Keys <= rest
    requires Clearing(cat, k.records, k.ledger)
    modifies k
    decreases rest, cat.depth(c), 2
    ensures k.past + k.script == old(k.past + k.script)
    ensures |k.script| <= |old(k.script)| &&
            Made(old(k.script), k.script, r) <= SubDeletes(cat, rest, cat.depth(c), cat.subs(c))
    ensures k.Valid() && Ongoing(cat, s0, k.records, recursive, c, visited)
    ensures Fewer(old(k.records), k.records)
    ensures Clearing(cat, k.records, k.ledger) && Taken(old(k.ledger), k.ledger, visited)
    ensures r == Ok ==> AllGone(cat, k.records, k.ledger.done, cat.subs(c))
    ensures old(k.faults) <= k.faults
    ensures k.faults == old(k.faults) && r != Crash && Clean(cat, s0, old(k.records), recursive, c, before, {}) ==>
              && r == Ok && cat.subs(c) <= visited && Clean(cat, s0, k.records, recursive, c, visited, {})
              && AllDropped(k.ledger.done, visited - before)
  {
    r, visited := Ok, before;
    ghost var clean := Clean(cat, s0, k.records, recursive, c, before, {});
    var todo := cat.subs(c);
    ghost var done := {};
    while todo != {} && r == Ok
      invariant k.Valid() && Ongoing(cat, s0, k.records, recursive, c, visited)
      invariant Clearing(cat, k.records, k.ledger) && Taken(old(k.ledger), k.ledger, visited)
      invariant Fewer(old(k.records), k.records)
      invariant done + todo == cat.subs(c)
      invariant k.past + k.script == old(k.past + k.script)
      invariant |k.script| <= |old(k.script)| &&
        Made(old(k.script), k.script, r) +
            SubDeletes(cat, rest, cat.depth(c), todo) <= SubDeletes(cat, rest, cat.depth(c), cat.subs(c))
      invariant r == Ok ==> AllGone(cat, k.records, k.ledger.done, done)
      invariant old(k.faults) <= k.faults
      invariant clean && k.faults == old(k.faults) && r != Crash ==>
                && r == Ok && done <= visited && Clean(cat, s0, k.records, recursive, c, visited, {})
                && AllDropped(k.ledger.done, visited - before)
      decreases |todo|
    {
      var x :| x in todo;
      SubDeletesPick(cat, rest, cat.depth(c), todo, x);
      r, visited := DeleteSubChart(cat, k, c, x, recursive, rest, s0, visited, done, before, old(k.records),
          old(k.ledger));
      OneDone(done, todo, x);
      todo, done := todo - {x}, done + {x};
    }
    if r == Ok {
      assert done == cat.subs(c);
    }
  }

  method DeleteSubChart(cat: Catalog, k: Cluster, c: Genus, x: Genus, recursive: bool, ghost rest: set<Genus>,
      ghost s0: State, ghost before: set<Genus>, ghost done: set<Genus>, ghost first: set<Genus>, ghost s1: State,
      ghost l1: Ledger)
    returns (r: Reply, ghost visited: set<Genus>)
    requires cat.Loadable() && k.Valid() && Ongoing(cat, s0, k.records, recursive, c, before) && x in cat.subs(c)
    requires k.records.Keys <= rest
    requires Clearing(cat, k.records, k.ledger) && AllGone(cat, k.records, k.ledger.done, done)
    requires Taken(l1, k.ledger, before) && Fewer(s1, k.records)
    modifies k
    decreases rest, cat.depth(c), 1
    ensures k.past + k.script == old(k.past + k.script)
    ensures |k.script| <= |old(k.script)| && Made(old(k.script), k.script, r) <= DeleteCalls(cat, rest, x)
    ensures k.Valid() && Ongoing(cat, s0, k.records, recursive, c, visited)
    ensures Clearing(cat, k.records, k.ledger) && Taken(l1, k.ledger, visited)
    ensures before <= visited && Fewer(s1, k.records) && k.records.Keys <= old(k.records.Keys)
    ensures r == Ok ==> AllGone(cat, k.records, k.ledger.done, done + {x})
    ensures old(k.faults) <= k.faults
    ensures k.faults == old(k.faults) && r != Crash && Clean(cat, s0, old(k.records), recursive, c, before, {}) ==>
              && r == Ok && x in visited && Clean(cat, s0, k.records, recursive, c, visited, {})
              && (AllDropped(old(k.ledger.done), before - first) ==> AllDropped(k.ledger.done, visited - first))
  {
    ghost var s, l, W := k.records, k.ledger, {};
    ghost var clean := Clean(cat, s0, s, recursive, c, before, {});
    if clean {
      UnsharedBelow(cat, s, recursive, c, x);
    }
    r, W := Delete(cat, k, x, recursive, rest);
    visited := before + W;
    StepSubChart(cat, s0, s, k.records, recursive, c, before, x, W, clean && k.faults == old(k.faults) && r == Ok);
    FewerTwice(s1, s, k.records);
    TakenTwice(l1, l, k.ledger, before, W, visited);
    if r == Ok {
      StillGone(cat, s, k.records, l.done, k.ledger.done, done);
      if AllDropped(l.done, before - first) && AllDropped(k.ledger.done, W) {
        AllDroppedTogether(l.done, k.ledger.done, first, before, W);
      }
    }
  }

  lemma {:induction false} UnsharedShrunk(cat: Catalog, s: State, s': State, recursive: bool, c: Genus, x: Genus,
      W: set<Genus>)
    requires SubChartsUnshared(cat, s, recursive, c) && Shrunk(s, s', W + {c})
    requires DeleteWithin(cat, s, recursive, x, W) && (x == c || x in cat.subs(c))
    ensures SubChartsUnshared(cat, s', recursive, c)
  {
    var K: set<Genus> :| c in K && DeleteClosed(cat, s, recursive, K) && SubChartsUnused(cat, s, K);
    StillClosed(cat, s, s', recursive, W + {c}, K);
    assert SubChartsUnused(cat, s', K);
  }

  lemma {:induction false} StepDependency(cat: Catalog, s0: State, s: State, s': State, recursive: bool, c: Genus,
      V: set<Genus>, done: set<Genus>, d: Genus, W: set<Genus>, clean: bool)
    requires Ongoing(cat, s0, s, recursive, c, V)
    requires Sound(cat, s') && Shrunk(s, s', W + {c}) && DeleteWithin(cat, s, recursive, c, W)
    requires clean ==> Clean(cat, s0, s, recursive, c, V, done) && Released(cat, s, s', recursive, c, d, W)
    ensures Ongoing(cat, s0, s', recursive, c, V + W)
    ensures clean ==> Clean(cat, s0, s', recursive, c, V + W, done + {d})
  {
    OngoingNested(cat, s0, s, s', recursive, c, V, c, W);
    if clean {
      DeletingDependency(cat, s0, s, s', recursive, c, V, done, d, W);
      UnsharedShrunk(cat, s, s', recursive, c, c, W);
    }
  }

  lemma {:induction false} StepSubChart(cat: Catalog, s0: State, s: State, s': State, recursive: bool, c: Genus,
      V: set<Genus>, x: Genus, W: set<Genus>, clean: bool)
    requires Ongoing(cat, s0, s, recursive, c, V)
    requires Sound(cat, s') && Shrunk(s, s', W) && DeleteWithin(cat, s, recursive, x, W) && x in cat.subs(c)
    requires clean ==> Clean(cat, s0, s, recursive, c, V, {}) && Deleted(cat, s, s', recursive, x, W)
    ensures Ongoing(cat, s0, s', recursive, c, V + W)
    ensures clean ==> Clean(cat, s0, s', recursive, c, V + W, {})
  {
    assert Shrunk(s, s', W + {c});
    OngoingNested(cat, s0, s, s', recursive, c, V, x, W);
    if clean {
      DeletingNested(cat, s0, s, s', recursive, c, V, {}, {}, x, W);
      UnsharedShrunk(cat, s, s', recursive, c, x, W);
    }
  }

  /** Releases the dependencies of c, in any order. */
  method DeleteDependencies(cat: Catalog, k: Cluster, c: Genus, recursive: bool, ghost rest: set<Genus>,
      ghost s0: State, ghost before: set<Genus>)
    returns (r: Reply, ghost visited: set<Genus>)
    requires cat.Loadable() && k.Valid() && Ongoing(cat, s0, k.records, recursive, c, before) && k.records.Keys <= rest
    requires Clearing(cat, k.records, k.ledger) && DropObjects(c) in k.ledger.done
    modifies k
    decreases rest, cat.depth(c), 2
    ensures k.past + k.script == old(k.past + k.script)
    ensures |k.script| <= |old(k.script)| && Made(old(k.script), k.script, r) <= Releases(cat, rest, cat.deps(c))
    ensures k.Valid() && Ongoing(cat, s0, k.records, recursive, c, visited)
    ensures Clearing(cat, k.records, k.ledger) && Taken(old(k.ledger), k.ledger, visited)
    ensures before <= visited && Fewer(old(k.records), k.records)
    ensures r == Ok ==> ReleasedAll(cat, k.records, k.ledger.done, c, cat.deps(c))
    ensures old(k.faults) <= k.faults
    ensures k.faults == old(k.faults) && r != Crash && Clean(cat, s0, old(k.records), recursive, c, before, {}) ==>
              && r == Ok && Clean(cat, s0, k.records, recursive, c, visited, cat.deps(c))
              && AllDropped(k.ledger.done, visited - before)
  {
    r, visited := Ok, before;
    ghost var clean := Clean(cat, s0, k.records, recursive, c, before, {});
    var todo := cat.deps(c);
    ghost var done := {};
    while todo != {} && r == Ok
      invariant k.Valid() && Ongoing(cat, s0, k.records, recursive, c, visited)
      invariant Clearing(cat, k.records, k.ledger) && Taken(old(k.ledger), k.ledger, visited)
      invariant Fewer(old(k.records), k.records)
      invariant r == Ok ==> ReleasedAll(cat, k.records, k.ledger.done, c, done)
      invariant done + todo == cat.deps(c) && before <= visited
      invariant k.past + k.script == old(k.past + k.script)
      invariant |k.script| <= |old(k.script)| &&
        Made(old(k.script), k.script, r) + Releases(cat, rest, todo) <= Releases(cat, rest, cat.deps(c))
      invariant old(k.faults) <= k.faults
      invariant clean && k.faults == old(k.faults) && r != Crash ==>
                && r == Ok && Clean(cat, s0, k.records, recursive, c, visited, done)
                && AllDropped(k.ledger.done, visited - before)
      decreases |todo|
    {
      var d :| d in todo;
      ReleasesPick(cat, rest, todo, d);
      r, visited := DeleteDependency(cat, k, c, d, recursive, rest, s0, visited, done, before, old(k.records),
          old(k.ledger));
      OneDone(done, todo, d);
      todo, done := todo - {d}, done + {d};
    }
    assert todo == {} ==> done == cat.deps(c);
  }

  /** Gives up the reference of c on d, and deletes d when c was its last user. Whatever becomes
      of the nested deletion is ignored. */
  method DeleteDependency(cat: Catalog, k: Cluster, c: Genus, d: Genus, recursive: bool, ghost rest: set<Genus>,
      ghost s0: State, ghost before: set<Genus>, ghost done: set<Genus>, ghost first: set<Genus>, ghost s1: State,
      ghost l1: Ledger)
    returns (r: Reply, ghost visited: set<Genus>)
    requires cat.Loadable() && k.Valid() && Ongoing(cat, s0, k.records, recursive, c, before) && d in cat.deps(c)
    requires k.records.Keys <= rest
    requires Clearing(cat, k.records, k.ledger) && DropObjects(c) in k.ledger.done
    requires ReleasedAll(cat, k.records, k.ledger.done, c, done)
    requires Taken(l1, k.ledger, before) && Fewer(s1, k.records)
    modifies k
    decreases rest, cat.depth(c), 1
    ensures k.past + k.script == old(k.past + k.script)
    ensures |k.script| <= |old(k.script)| && Made(old(k.script), k.script, r) <= ReleaseCalls(cat, rest, d)
    ensures k.Valid() && Ongoing(cat, s0, k.records, recursive, c, visited)
    ensures Clearing(cat, k.records, k.ledger) && Taken(l1, k.ledger, visited)
    ensures before <= visited && Fewer(s1, k.records) && k.records.Keys <= old(k.records.Keys)
    ensures r == Ok ==> ReleasedAll(cat, k.records, k.ledger.done, c, done + {d})
    ensures old(k.faults) <= k.faults
    ensures k.faults == old(k.faults) && r != Crash && Clean(cat, s0, old(k.records), recursive, c, before, done) ==>
              && r == Ok && Clean(cat, s0, k.records, recursive, c, visited, done + {d})
              && (AllDropped(old(k.ledger.done), before - first) ==> AllDropped(k.ledger.done, visited - first))
  {
    ghost var s, l, W := k.records, k.ledger, {};
    ghost var clean := Clean(cat, s0, s, recursive, c, before, done);
    r, W := Release(cat, k, c, d, recursive, rest);
    visited := before + W;
    StepDependency(cat, s0, s, k.records, recursive, c, before, done, d, W, clean && k.faults == old(k.faults) &&
        r != Crash);
    FewerTwice(s1, s, k.records);
    TakenTwice(l1, l, k.ledger, before, W, visited);
    if r == Ok {
      StillReleased(cat, s, k.records, l.done, k.ledger.done, c, done, d);
      if AllDropped(l.done, before - first) && AllDropped(k.ledger.done, W) {
        AllDroppedTogether(l.done, k.ledger.done, first, before, W);
      }
    }
  }

  /** Finds the dependency and releases it. */
  method Release(cat: Catalog, k: Cluster, c: Genus, d: Genus, recursive: bool, ghost rest: set<Genus>)
    returns (r: Reply, ghost visited: set<Genus>)
    requires cat.Loadable() && k.Valid() && Sound(cat, k.records)
    requires c !in k.records && d in cat.deps(c) && k.records.Keys <= rest
    requires Clearing(cat, k.records, k.ledger) && DropObjects(c) in k.ledger.done
    modifies k
    decreases rest, cat.depth(c), 0
    ensures k.Valid() && Sound(cat, k.records) && c !in k.records
    ensures Clearing(cat, k.records, k.ledger) && Taken(old(k.ledger), k.ledger, visited)
    ensures Fewer(old(k.records), k.records)
    ensures r == Ok ==> ReleasedAll(cat, k.records, k.ledger.done, c, {d})
    ensures Shrunk(old(k.records), k.records, visited + {c})
    ensures DeleteWithin(cat, old(k.records), recursive, c, visited)
    ensures old(k.faults) <= k.faults && k.past + k.script == old(k.past + k.script)
    ensures k.faults == old(k.faults) && SubChartsUnshared(cat, old(k.records), recursive, c) && r != Crash ==>
              r == Ok && Released(cat, old(k.records), k.records, recursive, c, d, visited) &&
                  AllDropped(k.ledger.done, visited)
    ensures |k.script| <= |old(k.script)| && Made(old(k.script), k.script, r) <= ReleaseCalls(cat, rest, d)
  {
    visited := {};
    var found;
    Cleared(cat, k.records, k.ledger, Find(d), k.script, c);
    r, found := k.List(d);
    ghost var l := k.ledger;
    if r == Ok && found {
      r, visited := ReleaseFound(cat, k, c, d, recursive, rest);
      TakenTwice(old(k.ledger), l, k.ledger, {}, visited, visited);
    }
  }

  /** Removes the reference on a recorded dependency. */
  method GiveUp(cat: Catalog, k: Cluster, c: Genus, d: Genus) returns (r: Reply, references: nat)
    requires k.Valid() && d in k.records
    requires Clearing(cat, k.records, k.ledger) && DropObjects(c) in k.ledger.done && Find(d) in k.ledger.done
    modifies k
    ensures k.Valid() && k.records.Keys == old(k.records).Keys
    ensures k.records == old(k.records) || k.records == Released1(old(k.records), c, d)
    ensures Clearing(cat, k.records, k.ledger) && Taken(old(k.ledger), k.ledger, {})
    ensures r == Ok ==> k.records == Released1(old(k.records), c, d)
    ensures r == Ok ==> Find(d) in k.ledger.done && Unregister(c, d) in k.ledger.done
    ensures Unused(k.records, d) || r == Err ==> references == 0
    ensures Consumes(old(k.script), k.script, r) && k.past + k.script == old(k.past + k.script)
    ensures old(k.faults) <= k.faults && (k.faults == old(k.faults) ==> r != Err)
  {
    Cleared(cat, k.records, k.ledger, Unregister(c, d), k.script, c);
    r, references := k.RemoveUsedBy(d, c);
  }

  /** Removes the reference on a recorded dependency, which is deleted when no reference is reported any more. */
  method ReleaseFound(cat: Catalog, k: Cluster, c: Genus, d: Genus, recursive: bool, ghost rest: set<Genus>)
    returns (r: Reply, ghost visited: set<Genus>)
    requires cat.Loadable() && k.Valid() && Sound(cat, k.records)
    requires c !in k.records && d in cat.deps(c) && d in k.records && k.records.Keys <= rest
    requires Clearing(cat, k.records, k.ledger) && DropObjects(c) in k.ledger.done && Find(d) in k.ledger.done
    modifies k
    decreases rest - {d}, cat.depth(d), 6
    ensures k.Valid() && Sound(cat, k.records) && c !in k.records
    ensures Clearing(cat, k.records, k.ledger) && Taken(old(k.ledger), k.ledger, visited)
    ensures Fewer(old(k.records), k.records)
    ensures r == Ok ==> ReleasedAll(cat, k.records, k.ledger.done, c, {d})
    ensures Shrunk(old(k.records), k.records, visited + {c})
    ensures DeleteWithin(cat, old(k.records), recursive, c, visited)
    ensures old(k.faults) <= k.faults && k.past + k.script == old(k.past + k.script)
    ensures k.faults == old(k.faults) && SubChartsUnshared(cat, old(k.records), recursive, c) && r != Crash ==>
              r == Ok && Released(cat, old(k.records), k.records, recursive, c, d, visited) &&
                  AllDropped(k.ledger.done, visited)
    ensures |k.script| <= |old(k.script)| && Made(old(k.script), k.script, r) <= 1 + DeleteCalls(cat, rest - {d}, d)
    // The patch alone decides: whatever becomes of the nested delete is ignored.
    ensures r != Crash ==> old(k.script) != [] && (r == Ok <==> old(k.script)[0] == Done)
    // A patch that fails reports no references, and the nested delete is tried.
    ensures recursive && old(k.script) != [] && old(k.script)[0] != Done ==>
            r == Crash || |k.script| < |old(k.script)| - 1
  {
    ghost var s := k.records;
    visited := {};
    var references;
    UserReleased(cat, s, recursive, c, d);
    r, references := GiveUp(cat, k, c, d);
    ghost var s1, l := k.records, k.ledger;
    if r != Crash && recursive && references == 0 {
      var q;
      q, visited := Delete(cat, k, d, recursive, rest - {d});
      TakenTwice(old(k.ledger), l, k.ledger, {}, visited, visited);
      r := if q == Crash then Crash else r;
    }
    DependencyReleased(cat, s, s1, k.records, recursive, c, d, visited);
    ReleasedAfter(cat, s, s1, k.records, l.done, k.ledger.done, c, d);
  }
}
