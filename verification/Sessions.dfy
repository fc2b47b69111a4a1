/** Whole histories of apply and delete runs against one cluster (cmd/apply.go:36-47, cmd/delete.go:33-44). */
module Sessions {
  import opened Faults
  import opened References
  import opened Store
  import opened Charts
  import opened Ledgers
  import opened Deletion
  import opened Installation

  datatype Command = ApplyChart(genus: Genus) | DeleteChart(genus: Genus, recursive: bool)

  /** One run: a command, and how each of its calls ends; a short script is a crash. */
  datatype Run = Run(command: Command, script: seq<Outcome>)

  /** The cluster between two runs. */
  datatype Moment = Moment(records: State, things: set<Thing>)

  /** References are complete, and the objects of every recorded chart are there. */
  ghost predicate Intact(cat: Catalog, m: Moment) {
    Sound(cat, m.records) && Backed(m.records, m.things)
  }

  /** What one apply of c did, V being the charts it entered. */
  ghost predicate Applied(cat: Catalog, c: Genus, script: seq<Outcome>, m: Moment, r: Reply, m': Moment,
      V: set<Genus>) {
    var (s, s') := (m.records, m'.records);
    // Whatever fails, nothing is lost, and only charts in V are new or have new references.
    && Grown(s, s', V) && ApplyWithin(cat, s, c, V)
    && m.things <= m'.things && (forall x :: x in m'.things && x !in m.things ==> x.genus in V)
    // After a success the objects of the chart and of all sub-charts in it are there.
    && (cat.Loadable() && r == Ok ==> forall x :: x in WithSubCharts(cat, c) ==> Objects(x) in m'.things)
    // Whatever fails, there is no success for what goes round in circles, and none with a missing reference.
    && (r == Ok ==> Founded(cat, s.Keys, c) && Secured(s', c, cat.deps(c)))
    // Without failures, it comes to an end if and only if what c needs does not go round in circles.
    && (Founded(cat, s.Keys, c) && |script| >= EnoughToApply(cat, s, c) ==> r != Crash)
    && (!Founded(cat, s.Keys, c) && AllDone(script) ==> r == Crash)
    // Then exactly what is needed is recorded, and exactly its objects and secrets are new.
    && (NothingFails(script, EnoughFor(cat, s, c, script)) && r != Crash ==>
          r == Ok && Needed(cat, s, c, V) && Installed(cat, s, s', c, V) && ThingsAdded(m.things, m'.things, V))
  }

  ghost function EnoughToApply(cat: Catalog, s: State, c: Genus): nat {
    Calls(cat, s.Keys, Height(cat, s.Keys, c), c)
  }

  ghost function EnoughFor(cat: Catalog, s: State, c: Genus, script: seq<Outcome>): nat {
    if Founded(cat, s.Keys, c) then EnoughToApply(cat, s, c) else |script|
  }

  /** None of the first n calls fails, as far as there are so many. */
  ghost predicate NothingFails(script: seq<Outcome>, n: nat) {
    AllDone(script) || Completes(script, n)
  }

  /** What one delete of c did, V being the charts that got past the reference check. */
  ghost predicate Removed(cat: Catalog, c: Genus, recursive: bool, script: seq<Outcome>, m: Moment, r: Reply,
      m': Moment, V: set<Genus>) {
    var (s, s') := (m.records, m'.records);
    // Whatever fails, nothing outside of V is touched, and nothing that is used from outside of V is gone.
    && Shrunk(s, s', V) && DeleteWithin(cat, s, recursive, c, V)
    && m'.things <= m.things && (forall x :: x in m.things && x !in m'.things ==> x.genus in V)
    // A chart that is used is left alone.
    && (c in s && s[c] != {} ==> r != Ok && m' == m)
    // After a success nothing is left of the chart and of any sub-chart in it.
    && (cat.Loadable() && r == Ok ==> forall x :: x in WithSubCharts(cat, c) ==> NoTrace(m', x))
    // Without failures, exactly what is doomed is gone, unless a sub-chart in reach is used.
    && (cat.Loadable() && NothingFails(script, DeleteCalls(cat, s.Keys - {c}, c)) && r != Crash &&
        SubChartsUnshared(cat, s, recursive, c) && (c in s ==> s[c] == {}) ==>
          r == Ok && Doomed(cat, s, recursive, c, V) && Without(s, s', V) && ThingsGone(m.things, m'.things, V))
    // It always comes to an end.
    && (cat.Loadable() && |script| >= DeleteCalls(cat, s.Keys - {c}, c) ==> r != Crash)
  }

  /** Neither record nor reference, neither objects nor secret. */
  ghost predicate NoTrace(m: Moment, x: Genus) {
    x !in m.records && Objects(x) !in m.things && Secret(x) !in m.things && forall g :: !Uses(m.records, x, g)
  }

  ghost predicate Ran(cat: Catalog, run: Run, m: Moment, r: Reply, m': Moment) {
    match run.command
    case ApplyChart(c) => exists V: set<Genus> :: Applied(cat, c, run.script, m, r, m', V)
    case DeleteChart(c, recursive) => exists V: set<Genus> :: Removed(cat, c, recursive, run.script, m, r, m', V)
  }

  ghost function Now(k: Cluster): Moment
    reads k
  {
    Moment(k.records, k.ledger.things)
  }

  /** Whatever fails and wherever a run dies, no chart is ever recorded without its objects being there, and all its
      dependencies being recorded and naming it as a user. A run that dies at any call leaves exactly the state of
      the run with the shorter script, so this covers every intermediate state as well. */
  method Session(cat: Catalog, runs: seq<Run>) returns (k: Cluster, replies: seq<Reply>, ghost trace: seq<Moment>)
    requires cat.Loadable()
    ensures fresh(k) && k.Valid() && |replies| == |runs| && |trace| == |runs| + 1
    ensures trace[0] == Moment(map[], {}) && trace[|runs|] == Now(k)
    ensures forall i :: 0 <= i < |runs| ==> Ran(cat, runs[i], trace[i], replies[i], trace[i + 1])
    ensures forall i :: 0 <= i <= |runs| ==> Intact(cat, trace[i])
  {
    k := new Cluster();
    replies, trace := [], [Now(k)];
    for i := 0 to |runs|
      invariant fresh(k) && k.Valid() && |replies| == i && |trace| == i + 1
      invariant trace[0] == Moment(map[], {}) && trace[i] == Now(k)
      invariant forall j :: 0 <= j < i ==> Ran(cat, runs[j], trace[j], replies[j], trace[j + 1])
      invariant forall j :: 0 <= j <= i ==> Intact(cat, trace[j])
    {
      var r := RunOne(cat, k, runs[i]);
      replies, trace := replies + [r], trace + [Now(k)];
    }
  }

  method RunOne(cat: Catalog, k: Cluster, run: Run) returns (r: Reply)
    requires cat.Loadable() && k.Valid() && Intact(cat, Now(k))
    modifies k
    ensures k.Valid() && Intact(cat, Now(k))
    ensures Ran(cat, run, old(Now(k)), r, Now(k))
  {
    match run.command
    case ApplyChart(c) =>
      ghost var V, log, at, mid;
      r, V, log, at, mid := RunApply(cat, k, c, run.script);
    case DeleteChart(c, recursive) =>
      ghost var V;
      r, V := RunDelete(cat, k, c, recursive, run.script);
  }

  method Begin(cat: Catalog, k: Cluster, script: seq<Outcome>)
    requires k.Valid() && Intact(cat, Now(k))
    modifies k
    ensures k.Valid() && Now(k) == old(Now(k)) && k.past == [] && k.faults == 0 && k.script == script
    ensures k.ledger == Ledger({}, old(k.ledger.things), k.records.Keys, {}, {})
    ensures Building(cat, k.records, k.ledger) && Clearing(cat, k.records, k.ledger)
  {
    k.past, k.faults, k.script, k.ledger := [], 0, script, Ledger({}, k.ledger.things, k.records.Keys, {}, {});
    NothingDone(cat, k.records, k.ledger.things);
  }

  /** Deleting a chart that nobody uses takes away exactly the least closed set around it, in
      whatever order dependencies and sub-charts are visited; deleting a used one is refused. */
  method RunDelete(cat: Catalog, k: Cluster, c: Genus, recursive: bool, script: seq<Outcome>)
    returns (r: Reply, ghost doomed: set<Genus>)
    requires cat.Loadable() && k.Valid() && Intact(cat, Now(k))
    modifies k
    ensures k.Valid() && Intact(cat, Now(k))
    ensures Removed(cat, c, recursive, script, old(Now(k)), r, Now(k), doomed)
    // The calls are made in order; those that a success rests on all ended well.
    ensures Orderly(cat, k.ledger.done) && (r == Ok ==> GoneBelow(cat, k.records, k.ledger.done, c))
    // Nothing goes whose references were not counted.
    ensures forall g :: g in old(k.records) && g !in k.records ==> Count(g) in k.ledger.done
    // No success while somebody outside the doomed set uses the chart or any sub-chart in it.
    ensures forall W: set<Genus>, x, u ::
      && Doomed(cat, old(k.records), recursive, c, W)
      && x in WithSubCharts(cat, c) && Uses(old(k.records), u, x) && u !in W
      ==> r != Ok
  {
    Begin(cat, k, script);
    ghost var m, l, n := Now(k), k.ledger, DeleteCalls(cat, k.records.Keys - {c}, c);
    r, doomed := Delete(cat, k, c, recursive, m.records.Keys - {c});
    if NothingFails(script, n) && r != Crash {
      NoFaultsYet(script, k.past, k.script, n);
    }
    DeleteEnded(cat, m, l, k.records, k.ledger, r, recursive, c, doomed);
  }

  lemma {:induction false} DeleteEnded(cat: Catalog, m: Moment, l0: Ledger, s': State, l: Ledger, r: Reply,
      recursive: bool, c: Genus, V: set<Genus>)
    requires cat.Loadable() && Clearing(cat, s', l) && Declared(cat, s') && Taken(l0, l, V) && l0.things == m.things
    requires DeleteWithin(cat, m.records, recursive, c, V)
    requires r == Ok ==> GoneBelow(cat, s', l.done, c)
    ensures r == Ok ==> forall x :: x in WithSubCharts(cat, c) ==> NoTrace(Moment(s', l.things), x)
    ensures Deleted(cat, m.records, s', recursive, c, V) ==> Doomed(cat, m.records, recursive, c, V)
    ensures AllDropped(l.done, V) ==> ThingsGone(m.things, l.things, V)
    ensures V == {} ==> l.things == m.things
  {
    if r == Ok {
      NothingLeft(cat, s', l, c);
    }
    if Deleted(cat, m.records, s', recursive, c, V) {
      DeletedIsDoomed(cat, m.records, s', recursive, c, V);
    }
    if AllDropped(l.done, V) {
      DroppedIsGone(cat, s', l0, l, V);
    }
  }

  /** Applying a chart installs exactly the least closed set around it, each dependency once. */
  method RunApply(cat: Catalog, k: Cluster, c: Genus, script: seq<Outcome>)
    returns (r: Reply, ghost needed: set<Genus>, ghost log: seq<Genus>, ghost at: nat, ghost mid: State)
    requires cat.Loadable() && k.Valid() && Intact(cat, Now(k))
    modifies k
    ensures k.Valid() && Intact(cat, Now(k))
    ensures Applied(cat, c, script, old(Now(k)), r, Now(k), needed)
    // The calls are made in order, and a success rests on the objects of the chart.
    ensures Orderly(cat, k.ledger.done) && (r == Ok ==> ApplyObjects(c) in k.ledger.done)
    // Whatever fails, nothing new is recorded before this run has applied its objects.
    ensures forall g :: g in k.records && g !in old(k.records) ==> ApplyObjects(g) in k.ledger.done
    ensures Fresh(old(k.records), k.records, log)
    ensures Founded(cat, old(k.records).Keys, c) ==> Distinct(log) && c !in log
    // After a success the record is missing exactly if the call that should have written it had no effect.
    ensures r == Ok ==> at < |script| && (c in k.records <==> c in mid || script[at] != Failed)
    ensures Grown(old(k.records), mid, needed)
  {
    Begin(cat, k, script);
    ghost var m, l0, have := Now(k), k.ledger, k.records.Keys;
    r, needed, log, at, mid := Apply(cat, k, c, have, Height(cat, have, c));
    ghost var n := EnoughFor(cat, m.records, c, script);
    if NothingFails(script, n) && r != Crash {
      NoFaultsYet(script, k.past, k.script, n);
    }
    ApplyEnded(cat, c, script, m, l0, r, Now(k), k.ledger, needed, k.script, k.faults == 0);
    assert r == Ok ==> (k.past + k.script)[at] == k.past[at];
  }

  lemma {:induction false} ApplyEnded(cat: Catalog, c: Genus, script: seq<Outcome>, m: Moment, l0: Ledger, r: Reply,
      m': Moment, l: Ledger, V: set<Genus>, rest: seq<Outcome>, clean: bool)
    requires cat.Loadable() && Building(cat, m'.records, l) && Added(l0, l, V)
    requires l0.things == m.things && l.things == m'.things
    requires Grown(m.records, m'.records, V) && ApplyWithin(cat, m.records, c, V)
    requires r == Ok ==> Founded(cat, m.records.Keys, c) && Secured(m'.records, c, cat.deps(c))
    requires r == Ok ==> ApplyObjects(c) in l.done
    requires Founded(cat, m.records.Keys, c) ==> Made(script, rest, r) <= EnoughToApply(cat, m.records, c)
    requires clean && r != Crash ==> r == Ok && Installed(cat, m.records, m'.records, c, V) && AllPut(l.done, V)
    requires NothingFails(script, EnoughFor(cat, m.records, c, script)) && r != Crash ==> clean
    ensures Applied(cat, c, script, m, r, m', V)
  {
    if r == Ok {
      AllApplied(cat, l.done, c);
    }
    if AllPut(l.done, V) {
      PutIsAdded(cat, m'.records, l0, l, V);
    }
  }

  /** Two charts that depend on each other and are not recorded are never applied with success; if no call fails,
      the run goes on until it dies. */
  method CircleNeverSucceeds(cat: Catalog, k: Cluster, a: Genus, b: Genus, script: seq<Outcome>) returns (r: Reply)
    requires cat.Loadable() && k.Valid() && Intact(cat, Now(k))
    requires b in cat.deps(a) && a in cat.deps(b) && a !in k.records && b !in k.records
    modifies k
    ensures r != Ok && (AllDone(script) ==> r == Crash)
  {
    CircleOfTwo(cat, k.records.Keys, a, b);
    ghost var V, log, at, mid;
    r, V, log, at, mid := RunApply(cat, k, a, script);
  }

  lemma {:induction false} CircleOfTwo(cat: Catalog, have: set<Genus>, a: Genus, b: Genus)
    requires b in cat.deps(a) && a in cat.deps(b) && a !in have && b !in have
    ensures !Founded(cat, have, a)
  {
    var S := iset{a, b};
    assert Needs(cat, have, a, b) && Needs(cat, have, b, a);
    assert NeedsSome(cat, have, S, a) && NeedsSome(cat, have, S, b);
    assert Circular(cat, have, S);
    FoundedIffNotCircular(cat, have, a);
  }

  /** A recorded chart cuts the circle. */
  lemma {:induction false} RecordCutsCircle(cat: Catalog, have: set<Genus>, a: Genus, b: Genus)
    requires cat.deps(a) == {b} && cat.subs(a) == {} && b in have
    ensures Founded(cat, have, a)
  {
    assert Finishes(cat, have, 1, a);
  }

  /** A chart c that nobody uses has two sub-charts x and y, of which only y uses x. */
  ghost predicate UsedFromInside(cat: Catalog, s: State, c: Genus, x: Genus, y: Genus) {
    && cat.subs(c) == {x, y} && cat.deps(c) == {} && c != x && c != y && (c in s ==> s[c] == {})
    && UserAndUsed(cat, s, x, y)
  }

  ghost predicate UserAndUsed(cat: Catalog, s: State, x: Genus, y: Genus) {
    && cat.deps(y) == {x} && cat.subs(y) == {} && cat.deps(x) == {} && cat.subs(x) == {}
    && x != y && y in s && s[y] == {} && x in s && s[x] == {y}
  }

  /** Whether the delete of c gets through its sub-charts depends on the order in which they are visited: with x first
      it is refused, with y first everything goes. The loop over the sub-charts is written out here in either order. */
  method OrderMatters(cat: Catalog, k: Cluster, c: Genus, x: Genus, y: Genus, usedFirst: bool, script: seq<Outcome>)
    returns (r: Reply)
    requires cat.Loadable() && k.Valid() && Intact(cat, Now(k))
    requires UsedFromInside(cat, k.records, c, x, y) && Completes(script, 18)
    modifies k
    ensures if usedFirst then r == Err else r == Ok && c !in k.records && x !in k.records && y !in k.records
  {
    DropRecord(cat, k, c, x, y, script);
    if usedFirst {
      r := UsedFirst(cat, k, x, y);
    } else {
      r := UserFirst(cat, k, x, y, script);
      assert k.script[0] == (k.past + k.script)[|k.past|] == Done;
      r := k.Act(DropObjects(c));
    }
  }

  /** What comes before the sub-charts. */
  method DropRecord(cat: Catalog, k: Cluster, c: Genus, x: Genus, y: Genus, script: seq<Outcome>)
    requires cat.Loadable() && k.Valid() && Intact(cat, Now(k))
    requires UsedFromInside(cat, k.records, c, x, y) && Completes(script, 18)
    modifies k
    ensures k.Valid() && Sound(cat, k.records) && UserAndUsed(cat, k.records, x, y) && c !in k.records
    ensures Clearing(cat, k.records, k.ledger)
    ensures k.past + k.script == script && |k.past| == 3
  {
    RecordRemoved(cat, k.records, false, c);
    CountFirst(cat, k, c, script);
    var r := DropRecordAndSecret(cat, k, c);
  }

  method CountFirst(cat: Catalog, k: Cluster, c: Genus, script: seq<Outcome>)
    requires k.Valid() && Intact(cat, Now(k)) && Completes(script, 18)
    modifies k
    ensures k.Valid() && k.records == old(k.records)
    ensures Clearing(cat, k.records, k.ledger) && Count(c) in k.ledger.done
    ensures k.past + k.script == script && |k.past| == 1 && Completes(k.script, 2)
  {
    Begin(cat, k, script);
    Cleared(cat, k.records, k.ledger, Count(c), script, c);
    var r, references := k.CountReferences(c);
  }

  method UsedFirst(cat: Catalog, k: Cluster, x: Genus, y: Genus) returns (r: Reply)
    requires cat.Loadable() && k.Valid() && Sound(cat, k.records) && Clearing(cat, k.records, k.ledger) &&
             UserAndUsed(cat, k.records, x, y) && |k.script| >= 4
    modifies k
    ensures r == Err
  {
    ShortDeletes(cat, x, y, k.records.Keys - {x});
    ghost var V;
    r, V := Delete(cat, k, x, false, k.records.Keys - {x});
  }

  method UserFirst(cat: Catalog, k: Cluster, x: Genus, y: Genus, ghost script: seq<Outcome>) returns (r: Reply)
    requires cat.Loadable() && k.Valid() && Sound(cat, k.records) && Clearing(cat, k.records, k.ledger) &&
             UserAndUsed(cat, k.records, x, y)
    requires k.past + k.script == script && |k.past| <= 3 && Completes(script, 18)
    modifies k
    ensures r == Ok && x !in k.records && y !in k.records && k.Valid() && k.records.Keys <= old(k.records.Keys)
    ensures k.past + k.script == script && |k.past| <= 17
  {
    ghost var s, V := k.records, {};
    ShortDeletes(cat, x, y, s.Keys - {y});
    assert DeleteClosed(cat, s, false, {y}) && SubChartsUnused(cat, s, {y});
    NoFaultsYet(script, k.past, k.script, 18);
    r, V := Delete(cat, k, y, false, s.Keys - {y});
    NoFaultsYet(script, k.past, k.script, 18);
    DeletedIsDoomed(cat, s, k.records, false, y, V);
    ReleasedFromInside(cat, s, k.records, x, y, V);
    r := DeleteReleased(cat, k, x, y, script);
  }

  method DeleteReleased(cat: Catalog, k: Cluster, x: Genus, ghost y: Genus, ghost script: seq<Outcome>)
    returns (r: Reply)
    requires cat.Loadable() && k.Valid() && Sound(cat, k.records) && Clearing(cat, k.records, k.ledger)
    requires cat.deps(y) == {x} && cat.subs(y) == {} && cat.deps(x) == {} && cat.subs(x) == {}
    requires x in k.records && k.records[x] == {} && y !in k.records
    requires k.past + k.script == script && |k.past| <= 13 && Completes(script, 18)
    modifies k
    ensures r == Ok && x !in k.records && y !in k.records && k.Valid() && k.records.Keys <= old(k.records.Keys)
    ensures k.past + k.script == script && |k.past| <= 17
  {
    ghost var s, V := k.records, {};
    ShortDeletes(cat, x, y, s.Keys - {x});
    assert DeleteClosed(cat, s, false, {x}) && SubChartsUnused(cat, s, {x});
    NoFaultsYet(script, k.past, k.script, 18);
    r, V := Delete(cat, k, x, false, s.Keys - {x});
    NoFaultsYet(script, k.past, k.script, 18);
  }

  lemma {:induction false} ShortDeletes(cat: Catalog, x: Genus, y: Genus, rest: set<Genus>)
    requires cat.Loadable() && cat.deps(y) == {x} && cat.subs(y) == {} && cat.deps(x) == {} && cat.subs(x) == {}
    ensures DeleteCalls(cat, rest, x) == 4 && DeleteCalls(cat, rest, y) <= 10
  {
    assert DeleteCalls(cat, rest - {x}, x) == 4;
    ReleasesPick(cat, rest, {x}, x);
    assert {x} - {x} == {};
  }

  lemma {:induction false} ReleasedFromInside(cat: Catalog, s: State, s': State, x: Genus, y: Genus, V: set<Genus>)
    requires UserAndUsed(cat, s, x, y) && Without(s, s', V) && Doomed(cat, s, false, y, V)
    ensures x in s' && s'[x] == {}
  {
    assert DeleteClosed(cat, s, false, {y});
    assert V == {y};
    assert forall u :: Uses(s', u, x) ==> Uses(s, u, x) && u !in V;
    assert forall u :: u in s'[x] <==> Uses(s', u, x);
  }
}
