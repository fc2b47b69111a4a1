/** The order in which a run does its work, and what it leaves behind besides the records
    (pkg/kdo/chart.go:290-308, 425-446, 488-578, pkg/kdo/dependency.go:96-161). */
module Ledgers {
  import opened Faults
  import opened References
  import opened Store
  import opened Charts

  // ---- The order of the calls ----

  /** What must have ended well before this task does. */
  ghost predicate Allowed(cat: Catalog, done: set<Task>, task: Task) {
    match task
    case Count(_) => true
    case Find(_) => true
    case Check(_, g) => Find(g) in done
    case Load(g) => Find(g) in done
    case HandOver(u, g) => Load(g) in done || Register(u, g) in done
    case Register(u, g) => Find(g) in done &&
        (Check(u, g) in done || (HandOver(u, g) in done && ApplyObjects(g) in done))
    case ApplyObjects(g) =>
      Prepared(done, g, cat.deps(g)) && ObjectsApplied(done, cat.subs(g))
    case WriteRecord(g) => ApplyObjects(g) in done
    case WriteSecret(g) => WriteRecord(g) in done
    case DropRecord(g) => Count(g) in done
    case DropSecret(g) => DropRecord(g) in done
    case DropObjects(g) => DropSecret(g) in done && forall x :: x in cat.subs(g) ==> DropObjects(x) in done
    case Unregister(u, g) => Find(g) in done && DropObjects(u) in done
  }

  /** Nothing was done before its time. */
  ghost predicate Orderly(cat: Catalog, done: set<Task>) {
    forall task {:trigger Allowed(cat, done, task)} :: task in done ==> Allowed(cat, done, task)
  }

  lemma {:induction false} StillAllowed(cat: Catalog, done: set<Task>, more: set<Task>, task: Task)
    requires Allowed(cat, done, task) && done <= more
    ensures Allowed(cat, more, task)
  {
  }

  lemma {:induction false} OneMoreTask(cat: Catalog, done: set<Task>, task: Task)
    requires Orderly(cat, done) && Allowed(cat, done, task)
    ensures Orderly(cat, done + {task})
  {
    forall t | t in done + {task}
      ensures Allowed(cat, done + {task}, t)
    {
      assert Allowed(cat, done, t);
      StillAllowed(cat, done, done + {task}, t);
    }
  }

  // ---- Installing ----

  /** At the beginning of a run nothing was done. */
  lemma {:induction false} NothingDone(cat: Catalog, s: State, things: set<Thing>)
    requires Backed(s, things)
    ensures var l := Ledger({}, things, s.Keys, {}, {}); Building(cat, s, l) && Clearing(cat, s, l)
  {
  }

  /** Exactly the things of V are new. */
  ghost predicate ThingsAdded(things: set<Thing>, things': set<Thing>, V: set<Genus>) {
    forall x :: x in things' <==> x in things || x.genus in V
  }

  ghost predicate ThingsGone(things: set<Thing>, things': set<Thing>, V: set<Genus>) {
    forall x :: x in things' <==> x in things && x.genus !in V
  }

  lemma {:induction false} PutIsAdded(cat: Catalog, s: State, l0: Ledger, l: Ledger, V: set<Genus>)
    requires Building(cat, s, l) && Added(l0, l, V) && AllPut(l.done, V)
    ensures ThingsAdded(l0.things, l.things, V)
  {
    forall x: Thing | x.genus in V
      ensures x in l.things
    {
      match x
      case Objects(g) => assert ApplyObjects(g) in l.done;
      case Secret(g) => assert WriteSecret(g) in l.done;
    }
  }

  /** The objects of every recorded chart are in the cluster. */
  ghost predicate Backed(s: State, things: set<Thing>) {
    forall g :: g in s ==> Objects(g) in things
  }

  /** What holds all along an apply: the calls were made in order, what they have put there is there, every new
      record rests on objects that this run has applied, and no objects were applied before their chart had its
      properties. */
  ghost predicate Building(cat: Catalog, s: State, l: Ledger) {
    && Orderly(cat, l.done)
    && Backed(s, l.things) && l.raw == {}
    && (forall g :: g in s ==> g in l.found || ApplyObjects(g) in l.done)
    && forall g :: && (ApplyObjects(g) in l.done ==> Objects(g) in l.things)
                   && (WriteSecret(g) in l.done ==> Secret(g) in l.things)
  }

  /** Nothing is lost, and only charts in V have new things. */
  ghost predicate Added(l: Ledger, l': Ledger, V: set<Genus>) {
    && l.done <= l'.done && l.things <= l'.things && l'.found == l.found
    && forall x :: x in l'.things && x !in l.things ==> x.genus in V
  }

  lemma {:induction false} AddedTwice(l0: Ledger, l1: Ledger, l2: Ledger, V: set<Genus>, W: set<Genus>, U: set<Genus>)
    requires Added(l0, l1, V) && Added(l1, l2, W) && V <= U && W <= U
    ensures Added(l0, l2, U)
  {
  }

  /** Objects, record and secret of each of them are there. */
  ghost predicate AllPut(done: set<Task>, V: set<Genus>) {
    forall g :: g in V ==> ApplyObjects(g) in done && WriteRecord(g) in done && WriteSecret(g) in done
  }

  lemma {:induction false} AllPutTogether(done: set<Task>, more: set<Task>, c: Genus, V: set<Genus>, W: set<Genus>)
    requires AllPut(done, V - {c}) && AllPut(more, W) && done <= more
    ensures AllPut(more, V + W - {c})
  {
  }

  /** These dependencies were registered and given their properties. */
  ghost predicate Prepared(done: set<Task>, c: Genus, ds: set<Genus>) {
    forall d :: d in ds ==> Register(c, d) in done && HandOver(c, d) in done
  }

  ghost predicate ObjectsApplied(done: set<Task>, xs: set<Genus>) {
    forall x :: x in xs ==> ApplyObjects(x) in done
  }

  lemma {:induction false} StillPrepared(done: set<Task>, more: set<Task>, c: Genus, ds: set<Genus>, d: Genus)
    requires Prepared(done, c, ds) && done <= more && Register(c, d) in more && HandOver(c, d) in more
    ensures Prepared(more, c, ds + {d})
  {
  }

  /** A record only needs the objects of its chart. */
  lemma {:induction false} StillBuilding(cat: Catalog, s: State, s': State, l: Ledger, c: Genus)
    requires Building(cat, s, l) && s'.Keys <= s.Keys + {c} && (c in s' ==> c in s || ApplyObjects(c) in l.done)
    ensures Building(cat, s', l)
  {
  }

  lemma {:induction false} Built(cat: Catalog, s: State, l: Ledger, task: Task, script: seq<Outcome>, c: Genus)
    requires Building(cat, s, l) && Allowed(cat, l.done, task)
    requires !task.DropObjects? && !task.DropSecret?
    requires task.ApplyObjects? || task.WriteSecret? ==> task.genus == c
    requires task.ApplyObjects? ==> c !in l.blank
    ensures Building(cat, s, Entered(l, task, script)) && Added(l, Entered(l, task, script), {c})
    ensures !task.ApplyObjects? && !task.WriteSecret? ==> Added(l, Entered(l, task, script), {})
  {
    OneMoreTask(cat, l.done, task);
  }

  /** What the objects of a chart rest on: those of the sub-charts, and dependencies that were found, registered and
      given their properties. */
  lemma {:induction false} AllApplied(cat: Catalog, done: set<Task>, c: Genus)
    requires cat.Loadable() && Orderly(cat, done) && ApplyObjects(c) in done
    ensures forall x :: x in WithSubCharts(cat, c) ==>
              && ApplyObjects(x) in done
              && forall d :: d in cat.deps(x) ==> Find(d) in done && Register(x, d) in done && HandOver(x, d) in done
    decreases cat.depth(c)
  {
    assert Allowed(cat, done, ApplyObjects(c));
    forall d | d in cat.deps(c)
      ensures Find(d) in done
    {
      assert Allowed(cat, done, Register(c, d));
    }
    forall x | x in cat.subs(c)
      ensures forall y :: y in WithSubCharts(cat, x) ==>
                && ApplyObjects(y) in done
                && forall d :: d in cat.deps(y) ==> Find(d) in done && Register(y, d) in done && HandOver(y, d) in done
    {
      AllApplied(cat, done, x);
    }
  }

  // ---- Deleting ----

  /** What holds all along a delete: the calls were made in order, what they have taken away is not there, and the
      references on every record that is gone were counted. */
  ghost predicate Clearing(cat: Catalog, s: State, l: Ledger) {
    && Orderly(cat, l.done)
    && Backed(s, l.things)
    && (forall g :: g in l.found ==> g in s || Count(g) in l.done)
    && forall g :: && (DropObjects(g) in l.done ==> Objects(g) !in l.things)
                   && (DropSecret(g) in l.done ==> Secret(g) !in l.things)
  }

  /** Nothing is added, and only charts in V have lost something. */
  ghost predicate Taken(l: Ledger, l': Ledger, V: set<Genus>) {
    && l.done <= l'.done && l'.things <= l.things && l'.found == l.found
    && forall x :: x in l.things && x !in l'.things ==> x.genus in V
  }

  lemma {:induction false} StillClearing(cat: Catalog, s: State, s': State, l: Ledger, c: Genus)
    requires Clearing(cat, s, l) && s'.Keys <= s.Keys && s.Keys <= s'.Keys + {c} && Count(c) in l.done
    ensures Clearing(cat, s', l)
  {
  }

  lemma {:induction false} TakenTwice(l0: Ledger, l1: Ledger, l2: Ledger, V: set<Genus>, W: set<Genus>, U: set<Genus>)
    requires Taken(l0, l1, V) && Taken(l1, l2, W) && V <= U && W <= U
    ensures Taken(l0, l2, U)
  {
  }

  lemma {:induction false} DroppedIsGone(cat: Catalog, s: State, l0: Ledger, l: Ledger, V: set<Genus>)
    requires Clearing(cat, s, l) && Taken(l0, l, V) && AllDropped(l.done, V)
    ensures ThingsGone(l0.things, l.things, V)
  {
    forall x: Thing | x.genus in V
      ensures x !in l.things
    {
      assert Allowed(cat, l.done, DropObjects(x.genus));
    }
  }

  ghost predicate AllDropped(done: set<Task>, V: set<Genus>) {
    forall g :: g in V ==> DropObjects(g) in done
  }

  lemma {:induction false} Cleared(cat: Catalog, s: State, l: Ledger, task: Task, script: seq<Outcome>, c: Genus)
    requires Clearing(cat, s, l) && Allowed(cat, l.done, task)
    requires !task.ApplyObjects? && !task.WriteSecret?
    requires task.DropObjects? || task.DropSecret? ==> task.genus == c
    requires task.DropObjects? ==> c !in s
    ensures Clearing(cat, s, Entered(l, task, script)) && Taken(l, Entered(l, task, script), {c})
    ensures !task.DropObjects? && !task.DropSecret? ==> Taken(l, Entered(l, task, script), {})
  {
    OneMoreTask(cat, l.done, task);
  }

  /** The delete of this chart left nothing undone: it is not recorded, its objects are gone, and each dependency was
      looked for and, if it is recorded, released. */
  ghost predicate Gone(cat: Catalog, s: State, done: set<Task>, c: Genus) {
    && c !in s && DropObjects(c) in done
    && ReleasedAll(cat, s, done, c, cat.deps(c))
  }

  ghost predicate ReleasedAll(cat: Catalog, s: State, done: set<Task>, c: Genus, ds: set<Genus>) {
    forall d :: d in ds ==> Find(d) in done && !Uses(s, c, d) && (d in s ==> Unregister(c, d) in done)
  }

  /** Nor is anything left of its sub-charts. */
  ghost predicate GoneBelow(cat: Catalog, s: State, done: set<Task>, c: Genus)
    requires cat.Loadable()
  {
    forall x {:trigger Gone(cat, s, done, x)} :: x in WithSubCharts(cat, c) ==> Gone(cat, s, done, x)
  }

  ghost predicate AllGone(cat: Catalog, s: State, done: set<Task>, xs: set<Genus>)
    requires cat.Loadable()
  {
    forall x {:trigger GoneBelow(cat, s, done, x)} :: x in xs ==> GoneBelow(cat, s, done, x)
  }

  /** Records and references have only become fewer. */
  ghost predicate Fewer(s: State, s': State) {
    s'.Keys <= s.Keys && forall u, g :: Uses(s', u, g) ==> Uses(s, u, g)
  }

  lemma {:induction false} FewerTwice(s0: State, s1: State, s2: State)
    requires Fewer(s0, s1) && Fewer(s1, s2)
    ensures Fewer(s0, s2)
  {
  }

  lemma {:induction false} GoneStaysGone(cat: Catalog, s: State, s': State, done: set<Task>, more: set<Task>, c: Genus)
    requires cat.Loadable() && GoneBelow(cat, s, done, c) && Fewer(s, s') && done <= more
    ensures GoneBelow(cat, s', more, c)
  {
    forall x | x in WithSubCharts(cat, c)
      ensures Gone(cat, s', more, x)
    {
      assert Gone(cat, s, done, x);
    }
  }

  /** What is gone stays gone. */
  lemma {:induction false} StillGone(cat: Catalog, s: State, s': State, done: set<Task>, more: set<Task>,
      xs: set<Genus>)
    requires cat.Loadable() && AllGone(cat, s, done, xs) && Fewer(s, s') && done <= more
    ensures AllGone(cat, s', more, xs)
  {
    forall x | x in xs
      ensures GoneBelow(cat, s', more, x)
    {
      GoneStaysGone(cat, s, s', done, more, x);
    }
  }

  lemma {:induction false} StillReleased(cat: Catalog, s: State, s': State, done: set<Task>, more: set<Task>, c: Genus,
      ds: set<Genus>, d: Genus)
    requires ReleasedAll(cat, s, done, c, ds) && Fewer(s, s') && done <= more && ReleasedAll(cat, s', more, c, {d})
    ensures ReleasedAll(cat, s', more, c, ds + {d})
  {
  }

  lemma {:induction false} ReleasedAfter(cat: Catalog, s: State, s1: State, s': State, done: set<Task>, more: set<Task>,
      c: Genus, d: Genus)
    requires s1 == s || s1 == Released1(s, c, d)
    requires Fewer(s1, s') && done <= more
    ensures Fewer(s, s')
    ensures s1 == Released1(s, c, d) && Find(d) in done && Unregister(c, d) in done ==>
              ReleasedAll(cat, s', more, c, {d})
  {
    assert forall u, g :: Uses(Released1(s, c, d), u, g) ==> Uses(s, u, g) && !(u == c && g == d);
  }

  lemma {:induction false} AllDroppedTogether(done: set<Task>, more: set<Task>, before: set<Genus>, V: set<Genus>,
      W: set<Genus>)
    requires AllDropped(done, V - before) && AllDropped(more, W) && done <= more
    ensures AllDropped(more, V + W - before)
  {
  }

  lemma {:induction false} GoneAltogether(cat: Catalog, s: State, done: set<Task>, c: Genus)
    requires cat.Loadable() && Gone(cat, s, done, c) && AllGone(cat, s, done, cat.subs(c))
    ensures GoneBelow(cat, s, done, c)
  {
    forall x | x in WithSubCharts(cat, c)
      ensures Gone(cat, s, done, x)
    {
      if x != c {
        var y :| y in cat.subs(c) && x in WithSubCharts(cat, y);
        assert GoneBelow(cat, s, done, y);
      }
    }
  }

  /** The own objects of a chart go after those of its sub-charts. */
  lemma {:induction false} ObjectsCleared(cat: Catalog, s: State, l: Ledger, script: seq<Outcome>, c: Genus)
    requires cat.Loadable() && Clearing(cat, s, l) && DropSecret(c) in l.done && c !in s
    requires AllGone(cat, s, l.done, cat.subs(c))
    ensures Clearing(cat, s, Entered(l, DropObjects(c), script)) && Taken(l, Entered(l, DropObjects(c), script), {c})
  {
    forall x | x in cat.subs(c)
      ensures DropObjects(x) in l.done
    {
      assert GoneBelow(cat, s, l.done, x);
      assert Gone(cat, s, l.done, x);
    }
    Cleared(cat, s, l, DropObjects(c), script, c);
  }

  /** With its references released, a chart is gone. */
  lemma {:induction false} GoneAtLast(cat: Catalog, s: State, s': State, done: set<Task>, more: set<Task>, c: Genus)
    requires cat.Loadable() && AllGone(cat, s, done, cat.subs(c)) && Fewer(s, s') && done <= more
    requires c !in s' && DropObjects(c) in more && ReleasedAll(cat, s', more, c, cat.deps(c))
    ensures GoneBelow(cat, s', more, c)
  {
    StillGone(cat, s, s', done, more, cat.subs(c));
    GoneAltogether(cat, s', more, c);
  }

  /** So nothing is left of a chart that is gone: no record, no reference of its own, no objects and no secret, its
      references were counted first, and its sub-charts are gone as well. */
  lemma {:induction false} NothingLeft(cat: Catalog, s: State, l: Ledger, c: Genus)
    requires cat.Loadable() && Clearing(cat, s, l) && Declared(cat, s) && GoneBelow(cat, s, l.done, c)
    ensures forall x :: x in WithSubCharts(cat, c) ==>
              && x !in s && Objects(x) !in l.things && Secret(x) !in l.things && Count(x) in l.done
              && forall g :: !Uses(s, x, g)
  {
    forall x | x in WithSubCharts(cat, c)
      ensures x !in s && Objects(x) !in l.things && Secret(x) !in l.things && Count(x) in l.done
      ensures forall g :: !Uses(s, x, g)
    {
      assert Gone(cat, s, l.done, x);
      assert Allowed(cat, l.done, DropObjects(x)) && Allowed(cat, l.done, DropSecret(x));
      assert Allowed(cat, l.done, DropRecord(x));
    }
  }
}
