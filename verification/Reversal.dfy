/** When does a recursive delete undo an apply? */
module Reversal {
  import opened Faults
  import opened References
  import opened Store
  import opened Charts
  import opened Ledgers
  import opened Sessions

  /** The same records with the same users. */
  ghost predicate Same(s: State, s': State) {
    && (forall g :: g in s <==> g in s')
    && (forall u, g :: Uses(s, u, g) <==> Uses(s', u, g))
  }

  /** No member of V was recorded before; every dependency that V found already recorded had a user, and V
      itself left no reference behind from an earlier run that died. */
  ghost predicate Undoable(cat: Catalog, s0: State, V: set<Genus>) {
    && V !! s0.Keys
    && forall x, d :: x in V && d in cat.deps(x) && d in s0 ==> s0[d] != {} && !Uses(s0, x, d)
  }

  lemma {:induction false} NotHigher(cat: Catalog, s0: State, c: Genus, V: set<Genus>, x: Genus)
    requires Founded(cat, s0.Keys, c) && Needed(cat, s0, c, V) && x in V
    ensures Founded(cat, s0.Keys, x) && Height(cat, s0.Keys, x) <= Height(cat, s0.Keys, c)
  {
    var K := set y | y in V && Founded(cat, s0.Keys, y) && Height(cat, s0.Keys, y) <= Height(cat, s0.Keys, c);
    forall y, z | y in K && Needs(cat, s0.Keys, y, z)
      ensures z in K
    {
      HeightFalls(cat, s0.Keys, y, z);
    }
    assert ApplyClosed(cat, s0, K);
  }

  lemma {:induction false} NeededBySome(cat: Catalog, s0: State, c: Genus, V: set<Genus>, d: Genus) returns (u: Genus)
    requires Needed(cat, s0, c, V) && d in V && d != c
    ensures u in V && Needs(cat, s0.Keys, u, d)
  {
    var K := V - {d};
    assert !ApplyClosed(cat, s0, K);
    u :| u in K && Needs(cat, s0.Keys, u, d);
  }

  /** Everything an apply has entered is collected again, from the top downwards. */
  lemma {:induction false} CollectedAgain(cat: Catalog, s0: State, s1: State, c: Genus, V: set<Genus>, W: set<Genus>,
      d: Genus)
    requires Founded(cat, s0.Keys, c) && Needed(cat, s0, c, V) && Installed(cat, s0, s1, c, V)
    requires Doomed(cat, s1, true, c, W) && d in V
    ensures d in W
    decreases Height(cat, s0.Keys, c) - Height(cat, s0.Keys, d)
  {
    if d != c {
      forall u | u in V && Needs(cat, s0.Keys, u, d)
        ensures u in W
      {
        NotHigher(cat, s0, c, V, u);
        HeightFalls(cat, s0.Keys, u, d);
        CollectedAgain(cat, s0, s1, c, V, W, u);
      }
      var u := NeededBySome(cat, s0, c, V, d);
      if d !in cat.subs(u) {
        forall w | w in s1[d]
          ensures w in W
        {
          assert Uses(s1, w, d) && !Uses(s0, w, d);
          assert Needs(cat, s0.Keys, w, d);
        }
      }
    }
  }

  lemma {:induction false} StillUsed(cat: Catalog, s0: State, s1: State, c: Genus, V: set<Genus>, x: Genus, d: Genus)
    requires Installed(cat, s0, s1, c, V) && Declared(cat, s0) && Undoable(cat, s0, V)
    requires x in V && d in cat.deps(x) && d in s0 && d in s1
    ensures !(s1[d] <= V)
  {
    var u :| u in s0[d];
    assert Uses(s0, u, d);
    assert u !in V && Uses(s1, u, d);
  }

  lemma {:induction false} NothingElseCollected(cat: Catalog, s0: State, s1: State, c: Genus, V: set<Genus>,
      W: set<Genus>)
    requires Installed(cat, s0, s1, c, V) && Doomed(cat, s1, true, c, W)
    requires Declared(cat, s0) && Undoable(cat, s0, V)
    ensures W <= V
  {
    forall x, d | x in V && d in s1 && d in cat.deps(x) && s1[d] <= V
      ensures d in V
    {
      if d in s0 {
        StillUsed(cat, s0, s1, c, V, x, d);
      }
    }
    assert DeleteClosed(cat, s1, true, V);
  }

  /** Applying a chart and then deleting it recursively brings back the old state if and only if the apply
      entered no recorded chart, met no unused dependency and no stale reference of its own. */
  lemma {:induction false} DeleteUndoesApply(cat: Catalog, s0: State, s1: State, s2: State, c: Genus, V: set<Genus>,
      W: set<Genus>)
    requires Founded(cat, s0.Keys, c) && Sound(cat, s0)
    requires Needed(cat, s0, c, V) && Installed(cat, s0, s1, c, V)
    requires Doomed(cat, s1, true, c, W) && Without(s1, s2, W)
    ensures Same(s0, s2) <==> Undoable(cat, s0, V)
    ensures Undoable(cat, s0, V) ==> W == V
  {
    forall d | d in V
      ensures d in W
    {
      CollectedAgain(cat, s0, s1, c, V, W, d);
    }
    if Undoable(cat, s0, V) {
      NothingElseCollected(cat, s0, s1, c, V, W);
      assert W == V;
      forall u, g | Uses(s0, u, g)
        ensures u !in V
      {
        assert g in cat.deps(u);
      }
    }
    if Same(s0, s2) {
      UndoneOnlyIf(cat, s0, s1, s2, c, V, W);
    }
  }

  lemma {:induction false} UndoneOnlyIf(cat: Catalog, s0: State, s1: State, s2: State, c: Genus, V: set<Genus>,
      W: set<Genus>)
    requires Installed(cat, s0, s1, c, V) && Doomed(cat, s1, true, c, W) && Without(s1, s2, W) && V <= W
    requires Same(s0, s2)
    ensures Undoable(cat, s0, V)
  {
    forall x, d | x in V && d in cat.deps(x) && d in s0
      ensures s0[d] != {} && !Uses(s0, x, d)
    {
      assert !Uses(s2, x, d);
      if s0[d] == {} {
        forall u | u in s1[d]
          ensures u in W
        {
          assert Uses(s1, u, d) && !Uses(s0, u, d);
        }
        assert false;
      }
    }
  }

  /** A chart that was not recorded has no users right after its apply. */
  lemma {:induction false} NobodyUsesTheTop(cat: Catalog, s0: State, s1: State, c: Genus, V: set<Genus>)
    requires Founded(cat, s0.Keys, c) && Needed(cat, s0, c, V) && Installed(cat, s0, s1, c, V) && c !in s0
    ensures s1[c] == {}
  {
    forall u | u in s1[c]
      ensures false
    {
      assert Uses(s1, u, c) && !Uses(s0, u, c);
      NotHigher(cat, s0, c, V, u);
      HeightFalls(cat, s0.Keys, u, c);
    }
  }

  ghost predicate NoneOf(things: set<Thing>, V: set<Genus>) {
    forall x :: x in things ==> x.genus !in V
  }

  lemma {:induction false} AddedAndGone(things: set<Thing>, more: set<Thing>, less: set<Thing>, V: set<Genus>)
    requires ThingsAdded(things, more, V) && ThingsGone(more, less, V)
    ensures less == things <==> NoneOf(things, V)
  {
    if x :| x in things && x.genus in V {
      assert x !in less;
    } else {
      assert forall x :: x in less <==> x in things;
    }
  }

  /** The two runs, one after the other, without failures. */
  method ApplyThenDelete(cat: Catalog, k: Cluster, c: Genus, first: seq<Outcome>, second: seq<Outcome>)
    returns (r: Reply, r': Reply, ghost needed: set<Genus>, ghost between: State)
    requires cat.Loadable() && k.Valid() && Intact(cat, Now(k)) && c !in k.records
    requires AllDone(first) && AllDone(second)
    modifies k
    // Both runs come to an end if their scripts are long enough.
    ensures Founded(cat, old(k.records).Keys, c) && |first| >= EnoughToApply(cat, old(k.records), c) ==> r != Crash
    ensures r != Crash && |second| >= DeleteCalls(cat, between.Keys - {c}, c) ==> r' != Crash
    ensures r != Crash ==> Needed(cat, old(k.records), c, needed) && Installed(cat, old(k.records), between, c, needed)
    ensures r != Crash && r' != Crash && SubChartsUnshared(cat, between, true, c) ==>
              r == r' == Ok && (Same(old(k.records), k.records) <==> Undoable(cat, old(k.records), needed))
    // Then objects and secrets are as before as well, if no earlier run has left any of those that are applied.
    ensures r != Crash && r' != Crash && SubChartsUnshared(cat, between, true, c) ==>
              (Undoable(cat, old(k.records), needed) ==>
                 (k.ledger.things == old(k.ledger.things) <==> NoneOf(old(k.ledger.things), needed)))
  {
    ghost var s0, things := k.records, k.ledger.things;
    ghost var log, at, mid, W;
    r, needed, log, at, mid := RunApply(cat, k, c, first);
    between, r' := k.records, r;
    ghost var more := k.ledger.things;
    if r != Crash {
      NobodyUsesTheTop(cat, s0, between, c, needed);
      r', W := RunDelete(cat, k, c, true, second);
      if r' != Crash && SubChartsUnshared(cat, between, true, c) {
        DeleteUndoesApply(cat, s0, between, k.records, c, needed, W);
        if W == needed {
          AddedAndGone(things, more, k.ledger.things, needed);
        }
      }
    }
  }
}
