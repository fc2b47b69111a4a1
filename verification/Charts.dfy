/** What charts declare, and which sets of charts an apply or a recursive delete must reach. */
module Charts {
  import opened Faults
  import opened References
  import opened Store

  /** The declared dependencies and sub-charts of each genus; `depth` bounds the sub-chart nesting,
      which is finite because loading a chart loads its sub-charts. */
  datatype Catalog = Catalog(deps: Genus -> set<Genus>, subs: Genus -> set<Genus>, depth: Genus -> nat) {
    ghost predicate Loadable() {
      forall g: Genus, s: Genus :: s in subs(g) ==> depth(s) < depth(g)
    }
  }

  /** `user` is registered on the record of g. */
  predicate Uses(s: State, user: Genus, g: Genus) {
    g in s && user in s[g]
  }

  predicate Unused(s: State, g: Genus) {
    g in s && s[g] == {}
  }

  /** Whoever is recorded has all its dependencies recorded, each naming it as a user. */
  ghost predicate Integrity(cat: Catalog, s: State) {
    forall g, d :: g in s && d in cat.deps(g) ==> Uses(s, g, d)
  }

  /** References are only left by charts that declare the dependency. */
  ghost predicate Declared(cat: Catalog, s: State) {
    forall u, d :: Uses(s, u, d) ==> d in cat.deps(u)
  }

  ghost predicate Sound(cat: Catalog, s: State) {
    Integrity(cat, s) && Declared(cat, s)
  }

  lemma {:induction false} OneDone<T>(done: set<T>, todo: set<T>, x: T)
    requires x in todo
    ensures (done + {x}) + (todo - {x}) == done + todo
    ensures |todo - {x}| < |todo|
  {
  }

  // ---- Deletion ----

  /** K holds the sub-charts of its members and, for a recursive delete, every recorded
      dependency of a member whose users all lie in K. */
  ghost predicate DeleteClosed(cat: Catalog, s: State, recursive: bool, K: set<Genus>) {
    && HoldsSubCharts(cat, K)
    && (recursive ==> forall x, d :: x in K && d in s && d in cat.deps(x) && s[d] <= K ==> d in K)
  }

  ghost predicate DeleteWithin(cat: Catalog, s: State, recursive: bool, c: Genus, V: set<Genus>) {
    forall K: set<Genus> {:trigger DeleteClosed(cat, s, recursive, K)} ::
      c in K && DeleteClosed(cat, s, recursive, K) ==> V <= K
  }

  /** V is the least closed set around c: what deleting c is meant to take away. */
  ghost predicate Doomed(cat: Catalog, s: State, recursive: bool, c: Genus, V: set<Genus>) {
    c in V && DeleteClosed(cat, s, recursive, V) && DeleteWithin(cat, s, recursive, c, V)
  }

  lemma {:induction false} DoomedIsUnique(cat: Catalog, s: State, recursive: bool, c: Genus, V: set<Genus>,
      W: set<Genus>)
    requires Doomed(cat, s, recursive, c, V) && Doomed(cat, s, recursive, c, W)
    ensures V == W
  {
    assert V <= W && W <= V;
  }

  /** The sub-charts of c, their sub-charts, and so on, and c itself. */
  ghost function WithSubCharts(cat: Catalog, c: Genus): set<Genus>
    requires cat.Loadable()
    decreases cat.depth(c)
  {
    {c} + set x, y | x in cat.subs(c) && y in WithSubCharts(cat, x) :: y
  }

  /** What any delete run may have done, faults included: only members of V lost something, and
      nothing that is used from outside of V is gone. */
  ghost predicate Shrunk(s0: State, s: State, V: set<Genus>) {
    && (forall g :: g in s0 && g !in V ==> g in s)
    && (forall g :: g in s ==> g in s0)
    && (forall u, g :: Uses(s, u, g) ==> Uses(s0, u, g))
    && (forall u, g :: Uses(s0, u, g) && u !in V ==> Uses(s, u, g))
  }

  ghost predicate SameRecordsBut(s0: State, s: State, V: set<Genus>) {
    forall g :: g in s <==> g in s0 && g !in V
  }

  /** The members of V are gone, as records and as users; all else is as before. */
  ghost predicate Without(s0: State, s: State, V: set<Genus>) {
    && SameRecordsBut(s0, s, V)
    && (forall u, g :: Uses(s, u, g) <==> Uses(s0, u, g) && g !in V && u !in V)
  }

  ghost predicate HoldsSubCharts(cat: Catalog, V: set<Genus>) {
    forall x, y :: x in V && y in cat.subs(x) ==> y in V
  }

  ghost predicate NoOrphans(cat: Catalog, s: State, V: set<Genus>) {
    forall g, x :: Unused(s, g) && x in V ==> g !in cat.deps(x)
  }

  /** What a delete run without faults has done. */
  ghost predicate Deleted(cat: Catalog, s0: State, s: State, recursive: bool, c: Genus, V: set<Genus>) {
    && c in V
    && Without(s0, s, V)
    && HoldsSubCharts(cat, V)
    && (recursive ==> NoOrphans(cat, s, V))
  }

  lemma {:induction false} AllUsersGone(s0: State, s: State, V: set<Genus>, g: Genus)
    requires Without(s0, s, V) && g in s && s0[g] <= V
    ensures Unused(s, g)
  {
    forall u
      ensures u !in s[g]
    {
      assert Uses(s, u, g) ==> Uses(s0, u, g);
    }
  }

  lemma {:induction false} DeletedIsDoomed(cat: Catalog, s0: State, s: State, recursive: bool, c: Genus, V: set<Genus>)
    requires Deleted(cat, s0, s, recursive, c, V) && DeleteWithin(cat, s0, recursive, c, V)
    ensures Doomed(cat, s0, recursive, c, V)
  {
    forall d | d in s && s0[d] <= V
      ensures Unused(s, d)
    {
      AllUsersGone(s0, s, V, d);
    }
  }

  lemma {:induction false} ShrunkTwice(s0: State, s1: State, s2: State, V: set<Genus>, W: set<Genus>)
    requires Shrunk(s0, s1, V) && Shrunk(s1, s2, W)
    ensures Shrunk(s0, s2, V + W)
  {
  }

  lemma {:induction false} UsersBefore(s0: State, s: State, V: set<Genus>, K: set<Genus>, g: Genus)
    requires Shrunk(s0, s, V) && V <= K && g in s && s[g] <= K
    ensures s0[g] <= K
  {
    forall u | u in s0[g]
      ensures u in K
    {
      assert Uses(s0, u, g);
    }
  }

  lemma {:induction false} StillClosed(cat: Catalog, s0: State, s: State, recursive: bool, V: set<Genus>, K: set<Genus>)
    requires DeleteClosed(cat, s0, recursive, K) && Shrunk(s0, s, V) && V <= K
    ensures DeleteClosed(cat, s, recursive, K)
  {
    forall g | g in s && s[g] <= K
      ensures s0[g] <= K
    {
      UsersBefore(s0, s, V, K, g);
    }
  }

  /** A nested delete stays inside every closed set around the outer chart. */
  lemma {:induction false} WithinNested(cat: Catalog, s0: State, s: State, recursive: bool, c: Genus, V: set<Genus>,
      x: Genus, W: set<Genus>)
    requires Shrunk(s0, s, V + {c}) && DeleteWithin(cat, s0, recursive, c, V)
    requires DeleteWithin(cat, s, recursive, x, W)
    requires x == c || x in cat.subs(c) || (recursive && x in cat.deps(c) && Unused(s, x)) || W == {}
    ensures DeleteWithin(cat, s0, recursive, c, V + W)
  {
    forall K: set<Genus> | c in K && DeleteClosed(cat, s0, recursive, K)
      ensures V + W <= K
    {
      StillClosed(cat, s0, s, recursive, V + {c}, K);
    }
  }

  /** A delete of c on its way: `done` are the dependencies it has already released, and a
      dependency in `pending` may just have lost its last user. */
  ghost predicate Deleting(cat: Catalog, s0: State, s: State, recursive: bool, c: Genus, V: set<Genus>,
      done: set<Genus>, pending: set<Genus>) {
    && c in V
    && SameRecordsBut(s0, s, V)
    && (forall u, g :: Uses(s, u, g) ==> Uses(s0, u, g) && g !in V && (u == c || u !in V))
    && (forall u, g :: Uses(s0, u, g) && g !in V && u !in V ==> Uses(s, u, g))
    && (forall g :: g in done ==> !Uses(s, c, g))
    && (forall x, y :: x in V && x != c && y in cat.subs(x) ==> y in V)
    && (recursive ==> forall g, x :: Unused(s, g) && g !in pending && x in V && g in cat.deps(x) ==>
                      x == c && g !in done)
  }

  /** Whatever loses its last user to W is declared by a member of W, and would have gone with W. */
  lemma {:induction false} OrphanedTwice(cat: Catalog, s: State, s': State, W: set<Genus>, g: Genus)
    requires Declared(cat, s) && Without(s, s', W) && NoOrphans(cat, s', W) && Unused(s', g)
    ensures Unused(s, g)
  {
    forall u
      ensures u !in s[g]
    {
      assert Uses(s, u, g) ==> Uses(s', u, g) || u in W;
    }
  }

  lemma {:induction false} DeletingNested(cat: Catalog, s0: State, s: State, s': State, recursive: bool, c: Genus,
      V: set<Genus>, done: set<Genus>, pending: set<Genus>, x: Genus, W: set<Genus>)
    requires Declared(cat, s) && Deleting(cat, s0, s, recursive, c, V, done, pending)
    requires Deleted(cat, s, s', recursive, x, W) && pending <= W
    ensures Deleting(cat, s0, s', recursive, c, V + W, done, {})
  {
    forall g | recursive && Unused(s', g)
      ensures Unused(s, g)
    {
      OrphanedTwice(cat, s, s', W, g);
    }
  }

  ghost function Released1(s: State, c: Genus, d: Genus): State {
    if d in s then s[d := s[d] - {c}] else s
  }

  /** What releasing dependency d of c has done when nothing failed. */
  ghost predicate Released(cat: Catalog, s: State, s': State, recursive: bool, c: Genus, d: Genus, W: set<Genus>) {
    if recursive && Unused(Released1(s, c, d), d)
    then Deleted(cat, Released1(s, c, d), s', recursive, d, W)
    else s' == Released1(s, c, d) && W == {}
  }

  lemma {:induction false} DeletingReleased(cat: Catalog, s0: State, s: State, recursive: bool, c: Genus, V: set<Genus>,
      done: set<Genus>, d: Genus)
    requires Deleting(cat, s0, s, recursive, c, V, done, {})
    ensures Deleting(cat, s0, Released1(s, c, d), recursive, c, V, done + {d}, {d})
    ensures Declared(cat, s) ==> Declared(cat, Released1(s, c, d))
  {
    var s1 := Released1(s, c, d);
    assert forall u, g :: Uses(s1, u, g) <==> Uses(s, u, g) && !(u == c && g == d);
    assert forall g :: g != d ==> (Unused(s1, g) <==> Unused(s, g));
  }

  lemma {:induction false} DeletingDependency(cat: Catalog, s0: State, s: State, s': State, recursive: bool, c: Genus,
      V: set<Genus>, done: set<Genus>, d: Genus, W: set<Genus>)
    requires Declared(cat, s) && Deleting(cat, s0, s, recursive, c, V, done, {})
    requires Released(cat, s, s', recursive, c, d, W)
    ensures Deleting(cat, s0, s', recursive, c, V + W, done + {d}, {})
  {
    var s1 := Released1(s, c, d);
    DeletingReleased(cat, s0, s, recursive, c, V, done, d);
    if recursive && Unused(s1, d) {
      DeletingNested(cat, s0, s1, s', recursive, c, V, done + {d}, {d}, d, W);
    } else {
      assert V + W == V;
      NothingPending(cat, s0, s1, recursive, c, V, done + {d}, d);
    }
  }

  lemma {:induction false} NothingPending(cat: Catalog, s0: State, s: State, recursive: bool, c: Genus, V: set<Genus>,
      done: set<Genus>, d: Genus)
    requires Deleting(cat, s0, s, recursive, c, V, done, {d}) && !(recursive && Unused(s, d))
    ensures Deleting(cat, s0, s, recursive, c, V, done, {})
  {
  }

  lemma {:induction false} DeletingFinished(cat: Catalog, s0: State, s: State, recursive: bool, c: Genus, V: set<Genus>)
    requires Declared(cat, s0) && Deleting(cat, s0, s, recursive, c, V, cat.deps(c), {})
    requires cat.subs(c) <= V
    ensures Deleted(cat, s0, s, recursive, c, V)
  {
  }

  /** No sub-chart that a delete of c may reach has a user. */
  ghost predicate SubChartsUnshared(cat: Catalog, s: State, recursive: bool, c: Genus) {
    exists K: set<Genus> {:trigger DeleteClosed(cat, s, recursive, K)} ::
      c in K && DeleteClosed(cat, s, recursive, K) && SubChartsUnused(cat, s, K)
  }

  ghost predicate SubChartsUnused(cat: Catalog, s: State, K: set<Genus>) {
    forall g, x, u :: g in K && x in cat.subs(g) ==> !Uses(s, u, x)
  }

  // ---- Installation ----

  /** K holds the sub-charts of its members and their dependencies that were not recorded. */
  ghost predicate ApplyClosed(cat: Catalog, s: State, K: set<Genus>) {
    && HoldsSubCharts(cat, K)
    && forall x, d :: x in K && d in cat.deps(x) && d !in s ==> d in K
  }

  ghost predicate ApplyWithin(cat: Catalog, s: State, c: Genus, V: set<Genus>) {
    forall K: set<Genus> {:trigger ApplyClosed(cat, s, K)} :: c in K && ApplyClosed(cat, s, K) ==> V <= K
  }

  /** V is the least closed set around c: what applying c is meant to install. */
  ghost predicate Needed(cat: Catalog, s: State, c: Genus, V: set<Genus>) {
    c in V && ApplyClosed(cat, s, V) && ApplyWithin(cat, s, c, V)
  }

  lemma {:induction false} NeededIsUnique(cat: Catalog, s: State, c: Genus, V: set<Genus>, W: set<Genus>)
    requires Needed(cat, s, c, V) && Needed(cat, s, c, W)
    ensures V == W
  {
    assert V <= W && W <= V;
  }

  /** What any apply run may have done, faults included. */
  ghost predicate Grown(s0: State, s: State, V: set<Genus>) {
    && (forall g :: g in s0 ==> g in s)
    && (forall g :: g in s ==> g in s0 || g in V)
    && (forall u, g :: Uses(s0, u, g) ==> Uses(s, u, g))
    && (forall u, g :: Uses(s, u, g) ==> Uses(s0, u, g) || u in V)
  }

  lemma {:induction false} ApplyWithinNested(cat: Catalog, s0: State, s: State, c: Genus, V: set<Genus>, x: Genus,
      W: set<Genus>)
    requires s0.Keys <= s.Keys && ApplyWithin(cat, s0, c, V) && ApplyWithin(cat, s, x, W)
    requires x in cat.subs(c) || (x in cat.deps(c) && x !in s)
    ensures ApplyWithin(cat, s0, c, V + W)
  {
    forall K: set<Genus> | c in K && ApplyClosed(cat, s0, K)
      ensures V + W <= K
    {
      assert ApplyClosed(cat, s, K);
    }
  }

  /** What an apply run without faults has done: V is recorded, the references that V declares
      were added, nothing else changed. */
  ghost predicate Installed(cat: Catalog, s0: State, s: State, c: Genus, V: set<Genus>) {
    && c in V
    && (forall g :: g in s <==> g in s0 || g in V)
    && (forall u, g :: Uses(s, u, g) <==> Uses(s0, u, g) || (u in V && g in cat.deps(u)))
    && ApplyClosed(cat, s0, V)
  }

  /** An apply of c on its way: `done` are the dependencies it has already secured. */
  ghost predicate Applying(cat: Catalog, s0: State, s: State, c: Genus, V: set<Genus>, done: set<Genus>) {
    && c in V
    && (forall g :: g in s ==> g in s0 || g in V)
    && (forall g :: g in s0 || (g in V && g != c) ==> g in s)
    && (forall u, g :: Uses(s0, u, g) ==> Uses(s, u, g))
    && (forall u, g :: Uses(s, u, g) ==> Uses(s0, u, g) || (u in V && g in cat.deps(u)))
    && (forall g :: g in done ==> Uses(s, c, g))
    && (forall x, y :: x in V && x != c && y in cat.subs(x) ==> y in V)
    && (forall x, y :: x in V && x != c && y in cat.deps(x) && y !in s0 ==> y in V)
  }

  lemma {:induction false} ApplyingNested(cat: Catalog, s0: State, s: State, s': State, c: Genus, V: set<Genus>,
      done: set<Genus>, x: Genus, W: set<Genus>)
    requires Applying(cat, s0, s, c, V, done) && Installed(cat, s, s', x, W)
    ensures Applying(cat, s0, s', c, V + W, done)
  {
  }

  ghost function Registered(s: State, c: Genus, d: Genus): State {
    if d in s then s[d := s[d] + {c}] else s
  }

  lemma {:induction false} ApplyingRegistered(cat: Catalog, s0: State, s: State, c: Genus, V: set<Genus>,
      done: set<Genus>, d: Genus)
    requires Applying(cat, s0, s, c, V, done) && d in s && d in cat.deps(c)
    ensures Applying(cat, s0, Registered(s, c, d), c, V, done + {d})
  {
    var s' := Registered(s, c, d);
    assert forall u, g :: Uses(s', u, g) <==> Uses(s, u, g) || (u == c && g == d);
  }

  ghost function Recorded(s: State, c: Genus): State {
    if c in s then s else s[c := {}]
  }

  lemma {:induction false} ApplyingFinished(cat: Catalog, s0: State, s: State, c: Genus, V: set<Genus>)
    requires Integrity(cat, s) && Applying(cat, s0, s, c, V, cat.deps(c)) && cat.subs(c) <= V
    ensures Installed(cat, s0, Recorded(s, c), c, V)
  {
    assert forall u, g :: Uses(Recorded(s, c), u, g) <==> Uses(s, u, g);
    forall u, g | u in V && g in cat.deps(u)
      ensures Uses(s, u, g)
    {
      assert u == c || u in s;
    }
  }

  lemma {:induction false} RecordingIsSound(cat: Catalog, s: State, c: Genus)
    requires Sound(cat, s)
    ensures Sound(cat, Recorded(s, c)) <==> c in s || forall d :: d in cat.deps(c) ==> Uses(s, c, d)
  {
    assert forall u, g :: Uses(Recorded(s, c), u, g) <==> Uses(s, u, g);
  }

  // ---- Which charts can be installed ----

  /** Applying g applies x as well: a sub-chart, or a dependency that is not recorded. */
  predicate Needs(cat: Catalog, have: set<Genus>, g: Genus, x: Genus) {
    x in cat.subs(g) || (x in cat.deps(g) && x !in have)
  }

  /** Fewer than n charts follow each other below c. */
  ghost predicate Finishes(cat: Catalog, have: set<Genus>, n: nat, c: Genus) {
    n > 0 && forall x :: Needs(cat, have, c, x) ==> Finishes(cat, have, n - 1, x)
  }

  /** What c needs does not go round in circles. */
  ghost predicate Founded(cat: Catalog, have: set<Genus>, c: Genus) {
    exists n: nat :: Finishes(cat, have, n, c)
  }

  lemma {:induction false} FinishesMore(cat: Catalog, have: set<Genus>, n: nat, m: nat, c: Genus)
    requires Finishes(cat, have, n, c) && n <= m
    ensures Finishes(cat, have, m, c)
    decreases n
  {
    forall x | Needs(cat, have, c, x)
      ensures Finishes(cat, have, m - 1, x)
    {
      FinishesMore(cat, have, n - 1, m - 1, x);
    }
  }

  /** The number of charts on the longest way down from c. */
  ghost predicate IsHeight(cat: Catalog, have: set<Genus>, c: Genus, h: nat) {
    Finishes(cat, have, h, c) && forall n: nat :: Finishes(cat, have, n, c) ==> h <= n
  }

  lemma {:induction false} HeightExists(cat: Catalog, have: set<Genus>, c: Genus, n: nat)
    requires Finishes(cat, have, n, c)
    ensures exists h: nat :: IsHeight(cat, have, c, h)
  {
    if m: nat :| m < n && Finishes(cat, have, m, c) {
      HeightExists(cat, have, c, m);
    } else {
      assert IsHeight(cat, have, c, n);
    }
  }

  ghost function Height(cat: Catalog, have: set<Genus>, c: Genus): (h: nat)
    ensures Founded(cat, have, c) ==> IsHeight(cat, have, c, h)
  {
    if n: nat :| Finishes(cat, have, n, c) then
      HeightExists(cat, have, c, n);
      var h: nat :| IsHeight(cat, have, c, h);
      h
    else 0
  }

  lemma {:induction false} HeightFalls(cat: Catalog, have: set<Genus>, c: Genus, x: Genus)
    requires Needs(cat, have, c, x)
    ensures Founded(cat, have, c) ==> Founded(cat, have, x) && Height(cat, have, x) < Height(cat, have, c)
    ensures forall n: nat :: Finishes(cat, have, n + 1, c) ==> Finishes(cat, have, n, x)
  {
    if Founded(cat, have, c) {
      var h := Height(cat, have, c);
      assert Finishes(cat, have, h - 1, x);
      assert Founded(cat, have, x);
    }
  }

  /** A chart that only needs founded charts is founded. */
  lemma {:induction false} FoundedFromBelow(cat: Catalog, have: set<Genus>, c: Genus)
    requires forall x :: Needs(cat, have, c, x) ==> Founded(cat, have, x)
    ensures Founded(cat, have, c)
  {
    var xs := set x | x in cat.subs(c) + cat.deps(c) && Needs(cat, have, c, x);
    var n := CommonBound(cat, have, xs);
    assert Finishes(cat, have, n + 1, c);
  }

  lemma {:induction false} CommonBound(cat: Catalog, have: set<Genus>, xs: set<Genus>) returns (n: nat)
    requires forall x :: x in xs ==> Founded(cat, have, x)
    ensures forall x :: x in xs ==> Finishes(cat, have, n, x)
  {
    if xs == {} {
      n := 0;
    } else {
      var x :| x in xs;
      var k := CommonBound(cat, have, xs - {x});
      var m: nat :| Finishes(cat, have, m, x);
      n := k + m;
      forall y | y in xs
        ensures Finishes(cat, have, n, y)
      {
        FinishesMore(cat, have, if y == x then m else k, n, y);
      }
    }
  }

  /** Every member needs another one. */
  ghost predicate Circular(cat: Catalog, have: set<Genus>, S: iset<Genus>) {
    forall g {:trigger NeedsSome(cat, have, S, g)} :: g in S ==> NeedsSome(cat, have, S, g)
  }

  ghost predicate NeedsSome(cat: Catalog, have: set<Genus>, S: iset<Genus>, g: Genus) {
    exists x :: x in S && Needs(cat, have, g, x)
  }

  /** A chart is founded exactly if it is not part of anything circular. */
  lemma {:induction false} FoundedIffNotCircular(cat: Catalog, have: set<Genus>, c: Genus)
    ensures Founded(cat, have, c) <==> !exists S: iset<Genus> :: c in S && Circular(cat, have, S)
  {
    var S := iset g: Genus | !Founded(cat, have, g);
    forall g | g in S
      ensures NeedsSome(cat, have, S, g)
    {
      if forall x :: Needs(cat, have, g, x) ==> Founded(cat, have, x) {
        FoundedFromBelow(cat, have, g);
      }
    }
    assert Circular(cat, have, S);
    forall n: nat, T: iset<Genus> | c in T && Circular(cat, have, T)
      ensures !Finishes(cat, have, n, c)
    {
      CirclesNeverFinish(cat, have, T, n, c);
    }
  }

  lemma {:induction false} CirclesNeverFinish(cat: Catalog, have: set<Genus>, S: iset<Genus>, n: nat, g: Genus)
    requires g in S && Circular(cat, have, S)
    ensures !Finishes(cat, have, n, g)
  {
    if n > 0 {
      assert NeedsSome(cat, have, S, g);
      var x :| x in S && Needs(cat, have, g, x);
      CirclesNeverFinish(cat, have, S, n - 1, x);
    }
  }

  /** All charts recorded on top of `have` are founded. */
  ghost predicate Settled(cat: Catalog, have: set<Genus>, s: State) {
    forall g :: g in s && g !in have ==> Founded(cat, have, g)
  }

  ghost predicate Distinct(xs: seq<Genus>) {
    forall i, j :: 0 <= i < j < |xs| ==> xs[i] != xs[j]
  }

  /** Enough calls for one apply of c: four around each dependency, three for c itself. */
  ghost function Calls(cat: Catalog, have: set<Genus>, n: nat, c: Genus): nat
    decreases n, 1, 0
  {
    if n == 0 then 0 else 3 + DepCalls(cat, have, n - 1, cat.deps(c)) + SubCalls(cat, have, n - 1, cat.subs(c))
  }

  ghost function DepCalls(cat: Catalog, have: set<Genus>, n: nat, ds: set<Genus>): nat
    decreases n, 2, |ds|
  {
    if ds == {} then 0 else
      var d :| d in ds;
      4 + (if d in have then 0 else Calls(cat, have, n, d)) + DepCalls(cat, have, n, ds - {d})
  }

  ghost function SubCalls(cat: Catalog, have: set<Genus>, n: nat, xs: set<Genus>): nat
    decreases n, 2, |xs|
  {
    if xs == {} then 0 else
      var x :| x in xs;
      Calls(cat, have, n, x) + SubCalls(cat, have, n, xs - {x})
  }

  lemma {:induction false} DepCallsPick(cat: Catalog, have: set<Genus>, n: nat, ds: set<Genus>, d: Genus)
    requires d in ds
    ensures DepCalls(cat, have, n, ds) ==
            4 + (if d in have then 0 else Calls(cat, have, n, d)) + DepCalls(cat, have, n, ds - {d})
    decreases |ds|
  {
    var e :| e in ds && DepCalls(cat, have, n, ds) ==
             4 + (if e in have then 0 else Calls(cat, have, n, e)) + DepCalls(cat, have, n, ds - {e});
    if e != d {
      DepCallsPick(cat, have, n, ds - {e}, d);
      DepCallsPick(cat, have, n, ds - {d}, e);
      assert ds - {e} - {d} == ds - {d} - {e};
    }
  }

  lemma {:induction false} SubCallsPick(cat: Catalog, have: set<Genus>, n: nat, xs: set<Genus>, x: Genus)
    requires x in xs
    ensures SubCalls(cat, have, n, xs) == Calls(cat, have, n, x) + SubCalls(cat, have, n, xs - {x})
    decreases |xs|
  {
    var e :| e in xs && SubCalls(cat, have, n, xs) == Calls(cat, have, n, e) + SubCalls(cat, have, n, xs - {e});
    if e != x {
      SubCallsPick(cat, have, n, xs - {e}, x);
      SubCallsPick(cat, have, n, xs - {x}, e);
      assert xs - {e} - {x} == xs - {x} - {e};
    }
  }

  // ---- How long a delete takes ----

  /** Enough calls to delete c while only it and charts from `rest` are recorded: four for c itself, and two around
      each dependency, which is only deleted when it is recorded. */
  ghost function DeleteCalls(cat: Catalog, rest: set<Genus>, c: Genus): nat
    requires cat.Loadable()
    decreases rest, cat.depth(c), 1, 0
  {
    4 + SubDeletes(cat, rest, cat.depth(c), cat.subs(c)) + Releases(cat, rest, cat.deps(c))
  }

  ghost function SubDeletes(cat: Catalog, rest: set<Genus>, depth: nat, xs: set<Genus>): nat
    requires cat.Loadable() && forall x :: x in xs ==> cat.depth(x) < depth
    decreases rest, depth, 0, |xs|
  {
    if xs == {} then 0 else
      var x :| x in xs;
      DeleteCalls(cat, rest, x) + SubDeletes(cat, rest, depth, xs - {x})
  }

  ghost function Releases(cat: Catalog, rest: set<Genus>, ds: set<Genus>): nat
    requires cat.Loadable()
    decreases rest, 0, 0, |ds|
  {
    if ds == {} then 0 else
      var d :| d in ds;
      ReleaseCalls(cat, rest, d) + Releases(cat, rest, ds - {d})
  }

  ghost function ReleaseCalls(cat: Catalog, rest: set<Genus>, d: Genus): nat
    requires cat.Loadable()
    decreases rest, 0, 0, 0
  {
    2 + if d in rest then DeleteCalls(cat, rest - {d}, d) else 0
  }

  lemma {:induction false} SubDeletesPick(cat: Catalog, rest: set<Genus>, depth: nat, xs: set<Genus>, x: Genus)
    requires cat.Loadable() && x in xs && forall y :: y in xs ==> cat.depth(y) < depth
    ensures SubDeletes(cat, rest, depth, xs) == DeleteCalls(cat, rest, x) + SubDeletes(cat, rest, depth, xs - {x})
    decreases |xs|
  {
    var e :| e in xs && SubDeletes(cat, rest, depth, xs) ==
        DeleteCalls(cat, rest, e) + SubDeletes(cat, rest, depth, xs - {e});
    if e != x {
      SubDeletesPick(cat, rest, depth, xs - {e}, x);
      SubDeletesPick(cat, rest, depth, xs - {x}, e);
      assert xs - {e} - {x} == xs - {x} - {e};
    }
  }

  lemma {:induction false} ReleasesPick(cat: Catalog, rest: set<Genus>, ds: set<Genus>, d: Genus)
    requires cat.Loadable() && d in ds
    ensures Releases(cat, rest, ds) == ReleaseCalls(cat, rest, d) + Releases(cat, rest, ds - {d})
    decreases |ds|
  {
    var e :| e in ds && Releases(cat, rest, ds) == ReleaseCalls(cat, rest, e) + Releases(cat, rest, ds - {e});
    if e != d {
      ReleasesPick(cat, rest, ds - {e}, d);
      ReleasesPick(cat, rest, ds - {d}, e);
      assert ds - {e} - {d} == ds - {d} - {e};
    }
  }
}
