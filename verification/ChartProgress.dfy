/** The progress of a whole apply, seen by the caller of kdo (pkg/kdo/chart.go:290-308,
    pkg/kdo/chart_init.go:173-190). */
module ChartProgress {
  import opened ProgressTrees
  import opened Progress

  /** A chart with the dependencies that have to be installed and its sub-charts, in the order in which they are
      visited; kubectl handles `matched` of its objects, and maybe fails then. */
  datatype Chart = Chart(dependencies: seq<Chart>, subCharts: seq<Chart>, objects: nat, matched: nat, fails: bool)

  predicate Succeeds(chart: Chart) {
    !chart.fails && AllSucceed(chart.dependencies) && AllSucceed(chart.subCharts)
  }

  predicate AllSucceed(charts: seq<Chart>) {
    charts == [] || (Succeeds(charts[0]) && AllSucceed(charts[1..]))
  }

  /** Neither the chart nor any sub-chart has dependencies that have to be installed. */
  predicate Calm(chart: Chart) {
    chart.dependencies == [] && AllCalm(chart.subCharts)
  }

  predicate AllCalm(charts: seq<Chart>) {
    charts == [] || (Calm(charts[0]) && AllCalm(charts[1..]))
  }

  /** What an apply comes to that installs no dependencies: the sub-charts up to the first that fails and, if none does,
      the objects of the chart. */
  function TreeFor(chart: Chart): Tree {
    Node(
      if AllSucceed(chart.subCharts) then Least(chart.matched, chart.objects) else 0, chart.objects,
      |chart.subCharts|, TreesFor(chart.subCharts))
  }

  /** What such an apply comes to show. */
  function Shown(chart: Chart): int {
    Eval(TreeFor(chart))
  }

  function AllShown(charts: seq<Chart>): seq<int> {
    EvalAll(TreesFor(charts))
  }

  /** One sub-chart after the other. */
  lemma {:induction false} ShownInTurn(charts: seq<Chart>, i: nat, before: seq<int>)
    requires i < |charts| && before + AllShown(charts[i..]) == AllShown(charts)
    ensures var after := before + [Shown(charts[i])];
            AllShown(charts) == if Succeeds(charts[i]) then after + AllShown(charts[i + 1..]) else after
    ensures AllSucceed(charts[i..]) <==> Succeeds(charts[i]) && AllSucceed(charts[i + 1..])
    ensures AllCalm(charts[i..]) <==> Calm(charts[i]) && AllCalm(charts[i + 1..])
  {
    var rest := if Succeeds(charts[i]) then TreesFor(charts[i + 1..]) else [];
    assert charts[i..][1..] == charts[i + 1..];
    assert TreesFor(charts[i..])[1..] == rest;
  }

  function TreesFor(charts: seq<Chart>): seq<Tree> {
    if charts == [] then [] else [TreeFor(charts[0])] + if Succeeds(charts[0]) then TreesFor(charts[1..]) else []
  }

  function Least(a: nat, b: nat): nat {
    if a <= b then a else b
  }

  /** It is less than five per level below the exact average of averages of the objects handled. */
  lemma {:induction false} TreeIsClose(chart: Chart)
    ensures var t := TreeFor(chart);
            0 <= Shown(chart) && Exact(t) - 5.0 * Height(t) as real < Shown(chart) as real <= Exact(t)
  {
    TreeIsRoomy(chart);
    ErrorBound(TreeFor(chart));
  }

  lemma {:induction false} TreeIsRoomy(chart: Chart)
    ensures Roomy(TreeFor(chart))
    decreases chart, 0
  {
    TreesAreRoomy(chart.subCharts);
  }

  lemma {:induction false} TreesAreRoomy(charts: seq<Chart>)
    ensures AllRoomy(TreesFor(charts)) && |TreesFor(charts)| <= |charts|
    decreases charts, 1
  {
    if charts != [] {
      TreeIsRoomy(charts[0]);
      TreesAreRoomy(charts[1..]);
      var rest := if Succeeds(charts[0]) then TreesFor(charts[1..]) else [];
      assert TreesFor(charts)[1..] == rest;
    }
  }

  lemma {:induction false} Siblings(nodes: set<K8s>, parent: K8s, k: K8s)
    requires Linked(nodes) && parent in nodes && k in nodes && k.subscription.Slot? && k.subscription.parent == parent
    ensures forall j :: 0 <= j < |parent.kids| && parent.kids[j] != k ==> parent.kids[j] !in k.Path()
  {
    PathIsAbove(parent);
  }

  /** Only k and the nodes above it have changed. */
  twostate predicate Elsewhere(nodes: set<K8s>, k: K8s)
    reads nodes
  {
    forall n :: n in nodes && n !in k.Path() ==> unchanged(n)
  }

  lemma {:induction false} PathIsAbove(k: K8s)
    ensures forall n :: n in k.Path() ==> n.id <= k.id
    decreases k.id
  {
    if k.subscription.Slot? && k.subscription.parent.id < k.id {
      PathIsAbove(k.subscription.parent);
    }
  }

  /** The dependency that is installed first gets through. */
  predicate FirstInstalled(dependencies: seq<Chart>) {
    dependencies != [] && Succeeds(dependencies[0])
  }

  /** Only dependencies after the first one have something of their own to install. */
  predicate CalmAtFirst(chart: Chart) {
    (chart.dependencies == [] || Calm(chart.dependencies[0])) && AllCalm(chart.subCharts)
  }

  /** What is known of the nodes: no dependency was installed, and to whom 100 was announced. */
  datatype Claim = Claim(calm: bool, told: set<K8s>)

  /** What is known once these dependencies were tried. */
  ghost function Claimed(claim: Claim, dependencies: seq<Chart>, listening: set<K8s>): Claim {
    if FirstInstalled(dependencies) then Claim(false, claim.told + listening) else claim
  }

  lemma {:induction false} NothingInstalled(claim: Claim, chart: Chart)
    requires claim.calm ==> Calm(chart)
    ensures Claimed(claim, chart.dependencies, {}) == claim
  {
    assert claim.told + {} == claim.told;
  }

  /** The nodes are consistent, and all of them are fine. */
  ghost predicate Quiet(nodes: set<K8s>, bound: nat, claim: Claim)
    reads nodes
  {
    Consistent(nodes) && forall n {:trigger Fine(n, bound, claim)} :: n in nodes ==> Fine(n, bound, claim)
  }

  /** A root that shows 100 has said so. As long as no dependency was installed, nothing was set explicitly; there are
      no more slots than declared children, or one more without progress of its own; and a root has only climbed. */
  ghost predicate Fine(n: K8s, bound: nat, claim: Claim)
    reads n
  {
    && n.id < bound && !n.subscription.Silent?
    && (n.subscription.Root? ==> !n.pinned && (n in claim.told || n.progress == 100 ==> 100 in n.notified))
    && (claim.calm ==>
          && !n.pinned
          && 0 <= n.localProgress <= 90
          && |n.kids| + (if n.localProgress > 0 then 1 else 0) <= n.children + 1
          && (n.subscription.Root? ==> Climbed(n.notified, n.progress)))
  }

  /** All that p can ever show is what k shows. */
  ghost predicate Mirrors(p: K8s, k: K8s)
    reads p
  {
    && p.subscription.Root? && p.children == 0 && p.localProgress == 0
    && k.subscription == Slot(p, 0) && p.kids == [k]
  }

  lemma {:induction false} SameAsChild(nodes: set<K8s>, p: K8s, k: K8s)
    requires Consistent(nodes) && p in nodes && k in nodes && Mirrors(p, k) && !p.pinned && k.progress == 100
    ensures p.progress == 100
  {
    assert p.Current() && p.childrenProgress == [100];
    OneSlot(0, [100]);
  }

  /** The local progress of a node for which kubectl has handled so many objects. */
  function Handled(matched: nat, objects: nat): int {
    Part(Least(matched, objects), objects)
  }

  lemma {:induction false} HandledGrows(matched: nat, objects: nat)
    ensures 0 <= Handled(matched, objects) <= Handled(matched + 1, objects) <= 90
    ensures Counts(matched + 1, objects) ==> Handled(matched + 1, objects) == Share(matched + 1, objects)
    ensures !Counts(matched + 1, objects) ==> Handled(matched + 1, objects) == Handled(matched, objects)
    ensures Handled(0, objects) == 0
  {
    if objects > 0 {
      if matched < objects {
        ShareGrows(matched, matched + 1, objects);
      } else {
        ShareGrows(objects, objects, objects);
      }
    }
  }

  /** Applies the chart on a clone of its own. */
  method WrapApply(chart: Chart, parent: K8s, ghost nodes: set<K8s>, ghost bound: nat, ghost claim: Claim,
      ghost listening: set<K8s>)
    returns (ok: bool, ghost nodes': set<K8s>, ghost bound': nat)
    requires Quiet(nodes, bound, claim) && parent in nodes && parent.localProgress == 0
    requires claim.calm ==> CalmAtFirst(chart) && |parent.kids| <= parent.children
    requires listening != {} ==>
               listening == {parent} && parent.subscription.Root? && parent.children == 0 && parent.kids == []
    modifies nodes`progress, nodes`pinned, nodes`childrenProgress, nodes`notified, parent`kids
    decreases chart, 4
    ensures Quiet(nodes', bound', Claimed(claim, chart.dependencies, listening))
    ensures nodes <= nodes' && forall n :: n in nodes' ==> n in nodes || fresh(n)
    ensures Elsewhere(nodes, parent)
    ensures claim.calm && Calm(chart) ==>
              parent.childrenProgress == old(parent.childrenProgress) + [Shown(chart)]
    ensures |parent.kids| == |old(parent.kids)| + 1
    ensures ok <==> Succeeds(chart)
  {
    var k := Clone(parent, |chart.subCharts|, nodes, bound, claim);
    ghost var more := nodes + {k};
    ok, nodes', bound' := ApplyOnClone(chart, parent, k, more, bound + 1, claim, listening);
    forall n | n in nodes'
      ensures n in nodes || fresh(n)
    {
      assert n in more || n !in more;
    }
  }

  /** The last slot of the parent takes what the clone comes to show; the others stay as they are. */
  method ApplyOnClone(chart: Chart, parent: K8s, k: K8s, ghost nodes: set<K8s>, ghost bound: nat, ghost claim: Claim,
      ghost listening: set<K8s>)
    returns (ok: bool, ghost nodes': set<K8s>, ghost bound': nat)
    requires Quiet(nodes, bound, claim) && {parent, k} <= nodes && parent.kids != []
    requires k.subscription == Slot(parent, |parent.kids| - 1)
    requires k.localProgress == 0 && k.kids == [] && k.children == |chart.subCharts|
    requires claim.calm ==> CalmAtFirst(chart)
    requires forall p :: p in listening ==> p in nodes && Mirrors(p, k)
    modifies nodes`progress, nodes`pinned, nodes`childrenProgress, nodes`notified
    modifies k`kids, k`localProgress, k`handled, k`objects
    decreases chart, 3
    ensures Quiet(nodes', bound', Claimed(claim, chart.dependencies, listening))
    ensures nodes <= nodes' && forall n :: n in nodes' ==> n in nodes || fresh(n)
    ensures Elsewhere(nodes - {k}, parent)
    ensures claim.calm && Calm(chart) ==>
              && |parent.childrenProgress| == |parent.kids| == |old(parent.childrenProgress)|
              && parent.childrenProgress == old(parent.childrenProgress)[..|parent.kids| - 1] + [Shown(chart)]
    ensures ok <==> Succeeds(chart)
  {
    ghost var slots := parent.childrenProgress;
    Siblings(nodes, parent, k);
    ok, nodes', bound' := Apply(chart, k, nodes, bound, claim, listening);
    forall j | 0 <= j < |parent.kids| - 1
      ensures parent.childrenProgress[j] == slots[j]
    {
      assert parent.kids[j] in nodes && parent.kids[j] != k;
    }
  }

  /** Applies the sub-charts and then the chart's own objects. */
  method Apply(chart: Chart, k: K8s, ghost nodes: set<K8s>, ghost bound: nat, ghost claim: Claim,
      ghost listening: set<K8s>)
    returns (ok: bool, ghost nodes': set<K8s>, ghost bound': nat)
    requires Quiet(nodes, bound, claim) && k in nodes && k.subscription.Slot?
    requires k.localProgress == 0 && k.kids == [] && k.children == |chart.subCharts|
    requires claim.calm ==> CalmAtFirst(chart)
    requires forall p :: p in listening ==> p in nodes && Mirrors(p, k)
    modifies nodes`progress, nodes`pinned, nodes`childrenProgress, nodes`notified
    modifies k`kids, k`localProgress, k`handled, k`objects
    decreases chart, 2
    ensures Quiet(nodes', bound', Claimed(claim, chart.dependencies, listening))
    ensures nodes <= nodes' && forall n :: n in nodes' ==> n in nodes || fresh(n)
    ensures Elsewhere(nodes, k)
    ensures claim.calm && Calm(chart) ==> k.progress == Shown(chart)
    ensures ok <==> Succeeds(chart)
  {
    ok, nodes', bound' := ApplyDependencies(chart.dependencies, k, nodes, bound, claim, listening);
    if ok {
      ok, nodes', bound' := ApplyMain(chart, k, nodes', bound', Claimed(claim, chart.dependencies, listening));
    }
  }

  lemma {:induction false} ShowsChart(nodes: set<K8s>, bound: nat, claim: Claim, k: K8s, chart: Chart)
    requires Quiet(nodes, bound, claim) && claim.calm && k in nodes && k.children == |chart.subCharts|
    requires k.childrenProgress == AllShown(chart.subCharts)
    requires k.localProgress == if AllSucceed(chart.subCharts) then Handled(chart.matched, chart.objects) else 0
    ensures k.progress == Shown(chart)
  {
    assert Fine(k, bound, claim) && k.Current();
    assert Part(0, chart.objects) == 0;
  }

  /** Once its dependencies are there, applies the sub-charts and then the chart's own objects. */
  method ApplyMain(chart: Chart, k: K8s, ghost nodes: set<K8s>, ghost bound: nat, ghost claim: Claim)
    returns (ok: bool, ghost nodes': set<K8s>, ghost bound': nat)
    requires Quiet(nodes, bound, claim) && k in nodes && k.subscription.Slot?
    requires k.localProgress == 0 && k.children == |chart.subCharts|
    requires claim.calm ==> AllCalm(chart.subCharts) && k.kids == []
    modifies nodes`progress, nodes`pinned, nodes`childrenProgress, nodes`notified
    modifies k`kids, k`localProgress, k`handled, k`objects
    decreases chart, 1
    ensures Quiet(nodes', bound', claim) && nodes <= nodes' && forall n :: n in nodes' ==> n in nodes || fresh(n)
    ensures Elsewhere(nodes, k)
    ensures claim.calm ==> k.progress == Shown(chart)
    ensures ok <==> !chart.fails && AllSucceed(chart.subCharts)
  {
    ok, nodes', bound' := ApplySubCharts(chart.subCharts, k, nodes, bound, claim);
    if ok {
      ApplyLocal(chart, k, nodes', bound', claim);
      ok := !chart.fails;
    }
    if claim.calm {
      ShowsChart(nodes', bound', claim, k, chart);
    }
  }

  /** Installs the dependencies up to the first that fails. Each of them reports 100 on the chart that needs it. */
  method ApplyDependencies(dependencies: seq<Chart>, k: K8s, ghost nodes: set<K8s>, ghost bound: nat,
      ghost claim: Claim, ghost listening: set<K8s>)
    returns (ok: bool, ghost nodes': set<K8s>, ghost bound': nat)
    requires Quiet(nodes, bound, claim) && k in nodes && k.subscription.Slot? && k.localProgress == 0
    requires claim.calm ==> (dependencies == [] || Calm(dependencies[0])) && |k.kids| <= k.children
    requires forall p :: p in listening ==> p in nodes && Mirrors(p, k)
    modifies nodes`progress, nodes`pinned, nodes`childrenProgress, nodes`notified, k`kids
    decreases dependencies, 0
    ensures Quiet(nodes', bound', Claimed(claim, dependencies, listening))
    ensures nodes <= nodes' && forall n :: n in nodes' ==> n in nodes || fresh(n)
    ensures Elsewhere(nodes, k)
    ensures dependencies == [] ==> k.kids == old(k.kids)
    ensures ok <==> AllSucceed(dependencies)
  {
    nodes', bound' := nodes, bound;
    ghost var known := claim;
    for i := 0 to |dependencies|
      invariant known == if i == 0 then claim else Claimed(claim, dependencies, listening)
      invariant i > 0 ==> FirstInstalled(dependencies)
      invariant Quiet(nodes', bound', known) && nodes <= nodes' && forall n :: n in nodes' ==> n in nodes || fresh(n)
      invariant Elsewhere(nodes, k)
      invariant i == 0 ==> k.kids == old(k.kids)
      invariant AllSucceed(dependencies) == AllSucceed(dependencies[i..])
    {
      ok, nodes', bound' := ApplyDependency(dependencies[i], k, nodes', bound', known, listening);
      if !ok {
        return;
      }
      known := Claim(false, known.told + listening);
      assert claim.told + listening + listening == claim.told + listening;
      assert dependencies[i..][1..] == dependencies[i + 1..];
    }
    ok := true;
  }

  /** Once a dependency is installed, the chart that needs it shows 100, whatever else there is to do. */
  method ApplyDependency(dependency: Chart, k: K8s, ghost nodes: set<K8s>, ghost bound: nat, ghost claim: Claim,
      ghost listening: set<K8s>)
    returns (ok: bool, ghost nodes': set<K8s>, ghost bound': nat)
    requires Quiet(nodes, bound, claim) && k in nodes && k.subscription.Slot? && k.localProgress == 0
    requires claim.calm ==> Calm(dependency) && |k.kids| <= k.children
    requires forall p :: p in listening ==> p in nodes && Mirrors(p, k)
    modifies nodes`progress, nodes`pinned, nodes`childrenProgress, nodes`notified, k`kids
    decreases dependency, 5
    ensures Quiet(nodes', bound', if ok then Claim(false, claim.told + listening) else claim)
    ensures nodes <= nodes' && forall n :: n in nodes' ==> n in nodes || fresh(n)
    ensures Elsewhere(nodes, k)
    ensures ok <==> Succeeds(dependency)
  {
    NothingInstalled(claim, dependency);
    ok, nodes', bound' := WrapApply(dependency, k, nodes, bound, claim, {});
    if ok {
      assert forall p :: p in listening ==> Mirrors(p, k);
      Hundred(k, nodes', bound', claim, listening);
    }
  }

  method Hundred(k: K8s, ghost nodes: set<K8s>, ghost bound: nat, ghost claim: Claim, ghost listening: set<K8s>)
    requires Quiet(nodes, bound, claim) && k in nodes && k.subscription.Slot?
    requires forall p :: p in listening ==> p in nodes && Mirrors(p, k)
    modifies nodes`progress, nodes`pinned, nodes`childrenProgress, nodes`notified
    ensures Elsewhere(nodes, k)
    ensures Quiet(nodes, bound, Claim(false, claim.told + listening))
  {
    forall n | n in nodes
      ensures Fine(n, bound, claim)
    {
    }
    assert Fine(k, bound, claim);
    k.Progress(100, nodes);
    forall n | n in nodes
      ensures Fine(n, bound, Claim(false, claim.told + listening))
    {
      assert old(Fine(n, bound, claim));
      if n in listening {
        SameAsChild(nodes, n, k);
      }
    }
  }

  method Clone(parent: K8s, children: nat, ghost nodes: set<K8s>, ghost bound: nat, ghost claim: Claim) returns (k: K8s)
    requires Quiet(nodes, bound, claim) && parent in nodes && parent.localProgress == 0
    requires claim.calm ==> |parent.kids| <= parent.children
    modifies parent`childrenProgress, parent`kids
    ensures Quiet(nodes + {k}, bound + 1, claim) && fresh(k)
    ensures k.children == children && k.localProgress == 0 && k.kids == []
    ensures k.subscription == Slot(parent, |old(parent.kids)|)
    ensures |parent.kids| == |old(parent.kids)| + 1 && parent.kids[|old(parent.kids)|] == k
  {
    assert Fine(parent, bound, claim) && |parent.childrenProgress| == |parent.kids|;
    forall n | n in nodes
      ensures n.id < bound
    {
      assert Fine(n, bound, claim);
    }
    k := parent.ForSubChart(children, nodes, bound);
    assert |parent.childrenProgress| == |parent.kids|;
    forall n | n in nodes + {k}
      ensures Fine(n, bound + 1, claim)
    {
      assert n in nodes && n != parent ==> n.kids == old(n.kids) && old(Fine(n, bound, claim));
    }
  }

  /** Applies the sub-charts up to the first that fails. */
  method ApplySubCharts(subCharts: seq<Chart>, k: K8s, ghost nodes: set<K8s>, ghost bound: nat, ghost claim: Claim)
    returns (ok: bool, ghost nodes': set<K8s>, ghost bound': nat)
    requires Quiet(nodes, bound, claim) && k in nodes && k.localProgress == 0 && k.children == |subCharts|
    requires claim.calm ==> AllCalm(subCharts) && k.kids == []
    modifies nodes`progress, nodes`pinned, nodes`childrenProgress, nodes`notified, k`kids
    decreases subCharts, 0
    ensures Quiet(nodes', bound', claim) && nodes <= nodes' && forall n :: n in nodes' ==> n in nodes || fresh(n)
    ensures Elsewhere(nodes, k)
    ensures claim.calm ==> k.childrenProgress == AllShown(subCharts)
    ensures claim.calm ==> |k.kids| <= k.children
    ensures ok <==> AllSucceed(subCharts)
  {
    nodes', bound' := nodes, bound;
    for i := 0 to |subCharts|
      invariant Quiet(nodes', bound', claim) && nodes <= nodes' && forall n :: n in nodes' ==> n in nodes || fresh(n)
      invariant Elsewhere(nodes, k)
      invariant claim.calm ==>
        k.childrenProgress + AllShown(subCharts[i..]) == AllShown(subCharts)
      invariant |k.kids| == |old(k.kids)| + i && (claim.calm ==> AllCalm(subCharts[i..]))
      invariant AllSucceed(subCharts) == AllSucceed(subCharts[i..])
    {
      NothingInstalled(claim, subCharts[i]);
      if claim.calm {
        ShownInTurn(subCharts, i, k.childrenProgress);
      } else {
        assert subCharts[i..][1..] == subCharts[i + 1..];
      }
      ok, nodes', bound' := WrapApply(subCharts[i], k, nodes', bound', claim, {});
      if !ok {
        return;
      }
    }
    ok := true;
  }

  /** Applies the chart's own objects; kubectl reports one after the other. */
  method ApplyLocal(chart: Chart, k: K8s, ghost nodes: set<K8s>, ghost bound: nat, ghost claim: Claim)
    requires Quiet(nodes, bound, claim) && k in nodes && k.localProgress == 0 && (claim.calm ==> |k.kids| <= k.children)
    modifies k`localProgress, k`handled, k`objects
    modifies nodes`progress, nodes`pinned, nodes`childrenProgress, nodes`notified
    ensures Quiet(nodes, bound, claim) && Elsewhere(nodes, k) && k.childrenProgress == old(k.childrenProgress)
    ensures k.localProgress == Handled(chart.matched, chart.objects)
  {
    HandledGrows(0, chart.objects);
    for m := 0 to chart.matched
      invariant Quiet(nodes, bound, claim) && (claim.calm ==> |k.kids| <= k.children)
      invariant Elsewhere(nodes, k) && k.childrenProgress == old(k.childrenProgress)
      invariant k.localProgress == Handled(m, chart.objects)
    {
      Report(k, m, chart.objects, nodes, bound, claim);
    }
  }

  /** kubectl has handled one more object. */
  method Report(k: K8s, m: nat, objects: nat, ghost nodes: set<K8s>, ghost bound: nat, ghost claim: Claim)
    requires Quiet(nodes, bound, claim) && k in nodes && (claim.calm ==> |k.kids| <= k.children)
    requires k.localProgress == Handled(m, objects)
    modifies k`localProgress, k`handled, k`objects
    modifies nodes`progress, nodes`pinned, nodes`childrenProgress, nodes`notified
    ensures Elsewhere(nodes, k) && k.childrenProgress == old(k.childrenProgress)
    ensures Quiet(nodes, bound, claim) && k.localProgress == Handled(m + 1, objects)
  {
    HandledGrows(m, objects);
    forall n | n in nodes
      ensures Fine(n, bound, claim) && (claim.calm ==> !n.pinned)
    {
      assert Fine(n, bound, claim);
    }
    k.ProgressCb(m + 1, objects, nodes);
    forall n | n in nodes
      ensures Fine(n, bound, claim)
    {
      assert old(Fine(n, bound, claim));
    }
  }

  /** Applies a chart for a caller who listens. */
  method ApplyChart(chart: Chart) returns (ok: bool, root: K8s)
    ensures ok <==> Succeeds(chart)
    ensures ok ==> root.progress == 100
    // The first dependency that is installed announces 100 on behalf of the chart.
    ensures ok || FirstInstalled(chart.dependencies) ==> 100 in root.notified
    // So 100 without success is heard exactly if that dependency is installed and something later fails.
    ensures CalmAtFirst(chart) ==>
              (100 in root.notified && !ok <==> FirstInstalled(chart.dependencies) && !Succeeds(chart))
    // Otherwise what the caller hears goes up in steps of five; 100 is the last of it and means success.
    ensures CalmAtFirst(chart) && !FirstInstalled(chart.dependencies) ==> HeardWell(root, ok)
    // Before that it has heard of all objects that were handled.
    ensures Calm(chart) ==> EndsWith(HeardBefore(root, ok), Shown(chart))
  {
    root := new K8s(Root, 0, 0);
    ghost var nodes, bound, claim := {root}, 1, Claim(CalmAtFirst(chart), {});
    assert Fine(root, 1, claim) && root.Current();
    ok, nodes, bound := WrapApply(chart, root, nodes, bound, claim, {root});
    if Calm(chart) {
      RootShows(nodes, bound, claim, root, chart);
    }
    Finish(root, ok, nodes, bound, Claimed(claim, chart.dependencies, {root}));
  }

  lemma {:induction false} RootShows(nodes: set<K8s>, bound: nat, claim: Claim, root: K8s, chart: Chart)
    requires Quiet(nodes, bound, claim) && claim.calm && root in nodes
    requires root.children == root.localProgress == 0 && root.childrenProgress == [Shown(chart)]
    ensures root.progress == Shown(chart)
  {
    assert Fine(root, bound, claim) && root.Current();
    TreeIsClose(chart);
    OneSlot(0, [Shown(chart)]);
  }

  /** What the caller has heard before the end of a successful apply. */
  ghost function HeardBefore(root: K8s, ok: bool): seq<int>
    requires ok ==> root.notified != []
    reads root
  {
    if ok then root.notified[..|root.notified| - 1] else root.notified
  }

  ghost predicate EndsWith(heard: seq<int>, shown: int) {
    if shown == 0 then heard == [] else heard != [] && heard[|heard| - 1] == shown
  }

  /** A successful apply ends with 100. */
  method Finish(root: K8s, ok: bool, ghost nodes: set<K8s>, ghost bound: nat, ghost claim: Claim)
    requires Quiet(nodes, bound, claim) && root in nodes && root.subscription.Root?
    modifies nodes`progress, nodes`pinned, nodes`childrenProgress, nodes`notified
    ensures ok ==> root.progress == 100
    ensures ok || root in claim.told ==> 100 in root.notified
    ensures claim.calm ==> HeardWell(root, ok) && (100 in root.notified ==> ok)
    ensures claim.calm ==> EndsWith(HeardBefore(root, ok), old(root.progress))
  {
    assert Fine(root, bound, claim);
    if claim.calm {
      HeardSoFar(nodes, root, bound, claim);
    }
    if ok {
      root.Progress(100, nodes);
    }
  }

  ghost predicate HeardWell(root: K8s, ok: bool)
    reads root
  {
    && Increasing(root.notified) && |root.notified| <= 19
    && (forall i :: 0 <= i < |root.notified| ==> root.notified[i] % 5 == 0)
    && (forall i :: 0 <= i < |root.notified| ==> 0 < root.notified[i] <= 90 || (ok && i == |root.notified| - 1))
    && (ok ==> root.notified != [] && root.notified[|root.notified| - 1] == 100)
  }

  /** What the caller has heard before the end. */
  lemma {:induction false} HeardSoFar(nodes: set<K8s>, root: K8s, bound: nat, claim: Claim)
    requires Quiet(nodes, bound, claim) && claim.calm && root in nodes && root.subscription.Root?
    ensures Increasing(root.notified) && |root.notified| <= 18 && 0 <= root.progress <= 90
    ensures forall i :: 0 <= i < |root.notified| ==> root.notified[i] % 5 == 0 && 0 < root.notified[i] <= 90
    ensures EndsWith(root.notified, root.progress)
  {
    assert Fine(root, bound, claim);
    ShownInRange(nodes, root, bound, claim);
    FewNotifications(root.notified, root.progress);
    StepsOfFive(root.notified, root.progress);
  }

  /** A chart without sub-charts shows what it and its only dependency, which needs nothing else, have handled, for the
      dependency has a slot that no child was declared for. Before the first object it shows 100. */
  method OneDependency(dependency: Chart, chart: Chart) returns (root: K8s)
    ensures root.progress == ShownWith(dependency, chart)
  {
    var k, d;
    root, k, d := ChartAndDependency();
    InstallDependency(dependency, root, k, d);
    FullShare(dependency);
    FullShare(chart);
    Handle(chart, k, {root, k, d});
    if chart.matched > 0 && chart.objects > 0 {
      BothShown(root, k, d);
    }
  }

  function ShownWith(dependency: Chart, chart: Chart): int {
    if chart.matched == 0 || chart.objects == 0 then 100 else Round5(Round5(Share90(dependency)) + Share90(chart))
  }

  /** So it goes beyond 100 exactly if both shares come to at least 105, and up to 180. */
  lemma {:induction false} DependencyOvershoots(dependency: Chart, chart: Chart)
    ensures ShownWith(dependency, chart) > 100 <==>
              chart.matched > 0 && chart.objects > 0 && Round5(Share90(dependency)) + Share90(chart) >= 105
    ensures dependency.matched >= dependency.objects > 0 && chart.matched >= chart.objects > 0 ==>
              ShownWith(dependency, chart) == 180
  {
    FullShare(dependency);
    FullShare(chart);
  }

  method InstallDependency(dependency: Chart, root: K8s, k: K8s, d: K8s)
    requires Chained(root, k, d) && d.localProgress == 0
    modifies d`localProgress, d`handled, d`objects
    modifies {root, k, d}`progress, {root, k, d}`pinned, {root, k, d}`childrenProgress, {root, k, d}`notified
    ensures Chained(root, k, d) && d.localProgress == Share90(dependency) && root.progress == 100
  {
    Handle(dependency, d, {root, k, d});
    k.Progress(100, {root, k, d});
    SameAsChild({root, k, d}, root, k);
  }

  function Share90(chart: Chart): int {
    Handled(chart.matched, chart.objects)
  }

  lemma {:induction false} FullShare(chart: Chart)
    ensures 0 <= Share90(chart) <= 90
    ensures chart.matched >= chart.objects > 0 ==> Share90(chart) == 90
  {
    HandledGrows(chart.matched, chart.objects);
    if chart.objects > 0 {
      WholeShare(chart.objects);
    }
  }

  /** kubectl handles the objects of one chart. */
  method Handle(chart: Chart, k: K8s, ghost nodes: set<K8s>)
    requires Consistent(nodes) && k in nodes && k.localProgress == 0
    modifies k`localProgress, k`handled, k`objects
    modifies nodes`progress, nodes`pinned, nodes`childrenProgress, nodes`notified
    ensures Consistent(nodes) && k.localProgress == Share90(chart)
    ensures forall n :: n in nodes && n.pinned ==> old(n.pinned)
    ensures chart.matched > 0 && chart.objects > 0 ==> !k.pinned
    ensures chart.matched == 0 || chart.objects == 0 ==> forall n :: n in nodes ==> unchanged(n)
  {
    HandledGrows(0, chart.objects);
    for m := 0 to chart.matched
      invariant Consistent(nodes) && k.localProgress == Handled(m, chart.objects)
      invariant forall n :: n in nodes && n.pinned ==> old(n.pinned)
      invariant m > 0 && chart.objects > 0 ==> !k.pinned
      invariant m == 0 || chart.objects == 0 ==> forall n :: n in nodes ==> unchanged(n)
    {
      HandledGrows(m, chart.objects);
      k.ProgressCb(m + 1, chart.objects, nodes);
    }
  }

  /** A chart, and the clone for its dependency. */
  ghost predicate Chained(root: K8s, k: K8s, d: K8s)
    reads root, k, d
  {
    && Consistent({root, k, d}) && !root.pinned && !d.pinned
    && root.kids == [k] && k.kids == [d] && d.kids == [] && root.children == k.children == d.children == 0
    && root.localProgress == 0 && root.subscription.Root?
    && k.subscription == Slot(root, 0) && d.subscription == Slot(k, 0)
  }

  method ChartAndDependency() returns (root: K8s, k: K8s, d: K8s)
    ensures Chained(root, k, d) && fresh({root, k, d}) && k.localProgress == d.localProgress == 0
  {
    root := new K8s(Root, 0, 0);
    assert root.Current();
    k := root.ForSubChart(0, {root}, 1);
    assert root.kids == [k];
    d := k.ForSubChart(0, {root} + {k}, 2);
    assert {root} + {k} + {d} == {root, k, d};
    assert k.kids == [d];
  }

  lemma {:induction false} BothShown(root: K8s, k: K8s, d: K8s)
    requires Chained(root, k, d) && !k.pinned && d.localProgress >= 0 && k.localProgress >= 0
    ensures root.progress == Round5(Round5(d.localProgress) + k.localProgress)
  {
    assert d.Current() && d.childrenProgress == [];
    OneSlot(d.localProgress, []);
    assert k.Current() && k.childrenProgress == [d.progress];
    OneSlot(k.localProgress, [d.progress]);
    assert root.Current() && root.childrenProgress == [k.progress];
    OneSlot(0, [k.progress]);
  }

  /** What a node without declared children shows for its own progress and at most one slot. */
  lemma {:induction false} OneSlot(local: nat, slots: seq<int>)
    requires |slots| <= 1 && forall i :: 0 <= i < |slots| ==> slots[i] >= 0
    ensures Average(local, slots, 0) == if slots == [] then Round5(local) else Round5(local + slots[0])
  {
    if slots == [] {
      DivFacts(local, 1);
    } else {
      assert Sum(slots) == slots[0];
      DivFacts(local + slots[0], 1);
    }
  }

  lemma {:induction false} ShownInRange(nodes: set<K8s>, n: K8s, bound: nat, claim: Claim)
    requires Quiet(nodes, bound, claim) && claim.calm && n in nodes
    ensures 0 <= n.progress <= 90
  {
    forall m | m in nodes
      ensures m.id < bound && Fits(m) && !m.pinned && !m.subscription.Silent?
    {
      assert Fine(m, bound, claim);
    }
    InRange(nodes, n, bound);
  }

  lemma {:induction false} StepsOfFive(notified: seq<int>, progress: int)
    requires Climbed(notified, progress)
    ensures forall i :: 0 <= i < |notified| ==> notified[i] % 5 == 0
  {
    if notified != [] {
      var n := |notified|;
      var previous := if n == 1 then 0 else notified[n - 2];
      StepsOfFive(notified[..n - 1], previous);
      assert forall i :: 0 <= i < n - 1 ==> notified[i] == notified[..n - 1][i];
    }
  }
}
