/** Whole runs: sub-charts register, objects get handled, and the root is told. */
module ProgressRuns {
  import opened ProgressTrees
  import opened Progress

  /** Nodes are numbered in order of creation; the root is 0. */
  datatype Event =
    | SubChart(parent: nat, children: nat)
    | Report(node: nat, matched: nat, count: nat)
    | Set(node: nat, value: int)

  function Size(events: seq<Event>): nat {
    if events == [] then 1 else
      var n := |events| - 1;
      Size(events[..n]) + if events[n].SubChart? then 1 else 0
  }

  /** Events only concern nodes that exist. */
  ghost predicate Placed(events: seq<Event>) {
    events != [] ==>
      var n := |events| - 1;
      Placed(events[..n]) &&
      match events[n]
      case SubChart(parent, _) => parent < Size(events[..n])
      case Report(node, _, _) => node < Size(events[..n])
      case Set(node, _) => node < Size(events[..n])
  }

  /** The node that this one was cloned from, and for how many sub-charts. */
  function Origin(events: seq<Event>, node: nat): (nat, nat) {
    if events == [] then (0, 0) else
      var n := |events| - 1;
      match events[n]
      case SubChart(parent, children) =>
        if node == Size(events[..n]) then (parent, children) else Origin(events[..n], node)
      case _ => Origin(events[..n], node)
  }

  /** How many of its own objects a node has last reported as handled, and of how many; reports out of range do not
      count. */
  function Handled(events: seq<Event>, node: nat): (nat, nat) {
    if events == [] then (0, 0) else
      var n := |events| - 1;
      match events[n]
      case Report(i, matched, count) =>
        if i == node && Counts(matched, count) then (matched, count) else Handled(events[..n], node)
      case _ => Handled(events[..n], node)
  }

  /** The progress that this comes to. */
  function Local(events: seq<Event>, node: nat): int {
    var (handled, count) := Handled(events, node);
    Part(handled, count)
  }

  /** Nothing is set explicitly and no report falls behind an earlier one of the same node. */
  ghost predicate Steady(events: seq<Event>) {
    events != [] ==>
      var n := |events| - 1;
      Steady(events[..n]) &&
      match events[n]
      case SubChart(_, _) => true
      case Report(i, _, _) => Local(events[..n], i) <= Local(events, i)
      case Set(_, _) => false
  }

  ghost function Nodes(nodes: seq<K8s>): set<K8s> {
    set n | n in nodes
  }

  ghost predicate Numbered(nodes: seq<K8s>) {
    && (forall i :: 0 <= i < |nodes| ==> nodes[i].id == i && !nodes[i].subscription.Silent?)
    && |nodes| > 0
    && nodes[0].subscription.Root?
  }

  ghost predicate Cloned(nodes: seq<K8s>, events: seq<Event>, i: nat)
    requires 0 < i < |nodes|
  {
    var (parent, children) := Origin(events, i);
    && parent < i && nodes[i].children == children
    && nodes[i].subscription.Slot? && nodes[i].subscription.parent == nodes[parent]
  }

  /** `nodes` are what the events so far have led to. */
  ghost predicate Tracks(nodes: seq<K8s>, events: seq<Event>)
    reads nodes
  {
    && Numbered(nodes)
    && |nodes| == Size(events)
    && (forall i :: 0 < i < |nodes| ==> Cloned(nodes, events, i))
    && Consistent(Nodes(nodes))
    && (forall i :: 0 <= i < |nodes| ==> (nodes[i].handled, nodes[i].objects) == Handled(events, i))
    && (Steady(events) ==> Climbed(nodes[0].notified, nodes[0].progress) && forall n :: n in Nodes(nodes) ==> !n.pinned)
  }

  /** After any run every node shows the recursive average of all local progress below it; in a steady
      run the notifications of the root only climb, and there are at most eighteen of them. */
  method Run(children: nat, events: seq<Event>) returns (nodes: seq<K8s>)
    requires Placed(events)
    ensures Tracks(nodes, events) && nodes[0].children == children
    ensures forall n :: n in Nodes(nodes) ==> n.progress == Eval(TreeOf(Nodes(nodes), n, |nodes|))
    ensures Steady(events) && (forall n :: n in Nodes(nodes) ==> Fits(n)) ==> |nodes[0].notified| <= 18
  {
    var root := new K8s(Root, children, 0);
    nodes := [root];
    for k := 0 to |events|
      invariant Tracks(nodes, events[..k]) && nodes[0] == root
      invariant forall n :: n in Nodes(nodes) ==> fresh(n)
    {
      assert events[..k] + [events[k]] == events[..k + 1];
      PlacedPrefix(events, k + 1);
      match events[k]
      case SubChart(parent, kids) => nodes := Register(nodes, events[..k], parent, kids);
      case Report(node, matched, count) => Tell(nodes, events[..k], node, matched, count);
      case Set(node, value) => Force(nodes, events[..k], node, value);
    }
    assert events[..|events|] == events;
    Meaning(nodes, events);
  }

  lemma {:induction false} Meaning(nodes: seq<K8s>, events: seq<Event>)
    requires Tracks(nodes, events)
    ensures forall n :: n in Nodes(nodes) ==> n.progress == Eval(TreeOf(Nodes(nodes), n, |nodes|))
    ensures Steady(events) && (forall n :: n in Nodes(nodes) ==> Fits(n)) ==> |nodes[0].notified| <= 18
  {
    forall n | n in Nodes(nodes)
      ensures n.progress == Eval(TreeOf(Nodes(nodes), n, |nodes|))
    {
      ShowsTree(Nodes(nodes), n, |nodes|);
    }
    if Steady(events) && forall n :: n in Nodes(nodes) ==> Fits(n) {
      InRange(Nodes(nodes), nodes[0], |nodes|);
      FewNotifications(nodes[0].notified, nodes[0].progress);
    }
  }

  lemma {:induction false} PlacedPrefix(events: seq<Event>, k: nat)
    requires Placed(events) && k <= |events|
    ensures Placed(events[..k])
    decreases |events| - k
  {
    if k < |events| {
      PlacedPrefix(events, k + 1);
      assert events[..k + 1][..k] == events[..k];
    } else {
      assert events[..k] == events;
    }
  }

  method Register(nodes: seq<K8s>, ghost before: seq<Event>, parent: nat, children: nat) returns (nodes': seq<K8s>)
    requires Placed(before + [SubChart(parent, children)]) && Tracks(nodes, before)
    modifies Nodes(nodes)
    ensures Tracks(nodes', before + [SubChart(parent, children)])
    ensures nodes' == nodes + [nodes'[|nodes|]] && (forall n :: n in Nodes(nodes') ==> n in Nodes(nodes) || fresh(n))
  {
    ghost var after := before + [SubChart(parent, children)];
    assert after[..|before|] == before;
    var k := nodes[parent].ForSubChart(children, Nodes(nodes), |nodes|);
    nodes' := nodes + [k];
    NoLocalYet(before, |nodes|);
    assert Nodes(nodes') == Nodes(nodes) + {k};
    assert Numbered(nodes') && nodes'[0] == nodes[0];
    forall i | 0 <= i < |nodes'|
      ensures (nodes'[i].handled, nodes'[i].objects) == Handled(after, i)
    {
      assert Handled(after, i) == Handled(before, i);
    }
    forall i | 0 < i < |nodes'|
      ensures Cloned(nodes', after, i)
    {
      assert i < |nodes| ==> Cloned(nodes, before, i);
    }
    assert Steady(after) ==> Steady(before);
  }

  method Tell(nodes: seq<K8s>, ghost before: seq<Event>, node: nat, matched: nat, count: nat)
    requires Placed(before + [Report(node, matched, count)]) && Tracks(nodes, before)
    modifies Nodes(nodes)
    ensures Tracks(nodes, before + [Report(node, matched, count)])
  {
    ghost var after := before + [Report(node, matched, count)];
    assert after[..|before|] == before;
    assert forall i :: 0 < i < |nodes| ==> Cloned(nodes, before, i) && Origin(after, i) == Origin(before, i);
    assert nodes[node].Measured();
    nodes[node].ProgressCb(matched, count, Nodes(nodes));
  }

  method Force(nodes: seq<K8s>, ghost before: seq<Event>, node: nat, value: int)
    requires Placed(before + [Set(node, value)]) && Tracks(nodes, before)
    modifies Nodes(nodes)
    ensures Tracks(nodes, before + [Set(node, value)])
    ensures nodes[node].progress == Round5(value)
  {
    ghost var after := before + [Set(node, value)];
    assert after[..|before|] == before;
    assert forall i :: 0 < i < |nodes| ==> Cloned(nodes, before, i) && Origin(after, i) == Origin(before, i);
    nodes[node].Progress(value, Nodes(nodes));
  }

  lemma {:induction false} NoLocalYet(events: seq<Event>, node: nat)
    requires Placed(events) && node >= Size(events)
    ensures Handled(events, node) == (0, 0)
  {
    if events != [] {
      NoLocalYet(events[..|events| - 1], node);
    }
  }

  lemma {:induction false} RoomyTree(nodes: set<K8s>, n: K8s, bound: nat)
    requires Linked(nodes) && n in nodes && forall m :: m in nodes ==> m.id < bound
    requires Slotted(nodes) && forall m :: m in nodes ==>
               |m.childrenProgress| <= m.children + 1 && (m.pinned ==> m.progress >= 0)
    ensures Roomy(TreeOf(nodes, n, bound))
    decreases bound - n.id, 0, 0
  {
    if !n.pinned {
      RoomyTrees(nodes, n, 0, bound);
    }
  }

  lemma {:induction false} RoomyTrees(nodes: set<K8s>, n: K8s, i: nat, bound: nat)
    requires Linked(nodes) && n in nodes && (forall m :: m in nodes ==> m.id < bound) && i <= |n.kids|
    requires Slotted(nodes) && forall m :: m in nodes ==>
               |m.childrenProgress| <= m.children + 1 && (m.pinned ==> m.progress >= 0)
    ensures AllRoomy(TreesOf(nodes, n, i, bound))
    decreases bound - n.id - 1, 1, |n.kids| - i
  {
    if i < |n.kids| {
      RoomyTree(nodes, n.kids[i], bound);
      RoomyTrees(nodes, n, i + 1, bound);
    }
  }

  /** What a node shows is at most the exact average of averages of the objects handled, and less than five per level
      below it. */
  lemma {:induction false} ShownIsClose(nodes: set<K8s>, n: K8s, bound: nat)
    requires Consistent(nodes) && n in nodes && (forall m :: m in nodes ==> m.id < bound) && !n.subscription.Silent?
    requires forall m :: m in nodes ==>
               |m.childrenProgress| <= m.children + 1 && (m.pinned ==> m.progress >= 0)
    ensures var t := TreeOf(nodes, n, bound);
            Exact(t) - 5.0 * Height(t) as real < n.progress as real <= Exact(t)
  {
    ShowsTree(nodes, n, bound);
    RoomyTree(nodes, n, bound);
    ErrorBound(TreeOf(nodes, n, bound));
  }
}
