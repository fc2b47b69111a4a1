/** Progress reports flowing from sub-charts to the root (pkg/k8s/k8s.go:173-183, 263-328). */
module Progress {
  import opened ProgressTrees

  /** Who is told when a node's progress changes: nobody, the caller of NewK8s, or a slot of the parent. */
  datatype Subscription = Silent | Root | Slot(parent: K8s, index: nat)

  class K8s {
    const subscription: Subscription
    const children: nat
    var progress: int
    var localProgress: int
    var childrenProgress: seq<int>
    /** What the root's subscription has been called with. */
    var notified: seq<int>

    /** What the local progress stands for: so many of the node's own objects were handled. */
    ghost var handled: nat
    ghost var objects: nat
    /** The clones behind the slots. */
    ghost var kids: seq<K8s>
    /** The last value came from an explicit call of Progress. */
    ghost var pinned: bool
    /** Position in the order of creation. */
    ghost const id: nat

    constructor (subscription: Subscription, children: nat, ghost id: nat)
      ensures this.subscription == subscription && this.children == children && this.id == id
      ensures progress == 0 && localProgress == 0 && childrenProgress == [] && kids == [] && notified == [] && !pinned
      ensures handled == objects == 0
    {
      this.subscription, this.children, this.id := subscription, children, id;
      progress, localProgress, childrenProgress, kids, notified, pinned := 0, 0, [], [], [], false;
      handled, objects := 0, 0;
    }

    function Aggregate(): int
      reads this
    {
      Average(localProgress, childrenProgress, children)
    }

    /** This node shows what its slots and its own progress come to, unless it was set explicitly. */
    ghost predicate Current()
      reads this
    {
      subscription.Silent? || pinned || progress == Aggregate()
    }

    ghost predicate Measured()
      reads this`localProgress, this`handled, this`objects
    {
      localProgress == Part(handled, objects)
    }

    /** This node and all nodes above it. */
    ghost function Path(): set<K8s>
      decreases id
    {
      {this} + if subscription.Slot? && subscription.parent.id < id then subscription.parent.Path() else {}
    }

    /** Recomputes the aggregate from the node's own progress and all slots, and publishes it. */
    method ReportProgress(ghost nodes: set<K8s>)
      requires this in nodes && Linked(nodes) && Synced(nodes)
      requires forall n :: n in nodes && n != this ==> n.Current()
      modifies nodes`progress, nodes`pinned, nodes`childrenProgress, nodes`notified
      decreases id, 3
      ensures Synced(nodes)
      ensures Heard(nodes)
      ensures forall n :: n in nodes && (id < n.id || n !in Path()) ==> unchanged(n)
      ensures forall n :: n in nodes ==> n.Current() && (n.pinned ==> old(n.pinned) && n != this)
      ensures childrenProgress == old(childrenProgress)
      ensures
        && (subscription.Silent? || old(progress <= Aggregate()))
        && (forall n :: n in nodes && n.id < id ==> old(!n.pinned))
        ==> Risen(nodes)
    {
      var sum := Total();
      pinned := false;
      Publish(GoDiv(sum, children + 1), nodes);
    }

    method Total() returns (sum: int)
      ensures sum == localProgress + Sum(childrenProgress)
    {
      sum := localProgress;
      for i := 0 to |childrenProgress|
        invariant sum == localProgress + Sum(childrenProgress[..i])
      {
        assert childrenProgress[..i + 1] == childrenProgress[..i] + [childrenProgress[i]];
        SumAppend(childrenProgress[..i], childrenProgress[i]);
        sum := sum + childrenProgress[i];
      }
      assert childrenProgress[..|childrenProgress|] == childrenProgress;
    }

    /** Rounds a value, remembers it and passes it on if it is new. */
    method Publish(value: int, ghost nodes: set<K8s>)
      requires this in nodes && Linked(nodes) && Synced(nodes)
      requires forall n :: n in nodes && n != this ==> n.Current()
      requires pinned || Round5(value) == Aggregate()
      modifies nodes`progress, nodes`pinned, nodes`childrenProgress, nodes`notified
      decreases id, 2
      ensures Synced(nodes)
      ensures Heard(nodes)
      ensures forall n :: n in nodes && (id < n.id || n !in Path()) ==> unchanged(n)
      ensures forall n :: n in nodes ==> n.Current() && (n.pinned ==> old(n.pinned))
      ensures pinned == old(pinned) && childrenProgress == old(childrenProgress)
      ensures progress == if subscription.Silent? then old(progress) else Round5(value)
      ensures
        && (subscription.Silent? || old(progress) <= Round5(value))
        && (forall n :: n in nodes && n.id < id ==> old(!n.pinned))
        ==> Risen(nodes)
    {
      if subscription.Silent? {
        return;
      }
      var rounded := GoDiv(value, 5) * 5;
      if rounded == progress {
        return;
      }
      Show(rounded, nodes);
    }

    /** Remembers a new value and passes it on. */
    method Show(value: int, ghost nodes: set<K8s>)
      requires this in nodes && Linked(nodes) && Synced(nodes) && !subscription.Silent?
      requires forall n :: n in nodes && n != this ==> n.Current()
      requires value != progress && value % 5 == 0 && (pinned || value == Aggregate())
      modifies nodes`progress, nodes`pinned, nodes`childrenProgress, nodes`notified
      decreases id, 1
      ensures Synced(nodes)
      ensures Heard(nodes)
      ensures forall n :: n in nodes && (id < n.id || n !in Path()) ==> unchanged(n)
      ensures forall n :: n in nodes ==> n.Current() && (n.pinned ==> old(n.pinned))
      ensures progress == value && pinned == old(pinned) && childrenProgress == old(childrenProgress)
      ensures old(progress) <= value && (forall n :: n in nodes && n.id < id ==> old(!n.pinned)) ==> Risen(nodes)
    {
      Remember(value, nodes);
      ClimbsOn(notified, old(progress), value);
      Announce(nodes);
      assert subscription.Root? ==> forall n :: n in nodes && n != this ==>
             n.progress == old(n.progress) && n.notified == old(n.notified);
    }

    method Remember(value: int, ghost nodes: set<K8s>)
      requires this in nodes && Linked(nodes) && Synced(nodes) && !subscription.Silent?
      requires forall n :: n in nodes && n != this ==> n.Current()
      requires pinned || value == Aggregate()
      modifies this`progress
      ensures progress == value
      ensures forall n, j :: n in nodes && 0 <= j < |n.kids| && n.kids[j] != this ==>
                n.childrenProgress[j] == n.kids[j].progress
      ensures forall n :: n in nodes ==> n.Current()
      ensures subscription.Slot? ==> subscription.parent.childrenProgress[subscription.index] == old(progress)
    {
      assert subscription.Slot? ==> subscription.parent.childrenProgress[subscription.index] == progress;
      progress := value;
      forall n | n in nodes && n != this
        ensures n.Current()
      {
        assert old(n.Current());
      }
    }

    /** Calls the subscription with the new value. */
    method Announce(ghost nodes: set<K8s>)
      requires this in nodes && Linked(nodes) && Slotted(nodes) && !subscription.Silent?
      requires forall n, j :: n in nodes && 0 <= j < |n.kids| && n.kids[j] != this ==>
               n.childrenProgress[j] == n.kids[j].progress
      requires forall n :: n in nodes ==> n.Current()
      modifies nodes`progress, nodes`pinned, nodes`childrenProgress, nodes`notified
      decreases id, 0
      ensures Synced(nodes)
      ensures subscription.Slot? ==> Heard(nodes)
      ensures forall n :: n in nodes && (id < n.id || n !in Path()) ==> unchanged(n)
      ensures forall n :: n in nodes ==> n.Current() && (n.pinned ==> old(n.pinned))
      ensures unchanged(`progress) && unchanged(`pinned) && unchanged(`childrenProgress)
      ensures notified == if subscription.Root? then old(notified) + [progress] else old(notified)
      ensures
        && subscription.Slot?
        && old(subscription.parent.childrenProgress[subscription.index]) <= progress
        && (forall n :: n in nodes && n.id < id ==> old(!n.pinned))
        ==> Risen(nodes)
      ensures subscription.Root? ==> forall n :: n in nodes && n != this ==> unchanged(n)
    {
      match subscription
      case Root =>
        notified := notified + [progress];
      case Slot(parent, index) =>
        parent.ChildReported(index, progress, nodes);
    }

    /** The callback handed to the clone behind slot `index`. */
    method ChildReported(index: nat, value: int, ghost nodes: set<K8s>)
      requires this in nodes && Linked(nodes) && Slotted(nodes) && !subscription.Silent?
      requires index < |kids| && kids[index].progress == value
      requires forall n, j :: n in nodes && 0 <= j < |n.kids| && !(n == this && j == index) ==>
                 n.childrenProgress[j] == n.kids[j].progress
      requires forall n :: n in nodes ==> n.Current()
      modifies nodes`progress, nodes`pinned, nodes`childrenProgress, nodes`notified
      decreases id, 4
      ensures Synced(nodes)
      ensures Heard(nodes)
      ensures forall n :: n in nodes && (id < n.id || n !in Path()) ==> unchanged(n)
      ensures forall n :: n in nodes ==> n.Current() && (n.pinned ==> old(n.pinned))
      ensures
        old(childrenProgress[index]) <= value && (forall n :: n in nodes && n.id <= id ==> old(!n.pinned)) ==>
            Risen(nodes)
    {
      SlotRaised(localProgress, childrenProgress, index, value, children);
      childrenProgress := childrenProgress[index := value];
      assert forall n :: n in nodes ==>
             n.progress == old(n.progress) && n.notified == old(n.notified) && n.pinned == old(n.pinned);
      ReportProgress(nodes);
    }

    /** Takes over how many objects were handled; nonsense is ignored, and 100 is never reached. */
    method ProgressCb(matched: nat, count: nat, ghost nodes: set<K8s>)
      requires this in nodes && Consistent(nodes)
      modifies this`localProgress, this`handled, this`objects
      modifies nodes`progress, nodes`pinned, nodes`childrenProgress, nodes`notified
      ensures Consistent(nodes) && forall n :: n in nodes && n.pinned ==> old(n.pinned)
      ensures forall n :: n in nodes && n !in Path() ==> unchanged(n)
      // The largest integer up to 90 times the fraction that was handled.
      ensures Counts(matched, count) ==>
                0 <= localProgress && localProgress * count <= 90 * matched < (localProgress + 1) * count
      ensures if Counts(matched, count) then handled == matched && objects == count
              else handled == old(handled) && objects == old(objects)
      ensures localProgress == if Counts(matched, count) then Share(matched, count) else old(localProgress)
      ensures childrenProgress == old(childrenProgress)
      ensures Counts(matched, count) ==> !pinned
      ensures !Counts(matched, count) ==> forall n :: n in nodes ==> unchanged(n)
      ensures Heard(nodes)
      ensures old(localProgress) <= localProgress && (forall n :: n in nodes ==> old(!n.pinned)) ==> Risen(nodes)
    {
      if count == 0 || matched > count {
        return;
      }
      ShareIsExact(matched, count);
      TakeOver(GoDiv(matched * 90, count), matched, count, nodes);
    }

    method TakeOver(local: int, ghost matched: nat, ghost count: nat, ghost nodes: set<K8s>)
      requires this in nodes && Consistent(nodes) && local == Part(matched, count)
      modifies this`localProgress, this`handled, this`objects
      modifies nodes`progress, nodes`pinned, nodes`childrenProgress, nodes`notified
      ensures Consistent(nodes) && forall n :: n in nodes && n.pinned ==> old(n.pinned) && n != this
      ensures forall n :: n in nodes && n !in Path() ==> unchanged(n)
      ensures localProgress == local && handled == matched && objects == count
      ensures childrenProgress == old(childrenProgress)
      ensures Heard(nodes)
      ensures old(localProgress) <= local && (forall n :: n in nodes ==> old(!n.pinned)) ==> Risen(nodes)
    {
      assert Current();
      if localProgress <= local {
        AverageMonotone(localProgress, childrenProgress, local, childrenProgress, children);
      }
      Measure(local, matched, count, nodes);
      ReportProgress(nodes);
    }

    method Measure(local: int, ghost matched: nat, ghost count: nat, ghost nodes: set<K8s>)
      requires this in nodes && Consistent(nodes) && local == Part(matched, count)
      modifies this`localProgress, this`handled, this`objects
      ensures localProgress == local && handled == matched && objects == count
      ensures Linked(nodes) && Synced(nodes) && AllMeasured(nodes)
      ensures forall n {:trigger n.Current()} :: n in nodes && n != this ==> n.Current()
    {
      localProgress, handled, objects := local, matched, count;
      forall n | n in nodes
        ensures n.Measured() && (n != this ==> n.Current())
      {
        assert n != this ==> old(n.Measured() && n.Current());
      }
    }

    /** Sets the value of this node, whatever its slots say. */
    method Progress(value: int, ghost nodes: set<K8s>)
      requires this in nodes && Consistent(nodes)
      modifies nodes`progress, nodes`pinned, nodes`childrenProgress, nodes`notified
      ensures Consistent(nodes) && forall n :: n in nodes && n.pinned ==> old(n.pinned) || n == this
      ensures progress == if subscription.Silent? then old(progress) else Round5(value)
      ensures forall n :: n in nodes && n !in Path() ==> unchanged(n)
      ensures Heard(nodes)
      ensures old(progress) <= Round5(value) && (forall n :: n in nodes ==> old(!n.pinned)) ==> Risen(nodes)
    {
      pinned := true;
      Publish(value, nodes);
    }

    /** Clones this node for a sub-chart. The clone reports into a new slot, which starts at zero;
        nobody listens to the clone of a node that nobody listens to. */
    method ForSubChart(children: nat, ghost nodes: set<K8s>, ghost id: nat) returns (k: K8s)
      requires this in nodes && Consistent(nodes) && forall n :: n in nodes ==> n.id < id
      modifies this`childrenProgress, this`kids
      ensures fresh(k) && k.children == children && k.id == id && k.localProgress == k.progress == 0 && k.kids == [] &&
              !k.pinned && k.handled == k.objects == 0
      ensures k.subscription == if subscription.Silent? then Silent else Slot(this, |old(childrenProgress)|)
      ensures childrenProgress == if subscription.Silent? then old(childrenProgress) else old(childrenProgress) + [0]
      ensures Consistent(nodes + {k})
    {
      if subscription.Silent? {
        k := new K8s(Silent, children, id);
      } else {
        k := AddProgressSubscription(children, nodes, id);
      }
    }

    /** Opens a slot and hands out the clone that reports into it. */
    method AddProgressSubscription(children: nat, ghost nodes: set<K8s>, ghost id: nat) returns (k: K8s)
      requires this in nodes && Consistent(nodes) && (forall n :: n in nodes ==> n.id < id) && !subscription.Silent?
      modifies this`childrenProgress, this`kids
      ensures fresh(k) && k.children == children && k.id == id && k.localProgress == k.progress == 0 && k.kids == [] &&
              !k.pinned && k.handled == k.objects == 0
      ensures k.subscription == Slot(this, |old(childrenProgress)|) && childrenProgress == old(childrenProgress) + [0]
      ensures Consistent(nodes + {k})
    {
      k := new K8s(Slot(this, |childrenProgress|), children, id);
      Attach(k, nodes);
    }

    ghost predicate Blank()
      reads this
    {
      progress == 0 && localProgress == 0 && childrenProgress == [] && kids == [] && Measured()
    }

    method Attach(k: K8s, ghost nodes: set<K8s>)
      requires this in nodes && Consistent(nodes) && !subscription.Silent?
      requires k !in nodes && id < k.id && k.Blank() && k.subscription == Slot(this, |childrenProgress|)
      modifies this`childrenProgress, this`kids
      ensures childrenProgress == old(childrenProgress) + [0]
      ensures Consistent(nodes + {k})
    {
      SumAppend(childrenProgress, 0);
      assert Current();
      Link(k, nodes);
      childrenProgress := childrenProgress + [0];
      assert Aggregate() == old(Aggregate());
      forall n, j | n in nodes + {k} && 0 <= j < |n.kids|
        ensures j < |n.childrenProgress| && n.childrenProgress[j] == n.kids[j].progress
      {
        if n == this && j < |old(kids)| {
          assert old(childrenProgress)[j] == old(kids)[j].progress;
        }
      }
      forall n | n in nodes + {k}
        ensures n.Current()
      {
        assert n in nodes && n != this ==> old(n.Current());
      }
    }

    ghost method Link(k: K8s, nodes: set<K8s>)
      requires this in nodes && Linked(nodes) && !subscription.Silent?
      requires k !in nodes && id < k.id && k.kids == [] && k.subscription == Slot(this, |kids|)
      modifies this`kids
      ensures kids == old(kids) + [k]
      ensures Linked(nodes + {k})
    {
      kids := kids + [k];
    }
  }

  /** Every slot shows its sub-chart, every node shows its slots. */
  ghost predicate Consistent(nodes: set<K8s>)
    reads nodes
  {
    && Linked(nodes) && Synced(nodes)
    && (forall n {:trigger n.Current()} :: n in nodes ==> n.Current())
    && AllMeasured(nodes)
  }

  ghost predicate AllMeasured(nodes: set<K8s>)
    reads nodes`localProgress, nodes`handled, nodes`objects
  {
    forall n {:trigger n.Measured()} :: n in nodes ==> n.Measured()
  }

  /** A root tells its caller each new value once. */
  twostate predicate Heard(nodes: set<K8s>)
    reads nodes`progress, nodes`notified
  {
    forall n :: n in nodes && n.subscription.Root? ==>
      n.notified == old(n.notified) + if n.progress == old(n.progress) then [] else [n.progress]
  }

  /** No value went down, and a root that had only climbed has only climbed. */
  twostate predicate Risen(nodes: set<K8s>)
    reads nodes`progress, nodes`notified
  {
    forall n :: n in nodes ==>
      && old(n.progress) <= n.progress
      && (n.subscription.Root? && old(Climbed(n.notified, n.progress)) ==> Climbed(n.notified, n.progress))
  }

  /** Slots and subscriptions match; sub-charts come after their parent. */
  ghost predicate Linked(nodes: set<K8s>)
    reads nodes`kids
  {
    && (forall n, j :: n in nodes && 0 <= j < |n.kids| ==>
          n.kids[j] in nodes && n.id < n.kids[j].id && n.kids[j].subscription == Slot(n, j))
    && (forall n {:trigger n.subscription.parent} :: n in nodes && n.subscription.Slot? ==>
          var p := n.subscription.parent;
          p in nodes && n.subscription.index < |p.kids| && p.kids[n.subscription.index] == n && !p.subscription.Silent?)
  }

  ghost predicate Slotted(nodes: set<K8s>)
    reads nodes
  {
    forall n :: n in nodes ==> |n.kids| == |n.childrenProgress|
  }

  /** Every slot holds what its sub-chart last reported. */
  ghost predicate Synced(nodes: set<K8s>)
    requires Linked(nodes)
    reads nodes
  {
    Slotted(nodes) && forall n, j :: n in nodes && 0 <= j < |n.kids| ==> n.childrenProgress[j] == n.kids[j].progress
  }

  // ---- What the values mean ----

  /** The tree of charts below n, with the local progress of each. */
  ghost function TreeOf(nodes: set<K8s>, n: K8s, bound: nat): Tree
    requires n in nodes && Linked(nodes) && forall m :: m in nodes ==> m.id < bound
    reads nodes
    decreases bound - n.id, 0, 0
  {
    if n.pinned then Pinned(n.progress) else Node(n.handled, n.objects, n.children, TreesOf(nodes, n, 0, bound))
  }

  ghost function TreesOf(nodes: set<K8s>, n: K8s, i: nat, bound: nat): (ts: seq<Tree>)
    requires n in nodes && i <= |n.kids| && Linked(nodes) && forall m :: m in nodes ==> m.id < bound
    reads nodes
    decreases bound - n.id - 1, 1, |n.kids| - i
    ensures |ts| == |n.kids| - i
  {
    if i == |n.kids| then [] else [TreeOf(nodes, n.kids[i], bound)] + TreesOf(nodes, n, i + 1, bound)
  }

  /** However the reports came in, every node shows the recursive average of all local progress below it. */
  lemma {:induction false} ShowsTree(nodes: set<K8s>, n: K8s, bound: nat)
    requires Consistent(nodes) && n in nodes && (forall m :: m in nodes ==> m.id < bound) && !n.subscription.Silent?
    ensures n.progress == Eval(TreeOf(nodes, n, bound))
    decreases bound - n.id, 0, 0
  {
    assert n.Current() && n.Measured();
    if !n.pinned {
      SlotsShowTrees(nodes, n, 0, bound);
      assert n.childrenProgress[0..] == n.childrenProgress;
    }
  }

  lemma {:induction false} SlotsShowTrees(nodes: set<K8s>, n: K8s, i: nat, bound: nat)
    requires Consistent(nodes) && n in nodes && (forall m :: m in nodes ==> m.id < bound) && !n.subscription.Silent?
    requires i <= |n.kids|
    ensures n.childrenProgress[i..] == EvalAll(TreesOf(nodes, n, i, bound))
    decreases bound - n.id - 1, 1, |n.kids| - i
  {
    if i < |n.kids| {
      ShowsTree(nodes, n.kids[i], bound);
      SlotsShowTrees(nodes, n, i + 1, bound);
      assert n.childrenProgress[i..] == [n.childrenProgress[i]] + n.childrenProgress[i + 1..];
    }
  }

  /** A node that reports progress of its own has at most as many slots as declared children; one more
      slot is fine for a node that does not. */
  ghost predicate Fits(n: K8s)
    reads n
  {
    0 <= n.localProgress <= 90 && |n.childrenProgress| + (if n.localProgress > 0 then 1 else 0) <= n.children + 1
  }

  /** Then only an explicit call of Progress leads above 90. */
  lemma {:induction false} InRange(nodes: set<K8s>, n: K8s, bound: nat)
    requires Consistent(nodes) && n in nodes && (forall m :: m in nodes ==> m.id < bound) && !n.subscription.Silent?
    requires forall m :: m in nodes ==> Fits(m) && !m.pinned
    ensures 0 <= n.progress <= 90 && n.progress % 5 == 0
    decreases bound - n.id
  {
    forall j | 0 <= j < |n.childrenProgress|
      ensures 0 <= n.childrenProgress[j] <= 90
    {
      InRange(nodes, n.kids[j], bound);
    }
    assert n.Current();
    AverageBounds(n.localProgress, n.childrenProgress, n.children);
  }
}
