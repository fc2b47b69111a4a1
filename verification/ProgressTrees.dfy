/** Nested rounded averages: what the progress of a tree of sub-charts comes to
    (pkg/k8s/k8s.go:173-183, 271-297). */
module ProgressTrees {
  /** A chart with the objects handled, of so many, and its sub-charts. `Pinned` is one whose value was set
      explicitly. */
  datatype Tree = Node(handled: nat, count: nat, children: nat, kids: seq<Tree>) | Pinned(value: int)

  /** Division as in Go: towards zero. */
  function GoDiv(a: int, b: nat): int
    requires b > 0
    decreases if a < 0 then 1 - a else a
  {
    if a < 0 then -GoDiv(-a, b) else if a < b then 0 else 1 + GoDiv(a - b, b)
  }

  function Round5(a: int): (r: int)
    ensures r % 5 == 0
    ensures a >= 0 ==> r <= a < r + 5
    ensures a < 0 ==> r - 5 < a <= r
  {
    FiveFacts(a);
    GoDiv(a, 5) * 5
  }

  lemma {:induction false} FiveFacts(a: int)
    ensures a >= 0 ==> GoDiv(a, 5) * 5 <= a < GoDiv(a, 5) * 5 + 5
    ensures a < 0 ==> GoDiv(a, 5) * 5 - 5 < a <= GoDiv(a, 5) * 5
    decreases if a < 0 then 1 - a else a
  {
    if a < 0 {
      FiveFacts(-a);
    } else if a >= 5 {
      FiveFacts(a - 5);
    }
  }

  function Sum(s: seq<int>): int {
    if s == [] then 0 else s[0] + Sum(s[1..])
  }

  /** What one node publishes, given its own progress and what its sub-charts last published. */
  function Average(local: int, slots: seq<int>, children: nat): int {
    Round5(GoDiv(local + Sum(slots), children + 1))
  }

  function Eval(t: Tree): int {
    match t
    case Node(handled, count, children, kids) => Average(Part(handled, count), EvalAll(kids), children)
    case Pinned(value) => value
  }

  function EvalAll(ts: seq<Tree>): (vs: seq<int>)
    ensures |vs| == |ts|
    ensures forall i :: 0 <= i < |ts| ==> vs[i] == Eval(ts[i])
  {
    if ts == [] then [] else [Eval(ts[0])] + EvalAll(ts[1..])
  }

  // ---- Arithmetic ----

  lemma {:induction false} ProductOrder(x: int, y: int, n: nat)
    requires n > 0
    ensures x <= y <==> x * n <= y * n
  {
    if n > 1 {
      ProductOrder(x, y, n - 1);
      assert x * n == x * (n - 1) + x && y * n == y * (n - 1) + y;
    }
  }

  /** For what is not negative this is the floor of the quotient. */
  lemma {:induction false} DivFacts(a: nat, n: nat)
    requires n > 0
    ensures GoDiv(a, n) >= 0
    ensures GoDiv(a, n) * n <= a < (GoDiv(a, n) + 1) * n
  {
    if a >= n {
      DivFacts(a - n, n);
      var q := GoDiv(a - n, n);
      assert (q + 1) * n == q * n + n && (q + 2) * n == (q + 1) * n + n;
    }
  }

  lemma {:induction false} DivUp(a: nat, a': nat, b: nat)
    requires b > 0 && a <= a'
    ensures 0 <= GoDiv(a, b) <= GoDiv(a', b)
  {
    if a >= b {
      DivUp(a - b, a' - b, b);
    } else if a' >= b {
      DivUp(0, a' - b, b);
    }
  }

  lemma {:induction false} DivMonotone(a: int, a': int, b: nat)
    requires b > 0 && a <= a'
    ensures GoDiv(a, b) <= GoDiv(a', b)
  {
    if a >= 0 {
      DivUp(a, a', b);
    } else if a' < 0 {
      DivUp(-a', -a, b);
    } else {
      DivUp(0, -a, b);
      DivUp(0, a', b);
    }
  }

  lemma {:induction false} SumUpdate(s: seq<int>, i: nat, v: int)
    requires i < |s|
    ensures Sum(s[i := v]) == Sum(s) - s[i] + v
  {
    if i == 0 {
      assert s[0 := v][1..] == s[1..];
    } else {
      assert s[i := v][1..] == s[1..][i - 1 := v];
      SumUpdate(s[1..], i - 1, v);
    }
  }

  /** A new slot starts at zero and leaves the sum alone. */
  lemma {:induction false} SumAppend(s: seq<int>, v: int)
    ensures Sum(s + [v]) == Sum(s) + v
  {
    if s == [] {
      assert s + [v] == [v];
    } else {
      assert (s + [v])[1..] == s[1..] + [v];
      SumAppend(s[1..], v);
    }
  }

  lemma {:induction false} SumBounds(s: seq<int>, m: nat)
    requires forall i :: 0 <= i < |s| ==> 0 <= s[i] <= m
    ensures 0 <= Sum(s) <= |s| * m
  {
    if s != [] {
      SumBounds(s[1..], m);
    }
  }

  lemma {:induction false} AverageMonotone(local: int, slots: seq<int>, local': int, slots': seq<int>, children: nat)
    requires local + Sum(slots) <= local' + Sum(slots')
    ensures Average(local, slots, children) <= Average(local', slots', children)
  {
    DivMonotone(local + Sum(slots), local' + Sum(slots'), children + 1);
    DivMonotone(GoDiv(local + Sum(slots), children + 1), GoDiv(local' + Sum(slots'), children + 1), 5);
  }

  lemma {:induction false} SlotRaised(local: int, slots: seq<int>, i: nat, v: int, children: nat)
    requires i < |slots|
    ensures slots[i] <= v ==> Average(local, slots, children) <= Average(local, slots[i := v], children)
  {
    SumUpdate(slots, i, v);
    if slots[i] <= v {
      AverageMonotone(local, slots, local, slots[i := v], children);
    }
  }

  lemma {:induction false} AverageBounds(local: int, slots: seq<int>, children: nat)
    requires 0 <= local <= 90 && forall i :: 0 <= i < |slots| ==> 0 <= slots[i] <= 90
    requires |slots| + (if local > 0 then 1 else 0) <= children + 1
    ensures 0 <= Average(local, slots, children) <= 90
  {
    var n := children + 1;
    SumBounds(slots, 90);
    var sum := local + Sum(slots);
    BoundedQuotient(sum, n);
  }

  lemma {:induction false} BoundedQuotient(sum: nat, n: nat)
    requires n > 0 && sum <= 90 * n
    ensures 0 <= Round5(GoDiv(sum, n)) <= 90
  {
    DivFacts(sum, n);
    ProductOrder(GoDiv(sum, n), 90, n);
  }

  /** A report of `matched` out of `count` objects makes sense. */
  predicate Counts(matched: nat, count: nat) {
    count != 0 && matched <= count
  }

  /** The share of handled objects; the last tenth is for the explicit report of completion. */
  function Share(matched: nat, count: nat): int
    requires Counts(matched, count)
  {
    GoDiv(matched * 90, count)
  }

  /** The share is the largest integer up to 90 times the fraction handled. */
  lemma {:induction false} ShareIsExact(matched: nat, count: nat)
    requires Counts(matched, count)
    ensures 0 <= Share(matched, count) &&
            Share(matched, count) * count <= 90 * matched < (Share(matched, count) + 1) * count
  {
    DivFacts(matched * 90, count);
  }

  lemma {:induction false} WholeShare(count: nat)
    requires count > 0
    ensures Share(count, count) == 90
  {
    var share := Share(count, count);
    ShareIsExact(count, count);
    ProductOrder(share, 90, count);
    ProductOrder(share + 1, 90, count);
  }

  /** The local progress of a node that has reported so many objects, if it has. */
  function Part(handled: nat, count: nat): int {
    if Counts(handled, count) then Share(handled, count) else 0
  }

  function ExactPart(handled: nat, count: nat): real {
    if Counts(handled, count) then 90.0 * handled as real / count as real else 0.0
  }

  lemma {:induction false} PartIsClose(handled: nat, count: nat)
    ensures 0 <= Part(handled, count) <= 90
    ensures Part(handled, count) as real <= ExactPart(handled, count) < Part(handled, count) as real + 1.0
  {
    if Counts(handled, count) {
      var x := ExactPart(handled, count);
      ShareGrows(handled, handled, count);
      ShareIsExact(handled, count);
      RealProduct(handled, 90);
      assert x * count as real == (handled * 90) as real;
      QuotientBetween(handled * 90, count, Share(handled, count), Share(handled, count) + 1, x);
    }
  }

  lemma {:induction false} ShareGrows(matched: nat, more: nat, count: nat)
    requires matched <= more && Counts(more, count)
    ensures 0 <= Share(matched, count) <= Share(more, count) <= 90
  {
    DivUp(matched * 90, more * 90, count);
    DivFacts(more * 90, count);
    ProductOrder(GoDiv(more * 90, count), 90, count);
  }

  // ---- The error bound ----

  function Exact(t: Tree): real {
    match t
    case Node(handled, count, children, kids) => (ExactPart(handled, count) + ExactSum(kids)) / (children + 1) as real
    case Pinned(value) => value as real
  }

  function ExactSum(ts: seq<Tree>): real {
    if ts == [] then 0.0 else Exact(ts[0]) + ExactSum(ts[1..])
  }

  function Height(t: Tree): nat {
    match t
    case Node(_, _, _, kids) => 1 + MaxHeight(kids)
    case Pinned(_) => 1
  }

  function MaxHeight(ts: seq<Tree>): nat {
    if ts == [] then 0 else
      var h, m := Height(ts[0]), MaxHeight(ts[1..]);
      if h > m then h else m
  }

  /** Nobody has more slots than the average has room for, and nothing was set to a negative value. */
  ghost predicate Roomy(t: Tree) {
    match t
    case Node(_, _, children, kids) => |kids| <= children + 1 && AllRoomy(kids)
    case Pinned(value) => value >= 0
  }

  ghost predicate AllRoomy(ts: seq<Tree>) {
    ts != [] ==> Roomy(ts[0]) && AllRoomy(ts[1..])
  }

  /** All rounding of one level, that of the share and twice that of the average, costs less than five: the reported
      value is at most the exact average of averages of the objects handled, and more than it minus five times the
      height. */
  lemma {:induction false} ErrorBound(t: Tree)
    requires Roomy(t)
    ensures 0 <= Eval(t)
    ensures Exact(t) - 5.0 * Height(t) as real < Eval(t) as real <= Exact(t)
    decreases t, 0
  {
    match t
    case Pinned(value) =>
    case Node(handled, count, children, kids) =>
      var h, n := MaxHeight(kids), children + 1;
      ErrorSum(kids, h);
      PartIsClose(handled, count);
      var part, slots := Part(handled, count), Sum(EvalAll(kids));
      var shown, exact := ExactPart(handled, count) + slots as real, ExactPart(handled, count) + ExactSum(kids);
      RoundedAverage(exact, shown, part + slots, 5.0 * h as real, |kids|, n);
      assert Eval(t) == Round5(GoDiv(part + slots, n)) && Exact(t) == exact / n as real && Height(t) == 1 + h;
  }

  lemma {:induction false} RoundedAverage(exact: real, shown: real, sum: nat, step: real, k: nat, n: nat)
    requires n > 0 && k <= n && step >= 0.0 && exact - Slack(k, step) <= shown <= exact
    requires sum as real <= shown < sum as real + 1.0
    ensures 0 <= Round5(GoDiv(sum, n))
    ensures exact / n as real - 5.0 - step < Round5(GoDiv(sum, n)) as real <= exact / n as real
  {
    assert 0 <= Round5(GoDiv(sum, n)) by {
      DivFacts(sum, n);
    }
    SlackProduct(k, step);
    Divided(sum, n, shown);
    QuotientBounds(exact, shown, step, k as real, n as real);
  }

  /** What each level costs, for each kid. */
  function Slack(k: nat, step: real): real {
    if k == 0 then 0.0 else Slack(k - 1, step) + step
  }

  lemma {:induction false} SlackProduct(k: nat, step: real)
    ensures Slack(k, step) == k as real * step
  {
    if k > 0 {
      SlackProduct(k - 1, step);
      var before := (k - 1) as real;
      assert k as real == before + 1.0;
      assert (before + 1.0) * step == before * step + step;
    }
  }

  lemma {:induction false} ErrorSum(ts: seq<Tree>, h: nat)
    requires AllRoomy(ts) && MaxHeight(ts) <= h
    ensures 0 <= Sum(EvalAll(ts))
    ensures ExactSum(ts) - Slack(|ts|, 5.0 * h as real) <= Sum(EvalAll(ts)) as real <= ExactSum(ts)
    decreases ts, 1
  {
    if ts != [] {
      ErrorBound(ts[0]);
      ErrorSum(ts[1..], h);
      assert EvalAll(ts)[1..] == EvalAll(ts[1..]);
    }
  }

  lemma {:induction false} RealProduct(x: int, n: nat)
    ensures (x * n) as real == x as real * n as real
  {
    if n > 0 {
      RealProduct(x, n - 1);
      assert x * n == x * (n - 1) + x;
      assert n as real == (n - 1) as real + 1.0;
      assert x as real * ((n - 1) as real + 1.0) == x as real * (n - 1) as real + x as real;
    }
  }

  lemma {:induction false} RealProductOrder(x: real, y: real, n: real)
    requires n > 0.0
    ensures x <= y <==> x * n <= y * n
  {
    if x <= y {
      assert (y - x) * n >= 0.0;
    } else {
      assert (x - y) * n > 0.0;
    }
  }

  lemma {:induction false} Divided(a: nat, n: nat, y: real)
    requires n > 0 && a as real <= y < a as real + 1.0
    ensures y / n as real - 5.0 < Round5(GoDiv(a, n)) as real <= y / n as real
  {
    var x := y / n as real;
    assert x * n as real == y;
    RoundedQuotient(a, n, x);
  }

  /** Rounding down to an integer, again after dividing, and then to a multiple of five is rounding down once. */
  lemma {:induction false} RoundedQuotient(a: nat, n: nat, x: real)
    requires n > 0 && a as real <= x * n as real < a as real + 1.0
    ensures x - 5.0 < Round5(GoDiv(a, n)) as real <= x
  {
    var q := GoDiv(a, n);
    var r := Round5(q);
    DivFacts(a, n);
    ProductOrder(r, q, n);
    ProductOrder(q + 1, r + 5, n);
    QuotientBetween(a, n, r, r + 5, x);
  }

  lemma {:induction false} QuotientBetween(a: int, n: nat, lower: int, upper: int, x: real)
    requires n > 0 && lower * n <= a < upper * n && a as real <= x * n as real < a as real + 1.0
    ensures lower as real <= x < upper as real
  {
    RealProduct(lower, n);
    RealProduct(upper, n);
    assert (a + 1) as real == a as real + 1.0;
    RealProductOrder(lower as real, x, n as real);
    RealProductOrder(upper as real, x, n as real);
  }

  lemma {:induction false} QuotientBounds(exact: real, sum: real, step: real, k: real, n: real)
    requires 0.0 <= k <= n && n >= 1.0 && step >= 0.0 && exact - k * step <= sum <= exact
    ensures exact / n - step <= sum / n <= exact / n
  {
    var e, s := exact / n, sum / n;
    assert e * n == exact && s * n == sum;
    RealProductOrder(s, e, n);
    assert (n - k) * step >= 0.0;
    assert (e - step) * n == exact - n * step;
    RealProductOrder(e - step, s, n);
  }

  // ---- Few notifications ----

  /** The notifications went up in steps of five from zero, and the last one is the current value. */
  ghost predicate Climbed(notified: seq<int>, progress: int) {
    var n := |notified|;
    if n == 0 then progress == 0 else
      var previous := if n == 1 then 0 else notified[n - 2];
      notified[n - 1] == progress && progress % 5 == 0 && previous < progress && Climbed(notified[..n - 1], previous)
  }

  lemma {:induction false} ClimbsOn(notified: seq<int>, progress: int, next: int)
    requires next % 5 == 0
    ensures Climbed(notified, progress) && progress < next ==> Climbed(notified + [next], next)
  {
    assert (notified + [next])[..|notified|] == notified;
  }

  ghost predicate Increasing(s: seq<int>) {
    forall i, j :: 0 <= i < j < |s| ==> s[i] < s[j]
  }

  /** Each notification is new and higher, so up to 90 there are at most eighteen. */
  lemma {:induction false} FewNotifications(notified: seq<int>, progress: int)
    requires Climbed(notified, progress)
    ensures progress % 5 == 0 && 5 * |notified| <= progress
    ensures Increasing(notified) && forall i :: 0 <= i < |notified| ==> 0 < notified[i] <= progress
    ensures progress <= 90 ==> |notified| <= 18
  {
    var n := |notified|;
    if n > 0 {
      var previous := if n == 1 then 0 else notified[n - 2];
      FewNotifications(notified[..n - 1], previous);
      assert forall i :: 0 <= i < n - 1 ==> notified[i] == notified[..n - 1][i];
    }
  }
}
