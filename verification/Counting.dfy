/** The references on one record over many operations (pkg/kdo/chart.go:637-670, pkg/k8s/k8s.go:441-487). */
module Counting {
  import opened Faults
  import opened References
  import opened Store

  datatype Operation = Add(user: Genus) | Remove(user: Genus) | Reapply

  function Apply(users: set<Genus>, op: Operation): set<Genus> {
    match op
    case Add(user) => users + {user}
    case Remove(user) => users - {user}
    case Reapply => users
  }

  /** The users after all operations whose call had an effect. */
  function UsersAfter(users: set<Genus>, ops: seq<Operation>, script: seq<Outcome>): set<Genus>
    requires |ops| <= |script|
  {
    if ops == [] then users
    else
      var last := |ops| - 1;
      var before := UsersAfter(users, ops[..last], script);
      if script[last] == Failed then before else Apply(before, ops[last])
  }

  /** The i-th operation took effect. */
  predicate Took(ops: seq<Operation>, script: seq<Outcome>, i: nat, op: Operation)
    requires |ops| <= |script|
  {
    i < |ops| && ops[i] == op && script[i] != Failed
  }

  ghost predicate NotRemovedSince(ops: seq<Operation>, script: seq<Outcome>, i: nat, u: Genus)
    requires |ops| <= |script|
  {
    forall j: nat :: i <= j ==> !Took(ops, script, j, Remove(u))
  }

  /** References are conserved: the users are those added and not removed since, and those there at first
      and never removed. */
  lemma {:induction false} AddedAndNotRemoved(users: set<Genus>, ops: seq<Operation>, script: seq<Outcome>, u: Genus)
    requires |ops| <= |script|
    ensures u in UsersAfter(users, ops, script) <==>
            || (u in users && NotRemovedSince(ops, script, 0, u))
            || exists i: nat :: Took(ops, script, i, Add(u)) && NotRemovedSince(ops, script, i, u)
  {
    if ops == [] {
      assert NotRemovedSince(ops, script, 0, u);
    } else {
      var last := |ops| - 1;
      var before := ops[..last];
      AddedAndNotRemoved(users, before, script, u);
      assert forall i: nat, op :: Took(ops, script, i, op) <==>
             Took(before, script, i, op) || (i == last && Took(ops, script, i, op));
      if Took(ops, script, last, Remove(u)) {
        assert forall i: nat :: i <= last ==> !NotRemovedSince(ops, script, i, u);
      } else {
        assert forall i: nat :: NotRemovedSince(ops, script, i, u) <==> NotRemovedSince(before, script, i, u);
        if Took(ops, script, last, Add(u)) {
          assert NotRemovedSince(ops, script, last, u);
        }
      }
    }
  }

  /** Removing a reference that is there reports exactly those that remain. */
  ghost predicate Reported(users: set<Genus>, ops: seq<Operation>, script: seq<Outcome>, i: nat, count: nat)
    requires i < |ops| <= |script|
  {
    ops[i].Remove? && script[i] == Done && ops[i].user in UsersAfter(users, ops[..i], script) ==>
      count == |UsersAfter(users, ops[..i + 1], script)|
  }

  lemma {:induction false} OneMore(users: set<Genus>, ops: seq<Operation>, script: seq<Outcome>, i: nat, records: State,
      g: Genus)
    requires i < |ops| <= |script|
    ensures var before := UsersAfter(users, ops[..i], script);
            var after := UsersAfter(users, ops[..i + 1], script);
            && after == (if script[i] == Failed then before else Apply(before, ops[i]))
            && records[g := before][g := after] == records[g := after]
    ensures script[i..][1..] == script[i + 1..]
  {
    assert ops[..i + 1][..i] == ops[..i];
  }

  /** Any mix of operations on the record of g, each of them one call. */
  method RunAll(k: Cluster, g: Genus, ops: seq<Operation>) returns (counts: seq<nat>)
    requires k.Valid() && g in k.records && |ops| <= |k.script|
    modifies k
    ensures k.Valid() && k.records == old(k.records)[g := UsersAfter(old(k.records[g]), ops, old(k.script))]
    ensures |counts| == |ops| && forall i :: 0 <= i < |ops| ==>
            Reported(old(k.records[g]), ops, old(k.script), i, counts[i])
  {
    ghost var script, users, records := k.script, k.records[g], k.records;
    counts := [];
    for i := 0 to |ops|
      invariant k.Valid() && k.script == script[i..] && |counts| == i
      invariant k.records == records[g := UsersAfter(users, ops[..i], script)]
      invariant forall j :: 0 <= j < i ==> Reported(users, ops, script, j, counts[j])
    {
      var count := RunNext(k, g, ops, i, users, records, script);
      counts := counts + [count];
    }
    assert ops[..|ops|] == ops;
  }

  method RunNext(k: Cluster, g: Genus, ops: seq<Operation>, i: nat, ghost users: set<Genus>, ghost records: State,
      ghost script: seq<Outcome>)
    returns (count: nat)
    requires k.Valid() && i < |ops| <= |script| && k.script == script[i..]
    requires k.records == records[g := UsersAfter(users, ops[..i], script)]
    modifies k
    ensures k.Valid() && k.script == script[i + 1..]
    ensures k.records == records[g := UsersAfter(users, ops[..i + 1], script)]
    ensures Reported(users, ops, script, i, count)
  {
    OneMore(users, ops, script, i, records, g);
    count := RunOne(k, g, ops[i]);
  }

  method RunOne(k: Cluster, g: Genus, op: Operation) returns (count: nat)
    requires k.Valid() && g in k.records && k.script != []
    modifies k
    ensures k.Valid() && k.script == old(k.script)[1..]
    ensures k.records == old(k.records)[g := if old(k.script)[0] == Failed then old(k.records[g])
            else Apply(old(k.records[g]), op)]
    ensures op.Remove? && old(k.script)[0] == Done && op.user in old(k.records[g]) ==> count == |k.records[g]|
  {
    ghost var users := k.records[g];
    assert k.records[g := users] == k.records;
    count := 0;
    var r;
    match op
    case Add(user) => r := k.AddUsedBy(g, user);
    case Remove(user) => r, count := k.RemoveUsedBy(g, user);
    case Reapply =>
      ghost var effective;
      r, effective := k.CreateOrUpdate(g);
  }
}
