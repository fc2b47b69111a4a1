/** The controller of KdoChart objects, between users, other controllers and failing calls
    (controllers/kdo_chart_controller.go:67-226). */
module Reconciler {
  import opened Faults
  import opened Options

  const MINE := "controller.kdo.sap.github.com"

  datatype Operation = Applying | ApplyFailed | Removing | RemoveFailed

  /** The last operation, and how far it is. */
  datatype Status = Unknown | Status(operation: Operation, progress: int)

  /** What the API server keeps; the spec never changes. */
  datatype KdoChart = KdoChart(finalizers: seq<string>, deleting: bool, status: Status)

  /** What the controller asks for: new finalizers, a new status, an apply or a delete of the chart. */
  datatype Request = SetFinalizers(finalizers: seq<string>) | SetStatus(status: Status) | Start(operation: Operation)

  /** What a client holds: an object as of some version. */
  datatype Copy = Copy(chart: KdoChart, version: nat)

  datatype Action =
    | Create(finalizers: seq<string>)
    | Delete
    | ChangeFinalizers(finalizers: seq<string>)
    | ChangeStatus(status: Status)

  datatype Step = Others(action: Action) | Processed(outcomes: seq<Outcome>) | Restarted

  predicate SameButStatus(a: KdoChart, b: KdoChart) {
    a.finalizers == b.finalizers && a.deleting == b.deleting
  }

  // ---- Lists of finalizers ----

  function Filtered(list: seq<string>, s: string): seq<string> {
    if list == [] then []
    else if list[0] == s then Filtered(list[1..], s)
    else [list[0]] + Filtered(list[1..], s)
  }

  lemma {:induction false} FilteredAppend(list: seq<string>, item: string, s: string)
    ensures Filtered(list + [item], s) == Filtered(list, s) + if item == s then [] else [item]
  {
    if list == [] {
      assert list + [item] == [item];
    } else {
      assert (list + [item])[1..] == list[1..] + [item];
      FilteredAppend(list[1..], item, s);
    }
  }

  method ContainsString(list: seq<string>, s: string) returns (found: bool)
    ensures found <==> s in list
  {
    for i := 0 to |list|
      invariant s !in list[..i]
    {
      if list[i] == s {
        return true;
      }
    }
    return false;
  }

  /** Keeps everything else, in order. */
  method RemoveString(list: seq<string>, s: string) returns (result: seq<string>)
    ensures result == Filtered(list, s)
  {
    result := [];
    for i := 0 to |list|
      invariant result == Filtered(list[..i], s)
    {
      assert list[..i + 1] == list[..i] + [list[i]];
      FilteredAppend(list[..i], list[i], s);
      if list[i] != s {
        result := result + [list[i]];
      }
    }
    assert list[..|list|] == list;
  }

  /** What is left contains everything but s. */
  lemma {:induction false} FilteredMembers(list: seq<string>, s: string, x: string)
    ensures x in Filtered(list, s) <==> x in list && x != s
  {
    if list != [] {
      FilteredMembers(list[1..], s, x);
    }
  }

  // ---- Users, other controllers and this one ----

  /** The filter on update events, for a spec that does not change. */
  predicate Relevant(chart: KdoChart) {
    MINE !in chart.finalizers || chart.deleting
  }

  /** The world at one moment. */
  datatype Snapshot = Snapshot(
    stored: Option<KdoChart>, version: nat, clock: nat, installed: bool, applied: bool, dirty: bool, processing: bool,
    applies: nat, faults: nat, requests: seq<Request>, written: seq<(KdoChart, KdoChart)>)

  const NOTHING_YET := Snapshot(Nothing, 0, 0, false, false, false, false, 0, 0, [], [])

  // ---- What the controller asks for ----

  /** The only changes that this controller makes: it adds its finalizer behind those of others to a live object, takes
      it away from a deleted one where it is the last, and writes the status. */
  predicate Lawful(write: (KdoChart, KdoChart)) {
    var (before, after) := write;
    || (!before.deleting && MINE !in before.finalizers && after == before.(finalizers := before.finalizers + [MINE]))
    || (before.deleting && before.finalizers == [MINE] && after == before.(finalizers := []))
    || after == before.(status := after.status)
  }

  ghost predicate AllLawful(written: seq<(KdoChart, KdoChart)>) {
    forall i :: 0 <= i < |written| ==> Lawful(written[i])
  }

  /** An operation is started, and its progress is written to the status. */
  ghost predicate Works(requests: seq<Request>, operation: Operation) {
    && requests != [] && requests[0] == Start(operation)
    && forall i :: 0 < i < |requests| ==> requests[i].SetStatus? && Reports(requests[i].status, operation)
  }

  predicate Reports(status: Status, operation: Operation) {
    status.Status? && status.operation == operation
  }

  /** How a live object is taken hold of. */
  function Adoption(found: KdoChart): seq<Request> {
    if MINE in found.finalizers then []
    else [SetFinalizers(found.finalizers + [MINE]), SetStatus(Status(Applying, 0))]
  }

  /** What is asked for, in order, when this object was found; nothing is left out before a success. */
  ghost predicate Protocol(found: Option<KdoChart>, reply: Reply, requests: seq<Request>) {
    match found
    case Nothing => requests == []
    case Just(chart) =>
      if !chart.deleting then LiveProtocol(chart, reply, requests)
      else if chart.finalizers == [MINE] then DeleteProtocol(reply, requests)
      else requests == []
  }

  ghost predicate LiveProtocol(chart: KdoChart, reply: Reply, requests: seq<Request>) {
    var before, n := Adoption(chart), |requests|;
    || (reply != Ok && requests <= before)
    || (reply != Err && before <= requests && Works(requests[|before|..], Applying))
    || (reply != Ok && before < requests && requests[n - 1] == SetStatus(Status(ApplyFailed, 0)) &&
        Works(requests[|before|..n - 1], Applying))
  }

  ghost predicate DeleteProtocol(reply: Reply, requests: seq<Request>) {
    var before, n := [SetStatus(Status(Removing, 0))], |requests|;
    || (reply != Ok && requests <= before)
    || (reply == Crash && before <= requests && Works(requests[1..], Removing))
    || (reply != Ok && before < requests && requests[n - 1] == SetStatus(Status(RemoveFailed, 0)) &&
        Works(requests[1..n - 1], Removing))
    || (before < requests && requests[n - 1] == SetFinalizers([]) && Works(requests[1..n - 1], Removing))
  }

  /** After a change was stored; a deleted object without finalizers is gone. */
  function Stored(s: Snapshot, chart: KdoChart): Snapshot {
    if chart.deleting && chart.finalizers == [] then s.(stored := Nothing, clock := s.clock + 1)
    else s.(stored := Just(chart), version := s.clock + 1, clock := s.clock + 1, dirty := s.dirty || Relevant(chart))
  }

  /** After somebody else has acted. */
  function ActedOn(s: Snapshot, action: Action): Snapshot {
    match action
    case Create(finalizers) =>
      if s.stored.Just? then s
      else s.(stored := Just(KdoChart(finalizers, false, Unknown)), version := s.clock + 1, clock := s.clock + 1,
          applied := false, dirty := true)
    case Delete =>
      if s.stored.Nothing? || s.stored.value.deleting then s else Stored(s, s.stored.value.(deleting := true))
    case ChangeFinalizers(finalizers) =>
      if s.stored.Nothing? || ((MINE in s.stored.value.finalizers) != (MINE in finalizers)) then s
      else Stored(s, s.stored.value.(finalizers := finalizers))
    case ChangeStatus(status) =>
      if s.stored.Nothing? then s else Stored(s, s.stored.value.(status := status))
  }

  ghost predicate SafeAt(s: Snapshot) {
    s.installed ==> s.stored.Just? && MINE in s.stored.value.finalizers
  }

  ghost predicate WorkAt(s: Snapshot) {
    s.stored.Just? &&
    if s.stored.value.deleting then s.stored.value.finalizers == [MINE]
        else !s.applied || MINE !in s.stored.value.finalizers
  }

  /** What one step does to the world. */
  ghost predicate Stepped(s: Snapshot, step: Step, s': Snapshot) {
    match step
    case Others(action) => s' == ActedOn(s, action)
    case Restarted => s' == s.(dirty := s.stored.Just?, processing := false)
    case Processed(outcomes) =>
      if !s.dirty then s' == s
      else exists m: Snapshot, reply, s1: Snapshot ::
             Meanwhile(s.(dirty := false, processing := true), m) && Reconciled(m, reply, s1) &&
                 s' == Requeued(s1, reply)
  }

  ghost predicate HeldAt(s: Snapshot) {
    s.stored.Just? && MINE in s.stored.value.finalizers
  }

  ghost predicate DeletingAt(s: Snapshot) {
    s.stored.Just? && s.stored.value.deleting
  }

  /** Only others have acted. */
  ghost predicate Meanwhile(s: Snapshot, s': Snapshot) {
    && s'.installed == s.installed && s'.applies == s.applies && s'.faults == s.faults
    && s'.requests == s.requests && s'.written == s.written
    && s'.clock >= s.clock && (s'.clock == s.clock ==> s'.stored == s.stored)
    && (HeldAt(s) ==> HeldAt(s') && (DeletingAt(s) ==> DeletingAt(s')))
  }

  /** One reconcile that found the object as in s. */
  ghost predicate Reconciled(s: Snapshot, reply: Reply, s': Snapshot) {
    && s'.clock >= s.clock && (s'.clock == s.clock ==> s'.stored == s.stored)
    && s.applies <= s'.applies <= s.applies + 1 && s'.faults >= s.faults
    && (s.dirty ==> s'.dirty)
    // Nothing is applied for an object that is gone or whose delete was requested.
    && (s.stored.Nothing? || DeletingAt(s) ==> s'.applies == s.applies)
    // Only an object that waits for nobody else is uninstalled.
    && (!(DeletingAt(s) && s.stored.value.finalizers == [MINE]) ==> s.installed ==> s'.installed)
    // What is asked for comes in order, and only lawful changes are made.
    && s.requests <= s'.requests && Protocol(s.stored, reply, s'.requests[|s.requests|..])
    && s.written <= s'.written && AllLawful(s'.written[|s.written|..])
    // Errors only come from calls that fail.
    && (s'.faults == s.faults ==> reply == Ok)
    // After a success the chart is applied or deleted, and work that is left was noticed.
    && (reply == Ok ==>
          && (s.stored.Just? && !DeletingAt(s) ==>
                 HeldAt(s') && s'.applied && s'.installed && s'.applies == s.applies + 1)
          && (DeletingAt(s) && s.stored.value.finalizers == [MINE] ==> !s'.installed && (s'.stored.Just? ==> s'.dirty))
          && (WorkAt(s') ==> s'.dirty))
  }

  lemma {:induction false} LiveInTurn(chart: KdoChart, r0: seq<Request>, r1: seq<Request>, r2: seq<Request>,
      r3: seq<Request>, applied: Reply, reply: Reply)
    requires r0 <= r1 && r1[|r0|..] == Adoption(chart) && r1 <= r2 && Works(r2[|r1|..], Applying)
    requires (reply == Ok <==> applied == Ok) && (applied == Crash ==> reply == Crash)
    requires r3 == if applied == Err && reply == Err then r2 + [SetStatus(Status(ApplyFailed, 0))] else r2
    ensures r0 <= r3 && LiveProtocol(chart, reply, r3[|r0|..])
  {
    var before, work, rs := Adoption(chart), r2[|r1|..], r3[|r0|..];
    assert r1 == r0 + before && r2 == r1 + work;
    if r3 == r2 {
      assert rs == before + work && rs[|before|..] == work;
    } else {
      assert rs == before + work + [SetStatus(Status(ApplyFailed, 0))];
      assert rs[|before|..|rs| - 1] == work;
    }
  }

  lemma {:induction false} DeleteInTurn(r0: seq<Request>, r2: seq<Request>, r3: seq<Request>, reply: Reply)
    requires var r1 := r0 + [SetStatus(Status(Removing, 0))]; r1 <= r2 && Works(r2[|r1|..], Removing)
    requires || (r3 == r2 && reply == Crash)
             || (r3 == r2 + [SetStatus(Status(RemoveFailed, 0))] && reply != Ok)
             || r3 == r2 + [SetFinalizers([])]
    ensures r0 <= r3 && DeleteProtocol(reply, r3[|r0|..])
  {
    var first := SetStatus(Status(Removing, 0));
    var work, rs := r2[|r0| + 1..], r3[|r0|..];
    assert r2 == r0 + [first] + work;
    if r3 == r2 {
      assert rs == [first] + work && rs[1..] == work;
    } else {
      var last := r3[|r2|];
      assert rs == [first] + work + [last];
      assert rs[1..|rs| - 1] == work;
    }
  }

  /** The key is done with, taken back after an error, or found again by a controller that starts anew. */
  function Requeued(s: Snapshot, reply: Reply): Snapshot {
    match reply
    case Ok => s.(processing := false)
    case Err => s.(dirty := true, processing := false)
    case Crash => s.(dirty := s.stored.Just?, processing := false)
  }

  lemma WorkIsQueued(s: Snapshot, reply: Reply, s': Snapshot)
    requires Reconciled(s, reply, s')
    ensures WorkAt(Requeued(s', reply)) ==> Requeued(s', reply).dirty
  {
  }

  class World {
    var stored: Option<KdoChart>
    /** The version of the object, and the last version given to any object. */
    var version: nat
    var clock: nat
    /** Something has been applied and not been deleted successfully since. */
    var installed: bool
    /** The spec of the current object has been applied successfully. */
    var applied: bool
    /** The key waits to be processed, or will have to be processed again. */
    var dirty: bool
    var processing: bool
    /** How the next calls of the reconciler end; the controller dies at the one after the last. */
    var script: seq<Outcome>
    /** How often the reconciler has called apply. */
    ghost var applies: nat
    /** How many of its calls did not end as they should. */
    ghost var faults: nat
    /** What it has asked for, and what it has changed: the object before and after. */
    ghost var requests: seq<Request>
    ghost var written: seq<(KdoChart, KdoChart)>

    ghost function Now(): Snapshot
      reads this
    {
      Snapshot(stored, version, clock, installed, applied, dirty, processing, applies, faults, requests, written)
    }

    ghost predicate Deleting()
      reads this
    {
      stored.Just? && stored.value.deleting
    }

    /** The object exists and carries the finalizer of this controller. */
    ghost predicate Held()
      reads this
    {
      stored.Just? && MINE in stored.value.finalizers
    }

    /** Nothing is ever installed without an object that keeps its finalizer. */
    ghost predicate Safe()
      reads this
    {
      (installed ==> Held()) && version <= clock
    }

    /** A live chart that is not applied or lacks the finalizer, or a deleted one that waits for this controller. */
    ghost predicate Work()
      reads this
    {
      stored.Just? &&
      if stored.value.deleting then stored.value.finalizers == [MINE] else !applied || MINE !in stored.value.finalizers
    }

    ghost predicate NoLostWork()
      reads this
    {
      Work() ==> dirty || processing
    }

    /** A copy is either outdated or shows the object as it is, up to a status not yet written. */
    ghost predicate Knows(copy: Copy)
      reads this
    {
      copy.version <= clock && (stored.Just? && version == copy.version ==> SameButStatus(stored.value, copy.chart))
    }

    /** New objects, new work and requests to delete are noticed, and marks on the queue stay. */
    twostate predicate Noticed()
      reads this
    {
      clock >= old(clock) && (clock == old(clock) ==> stored == old(stored)) && (old(dirty) ==> dirty) &&
          (stored.Just? ==> dirty || old(stored.Just?)) &&
      (Work() ==> dirty || old(Work())) && (Deleting() ==> dirty || old(Deleting()))
    }

    /** What holds across steps that leave the finalizer of this controller alone. */
    twostate predicate Undisturbed()
      reads this
    {
      Noticed() &&
      (old(Held()) ==> Held() && applied == old(applied) && (old(Deleting()) ==> Deleting())) &&
      (stored.Just? ==> version > old(clock) || (version == old(version) && stored == old(stored)))
    }

    constructor ()
      ensures Safe() && NoLostWork() && Now() == NOTHING_YET
    {
      stored, version, clock, installed, applied, dirty, processing := Nothing, 0, 0, false, false, false, false;
      script, applies, faults, requests, written := [], 0, 0, [], [];
    }

    /** Stores a changed object; one that is deleted and has no finalizers left is gone. */
    method Store(chart: KdoChart)
      requires Safe() && stored.Just? && (MINE in stored.value.finalizers && installed ==> MINE in chart.finalizers)
      modifies this`stored, this`version, this`clock, this`dirty
      ensures Safe() && clock == old(clock) + 1
      ensures stored == if chart.deleting && chart.finalizers == [] then Nothing else Just(chart)
      ensures stored.Just? ==> version == clock
      ensures dirty == (old(dirty) || (stored.Just? && Relevant(chart)))
      ensures Now() == Stored(old(Now()), chart)
    {
      clock := clock + 1;
      if chart.deleting && chart.finalizers == [] {
        stored := Nothing;
      } else {
        stored, version := Just(chart), clock;
        var mine := ContainsString(chart.finalizers, MINE);
        if !mine || chart.deleting {
          dirty := true;
        }
      }
    }

    /** Stores a change of this controller. */
    method Write(chart: KdoChart)
      requires Safe() && stored.Just? && (MINE in stored.value.finalizers && installed ==> MINE in chart.finalizers)
      modifies this`stored, this`version, this`clock, this`dirty, this`written
      ensures Safe() && clock == old(clock) + 1
      ensures stored == if chart.deleting && chart.finalizers == [] then Nothing else Just(chart)
      ensures stored.Just? ==> version == clock
      ensures dirty == (old(dirty) || (stored.Just? && Relevant(chart)))
      ensures written == old(written) + [(old(stored).value, chart)]
    {
      written := written + [(stored.value, chart)];
      Store(chart);
    }

    /** What everybody else may do between two steps of the reconciler: create and delete the object,
        change its status, and change finalizers other than this controller's. */
    method Interfere()
      requires Safe()
      modifies this`stored, this`version, this`clock, this`dirty, this`applied
      ensures Safe() && Undisturbed()
    {
      var actions: seq<Action> := *;
      for i := 0 to |actions|
        invariant Safe() && Undisturbed()
      {
        Act(actions[i]);
      }
    }

    /** A change of the status alone does not queue a live chart that has its finalizer. */
    method Act(action: Action)
      requires Safe()
      modifies this`stored, this`version, this`clock, this`dirty, this`applied
      ensures Safe() && Undisturbed()
      ensures Now() == ActedOn(old(Now()), action)
      ensures action.ChangeStatus? && old(Held() && !Deleting()) ==> dirty == old(dirty)
    {
      match action
      case Create(finalizers) =>
        if stored.Nothing? {
          clock := clock + 1;
          stored, version, applied, dirty := Just(KdoChart(finalizers, false, Unknown)), clock, false, true;
        }
      case Delete =>
        if stored.Just? && !stored.value.deleting {
          Store(stored.value.(deleting := true));
        }
      case ChangeFinalizers(finalizers) =>
        if stored.Just? {
          var before := ContainsString(stored.value.finalizers, MINE);
          var after := ContainsString(finalizers, MINE);
          if before == after {
            Store(stored.value.(finalizers := finalizers));
          }
        }
      case ChangeStatus(status) =>
        if stored.Just? {
          Store(stored.value.(status := status));
        }
    }

    // ---- The calls of the reconciler; everybody else may act before each of them returns ----

    method Call() returns (reply: Reply, effective: bool)
      modifies this`script, this`faults
      ensures faults == old(faults) + if reply == Ok then 0 else 1
      ensures reply == Ok ==> effective
    {
      reply, effective := Crash, false;
      if script != [] {
        reply, effective := if script[0] == Done then Ok else Err, script[0] != Failed;
        script := script[1..];
      }
      faults := faults + if reply == Ok then 0 else 1;
    }

    method Get() returns (found: Option<Copy>, reply: Reply)
      requires Safe()
      modifies this`stored, this`version, this`clock, this`dirty, this`applied, this`script, this`faults
      ensures Safe() && Undisturbed()
      ensures reply == Ok ==>
              found == match old(stored) {
                         case Nothing => Nothing
                         case Just(chart) => Just(Copy(chart, old(version)))
                       }
      ensures found.Just? ==> Knows(found.value)
      ensures faults >= old(faults) && (reply == Ok <==> faults == old(faults))
    {
      found := Nothing;
      var effective;
      reply, effective := Call();
      if reply == Ok && stored.Just? {
        found := Just(Copy(stored.value, version));
      }
      Interfere();
    }

    /** Changes the status if the copy is up to date; a copy that was stored is up to date again. */
    method UpdateStatus(copy: Copy, status: Status) returns (next: Copy, reply: Reply)
      requires Safe() && Knows(copy)
      modifies this`stored, this`version, this`clock, this`dirty, this`applied, this`script, this`faults,
          this`requests, this`written
      ensures Safe() && Undisturbed() && Knows(next)
      ensures SameButStatus(next.chart, copy.chart) && next.chart.status == status
      ensures old(stored.Nothing? || version != copy.version) ==> reply != Ok
      ensures requests == old(requests) + if reply == Crash then [] else [SetStatus(status)]
      ensures written == old(written) || (old(stored.Just? && version == copy.version) &&
                written == old(written) + [(old(stored).value, old(stored).value.(status := status))])
      ensures reply == Ok ==> written != old(written)
      ensures faults >= old(faults) && (reply == Ok <==> faults == old(faults))
    {
      var effective;
      reply, effective := Call();
      requests := requests + if reply == Crash then [] else [SetStatus(status)];
      next := Copy(copy.chart.(status := status), copy.version);
      if stored.Nothing? || version != copy.version {
        faults := faults + 1;
        reply := if reply == Crash then Crash else Err;
      } else if effective {
        Write(stored.value.(status := status));
        if reply == Ok && stored.Just? {
          next := Copy(stored.value, version);
        }
      }
      Interfere();
    }

    /** Replaces the finalizers if the copy is up to date. */
    method Update(copy: Copy, finalizers: seq<string>) returns (next: Copy, reply: Reply)
      requires Safe() && Knows(copy)
      requires MINE in copy.chart.finalizers && MINE !in finalizers ==> !installed
      modifies this`stored, this`version, this`clock, this`dirty, this`applied, this`script, this`faults,
          this`requests, this`written
      ensures Safe() && Noticed()
      ensures SameButStatus(next.chart, copy.chart.(finalizers := finalizers)) && (reply == Ok ==> Knows(next))
      ensures requests == old(requests) + if reply == Crash then [] else [SetFinalizers(finalizers)]
      // On top of the version that was read, exactly this list is stored.
      ensures written == old(written) || (old(stored.Just? && version == copy.version) &&
                written == old(written) + [(old(stored).value, old(stored).value.(finalizers := finalizers))])
      ensures reply == Ok ==> written != old(written)
      ensures faults >= old(faults) && (reply == Ok <==> faults == old(faults))
      ensures reply == Ok && MINE in finalizers ==> Held()
      ensures reply == Ok && copy.chart.deleting && finalizers == [] ==> (stored.Just? ==> dirty)
      ensures old(stored.Nothing? || version != copy.version) ==> reply != Ok && Undisturbed()
    {
      var effective;
      reply, effective := Call();
      requests := requests + if reply == Crash then [] else [SetFinalizers(finalizers)];
      next := Copy(copy.chart.(finalizers := finalizers), copy.version);
      if stored.Nothing? || version != copy.version {
        faults := faults + 1;
        reply := if reply == Crash then Crash else Err;
      } else if effective {
        Write(stored.value.(finalizers := finalizers));
        if reply == Ok && stored.Just? {
          next := Copy(stored.value, version);
        }
      }
      Interfere();
    }

    /** Writes the progress of an operation to the status, whatever comes of it. */
    method Report(copy: Copy, operation: Operation) returns (next: Copy, reply: Reply)
      requires Safe() && Knows(copy)
      modifies this`stored, this`version, this`clock, this`dirty, this`applied, this`script, this`faults,
          this`requests, this`written
      ensures Safe() && Undisturbed() && Knows(next)
      ensures SameButStatus(next.chart, copy.chart)
      ensures old(written) <= written && AllLawful(written[|old(written)|..])
      ensures old(requests) <= requests && reply != Err
      ensures forall i :: |old(requests)| <= i < |requests| ==>
                requests[i].SetStatus? && Reports(requests[i].status, operation)
      ensures faults >= old(faults) && (reply != Ok ==> faults > old(faults))
    {
      var reports: seq<int> := *;
      next := copy;
      for i := 0 to |reports|
        invariant Safe() && Undisturbed() && Knows(next)
        invariant SameButStatus(next.chart, copy.chart)
        invariant faults >= old(faults)
        invariant old(written) <= written && AllLawful(written[|old(written)|..])
        invariant old(requests) <= requests
        invariant forall i :: |old(requests)| <= i < |requests| ==>
          requests[i].SetStatus? && Reports(requests[i].status, operation)
      {
        next, reply := UpdateStatus(next, Status(operation, reports[i]));
        if reply == Crash {
          return;
        }
      }
      reply := Ok;
    }

    /** Applies the chart; an attempt that fails may have installed something. */
    method Apply(copy: Copy) returns (next: Copy, reply: Reply)
      requires Safe() && Held() && Knows(copy)
      modifies this`stored, this`version, this`clock, this`dirty, this`applied, this`script, this`faults,
          this`installed, this`applies, this`requests, this`written
      ensures Safe() && Noticed() && Knows(next)
      ensures Held() && installed && applies == old(applies) + 1
      ensures reply == Ok ==> applied
      ensures old(written) <= written && AllLawful(written[|old(written)|..])
      ensures old(requests) <= requests && Works(requests[|old(requests)|..], Applying)
      ensures faults >= old(faults) && (reply != Ok ==> faults > old(faults))
    {
      installed, applies, requests := true, applies + 1, requests + [Start(Applying)];
      next, reply := Report(copy, Applying);
      if reply == Crash {
        return;
      }
      var effective;
      reply, effective := Call();
      if reply == Ok {
        applied := true;
      }
      Interfere();
    }

    /** Deletes the chart; unless this succeeds, something may be left. */
    method Delete(copy: Copy) returns (next: Copy, reply: Reply)
      requires Safe() && Knows(copy)
      modifies this`stored, this`version, this`clock, this`dirty, this`applied, this`script, this`faults,
          this`installed, this`requests, this`written
      ensures Safe() && Noticed() && Knows(next)
      ensures SameButStatus(next.chart, copy.chart)
      ensures installed == (old(installed) && reply != Ok)
      ensures old(written) <= written && AllLawful(written[|old(written)|..])
      ensures old(requests) <= requests && Works(requests[|old(requests)|..], Removing)
      ensures faults >= old(faults) && (reply != Ok ==> faults > old(faults))
    {
      requests := requests + [Start(Removing)];
      next, reply := Report(copy, Removing);
      if reply == Crash {
        return;
      }
      var effective;
      reply, effective := Call();
      if reply == Ok {
        installed := false;
      }
      Interfere();
    }

    /** Takes hold of a live object. */
    method AddFinalizer(copy: Copy) returns (next: Copy, reply: Reply)
      requires Safe() && Knows(copy) && MINE !in copy.chart.finalizers && !copy.chart.deleting
      modifies this`stored, this`version, this`clock, this`dirty, this`applied, this`script, this`faults,
          this`requests, this`written
      ensures Safe() && Noticed()
      ensures old(written) <= written && AllLawful(written[|old(written)|..])
      ensures old(requests) <= requests && requests[|old(requests)|..] <= Adoption(copy.chart)
      ensures reply == Ok ==> requests[|old(requests)|..] == Adoption(copy.chart)
      ensures faults >= old(faults) && (reply == Ok <==> faults == old(faults))
      ensures reply == Ok ==> Held() && Knows(next)
    {
      next, reply := Update(copy, copy.chart.finalizers + [MINE]);
      if reply == Ok {
        next, reply := UpdateStatus(next, Status(Applying, 0));
      }
    }

    /** Notes a failed operation in the status, whatever comes of it. */
    method ReportError(copy: Copy, reply: Reply, operation: Operation) returns (result: Reply)
      requires Safe() && Knows(copy)
      modifies this`stored, this`version, this`clock, this`dirty, this`applied, this`script, this`faults,
          this`requests, this`written
      ensures Safe() && Undisturbed() && faults >= old(faults)
      ensures old(written) <= written && AllLawful(written[|old(written)|..])
      ensures requests ==
              old(requests) + if reply == Err && result == Err then [SetStatus(Status(operation, 0))] else []
      ensures (result == Ok <==> reply == Ok) && (reply == Crash ==> result == Crash)
      ensures reply == Ok ==> faults == old(faults)
    {
      result := reply;
      if reply == Err {
        var next, answer := UpdateStatus(copy, Status(operation, 0));
        if answer == Crash {
          result := Crash;
        }
      }
    }

    // ---- One reconcile ----

    /** Brings the world closer to what the object asks for, and never leaves work behind unnoticed. */
    method Reconcile() returns (reply: Reply)
      requires Safe()
      modifies this`stored, this`version, this`clock, this`dirty, this`applied, this`script, this`faults,
          this`installed, this`applies, this`requests, this`written
      ensures Safe()
      ensures old(written) <= written && AllLawful(written[|old(written)|..])
      ensures old(requests) <= requests && Protocol(old(stored), reply, requests[|old(requests)|..])
      ensures old(dirty) ==> dirty
      ensures reply == Ok ==> (Work() ==> dirty)
      ensures faults >= old(faults) && (faults == old(faults) ==> reply == Ok)
      ensures clock >= old(clock) && (clock == old(clock) ==> stored == old(stored))
      ensures old(applies) <= applies <= old(applies) + 1
      ensures old(stored.Nothing? || Deleting()) ==> applies == old(applies)
      ensures !old(Deleting() && stored.value.finalizers == [MINE]) ==> (old(installed) ==> installed)
      ensures reply == Ok && old(stored.Just? && !Deleting()) ==>
              Held() && applied && installed && applies == old(applies) + 1
      ensures reply == Ok && old(Deleting() && stored.value.finalizers == [MINE]) ==>
              !installed && (stored.Just? ==> dirty)
    {
      var found;
      found, reply := Get();
      if reply != Ok || found.Nothing? {
        return;
      }
      var copy := found.value;
      var mine := ContainsString(copy.chart.finalizers, MINE);
      if !copy.chart.deleting {
        reply := ReconcileLive(copy, mine);
      } else if |copy.chart.finalizers| == 1 && mine {
        assert copy.chart.finalizers == [MINE];
        reply := ReconcileDeleted(copy);
      }
    }

    /** Takes hold of a live object and applies the chart. */
    method ReconcileLive(copy: Copy, mine: bool) returns (reply: Reply)
      requires Safe() && Knows(copy) && !copy.chart.deleting && (mine <==> MINE in copy.chart.finalizers)
      requires (mine ==> Held()) && (Deleting() ==> dirty)
      modifies this`stored, this`version, this`clock, this`dirty, this`applied, this`script, this`faults,
          this`installed, this`applies, this`requests, this`written
      ensures Safe()
      ensures old(written) <= written && AllLawful(written[|old(written)|..])
      ensures old(requests) <= requests && LiveProtocol(copy.chart, reply, requests[|old(requests)|..])
      ensures (old(dirty) ==> dirty) && (reply == Ok ==> (Work() ==> dirty))
      ensures faults >= old(faults) && (faults == old(faults) ==> reply == Ok)
      ensures clock >= old(clock) && (clock == old(clock) ==> stored == old(stored))
      ensures old(applies) <= applies <= old(applies) + 1 && (old(installed) ==> installed)
      ensures reply == Ok ==> Held() && applied && installed && applies == old(applies) + 1
    {
      var next := copy;
      if !mine {
        next, reply := AddFinalizer(copy);
        if reply != Ok {
          return;
        }
      }
      ghost var r1 := requests;
      next, reply := Apply(next);
      ghost var r2, outcome := requests, reply;
      reply := ReportError(next, reply, ApplyFailed);
      LiveInTurn(copy.chart, old(requests), r1, r2, requests, outcome, reply);
    }

    /** Deletes the chart of an object that waits for nobody else, and lets it go. */
    method ReconcileDeleted(copy: Copy) returns (reply: Reply)
      requires Safe() && Knows(copy) && copy.chart.deleting && copy.chart.finalizers == [MINE]
      modifies this`stored, this`version, this`clock, this`dirty, this`applied, this`script, this`faults,
          this`installed, this`applies, this`requests, this`written
      ensures Safe()
      ensures old(written) <= written && AllLawful(written[|old(written)|..])
      ensures old(requests) <= requests && DeleteProtocol(reply, requests[|old(requests)|..])
      ensures (old(dirty) ==> dirty) && (reply == Ok ==> (Work() ==> dirty))
      ensures faults >= old(faults) && (faults == old(faults) ==> reply == Ok)
      ensures clock >= old(clock) && (clock == old(clock) ==> stored == old(stored))
      ensures applies == old(applies)
      ensures reply == Ok ==> !installed && (stored.Just? ==> dirty)
    {
      var next;
      next, reply := UpdateStatus(copy, Status(Removing, 0));
      if reply != Ok {
        return;
      }
      next, reply := Delete(next);
      ghost var r2 := requests;
      if reply != Ok {
        reply := ReportError(next, reply, RemoveFailed);
        DeleteInTurn(old(requests), r2, requests, reply);
        return;
      }
      var remaining := RemoveString(next.chart.finalizers, MINE);
      assert remaining == Filtered([MINE], MINE) == [];
      next, reply := Update(next, remaining);
      DeleteInTurn(old(requests), r2, requests, reply);
    }

    /** The same, as a relation between two moments. */
    method ReconcileAll() returns (reply: Reply)
      requires Safe()
      modifies this`stored, this`version, this`clock, this`dirty, this`applied, this`script, this`faults,
          this`installed, this`applies, this`requests, this`written
      ensures Safe() && Reconciled(old(Now()), reply, Now())
    {
      reply := Reconcile();
    }

    // ---- The work queue ----

    /** The controller starts again and sees every object that exists. */
    method Restart()
      modifies this`dirty, this`processing
      ensures Now() == old(Now()).(dirty := stored.Just?, processing := false)
    {
      dirty, processing := stored.Just?, false;
    }

    /** The queue hands out the key, and takes it back when it failed or was marked meanwhile. */
    method Process(outcomes: seq<Outcome>)
      requires Safe() && dirty && !processing
      modifies this
      ensures Safe() && NoLostWork() && Stepped(old(Now()), Processed(outcomes), Now())
    {
      script, dirty, processing := outcomes, false, true;
      ghost var s := Now();
      Interfere();
      ghost var m := Now();
      assert Meanwhile(s, m);
      Turn();
    }

    /** Reconciles, and gives the key back to the queue. */
    method Turn()
      requires Safe() && processing
      modifies this
      ensures Safe() && NoLostWork()
      ensures exists reply, t: Snapshot :: Reconciled(old(Now()), reply, t) && Now() == Requeued(t, reply)
    {
      var reply := ReconcileAll();
      ghost var t := Now();
      WorkIsQueued(old(Now()), reply, t);
      match reply {
        case Ok => processing := false;
        case Err => dirty, processing := true, false;
        case Crash => Restart();
      }
      assert Now() == Requeued(t, reply);
    }

    method Step(step: Step)
      requires Safe() && NoLostWork() && !processing
      modifies this
      ensures Safe() && NoLostWork() && !processing && Stepped(old(Now()), step, Now())
    {
      match step
      case Others(action) => Act(action);
      case Restarted => Restart();
      case Processed(outcomes) =>
        if dirty {
          Process(outcomes);
        }
    }
  }

  /** In every history nothing is ever installed without a finalizer that keeps the object, and no work is forgotten. */
  method Run(history: seq<Step>) returns (world: World, ghost trace: seq<Snapshot>)
    ensures fresh(world) && |trace| == |history| + 1 && trace[0] == NOTHING_YET && trace[|history|] == world.Now()
    ensures forall i :: 0 <= i < |history| ==> Stepped(trace[i], history[i], trace[i + 1])
    ensures forall i :: 0 <= i <= |history| ==>
            SafeAt(trace[i]) && (WorkAt(trace[i]) ==> trace[i].dirty) && AllLawful(trace[i].written)
  {
    world := new World();
    trace := [world.Now()];
    for i := 0 to |history|
      invariant fresh(world) && world.Safe() && world.NoLostWork() && !world.processing
      invariant |trace| == i + 1 && trace[0] == NOTHING_YET && trace[i] == world.Now()
      invariant forall j :: 0 <= j < i ==> Stepped(trace[j], history[j], trace[j + 1])
      invariant forall j :: 0 <= j <= i ==>
                SafeAt(trace[j]) && (WorkAt(trace[j]) ==> trace[j].dirty) && AllLawful(trace[j].written)
    {
      world.Step(history[i]);
      trace := trace + [world.Now()];
    }
  }
}
