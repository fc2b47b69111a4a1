/** Sending objects to kubectl and counting the lines it answers with
    (pkg/k8s/k8s.go:669-775, pkg/k8s/object_stream.go:30-77). */
module Kubectl {
  import opened ProgressTrees
  import opened Pieces

  // ---- Lines ----

  /** The lines of a text that are ended. */
  function Lines(text: string): seq<string> {
    if text == "" then []
    else
      var before := text[..|text| - 1];
      if text[|text| - 1] == '\n' then Lines(before) + [Tail(before)] else Lines(before)
  }

  /** What follows the last end of a line. */
  function Tail(text: string): string {
    if text == "" || text[|text| - 1] == '\n' then "" else Tail(text[..|text| - 1]) + [text[|text| - 1]]
  }

  function Unlines(lines: seq<string>): string {
    if lines == [] then "" else Unlines(lines[..|lines| - 1]) + lines[|lines| - 1] + "\n"
  }

  predicate IsLine(line: string) {
    '\n' !in line
  }

  predicate AreLines(lines: seq<string>) {
    forall i :: 0 <= i < |lines| ==> IsLine(lines[i])
  }

  lemma {:induction false} LinesAppend(text: string, c: char)
    ensures Tail(text + [c]) == if c == '\n' then "" else Tail(text) + [c]
    ensures Lines(text + [c]) == Lines(text) + if c == '\n' then [Tail(text)] else []
    ensures Matched(Lines(text + [c])) == Matched(Lines(text)) + if c == '\n' && Matches(Tail(text)) then 1 else 0
  {
    assert (text + [c])[..|text|] == text;
    var lines := Lines(text) + [Tail(text)];
    assert lines[..|lines| - 1] == Lines(text);
  }

  /** Splitting loses nothing and leaves no end of a line inside a line. */
  lemma {:induction false} SplitIsExact(text: string)
    ensures text == Unlines(Lines(text)) + Tail(text)
    ensures AreLines(Lines(text)) && IsLine(Tail(text))
  {
    if text != "" {
      var before, last := text[..|text| - 1], text[|text| - 1];
      assert text == before + [last];
      SplitIsExact(before);
      if last == '\n' {
        assert Lines(text)[..|Lines(text)| - 1] == Lines(before);
        assert Unlines(Lines(text)) == Unlines(Lines(before)) + Tail(before) + "\n";
      } else {
        assert text == Unlines(Lines(before)) + (Tail(before) + [last]);
      }
    }
  }

  /** No other way of splitting does this. */
  lemma {:induction false} SplitIsUnique(lines: seq<string>, tail: string)
    requires AreLines(lines) && IsLine(tail)
    ensures Lines(Unlines(lines) + tail) == lines && Tail(Unlines(lines) + tail) == tail
    decreases |lines|, |tail|
  {
    var text := Unlines(lines) + tail;
    if tail != "" {
      var last := |tail| - 1;
      assert text[..|text| - 1] == Unlines(lines) + tail[..last];
      assert tail == tail[..last] + [tail[last]] && tail[last] != '\n';
      SplitIsUnique(lines, tail[..last]);
    } else if lines != [] {
      var last := |lines| - 1;
      assert text == Unlines(lines[..last]) + lines[last] + "\n";
      assert text[..|text| - 1] == Unlines(lines[..last]) + lines[last];
      SplitIsUnique(lines[..last], lines[last]);
      assert lines == lines[..last] + [lines[last]];
    }
  }

  // ---- Counting ----

  predicate EndsWith(line: string, word: string) {
    |word| <= |line| && line[|line| - |word|..] == word
  }

  predicate Matches(line: string) {
    EndsWith(line, "configured") || EndsWith(line, "unchanged") || EndsWith(line, "created") ||
        EndsWith(line, "deleted")
  }

  /** A line counts if and only if it ends with one of these words. */
  lemma {:induction false} MatchesIff(line: string)
    ensures Matches(line) <==>
            exists before: string, word ::
                word in ["configured", "unchanged", "created", "deleted"] && line == before + word
  {
    forall word | EndsWith(line, word)
      ensures exists before: string :: line == before + word
    {
      assert line == line[..|line| - |word|] + word;
    }
    forall before: string, word | line == before + word
      ensures EndsWith(line, word)
    {
    }
  }

  function Matched(lines: seq<string>): nat {
    if lines == [] then 0
    else Matched(lines[..|lines| - 1]) + if Matches(lines[|lines| - 1]) then 1 else 0
  }

  datatype Call = Call(matched: nat, count: nat)

  /** progress(1, n), progress(2, n), and so on. */
  function CallsUpTo(matched: nat, count: nat): seq<Call> {
    seq(matched, i requires 0 <= i => Call(i + 1, count))
  }

  /** The progress a node has after these calls; it ignores the ones out of range. */
  function ProgressAfter(calls: seq<Call>, local: int): int {
    if calls == [] then local
    else
      var last := calls[|calls| - 1];
      if Counts(last.matched, last.count) then Share(last.matched, last.count)
          else ProgressAfter(calls[..|calls| - 1], local)
  }

  function Least(a: nat, b: nat): nat {
    if a <= b then a else b
  }

  lemma {:induction false} LocalAfterCalls(matched: nat, count: nat, local: int)
    requires 0 < matched && 0 < count
    ensures ProgressAfter(CallsUpTo(matched, count), local) == Share(Least(matched, count), count)
  {
    var calls := CallsUpTo(matched, count);
    assert calls[..matched - 1] == CallsUpTo(matched - 1, count);
    if matched > count {
      LocalAfterCalls(matched - 1, count, local);
    }
  }

  /** While the objects of one stream are handled, the progress of the node only grows, up to 90. */
  lemma {:induction false} ProgressGrows(some: nat, more: nat, count: nat, local: int)
    requires 0 < some <= more && 0 < count
    ensures 0 <= ProgressAfter(CallsUpTo(some, count), local) <= ProgressAfter(CallsUpTo(more, count), local) <= 90
    ensures more >= count ==> ProgressAfter(CallsUpTo(more, count), local) == 90
  {
    LocalAfterCalls(some, count, local);
    LocalAfterCalls(more, count, local);
    ShareGrows(Least(some, count), Least(more, count), count);
    if more >= count {
      WholeShare(count);
    }
  }

  // ---- Sending objects ----

  datatype Object = Object(kind: string, name: string, content: string)

  /** A stream yields its objects and may fail after the last one. */
  datatype ObjectStream = ObjectStream(objects: seq<Object>, fails: bool)

  function Mapped(objects: seq<Object>, mapper: Object -> Object): seq<Object> {
    seq(|objects|, i requires 0 <= i < |objects| => mapper(objects[i]))
  }

  // ---- The order of objects ----

  /** Kinds that are not listed come last. */
  function KindOrdinal(kind: string): int {
    match kind
    case "namespace" => 1
    case "NetworkPolicy" => 2
    case "ResourceQuota" => 3
    case "LimitRange" => 4
    case "PodSecurityPolicy" => 5
    case "PodDisruptionBudget" => 6
    case "Secret" => 7
    case "ConfigMap" => 8
    case "StorageClass" => 9
    case "PersistentVolume" => 10
    case "PersistentVolumeClaim" => 11
    case "ServiceAccount" => 12
    case "CustomResourceDefinition" => 13
    case "ClusterRole" => 14
    case "ClusterRoleList" => 15
    case "ClusterRoleBinding" => 16
    case "ClusterRoleBindingList" => 17
    case "Role" => 18
    case "RoleList" => 19
    case "RoleBinding" => 20
    case "RoleBindingList" => 21
    case "Service" => 22
    case "DaemonSet" => 23
    case "Pod" => 24
    case "ReplicationController" => 25
    case "ReplicaSet" => 26
    case "Deployment" => 27
    case "HorizontalPodAutoscaler" => 28
    case "StatefulSet" => 29
    case "Job" => 30
    case "CronJob" => 31
    case "Ingress" => 32
    case "APIService" => 33
    case _ => 1000
  }

  /** The kinds in the order in which they are sent. */
  const KINDS := [
    "NetworkPolicy", "ResourceQuota", "LimitRange", "PodSecurityPolicy", "PodDisruptionBudget", "Secret", "ConfigMap",
    "StorageClass", "PersistentVolume", "PersistentVolumeClaim", "ServiceAccount", "CustomResourceDefinition",
    "ClusterRole", "ClusterRoleList", "ClusterRoleBinding", "ClusterRoleBindingList", "Role", "RoleList", "RoleBinding",
    "RoleBindingList", "Service", "DaemonSet", "Pod", "ReplicationController", "ReplicaSet", "Deployment",
    "HorizontalPodAutoscaler", "StatefulSet", "Job", "CronJob", "Ingress", "APIService"]

  lemma {:induction false} KindsInOrder(kind: string)
    ensures forall i :: 0 <= i < |KINDS| ==> KindOrdinal(KINDS[i]) == i + 2
    ensures kind !in KINDS && kind != "namespace" ==> KindOrdinal(kind) == 1000
  {
  }

  /** Negative, zero or positive, as strings compare byte by byte. */
  function CompareNames(a: string, b: string): int {
    if a == "" then (if b == "" then 0 else -1)
    else if b == "" then 1
    else if a[0] < b[0] then -1
    else if a[0] > b[0] then 1
    else CompareNames(a[1..], b[1..])
  }

  function Compare(a: Object, b: Object): int {
    var diff := KindOrdinal(a.kind) - KindOrdinal(b.kind);
    if diff != 0 then diff else CompareNames(a.name, b.name)
  }

  /** The order of names is that of a dictionary. */
  lemma {:induction false} NamesCompare(a: string, b: string)
    ensures CompareNames(a, b) < 0 <==> exists n: nat :: Precedes(a, b, n)
  {
    if a == "" {
      assert b != "" ==> Precedes(a, b, 0);
    } else if b != "" {
      if a[0] < b[0] {
        assert Precedes(a, b, 0);
      } else if a[0] == b[0] {
        NamesCompare(a[1..], b[1..]);
        if n: nat :| Precedes(a[1..], b[1..], n) {
          assert a[..n + 1] == [a[0]] + a[1..][..n] && b[..n + 1] == [b[0]] + b[1..][..n];
          assert Precedes(a, b, n + 1);
        }
        if n: nat :| Precedes(a, b, n) {
          assert n > 0 && a[1..][..n - 1] == a[..n][1..] && b[1..][..n - 1] == b[..n][1..];
          assert Precedes(a[1..], b[1..], n - 1);
        }
      }
    }
  }

  /** They agree up to n, and there a ends or has the smaller character. */
  predicate Precedes(a: string, b: string, n: nat) {
    n <= |a| && n < |b| && a[..n] == b[..n] && (n == |a| || a[n] < b[n])
  }

  lemma {:induction false} NamesAreOrdered(a: string, b: string, c: string)
    ensures CompareNames(a, b) < 0 <==> CompareNames(b, a) > 0
    ensures CompareNames(a, b) == 0 <==> a == b
    ensures CompareNames(a, b) <= 0 && CompareNames(b, c) <= 0 ==> CompareNames(a, c) <= 0
  {
    if a != "" && b != "" {
      NamesAreOrdered(a[1..], b[1..], if c == "" then "" else c[1..]);
      assert a == [a[0]] + a[1..] && b == [b[0]] + b[1..];
    }
  }

  /** Objects are ordered by kind, and by name within a kind. */
  lemma {:induction false} ObjectsAreOrdered(a: Object, b: Object, c: Object)
    ensures Compare(a, b) < 0 <==> Compare(b, a) > 0
    ensures Compare(a, b) <= 0 && Compare(b, c) <= 0 ==> Compare(a, c) <= 0
  {
    NamesAreOrdered(a.name, b.name, c.name);
  }

  /** First by kind, then by name. */
  lemma {:induction false} ObjectsCompare(a: Object, b: Object)
    ensures Compare(a, b) < 0 <==>
            || KindOrdinal(a.kind) < KindOrdinal(b.kind)
            || (KindOrdinal(a.kind) == KindOrdinal(b.kind) && exists n: nat :: Precedes(a.name, b.name, n))
  {
    NamesCompare(a.name, b.name);
  }

  /** Namespaces are meant to come first, but the name of their kind is spelt otherwise: they come after what is put
      into them. */
  lemma {:induction false} NamespacesComeLast(namespace: string, content: string, o: Object)
    requires KindOrdinal(o.kind) < 1000
    ensures Compare(o, Object("Namespace", namespace, content)) < 0
  {
    assert KindOrdinal("Namespace") == 1000;
  }

  ghost predicate InOrder(objects: seq<Object>) {
    forall i, j :: 0 <= i < j < |objects| ==> Compare(objects[i], objects[j]) <= 0
  }

  predicate Before(a: Object, b: Object, reverse: bool) {
    if reverse then Compare(a, b) >= 0 else Compare(a, b) < 0
  }

  /** Puts the objects in order; whatever the comparison says, none is lost. */
  method Sort(objects: seq<Object>, reverse: bool) returns (sorted: seq<Object>)
    ensures multiset(sorted) == multiset(objects) && |sorted| == |objects|
    ensures !reverse ==> InOrder(sorted)
  {
    sorted := [];
    for i := 0 to |objects|
      invariant multiset(sorted) == multiset(objects[..i]) && |sorted| == i
      invariant !reverse ==> InOrder(sorted)
    {
      assert objects[..i + 1] == objects[..i] + [objects[i]];
      sorted := Insert(sorted, objects[i], reverse);
    }
    assert objects[..|objects|] == objects;
  }

  method Insert(sorted: seq<Object>, o: Object, reverse: bool) returns (result: seq<Object>)
    requires !reverse ==> InOrder(sorted)
    ensures multiset(result) == multiset(sorted) + multiset{o} && |result| == |sorted| + 1
    ensures !reverse ==> InOrder(result)
  {
    var at := 0;
    while at < |sorted| && !Before(o, sorted[at], reverse)
      invariant at <= |sorted|
      invariant forall j :: 0 <= j < at ==> !Before(o, sorted[j], reverse)
    {
      at := at + 1;
    }
    assert sorted == sorted[..at] + sorted[at..];
    result := sorted[..at] + [o] + sorted[at..];
    if !reverse {
      Inserted(sorted, o, at);
    }
  }

  lemma {:induction false} Inserted(sorted: seq<Object>, o: Object, at: nat)
    requires InOrder(sorted) && at <= |sorted|
    requires forall j :: 0 <= j < at ==> Compare(o, sorted[j]) >= 0
    requires at < |sorted| ==> Compare(o, sorted[at]) < 0
    ensures InOrder(sorted[..at] + [o] + sorted[at..])
  {
    forall j | 0 <= j < |sorted|
      ensures if j < at then Compare(sorted[j], o) <= 0 else Compare(o, sorted[j]) <= 0
    {
      if j < at {
        ObjectsAreOrdered(o, sorted[j], o);
        ObjectsAreOrdered(sorted[j], o, o);
      } else {
        ObjectsAreOrdered(o, sorted[at], sorted[j]);
      }
    }
  }

  function Printed(output: seq<seq<string>>): string {
    if output == [] then "" else Printed(output[..|output| - 1]) + Joined(output[|output| - 1])
  }

  class Kubectl {
    var count: nat
    var matched: nat
    /** The part of a line that has come so far. */
    var buffer: string
    /** The calls of the progress function. */
    var calls: seq<Call>
    /** The objects kubectl has received, and how often something was written to it. */
    var sent: seq<Object>
    var writes: nat
    /** All that kubectl has printed. */
    ghost var printed: string

    /** One call for each line that matches, whatever the pieces in which the lines came. */
    ghost predicate Valid()
      reads this
    {
      buffer == Tail(printed) && matched == Matched(Lines(printed)) && calls == CallsUpTo(matched, count)
    }

    constructor ()
      ensures Valid() && printed == "" && sent == [] && count == 0 && writes == 0
    {
      count, matched, buffer, calls, sent, writes, printed := 0, 0, "", [], [], 0, "";
    }

    method Line(line: string)
      requires calls == CallsUpTo(matched, count)
      modifies this`matched, this`calls
      ensures matched == old(matched) + (if Matches(line) then 1 else 0) && calls == CallsUpTo(matched, count)
    {
      if Matches(line) {
        matched := matched + 1;
        calls := calls + [Call(matched, count)];
      }
    }

    method WriteByte(d: char)
      requires Valid()
      modifies this`matched, this`calls, this`buffer, this`printed
      ensures Valid() && printed == old(printed) + [d]
    {
      LinesAppend(printed, d);
      if d == '\n' {
        Line(buffer);
        buffer := "";
      } else {
        buffer := buffer + [d];
      }
      printed := printed + [d];
    }

    method Write(data: string)
      requires Valid()
      modifies this`matched, this`calls, this`buffer, this`printed
      ensures Valid() && printed == old(printed) + data
    {
      ghost var before := printed;
      for i := 0 to |data|
        invariant Valid() && printed == before + data[..i]
      {
        assert before + data[..i] + [data[i]] == before + data[..i + 1];
        WriteByte(data[i]);
      }
      assert data[..|data|] == data;
    }

    method WriteAll(pieces: seq<string>)
      requires Valid()
      modifies this`matched, this`calls, this`buffer, this`printed
      ensures Valid() && printed == old(printed) + Joined(pieces)
    {
      ghost var before := printed;
      for i := 0 to |pieces|
        invariant Valid() && printed == before + Joined(pieces[..i])
      {
        Write(pieces[i]);
        OnePieceMore(before, pieces, i);
      }
      assert pieces[..|pieces|] == pieces;
    }

    /** Reads all objects and counts them. */
    method Drain(stream: ObjectStream, mapper: Object -> Object) returns (objects: seq<Object>, ok: bool)
      requires Valid() && printed == ""
      modifies this`count, this`calls
      ensures Valid() && count == old(count) + |stream.objects|
      ensures objects == Mapped(stream.objects, mapper) && ok == !stream.fails
      ensures |objects| == |stream.objects| && forall i :: 0 <= i < |objects| ==>
              objects[i] == mapper(stream.objects[i])
    {
      objects := [];
      for i := 0 to |stream.objects|
        invariant Valid() && count == old(count) + i
        invariant objects == Mapped(stream.objects[..i], mapper)
      {
        count := count + 1;
        objects := objects + [mapper(stream.objects[i])];
      }
      return objects, !stream.fails;
    }

    /** Lets kubectl print its next piece of output, if there is any left. */
    method Next(output: seq<seq<string>>, i: nat)
      requires Valid() && printed == Printed(output[..Least(i, |output|)])
      modifies this`matched, this`calls, this`buffer, this`printed
      ensures Valid() && printed == Printed(output[..Least(i + 1, |output|)])
    {
      if i < |output| {
        assert output[..i + 1][..i] == output[..i];
        WriteAll(output[i]);
      }
    }

    /** Sends the objects, while kubectl prints output[k] once it has got k + 1 objects or the end of its input. */
    method Encode(objects: seq<Object>, output: seq<seq<string>>)
      requires Valid() && printed == "" && sent == [] && writes == 0
      modifies this`matched, this`calls, this`buffer, this`printed, this`sent, this`writes
      ensures Valid() && printed == Printed(output) && sent == objects && writes == 2 * |objects|
    {
      for i := 0 to |objects|
        invariant Valid() && printed == Printed(output[..Least(i, |output|)])
        invariant sent == objects[..i] && writes == 2 * i
      {
        Send(objects[i]);
        Next(output, i);
        assert objects[..i + 1] == objects[..i] + [objects[i]];
      }
      assert objects[..|objects|] == objects;
      Finish(output, |objects|);
    }

    /** Two writes: a separator and the object. */
    method Send(o: Object)
      requires Valid()
      modifies this`sent, this`writes
      ensures Valid() && sent == old(sent) + [o] && writes == old(writes) + 2
    {
      sent, writes := sent + [o], writes + 2;
    }

    method Finish(output: seq<seq<string>>, start: nat)
      requires Valid() && printed == Printed(output[..Least(start, |output|)])
      modifies this`matched, this`calls, this`buffer, this`printed
      ensures Valid() && printed == Printed(output)
    {
      for i := Least(start, |output|) to |output|
        invariant Valid() && printed == Printed(output[..Least(i, |output|)])
      {
        Next(output, i);
      }
      assert output[..|output|] == output;
    }

    /** Runs kubectl on a stream; kubectl prints its output meanwhile and ends well or not. */
    method Run(stream: ObjectStream, mapper: Object -> Object, reverse: bool, output: seq<seq<string>>,
        ended: bool ) returns (ok: bool)
      requires Valid() && printed == "" && sent == [] && count == 0 && writes == 0
      modifies this
      ensures stream.fails ==> sent == [] && calls == []
      ensures !stream.fails ==>
              multiset(sent) == multiset(Mapped(stream.objects, mapper)) && (!reverse ==> InOrder(sent))
      ensures !stream.fails ==> calls == CallsUpTo(Matched(Lines(Printed(output))), |stream.objects|)
      ensures ok <==> !stream.fails && (ended || stream.objects == [])
    {
      var objects;
      objects, ok := Drain(stream, mapper);
      if !ok {
        return;
      }
      objects := Sort(objects, reverse);
      Encode(objects, output);
      ok := ended || writes == 0;
    }
  }
}
