/** Normalised separators between YAML documents (pkg/kdo/renderer/yaml_writer.go:16-48, pkg/k8s/stream.go:61-73). */
module Yaml {
  import opened Pieces

  newtype byte = x: int | 0 <= x < 256

  const SPACE: byte := 32
  const NEWLINE: byte := 10
  const DASH: byte := 45
  const SEPARATOR: seq<byte> := [DASH, DASH, DASH, NEWLINE]

  // ---- What is kept of an input ----

  datatype State = SkipWhitespace | Separator | EndSeparator | Normal

  function Next(state: State, b: byte): State {
    match state
    case SkipWhitespace => if b == SPACE || b == NEWLINE then SkipWhitespace else if b == DASH then Separator
                           else Normal
    case Separator => if b == DASH then Separator else if b == NEWLINE then EndSeparator else Normal
    case _ => Normal
  }

  function StateAfter(state: State, input: seq<byte>): State
    decreases |input|
  {
    if input == [] then state else StateAfter(Next(state, input[0]), input[1..])
  }

  /** The rest of the input, from the first byte that is not skipped. */
  function KeptFrom(state: State, input: seq<byte>): seq<byte>
    decreases |input|
  {
    if input == [] then []
    else if Next(state, input[0]) == Normal then input
    else KeptFrom(Next(state, input[0]), input[1..])
  }

  function Kept(input: seq<byte>): seq<byte> {
    KeptFrom(SkipWhitespace, input)
  }

  /** What arrives at the other end of a writer. */
  function Normalised(input: seq<byte>): seq<byte> {
    if Kept(input) == [] then [] else SEPARATOR + Kept(input)
  }

  lemma {:induction false} StateAppend(state: State, a: seq<byte>, b: seq<byte>)
    ensures StateAfter(state, a + b) == StateAfter(StateAfter(state, a), b)
    decreases |a|
  {
    if a == [] {
      assert a + b == b;
    } else {
      assert (a + b)[1..] == a[1..] + b;
      StateAppend(Next(state, a[0]), a[1..], b);
    }
  }

  lemma {:induction false} StaysNormal(input: seq<byte>)
    ensures StateAfter(Normal, input) == Normal
    ensures KeptFrom(Normal, input) == input
    decreases |input|
  {
    if input != [] {
      StaysNormal(input[1..]);
    }
  }

  /** Whether two pieces come in one write or in two makes no difference. */
  lemma {:induction false} KeptAppend(state: State, a: seq<byte>, b: seq<byte>)
    ensures KeptFrom(state, a + b) == KeptFrom(state, a) + KeptFrom(StateAfter(state, a), b)
    decreases |a|
  {
    if a == [] {
      assert a + b == b;
    } else {
      assert (a + b)[1..] == a[1..] + b;
      if Next(state, a[0]) == Normal {
        StaysNormal(a[1..]);
        StaysNormal(b);
      } else {
        KeptAppend(Next(state, a[0]), a[1..], b);
      }
    }
  }

  lemma {:induction false} KeptWhenNormal(state: State, input: seq<byte>)
    requires state != Normal
    ensures KeptFrom(state, input) == [] <==> StateAfter(state, input) != Normal
    ensures |KeptFrom(state, input)| <= |input| && KeptFrom(state, input) == input[|input| - |KeptFrom(state, input)|..]
    decreases |input|
  {
    if input != [] {
      if Next(state, input[0]) == Normal {
        StaysNormal(input[1..]);
      } else {
        KeptWhenNormal(Next(state, input[0]), input[1..]);
      }
    }
  }

  lemma {:induction false} AfterSeparator(state: State)
    ensures StateAfter(state, SEPARATOR) in {EndSeparator, Normal}
    ensures state == SkipWhitespace ==> KeptFrom(state, SEPARATOR) == []
  {
    var s1 := Next(state, DASH);
    var s2 := Next(s1, DASH);
    var s3 := Next(s2, DASH);
    var s4 := Next(s3, NEWLINE);
    var rest := SEPARATOR[1..];
    assert rest == [DASH, DASH, NEWLINE] && rest[1..] == [DASH, NEWLINE] && rest[2..] == [NEWLINE] && rest[3..] == [];
    assert StateAfter(s4, []) == s4 && StateAfter(s3, [NEWLINE]) == s4;
    assert rest[1..][1..] == rest[2..];
    assert StateAfter(s2, rest[1..]) == s4;
    assert StateAfter(s1, rest) == s4;
    if state == SkipWhitespace {
      assert KeptFrom(s3, [NEWLINE]) == KeptFrom(s4, []);
      assert KeptFrom(s2, rest[1..]) == KeptFrom(s3, rest[2..]);
      assert KeptFrom(s1, rest) == KeptFrom(s2, rest[1..]);
    }
  }

  /** After a separator, everything is kept. */
  lemma {:induction false} AllKeptAfterSeparator(before: seq<byte>, data: seq<byte>)
    ensures Kept(before + SEPARATOR + data) == Kept(before + SEPARATOR) + data
    ensures data != [] ==> StateAfter(SkipWhitespace, before + SEPARATOR + data) == Normal
  {
    var state := StateAfter(SkipWhitespace, before + SEPARATOR);
    StateAppend(SkipWhitespace, before, SEPARATOR);
    AfterSeparator(StateAfter(SkipWhitespace, before));
    StateAppend(SkipWhitespace, before + SEPARATOR, data);
    KeptAppend(SkipWhitespace, before + SEPARATOR, data);
    if data != [] {
      StaysNormal(data);
      StaysNormal(data[1..]);
    }
  }

  // ---- What normalising promises ----

  /** Nothing comes out, or one separator and a suffix of the input that is not empty. */
  lemma {:induction false} NothingOrOneDocument(input: seq<byte>)
    ensures Normalised(input) == [] ||
            exists i :: 0 <= i < |input| && Normalised(input) == SEPARATOR + input[i..]
  {
    KeptWhenNormal(SkipWhitespace, input);
    if Normalised(input) != [] {
      var i := |input| - |Kept(input)|;
      assert Normalised(input) == SEPARATOR + input[i..];
    }
  }

  lemma {:induction false} KeepsADocument(rest: seq<byte>)
    ensures Kept(SEPARATOR + rest) == rest
  {
    AfterSeparator(SkipWhitespace);
    AllKeptAfterSeparator([], rest);
    assert [] + SEPARATOR == SEPARATOR;
  }

  lemma {:induction false} Idempotent(input: seq<byte>)
    ensures Normalised(Normalised(input)) == Normalised(input)
  {
    KeepsADocument(Kept(input));
  }

  const BLANK: set<byte> := {SPACE, NEWLINE}

  predicate AllOf(input: seq<byte>, bytes: set<byte>) {
    forall i :: 0 <= i < |input| ==> input[i] in bytes
  }

  /** How long the prefix is that has only these bytes. */
  function Leading(input: seq<byte>, bytes: set<byte>): (n: nat)
    ensures n <= |input| && forall i :: 0 <= i < n ==> input[i] in bytes
    ensures n < |input| ==> input[n] !in bytes
  {
    if input == [] || input[0] !in bytes then 0 else 1 + Leading(input[1..], bytes)
  }

  /** The input without the spaces and line ends in front. */
  function Body(input: seq<byte>): seq<byte> {
    input[Leading(input, BLANK)..]
  }

  lemma {:induction false} LeadingIsLongest(input: seq<byte>, n: nat, bytes: set<byte>)
    requires n <= |input| && AllOf(input[..n], bytes)
    ensures n <= Leading(input, bytes)
  {
    if n > 0 {
      assert input[0] == input[..n][0];
      assert input[1..][..n - 1] == input[..n][1..];
      LeadingIsLongest(input[1..], n - 1, bytes);
    }
  }

  lemma {:induction false} BlanksAreSkipped(input: seq<byte>)
    ensures Kept(input) == Kept(Body(input))
  {
    if input != [] && input[0] in BLANK {
      BlanksAreSkipped(input[1..]);
    }
  }

  lemma {:induction false} DashesAreSkipped(input: seq<byte>)
    ensures var rest := input[Leading(input, {DASH})..];
            KeptFrom(Separator, input) == if rest != [] && rest[0] == NEWLINE then rest[1..] else rest
  {
    if input != [] && input[0] == DASH {
      DashesAreSkipped(input[1..]);
    } else if |input| > 1 {
      assert Next(EndSeparator, input[1..][0]) == Normal;
    }
  }

  /** Skipped are spaces and line ends, then all dashes, and then the end of that line. */
  lemma {:induction false} WhatIsKept(input: seq<byte>)
    ensures var body := Body(input);
            var rest := body[Leading(body, {DASH})..];
            Kept(input) == if rest != body && rest != [] && rest[0] == NEWLINE then rest[1..] else rest
  {
    BlanksAreSkipped(input);
    var body := Body(input);
    if body != [] && body[0] == DASH {
      DashesAreSkipped(body[1..]);
    }
  }

  /** Only spaces, line ends and one complete separator were skipped. */
  ghost predicate Faithful(input: seq<byte>) {
    exists space: seq<byte> :: FaithfulBut(input, space)
  }

  predicate FaithfulBut(input: seq<byte>, space: seq<byte>) {
    AllOf(space, BLANK) && (input == space + Kept(input) || input == space + SEPARATOR + Kept(input))
  }

  predicate HasContentFirst(input: seq<byte>) {
    var body := Body(input);
    body == [] || body[0] != DASH || SEPARATOR <= body
  }

  /** Normalising loses no content unless the first line starts with dashes and is not a separator. */
  lemma {:induction false} FaithfulIff(input: seq<byte>)
    ensures Faithful(input) <==> HasContentFirst(input)
  {
    if Faithful(input) {
      var space :| FaithfulBut(input, space);
      FaithfulBefore(input, space);
    }
    if HasContentFirst(input) {
      FaithfulAfter(input);
    }
  }

  lemma {:induction false} FaithfulAfter(input: seq<byte>)
    requires HasContentFirst(input)
    ensures FaithfulBut(input, input[..Leading(input, BLANK)])
  {
    var body := Body(input);
    var space := input[..Leading(input, BLANK)];
    assert input == space + body;
    if SEPARATOR <= body {
      var rest := body[|SEPARATOR|..];
      assert body == SEPARATOR + rest;
      BlanksAreSkipped(input);
      KeepsADocument(rest);
      assert space + SEPARATOR + rest == space + body;
    } else {
      WhatIsKept(input);
    }
  }

  lemma {:induction false} FaithfulBefore(input: seq<byte>, space: seq<byte>)
    requires FaithfulBut(input, space)
    ensures HasContentFirst(input)
  {
    var body, n := Body(input), |space|;
    if body != [] && body[0] == DASH {
      WhatIsKept(input);
      assert space == input[..n];
      LeadingIsLongest(input, n, BLANK);
      assert |Kept(input)| < |body| <= |input| - n;
      assert input[n..] == SEPARATOR + Kept(input);
      assert input[n] == SEPARATOR[0];
      assert input[n..] == body;
    }
  }

  /** The dash of a list item is taken for a separator. */
  lemma {:induction false} ListItemLosesItsDash(text: seq<byte>)
    requires text != [] && text[0] !in {DASH, NEWLINE}
    ensures Normalised([DASH] + text) == SEPARATOR + text
    ensures !Faithful([DASH] + text)
  {
    var input := [DASH] + text;
    assert input[1..] == text && input[0] == DASH;
    assert KeptFrom(Separator, text) == text;
    assert Kept(input) == text;
    FaithfulIff(input);
    assert Body(input) == input && input[1] == text[0];
  }

  // ---- Writers on top of writers ----

  class Buffer {
    var contents: seq<byte>

    constructor ()
      ensures contents == []
    {
      contents := [];
    }
  }

  datatype Target = Plain(buffer: Buffer) | Normalising(writer: YamlWriter)

  ghost function Objects(target: Target): set<object> {
    match target
    case Plain(buffer) => {buffer}
    case Normalising(writer) => writer.Repr
  }

  ghost predicate Ready(target: Target)
    reads Objects(target)
    decreases Objects(target), 1
  {
    target.Normalising? ==> target.writer in target.writer.Repr && target.writer.Valid()
  }

  /** All that was written to a target so far. */
  ghost function Received(target: Target): seq<byte>
    reads match target { case Plain(buffer) => {buffer as object} case Normalising(writer) => {writer} }
  {
    match target
    case Plain(buffer) => buffer.contents
    case Normalising(writer) => writer.fed
  }

  class YamlWriter {
    var state: State
    const target: Target
    /** Everything written to this writer, and what its target held before. */
    ghost var fed: seq<byte>
    ghost const base: seq<byte>
    ghost const Repr: set<object>

    /** The target got the normal form of all input, however it was cut into writes. */
    ghost predicate Valid()
      reads Repr
      decreases Repr, 0
    {
      this !in Objects(target) && Repr == {this} + Objects(target) &&
      Ready(target) &&
      state == StateAfter(SkipWhitespace, fed) &&
      Received(target) == base + Normalised(fed)
    }

    constructor (target: Target)
      requires Ready(target)
      ensures Valid() && this.target == target && fed == [] && base == Received(target)
      ensures fresh(Repr - Objects(target))
    {
      state, this.target := SkipWhitespace, target;
      fed, base, Repr := [], Received(target), {this} + Objects(target);
    }

    /** Takes all of the data, and returns how much of it was passed on. */
    method Write(data: seq<byte>) returns (n: nat)
      requires Valid()
      modifies Repr
      ensures Valid() && fed == old(fed) + data
      ensures n == |Kept(fed)| - |Kept(old(fed))|
      decreases Repr, 0
    {
      ghost var before := fed;
      if state == Normal {
        MoreOfADocument(fed, data);
        KeptBelow(base, Kept(fed), data);
        n := WriteTo(target, data);
        fed := fed + data;
        assert base + Normalised(before) + data == base + Normalised(fed);
        return;
      }
      KeptWhenNormal(SkipWhitespace, fed);
      assert fed + data[..0] == fed;
      for i := 0 to |data|
        invariant state == StateAfter(SkipWhitespace, fed + data[..i]) != Normal
        invariant fed == before && Ready(target) && Received(target) == base
      {
        assert fed + data[..i + 1] == fed + data[..i] + [data[i]];
        StateAppend(SkipWhitespace, fed + data[..i], [data[i]]);
        state := Next(state, data[i]);
        if state == Normal {
          DocumentFound(fed, data, i);
          n := WriteDocument(target, data[i..]);
          fed := fed + data;
          return;
        }
      }
      NothingFound(fed, data);
      fed := fed + data;
      return 0;
    }
  }

  /** In the normal state the rest is passed on. */
  lemma {:induction false} MoreOfADocument(before: seq<byte>, data: seq<byte>)
    requires StateAfter(SkipWhitespace, before) == Normal
    ensures StateAfter(SkipWhitespace, before + data) == Normal
    ensures Kept(before + data) == Kept(before) + data && Kept(before) != []
    ensures Normalised(before + data) == Normalised(before) + data
  {
    StateAppend(SkipWhitespace, before, data);
    KeptAppend(SkipWhitespace, before, data);
    KeptWhenNormal(SkipWhitespace, before);
    StaysNormal(data);
    assert SEPARATOR + (Kept(before) + data) == SEPARATOR + Kept(before) + data;
  }

  /** The next writer keeps what belongs to a document. */
  lemma {:induction false} KeptBelow(base: seq<byte>, document: seq<byte>, data: seq<byte>)
    requires document != []
    ensures Kept(base + (SEPARATOR + document) + data) == Kept(base + (SEPARATOR + document)) + data
  {
    assert base + SEPARATOR + document == base + (SEPARATOR + document);
    AllKeptAfterSeparator(base, document);
    KeptAppend(SkipWhitespace, base + (SEPARATOR + document), data);
    StaysNormal(data);
  }

  lemma {:induction false} NothingFound(before: seq<byte>, data: seq<byte>)
    requires StateAfter(SkipWhitespace, before + data[..|data|]) != Normal
    ensures StateAfter(SkipWhitespace, before + data) == StateAfter(SkipWhitespace, before + data[..|data|])
    ensures Kept(before + data) == Kept(before) == []
  {
    assert data[..|data|] == data;
    KeptWhenNormal(SkipWhitespace, before + data);
    KeptAppend(SkipWhitespace, before, data);
  }

  lemma {:induction false} FirstKept(state: State, data: seq<byte>)
    requires data != [] && Next(state, data[0]) == Normal
    ensures StateAfter(state, data) == Normal && KeptFrom(state, data) == data
  {
    StaysNormal(data[1..]);
  }

  /** The first byte that leads to the normal state is the first one that is kept. */
  lemma {:induction false} DocumentFound(before: seq<byte>, data: seq<byte>, i: nat)
    requires i < |data|
    requires StateAfter(SkipWhitespace, before + data[..i]) != Normal
    requires StateAfter(SkipWhitespace, before + data[..i] + [data[i]]) == Normal
    ensures StateAfter(SkipWhitespace, before + data) == Normal
    ensures Kept(before + data) == data[i..] && Kept(before) == []
  {
    var early := before + data[..i];
    var state := StateAfter(SkipWhitespace, early);
    assert before + data == early + data[i..];
    StateAppend(SkipWhitespace, early, [data[i]]);
    FirstKept(state, data[i..]);
    StateAppend(SkipWhitespace, early, data[i..]);
    KeptAppend(SkipWhitespace, early, data[i..]);
    KeptWhenNormal(SkipWhitespace, early);
    KeptAppend(SkipWhitespace, before, data[..i]);
  }

  method WriteTo(target: Target, data: seq<byte>) returns (n: nat)
    requires Ready(target)
    modifies Objects(target)
    ensures Ready(target) && Received(target) == old(Received(target)) + data
    ensures n == match target {
                   case Plain(_) => |data|
                   case Normalising(writer) => |Kept(writer.fed)| - |Kept(old(writer.fed))|
                 }
    decreases Objects(target), 1
  {
    match target
    case Plain(buffer) =>
      buffer.contents := buffer.contents + data;
      n := |data|;
    case Normalising(writer) =>
      n := writer.Write(data);
  }

  /** A separator and the beginning of a document. */
  method WriteDocument(target: Target, data: seq<byte>) returns (n: nat)
    requires Ready(target)
    modifies Objects(target)
    ensures Ready(target) && Received(target) == old(Received(target)) + (SEPARATOR + data)
    ensures n == |data|
    decreases Objects(target), 2
  {
    ghost var before := Received(target);
    n := WriteTo(target, SEPARATOR);
    n := WriteTo(target, data);
    assert before + SEPARATOR + data == before + (SEPARATOR + data);
    AllKeptAfterSeparator(before, data);
  }

  // ---- Streams ----

  /** A stream writes its text in pieces and may fail after the last one, or puts other streams together. */
  datatype Stream = Text(pieces: seq<seq<byte>>, fails: bool) | Concat(streams: seq<Stream>)

  /** All that is written, and whether the stream came to its end. */
  datatype Output = Output(bytes: seq<byte>, complete: bool)

  function Then(first: Output, second: Output): Output {
    if first.complete then Output(first.bytes + second.bytes, second.complete) else first
  }

  function Rendered(stream: Stream): Output
    decreases stream, 0
  {
    match stream
    case Text(pieces, fails) => Output(Joined(pieces), !fails)
    case Concat(streams) => AllRendered(streams)
  }

  /** The streams in order, each one normalised, up to the first that fails. */
  function AllRendered(streams: seq<Stream>): Output
    decreases streams, 0
  {
    if streams == [] then Output([], true)
    else
      var last := |streams| - 1;
      Then(AllRendered(streams[..last]), Document(Rendered(streams[last])))
  }

  function Document(output: Output): Output {
    output.(bytes := Normalised(output.bytes))
  }

  /** The texts a stream is made of, in order. */
  function Leaves(stream: Stream): seq<Stream>
    decreases stream, 0
  {
    match stream
    case Text(_, _) => [stream]
    case Concat(streams) => AllLeaves(streams)
  }

  function AllLeaves(streams: seq<Stream>): seq<Stream>
    decreases streams, 0
  {
    if streams == [] then [] else AllLeaves(streams[..|streams| - 1]) + Leaves(streams[|streams| - 1])
  }

  lemma ThenIsAssociative(a: Output, b: Output, c: Output)
    ensures Then(Then(a, b), c) == Then(a, Then(b, c))
  {
    assert a.bytes + b.bytes + c.bytes == a.bytes + (b.bytes + c.bytes);
  }

  lemma {:induction false} RenderedInTurn(first: seq<Stream>, second: seq<Stream>)
    ensures AllRendered(first + second) == Then(AllRendered(first), AllRendered(second))
    decreases |second|
  {
    if second == [] {
      assert first + second == first;
    } else {
      var last := |second| - 1;
      assert (first + second)[..|first + second| - 1] == first + second[..last];
      RenderedInTurn(first, second[..last]);
      ThenIsAssociative(AllRendered(first), AllRendered(second[..last]), Document(Rendered(second[last])));
    }
  }

  /** What each of the streams writes, normalised by itself. */
  function Documents(streams: seq<Stream>): seq<Output> {
    seq(|streams|, i requires 0 <= i < |streams| => Document(Rendered(streams[i])))
  }

  function InTurn(outputs: seq<Output>): Output {
    if outputs == [] then Output([], true)
    else Then(InTurn(outputs[..|outputs| - 1]), outputs[|outputs| - 1])
  }

  function Bytes(outputs: seq<Output>): seq<byte> {
    if outputs == [] then [] else Bytes(outputs[..|outputs| - 1]) + outputs[|outputs| - 1].bytes
  }

  lemma {:induction false} DocumentsInTurn(streams: seq<Stream>)
    ensures AllRendered(streams) == InTurn(Documents(streams))
  {
    if streams != [] {
      var last := |streams| - 1;
      DocumentsInTurn(streams[..last]);
      assert Documents(streams)[..last] == Documents(streams[..last]);
    }
  }

  lemma {:induction false} UpToAFailure(outputs: seq<Output>, m: nat) returns (n: nat)
    requires m <= |outputs|
    ensures n <= m && InTurn(outputs[..m]).bytes == Bytes(outputs[..n])
    ensures forall i :: 0 <= i < n - 1 ==> outputs[i].complete
    ensures if InTurn(outputs[..m]).complete then n == m && (n > 0 ==> outputs[n - 1].complete)
            else n > 0 && !outputs[n - 1].complete
  {
    n := 0;
    if m > 0 {
      n := UpToAFailure(outputs, m - 1);
      assert outputs[..m][..m - 1] == outputs[..m - 1];
      if InTurn(outputs[..m - 1]).complete {
        n := m;
      }
    }
  }

  /** The streams are tried in order up to the first that fails, and the output is what each of them wrote, normalised
      by itself; it is complete if and only if none of them fails. */
  lemma {:induction false} TriedInOrder(streams: seq<Stream>) returns (n: nat)
    ensures n <= |streams| && AllRendered(streams).bytes == Bytes(Documents(streams)[..n])
    ensures forall i :: 0 <= i < n - 1 ==> Rendered(streams[i]).complete
    ensures if AllRendered(streams).complete then n == |streams| && (n > 0 ==> Rendered(streams[n - 1]).complete)
            else n > 0 && !Rendered(streams[n - 1]).complete
  {
    var outputs := Documents(streams);
    DocumentsInTurn(streams);
    n := UpToAFailure(outputs, |outputs|);
    assert outputs[..|outputs|] == outputs;
    forall i | 0 <= i < |streams|
      ensures outputs[i].complete == Rendered(streams[i]).complete
    {
    }
  }

  /** Nothing, or a document behind a separator. */
  ghost predicate IsNormal(bytes: seq<byte>) {
    bytes != [] ==> Kept(bytes) != [] && bytes == SEPARATOR + Kept(bytes)
  }

  lemma {:induction false} NormalTogether(before: seq<byte>, bytes: seq<byte>)
    requires IsNormal(before)
    ensures IsNormal(before + Normalised(bytes))
  {
    if before == [] {
      Idempotent(bytes);
      assert before + Normalised(bytes) == Normalised(bytes);
    } else {
      KeepsADocument(Kept(before) + Normalised(bytes));
      assert before + Normalised(bytes) == SEPARATOR + (Kept(before) + Normalised(bytes));
    }
  }

  /** What several streams wrote is in normal form already. */
  lemma {:induction false} ConcatIsNormal(streams: seq<Stream>)
    ensures IsNormal(AllRendered(streams).bytes)
    ensures Normalised(AllRendered(streams).bytes) == AllRendered(streams).bytes
  {
    if streams != [] {
      var last := |streams| - 1;
      ConcatIsNormal(streams[..last]);
      NormalTogether(AllRendered(streams[..last]).bytes, Rendered(streams[last]).bytes);
    }
  }

  /** Putting streams together in groups makes no difference. */
  lemma {:induction false} ConcatIsFlat(streams: seq<Stream>)
    ensures AllRendered(streams) == AllRendered(AllLeaves(streams))
    decreases streams
  {
    if streams != [] {
      var last := |streams| - 1;
      ConcatIsFlat(streams[..last]);
      RenderedInTurn(AllLeaves(streams[..last]), Leaves(streams[last]));
      match streams[last]
      case Text(_, _) =>
        RenderedInTurn([], Leaves(streams[last]));
        assert AllRendered([streams[last]]) == Then(AllRendered([]), Document(Rendered(streams[last])));
      case Concat(inner) =>
        ConcatIsFlat(inner);
        ConcatIsNormal(inner);
    }
  }

  /** Writes a stream, whatever the target. */
  method Render(stream: Stream, target: Target) returns (complete: bool)
    requires Ready(target)
    modifies Objects(target)
    ensures Ready(target) &&
            Output(Received(target), complete) == Then(Output(old(Received(target)), true), Rendered(stream))
    decreases stream, 0
  {
    match stream
    case Text(pieces, fails) =>
      WritePieces(pieces, target);
      complete := !fails;
    case Concat(streams) =>
      complete := YamlConcat(streams, target);
  }

  method WritePieces(pieces: seq<seq<byte>>, target: Target)
    requires Ready(target)
    modifies Objects(target)
    ensures Ready(target) && Received(target) == old(Received(target)) + Joined(pieces)
  {
    ghost var before := Received(target);
    for i := 0 to |pieces|
      invariant Ready(target) && Received(target) == before + Joined(pieces[..i])
    {
      var _ := WriteTo(target, pieces[i]);
      OnePieceMore(before, pieces, i);
    }
    assert pieces[..|pieces|] == pieces;
  }

  method YamlConcat(streams: seq<Stream>, target: Target) returns (complete: bool)
    requires Ready(target)
    modifies Objects(target)
    ensures Ready(target) &&
            Output(Received(target), complete) == Then(Output(old(Received(target)), true), AllRendered(streams))
    decreases streams, 1
  {
    ghost var before := Output(Received(target), true);
    for i := 0 to |streams|
      invariant Ready(target) && Output(Received(target), true) == Then(before, AllRendered(streams[..i]))
    {
      complete := RenderNormalised(streams[i], target);
      OneMoreStream(before, streams, i);
      if !complete {
        return;
      }
    }
    assert streams[..|streams|] == streams;
    complete := true;
  }

  lemma {:induction false} OneMoreStream(before: Output, streams: seq<Stream>, i: nat)
    requires i < |streams| && before.complete
    ensures var now := Then(Then(before, AllRendered(streams[..i])), Document(Rendered(streams[i])));
            now == Then(before, AllRendered(streams[..i + 1])) &&
            (!now.complete ==> now == Then(before, AllRendered(streams)))
  {
    assert streams[..i + 1][..i] == streams[..i] && streams[..i + 1] + streams[i + 1..] == streams;
    ThenIsAssociative(before, AllRendered(streams[..i]), Document(Rendered(streams[i])));
    RenderedInTurn(streams[..i + 1], streams[i + 1..]);
  }

  /** Writes one stream through a writer of its own. */
  method RenderNormalised(stream: Stream, target: Target) returns (complete: bool)
    requires Ready(target)
    modifies Objects(target)
    ensures Ready(target)
    ensures Output(Received(target), complete) == Then(Output(old(Received(target)), true), Document(Rendered(stream)))
    decreases stream, 1
  {
    var writer := new YamlWriter(target);
    complete := Render(stream, Normalising(writer));
    assert writer.fed == [] + Rendered(stream).bytes == Rendered(stream).bytes;
  }
}
