/** Text that arrives in pieces. */
module Pieces {
  function Joined<T>(pieces: seq<seq<T>>): seq<T> {
    if pieces == [] then [] else Joined(pieces[..|pieces| - 1]) + pieces[|pieces| - 1]
  }

  lemma {:induction false} OnePieceMore<T>(before: seq<T>, pieces: seq<seq<T>>, i: nat)
    requires i < |pieces|
    ensures before + Joined(pieces[..i]) + pieces[i] == before + Joined(pieces[..i + 1])
  {
    assert pieces[..i + 1][..i] == pieces[..i];
  }
}
