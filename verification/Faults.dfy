/** How the calls of a run end: each one as a script says, and the process dies at the call after the last. */
module Faults {
  /** `Lost`: the call took effect, but the caller saw an error. */
  datatype Outcome = Done | Failed | Lost

  /** What the caller is left with. `Crash`: the process died at this call. */
  datatype Reply = Ok | Err | Crash

  predicate AllDone(script: seq<Outcome>) {
    forall i :: 0 <= i < |script| ==> script[i] == Done
  }

  /** The first n calls end as they should. */
  predicate Completes(script: seq<Outcome>, n: nat) {
    n <= |script| && forall i :: 0 <= i < n ==> script[i] == Done
  }

  /** The script ends before n calls are made, and none of them fails. */
  predicate Dies(script: seq<Outcome>, n: nat) {
    |script| < n && AllDone(script)
  }

  /** The calls made by a method that found the script `before` and left `after`; on a crash that
      is one call more than the script had to offer. */
  function Made(before: seq<Outcome>, after: seq<Outcome>, r: Reply): int {
    if r == Crash then |before| + 1 else |before| - |after|
  }

  /** How many of these calls did not end as they should. */
  function Faulty(past: seq<Outcome>): nat {
    if past == [] then 0
    else
      var last := |past| - 1;
      Faulty(past[..last]) + if past[last] == Done then 0 else 1
  }

  lemma {:induction false} NoneFaulty(past: seq<Outcome>)
    requires AllDone(past)
    ensures Faulty(past) == 0
  {
    if past != [] {
      NoneFaulty(past[..|past| - 1]);
    }
  }

  /** A run whose first n calls end well meets no fault in them. */
  lemma {:induction false} NoFaultsYet(script: seq<Outcome>, past: seq<Outcome>, rest: seq<Outcome>, n: nat)
    requires past + rest == script && (AllDone(script) || (Completes(script, n) && |past| <= n))
    ensures Faulty(past) == 0
  {
    forall i | 0 <= i < |past|
      ensures past[i] == Done
    {
      assert past[i] == (past + rest)[i] == script[i];
      assert i < n <= |script| ==> script[..n][i] == script[i];
    }
    NoneFaulty(past);
  }
}
