/** Facts about sequences that the loops use at every step. */
module Sequences {

  lemma {:induction false} AppendNext<T>(seen: seq<T>, more: seq<T>, i: nat)
    requires i < |more|
    ensures seen + more[..i + 1] == seen + more[..i] + [more[i]]
    ensures more[..i + 1] == more[..i] + [more[i]]
  {
  }

  lemma {:induction false} AppendNothing<T>(seen: seq<T>, more: seq<T>)
    ensures seen + more[..0] == seen
    ensures seen + more[..|more|] == seen + more
    ensures more[..|more|] == more
  {
  }
}
