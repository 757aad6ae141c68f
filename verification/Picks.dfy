/** Lists picked from a list, in order. */
module Picks {

  /** `out` holds the elements of `xs` at the places `at`, each place once, in order. */
  ghost predicate PickedAt<T>(xs: seq<T>, out: seq<T>, at: seq<nat>) {
    && |out| == |at|
    && (forall i, j :: 0 <= i < j < |at| ==> at[i] < at[j])
    && forall i :: 0 <= i < |at| ==> at[i] < |xs| && out[i] == xs[at[i]]
  }

  lemma PickNext<T>(xs: seq<T>, out: seq<T>, at: seq<nat>, n: nat)
    requires n < |xs| && PickedAt(xs[..n], out, at)
    ensures PickedAt(xs, out, at) && PickedAt(xs, out + [xs[n]], at + [n])
  {
  }
}
