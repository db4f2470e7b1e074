/** Weighted totals over a sequence of task records.

    The client's pools count the tasks that are in certain phases with shared atomic
    counters; a tally is the value such a counter ought to have. */
module Tally {

  /** The sum of `weight` over `xs`. */
  ghost function Total<T(!new)>(xs: seq<T>, weight: T -> nat): nat {
    if xs == [] then 0 else Total(xs[..|xs| - 1], weight) + weight(xs[|xs| - 1])
  }

  lemma TotalAppend<T(!new)>(xs: seq<T>, x: T, weight: T -> nat)
    ensures Total(xs + [x], weight) == Total(xs, weight) + weight(x)
  {
  }

  /** Changing one record moves the total by the difference of its two weights. */
  lemma {:induction false} TotalUpdate<T(!new)>(xs: seq<T>, i: nat, x: T, weight: T -> nat)
    requires i < |xs|
    ensures Total(xs[i := x], weight) + weight(xs[i]) == Total(xs, weight) + weight(x)
  {
    var n := |xs| - 1;
    if i < n {
      assert xs[i := x][..n] == xs[..n][i := x];
      TotalUpdate(xs[..n], i, x, weight);
    } else {
      assert xs[i := x][..n] == xs[..n];
    }
  }

  /** A positive total has a record that contributes to it. */
  lemma {:induction false} TotalWitness<T(!new)>(xs: seq<T>, weight: T -> nat) returns (i: nat)
    requires Total(xs, weight) > 0
    ensures i < |xs| && weight(xs[i]) > 0
  {
    var n := |xs| - 1;
    if weight(xs[n]) > 0 {
      i := n;
    } else {
      i := TotalWitness(xs[..n], weight);
    }
  }
}
