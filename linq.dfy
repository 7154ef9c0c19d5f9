/** The two LINQ operators the pipeline is composed with, over finite sequences. */
module Linq {

  /** `Enumerable.Reverse`. */
  function Reverse<T>(source: seq<T>): (r: seq<T>)
    ensures |r| == |source|
    ensures forall i :: 0 <= i < |source| ==> r[i] == source[|source| - 1 - i]
  {
    if source == [] then [] else Reverse(source[1..]) + [source[0]]
  }

  /** `Enumerable.Aggregate(seed, func)`: a left fold, `func` applied to the
      accumulator and each element in turn, first element first. */
  function Aggregate<T, A>(source: seq<T>, seed: A, func: (A, T) -> A): (r: A)
    ensures source == [] ==> r == seed
    ensures source != [] ==> r == func(Aggregate(source[..|source| - 1], seed, func), source[|source| - 1])
    decreases |source|
  {
    if source == [] then seed
    else
      assert |source| > 1 ==> source[..|source| - 1][1..] == source[1..][..|source| - 2];
      Aggregate(source[1..], func(seed, source[0]), func)
  }

  /** Folding one more element at the end applies `func` once more, outermost. */
  lemma {:induction false} AggregateSnoc<T, A>(source: seq<T>, x: T, seed: A, func: (A, T) -> A)
    ensures Aggregate(source + [x], seed, func) == func(Aggregate(source, seed, func), x)
  {
    if source == [] {
      assert source + [x] == [x];
      assert [x][1..] == [];
    } else {
      assert (source + [x])[1..] == source[1..] + [x];
      AggregateSnoc(source[1..], x, func(seed, source[0]), func);
    }
  }
}
