/** Sequences used as duplicate-free lists (JavaScript arrays guarded by `includes`, and `Set`s). */
module Seqs {

  /** No element occurs twice. */
  predicate NoDup<T(==)>(xs: seq<T>) {
    forall i, j | 0 <= i < j < |xs| :: xs[i] != xs[j]
  }

  /** `if (!xs.includes(x)) xs.push(x)`, and also `Set.prototype.add`, which keeps insertion order. */
  function AddIfAbsent<T(==)>(xs: seq<T>, x: T): (r: seq<T>)
    ensures x in r
    ensures x in xs ==> r == xs
    ensures x !in xs ==> r == xs + [x]
  {
    if x in xs then xs else xs + [x]
  }

  lemma AddIfAbsentKeepsNoDup<T>(xs: seq<T>, x: T)
    requires NoDup(xs)
    ensures NoDup(AddIfAbsent(xs, x))
  {
  }

  lemma AddIfAbsentIdempotent<T>(xs: seq<T>, x: T)
    ensures AddIfAbsent(AddIfAbsent(xs, x), x) == AddIfAbsent(xs, x)
  {
  }
}
