/** Real numbers: their order, and the larger and smaller of two. */
module Reals {
  import opened Ordering

  predicate RealLess(a: real, b: real) {
    a < b
  }

  lemma RealOrder()
    ensures StrictTotal(RealLess) && StrictWeak(RealLess)
  {
  }

  function Max(a: real, b: real): real {
    if a < b then b else a
  }

  function Min(a: real, b: real): real {
    if b < a then b else a
  }
}
