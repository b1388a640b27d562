/** The tolerance under which the services take two naira amounts for the same. */
module Money {

  predicate Within(actual: real, expected: real) {
    -0.01 < actual - expected < 0.01
  }

  /** On amounts of whole kobo the tolerance is equality. */
  lemma WithinMeansSameKobo(a: int, b: int)
    ensures Within(a as real / 100.0, b as real / 100.0) <==> a == b
  {
    var d := (a - b) as real;
    assert a as real / 100.0 - b as real / 100.0 == d / 100.0;
  }
}
