// Small real helpers.
module Numbers {
  function Max(a: real, b: real): real { if a < b then b else a }

  function Min(a: real, b: real): real { if a < b then a else b }

  function Abs(x: real): real { if x < 0.0 then -x else x }

  // What the platform's square root does, rounding aside.
  ghost predicate IsRoot(sqrt: real -> real) {
    forall x :: x >= 0.0 ==> sqrt(x) >= 0.0 && sqrt(x) * sqrt(x) == x
  }

  lemma ProductsGrow(a: real, b: real, c: real)
    requires a < b && c > 0.0
    ensures a * c < b * c
  {
    assert (b - a) * c > 0.0;
  }

  lemma NotNegative(a: real, b: real)
    requires a >= 0.0 && b >= 0.0
    ensures a * b >= 0.0
  {
  }

  // n times an amount, kept whole so that proofs need not multiply.
  function Times(n: nat, each: real): real { n as real * each }

  lemma OneMore(n: nat, each: real)
    requires n > 0
    ensures Times(n, each) == Times(n - 1, each) + each
    ensures Times(0, each) == 0.0
  {
  }

  lemma TimesNotNegative(n: nat, each: real)
    requires each >= 0.0
    ensures Times(n, each) >= 0.0
  {
    NotNegative(n as real, each);
  }

  lemma TimesAdds(n: nat, a: real, b: real)
    ensures Times(n, a + b) == Times(n, a) + Times(n, b)
  {
  }

  // Enough of any steps cover any distance.
  lemma Archimedes(step: real, distance: real) returns (n: nat)
    requires step > 0.0 && distance >= 0.0
    ensures n >= 1 && Times(n, step) >= distance
  {
    var q := distance / step;
    QuotientNotNegative(distance, step);
    n := q.Floor + 1;
    ProductsGrow(q, n as real, step);
  }

  lemma QuotientNotNegative(a: real, b: real)
    requires a >= 0.0 && b > 0.0
    ensures a / b >= 0.0 && (a / b) * b == a
  {
    var q := a / b;
    assert q * b == a;
    if q < 0.0 {
      ProductsGrow(q, 0.0, b);
      assert false;
    }
  }
}
