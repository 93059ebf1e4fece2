/** Knuth's Poisson sampler, on an arbitrary stream of draws. */
module Poisson {

  /** The product of the first k draws. */
  function Product(u: nat -> real, k: nat): real {
    if k == 0 then 1.0 else Product(u, k - 1) * u(k - 1)
  }

  /** Draws as `Float64` delivers them: at least zero, below one. */
  ghost predicate Uniform(u: nat -> real) {
    forall i: nat :: 0.0 <= u(i) < 1.0
  }

  /** An exponential: all that matters is that it is positive and grows. */
  ghost predicate Exponential(exp: real -> real) {
    (forall x :: exp(x) > 0.0) && exp(0.0) == 1.0 && (forall x, y :: x <= y ==> exp(x) <= exp(y))
  }

  lemma {:induction false} ProductShrinks(u: nat -> real, j: nat, k: nat)
    requires Uniform(u) && j <= k
    ensures 0.0 <= Product(u, k) <= Product(u, j)
    decreases k
  {
    if k > 0 {
      var before := Product(u, k - 1);
      ProductShrinks(u, if k > j then j else k - 1, k - 1);
      Shrink(before, u(k - 1));
      assert Product(u, k) == before * u(k - 1);
    }
  }

  lemma Shrink(p: real, u: real)
    requires p >= 0.0 && 0.0 <= u < 1.0
    ensures 0.0 <= p * u <= p
  {
    assert p * (1.0 - u) >= 0.0;
  }

  /** k is the number of draws whose product stays above l, as the sampler counts. */
  ghost predicate StaysAbove(u: nat -> real, l: real, k: nat) {
    && (forall j: nat :: 1 <= j <= k ==> Product(u, j) > l)
    && (forall j: nat :: j > k ==> Product(u, j) <= l)
  }

  /**
   * The sampler. The source loops until the product is small enough; `stop` is a
   * number of draws after which it is.
   */
  method SamplePoisson(u: nat -> real, exp: real -> real, lambda: real, ghost stop: nat) returns (sample: nat)
    requires Uniform(u) && Exponential(exp)
    requires stop >= 1 && (lambda > 0.0 ==> Product(u, stop) <= exp(-lambda))
    ensures lambda <= 0.0 ==> sample == 0
    ensures lambda > 0.0 ==> StaysAbove(u, exp(-lambda), sample)
  {
    if lambda <= 0.0 {
      return 0;
    }
    var l := exp(-lambda);
    var k, p := 0, 1.0;
    while true
      invariant k < stop && p == Product(u, k)
      invariant forall j: nat :: 1 <= j <= k ==> Product(u, j) > l
      decreases stop - k
    {
      k := k + 1;
      p := p * u(k - 1);
      if p <= l {
        forall j: nat | j > k - 1 ensures Product(u, j) <= l { ProductShrinks(u, k, j); }
        return k - 1;
      }
    }
  }

  /** The sample is the largest count whose product is above the bound, unless no
      product is, not even the empty one. */
  lemma SampleIsLargest(u: nat -> real, l: real, k: nat)
    requires StaysAbove(u, l, k) && l < 1.0
    ensures Product(u, k) > l && forall j: nat :: Product(u, j) > l ==> j <= k
  {}

  lemma SampleIsUnique(u: nat -> real, l: real, k: nat, k': nat)
    requires StaysAbove(u, l, k) && StaysAbove(u, l, k')
    ensures k == k'
  {
    var p, p' := Product(u, k), Product(u, k');
    assert k > k' ==> p <= l;
    assert k' > k ==> p' <= l;
  }

  /** On the same stream a larger mean never gives a smaller sample. */
  lemma SampleGrowsWithMean(u: nat -> real, exp: real -> real, lambda: real, mu: real, k: nat, m: nat)
    requires Exponential(exp) && 0.0 < lambda <= mu
    requires StaysAbove(u, exp(-lambda), k) && StaysAbove(u, exp(-mu), m)
    ensures k <= m
  {
    assert exp(-mu) <= exp(-lambda);
    assert k > m ==> Product(u, k) <= exp(-mu);
  }

  /** The smallest samples, on the first draws: none if the first one is small enough,
      one if it is not but its product with the second is. */
  lemma SmallSamples(u: nat -> real, l: real, k: nat)
    requires Uniform(u) && StaysAbove(u, l, k)
    ensures k == 0 <==> u(0) <= l
    ensures k == 1 <==> u(0) > l && u(0) * u(1) <= l
  {
    assert Product(u, 1) == Product(u, 0) * u(0) == u(0);
    assert Product(u, 2) == u(0) * u(1);
  }

}
