/** Graham's bound read as a ratio: copies of a number added up are its product. */
module LptRatio {
  import opened LptBound

  lemma {:induction false} TimesIsProduct(k: nat, x: real)
    ensures Times(k, x) == (k as real) * x
  {
    if k > 0 { TimesIsProduct(k - 1, x); }
  }

  /** What the two bounds say: `2 - 1/m` and `4/3 - 1/(3m)` of the peak. */
  lemma BoundsAreRatios(m: nat, cost: real, peak: real)
    requires m > 0
    ensures WithinList(m, cost, peak) <==> (m as real) * cost <= (2.0 * (m as real) - 1.0) * peak
    ensures WithinGraham(m, cost, peak) <==> 3.0 * (m as real) * cost <= (4.0 * (m as real) - 1.0) * peak
  {
    TimesIsProduct(m, cost);
    TimesIsProduct(m, peak);
    TimesIsProduct(m - 1, peak);
    var mr := m as real;
    assert (m - 1) as real == mr - 1.0;
    assert (2.0 * mr - 1.0) * peak == mr * peak + (mr - 1.0) * peak;
    assert (4.0 * mr - 1.0) * peak == 3.0 * (mr * peak) + (mr - 1.0) * peak;
    assert 3.0 * mr * cost == 3.0 * (mr * cost);
  }

  /** So no factor below `4/3 - 1/(3m)` holds, for any number of bins. */
  lemma NoSmallerFactor(m: nat, factor: real)
    requires m > 0 && 3.0 * (m as real) * factor < 4.0 * (m as real) - 1.0
    ensures var (ws, g, a) := (TightWeights(m), TightGreedy(m), TightBest(m));
      && Nonnegative(ws) && Descending(ws) && IsGreedy(ws, g, m) && Assignment(a, |ws|, m)
      && forall b: nat :: b < m ==> Load(ws, g, 0) > factor * Load(ws, a, b)
  {
    GrahamBoundIsReached(m);
    var peak := (3 * m) as real;
    assert factor * peak == 3.0 * (m as real) * factor;
  }
}
