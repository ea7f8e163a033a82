/** Graham's bound for greedy longest-processing-time scheduling, over bare weights.

    An assignment `a` sends file `i` to bin `a[i]`. The counting argument reuses `Load` with a
    second set of values in place of the weights: each file counts 1, or 2 when it is too heavy to
    share a bin of the optimum with any file seen so far. */
module LptBound {

  /** What bin `b` carries when `a` places `vals`. */
  function Load(vals: seq<real>, a: seq<nat>, b: nat): real
    requires |a| == |vals|
  {
    if vals == [] then 0.0
    else
      var n := |vals| - 1;
      Load(vals[..n], a[..n], b) + if a[n] == b then vals[n] else 0.0
  }

  function Total(vals: seq<real>): real {
    if vals == [] then 0.0 else Total(vals[..|vals| - 1]) + vals[|vals| - 1]
  }

  ghost predicate Nonnegative(ws: seq<real>) {
    forall i :: 0 <= i < |ws| ==> ws[i] >= 0.0
  }

  ghost predicate Descending(ws: seq<real>) {
    forall i, j :: 0 <= i < j < |ws| ==> ws[i] >= ws[j]
  }

  ghost predicate Assignment(a: seq<nat>, n: nat, m: nat) {
    |a| == n && forall i :: 0 <= i < n ==> a[i] < m
  }

  /** `c` is the first of the `m` bins that carries least. */
  ghost predicate LeastLoaded(vals: seq<real>, a: seq<nat>, m: nat, c: nat)
    requires |a| == |vals|
  {
    && c < m
    && (forall b: nat :: b < m ==> Load(vals, a, c) <= Load(vals, a, b))
    && (forall b: nat :: b < c ==> Load(vals, a, c) < Load(vals, a, b))
  }

  /** Each file went to the first least loaded bin of its moment. */
  ghost predicate IsGreedy(ws: seq<real>, a: seq<nat>, m: nat) {
    && |a| == |ws|
    && forall i :: 0 <= i < |ws| ==> LeastLoaded(ws[..i], a[..i], m, a[i])
  }

  lemma GreedyPrefix(ws: seq<real>, a: seq<nat>, m: nat, k: nat)
    requires IsGreedy(ws, a, m) && k <= |ws|
    ensures IsGreedy(ws[..k], a[..k], m) && Assignment(a, |ws|, m)
  {
    forall i | 0 <= i < k ensures LeastLoaded(ws[..k][..i], a[..k][..i], m, a[..k][i]) {
      assert LeastLoaded(ws[..i], a[..i], m, a[i]);
      assert ws[..k][..i] == ws[..i] && a[..k][..i] == a[..i];
    }
    forall i | 0 <= i < |ws| ensures a[i] < m {
      assert LeastLoaded(ws[..i], a[..i], m, a[i]);
    }
  }

  // ---- sums over bins ---------------------------------------------------------------------------

  /** The loads of bins `0 .. m`, added up. */
  function SumLoads(vals: seq<real>, a: seq<nat>, m: nat): real
    requires |a| == |vals|
  {
    if m == 0 then 0.0 else SumLoads(vals, a, m - 1) + Load(vals, a, m - 1)
  }

  lemma {:induction false} SumLoadsStep(vals: seq<real>, a: seq<nat>, m: nat)
    requires |a| == |vals| > 0
    ensures var n := |vals| - 1;
            SumLoads(vals, a, m) == SumLoads(vals[..n], a[..n], m) + if a[n] < m then vals[n] else 0.0
  {
    if m > 0 { SumLoadsStep(vals, a, m - 1); }
  }

  lemma {:induction false} SumLoadsEmpty(m: nat)
    ensures SumLoads([], [], m) == 0.0
  {
    if m > 0 { SumLoadsEmpty(m - 1); }
  }

  /** Nothing is lost: the bins together carry every file. */
  lemma {:induction false} SumLoadsIsTotal(vals: seq<real>, a: seq<nat>, m: nat)
    requires Assignment(a, |vals|, m)
    ensures SumLoads(vals, a, m) == Total(vals)
  {
    if vals == [] {
      SumLoadsEmpty(m);
    } else {
      SumLoadsStep(vals, a, m);
      SumLoadsIsTotal(vals[..|vals| - 1], a[..|vals| - 1], m);
    }
  }

  /** `k` copies of `x`, added up. */
  function Times(k: nat, x: real): real {
    if k == 0 then 0.0 else Times(k - 1, x) + x
  }

  lemma {:induction false} TimesAdds(k: nat, x: real, y: real)
    ensures Times(k, x + y) == Times(k, x) + Times(k, y)
  {
    if k > 0 { TimesAdds(k - 1, x, y); }
  }

  lemma {:induction false} TimesMonotone(k: nat, x: real, y: real)
    requires x <= y
    ensures Times(k, x) <= Times(k, y)
  {
    if k > 0 { TimesMonotone(k - 1, x, y); }
  }

  lemma {:induction false} TimesZero(k: nat)
    ensures Times(k, 0.0) == 0.0
  {
    if k > 0 { TimesZero(k - 1); }
  }

  lemma {:induction false} SumLoadsAtMost(vals: seq<real>, a: seq<nat>, m: nat, bound: real)
    requires |a| == |vals|
    requires forall b: nat :: b < m ==> Load(vals, a, b) <= bound
    ensures SumLoads(vals, a, m) <= Times(m, bound)
  {
    if m > 0 { SumLoadsAtMost(vals, a, m - 1, bound); }
  }

  lemma {:induction false} SumLoadsAtLeast(vals: seq<real>, a: seq<nat>, m: nat, bound: real)
    requires |a| == |vals|
    requires forall b: nat :: b < m ==> Load(vals, a, b) >= bound
    ensures SumLoads(vals, a, m) >= Times(m, bound)
  {
    if m > 0 { SumLoadsAtLeast(vals, a, m - 1, bound); }
  }

  lemma {:induction false} LoadGrows(vals: seq<real>, a: seq<nat>, b: nat, k: nat)
    requires |a| == |vals| && Nonnegative(vals) && k <= |vals|
    ensures 0.0 <= Load(vals[..k], a[..k], b) <= Load(vals, a, b)
    decreases |vals|
  {
    var n := |vals| - 1;
    if k < |vals| {
      LoadGrows(vals[..n], a[..n], b, k);
      assert vals[..n][..k] == vals[..k] && a[..n][..k] == a[..k];
    } else {
      assert vals[..k] == vals && a[..k] == a;
      if vals != [] {
        LoadGrows(vals[..n], a[..n], b, n);
        assert vals[..n][..n] == vals[..n] && a[..n][..n] == a[..n];
      }
    }
  }

  lemma {:induction false} TotalGrows(vals: seq<real>, k: nat)
    requires Nonnegative(vals) && k <= |vals|
    ensures Total(vals[..k]) <= Total(vals)
    decreases |vals|
  {
    if k < |vals| {
      TotalGrows(vals[..|vals| - 1], k);
      assert vals[..|vals| - 1][..k] == vals[..k];
    } else {
      assert vals[..k] == vals;
    }
  }

  // ---- the last file of a bin -------------------------------------------------------------------

  /** A bin's load is what it carried before its last file `j`, plus that file; or it is empty. */
  lemma {:induction false} LastFile(ws: seq<real>, a: seq<nat>, b: nat) returns (j: int)
    requires |a| == |ws|
    ensures -1 <= j < |ws|
    ensures j == -1 ==> Load(ws, a, b) == 0.0
    ensures j >= 0 ==> a[j] == b && Load(ws, a, b) == Load(ws[..j], a[..j], b) + ws[j]
  {
    if ws == [] {
      j := -1;
    } else {
      var n := |ws| - 1;
      if a[n] == b {
        j := n;
      } else {
        j := LastFile(ws[..n], a[..n], b);
        if j >= 0 {
          assert ws[..n][..j] == ws[..j] && a[..n][..j] == a[..j];
        }
      }
    }
  }

  /** The greedy choice for file `j` carries at most the average of what came before it. */
  lemma {:induction false} Averaging(ws: seq<real>, a: seq<nat>, m: nat, j: nat)
    requires IsGreedy(ws, a, m) && j < |ws|
    ensures m > 0 && Times(m, Load(ws[..j], a[..j], a[j])) <= Total(ws[..j])
  {
    assert LeastLoaded(ws[..j], a[..j], m, a[j]);
    GreedyPrefix(ws, a, m, j);
    SumLoadsAtLeast(ws[..j], a[..j], m, Load(ws[..j], a[..j], a[j]));
    SumLoadsIsTotal(ws[..j], a[..j], m);
  }

  /** Any other assignment carries file `j` and everything before it within `m` bins of `peak`. */
  lemma {:induction false} RoomBelowPeak(ws: seq<real>, a: seq<nat>, m: nat, peak: real, j: nat)
    requires Nonnegative(ws) && Assignment(a, |ws|, m) && j < |ws|
    requires forall b: nat :: b < m ==> Load(ws, a, b) <= peak
    ensures Total(ws[..j]) + ws[j] <= Times(m, peak)
    ensures ws[j] <= peak
  {
    SumLoadsIsTotal(ws, a, m);
    SumLoadsAtMost(ws, a, m, peak);
    TotalGrows(ws, j + 1);
    assert ws[..j + 1][..j] == ws[..j];
    LoadGrows(ws, a, a[j], j + 1);
    LoadGrows(ws, a, a[j], j);
    assert a[..j + 1][..j] == a[..j];
    assert Load(ws[..j + 1], a[..j + 1], a[j]) == Load(ws[..j], a[..j], a[j]) + ws[j];
    assert 0.0 <= Load(ws[..j], a[..j], a[j]);
  }

  /** A bin whose last file weighs at most `peak / d`, stays within the averaging bound:
      `d` is 1 always and 3 when the file is that light. */
  lemma LightLastFile(ws: seq<real>, g: seq<nat>, a: seq<nat>, m: nat, peak: real, j: nat)
    requires Nonnegative(ws) && IsGreedy(ws, g, m) && Assignment(a, |ws|, m)
    requires forall c: nat :: c < m ==> Load(ws, a, c) <= peak
    requires j < |ws|
    ensures m > 0
    ensures var load := Load(ws[..j], g[..j], g[j]) + ws[j];
            && Times(m, load) <= Times(m, peak) + Times(m - 1, peak)
            && (3.0 * ws[j] <= peak ==> 3.0 * Times(m, load) <= 3.0 * Times(m, peak) + Times(m - 1, peak))
  {
    Averaging(ws, g, m, j);
    RoomBelowPeak(ws, a, m, peak, j);
    TimesAdds(m, Load(ws[..j], g[..j], g[j]), ws[j]);
    TimesMonotone(m - 1, ws[j], peak);
    if 3.0 * ws[j] <= peak {
      TimesAdds(m - 1, ws[j], ws[j]);
      TimesAdds(m - 1, ws[j], ws[j] + ws[j]);
      TimesMonotone(m - 1, ws[j] + (ws[j] + ws[j]), peak);
    }
  }

  lemma PeakNonnegative(ws: seq<real>, a: seq<nat>, m: nat, peak: real)
    requires Nonnegative(ws) && |a| == |ws| && m > 0
    requires forall c: nat :: c < m ==> Load(ws, a, c) <= peak
    ensures 0.0 <= Times(m, peak) && 0.0 <= Times(m - 1, peak)
  {
    LoadGrows(ws, a, 0, 0);
    TimesZero(m);
    TimesZero(m - 1);
    TimesMonotone(m, 0.0, peak);
    TimesMonotone(m - 1, 0.0, peak);
  }

  /** `(2m - 1) / m` of `peak`: m costs against m and m - 1 peaks. */
  ghost predicate WithinList(m: nat, cost: real, peak: real) {
    m > 0 && Times(m, cost) <= Times(m, peak) + Times(m - 1, peak)
  }

  /** `(4m - 1) / 3m` of `peak`: 3m costs against 3m and m - 1 peaks. */
  ghost predicate WithinGraham(m: nat, cost: real, peak: real) {
    m > 0 && 3.0 * Times(m, cost) <= 3.0 * Times(m, peak) + Times(m - 1, peak)
  }

  /** The bound that needs no sorting: `2 - 1/m` of any other assignment's heaviest bin. */
  lemma {:induction false} ListBound(ws: seq<real>, g: seq<nat>, a: seq<nat>, m: nat, peak: real, b: nat)
    requires Nonnegative(ws) && IsGreedy(ws, g, m) && Assignment(a, |ws|, m) && b < m
    requires forall c: nat :: c < m ==> Load(ws, a, c) <= peak
    ensures WithinList(m, Load(ws, g, b), peak)
  {
    assert Times(m, Load(ws, g, b)) <= Times(m, peak) + Times(m - 1, peak) by {
      var j := LastFile(ws, g, b);
      if j < 0 {
        PeakNonnegative(ws, a, m, peak);
        TimesZero(m);
      } else {
        LightLastFile(ws, g, a, m, peak, j);
      }
    }
  }

  // ---- heavy files: the counting argument -----------------------------------------------------

  /** 2 for a file that cannot share a bin of capacity `peak` with one of weight `t`, else 1. */
  function Slots(ws: seq<real>, t: real, peak: real): (v: seq<real>)
    ensures |v| == |ws|
    ensures forall i :: 0 <= i < |ws| ==> v[i] == if ws[i] + t > peak then 2.0 else 1.0
  {
    seq(|ws|, i requires 0 <= i < |ws| => if ws[i] + t > peak then 2.0 else 1.0)
  }

  /** A bin of the optimum has two slots: a third file, or a heavy one with company, overflows. */
  lemma {:induction false} BinHasTwoSlots(ws: seq<real>, a: seq<nat>, b: nat, t: real, peak: real)
    requires |a| == |ws|
    requires forall i :: 0 <= i < |ws| ==> ws[i] >= t
    requires 0.0 <= t <= peak && 3.0 * t > peak
    requires Load(ws, a, b) <= peak
    ensures var v := Load(Slots(ws, t, peak), a, b);
            || (v == 0.0 && Load(ws, a, b) >= 0.0)
            || (v == 1.0 && Load(ws, a, b) >= t)
            || (v == 2.0 && Load(ws, a, b) + t > peak)
    decreases |ws|
  {
    if ws != [] {
      var n := |ws| - 1;
      assert Slots(ws, t, peak)[..n] == Slots(ws[..n], t, peak);
      BinHasTwoSlots(ws[..n], a[..n], b, t, peak);
    }
  }

  /** A bin of the greedy schedule that is already above `peak - t` has filled both its slots. */
  lemma {:induction false} FullBinFillsSlots(ws: seq<real>, a: seq<nat>, b: nat, t: real, peak: real)
    requires |a| == |ws| && t <= peak
    ensures var v := Load(Slots(ws, t, peak), a, b);
            || (v == 0.0 && Load(ws, a, b) == 0.0)
            || (v == 1.0 && Load(ws, a, b) + t <= peak)
            || v >= 2.0
    decreases |ws|
  {
    if ws != [] {
      var n := |ws| - 1;
      assert Slots(ws, t, peak)[..n] == Slots(ws[..n], t, peak);
      FullBinFillsSlots(ws[..n], a[..n], b, t, peak);
    }
  }

  /** The optimum holds everything up to file `j` in two slots a bin. */
  lemma {:induction false} OptimumSlots(ws: seq<real>, a: seq<nat>, m: nat, peak: real, j: nat)
    requires Nonnegative(ws) && Descending(ws) && Assignment(a, |ws|, m)
    requires forall c: nat :: c < m ==> Load(ws, a, c) <= peak
    requires j < |ws| && 3.0 * ws[j] > peak
    ensures Total(Slots(ws[..j], ws[j], peak)) + 1.0 <= Times(m, 2.0)
  {
    RoomBelowPeak(ws, a, m, peak, j);
    var slots := Slots(ws[..j + 1], ws[j], peak);
    forall b: nat {:trigger Load(slots, a[..j + 1], b)} | b < m ensures Load(slots, a[..j + 1], b) <= 2.0 {
      LoadGrows(ws, a, b, j + 1);
      BinHasTwoSlots(ws[..j + 1], a[..j + 1], b, ws[j], peak);
    }
    SumLoadsAtMost(slots, a[..j + 1], m, 2.0);
    SumLoadsIsTotal(slots, a[..j + 1], m);
    assert slots[..j] == Slots(ws[..j], ws[j], peak);
  }

  /** A greedy bin that file `j` would push past `peak` means every bin has filled two slots. */
  lemma {:induction false} GreedySlots(ws: seq<real>, g: seq<nat>, m: nat, peak: real, j: nat)
    requires IsGreedy(ws, g, m)
    requires j < |ws| && ws[j] <= peak && Load(ws[..j], g[..j], g[j]) + ws[j] > peak
    ensures Total(Slots(ws[..j], ws[j], peak)) >= Times(m, 2.0)
  {
    var slots := Slots(ws[..j], ws[j], peak);
    assert LeastLoaded(ws[..j], g[..j], m, g[j]);
    GreedyPrefix(ws, g, m, j);
    forall b: nat {:trigger Load(slots, g[..j], b)} | b < m ensures Load(slots, g[..j], b) >= 2.0 {
      assert Load(ws[..j], g[..j], g[j]) <= Load(ws[..j], g[..j], b);
      FullBinFillsSlots(ws[..j], g[..j], b, ws[j], peak);
    }
    SumLoadsAtLeast(slots, g[..j], m, 2.0);
    SumLoadsIsTotal(slots, g[..j], m);
  }

  /** When the file that finishes a greedy bin weighs more than a third of the optimum, that bin
      does not exceed the optimum at all. */
  lemma {:induction false} HeavyLastFile(ws: seq<real>, g: seq<nat>, a: seq<nat>, m: nat, peak: real, j: nat)
    requires Nonnegative(ws) && Descending(ws) && IsGreedy(ws, g, m) && Assignment(a, |ws|, m)
    requires forall c: nat :: c < m ==> Load(ws, a, c) <= peak
    requires j < |ws| && 3.0 * ws[j] > peak
    ensures Load(ws[..j], g[..j], g[j]) + ws[j] <= peak
  {
    RoomBelowPeak(ws, a, m, peak, j);
    if Load(ws[..j], g[..j], g[j]) + ws[j] > peak {
      OptimumSlots(ws, a, m, peak, j);
      GreedySlots(ws, g, m, peak, j);
      assert false;
    }
  }

  /** Graham: greedy on descending weights is within `4/3 - 1/(3m)` of every other assignment. */
  lemma {:induction false} GrahamBound(ws: seq<real>, g: seq<nat>, a: seq<nat>, m: nat, peak: real, b: nat)
    requires Nonnegative(ws) && Descending(ws) && IsGreedy(ws, g, m) && Assignment(a, |ws|, m) && b < m
    requires forall c: nat :: c < m ==> Load(ws, a, c) <= peak
    ensures WithinGraham(m, Load(ws, g, b), peak)
  {
    assert 3.0 * Times(m, Load(ws, g, b)) <= 3.0 * Times(m, peak) + Times(m - 1, peak) by {
      var j := LastFile(ws, g, b);
      PeakNonnegative(ws, a, m, peak);
      TimesZero(m);
      if j >= 0 {
        if 3.0 * ws[j] > peak {
          HeavyLastFile(ws, g, a, m, peak, j);
          TimesMonotone(m, Load(ws, g, b), peak);
        } else {
          LightLastFile(ws, g, a, m, peak, j);
        }
      }
    }
  }

  // ---- the bound is reached, whatever the number of bins ---------------------------------------------

  /** 2m - 1, 2m - 1, 2m - 2, 2m - 2, ..., m, m and one more m. */
  function TightWeight(m: nat, i: nat): real {
    if i < 2 * m then (2 * m - 1 - i / 2) as real else m as real
  }

  function TightWeights(m: nat): (ws: seq<real>)
    ensures |ws| == 2 * m + 1 && forall i :: 0 <= i <= 2 * m ==> ws[i] == TightWeight(m, i)
  {
    seq(2 * m + 1, i requires 0 <= i < 2 * m + 1 => TightWeight(m, i))
  }

  /** Bins of one weight, in pairs from the front, change places. */
  function Swapped(m: nat, b: nat): nat {
    if b % 2 == 1 then b - 1 else if b + 1 < m then b + 1 else b
  }

  /** Greedy opens the bins in order, then goes back over them pair by pair, then takes the first. */
  function TightBin(m: nat, i: nat): nat {
    if i < m then i else if i < 2 * m then Swapped(m, 2 * m - 1 - i) else 0
  }

  function TightGreedy(m: nat): (g: seq<nat>)
    ensures |g| == 2 * m + 1 && forall i :: 0 <= i <= 2 * m ==> g[i] == TightBin(m, i)
  {
    seq(2 * m + 1, i requires 0 <= i < 2 * m + 1 => TightBin(m, i))
  }

  /** The second file of bin `b`. */
  function Second(m: nat, b: nat): nat
    requires b < m
  {
    2 * m - 1 - Swapped(m, b)
  }

  lemma SwapFacts(m: nat, b: nat)
    requires b < m
    ensures Swapped(m, b) < m && Swapped(m, Swapped(m, b)) == b
    ensures TightWeight(m, b) + TightWeight(m, Second(m, b)) == (3 * m - 1) as real
    ensures forall n :: m <= n < 2 * m ==> (TightBin(m, n) == b <==> Second(m, b) == n)
  {
    forall n | m <= n < 2 * m ensures TightBin(m, n) == b <==> Second(m, b) == n {
      var q := 2 * m - 1 - n;
      assert q < m && Swapped(m, Swapped(m, q)) == q;
    }
  }

  function When(c: bool, w: real): real { if c then w else 0.0 }

  /** What bin `b` holds of the first `i` files: its opening file, its second, and the last of all. */
  function Held(m: nat, i: nat, b: nat): real
    requires b < m
  {
    When(b < i, TightWeight(m, b)) + When(Second(m, b) < i, TightWeight(m, Second(m, b)))
    + When(i == 2 * m + 1 && b == 0, m as real)
  }

  lemma HeldStep(m: nat, n: nat, b: nat)
    requires b < m && n <= 2 * m
    ensures Held(m, n + 1, b) == Held(m, n, b) + When(TightBin(m, n) == b, TightWeight(m, n))
  {
    SwapFacts(m, b);
  }

  lemma {:induction false} TightLoad(m: nat, i: nat, b: nat)
    requires b < m && i <= 2 * m + 1
    ensures Load(TightWeights(m)[..i], TightGreedy(m)[..i], b) == Held(m, i, b)
  {
    var ws, g := TightWeights(m), TightGreedy(m);
    if i > 0 {
      TightLoad(m, i - 1, b);
      HeldStep(m, i - 1, b);
      assert ws[..i][..i - 1] == ws[..i - 1] && g[..i][..i - 1] == g[..i - 1];
    } else {
      SwapFacts(m, b);
    }
  }

  /** Before its last file greedy has either closed a bin or only opened it. */
  lemma {:induction false} HalfWay(m: nat, i: nat, b: nat)
    requires b < m <= i <= 2 * m
    ensures Load(TightWeights(m)[..i], TightGreedy(m)[..i], b)
         == if Second(m, b) < i then (3 * m - 1) as real else TightWeight(m, b)
  {
    SwapFacts(m, b);
    TightLoad(m, i, b);
  }

  lemma OpensNext(m: nat, i: nat)
    requires i < m
    ensures LeastLoaded(TightWeights(m)[..i], TightGreedy(m)[..i], m, i)
  {
    forall b: nat | b < m
      ensures Load(TightWeights(m)[..i], TightGreedy(m)[..i], b) == When(b < i, TightWeight(m, b)) {
      SwapFacts(m, b);
      TightLoad(m, i, b);
    }
  }

  /** A bin that is still open weighs no less than the one to be closed next, and more if it is before it. */
  lemma OpenBins(m: nat, c: nat, b: nat)
    requires b < m && c < m && Second(m, b) > Second(m, c)
    ensures TightWeight(m, c) <= TightWeight(m, b) && (b < c ==> TightWeight(m, c) < TightWeight(m, b))
  {
  }

  lemma ClosesNext(m: nat, i: nat)
    requires m <= i < 2 * m
    ensures LeastLoaded(TightWeights(m)[..i], TightGreedy(m)[..i], m, TightBin(m, i))
  {
    var c := TightBin(m, i);
    SwapFacts(m, 2 * m - 1 - i);
    SwapFacts(m, c);
    HalfWay(m, i, c);
    forall b: nat | b < m && b != c
      ensures Load(TightWeights(m)[..i], TightGreedy(m)[..i], c) <= Load(TightWeights(m)[..i], TightGreedy(m)[..i], b)
      ensures b < c ==>
        Load(TightWeights(m)[..i], TightGreedy(m)[..i], c) < Load(TightWeights(m)[..i], TightGreedy(m)[..i], b) {
      HalfWay(m, i, b);
      SwapFacts(m, b);
      if Second(m, b) > i { OpenBins(m, c, b); }
    }
  }

  lemma TakesTheFirst(m: nat)
    requires m > 0
    ensures LeastLoaded(TightWeights(m)[..2 * m], TightGreedy(m)[..2 * m], m, 0)
  {
    forall b: nat | b < m
      ensures Load(TightWeights(m)[..2 * m], TightGreedy(m)[..2 * m], b) == (3 * m - 1) as real {
      SwapFacts(m, b);
      HalfWay(m, 2 * m, b);
    }
  }

  /** A better assignment: the heaviest with the lightest, and three of weight m in the last bin. */
  function BestBin(m: nat, i: nat): (b: nat)
    ensures m > 0 ==> b < m
  {
    if i + 1 < m then i else if i + 2 < 2 * m then 2 * m - 3 - i else if m == 0 then 0 else m - 1
  }

  function TightBest(m: nat): (a: seq<nat>)
    ensures |a| == 2 * m + 1 && forall i :: 0 <= i <= 2 * m ==> a[i] == BestBin(m, i)
  {
    seq(2 * m + 1, i requires 0 <= i < 2 * m + 1 => BestBin(m, i))
  }

  /** What bin `b` of that assignment holds of the first `i` files. */
  function BestHeld(m: nat, i: nat, b: nat): real
    requires b < m
  {
    if b + 1 < m then When(b < i, TightWeight(m, b)) + When(2 * m - 3 - b < i, TightWeight(m, 2 * m - 3 - b))
    else When(2 * m - 2 < i, m as real) + When(2 * m - 1 < i, m as real) + When(2 * m < i, m as real)
  }

  lemma BestStep(m: nat, n: nat, b: nat)
    requires b < m && n <= 2 * m
    ensures BestHeld(m, n + 1, b) == BestHeld(m, n, b) + When(BestBin(m, n) == b, TightWeight(m, n))
  {
  }

  lemma {:induction false} BestLoad(m: nat, i: nat, b: nat)
    requires b < m && i <= 2 * m + 1
    ensures Load(TightWeights(m)[..i], TightBest(m)[..i], b) == BestHeld(m, i, b)
  {
    var ws, a := TightWeights(m), TightBest(m);
    if i > 0 {
      BestLoad(m, i - 1, b);
      BestStep(m, i - 1, b);
      assert ws[..i][..i - 1] == ws[..i - 1] && a[..i][..i - 1] == a[..i - 1];
    }
  }

  lemma {:induction false} BestIsLevel(m: nat, b: nat)
    requires b < m
    ensures Load(TightWeights(m), TightBest(m), b) == (3 * m) as real
  {
    var ws, a := TightWeights(m), TightBest(m);
    BestLoad(m, 2 * m + 1, b);
    assert ws[..2 * m + 1] == ws && a[..2 * m + 1] == a;
    assert BestHeld(m, 2 * m + 1, b) == (3 * m) as real;
  }

  lemma TightIsGreedy(m: nat)
    requires m > 0
    ensures IsGreedy(TightWeights(m), TightGreedy(m), m)
  {
    forall i | 0 <= i < 2 * m + 1
      ensures LeastLoaded(TightWeights(m)[..i], TightGreedy(m)[..i], m, TightBin(m, i)) {
      if i < m {
        OpensNext(m, i);
      } else if i < 2 * m {
        ClosesNext(m, i);
      } else {
        TakesTheFirst(m);
      }
    }
  }

  lemma GreedyTop(m: nat)
    requires m > 0
    ensures Load(TightWeights(m), TightGreedy(m), 0) == (4 * m - 1) as real
  {
    var ws, g := TightWeights(m), TightGreedy(m);
    SwapFacts(m, 0);
    TightLoad(m, 2 * m + 1, 0);
    assert ws[..2 * m + 1] == ws && g[..2 * m + 1] == g;
  }

  /** The constant is the right one for every number of bins: on these weights some assignment loads each
      bin 3m, and greedy loads its first 4m - 1. */
  lemma GrahamBoundIsReached(m: nat)
    requires m > 0
    ensures Nonnegative(TightWeights(m)) && Descending(TightWeights(m))
    ensures IsGreedy(TightWeights(m), TightGreedy(m), m) && Assignment(TightBest(m), 2 * m + 1, m)
    ensures forall b: nat :: b < m ==> Load(TightWeights(m), TightBest(m), b) == (3 * m) as real
    ensures Load(TightWeights(m), TightGreedy(m), 0) == (4 * m - 1) as real
  {
    TightIsGreedy(m);
    GreedyTop(m);
    forall b: nat | b < m ensures Load(TightWeights(m), TightBest(m), b) == (3 * m) as real { BestIsLevel(m, b); }
  }

  // ---- balance, and which bins stay empty -------------------------------------------------------

  /** Two bins differ by no more than the heaviest file. */
  lemma {:induction false} Balanced(ws: seq<real>, g: seq<nat>, m: nat, b: nat, c: nat, heaviest: real)
    requires Nonnegative(ws) && IsGreedy(ws, g, m) && b < m && c < m
    requires 0.0 <= heaviest && forall i :: 0 <= i < |ws| ==> ws[i] <= heaviest
    ensures Load(ws, g, b) <= Load(ws, g, c) + heaviest
  {
    var j := LastFile(ws, g, b);
    if j < 0 {
      LoadGrows(ws, g, c, 0);
    } else {
      assert LeastLoaded(ws[..j], g[..j], m, g[j]);
      LoadGrows(ws, g, c, j);
    }
  }

  ghost predicate Used(g: seq<nat>, b: nat) {
    exists i :: 0 <= i < |g| && g[i] == b
  }

  /** How many files weigh something. */
  function Positive(ws: seq<real>): nat {
    if ws == [] then 0 else Positive(ws[..|ws| - 1]) + if ws[|ws| - 1] > 0.0 then 1 else 0
  }

  lemma {:induction false} PositiveIsPrefix(ws: seq<real>)
    requires Nonnegative(ws) && Descending(ws)
    ensures Positive(ws) <= |ws|
    ensures forall i :: 0 <= i < |ws| ==> (ws[i] > 0.0 <==> i < Positive(ws))
  {
    if ws != [] {
      var front := ws[..|ws| - 1];
      PositiveIsPrefix(front);
      assert forall i :: 0 <= i < |front| ==> front[i] == ws[i] && ws[i] >= ws[|ws| - 1];
    }
  }

  lemma {:induction false} UnusedIsEmpty(ws: seq<real>, g: seq<nat>, b: nat)
    requires |g| == |ws|
    requires forall i :: 0 <= i < |g| && g[i] == b ==> ws[i] == 0.0
    ensures Load(ws, g, b) == 0.0
  {
    if ws != [] { UnusedIsEmpty(ws[..|ws| - 1], g[..|ws| - 1], b); }
  }

  lemma {:induction false} UsedIsPositive(ws: seq<real>, g: seq<nat>, i: nat)
    requires |g| == |ws| && Nonnegative(ws) && i < |ws| && ws[i] > 0.0
    ensures Load(ws, g, g[i]) > 0.0
  {
    LoadGrows(ws, g, g[i], i + 1);
    LoadGrows(ws, g, g[i], i);
    assert ws[..i + 1][..i] == ws[..i] && g[..i + 1][..i] == g[..i];
    assert Load(ws[..i + 1], g[..i + 1], g[i]) == Load(ws[..i], g[..i], g[i]) + ws[i];
  }

  /** Bins are opened in order, and none past `p` once only weightless files are left. */
  lemma {:induction false} OpenedInOrder(ws: seq<real>, g: seq<nat>, m: nat, p: nat, i: nat)
    requires Nonnegative(ws) && IsGreedy(ws, g, m) && i < |ws|
    requires p < m && forall k :: p <= k < |ws| ==> ws[k] == 0.0
    ensures g[i] <= i && g[i] <= p
  {
    forall k | 0 <= k < i ensures g[k] <= k && g[k] <= p {
      OpenedInOrder(ws, g, m, p, k);
    }
    assert LeastLoaded(ws[..i], g[..i], m, g[i]);
    UnusedIsEmpty(ws[..i], g[..i], p);
    LoadGrows(ws[..i], g[..i], g[i], 0);
    if i < p {
      UnusedIsEmpty(ws[..i], g[..i], i);
    }
  }

  /** While each file so far weighs something, each opens the next bin. */
  lemma {:induction false} EachOpensTheNext(ws: seq<real>, g: seq<nat>, m: nat, i: nat)
    requires Nonnegative(ws) && IsGreedy(ws, g, m) && i < |ws| && i < m
    requires forall k :: 0 <= k < i ==> ws[k] > 0.0
    ensures g[i] == i
  {
    forall k | 0 <= k < i ensures g[k] == k && Load(ws[..i], g[..i], k) > 0.0 {
      EachOpensTheNext(ws, g, m, k);
      UsedIsPositive(ws[..i], g[..i], k);
    }
    assert LeastLoaded(ws[..i], g[..i], m, g[i]);
    UnusedIsEmpty(ws[..i], g[..i], i);
    if g[i] > i {
      LoadGrows(ws[..i], g[..i], g[i], 0);
    }
  }

  /** Exactly when no bin stays empty: enough files, all but one bin's worth of them weighing
      something. */
  lemma {:induction false} EveryBinUsed(ws: seq<real>, g: seq<nat>, m: nat)
    requires Nonnegative(ws) && Descending(ws) && IsGreedy(ws, g, m) && m > 0
    ensures (forall b: nat :: b < m ==> Used(g, b)) <==> |ws| >= m && Positive(ws) >= m - 1
  {
    PositiveIsPrefix(ws);
    if |ws| >= m && Positive(ws) >= m - 1 {
      forall b: nat | b < m ensures Used(g, b) {
        EachOpensTheNext(ws, g, m, b);
      }
    } else {
      forall i | 0 <= i < |g| ensures g[i] != m - 1 {
        if Positive(ws) < m - 1 {
          OpenedInOrder(ws, g, m, Positive(ws), i);
        } else {
          OpenedInOrder(ws, g, m, |ws|, i);
        }
      }
      assert !Used(g, m - 1);
    }
  }
}
