/** What the shards are balanced by: the recorded seconds of the test files
    (devtools/quality/shard_tests.py). */
module ShardSeconds {
  import opened Sorting
  import opened LptBound
  import opened Sharding

  /** A cost is the sum over the files: nothing for none, the recorded number for one. */
  lemma {:induction false} CostIsSum(a: seq<string>, b: seq<string>, w: map<string, real>)
    ensures Cost([], w) == 0.0 && Cost(a + b, w) == Cost(a, w) + Cost(b, w)
    ensures forall p :: Cost([p], w) == if p in w then w[p] else 0.0
  {
    if b == [] {
      assert a + b == a;
    } else {
      var n := |b| - 1;
      CostIsSum(a, b[..n], w);
      assert (a + b)[..|a| + n] == a + b[..n];
    }
    forall p ensures Cost([p], w) == if p in w then w[p] else 0.0 { assert [p][..0] == []; }
  }

  /** The entries of `w` that have a measurement. */
  function OnlyMeasured(w: map<string, real>, measured: map<string, real>): map<string, real> {
    map p | p in w && p in measured :: w[p]
  }

  lemma {:induction false} KnownCost(files: seq<string>, measured: map<string, real>, w: map<string, real>)
    ensures Cost(Known(files, measured), w) == Cost(files, OnlyMeasured(w, measured))
  {
    if files != [] {
      var n := |files| - 1;
      KnownCost(files[..n], measured, w);
      var rest := Known(files[..n], measured);
      assert (rest + [files[n]])[..|rest|] == rest;
    }
  }

  lemma Quotient(size: real, seconds: real, bytes: real)
    requires bytes != 0.0
    ensures size * (seconds / bytes) * bytes == size * seconds
  {
    assert (seconds / bytes) * bytes == seconds;
  }

  /** A FILE WEIGHS ITS SECONDS. A measured file weighs what was recorded for it. One that was not is taken
      at the pace of those that were: its weight is to its size as their seconds are to their bytes, and it
      is its size if those bytes come to nothing. */
  lemma {:induction false} WeightOf(files: seq<string>, measured: map<string, real>, sizes: map<string, real>,
                                    p: string)
    requires p in files && p in sizes
    ensures var weight := At(Weights(files, measured, sizes), p);
      var bytes := Cost(files, OnlyMeasured(sizes, measured));
      var seconds := Cost(files, OnlyMeasured(measured, measured));
      && (p in measured ==> weight == measured[p])
      && (p !in measured && bytes != 0.0 ==> weight * bytes == sizes[p] * seconds)
      && (p !in measured && bytes == 0.0 ==> weight == sizes[p])
  {
    KnownCost(files, measured, sizes);
    KnownCost(files, measured, measured);
    var bytes := Cost(Known(files, measured), sizes);
    if bytes != 0.0 { Quotient(sizes[p], Cost(Known(files, measured), measured), bytes); }
  }

  lemma {:induction false} NothingMeasured(files: seq<string>, w: map<string, real>)
    ensures Cost(files, OnlyMeasured(w, map[])) == 0.0
  {
    if files != [] { NothingMeasured(files[..|files| - 1], w); }
  }

  /** With nothing measured every file weighs its size. */
  lemma UnmeasuredWeighSizes(files: seq<string>, sizes: map<string, real>, p: string)
    requires p in files && p in sizes
    ensures At(Weights(files, map[], sizes), p) == sizes[p]
  {
    NothingMeasured(files, sizes);
    WeightOf(files, map[], sizes, p);
  }

  ghost predicate AllMeasured(files: seq<string>, measured: map<string, real>) {
    forall p :: p in files ==> p in measured
  }

  lemma {:induction false} SecondsAreCost(files: seq<string>, part: seq<string>, measured: map<string, real>,
                                          sizes: map<string, real>)
    requires AllMeasured(files, measured) && forall p :: p in part ==> p in files
    ensures Cost(part, Weights(files, measured, sizes)) == Cost(part, measured)
  {
    if part != [] {
      SecondsAreCost(files, part[..|part| - 1], measured, sizes);
      assert part[|part| - 1] in part;
    }
  }

  lemma {:induction false} DealtFrom(files: seq<string>, bins: seq<seq<string>>, c: nat, p: string)
    requires Contents(bins) == multiset(files) && c < |bins| && p in bins[c]
    ensures p in files
  {
    InContents(bins, c, p);
    assert p in multiset(files);
  }

  lemma {:induction false} DealtSeconds(files: seq<string>, bins: seq<seq<string>>, c: nat, measured: map<string, real>,
                                        sizes: map<string, real>)
    requires AllMeasured(files, measured) && Contents(bins) == multiset(files) && c < |bins|
    ensures Cost(bins[c], Weights(files, measured, sizes)) == Cost(bins[c], measured)
  {
    forall p | p in bins[c] ensures p in files { DealtFrom(files, bins, c, p); }
    SecondsAreCost(files, bins[c], measured, sizes);
  }

  /** THE GUARANTEE IN SECONDS. When every file has been measured, the slowest shard takes at most
      4/3 - 1/(3m) times the recorded seconds of the slowest shard of any other deal of the same files. */
  lemma {:induction false} SecondsGuarantee(files: seq<string>, m: nat, measured: map<string, real>,
                                            sizes: map<string, real>, other: seq<seq<string>>, slowest: real, b: nat)
    requires Measurements(measured, sizes) && AllMeasured(files, measured) && b < m
    requires |other| == m && Contents(other) == multiset(files)
    requires forall c :: 0 <= c < m ==> Cost(other[c], measured) <= slowest
    ensures WithinGraham(m, Cost(Shards(files, m, measured, sizes)[b], measured), slowest)
  {
    forall c | 0 <= c < m ensures Cost(other[c], Weights(files, measured, sizes)) <= slowest {
      DealtSeconds(files, other, c, measured, sizes);
    }
    LptGuarantee(files, m, measured, sizes, other, slowest, b);
    ShardsKeepEveryFile(files, m, measured, sizes);
    DealtSeconds(files, Shards(files, m, measured, sizes), b, measured, sizes);
  }

  /** And two shards differ by no more than the seconds of the slowest file. */
  lemma {:induction false} SecondsBalanced(files: seq<string>, m: nat, measured: map<string, real>,
                                           sizes: map<string, real>, longest: real, b: nat, c: nat)
    requires Measurements(measured, sizes) && AllMeasured(files, measured) && b < m && c < m && longest >= 0.0
    requires forall p :: p in files ==> measured[p] <= longest
    ensures var bins := Shards(files, m, measured, sizes);
      Cost(bins[b], measured) <= Cost(bins[c], measured) + longest
  {
    ShardsBalanced(files, m, measured, sizes, longest, b, c);
    ShardsKeepEveryFile(files, m, measured, sizes);
    DealtSeconds(files, Shards(files, m, measured, sizes), b, measured, sizes);
    DealtSeconds(files, Shards(files, m, measured, sizes), c, measured, sizes);
  }

  // ---- files that weigh the same --------------------------------------------------------------------------

  lemma {:induction false} AloneIn(paths: seq<string>, g: seq<nat>, b: nat)
    requires |g| == |paths| && forall i :: 0 <= i < |g| ==> g[i] == i
    ensures Bin(paths, g, b) == if b < |paths| then [paths[b]] else []
  {
    if paths != [] {
      var n := |paths| - 1;
      AloneIn(paths[..n], g[..n], b);
    }
  }

  lemma {:induction false} ByName(files: seq<string>, w: map<string, real>, second: real)
    requires forall p :: p in files ==> At(w, p) == second
    ensures Sorted(files, Before(w)) == Sorted(files, StringLe)
  {
    StringOrder();
    BeforeOrder(w);
    var named := Sorted(files, StringLe);
    SortedIsSorted(files, StringLe);
    forall i, j | 0 <= i < j < |named| ensures Before(w)(named[i], named[j]) {
      assert named[i] in multiset(named) && named[j] in multiset(named);
      assert named[i] in files && named[j] in files && StringLe(named[i], named[j]);
    }
    SortedIsSorted(files, Before(w));
    SortedUnique(named, Sorted(files, Before(w)), Before(w));
  }

  lemma {:induction false} EachAlone(ws: seq<real>, m: nat)
    requires |ws| <= m && m > 0 && forall i :: 0 <= i < |ws| ==> ws[i] > 0.0
    ensures |Greedy(ws, m)| == |ws| && forall i :: 0 <= i < |ws| ==> Greedy(ws, m)[i] == i
  {
    GreedyIsGreedy(ws, m);
    forall i | 0 <= i < |ws| ensures Greedy(ws, m)[i] == i { EachOpensTheNext(ws, Greedy(ws, m), m, i); }
  }

  lemma {:induction false} SortedHolds(files: seq<string>, p: string)
    requires p in Sorted(files, StringLe)
    ensures p in files
  {
    assert p in multiset(Sorted(files, StringLe));
  }

  lemma MeasuredWeight(files: seq<string>, measured: map<string, real>, sizes: map<string, real>, p: string)
    requires p in files && p in measured
    ensures At(Weights(files, measured, sizes), p) == measured[p]
  {
  }

  /** Files of one weight are dealt in the order of their names: with a shard for each, the first name is in
      the first shard and so on. */
  lemma {:induction false} EqualFilesByName(files: seq<string>, m: nat, measured: map<string, real>,
                                            sizes: map<string, real>, seconds: real, b: nat)
    requires |files| <= m && b < m && seconds > 0.0
    requires forall p :: p in files ==> p in measured && measured[p] == seconds
    ensures Shards(files, m, measured, sizes)[b] == if b < |files| then [Sorted(files, StringLe)[b]] else []
  {
    var w := Weights(files, measured, sizes);
    forall p | p in files ensures At(w, p) == seconds { MeasuredWeight(files, measured, sizes, p); }
    ByName(files, w, seconds);
    var named := Sorted(files, StringLe);
    var ws := Weighed(named, w);
    forall i | 0 <= i < |ws| ensures ws[i] > 0.0 { SortedHolds(files, named[i]); }
    EachAlone(ws, m);
    AloneIn(named, Greedy(ws, m), b);
    assert Shards(files, m, measured, sizes)[b] == Sorted(Bin(named, Greedy(ws, m), b), StringLe);
  }
}
