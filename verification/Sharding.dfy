/** devtools/quality/shard_tests.py: splitting the tracked test files into balanced shards. */
module Sharding {
  import opened Wrappers
  import opened Sorting
  import opened LptBound

  datatype ShardError = NotAShard | NoFiles | MoreShardsThanFiles

  // ---- weights ----------------------------------------------------------------------------------

  function At(w: map<string, real>, path: string): real {
    if path in w then w[path] else 0.0
  }

  /** The seconds, or bytes, that `paths` add up to under `w`. */
  function Cost(paths: seq<string>, w: map<string, real>): real {
    if paths == [] then 0.0 else Cost(paths[..|paths| - 1], w) + At(w, paths[|paths| - 1])
  }

  /** The files that have a measurement. */
  function Known(files: seq<string>, measured: map<string, real>): seq<string> {
    if files == [] then []
    else
      var rest := Known(files[..|files| - 1], measured);
      if files[|files| - 1] in measured then rest + [files[|files| - 1]] else rest
  }

  /** Average seconds a byte, over the measured files; 1 when nothing has been measured. */
  function Rate(files: seq<string>, measured: map<string, real>, sizes: map<string, real>): real {
    var known := Known(files, measured);
    var knownBytes := Cost(known, sizes);
    if knownBytes != 0.0 then Cost(known, measured) / knownBytes else 1.0
  }

  function Weights(files: seq<string>, measured: map<string, real>, sizes: map<string, real>): map<string, real> {
    var rate := Rate(files, measured, sizes);
    map path | path in files :: if path in measured then measured[path] else At(sizes, path) * rate
  }

  lemma {:induction false} CostSplit(paths: seq<string>, w: map<string, real>, k: nat)
    requires k < |paths|
    ensures Cost(paths, w) == Cost(paths[..k] + paths[k + 1..], w) + At(w, paths[k])
  {
    var n := |paths| - 1;
    if k == n {
      assert paths[..k] + paths[k + 1..] == paths[..n];
    } else {
      CostSplit(paths[..n], w, k);
      var cut := paths[..k] + paths[k + 1..];
      assert cut[..n - 1] == paths[..n][..k] + paths[..n][k + 1..];
      assert cut[n - 1] == paths[n];
    }
  }

  lemma CutOne(paths: seq<string>, k: nat)
    requires k < |paths|
    ensures multiset(paths) == multiset(paths[..k] + paths[k + 1..]) + multiset{paths[k]}
  {
    assert paths == paths[..k] + [paths[k]] + paths[k + 1..];
  }

  lemma Cancel(x: multiset<string>, y: multiset<string>, z: multiset<string>)
    requires x + z == y + z
    ensures x == y
  {
    assert (x + z) - z == x && (y + z) - z == y;
  }

  lemma Exchange(x: multiset<string>, y: multiset<string>, out: multiset<string>, into: multiset<string>,
                 rest: multiset<string>)
    requires x + out == y + into
    ensures (x + rest) + out == (y + rest) + into
  {
    assert (x + rest) + out == (x + out) + rest;
    assert (y + rest) + into == (y + into) + rest;
  }

  /** The cost of a collection does not depend on the order it is listed in. */
  lemma {:induction false} CostIgnoresOrder(s: seq<string>, t: seq<string>, w: map<string, real>)
    requires multiset(s) == multiset(t)
    ensures Cost(s, w) == Cost(t, w)
    decreases |s|
  {
    assert |s| == |multiset(s)| == |multiset(t)| == |t|;
    if s != [] {
      var x := s[|s| - 1];
      assert x in multiset(t);
      var k :| 0 <= k < |t| && t[k] == x;
      CostSplit(t, w, k);
      CutOne(t, k);
      assert s == s[..|s| - 1] + [x];
      Cancel(multiset(s[..|s| - 1]), multiset(t[..k] + t[k + 1..]), multiset{x});
      CostIgnoresOrder(s[..|s| - 1], t[..k] + t[k + 1..], w);
    }
  }

  lemma {:induction false} CostNonnegative(paths: seq<string>, w: map<string, real>)
    requires forall p :: p in paths ==> At(w, p) >= 0.0
    ensures Cost(paths, w) >= 0.0
  {
    if paths != [] { CostNonnegative(paths[..|paths| - 1], w); }
  }

  lemma {:induction false} KnownMembers(files: seq<string>, measured: map<string, real>)
    ensures forall p :: multiset(Known(files, measured))[p] == if p in measured then multiset(files)[p] else 0
  {
    if files != [] {
      KnownMembers(files[..|files| - 1], measured);
      assert files == files[..|files| - 1] + [files[|files| - 1]];
    }
  }

  lemma RateIgnoresOrder(files: seq<string>, others: seq<string>, measured: map<string, real>, sizes: map<string, real>)
    requires multiset(files) == multiset(others)
    ensures Rate(files, measured, sizes) == Rate(others, measured, sizes)
  {
    KnownMembers(files, measured);
    KnownMembers(others, measured);
    assert multiset(Known(files, measured)) == multiset(Known(others, measured));
    CostIgnoresOrder(Known(files, measured), Known(others, measured), sizes);
    CostIgnoresOrder(Known(files, measured), Known(others, measured), measured);
  }

  lemma WeightsIgnoreOrder(files: seq<string>, others: seq<string>, measured: map<string, real>,
                           sizes: map<string, real>)
    requires multiset(files) == multiset(others)
    ensures Weights(files, measured, sizes) == Weights(others, measured, sizes)
  {
    RateIgnoresOrder(files, others, measured, sizes);
    assert forall p :: p in files <==> p in multiset(files);
    assert forall p :: p in others <==> p in multiset(others);
  }

  ghost predicate Measurements(measured: map<string, real>, sizes: map<string, real>) {
    && (forall p :: p in measured ==> measured[p] >= 0.0)
    && (forall p :: p in sizes ==> sizes[p] >= 0.0)
  }

  lemma WeightsNonnegative(files: seq<string>, measured: map<string, real>, sizes: map<string, real>)
    requires Measurements(measured, sizes)
    ensures forall p :: At(Weights(files, measured, sizes), p) >= 0.0
  {
    var known := Known(files, measured);
    CostNonnegative(known, sizes);
    CostNonnegative(known, measured);
    var rate := Rate(files, measured, sizes);
    assert rate >= 0.0;
    forall p ensures At(Weights(files, measured, sizes), p) >= 0.0 {
      assert At(sizes, p) * rate >= 0.0;
    }
  }

  // ---- the shards as a function -----------------------------------------------------------------

  /** Heaviest first; equal weights by path. */
  function Before(w: map<string, real>): (string, string) -> bool {
    (p: string, q: string) => At(w, p) > At(w, q) || (At(w, p) == At(w, q) && StringLe(p, q))
  }

  lemma BeforeOrder(w: map<string, real>)
    ensures TotalPreorder(Before(w)) && AntiSymmetric(Before(w))
  {
    StringOrder();
  }

  function Weighed(paths: seq<string>, w: map<string, real>): (ws: seq<real>) {
    seq(|paths|, i requires 0 <= i < |paths| => At(w, paths[i]))
  }

  /** The first least loaded of the first `k` bins. */
  function LeastOf(ws: seq<real>, g: seq<nat>, k: nat): (c: nat)
    requires |g| == |ws| && k > 0
    ensures LeastLoaded(ws, g, k, c)
  {
    if k == 1 then 0
    else
      var c := LeastOf(ws, g, k - 1);
      if Load(ws, g, k - 1) < Load(ws, g, c) then k - 1 else c
  }

  function Greedy(ws: seq<real>, m: nat): (g: seq<nat>)
    requires m > 0
    ensures |g| == |ws|
  {
    if ws == [] then []
    else
      var front := Greedy(ws[..|ws| - 1], m);
      front + [LeastOf(ws[..|ws| - 1], front, m)]
  }

  lemma {:induction false} GreedyIsGreedy(ws: seq<real>, m: nat)
    requires m > 0
    ensures IsGreedy(ws, Greedy(ws, m), m)
  {
    if ws != [] {
      var n := |ws| - 1;
      GreedyIsGreedy(ws[..n], m);
      var g := Greedy(ws, m);
      assert g[..n] == Greedy(ws[..n], m);
      forall i | 0 <= i <= n ensures LeastLoaded(ws[..i], g[..i], m, g[i]) {
        if i < n {
          assert ws[..n][..i] == ws[..i] && g[..n][..i] == g[..i];
          assert LeastLoaded(ws[..n][..i], g[..n][..i], m, g[..n][i]);
        }
      }
    }
  }

  /** The paths that `g` sends to bin `b`, in the order they were placed. */
  function Bin(paths: seq<string>, g: seq<nat>, b: nat): seq<string>
    requires |g| == |paths|
  {
    if paths == [] then []
    else
      var n := |paths| - 1;
      Bin(paths[..n], g[..n], b) + if g[n] == b then [paths[n]] else []
  }

  function Bins(paths: seq<string>, g: seq<nat>, m: nat): (bins: seq<seq<string>>)
    requires |g| == |paths|
    ensures |bins| == m
    ensures forall b :: 0 <= b < m ==> bins[b] == Bin(paths, g, b)
  {
    seq(m, b requires 0 <= b < m => Bin(paths, g, b))
  }

  function EachSorted(bins: seq<seq<string>>): (r: seq<seq<string>>)
    ensures |r| == |bins|
    ensures forall b :: 0 <= b < |bins| ==> r[b] == Sorted(bins[b], StringLe)
  {
    seq(|bins|, b requires 0 <= b < |bins| => Sorted(bins[b], StringLe))
  }

  function Shards(files: seq<string>, m: nat, measured: map<string, real>, sizes: map<string, real>)
    : (bins: seq<seq<string>>)
    requires m > 0
    ensures |bins| == m
  {
    var w := Weights(files, measured, sizes);
    var weighed := Sorted(files, Before(w));
    var g := Greedy(Weighed(weighed, w), m);
    EachSorted(Bins(weighed, g, m))
  }

  // ---- the program ------------------------------------------------------------------------------

  ghost predicate FirstMin(loads: seq<real>, c: nat) {
    && c < |loads|
    && (forall b :: 0 <= b < |loads| ==> loads[c] <= loads[b])
    && (forall b :: 0 <= b < c ==> loads[c] < loads[b])
  }

  /** `load.index(min(load))`. */
  method FirstLightest(load: array<real>) returns (c: nat)
    requires load.Length > 0
    ensures FirstMin(load[..], c)
  {
    c := 0;
    for i := 1 to load.Length
      invariant c < i
      invariant forall b :: 0 <= b < i ==> load[c] <= load[b]
      invariant forall b :: 0 <= b < c ==> load[c] < load[b]
    {
      if load[i] < load[c] { c := i; }
    }
  }

  lemma LeastLoadedUnique(ws: seq<real>, g: seq<nat>, m: nat, c: nat, d: nat)
    requires |g| == |ws| && LeastLoaded(ws, g, m, c) && LeastLoaded(ws, g, m, d)
    ensures c == d
  {
    assert Load(ws, g, c) <= Load(ws, g, d) && Load(ws, g, d) <= Load(ws, g, c);
  }

  function Loads(ws: seq<real>, g: seq<nat>, m: nat): (loads: seq<real>)
    requires |g| == |ws|
    ensures |loads| == m
    ensures forall b :: 0 <= b < m ==> loads[b] == Load(ws, g, b)
  {
    seq(m, b requires 0 <= b < m => Load(ws, g, b))
  }

  /** The loop after `|g|` files: the bins and their running totals are those of `g`. */
  ghost predicate Placed(paths: seq<string>, ws: seq<real>, g: seq<nat>, bins: seq<seq<string>>, loads: seq<real>) {
    && |ws| == |paths| && |g| <= |paths| && |bins| == |loads| > 0
    && g == Greedy(ws[..|g|], |bins|)
    && bins == Bins(paths[..|g|], g, |bins|)
    && loads == Loads(ws[..|g|], g, |bins|)
  }

  lemma {:induction false} FirstMinIsGreedy(ws: seq<real>, g: seq<nat>, m: nat, target: nat)
    requires |g| == |ws| && m > 0 && FirstMin(Loads(ws, g, m), target)
    ensures target == LeastOf(ws, g, m)
  {
    var loads := Loads(ws, g, m);
    forall b: nat | b < m
      ensures Load(ws, g, target) <= Load(ws, g, b)
      ensures b < target ==> Load(ws, g, target) < Load(ws, g, b)
    {
      assert loads[b] == Load(ws, g, b) && loads[target] == Load(ws, g, target);
    }
    LeastLoadedUnique(ws, g, m, target, LeastOf(ws, g, m));
  }

  /** One turn of the loop: the next file goes to the first lightest bin. */
  lemma PlaceNext(paths: seq<string>, ws: seq<real>, g: seq<nat>, bins: seq<seq<string>>, loads: seq<real>, target: nat)
    requires Placed(paths, ws, g, bins, loads) && |g| < |paths| && FirstMin(loads, target)
    ensures Placed(paths, ws, g + [target],
                   bins[target := bins[target] + [paths[|g|]]], loads[target := loads[target] + ws[|g|]])
  {
    var k, m := |g|, |bins|;
    var g' := g + [target];
    assert ws[..k + 1][..k] == ws[..k] && paths[..k + 1][..k] == paths[..k] && g'[..k] == g;
    FirstMinIsGreedy(ws[..k], g, m, target);
    GreedyInRange(ws[..k + 1], m);
    NextLoads(ws[..k + 1], g', m);
    BinsStep(paths[..k + 1], g', m);
  }

  lemma NextLoads(ws: seq<real>, g: seq<nat>, m: nat)
    requires Assignment(g, |ws|, m) && ws != []
    ensures var n := |ws| - 1;
            var before := Loads(ws[..n], g[..n], m);
            Loads(ws, g, m) == before[g[n] := before[g[n]] + ws[n]]
  {
    var n := |ws| - 1;
    var before := Loads(ws[..n], g[..n], m);
    var after := before[g[n] := before[g[n]] + ws[n]];
    forall b | 0 <= b < m ensures Loads(ws, g, m)[b] == after[b] {
      assert Loads(ws, g, m)[b] == Load(ws, g, b);
    }
  }

  lemma BinsStep(paths: seq<string>, g: seq<nat>, m: nat)
    requires Assignment(g, |paths|, m) && paths != []
    ensures var n := |paths| - 1;
            var before := Bins(paths[..n], g[..n], m);
            Bins(paths, g, m) == before[g[n] := before[g[n]] + [paths[n]]]
  {
    var n := |paths| - 1;
    var before := Bins(paths[..n], g[..n], m);
    var after := before[g[n] := before[g[n]] + [paths[n]]];
    forall b | 0 <= b < m ensures Bins(paths, g, m)[b] == after[b] {
      assert Bins(paths, g, m)[b] == Bin(paths, g, b);
    }
  }

  lemma NonePlaced(paths: seq<string>, ws: seq<real>, bins: seq<seq<string>>, loads: seq<real>)
    requires |ws| == |paths| && |bins| == |loads| > 0
    requires forall b :: 0 <= b < |bins| ==> bins[b] == [] && loads[b] == 0.0
    ensures Placed(paths, ws, [], bins, loads)
  {
  }

  lemma {:induction false} GreedyInRange(ws: seq<real>, m: nat)
    requires m > 0
    ensures Assignment(Greedy(ws, m), |ws|, m)
  {
    GreedyIsGreedy(ws, m);
    GreedyPrefix(ws, Greedy(ws, m), m, 0);
  }

  /** The loop of `partition`: each file of the sorted list into the lightest bin of its moment. */
  method Deal(weighed: seq<string>, weight: map<string, real>, shards: nat) returns (bins: seq<seq<string>>)
    requires shards > 0
    ensures bins == Bins(weighed, Greedy(Weighed(weighed, weight), shards), shards)
  {
    ghost var ws := Weighed(weighed, weight);
    ghost var g: seq<nat> := [];
    bins := seq(shards, _ => []);
    var load := new real[shards](_ => 0.0);
    NonePlaced(weighed, ws, bins, load[..]);
    for k := 0 to |weighed|
      invariant |g| == k && |bins| == shards
      invariant Placed(weighed, ws, g, bins, load[..])
    {
      var path := weighed[k];
      var target := FirstLightest(load);
      ghost var loads := load[..];
      PlaceNext(weighed, ws, g, bins, loads, target);
      bins := bins[target := bins[target] + [path]];
      load[target] := load[target] + At(weight, path);
      assert load[..] == loads[target := loads[target] + ws[k]];
      g := g + [target];
    }
    assert ws[..|weighed|] == ws && weighed[..|weighed|] == weighed;
  }

  method Partition(files: seq<string>, shards: int, measured: map<string, real>, sizes: map<string, real>)
    returns (r: Result<seq<seq<string>>, ShardError>)
    ensures shards < 1 ==> r == Failure(NotAShard)
    ensures shards >= 1 ==> r == Success(Shards(files, shards, measured, sizes))
  {
    if shards < 1 {
      return Failure(NotAShard);
    }
    var weight := Weights(files, measured, sizes);
    var weighed := Sorted(files, Before(weight));
    var bins := Deal(weighed, weight, shards);
    r := Success(EachSorted(bins));
  }

  /** What `main` prints for one shard, or why it refuses. */
  method ChooseShard(files: seq<string>, shard: int, of: int, measured: map<string, real>, sizes: map<string, real>)
    returns (r: Result<seq<string>, ShardError>)
    ensures !(1 <= shard <= of) <==> r == Failure(NotAShard)
    ensures 1 <= shard <= of && files == [] ==> r == Failure(NoFiles)
    ensures 1 <= shard <= of && 0 < |files| < of ==> r == Failure(MoreShardsThanFiles)
    ensures 1 <= shard <= of <= |files| ==> r == Success(Shards(files, of, measured, sizes)[shard - 1])
  {
    if of < 1 || !(1 <= shard <= of) {
      return Failure(NotAShard);
    }
    if files == [] {
      return Failure(NoFiles);
    }
    if of > |files| {
      return Failure(MoreShardsThanFiles);
    }
    var p := Partition(files, of, measured, sizes);
    r := Success(p.value[shard - 1]);
  }

  // ---- every file, once -------------------------------------------------------------------------

  /** All the paths of some bins, with repetition. */
  function Contents(bins: seq<seq<string>>): multiset<string> {
    if bins == [] then multiset{} else Contents(bins[..|bins| - 1]) + multiset(bins[|bins| - 1])
  }

  lemma {:induction false} ContentsUpdate(bins: seq<seq<string>>, b: nat, bin: seq<string>)
    requires b < |bins|
    ensures Contents(bins[b := bin]) + multiset(bins[b]) == Contents(bins) + multiset(bin)
  {
    var n := |bins| - 1;
    if b == n {
      assert bins[b := bin][..n] == bins[..n];
    } else {
      ContentsUpdate(bins[..n], b, bin);
      assert bins[b := bin][..n] == bins[..n][b := bin];
      assert bins[b := bin][n] == bins[n] && bins[..n][b] == bins[b];
      Exchange(Contents(bins[..n][b := bin]), Contents(bins[..n]), multiset(bins[b]), multiset(bin), multiset(bins[n]));
    }
  }

  lemma {:induction false} ContentsOfEmpty(bins: seq<seq<string>>)
    requires forall b :: 0 <= b < |bins| ==> bins[b] == []
    ensures Contents(bins) == multiset{}
  {
    if bins != [] { ContentsOfEmpty(bins[..|bins| - 1]); }
  }

  lemma {:induction false} ContentsEqual(s: seq<seq<string>>, t: seq<seq<string>>)
    requires |s| == |t| && forall b :: 0 <= b < |s| ==> multiset(s[b]) == multiset(t[b])
    ensures Contents(s) == Contents(t)
  {
    if s != [] { ContentsEqual(s[..|s| - 1], t[..|t| - 1]); }
  }

  lemma PlacedOne(after: multiset<string>, before: multiset<string>, bin: seq<string>, x: string)
    requires after + multiset(bin) == before + multiset(bin + [x])
    ensures after == before + multiset{x}
  {
    assert multiset(bin + [x]) == multiset(bin) + multiset{x};
    assert before + (multiset(bin) + multiset{x}) == (before + multiset{x}) + multiset(bin);
    Cancel(after, before + multiset{x}, multiset(bin));
  }

  lemma ContentsAdd(bins: seq<seq<string>>, b: nat, x: string)
    requires b < |bins|
    ensures Contents(bins[b := bins[b] + [x]]) == Contents(bins) + multiset{x}
  {
    ContentsUpdate(bins, b, bins[b] + [x]);
    PlacedOne(Contents(bins[b := bins[b] + [x]]), Contents(bins), bins[b], x);
  }

  lemma {:induction false} BinsKeepAll(paths: seq<string>, g: seq<nat>, m: nat)
    requires Assignment(g, |paths|, m)
    ensures Contents(Bins(paths, g, m)) == multiset(paths)
  {
    if paths == [] {
      ContentsOfEmpty(Bins(paths, g, m));
    } else {
      var n := |paths| - 1;
      assert multiset(paths) == multiset(paths[..n]) + multiset{paths[n]} by {
        assert paths == paths[..n] + [paths[n]];
      }
      BinsStep(paths, g, m);
      ContentsAdd(Bins(paths[..n], g[..n], m), g[n], paths[n]);
      BinsKeepAll(paths[..n], g[..n], m);
    }
  }

  /** No test is lost and none runs twice: the shards hold exactly the files given. */
  lemma ShardsKeepEveryFile(files: seq<string>, m: nat, measured: map<string, real>, sizes: map<string, real>)
    requires m > 0
    ensures Contents(Shards(files, m, measured, sizes)) == multiset(files)
    ensures forall b :: 0 <= b < m ==> SortedBy(Shards(files, m, measured, sizes)[b], StringLe)
  {
    var w := Weights(files, measured, sizes);
    var weighed := Sorted(files, Before(w));
    var ws := Weighed(weighed, w);
    var g := Greedy(ws, m);
    GreedyIsGreedy(ws, m);
    GreedyPrefix(ws, g, m, 0);
    BinsKeepAll(weighed, g, m);
    ContentsEqual(Shards(files, m, measured, sizes), Bins(weighed, g, m));
    StringOrder();
    forall b | 0 <= b < m ensures SortedBy(Shards(files, m, measured, sizes)[b], StringLe) {
      SortedIsSorted(Bin(weighed, g, b), StringLe);
    }
  }

  lemma {:induction false} ContentsCountsTwice(bins: seq<seq<string>>, b: nat, c: nat, path: string)
    requires b < c < |bins| && path in bins[b] && path in bins[c]
    ensures Contents(bins)[path] >= 2
    decreases |bins|
  {
    var n := |bins| - 1;
    if c < n {
      ContentsCountsTwice(bins[..n], b, c, path);
    } else {
      InContents(bins[..n], b, path);
    }
  }

  lemma {:induction false} InContents(bins: seq<seq<string>>, b: nat, path: string)
    requires b < |bins| && path in bins[b]
    ensures Contents(bins)[path] >= 1
    decreases |bins|
  {
    if b < |bins| - 1 { InContents(bins[..|bins| - 1], b, path); }
  }

  lemma {:induction false} ContentsCountsOnce(bins: seq<seq<string>>, b: nat, path: string)
    requires b < |bins|
    ensures Contents(bins)[path] >= multiset(bins[b])[path]
    decreases |bins|
  {
    if b < |bins| - 1 { ContentsCountsOnce(bins[..|bins| - 1], b, path); }
  }

  /** Distinct files: no two shards share one, and none is in a shard twice. */
  lemma ShardsDisjoint(files: seq<string>, m: nat, measured: map<string, real>, sizes: map<string, real>, b: nat,
                       c: nat)
    requires b < m && c < m
    requires forall i, j :: 0 <= i < j < |files| ==> files[i] != files[j]
    ensures b != c ==>
      forall p :: p in Shards(files, m, measured, sizes)[b] ==> p !in Shards(files, m, measured, sizes)[c]
    ensures forall p :: p in Shards(files, m, measured, sizes)[b] ==>
        multiset(Shards(files, m, measured, sizes)[b])[p] == 1
  {
    var bins := Shards(files, m, measured, sizes);
    ShardsKeepEveryFile(files, m, measured, sizes);
    forall p | p in bins[b] ensures (b != c ==> p !in bins[c]) && multiset(bins[b])[p] == 1 {
      DistinctCount(files, p);
      ContentsCountsOnce(bins, b, p);
      assert p in multiset(bins[b]);
      NotInBoth(bins, b, c, p);
    }
  }

  lemma {:induction false} NotInBoth(bins: seq<seq<string>>, b: nat, c: nat, p: string)
    requires b < |bins| && c < |bins| && p in bins[b] && Contents(bins)[p] <= 1
    ensures b != c ==> p !in bins[c]
  {
    if b != c && p in bins[c] { ContentsCountsTwice(bins, if b < c then b else c, if b < c then c else b, p); }
  }

  lemma {:induction false} DistinctCount(files: seq<string>, p: string)
    requires forall i, j :: 0 <= i < j < |files| ==> files[i] != files[j]
    ensures multiset(files)[p] <= 1
  {
    if files != [] {
      DistinctCount(files[1..], p);
      assert files == [files[0]] + files[1..];
      if files[0] == p { assert p !in files[1..]; }
    }
  }

  /** The partition is stable: any listing of the same files gives the same shards. */
  lemma ShardsIgnoreOrder(files: seq<string>, others: seq<string>, m: nat, measured: map<string, real>,
                          sizes: map<string, real>)
    requires m > 0 && multiset(files) == multiset(others)
    ensures Shards(files, m, measured, sizes) == Shards(others, m, measured, sizes)
  {
    WeightsIgnoreOrder(files, others, measured, sizes);
    BeforeOrder(Weights(files, measured, sizes));
    SortForgetsOrder(files, others, Before(Weights(files, measured, sizes)));
  }

  // ---- how good the balance is ------------------------------------------------------------------

  lemma {:induction false} BinCost(paths: seq<string>, g: seq<nat>, w: map<string, real>, b: nat)
    requires |g| == |paths|
    ensures Cost(Bin(paths, g, b), w) == Load(Weighed(paths, w), g, b)
  {
    if paths != [] {
      var n := |paths| - 1;
      BinCost(paths[..n], g[..n], w, b);
      assert Weighed(paths, w)[..n] == Weighed(paths[..n], w);
      var front := Bin(paths[..n], g[..n], b);
      if g[n] == b {
        assert Bin(paths, g, b) == front + [paths[n]];
        assert (front + [paths[n]])[..|front|] == front;
      } else {
        assert Bin(paths, g, b) == front;
      }
    }
  }

  /** The facts that carry the bounds on weights over to the shards. */
  lemma ShardLoads(files: seq<string>, m: nat, measured: map<string, real>, sizes: map<string, real>)
    returns (ws: seq<real>, g: seq<nat>)
    requires m > 0 && Measurements(measured, sizes)
    ensures Nonnegative(ws) && Descending(ws) && IsGreedy(ws, g, m) && |ws| == |files|
    ensures var w := Weights(files, measured, sizes);
            && ws == Weighed(Sorted(files, Before(w)), w)
            && (forall b: nat :: b < m ==> Cost(Shards(files, m, measured, sizes)[b], w) == Load(ws, g, b))
            && (forall b: nat :: b < m ==> (Shards(files, m, measured, sizes)[b] != [] <==> Used(g, b)))
  {
    var w := Weights(files, measured, sizes);
    var weighed := Sorted(files, Before(w));
    ws := Weighed(weighed, w);
    g := Greedy(ws, m);
    WeightsNonnegative(files, measured, sizes);
    BeforeOrder(w);
    SortedIsSorted(files, Before(w));
    assert Descending(ws) by {
      forall i, j | 0 <= i < j < |ws| ensures ws[i] >= ws[j] {
        assert Before(w)(weighed[i], weighed[j]);
      }
    }
    GreedyIsGreedy(ws, m);
    forall b: nat | b < m
      ensures Cost(Shards(files, m, measured, sizes)[b], w) == Load(ws, g, b)
      ensures Shards(files, m, measured, sizes)[b] != [] <==> Used(g, b)
    {
      BinCost(weighed, g, w, b);
      CostIgnoresOrder(Sorted(Bin(weighed, g, b), StringLe), Bin(weighed, g, b), w);
      BinNonempty(weighed, g, b);
    }
  }

  lemma {:induction false} BinNonempty(paths: seq<string>, g: seq<nat>, b: nat)
    requires |g| == |paths|
    ensures Bin(paths, g, b) != [] <==> Used(g, b)
  {
    if paths != [] {
      var n := |paths| - 1;
      BinNonempty(paths[..n], g[..n], b);
      if Used(g[..n], b) {
        var i :| 0 <= i < n && g[..n][i] == b;
        assert g[i] == b;
      }
      if Used(g, b) && g[n] != b {
        var i :| 0 <= i < |g| && g[i] == b;
        assert g[..n][i] == b;
      }
    }
  }

  /** Takes one copy of `x` out of the bins that hold it. */
  lemma TakeOut(bins: seq<seq<string>>, x: string, w: map<string, real>)
    returns (c: nat, after: seq<seq<string>>)
    requires x in Contents(bins)
    ensures |after| == |bins| && c < |bins|
    ensures Contents(after) + multiset{x} == Contents(bins)
    ensures forall b: nat :: b < |bins| ==> Cost(bins[b], w) == Cost(after[b], w) + if b == c then At(w, x) else 0.0
  {
    var k: nat;
    c, k := FindInBins(bins, x);
    var cut := bins[c][..k] + bins[c][k + 1..];
    after := bins[c := cut];
    CutOne(bins[c], k);
    CostSplit(bins[c], w, k);
    ContentsUpdate(bins, c, cut);
    Removed(Contents(after), Contents(bins), multiset(bins[c]), multiset(cut), multiset{x});
  }

  lemma Removed(after: multiset<string>, before: multiset<string>, bin: multiset<string>, cut: multiset<string>,
                x: multiset<string>)
    requires after + bin == before + cut && bin == cut + x
    ensures after + x == before
  {
    assert after + (cut + x) == (after + x) + cut;
    Cancel(after + x, before, cut);
  }

  /** Any way of dealing the same files into bins is an assignment of the sorted list. */
  lemma {:induction false} AsAssignment(paths: seq<string>, bins: seq<seq<string>>, w: map<string, real>)
    returns (a: seq<nat>)
    requires Contents(bins) == multiset(paths)
    ensures Assignment(a, |paths|, |bins|)
    ensures forall b: nat :: b < |bins| ==> Load(Weighed(paths, w), a, b) == Cost(bins[b], w)
  {
    if paths == [] {
      a := [];
      forall b: nat | b < |bins| ensures bins[b] == [] {
        if bins[b] != [] { InContents(bins, b, bins[b][0]); }
      }
    } else {
      var n := |paths| - 1;
      assert paths == paths[..n] + [paths[n]];
      var c, after := TakeOut(bins, paths[n], w);
      Cancel(Contents(after), multiset(paths[..n]), multiset{paths[n]});
      var rest := AsAssignment(paths[..n], after, w);
      a := rest + [c];
      assert a[..n] == rest && Weighed(paths, w)[..n] == Weighed(paths[..n], w);
      forall b: nat | b < |bins| ensures Load(Weighed(paths, w), a, b) == Cost(bins[b], w) {
        assert Load(Weighed(paths[..n], w), rest, b) == Cost(after[b], w);
      }
    }
  }

  lemma {:induction false} FindInBins(bins: seq<seq<string>>, x: string) returns (c: nat, k: nat)
    requires x in Contents(bins)
    ensures c < |bins| && k < |bins[c]| && bins[c][k] == x
  {
    var last := bins[|bins| - 1];
    if x in last {
      c := |bins| - 1;
      k :| 0 <= k < |last| && last[k] == x;
    } else {
      c, k := FindInBins(bins[..|bins| - 1], x);
    }
  }

  lemma SlowestShard(files: seq<string>, m: nat, measured: map<string, real>, sizes: map<string, real>,
                     other: seq<seq<string>>, slowest: real, b: nat)
    returns (ws: seq<real>, g: seq<nat>, a: seq<nat>)
    requires Measurements(measured, sizes) && b < m
    requires |other| == m && Contents(other) == multiset(files)
    requires forall c :: 0 <= c < m ==> Cost(other[c], Weights(files, measured, sizes)) <= slowest
    ensures Nonnegative(ws) && Descending(ws) && IsGreedy(ws, g, m) && Assignment(a, |ws|, m)
    ensures forall c: nat :: c < m ==> Load(ws, a, c) <= slowest
    ensures Cost(Shards(files, m, measured, sizes)[b], Weights(files, measured, sizes)) == Load(ws, g, b)
  {
    var w := Weights(files, measured, sizes);
    ws, g := ShardLoads(files, m, measured, sizes);
    a := AsAssignment(Sorted(files, Before(w)), other, w);
    forall c: nat | c < m ensures Load(ws, a, c) <= slowest {
      assert Load(ws, a, c) == Cost(other[c], w);
    }
  }

  /** THE LPT GUARANTEE. However else the same files are dealt into `m` shards, the slowest shard of
      `partition` costs at most 4/3 - 1/(3m) times the slowest of that deal; LptRatio reads the bound
      as that ratio. */
  lemma {:induction false} LptGuarantee(files: seq<string>, m: nat, measured: map<string, real>,
                                        sizes: map<string, real>, other: seq<seq<string>>, slowest: real, b: nat)
    requires Measurements(measured, sizes) && b < m
    requires |other| == m && Contents(other) == multiset(files)
    requires forall c :: 0 <= c < m ==> Cost(other[c], Weights(files, measured, sizes)) <= slowest
    ensures WithinGraham(m, Cost(Shards(files, m, measured, sizes)[b], Weights(files, measured, sizes)), slowest)
  {
    var ws, g, a := SlowestShard(files, m, measured, sizes, other, slowest, b);
    GrahamBound(ws, g, a, m, slowest, b);
  }

  /** Two shards differ by no more than the heaviest file. */
  lemma ShardsBalanced(files: seq<string>, m: nat, measured: map<string, real>, sizes: map<string, real>,
                       heaviest: real, b: nat, c: nat)
    requires Measurements(measured, sizes) && b < m && c < m && heaviest >= 0.0
    requires forall p :: p in files ==> At(Weights(files, measured, sizes), p) <= heaviest
    ensures var w, bins := Weights(files, measured, sizes), Shards(files, m, measured, sizes);
            Cost(bins[b], w) <= Cost(bins[c], w) + heaviest
  {
    var w := Weights(files, measured, sizes);
    var ws, g := ShardLoads(files, m, measured, sizes);
    forall i | 0 <= i < |ws| ensures ws[i] <= heaviest {
      assert Sorted(files, Before(w))[i] in multiset(files);
    }
    Balanced(ws, g, m, b, c, heaviest);
  }

  /** How many of `files` weigh something. */
  function Weighty(files: seq<string>, w: map<string, real>): nat {
    Positive(Weighed(files, w))
  }

  lemma {:induction false} WeightyIgnoresOrder(s: seq<string>, t: seq<string>, w: map<string, real>)
    requires multiset(s) == multiset(t)
    ensures Weighty(s, w) == Weighty(t, w)
  {
    var unit := map p | p in s :: if At(w, p) > 0.0 then 1.0 else 0.0;
    assert forall p :: p in s <==> p in multiset(s);
    assert forall p :: p in t <==> p in multiset(t);
    WeightyIsCost(s, w, unit);
    WeightyIsCost(t, w, unit);
    CostIgnoresOrder(s, t, unit);
  }

  lemma {:induction false} WeightyIsCost(s: seq<string>, w: map<string, real>, unit: map<string, real>)
    requires forall p :: p in s ==> At(unit, p) == if At(w, p) > 0.0 then 1.0 else 0.0
    ensures Cost(s, unit) == Weighty(s, w) as real
  {
    if s != [] {
      WeightyIsCost(s[..|s| - 1], w, unit);
      assert Weighed(s, w)[..|s| - 1] == Weighed(s[..|s| - 1], w);
    }
  }

  /** Exactly when every shard has something to run: enough files, and all but one shard's worth of
      them weighing something. `main` checks only the first half. */
  lemma NoShardIsEmpty(files: seq<string>, m: nat, measured: map<string, real>, sizes: map<string, real>)
    requires Measurements(measured, sizes) && m > 0
    ensures (forall b :: 0 <= b < m ==> Shards(files, m, measured, sizes)[b] != [])
       <==> |files| >= m && Weighty(files, Weights(files, measured, sizes)) >= m - 1
  {
    var w := Weights(files, measured, sizes);
    var ws, g := ShardLoads(files, m, measured, sizes);
    EveryBinUsed(ws, g, m);
    WeightyIgnoresOrder(files, Sorted(files, Before(w)), w);
    var bins := Shards(files, m, measured, sizes);
    assert (forall b :: 0 <= b < m ==> bins[b] != []) <==> (forall b: nat :: b < m ==> Used(g, b));
  }

  /** Files that were all measured at 0.0 seconds pass the guard of `main` in any number, and still
      leave every shard after the first empty. */
  lemma GuardMissesWeightlessFiles(files: seq<string>, m: nat, measured: map<string, real>, sizes: map<string, real>)
    requires Measurements(measured, sizes) && 2 <= m <= |files|
    requires forall p :: p in files ==> p in measured && measured[p] == 0.0
    ensures exists b :: 0 <= b < m && Shards(files, m, measured, sizes)[b] == []
  {
    NoShardIsEmpty(files, m, measured, sizes);
    WeightlessCount(files, Weights(files, measured, sizes));
  }

  lemma {:induction false} WeightlessCount(files: seq<string>, w: map<string, real>)
    requires forall p :: p in files ==> At(w, p) <= 0.0
    ensures Weighty(files, w) == 0
  {
    if files != [] {
      WeightlessCount(files[..|files| - 1], w);
      assert Weighed(files, w)[..|files| - 1] == Weighed(files[..|files| - 1], w);
    }
  }
}
