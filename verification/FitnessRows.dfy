/** Which results the engine-fitness table shows, rule by rule (devtools/fitness/build_engine_fitness.py). */
module FitnessRows {
  import opened Wrappers
  import opened Sorting
  import opened ShapeId
  import opened FitnessTable

  /** The file is on the dev side of the frozen split, and the result is evidence about an engine at all. */
  predicate DevSide(split: Split, r: Run) {
    !r.relabelled && !r.neverMeshed && r.digest != "" && r.digest in split && split[r.digest] == "dev"
  }

  predicate LabAccepts(r: LabResult) { r.prefixed && r.inRange && r.counted }

  predicate SweepAccepts(split: Split, r: E2eResult) {
    r.inRange && r.indexed && r.gate && !r.variant && r.refusal == "" && DevSide(split, r.run)
  }

  /** Among the lab's accepted results of its case, engine and format it is the newest, and the first that is as
      new. */
  ghost predicate NewestInLab(lab: seq<LabResult>, r: Run) {
    exists i :: 0 <= i < |lab| && LabAccepts(lab[i]) && lab[i].run == r
      && forall j :: 0 <= j < |lab| && LabAccepts(lab[j]) && lab[j].run.key == r.key ==> NoNewer(i, r, j, lab[j].run)
  }

  ghost predicate NewestInSweeps(split: Split, e2e: seq<E2eResult>, r: Run) {
    exists i :: 0 <= i < |e2e| && SweepAccepts(split, e2e[i]) && e2e[i].run == r
      && forall j :: 0 <= j < |e2e| && SweepAccepts(split, e2e[j]) && e2e[j].run.key == r.key
           ==> NoNewer(i, r, j, e2e[j].run)
  }

  /** The `j`-th result is not newer than the `i`-th, and older if it comes before it. */
  predicate NoNewer(i: int, r: Run, j: int, other: Run) { other.mtime <= r.mtime && (j < i ==> other.mtime < r.mtime) }

  /** A sweep's row for the same geometry, engine and format. */
  ghost predicate SweptOver(split: Split, e2e: seq<E2eResult>, r: Run) {
    exists e :: NewestInSweeps(split, e2e, e) && ShapeOf(e.key.caseId) == ShapeOf(r.key.caseId)
      && e.key.engine == r.key.engine && e.key.format == r.key.format
  }

  // ---- the newest per key -----------------------------------------------------------------------------

  /** The same of any list of verdicts, over the first `k`. */
  ghost predicate FirstNewest(vs: seq<Verdict>, k: nat, r: Run)
    requires k <= |vs|
  {
    exists i :: FirstAt(vs, k, r, i)
  }

  ghost predicate FirstAt(vs: seq<Verdict>, k: nat, r: Run, i: int)
    requires k <= |vs|
  {
    0 <= i < k && vs[i] == Verdict(None, r)
    && forall j :: 0 <= j < k && vs[j].refusal.None? && vs[j].run.key == r.key ==> NoNewer(i, r, j, vs[j].run)
  }

  /** The rows held are the first newest, one for each key that is accepted at all. */
  ghost predicate HoldsFirst(vs: seq<Verdict>, k: nat, rows: seq<Run>)
    requires k <= |vs|
  {
    forall r :: r in rows <==> FirstNewest(vs, k, r)
  }

  lemma OneMoreRefused(vs: seq<Verdict>, k: nat, r: Run)
    requires 0 < k <= |vs| && vs[k - 1].refusal.Some?
    ensures FirstNewest(vs, k, r) <==> FirstNewest(vs, k - 1, r)
  {
    var n := k - 1;
    if i :| FirstAt(vs, k, r, i) { assert FirstAt(vs, n, r, i); }
    if i :| FirstAt(vs, n, r, i) { assert FirstAt(vs, k, r, i); }
  }

  lemma OtherKeyStays(vs: seq<Verdict>, k: nat, r: Run)
    requires 0 < k <= |vs| && vs[k - 1].refusal.None? && vs[k - 1].run.key != r.key
    ensures FirstNewest(vs, k, r) <==> FirstNewest(vs, k - 1, r)
  {
    var n := k - 1;
    if i :| FirstAt(vs, k, r, i) { assert FirstAt(vs, n, r, i); }
    if i :| FirstAt(vs, n, r, i) { assert FirstAt(vs, k, r, i); }
  }

  lemma FirstIsOnly(vs: seq<Verdict>, k: nat, r: Run, q: Run)
    requires k <= |vs| && FirstNewest(vs, k, r) && FirstNewest(vs, k, q) && r.key == q.key
    ensures r == q
  {
    var i :| FirstAt(vs, k, r, i);
    var j :| FirstAt(vs, k, q, j);
    assert NoNewer(i, r, j, q) && NoNewer(j, q, i, r);
  }

  /** A key not held before: the new result is its only one. */
  lemma NewKeyIsFirst(vs: seq<Verdict>, k: nat)
    requires 0 < k <= |vs| && vs[k - 1].refusal.None?
    requires forall j :: 0 <= j < k - 1 && vs[j].refusal.None? ==> vs[j].run.key != vs[k - 1].run.key
    ensures FirstAt(vs, k, vs[k - 1].run, k - 1)
  {
  }

  /** A key held by `q`: the new result replaces it if it is newer. */
  lemma HeldKey(vs: seq<Verdict>, k: nat, q: Run)
    requires 0 < k <= |vs| && vs[k - 1].refusal.None? && FirstNewest(vs, k - 1, q) && q.key == vs[k - 1].run.key
    ensures vs[k - 1].run.mtime > q.mtime ==> FirstAt(vs, k, vs[k - 1].run, k - 1)
    ensures vs[k - 1].run.mtime <= q.mtime ==> FirstNewest(vs, k, q)
  {
    var i :| FirstAt(vs, k - 1, q, i);
    if vs[k - 1].run.mtime <= q.mtime { assert FirstAt(vs, k, q, i); }
  }

  /** A row under the new result's key is that result or what was held before. */
  lemma NowHeld(vs: seq<Verdict>, k: nat, r: Run)
    requires 0 < k <= |vs| && vs[k - 1].refusal.None? && FirstNewest(vs, k, r) && r.key == vs[k - 1].run.key
    ensures r == vs[k - 1].run || FirstNewest(vs, k - 1, r)
  {
    var i :| FirstAt(vs, k, r, i);
    if i < k - 1 { assert FirstAt(vs, k - 1, r, i); }
  }

  lemma NewestHolds(vs: seq<Verdict>, k: nat, t: Table, older: string, r: Run)
    requires 0 < k <= |vs| && vs[k - 1].refusal.None? && OnePerKey(t.rows) && HoldsFirst(vs, k - 1, t.rows)
    requires forall j :: 0 <= j < k - 1 && vs[j].refusal.None? ==> Find(t.rows, vs[j].run.key) < |t.rows|
    ensures r in Newest(t, vs[k - 1].run, older).rows <==> FirstNewest(vs, k, r)
  {
    var x := vs[k - 1].run;
    var i := Find(t.rows, x.key);
    var after := Newest(t, x, older).rows;
    NewestKeepsOnePerKey(t, x, older);
    if r.key != x.key {
      OtherKeyStays(vs, k, r);
      RowsOfOtherKeys(t, x, older, r);
    } else if i == |t.rows| {
      NewKeyIsFirst(vs, k);
      assert after[i] == x;
      if FirstNewest(vs, k, r) { FirstIsOnly(vs, k, r, x); }
      if r in after { OneOf(after, r, x); }
    } else {
      var q := t.rows[i];
      assert q in t.rows;
      HeldKey(vs, k, q);
      var now := if x.mtime > q.mtime then x else q;
      assert after[i] == now && FirstNewest(vs, k, now);
      if FirstNewest(vs, k, r) { FirstIsOnly(vs, k, r, now); }
      if r in after { OneOf(after, r, now); }
    }
  }

  lemma OneOf(rows: seq<Run>, r: Run, q: Run)
    requires OnePerKey(rows) && r in rows && q in rows && r.key == q.key
    ensures r == q
  {
    var i :| 0 <= i < |rows| && rows[i] == r;
    var j :| 0 <= j < |rows| && rows[j] == q;
    assert RunKey(rows[i]) == RunKey(rows[j]);
  }

  lemma RowsOfOtherKeys(t: Table, x: Run, older: string, r: Run)
    requires r.key != x.key
    ensures r in Newest(t, x, older).rows <==> r in t.rows
  {
    var i := Find(t.rows, x.key);
    var after := Newest(t, x, older).rows;
    if r in t.rows {
      var j :| 0 <= j < |t.rows| && t.rows[j] == r;
      assert after[j] == r;
    }
    if r in after {
      var j :| 0 <= j < |after| && after[j] == r;
      assert j < |t.rows| && t.rows[j] == r;
    }
  }

  lemma OneMoreVerdict(vs: seq<Verdict>, excluded: multiset<string>, older: string, k: nat, r: Run)
    requires 0 < k <= |vs| && HoldsFirst(vs, k - 1, Latest(vs, excluded, older, k - 1).rows)
    ensures r in Latest(vs, excluded, older, k).rows <==> FirstNewest(vs, k, r)
  {
    var t := Latest(vs, excluded, older, k - 1);
    if vs[k - 1].refusal.Some? {
      OneMoreRefused(vs, k, r);
    } else {
      LatestIsNewest(vs, excluded, older, k - 1);
      NewestHolds(vs, k, t, older, r);
    }
  }

  lemma {:induction false} LatestHoldsFirst(vs: seq<Verdict>, excluded: multiset<string>, older: string, k: nat)
    requires k <= |vs|
    ensures HoldsFirst(vs, k, Latest(vs, excluded, older, k).rows)
  {
    if k > 0 {
      LatestHoldsFirst(vs, excluded, older, k - 1);
      forall r ensures r in Latest(vs, excluded, older, k).rows <==> FirstNewest(vs, k, r) {
        OneMoreVerdict(vs, excluded, older, k, r);
      }
    }
  }

  // ---- the rules ----------------------------------------------------------------------------------------

  lemma DevRule(split: Split, r: Run)
    ensures DevRefusal(split, r).None? <==> DevSide(split, r)
  {
    assert "dev" != "holdout" by { assert |"dev"| != |"holdout"|; }
    assert "" != "dev" by { assert |""| != |"dev"|; }
  }

  lemma LabRule(lab: seq<LabResult>, r: Run)
    ensures FirstNewest(LabVerdicts(lab), |lab|, r) <==> NewestInLab(lab, r)
  {
    var vs := LabVerdicts(lab);
    if i :| FirstAt(vs, |lab|, r, i) {
      assert forall j :: 0 <= j < |lab| && LabAccepts(lab[j]) ==> vs[j] == Verdict(None, lab[j].run);
      assert LabAccepts(lab[i]) && lab[i].run == r;
    }
    if NewestInLab(lab, r) {
      var i :| 0 <= i < |lab| && LabAccepts(lab[i]) && lab[i].run == r
        && forall j :: 0 <= j < |lab| && LabAccepts(lab[j]) && lab[j].run.key == r.key ==> NoNewer(i, r, j, lab[j].run);
      assert forall j :: 0 <= j < |lab| && vs[j].refusal.None? ==> LabAccepts(lab[j]) && vs[j].run == lab[j].run;
      assert FirstAt(vs, |lab|, r, i);
    }
  }

  lemma SweepVerdict(split: Split, r: E2eResult)
    ensures E2eRefusal(split, r).None? <==> SweepAccepts(split, r)
  {
    DevRule(split, r.run);
  }

  lemma SweepRule(split: Split, e2e: seq<E2eResult>, r: Run)
    ensures FirstNewest(E2eVerdicts(split, e2e), |e2e|, r) <==> NewestInSweeps(split, e2e, r)
  {
    var vs := E2eVerdicts(split, e2e);
    forall j | 0 <= j < |e2e| ensures vs[j].run == e2e[j].run
        && (vs[j].refusal.None? <==> SweepAccepts(split, e2e[j])) {
      SweepVerdict(split, e2e[j]);
    }
    if i :| FirstAt(vs, |e2e|, r, i) { assert SweepAccepts(split, e2e[i]) && e2e[i].run == r; }
    if NewestInSweeps(split, e2e, r) {
      var i :| 0 <= i < |e2e| && SweepAccepts(split, e2e[i]) && e2e[i].run == r
        && forall j :: 0 <= j < |e2e| && SweepAccepts(split, e2e[j]) && e2e[j].run.key == r.key
             ==> NoNewer(i, r, j, e2e[j].run);
      assert FirstAt(vs, |e2e|, r, i);
    }
  }

  // ---- the rows kept ------------------------------------------------------------------------------------

  lemma {:induction false} KeptIff(vs: seq<Verdict>, excluded: multiset<string>, k: nat, r: Run)
    requires k <= |vs|
    ensures r in FitnessTable.Kept(vs, excluded, k).rows <==> exists i :: 0 <= i < k && vs[i] == Verdict(None, r)
  {
    if k > 0 {
      KeptIff(vs, excluded, k - 1, r);
      if vs[k - 1] == Verdict(None, r) {
        assert FitnessTable.Kept(vs, excluded, k).rows[|FitnessTable.Kept(vs, excluded, k - 1).rows|] == r;
      }
    }
  }

  lemma {:induction false} NotSupersededIff(rows: seq<Run>, e2e: seq<Run>, r: Run)
    ensures r in NotSuperseded(rows, e2e) <==> r in rows && !Superseded(r, e2e)
  {
    if rows != [] {
      var n := |rows| - 1;
      assert rows == rows[..n] + [rows[n]];
      NotSupersededIff(rows[..n], e2e, r);
    }
  }

  lemma LabRowIff(split: Split, lab: seq<LabResult>, r: Run)
    ensures r in LabTable(split, lab).rows
      <==> NewestInLab(lab, r) && r.found && r.measured && DevSide(split, r)
  {
    var latest := LabLatest(lab);
    var sorted := Sorted(latest.rows, RunLe);
    var found := LabRowsOf(latest);
    LatestHoldsFirst(LabVerdicts(lab), multiset{}, "older duplicate", |lab|);
    LabRule(lab, r);
    SameRows(latest.rows, r);
    KeptIff(RowVerdicts(sorted), latest.excluded, |sorted|, r);
    KeptIff(DevVerdicts(split, found.rows), found.excluded, |found.rows|, r);
    DevRule(split, r);
    FoundIff(sorted, r);
    DevIff(split, found.rows, r);
  }

  lemma {:induction false} SameRows(rows: seq<Run>, r: Run)
    ensures r in Sorted(rows, RunLe) <==> r in rows
  {
    assert r in Sorted(rows, RunLe) <==> r in multiset(Sorted(rows, RunLe));
    assert r in rows <==> r in multiset(rows);
  }

  lemma FoundIff(rows: seq<Run>, r: Run)
    ensures (exists i :: 0 <= i < |rows| && RowVerdicts(rows)[i] == Verdict(None, r))
        <==> r in rows && r.found && r.measured
  {
    if r in rows && r.found && r.measured {
      var i :| 0 <= i < |rows| && rows[i] == r;
      assert RowVerdicts(rows)[i] == Verdict(None, r);
    }
  }

  lemma DevIff(split: Split, rows: seq<Run>, r: Run)
    ensures (exists i :: 0 <= i < |rows| && DevVerdicts(split, rows)[i] == Verdict(None, r))
      <==> r in rows && DevRefusal(split, r).None?
  {
    if r in rows && DevRefusal(split, r).None? {
      var i :| 0 <= i < |rows| && rows[i] == r;
      assert DevVerdicts(split, rows)[i] == Verdict(None, r);
    }
  }

  lemma SweptIff(split: Split, e2e: seq<E2eResult>, excluded: multiset<string>, r: Run)
    ensures r in SweepTable(split, e2e, excluded).rows <==> NewestInSweeps(split, e2e, r)
  {
    LatestHoldsFirst(E2eVerdicts(split, e2e), excluded, "e2e older duplicate", |e2e|);
    SweepRule(split, e2e, r);
  }

  lemma SupersededIff(split: Split, e2e: seq<E2eResult>, swept: seq<Run>, r: Run)
    requires forall e :: e in swept <==> NewestInSweeps(split, e2e, e)
    ensures Superseded(r, swept) <==> SweptOver(split, e2e, r)
  {
    if e :| e in swept && SameShape(r, e) { assert NewestInSweeps(split, e2e, e); }
    if SweptOver(split, e2e, r) {
      var e :| NewestInSweeps(split, e2e, e) && ShapeOf(e.key.caseId) == ShapeOf(r.key.caseId)
        && e.key.engine == r.key.engine && e.key.format == r.key.format;
      assert e in swept && SameShape(r, e);
    }
  }

  /** WHAT THE TABLE SHOWS. A result is a row exactly when it is the newest a sweep has of its case, engine and
      format; or the newest the lab has, found and measured and on the dev side, and no sweep's row is of the same
      geometry, engine and format. */
  lemma RowIff(split: Split, lab: seq<LabResult>, e2e: seq<E2eResult>, r: Run)
    ensures r in Built(split, lab, e2e).rows
      <==> || NewestInSweeps(split, e2e, r)
           || (&& NewestInLab(lab, r) && r.found && r.measured && DevSide(split, r)
               && !SweptOver(split, e2e, r))
  {
    var rows := LabTable(split, lab);
    var swept := SweepTable(split, e2e, rows.excluded).rows;
    LabRowIff(split, lab, r);
    forall e ensures e in swept <==> NewestInSweeps(split, e2e, e) { SweptIff(split, e2e, rows.excluded, e); }
    SupersededIff(split, e2e, swept, r);
    NotSupersededIff(rows.rows, swept, r);
    SameRows(swept, r);
  }

  // ---- the order of the rows ------------------------------------------------------------------------------

  /** By case, then engine, then format, each compared as text. */
  predicate KeyAtMost(a: Key, b: Key) {
    || (a.caseId != b.caseId && StringLe(a.caseId, b.caseId))
    || (a.caseId == b.caseId && a.engine != b.engine && StringLe(a.engine, b.engine))
    || (a.caseId == b.caseId && a.engine == b.engine && StringLe(a.format, b.format))
  }

  lemma KeyLeIs(a: Key, b: Key)
    ensures KeyLe(a, b) <==> KeyAtMost(a, b)
  {
  }

  lemma KeyLeTotal(a: Key, b: Key)
    ensures KeyLe(a, b) || KeyLe(b, a)
  {
    StringLeTotal(a.caseId, b.caseId);
    StringLeTotal(a.engine, b.engine);
    StringLeTotal(a.format, b.format);
  }

  lemma KeyLeTransitive(a: Key, b: Key, c: Key)
    requires KeyLe(a, b) && KeyLe(b, c)
    ensures KeyLe(a, c)
  {
    Transits(a.caseId, b.caseId, c.caseId);
    Transits(a.engine, b.engine, c.engine);
    Transits(a.format, b.format, c.format);
  }

  lemma {:induction false} Transits(a: string, b: string, c: string)
    ensures StringLe(a, b) && StringLe(b, c) ==> StringLe(a, c) && (a == c ==> a == b)
  {
    if StringLe(a, b) && StringLe(b, c) {
      StringLeTransitive(a, b, c);
      StringLeTotal(a, b);
    }
  }

  lemma RunOrder()
    ensures TotalPreorder(RunLe)
  {
    forall x: Run, y: Run ensures RunLe(x, y) || RunLe(y, x) { KeyLeTotal(x.key, y.key); }
    forall x: Run, y: Run, z: Run | RunLe(x, y) && RunLe(y, z) ensures RunLe(x, z) {
      KeyLeTransitive(x.key, y.key, z.key);
    }
  }

  ghost predicate InKeyOrder(rows: seq<Run>) {
    forall i, j :: 0 <= i < j < |rows| ==> KeyAtMost(rows[i].key, rows[j].key)
  }

  lemma {:induction false} SortedInOrder(rows: seq<Run>)
    ensures InKeyOrder(Sorted(rows, RunLe))
  {
    RunOrder();
    SortedIsSorted(rows, RunLe);
    var sorted := Sorted(rows, RunLe);
    forall i, j | 0 <= i < j < |sorted| ensures KeyAtMost(sorted[i].key, sorted[j].key) {
      assert RunLe(sorted[i], sorted[j]);
      KeyLeIs(sorted[i].key, sorted[j].key);
    }
  }

  lemma {:induction false} KeptInOrder(vs: seq<Verdict>, excluded: multiset<string>, k: nat)
    requires k <= |vs| && InKeyOrder(Runs(vs))
    ensures InKeyOrder(FitnessTable.Kept(vs, excluded, k).rows)
    ensures forall r :: r in FitnessTable.Kept(vs, excluded, k).rows ==> exists i :: 0 <= i < k && Runs(vs)[i] == r
  {
    if k > 0 {
      KeptInOrder(vs, excluded, k - 1);
      var before := FitnessTable.Kept(vs, excluded, k - 1).rows;
      forall j | 0 <= j < |before| ensures KeyAtMost(before[j].key, vs[k - 1].run.key) {
        assert before[j] in before;
        var i :| 0 <= i < k - 1 && Runs(vs)[i] == before[j];
        assert KeyAtMost(Runs(vs)[i].key, Runs(vs)[k - 1].key);
      }
      assert Runs(vs)[k - 1] == vs[k - 1].run;
    }
  }

  lemma {:induction false} FilteredInOrder(rows: seq<Run>, e2e: seq<Run>)
    requires InKeyOrder(rows)
    ensures InKeyOrder(NotSuperseded(rows, e2e))
    ensures forall r :: r in NotSuperseded(rows, e2e) ==> r in rows
  {
    if rows != [] {
      var n := |rows| - 1;
      var front := NotSuperseded(rows[..n], e2e);
      FilteredInOrder(rows[..n], e2e);
      forall j | 0 <= j < |front| ensures front[j] in rows && KeyAtMost(front[j].key, rows[n].key) {
        assert front[j] in front;
        var i :| 0 <= i < n && rows[..n][i] == front[j];
        assert rows[i] == front[j];
      }
    }
  }

  lemma LabInOrder(split: Split, lab: seq<LabResult>)
    ensures InKeyOrder(LabTable(split, lab).rows)
  {
    var latest := LabLatest(lab);
    var sorted := Sorted(latest.rows, RunLe);
    var found := LabRowsOf(latest);
    SortedInOrder(latest.rows);
    assert Runs(RowVerdicts(sorted)) == sorted;
    KeptInOrder(RowVerdicts(sorted), latest.excluded, |sorted|);
    assert Runs(DevVerdicts(split, found.rows)) == found.rows;
    KeptInOrder(DevVerdicts(split, found.rows), found.excluded, |found.rows|);
  }

  /** THE ROWS ARE IN ORDER: the lab's first and then the sweeps', each by case, engine and format. */
  lemma RowsInOrder(split: Split, lab: seq<LabResult>, e2e: seq<E2eResult>) returns (n: nat)
    ensures var rows := Built(split, lab, e2e).rows;
      && n <= |rows| && InKeyOrder(rows[..n]) && InKeyOrder(rows[n..])
      && (forall r :: r in rows[..n] ==> NewestInLab(lab, r))
      && (forall r :: r in rows[n..] ==> NewestInSweeps(split, e2e, r))
  {
    var lrows := LabTable(split, lab);
    var swept := SweepTable(split, e2e, lrows.excluded).rows;
    var rows := Built(split, lab, e2e).rows;
    LabInOrder(split, lab);
    FilteredInOrder(lrows.rows, swept);
    SortedInOrder(swept);
    forall r ensures r in lrows.rows ==> NewestInLab(lab, r) { LabRowIff(split, lab, r); }
    forall r ensures r in Sorted(swept, RunLe) ==> NewestInSweeps(split, e2e, r) {
      SameRows(swept, r);
      SweptIff(split, e2e, lrows.excluded, r);
    }
    if swept == [] {
      n := |rows|;
      assert rows[..n] == lrows.rows;
    } else {
      var kept := NotSuperseded(lrows.rows, swept);
      n := |kept|;
      assert rows[..n] == kept && rows[n..] == Sorted(swept, RunLe);
    }
  }

  // ---- what is said about a result that makes no row --------------------------------------------------------

  /** The reason the table gives for a lab result, if it is the only one. */
  function WhyNot(split: Split, r: LabResult): Option<string> {
    if !r.prefixed then Some("not in --prefix")
    else if !r.inRange then Some("code not in since..base")
    else if !r.counted then Some("status " + r.status)
    else if !r.run.found then Some("case or geometry file not found")
    else if !r.run.measured then Some("geometry could not be measured")
    else WhyNotDev(split, r.run)
  }

  function WhyNotDev(split: Split, r: Run): Option<string> {
    if r.relabelled then Some("hand relabel (re-run the case instead)")
    else if r.neverMeshed then Some("never meshed")
    else if r.digest == "" then Some("input file not found")
    else if r.digest in split && split[r.digest] == "dev" then None
    else if r.digest in split && split[r.digest] == "holdout" then Some("held out (frozen split)")
    else Some("file not in the frozen split")
  }

  function WhyNotSwept(split: Split, r: E2eResult): Option<string> {
    if !r.inRange then Some("e2e code not in since..base")
    else if !r.indexed then Some("e2e case not in --e2e-index")
    else if !r.gate then Some("e2e file not in the clean (gate) tier")
    else if r.variant then Some("e2e format copy (its original counts)")
    else if r.refusal != "" then Some(r.refusal)
    else WhyNotDev(split, r.run)
  }

  lemma DevReason(split: Split, r: Run)
    ensures DevRefusal(split, r) == WhyNotDev(split, r)
  {
    assert |"dev"| == 3 && |"holdout"| == 7;
  }

  /** One result by itself is the table's only row, or is counted out for the first rule that it breaks. */
  function TableOfOne(r: Run, why: Option<string>): Table {
    match why case None => Table([r], multiset{}) case Some(reason) => Table([], multiset{reason})
  }

  lemma {:induction false} KeptOne(v: Verdict, excluded: multiset<string>)
    ensures FitnessTable.Kept([v], excluded, 1)
         == if v.refusal.None? then Table([v.run], excluded) else Table([], excluded + multiset{v.refusal.value})
  {
    assert FitnessTable.Kept([v], excluded, 0) == Table([], excluded);
  }

  lemma {:induction false} LatestOne(v: Verdict, excluded: multiset<string>, older: string)
    ensures Latest([v], excluded, older, 1)
         == if v.refusal.None? then Table([v.run], excluded) else Table([], excluded + multiset{v.refusal.value})
  {
    assert Latest([v], excluded, older, 0) == Table([], excluded);
    assert Find([], v.run.key) == 0;
  }

  lemma {:induction false} SortedOne(rows: seq<Run>)
    requires |rows| <= 1
    ensures Sorted(rows, RunLe) == rows
  {
    RunOrder();
    SortedIsSorted(rows, RunLe);
    assert |Sorted(rows, RunLe)| == |multiset(Sorted(rows, RunLe))| == |multiset(rows)| == |rows|;
    forall r ensures r in Sorted(rows, RunLe) <==> r in rows { SameRows(rows, r); }
    if |rows| == 1 { assert rows[0] in rows && Sorted(rows, RunLe)[0] in Sorted(rows, RunLe); }
  }

  /** The table after one more rule. */
  function Ruled(t: Table, why: Option<string>): Table
    requires |t.rows| == 1
  {
    if why.None? then t else Table([], t.excluded + multiset{why.value})
  }

  lemma LabLatestOfOne(r: LabResult)
    ensures LabLatest([r]) == Ruled(Table([r.run], multiset{}), LabRefusal(r))
  {
    assert LabVerdicts([r]) == [Verdict(LabRefusal(r), r.run)];
    LatestOne(Verdict(LabRefusal(r), r.run), multiset{}, "older duplicate");
  }

  lemma LabRowsOfOne(r: Run, excluded: multiset<string>)
    ensures LabRowsOf(Table([r], excluded)) == Ruled(Table([r], excluded), RowRefusal(r))
    ensures LabRowsOf(Table([], excluded)) == Table([], excluded)
  {
    SortedOne([r]);
    SortedOne([]);
    assert RowVerdicts([r]) == [Verdict(RowRefusal(r), r)];
    KeptOne(Verdict(RowRefusal(r), r), excluded);
  }

  lemma DevRowsOfOne(split: Split, r: Run, excluded: multiset<string>)
    ensures DevRowsOf(split, Table([r], excluded)) == Ruled(Table([r], excluded), DevRefusal(split, r))
    ensures DevRowsOf(split, Table([], excluded)) == Table([], excluded)
  {
    assert DevVerdicts(split, [r]) == [Verdict(DevRefusal(split, r), r)];
    KeptOne(Verdict(DevRefusal(split, r), r), excluded);
  }

  lemma WhyNotIs(split: Split, r: LabResult)
    ensures WhyNot(split, r) == if LabRefusal(r).Some? then LabRefusal(r)
                                else if RowRefusal(r.run).Some? then RowRefusal(r.run) else DevRefusal(split, r.run)
  {
    DevReason(split, r.run);
  }

  lemma LabOfOne(split: Split, r: LabResult)
    ensures LabTable(split, [r]) == TableOfOne(r.run, WhyNot(split, r))
  {
    WhyNotIs(split, r);
    LabLatestOfOne(r);
    LabRowsOfOne(r.run, LabLatest([r]).excluded);
    DevRowsOfOne(split, r.run, LabRowsOf(LabLatest([r])).excluded);
  }

  /** WHY A RESULT MAKES NO ROW. */
  lemma OneLabResult(split: Split, r: LabResult)
    ensures Built(split, [r], []) == TableOfOne(r.run, WhyNot(split, r))
  {
    LabOfOne(split, r);
  }

  lemma WhyNotSweptIs(split: Split, r: E2eResult)
    ensures WhyNotSwept(split, r) == E2eRefusal(split, r)
  {
    DevReason(split, r.run);
  }

  lemma SweepOfOne(split: Split, r: E2eResult, why: Option<string>)
    requires why == E2eRefusal(split, r)
    ensures SweepTable(split, [r], multiset{}) == TableOfOne(r.run, why)
  {
    assert E2eVerdicts(split, [r]) == [Verdict(why, r.run)];
    LatestOne(Verdict(why, r.run), multiset{}, "e2e older duplicate");
  }

  lemma NoLabRows(split: Split)
    ensures LabTable(split, []) == Table([], multiset{})
  {
    SortedOne([]);
  }

  lemma OneSweepResult(split: Split, r: E2eResult)
    ensures Built(split, [], [r]) == TableOfOne(r.run, WhyNotSwept(split, r))
  {
    NoLabRows(split);
    WhyNotSweptIs(split, r);
    SweepOfOne(split, r, WhyNotSwept(split, r));
    SortedOne([r.run]);
  }

  // ---- two results of one case ------------------------------------------------------------------------------

  lemma {:induction false} LatestTwo(v: Verdict, w: Verdict, older: string)
    requires v.refusal.None? && w.refusal.None? && v.run.key == w.run.key
    ensures Latest([v, w], multiset{}, older, 2)
         == Table([if w.run.mtime > v.run.mtime then w.run else v.run], multiset{older})
  {
    assert Latest([v, w], multiset{}, older, 0) == Table([], multiset{});
    assert Find([], v.run.key) == 0 && Find([v.run], w.run.key) == 0;
    assert Latest([v, w], multiset{}, older, 1) == Table([v.run], multiset{});
  }

  /** Of two lab results for one case, engine and format the newer makes the row, and the other is counted as its older
      duplicate; a tie goes to the first. */
  lemma TwoLabResults(split: Split, a: LabResult, b: LabResult)
    requires WhyNot(split, a).None? && WhyNot(split, b).None? && a.run.key == b.run.key
    ensures Built(split, [a, b], [])
         == Table([if b.run.mtime > a.run.mtime then b.run else a.run], multiset{"older duplicate"})
  {
    WhyNotIs(split, a);
    WhyNotIs(split, b);
    var kept := if b.run.mtime > a.run.mtime then b.run else a.run;
    assert LabVerdicts([a, b]) == [Verdict(None, a.run), Verdict(None, b.run)];
    LatestTwo(Verdict(None, a.run), Verdict(None, b.run), "older duplicate");
    LabRowsOfOne(kept, multiset{"older duplicate"});
    DevRowsOfOne(split, kept, multiset{"older duplicate"});
  }

  lemma Replaced(r: Run, e: Run)
    requires SameShape(r, e)
    ensures Merged(Table([r], multiset{}), [e]) == Table([e], multiset{"lab run superseded by an e2e run"})
  {
    SortedOne([e]);
    assert e in [e] && Superseded(r, [e]);
    assert [r][..0] == [] && NotSuperseded([], [e]) == [];
    assert NotSuperseded([r], [e]) == [];
  }

  /** A sweep's row for the same geometry replaces the lab's, which is counted as superseded. */
  lemma SweepReplacesLab(split: Split, a: LabResult, b: E2eResult)
    requires WhyNot(split, a).None? && WhyNotSwept(split, b).None?
    requires a.run.key.engine == b.run.key.engine && a.run.key.format == b.run.key.format
    requires ShapeOf(a.run.key.caseId) == ShapeOf(b.run.key.caseId)
    ensures Built(split, [a], [b]) == Table([b.run], multiset{"lab run superseded by an e2e run"})
  {
    LabOfOne(split, a);
    WhyNotSweptIs(split, b);
    SweepOfOne(split, b, None);
    Replaced(a.run, b.run);
  }
}
