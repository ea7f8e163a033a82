/** The engine-fitness table built from a lab's results and end-to-end sweeps: where every result read
    ends up (devtools/fitness/build_engine_fitness.py). An exclusion counter is the multiset of the
    reasons counted. */
module FitnessTable {
  import opened Wrappers
  import opened Sorting
  import opened ShapeId

  datatype Key = Key(caseId: string, engine: string, format: string)

  /** A result as the rules see it. `digest` is the sha256 of its input file; `found` and `measured` say
      whether a lab result's case and file are there and whether its geometry could be measured. */
  datatype Run = Run(key: Key, mtime: int, relabelled: bool, neverMeshed: bool, digest: string,
                     found: bool, measured: bool)

  datatype LabResult = LabResult(run: Run, prefixed: bool, inRange: bool, counted: bool, status: string)

  /** `refusal` is why the result makes no row, empty if it makes one. */
  datatype E2eResult = E2eResult(run: Run, inRange: bool, indexed: bool, gate: bool, variant: bool, refusal: string)

  /** The side of the frozen split that each file's digest is on. */
  type Split = map<string, string>

  datatype Table = Table(rows: seq<Run>, excluded: multiset<string>)

  function SideOf(split: Split, digest: string): string { if digest in split then split[digest] else "" }

  /** Why the dev-side rule drops a row, if it does. */
  function DevRefusal(split: Split, r: Run): Option<string> {
    if r.relabelled then Some("hand relabel (re-run the case instead)")
    else if r.neverMeshed then Some("never meshed")
    else if r.digest == "" then Some("input file not found")
    else if SideOf(split, r.digest) == "holdout" then Some("held out (frozen split)")
    else if SideOf(split, r.digest) != "dev" then Some("file not in the frozen split")
    else None
  }

  function LabRefusal(r: LabResult): Option<string> {
    if !r.prefixed then Some("not in --prefix")
    else if !r.inRange then Some("code not in since..base")
    else if !r.counted then Some("status " + r.status)
    else None
  }

  function RowRefusal(r: Run): Option<string> {
    if !r.found then Some("case or geometry file not found")
    else if !r.measured then Some("geometry could not be measured")
    else None
  }

  function E2eRefusal(split: Split, r: E2eResult): Option<string> {
    if !r.inRange then Some("e2e code not in since..base")
    else if !r.indexed then Some("e2e case not in --e2e-index")
    else if !r.gate then Some("e2e file not in the clean (gate) tier")
    else if r.variant then Some("e2e format copy (its original counts)")
    else if r.refusal != "" then Some(r.refusal)
    else DevRefusal(split, r.run)
  }

  // ---- the newest result per key ------------------------------------------------------------------------

  function Find(latest: seq<Run>, key: Key): (i: nat)
    ensures i <= |latest|
    ensures i < |latest| ==> latest[i].key == key
    ensures i == |latest| ==> forall j :: 0 <= j < |latest| ==> latest[j].key != key
  {
    if latest == [] then 0
    else
      var n := |latest| - 1;
      var i := Find(latest[..n], key);
      if i < n then i else if latest[n].key == key then n else n + 1
  }

  /** The dictionary after a result: the newer of two with one key stays, the other is counted. */
  function Newest(t: Table, r: Run, older: string): Table {
    var i := Find(t.rows, r.key);
    if i == |t.rows| then Table(t.rows + [r], t.excluded)
    else Table(if r.mtime > t.rows[i].mtime then t.rows[i := r] else t.rows, t.excluded + multiset{older})
  }

  /** A result and why the rules leave it out, if they do. */
  datatype Verdict = Verdict(refusal: Option<string>, run: Run)

  function LabVerdicts(lab: seq<LabResult>): (r: seq<Verdict>)
    ensures |r| == |lab| && forall i :: 0 <= i < |r| ==> r[i] == Verdict(LabRefusal(lab[i]), lab[i].run)
  {
    seq(|lab|, i requires 0 <= i < |lab| => Verdict(LabRefusal(lab[i]), lab[i].run))
  }

  function E2eVerdicts(split: Split, e2e: seq<E2eResult>): (r: seq<Verdict>)
    ensures |r| == |e2e| && forall i :: 0 <= i < |r| ==> r[i] == Verdict(E2eRefusal(split, e2e[i]), e2e[i].run)
  {
    seq(|e2e|, i requires 0 <= i < |e2e| => Verdict(E2eRefusal(split, e2e[i]), e2e[i].run))
  }

  function RowVerdicts(rows: seq<Run>): (r: seq<Verdict>)
    ensures |r| == |rows| && forall i :: 0 <= i < |r| ==> r[i] == Verdict(RowRefusal(rows[i]), rows[i])
  {
    seq(|rows|, i requires 0 <= i < |rows| => Verdict(RowRefusal(rows[i]), rows[i]))
  }

  function DevVerdicts(split: Split, rows: seq<Run>): (r: seq<Verdict>)
    ensures |r| == |rows| && forall i :: 0 <= i < |r| ==> r[i] == Verdict(DevRefusal(split, rows[i]), rows[i])
  {
    seq(|rows|, i requires 0 <= i < |rows| => Verdict(DevRefusal(split, rows[i]), rows[i]))
  }

  /** The dictionary and the counts after the first `k` results. */
  function Latest(vs: seq<Verdict>, excluded: multiset<string>, older: string, k: nat): Table
    requires k <= |vs|
  {
    if k == 0 then Table([], excluded)
    else
      var t := Latest(vs, excluded, older, k - 1);
      if vs[k - 1].refusal.Some? then Table(t.rows, t.excluded + multiset{vs[k - 1].refusal.value})
      else Newest(t, vs[k - 1].run, older)
  }

  /** The rows kept of the first `k`, and the counts of those that are not. */
  function Kept(vs: seq<Verdict>, excluded: multiset<string>, k: nat): Table
    requires k <= |vs|
  {
    if k == 0 then Table([], excluded)
    else
      var t := Kept(vs, excluded, k - 1);
      if vs[k - 1].refusal.Some? then Table(t.rows, t.excluded + multiset{vs[k - 1].refusal.value})
      else Table(t.rows + [vs[k - 1].run], t.excluded)
  }

  predicate KeyLe(a: Key, b: Key) {
    if a.caseId != b.caseId then StringLe(a.caseId, b.caseId)
    else if a.engine != b.engine then StringLe(a.engine, b.engine)
    else StringLe(a.format, b.format)
  }

  predicate RunLe(a: Run, b: Run) { KeyLe(a.key, b.key) }

  /** Of the same shape, engine and format. */
  predicate SameShape(a: Run, b: Run) {
    && ShapeOf(a.key.caseId) == ShapeOf(b.key.caseId)
    && a.key.engine == b.key.engine && a.key.format == b.key.format
  }

  predicate Superseded(r: Run, e2e: seq<Run>) { exists e :: e in e2e && SameShape(r, e) }

  function NotSuperseded(rows: seq<Run>, e2e: seq<Run>): (r: seq<Run>)
    ensures |r| <= |rows|
  {
    if rows == [] then []
    else
      var n := |rows| - 1;
      NotSuperseded(rows[..n], e2e) + if Superseded(rows[n], e2e) then [] else [rows[n]]
  }

  function Merged(lab: Table, e2e: seq<Run>): Table {
    if e2e == [] then lab
    else
      var kept := NotSuperseded(lab.rows, e2e);
      Table(kept + Sorted(e2e, RunLe),
            lab.excluded + multiset{}["lab run superseded by an e2e run" := |lab.rows| - |kept|])
  }

  function LabLatest(lab: seq<LabResult>): Table { Latest(LabVerdicts(lab), multiset{}, "older duplicate", |lab|) }

  function LabRowsOf(latest: Table): Table {
    Kept(RowVerdicts(Sorted(latest.rows, RunLe)), latest.excluded, |latest.rows|)
  }

  function DevRowsOf(split: Split, t: Table): Table { Kept(DevVerdicts(split, t.rows), t.excluded, |t.rows|) }

  function LabTable(split: Split, lab: seq<LabResult>): Table { DevRowsOf(split, LabRowsOf(LabLatest(lab))) }

  function SweepTable(split: Split, e2e: seq<E2eResult>, excluded: multiset<string>): Table {
    Latest(E2eVerdicts(split, e2e), excluded, "e2e older duplicate", |e2e|)
  }

  function Built(split: Split, lab: seq<LabResult>, e2e: seq<E2eResult>): Table {
    var rows := LabTable(split, lab);
    var sweep := SweepTable(split, e2e, rows.excluded);
    Merged(Table(rows.rows, sweep.excluded), sweep.rows)
  }

  // ---- the program ------------------------------------------------------------------------------------------

  method KeepNewest(latest: seq<Run>, excluded: multiset<string>, r: Run, older: string)
    returns (rows: seq<Run>, counted: multiset<string>)
    ensures Table(rows, counted) == Newest(Table(latest, excluded), r, older)
  {
    rows, counted := latest, excluded;
    var i := Find(rows, r.key);
    if i == |rows| {
      rows := rows + [r];
    } else {
      counted := counted + multiset{older};
      if r.mtime > rows[i].mtime {
        rows := rows[i := r];
      }
    }
  }

  method LatestLab(lab: seq<LabResult>) returns (latest: seq<Run>, excluded: multiset<string>)
    ensures Table(latest, excluded) == LabLatest(lab)
  {
    latest, excluded := [], multiset{};
    for k := 0 to |lab|
      invariant Table(latest, excluded) == Latest(LabVerdicts(lab), multiset{}, "older duplicate", k)
    {
      var why := LabRefusal(lab[k]);
      if why.Some? {
        excluded := excluded + multiset{why.value};
      } else {
        latest, excluded := KeepNewest(latest, excluded, lab[k].run, "older duplicate");
      }
    }
  }

  method LabRows(latest: seq<Run>, excluded: multiset<string>) returns (rows: seq<Run>, counted: multiset<string>)
    ensures Table(rows, counted) == LabRowsOf(Table(latest, excluded))
  {
    var sorted := Sorted(latest, RunLe);
    rows, counted := [], excluded;
    for k := 0 to |sorted|
      invariant Table(rows, counted) == Kept(RowVerdicts(sorted), excluded, k)
    {
      var why := RowRefusal(sorted[k]);
      if why.Some? {
        counted := counted + multiset{why.value};
      } else {
        rows := rows + [sorted[k]];
      }
    }
  }

  method KeepDevRows(split: Split, rows: seq<Run>, excluded: multiset<string>)
    returns (kept: seq<Run>, counted: multiset<string>)
    ensures Table(kept, counted) == DevRowsOf(split, Table(rows, excluded))
  {
    kept, counted := [], excluded;
    for k := 0 to |rows|
      invariant Table(kept, counted) == Kept(DevVerdicts(split, rows), excluded, k)
    {
      var why := DevRefusal(split, rows[k]);
      if why.Some? {
        counted := counted + multiset{why.value};
      } else {
        kept := kept + [rows[k]];
      }
    }
  }

  method E2eRows(split: Split, e2e: seq<E2eResult>, excluded: multiset<string>)
    returns (latest: seq<Run>, counted: multiset<string>)
    ensures Table(latest, counted) == SweepTable(split, e2e, excluded)
  {
    latest, counted := [], excluded;
    for k := 0 to |e2e|
      invariant Table(latest, counted) == Latest(E2eVerdicts(split, e2e), excluded, "e2e older duplicate", k)
    {
      var why := E2eRefusal(split, e2e[k]);
      if why.Some? {
        counted := counted + multiset{why.value};
      } else {
        latest, counted := KeepNewest(latest, counted, e2e[k].run, "e2e older duplicate");
      }
    }
  }

  /** The build; `None` is the refusal to write a table with a row that is not on the dev side. */
  method Build(split: Split, lab: seq<LabResult>, e2e: seq<E2eResult>) returns (table: Option<Table>)
    ensures table == Some(Built(split, lab, e2e))
  {
    var rows, excluded := LatestLab(lab);
    rows, excluded := LabRows(rows, excluded);
    rows, excluded := KeepDevRows(split, rows, excluded);
    var latest;
    latest, excluded := E2eRows(split, e2e, excluded);
    var merged := Merged(Table(rows, excluded), latest);
    BuiltOnDevSide(split, lab, e2e);
    if exists r :: r in merged.rows && SideOf(split, r.digest) != "dev" {
      return None;
    }
    return Some(merged);
  }

  // ---- nothing is lost ------------------------------------------------------------------------------------------

  function Total(t: Table): nat { |t.rows| + |t.excluded| }

  lemma {:induction false} LatestConserves(vs: seq<Verdict>, excluded: multiset<string>, older: string, k: nat)
    requires k <= |vs|
    ensures Total(Latest(vs, excluded, older, k)) == k + |excluded|
  {
    if k > 0 { LatestConserves(vs, excluded, older, k - 1); }
  }

  lemma {:induction false} KeptConserves(vs: seq<Verdict>, excluded: multiset<string>, k: nat)
    requires k <= |vs|
    ensures Total(Kept(vs, excluded, k)) == k + |excluded|
  {
    if k > 0 { KeptConserves(vs, excluded, k - 1); }
  }

  lemma CountOf(reason: string, n: nat)
    ensures |multiset{}[reason := n]| == n
  {
  }

  lemma MergeConserves(lab: Table, e2e: seq<Run>)
    ensures Total(Merged(lab, e2e)) == Total(lab) + |e2e|
  {
    CountOf("lab run superseded by an e2e run", |lab.rows| - |NotSuperseded(lab.rows, e2e)|);
  }

  /** CONSERVATION. The rows of the table and the exclusions together are the results that were read. */
  lemma EvidenceIsConserved(split: Split, lab: seq<LabResult>, e2e: seq<E2eResult>)
    ensures Total(Built(split, lab, e2e)) == |lab| + |e2e|
  {
    var latest := LabLatest(lab);
    LatestConserves(LabVerdicts(lab), multiset{}, "older duplicate", |lab|);
    KeptConserves(RowVerdicts(Sorted(latest.rows, RunLe)), latest.excluded, |latest.rows|);
    var found := LabRowsOf(latest);
    KeptConserves(DevVerdicts(split, found.rows), found.excluded, |found.rows|);
    var rows := LabTable(split, lab);
    LatestConserves(E2eVerdicts(split, e2e), rows.excluded, "e2e older duplicate", |e2e|);
    var sweep := SweepTable(split, e2e, rows.excluded);
    MergeConserves(Table(rows.rows, sweep.excluded), sweep.rows);
  }

  // ---- one row per key, the newest ---------------------------------------------------------------------------------

  function RunKey(r: Run): Key { r.key }

  ghost predicate OnePerKey(rows: seq<Run>) { KeyedOnce(rows, RunKey) }

  lemma NewestKeepsOnePerKey(t: Table, r: Run, older: string)
    requires OnePerKey(t.rows)
    ensures OnePerKey(Newest(t, r, older).rows)
  {
  }

  /** `r` is the newest of the first `k` results that the rules accept under its key. */
  ghost predicate NewestOf(vs: seq<Verdict>, k: nat, r: Run)
    requires k <= |vs|
  {
    && (exists i :: 0 <= i < k && vs[i].refusal.None? && vs[i].run == r)
    && (forall i :: 0 <= i < k && vs[i].refusal.None? && vs[i].run.key == r.key ==> vs[i].run.mtime <= r.mtime)
  }

  /** The dictionary holds one row per key, the newest, and a row for every key it has seen. */
  ghost predicate HoldsNewest(vs: seq<Verdict>, k: nat, rows: seq<Run>)
    requires k <= |vs|
  {
    && OnePerKey(rows)
    && (forall j :: 0 <= j < |rows| ==> NewestOf(vs, k, rows[j]))
    && (forall i :: 0 <= i < k && vs[i].refusal.None? ==> Find(rows, vs[i].run.key) < |rows|)
  }

  lemma {:induction false} LatestIsNewest(vs: seq<Verdict>, excluded: multiset<string>, older: string, k: nat)
    requires k <= |vs|
    ensures HoldsNewest(vs, k, Latest(vs, excluded, older, k).rows)
  {
    if k > 0 {
      LatestIsNewest(vs, excluded, older, k - 1);
      var t := Latest(vs, excluded, older, k - 1);
      if vs[k - 1].refusal.None? {
        OneNewer(vs, k, t, older);
      } else {
        OneRefused(vs, k, t.rows);
      }
    }
  }

  lemma OneRefused(vs: seq<Verdict>, k: nat, rows: seq<Run>)
    requires 0 < k <= |vs| && HoldsNewest(vs, k - 1, rows) && vs[k - 1].refusal.Some?
    ensures HoldsNewest(vs, k, rows)
  {
    forall j | 0 <= j < |rows| ensures NewestOf(vs, k, rows[j]) {
      assert NewestOf(vs, k - 1, rows[j]);
    }
  }

  lemma OneNewer(vs: seq<Verdict>, k: nat, t: Table, older: string)
    requires 0 < k <= |vs| && HoldsNewest(vs, k - 1, t.rows) && vs[k - 1].refusal.None?
    ensures HoldsNewest(vs, k, Newest(t, vs[k - 1].run, older).rows)
  {
    var r := vs[k - 1].run;
    var after := Newest(t, r, older).rows;
    NewestKeepsOnePerKey(t, r, older);
    forall j | 0 <= j < |after| ensures NewestOf(vs, k, after[j]) {
      RowStaysNewest(vs, k, t, older, j);
    }
    forall x | 0 <= x < k && vs[x].refusal.None? ensures Find(after, vs[x].run.key) < |after| {
      StillFound(t.rows, after, vs[x].run.key, r);
    }
  }

  lemma RowStaysNewest(vs: seq<Verdict>, k: nat, t: Table, older: string, j: nat)
    requires 0 < k <= |vs| && HoldsNewest(vs, k - 1, t.rows) && vs[k - 1].refusal.None?
    requires j < |Newest(t, vs[k - 1].run, older).rows|
    ensures NewestOf(vs, k, Newest(t, vs[k - 1].run, older).rows[j])
  {
    var r := vs[k - 1].run;
    var i := Find(t.rows, r.key);
    if i < |t.rows| { assert NewestOf(vs, k - 1, t.rows[i]); }
    if j < |t.rows| { assert NewestOf(vs, k - 1, t.rows[j]); }
  }

  lemma {:induction false} StillFound(rows: seq<Run>, after: seq<Run>, key: Key, r: Run)
    requires after == Newest(Table(rows, multiset{}), r, "").rows && (Find(rows, key) < |rows| || key == r.key)
    ensures Find(after, key) < |after|
  {
    var i, j := Find(rows, r.key), Find(rows, key);
    if key == r.key {
      assert after[i].key == key;
    } else {
      assert after[j].key == key;
    }
  }

  // ---- the rows kept ---------------------------------------------------------------------------------------------

  /** `part` holds rows of `rows` only, and no key twice if `rows` has none. */
  ghost predicate PartOf(part: seq<Run>, rows: seq<Run>) {
    && (forall r :: r in part ==> r in rows)
    && (OnePerKey(rows) ==> OnePerKey(part))
  }

  lemma PartGrows(part: seq<Run>, rows: seq<Run>, r: Run)
    requires PartOf(part, rows)
    ensures PartOf(part, rows + [r]) && PartOf(part + [r], rows + [r])
  {
    if OnePerKey(rows + [r]) {
      assert (rows + [r])[..|rows|] == rows;
      forall x | x in part ensures x.key != r.key {
        var i :| 0 <= i < |rows| && rows[i] == x;
        assert RunKey((rows + [r])[i]) != RunKey((rows + [r])[|rows|]);
      }
      assert OnePerKey(rows) by {
        forall i, j | 0 <= i < j < |rows| ensures RunKey(rows[i]) != RunKey(rows[j]) {
          assert RunKey((rows + [r])[i]) != RunKey((rows + [r])[j]);
        }
      }
    }
  }

  function Runs(vs: seq<Verdict>): (r: seq<Run>)
    ensures |r| == |vs| && forall i :: 0 <= i < |r| ==> r[i] == vs[i].run
  {
    seq(|vs|, i requires 0 <= i < |vs| => vs[i].run)
  }

  lemma {:induction false} KeptIsPart(vs: seq<Verdict>, excluded: multiset<string>, k: nat)
    requires k <= |vs|
    ensures PartOf(Kept(vs, excluded, k).rows, Runs(vs)[..k])
    ensures forall r :: r in Kept(vs, excluded, k).rows ==> exists i :: 0 <= i < k && vs[i] == Verdict(None, r)
  {
    if k > 0 {
      KeptIsPart(vs, excluded, k - 1);
      assert Runs(vs)[..k] == Runs(vs)[..k - 1] + [vs[k - 1].run];
      PartGrows(Kept(vs, excluded, k - 1).rows, Runs(vs)[..k - 1], vs[k - 1].run);
    }
  }

  lemma {:induction false} NotSupersededIsPart(rows: seq<Run>, e2e: seq<Run>)
    ensures PartOf(NotSuperseded(rows, e2e), rows)
    ensures forall r :: r in NotSuperseded(rows, e2e) ==> !Superseded(r, e2e)
  {
    if rows != [] {
      var n := |rows| - 1;
      NotSupersededIsPart(rows[..n], e2e);
      assert rows == rows[..n] + [rows[n]];
      PartGrows(NotSuperseded(rows[..n], e2e), rows[..n], rows[n]);
    }
  }

  lemma {:induction false} SortedIsPart(rows: seq<Run>)
    ensures PartOf(Sorted(rows, RunLe), rows)
  {
    forall r | r in Sorted(rows, RunLe) ensures r in rows { assert r in multiset(Sorted(rows, RunLe)); }
    if OnePerKey(rows) { KeyedOnceForgetsOrder(rows, Sorted(rows, RunLe), RunKey); }
  }

  lemma PartOfPart(a: seq<Run>, b: seq<Run>, c: seq<Run>)
    requires PartOf(a, b) && PartOf(b, c)
    ensures PartOf(a, c)
  {
  }

  ghost predicate NewestLab(lab: seq<LabResult>, r: Run) { NewestOf(LabVerdicts(lab), |lab|, r) }

  ghost predicate NewestE2e(split: Split, e2e: seq<E2eResult>, r: Run) { NewestOf(E2eVerdicts(split, e2e), |e2e|, r) }

  lemma LabRowsArePart(t: Table)
    ensures PartOf(LabRowsOf(t).rows, t.rows)
  {
    var sorted := Sorted(t.rows, RunLe);
    SortedIsPart(t.rows);
    KeptIsPart(RowVerdicts(sorted), t.excluded, |sorted|);
    assert Runs(RowVerdicts(sorted))[..|sorted|] == sorted;
    PartOfPart(LabRowsOf(t).rows, sorted, t.rows);
  }

  lemma DevRowsArePart(split: Split, t: Table)
    ensures PartOf(DevRowsOf(split, t).rows, t.rows)
    ensures forall r :: r in DevRowsOf(split, t).rows ==> DevRefusal(split, r).None?
  {
    KeptIsPart(DevVerdicts(split, t.rows), t.excluded, |t.rows|);
    assert Runs(DevVerdicts(split, t.rows))[..|t.rows|] == t.rows;
  }

  /** The lab's rows: one per key, each the newest result the lab's rules accept, on the dev side. */
  lemma LabTableRows(split: Split, lab: seq<LabResult>)
    ensures OnePerKey(LabTable(split, lab).rows)
    ensures forall r :: r in LabTable(split, lab).rows ==> DevRefusal(split, r).None? && NewestLab(lab, r)
  {
    var latest := LabLatest(lab);
    LatestIsNewest(LabVerdicts(lab), multiset{}, "older duplicate", |lab|);
    LabRowsArePart(latest);
    DevRowsArePart(split, LabRowsOf(latest));
    PartOfPart(LabTable(split, lab).rows, LabRowsOf(latest).rows, latest.rows);
    forall r | r in LabTable(split, lab).rows ensures NewestLab(lab, r) {
      var j :| 0 <= j < |latest.rows| && latest.rows[j] == r;
    }
  }

  ghost predicate IsNewest(split: Split, lab: seq<LabResult>, e2e: seq<E2eResult>, r: Run) {
    NewestLab(lab, r) || NewestE2e(split, e2e, r)
  }

  lemma KeptAndSwept(kept: seq<Run>, swept: seq<Run>)
    requires OnePerKey(kept) && OnePerKey(swept) && forall r, e :: r in kept && e in swept ==> r.key != e.key
    ensures OnePerKey(kept + swept)
  {
    var all := kept + swept;
    forall i, j | 0 <= i < j < |all| ensures RunKey(all[i]) != RunKey(all[j]) {
      if j < |kept| { assert RunKey(kept[i]) != RunKey(kept[j]); }
      else if i >= |kept| { assert RunKey(swept[i - |kept|]) != RunKey(swept[j - |kept|]); }
      else { assert kept[i] in kept && swept[j - |kept|] in swept; }
    }
  }

  lemma SweptRows(split: Split, e2e: seq<E2eResult>, excluded: multiset<string>)
    ensures var swept := SweepTable(split, e2e, excluded).rows;
      OnePerKey(swept) && forall r :: r in swept ==> DevRefusal(split, r).None? && NewestE2e(split, e2e, r)
  {
    LatestIsNewest(E2eVerdicts(split, e2e), excluded, "e2e older duplicate", |e2e|);
    var swept := SweepTable(split, e2e, excluded).rows;
    forall r | r in swept ensures DevRefusal(split, r).None? && NewestE2e(split, e2e, r) {
      var j :| 0 <= j < |swept| && swept[j] == r;
      AcceptedIsDev(split, e2e, r);
    }
  }

  lemma AcceptedIsDev(split: Split, e2e: seq<E2eResult>, r: Run)
    requires NewestE2e(split, e2e, r)
    ensures DevRefusal(split, r).None?
  {
  }

  /** A lab row that no sweep supersedes shares no key with a sweep's row. */
  lemma KeysApart(swept: seq<Run>, r: Run, e: Run)
    requires e in swept && !Superseded(r, swept)
    ensures r.key != e.key
  {
    assert !SameShape(r, e);
  }

  /** ONE ROW, THE NEWEST, ON THE DEV SIDE. Each case, engine and format has at most one row; it is the
      newest result of its source that the rules accept; and its file is on the dev side. */
  lemma EachRowIsNewest(split: Split, lab: seq<LabResult>, e2e: seq<E2eResult>)
    ensures OnePerKey(Built(split, lab, e2e).rows)
    ensures forall r :: r in Built(split, lab, e2e).rows ==> DevRefusal(split, r).None? && IsNewest(split, lab, e2e, r)
  {
    var rows := LabTable(split, lab);
    var swept := SweepTable(split, e2e, rows.excluded).rows;
    LabTableRows(split, lab);
    SweptRows(split, e2e, rows.excluded);
    if swept != [] {
      NotSupersededIsPart(rows.rows, swept);
      SortedIsPart(swept);
      var kept := NotSuperseded(rows.rows, swept);
      forall r, e | r in kept && e in Sorted(swept, RunLe) ensures r.key != e.key {
        KeysApart(swept, r, e);
      }
      KeptAndSwept(kept, Sorted(swept, RunLe));
    }
  }

  /** So the last check before the table is written never fires. */
  lemma BuiltOnDevSide(split: Split, lab: seq<LabResult>, e2e: seq<E2eResult>)
    ensures forall r :: r in Built(split, lab, e2e).rows ==> SideOf(split, r.digest) == "dev"
  {
    var rows := LabTable(split, lab);
    var swept := SweepTable(split, e2e, rows.excluded).rows;
    LabTableRows(split, lab);
    SweptRows(split, e2e, rows.excluded);
    NotSupersededIsPart(rows.rows, swept);
    SortedIsPart(swept);
    forall r | r in Built(split, lab, e2e).rows ensures SideOf(split, r.digest) == "dev" {
      assert r in rows.rows || r in swept;
      OnDevSide(split, r);
    }
  }

  lemma OnDevSide(split: Split, r: Run)
    requires DevRefusal(split, r).None?
    ensures SideOf(split, r.digest) == "dev"
  {
  }
}
