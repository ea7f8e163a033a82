/** Several workers delivering one job's artifacts while its owner cancels it or another execution
    takes it over: the retry loop and the fenced commit
    (src/meshpipeline/application/artifact_uploader.py, execution_fence.py, persistence/lease.py). */
module Delivery {
  import opened Wrappers
  import opened Artifacts

  const ATTEMPTS: nat := 3

  /** An execution's hold on the job: its generation and the token installed for it. */
  datatype Claim = Claim(generation: nat, token: nat)

  /** Where a worker is. `Fenced` lost its claim; `GaveUp` ran out of attempts; `Dead` crashed. */
  datatype Phase = Idle | Uploading(done: nat) | ReadyToFence | Locked | Finished | Fenced | GaveUp | Dead

  /** `tries` counts the failed passes of the loop; `pending` are the rows of its open transaction. */
  datatype Worker = Worker(claim: Claim, attempt: nat, tries: nat, phase: Phase, plan: seq<Planned>,
                           pending: map<string, Row>, report: Report)

  /** Which pass of which worker's loop committed a row, and whether an exception followed the commit. */
  datatype Writer = Writer(worker: nat, pass: nat, raised: bool)

  /** `lock` is the job row's lock, `owner` the claim the row names, `ended` its terminal status;
      `origin` is the history of the visible rows that were committed since the start. */
  datatype System = System(rows: map<string, Row>, origin: map<string, Writer>, store: map<string, Obj>,
                           records: set<Orphan>, owner: Option<Claim>, generation: nat, ended: bool,
                           lock: Option<nat>, workers: seq<Worker>)

  /** How a commit ends: it lands, it fails and rolls back, or it lands and an exception follows it,
      before or after the report's orphans have been recorded. */
  datatype Ending = Lands | Fails | Raises(recorded: bool)

  datatype Action =
    | Take(token: nat, sameExecution: bool, attempt: nat)
    | Cancel
    | Begin(w: nat, plan: seq<Planned>)
    | Work(w: nat, weather: Weather)
    | Fence(w: nat)
    | Commit(w: nat, how: Ending)
    | Crash(w: nat)

  function CurrencyAt(w: Worker): Currency { Currency(w.claim.generation, w.attempt) }

  function AsSet(os: seq<Orphan>): set<Orphan> { set o | o in os }

  function With(s: System, i: nat, w: Worker): System
    requires i < |s.workers|
  {
    s.(workers := s.workers[i := w])
  }

  function Released(s: System, i: nat): System { if s.lock == Some(i) then s.(lock := None) else s }

  /** The transaction rolls back, the orphans the exception names are recorded, and the loop goes round
      again or gives up. */
  function TryFails(s: System, i: nat, orphans: seq<Orphan>): System
    requires i < |s.workers|
  {
    var w := s.workers[i];
    var failed := w.(pending := map[], tries := w.tries + 1, phase := if w.tries + 1 < ATTEMPTS then Idle else GaveUp);
    Released(With(s, i, failed), i).(records := s.records + AsSet(orphans))
  }

  function Began(s: System, i: nat, plan: seq<Planned>): System
    requires i < |s.workers|
  {
    if s.workers[i].phase != Idle then s
    else
      var t := With(s, i, s.workers[i].(plan := plan, report := EMPTY, phase := Uploading(0)));
      if PromisesSomething(plan) then t else TryFails(t, i, [])
  }

  /** What worker `i`'s transaction sees: the committed rows under its own. */
  function View(s: System, i: nat): map<string, Row>
    requires i < |s.workers|
  {
    s.rows + s.workers[i].pending
  }

  /** The rows of `after` that differ from the committed ones. */
  function Changed(before: map<string, Row>, after: map<string, Row>): map<string, Row> {
    map k | k in after && (k !in before || after[k] != before[k]) :: after[k]
  }

  /** A row another open transaction has written is waited for. */
  predicate Blocked(s: System, i: nat, logicalKey: string) {
    exists j | 0 <= j < |s.workers| :: j != i && logicalKey in s.workers[j].pending
  }

  function Advanced(s: System, i: nat, k: nat, after: State): System
    requires i < |s.workers|
  {
    var w := s.workers[i];
    With(s, i, w.(pending := Changed(s.rows, after.rows), report := after.report,
                  phase := if k + 1 < |w.plan| then Uploading(k + 1) else ReadyToFence))
      .(store := after.store)
  }

  function Worked(s: System, i: nat, weather: Weather): System
    requires i < |s.workers|
  {
    var w := s.workers[i];
    if !w.phase.Uploading? || w.phase.done >= |w.plan| || Blocked(s, i, w.plan[w.phase.done].logicalKey) then s
    else
      var k := w.phase.done;
      var (after, raised) := Item(State(View(s, i), s.store, w.report), w.plan[k], weather, CurrencyAt(w));
      var t := Advanced(s, i, k, after);
      if raised.Some? then TryFails(t, i, raised.value) else t
  }

  /** The job row is locked and its claim compared; a lost claim, or a job that has ended, refuses. */
  function FenceTried(s: System, i: nat): System
    requires i < |s.workers|
  {
    var w := s.workers[i];
    if w.phase != ReadyToFence || s.lock.Some? then s
    else if s.owner == Some(w.claim) && !s.ended then With(s, i, w.(phase := Locked)).(lock := Some(i))
    else With(s, i, w.(phase := Fenced, pending := map[])).(records := s.records + AsSet(w.report.stored))
  }

  function Wrote(s: System, i: nat, raised: bool): map<string, Writer>
    requires i < |s.workers|
  {
    s.origin + map k | k in s.workers[i].pending :: Writer(i, s.workers[i].tries, raised)
  }

  /** An exception after the commit goes round the loop again with the rows already visible. */
  function Committed(s: System, i: nat, how: Ending): System
    requires i < |s.workers|
  {
    var w := s.workers[i];
    if w.phase != Locked then s
    else match how
      case Fails => TryFails(s, i, [])
      case Lands =>
        Released(With(s, i, w.(phase := Finished, pending := map[])), i)
          .(rows := s.rows + w.pending, origin := Wrote(s, i, false), records := s.records + AsSet(w.report.orphans))
      case Raises(recorded) =>
        TryFails(s, i, if recorded then w.report.orphans else [])
          .(rows := s.rows + w.pending, origin := Wrote(s, i, true))
  }

  function Crashed(s: System, i: nat): System
    requires i < |s.workers|
  {
    var w := s.workers[i];
    if w.phase in {Finished, Fenced, GaveUp, Dead} then s
    else Released(With(s, i, w.(phase := Dead, pending := map[])), i)
  }

  /** A claim under the row's lock: a new token, and a new generation unless the same execution returns. */
  function Taken(s: System, token: nat, sameExecution: bool, attempt: nat): System {
    if s.lock.Some? || s.ended || (exists w :: w in s.workers && w.claim.token == token) then s
    else
      var generation := if sameExecution && s.generation > 0 then s.generation else s.generation + 1;
      var claim := Claim(generation, token);
      s.(owner := Some(claim), generation := generation,
         workers := s.workers + [Worker(claim, attempt, 0, Idle, [], map[], EMPTY)])
  }

  function Step(s: System, a: Action): System {
    match a
    case Take(token, sameExecution, attempt) => Taken(s, token, sameExecution, attempt)
    case Cancel => if s.lock.Some? || s.ended then s else s.(owner := None, ended := true)
    case Begin(w, plan) => if w < |s.workers| then Began(s, w, plan) else s
    case Work(w, weather) => if w < |s.workers| then Worked(s, w, weather) else s
    case Fence(w) => if w < |s.workers| then FenceTried(s, w) else s
    case Commit(w, how) => if w < |s.workers| then Committed(s, w, how) else s
    case Crash(w) => if w < |s.workers| then Crashed(s, w) else s
  }

  function Run(s: System, actions: seq<Action>): System {
    if actions == [] then s else Step(Run(s, actions[..|actions| - 1]), actions[|actions| - 1])
  }

  // ---- the invariant ------------------------------------------------------------------------------------

  predicate InTransaction(p: Phase) { p.Uploading? || p == ReadyToFence || p == Locked }

  /** The lock is held by the one worker between its fence and its commit, whose claim the row names. */
  ghost predicate LockInv(s: System) {
    && (forall i :: 0 <= i < |s.workers| ==> (s.workers[i].phase == Locked <==> s.lock == Some(i)))
    && (s.lock.Some? ==> s.lock.value < |s.workers| && s.owner == Some(s.workers[s.lock.value].claim) && !s.ended)
  }

  ghost predicate TokensInv(s: System) {
    && (forall i, j :: 0 <= i < j < |s.workers| ==> s.workers[i].claim.token != s.workers[j].claim.token)
    && (s.owner.Some? ==> exists w :: w in s.workers && w.claim == s.owner.value)
  }

  /** Open transactions write different rows, at their own currency, over older ones. */
  ghost predicate PendingInv(s: System) {
    && (forall i :: 0 <= i < |s.workers| && !InTransaction(s.workers[i].phase) ==> s.workers[i].pending == map[])
    && (forall i, j :: 0 <= i < j < |s.workers| ==> s.workers[i].pending.Keys !! s.workers[j].pending.Keys)
    && (forall i, k :: 0 <= i < |s.workers| && k in s.workers[i].pending ==>
          && CurrencyOf(s.workers[i].pending[k]) == CurrencyAt(s.workers[i])
          && (k in s.rows ==> AtMost(CurrencyOf(s.rows[k]), CurrencyAt(s.workers[i]))))
  }

  function Done(w: Worker): nat { if w.phase.Uploading? && w.phase.done <= |w.plan| then w.phase.done else |w.plan| }

  ghost predicate Accounted(items: seq<Planned>, r: Report) { exists landed :: Accounts(items, landed, r) }

  /** An open or committed report accounts for the items worked so far, and what it stored is ready. */
  ghost predicate ReportOk(w: Worker, rows: map<string, Row>) {
    && PromisesSomething(w.plan)
    && (w.phase.Uploading? ==> w.phase.done < |w.plan|)
    && Accounted(w.plan[..Done(w)], w.report)
    && (forall o :: o in w.report.stored ==>
          o.logicalKey in rows && AtMost(CurrencyAt(w), CurrencyOf(rows[o.logicalKey])))
  }

  ghost predicate ReportsInv(s: System) {
    forall i :: 0 <= i < |s.workers| && (InTransaction(s.workers[i].phase) || s.workers[i].phase == Finished)
      ==> ReportOk(s.workers[i], View(s, i))
  }

  /** The worker finished in that pass. */
  predicate FinishedIn(w: Worker, pass: nat) { pass == w.tries && w.phase == Finished }

  /** A pass that raised after its commit went round the loop; any other pass that wrote was the last. */
  predicate LeftPass(w: Worker, from: Writer) {
    if from.raised then from.pass < w.tries else FinishedIn(w, from.pass)
  }

  /** The row visible under `k` is one that a commit by the worker `from` wrote in a pass it has left. */
  ghost predicate WrittenBy(s: System, k: string, from: Writer) {
    && k in s.rows && from.worker < |s.workers| && LeftPass(s.workers[from.worker], from)
    && CurrencyOf(s.rows[k]) == CurrencyAt(s.workers[from.worker])
  }

  /** A visible row was there at the start or came from a commit. */
  ghost predicate RowsInv(s: System, initial: map<string, Row>) {
    && (forall k :: k in s.rows && k !in s.origin ==> k in initial && s.rows[k] == initial[k])
    && (forall k :: k in s.origin ==> WrittenBy(s, k, s.origin[k]))
  }

  /** A refused worker's registered objects, and a finished worker's orphans, have their records. */
  ghost predicate Recorded(w: Worker, records: set<Orphan>) {
    && (w.phase == Fenced ==> AsSet(w.report.stored) <= records)
    && (w.phase == Finished ==> AsSet(w.report.orphans) <= records)
  }

  ghost predicate RecordsInv(s: System) {
    forall i :: 0 <= i < |s.workers| ==> Recorded(s.workers[i], s.records)
  }

  ghost predicate Inv(s: System, initial: map<string, Row>) {
    && LockInv(s) && TokensInv(s) && PendingInv(s) && ReportsInv(s) && RowsInv(s, initial)
    && RecordsInv(s)
  }

  ghost predicate RowsGrow(a: map<string, Row>, b: map<string, Row>) {
    forall k :: k in a ==> k in b && AtMost(CurrencyOf(a[k]), CurrencyOf(b[k]))
  }

  // ---- every step keeps it ----------------------------------------------------------------------------------

  /** `t` is `s` with worker `i` become `w`, which still is the same execution. */
  ghost predicate Moved(s: System, t: System, i: nat, w: Worker) {
    && i < |s.workers| && t.workers == s.workers[i := w]
    && w.claim == s.workers[i].claim && w.attempt == s.workers[i].attempt
    && t.owner == s.owner && t.ended == s.ended && t.generation == s.generation
  }

  lemma MovedKeepsTokens(s: System, t: System, i: nat, w: Worker)
    requires Moved(s, t, i, w) && TokensInv(s)
    ensures TokensInv(t)
  {
    if s.owner.Some? {
      var j :| 0 <= j < |s.workers| && s.workers[j].claim == s.owner.value;
      assert t.workers[j] in t.workers && t.workers[j].claim == s.owner.value;
    }
  }

  /** `t` shows the rows and history of `s`; `w` has not gone back a pass, and its records are there. */
  ghost predicate Quiet(s: System, t: System, i: nat, w: Worker)
    requires i < |s.workers|
  {
    && t.rows == s.rows && t.origin == s.origin && s.records <= t.records
    && s.workers[i].phase != Finished && s.workers[i].tries <= w.tries && Recorded(w, t.records)
  }

  lemma MovedKeepsRows(s: System, t: System, i: nat, w: Worker, initial: map<string, Row>)
    requires Moved(s, t, i, w) && RowsInv(s, initial) && Quiet(s, t, i, w)
    ensures RowsInv(t, initial)
  {
    forall k | k in t.origin ensures WrittenBy(t, k, t.origin[k]) {
      assert WrittenBy(s, k, s.origin[k]);
    }
  }

  lemma MovedKeepsRecords(s: System, t: System, i: nat, w: Worker)
    requires Moved(s, t, i, w) && RecordsInv(s) && s.records <= t.records && Recorded(w, t.records)
    ensures RecordsInv(t)
  {
    forall j | 0 <= j < |t.workers| ensures Recorded(t.workers[j], t.records) {
      assert j != i ==> Recorded(s.workers[j], s.records);
    }
  }

  /** The lock follows the phase of the one worker that moved. */
  lemma MovedKeepsLock(s: System, t: System, i: nat, w: Worker)
    requires Moved(s, t, i, w) && LockInv(s)
    requires w.phase == Locked ==> s.lock.None? && t.lock == Some(i) && s.owner == Some(w.claim) && !s.ended
    requires w.phase != Locked ==> t.lock == if s.lock == Some(i) then None else s.lock
    ensures LockInv(t)
  {
  }

  /** Rows worker `w` may have pending. */
  ghost predicate Fits(s: System, w: Worker, pending: map<string, Row>) {
    forall k :: k in pending ==>
      && CurrencyOf(pending[k]) == CurrencyAt(w)
      && (k in s.rows ==> AtMost(CurrencyOf(s.rows[k]), CurrencyAt(w)))
  }

  lemma MovedKeepsPending(s: System, t: System, i: nat, w: Worker)
    requires Moved(s, t, i, w) && PendingInv(s) && t.rows == s.rows
    requires InTransaction(w.phase) || w.pending == map[]
    requires forall j :: 0 <= j < |s.workers| && j != i ==> s.workers[j].pending.Keys !! w.pending.Keys
    requires Fits(s, w, w.pending)
    ensures PendingInv(t)
  {
  }

  lemma MovedKeepsReports(s: System, t: System, i: nat, w: Worker)
    requires Moved(s, t, i, w) && ReportsInv(s) && t.rows == s.rows
    requires InTransaction(w.phase) || w.phase == Finished ==> ReportOk(w, View(t, i))
    ensures ReportsInv(t)
  {
    forall j | 0 <= j < |t.workers| && (InTransaction(t.workers[j].phase) || t.workers[j].phase == Finished)
      ensures ReportOk(t.workers[j], View(t, j)) {
      assert j != i ==> View(t, j) == View(s, j);
    }
  }

  /** A worker that leaves its transaction without a commit. */
  lemma LeavingKeeps(s: System, t: System, i: nat, w: Worker, initial: map<string, Row>)
    requires Inv(s, initial) && Moved(s, t, i, w) && Quiet(s, t, i, w)
    requires w.phase in {Idle, Fenced, GaveUp, Dead} && w.pending == map[]
    requires t.lock == if s.lock == Some(i) then None else s.lock
    ensures Inv(t, initial)
  {
    MovedKeepsTokens(s, t, i, w);
    MovedKeepsRows(s, t, i, w, initial);
    MovedKeepsRecords(s, t, i, w);
    MovedKeepsLock(s, t, i, w);
    MovedKeepsPending(s, t, i, w);
    MovedKeepsReports(s, t, i, w);
  }

  /** A worker that goes on inside its transaction. */
  lemma StayingKeeps(s: System, t: System, i: nat, w: Worker, initial: map<string, Row>)
    requires Inv(s, initial) && Moved(s, t, i, w) && Quiet(s, t, i, w)
    requires InTransaction(w.phase) && ReportOk(w, s.rows + w.pending) && Fits(s, w, w.pending)
    requires forall j :: 0 <= j < |s.workers| && j != i ==> s.workers[j].pending.Keys !! w.pending.Keys
    requires w.phase == Locked ==> s.lock.None? && t.lock == Some(i) && s.owner == Some(w.claim) && !s.ended
    requires w.phase != Locked ==> s.lock != Some(i) && t.lock == s.lock
    ensures Inv(t, initial)
  {
    MovedKeepsTokens(s, t, i, w);
    MovedKeepsRows(s, t, i, w, initial);
    MovedKeepsRecords(s, t, i, w);
    MovedKeepsLock(s, t, i, w);
    MovedKeepsPending(s, t, i, w);
    MovedKeepsReports(s, t, i, w);
  }

  lemma TryFailsKeeps(s: System, i: nat, orphans: seq<Orphan>, initial: map<string, Row>)
    requires i < |s.workers| && Inv(s, initial) && s.workers[i].phase != Finished
    ensures Inv(TryFails(s, i, orphans), initial)
  {
    var t := TryFails(s, i, orphans);
    LeavingKeeps(s, t, i, t.workers[i], initial);
  }

  lemma BeginOpens(s: System, i: nat, plan: seq<Planned>, initial: map<string, Row>)
    requires i < |s.workers| && Inv(s, initial) && s.workers[i].phase == Idle && PromisesSomething(plan)
    ensures Inv(Began(s, i, plan), initial)
  {
    var t := Began(s, i, plan);
    var w := t.workers[i];
    assert Accounts(w.plan[..0], [], EMPTY);
    assert Accounted(w.plan[..Done(w)], w.report);
    StayingKeeps(s, t, i, w, initial);
  }

  lemma BeganKeeps(s: System, i: nat, plan: seq<Planned>, initial: map<string, Row>)
    requires i < |s.workers| && Inv(s, initial)
    ensures Inv(Began(s, i, plan), initial)
  {
    if s.workers[i].phase == Idle {
      if PromisesSomething(plan) {
        BeginOpens(s, i, plan, initial);
      } else {
        var t := Began(s, i, plan);
        LeavingKeeps(s, t, i, t.workers[i], initial);
      }
    }
  }

  /** A plan item writes no row but its own, and that at the caller's currency. */
  lemma ItemWritesOwnRow(s: State, p: Planned, w: Weather, c: Currency)
    ensures var after := Item(s, p, w, c).0;
      && NoneRegressed(s.rows, after.rows, c)
      && (forall k :: k in after.rows && k != p.logicalKey ==> k in s.rows && after.rows[k] == s.rows[k])
      && (p.logicalKey in after.rows ==>
            || (p.logicalKey in s.rows && after.rows[p.logicalKey] == s.rows[p.logicalKey])
            || CurrencyOf(after.rows[p.logicalKey]) == c)
  {
    if w.upload.Some? { Registered(s.rows, p, w.upload.value, c); }
  }

  lemma ChangedRestores(before: map<string, Row>, after: map<string, Row>)
    requires before.Keys <= after.Keys
    ensures before + Changed(before, after) == after
  {
  }

  /** What the worked item leaves pending: what was, and perhaps the item's own row. */
  lemma WorkedPending(s: System, i: nat, p: Planned, weather: Weather)
    requires i < |s.workers| && PendingInv(s) && !Blocked(s, i, p.logicalKey)
    ensures var w := s.workers[i];
      var after := Item(State(View(s, i), s.store, w.report), p, weather, CurrencyAt(w)).0;
      var pending := Changed(s.rows, after.rows);
      && s.rows + pending == after.rows
      && (forall j :: 0 <= j < |s.workers| && j != i ==> s.workers[j].pending.Keys !! pending.Keys)
      && Fits(s, w, pending)
  {
    var w := s.workers[i];
    var after := Item(State(View(s, i), s.store, w.report), p, weather, CurrencyAt(w)).0;
    var pending := Changed(s.rows, after.rows);
    ItemWritesOwnRow(State(View(s, i), s.store, w.report), p, weather, CurrencyAt(w));
    ChangedRestores(s.rows, after.rows);
    PendingFits(s, w, View(s, i), p.logicalKey, after.rows);
    forall j | 0 <= j < |s.workers| && j != i ensures s.workers[j].pending.Keys !! pending.Keys {
      forall k | k in pending ensures k !in s.workers[j].pending {
        assert k == p.logicalKey || k in w.pending;
      }
    }
  }

  lemma PendingFits(s: System, w: Worker, view: map<string, Row>, logicalKey: string, after: map<string, Row>)
    requires view == s.rows + w.pending && Fits(s, w, w.pending) && NoneRegressed(view, after, CurrencyAt(w))
    requires forall k :: k in after && k != logicalKey ==> k in view && after[k] == view[k]
    requires logicalKey in after ==>
      (logicalKey in view && after[logicalKey] == view[logicalKey]) || CurrencyOf(after[logicalKey]) == CurrencyAt(w)
    ensures Fits(s, w, Changed(s.rows, after))
    ensures forall k :: k in Changed(s.rows, after) ==> k == logicalKey || k in w.pending
  {
  }

  lemma WorkedReport(s: System, i: nat, weather: Weather, initial: map<string, Row>)
    requires i < |s.workers| && Inv(s, initial) && s.workers[i].phase.Uploading?
    requires var w := s.workers[i];
      Item(State(View(s, i), s.store, w.report), w.plan[w.phase.done], weather, CurrencyAt(w)).1.None?
    ensures var w := s.workers[i];
      var k := w.phase.done;
      var after := Item(State(View(s, i), s.store, w.report), w.plan[k], weather, CurrencyAt(w)).0;
      ReportOk(w.(report := after.report, phase := if k + 1 < |w.plan| then Uploading(k + 1) else ReadyToFence),
          after.rows)
  {
    var w := s.workers[i];
    var k := w.phase.done;
    var at := State(View(s, i), s.store, w.report);
    assert w.plan[..Done(w)] == w.plan[..k];
    var landed :| Accounts(w.plan[..k], landed, w.report);
    var longer := ItemAccounts(at, w.plan, landed, k, weather, CurrencyAt(w));
    ItemKeepsReady(at, w.plan[k], weather, CurrencyAt(w));
    assert Accounted(w.plan[..k + 1], Item(at, w.plan[k], weather, CurrencyAt(w)).0.report);
  }

  lemma SameReport(a: Worker, b: Worker, rows: map<string, Row>)
    requires ReportOk(a, rows) && a.plan == b.plan && a.report == b.report && CurrencyAt(a) == CurrencyAt(b)
    requires Done(a) == Done(b) && (b.phase.Uploading? ==> b.phase.done < |b.plan|)
    ensures ReportOk(b, rows)
  {
  }

  lemma WorkGoesOn(s: System, i: nat, weather: Weather, after: State, initial: map<string, Row>)
    requires i < |s.workers| && Inv(s, initial) && s.workers[i].phase.Uploading?
    requires var w := s.workers[i];
      && !Blocked(s, i, w.plan[w.phase.done].logicalKey)
      && Item(State(View(s, i), s.store, w.report), w.plan[w.phase.done], weather, CurrencyAt(w)) == (after, None)
    ensures Inv(Worked(s, i, weather), initial)
  {
    var w, t := s.workers[i], Worked(s, i, weather);
    var k := w.phase.done;
    var reported := w.(report := after.report, phase := if k + 1 < |w.plan| then Uploading(k + 1) else ReadyToFence);
    WorkedPending(s, i, w.plan[k], weather);
    WorkedReport(s, i, weather, initial);
    assert t.workers[i] == reported.(pending := Changed(s.rows, after.rows));
    SameReport(reported, t.workers[i], after.rows);
    StayingKeeps(s, t, i, t.workers[i], initial);
  }

  lemma WorkedKeeps(s: System, i: nat, weather: Weather, initial: map<string, Row>)
    requires i < |s.workers| && Inv(s, initial)
    ensures Inv(Worked(s, i, weather), initial)
  {
    var w := s.workers[i];
    if w.phase.Uploading? && !Blocked(s, i, w.plan[w.phase.done].logicalKey) {
      var (after, raised) := Item(State(View(s, i), s.store, w.report), w.plan[w.phase.done], weather, CurrencyAt(w));
      if raised.Some? {
        var t := Worked(s, i, weather);
        LeavingKeeps(s, t, i, t.workers[i], initial);
      } else {
        WorkGoesOn(s, i, weather, after, initial);
      }
    }
  }

  lemma FenceKeeps(s: System, i: nat, initial: map<string, Row>)
    requires i < |s.workers| && Inv(s, initial)
    ensures Inv(FenceTried(s, i), initial)
  {
    var w, t := s.workers[i], FenceTried(s, i);
    if w.phase == ReadyToFence && s.lock.None? {
      if s.owner == Some(w.claim) && !s.ended {
        SameReport(w, t.workers[i], View(s, i));
        StayingKeeps(s, t, i, t.workers[i], initial);
      } else {
        LeavingKeeps(s, t, i, t.workers[i], initial);
      }
    }
  }

  lemma CommitGrows(s: System, i: nat, initial: map<string, Row>)
    requires i < |s.workers| && Inv(s, initial)
    ensures RowsGrow(s.rows, s.rows + s.workers[i].pending)
  {
  }

  /** `t` is `s` after worker `i`'s rows became visible and the worker went on as `w`. */
  ghost predicate Publishes(s: System, t: System, i: nat, w: Worker) {
    && Moved(s, t, i, w) && s.workers[i].phase == Locked && w.pending == map[]
    && t.rows == s.rows + s.workers[i].pending && t.origin == Wrote(s, i, w.phase != Finished)
    && s.records <= t.records && Recorded(w, t.records) && t.lock == None && s.lock == Some(i)
    && (if w.phase == Finished then w == s.workers[i].(phase := Finished, pending := map[])
        else w.phase in {Idle, GaveUp} && w.tries == s.workers[i].tries + 1)
  }

  lemma CommitPublishes(s: System, i: nat, how: Ending)
    requires i < |s.workers| && LockInv(s) && s.workers[i].phase == Locked && how != Fails
    ensures var t := Committed(s, i, how);
      Publishes(s, t, i, t.workers[i]) && (t.workers[i].phase == Finished <==> how == Lands)
  {
  }

  lemma CommitKeepsReports(s: System, t: System, i: nat, w: Worker, initial: map<string, Row>)
    requires Inv(s, initial) && Publishes(s, t, i, w)
    ensures ReportsInv(t)
  {
    CommitGrows(s, i, initial);
    forall j | 0 <= j < |t.workers| && (InTransaction(t.workers[j].phase) || t.workers[j].phase == Finished)
      ensures ReportOk(t.workers[j], View(t, j)) {
      if j == i {
        CommittedReport(s, t, i, w);
      } else {
        assert t.workers[j] == s.workers[j];
        ViewsGrow(s, t, j);
      }
    }
  }

  lemma CommittedReport(s: System, t: System, i: nat, w: Worker)
    requires ReportsInv(s) && Publishes(s, t, i, w) && w.phase == Finished
    ensures ReportOk(t.workers[i], View(t, i))
  {
    assert View(t, i) == View(s, i);
    SameReport(s.workers[i], t.workers[i], View(s, i));
  }

  lemma ViewsGrow(s: System, t: System, j: nat)
    requires j < |s.workers| == |t.workers| && s.workers[j] == t.workers[j] && RowsGrow(s.rows, t.rows)
    ensures RowsGrow(View(s, j), View(t, j))
    ensures ReportOk(s.workers[j], View(s, j)) ==> ReportOk(t.workers[j], View(t, j))
  {
    var w := s.workers[j];
    if ReportOk(w, View(s, j)) {
      forall o | o in w.report.stored
        ensures o.logicalKey in View(t, j) && AtMost(CurrencyAt(w), CurrencyOf(View(t, j)[o.logicalKey])) {
        assert o.logicalKey in View(s, j);
      }
    }
  }

  lemma CommitKeepsPending(s: System, t: System, i: nat, w: Worker)
    requires PendingInv(s) && Publishes(s, t, i, w)
    ensures PendingInv(t)
  {
    forall j | 0 <= j < |t.workers| && j != i ensures Fits(t, t.workers[j], t.workers[j].pending) {
      StillFits(s, s.workers[i], s.workers[j]);
      assert t.workers[j] == s.workers[j];
    }
    forall j, k | 0 <= j < |t.workers| && k in t.workers[j].pending
      ensures CurrencyOf(t.workers[j].pending[k]) == CurrencyAt(t.workers[j])
      ensures k in t.rows ==> AtMost(CurrencyOf(t.rows[k]), CurrencyAt(t.workers[j])) {
      assert j != i && Fits(t, t.workers[j], t.workers[j].pending);
    }
  }

  lemma StillFits(s: System, v: Worker, w: Worker)
    requires Fits(s, w, w.pending) && v.pending.Keys !! w.pending.Keys
    ensures Fits(s.(rows := s.rows + v.pending), w, w.pending)
  {
    forall k | k in w.pending ensures k !in v.pending {
      assert k in w.pending.Keys;
    }
  }

  lemma CommittedRow(s: System, t: System, i: nat, w: Worker, k: string)
    requires Publishes(s, t, i, w) && PendingInv(s) && k in t.origin
    requires k in s.origin ==> WrittenBy(s, k, s.origin[k])
    ensures WrittenBy(t, k, t.origin[k])
  {
    if k in s.workers[i].pending {
      assert t.origin[k] == Writer(i, s.workers[i].tries, w.phase != Finished) && LeftPass(w, t.origin[k]);
    } else {
      var from := s.origin[k];
      assert t.origin[k] == from && t.rows[k] == s.rows[k];
      assert from.worker != i ==> t.workers[from.worker] == s.workers[from.worker];
    }
  }

  lemma CommitKeepsRows(s: System, t: System, i: nat, w: Worker, initial: map<string, Row>)
    requires Publishes(s, t, i, w) && RowsInv(s, initial) && PendingInv(s)
    ensures RowsInv(t, initial)
  {
    forall k | k in t.origin ensures WrittenBy(t, k, t.origin[k]) {
      CommittedRow(s, t, i, w, k);
    }
  }

  lemma CommitKeeps(s: System, i: nat, how: Ending, initial: map<string, Row>)
    requires i < |s.workers| && Inv(s, initial)
    ensures Inv(Committed(s, i, how), initial)
  {
    var t := Committed(s, i, how);
    if s.workers[i].phase == Locked {
      if how == Fails {
        TryFailsKeeps(s, i, [], initial);
      } else {
        var w := t.workers[i];
        CommitPublishes(s, i, how);
        MovedKeepsTokens(s, t, i, w);
        MovedKeepsLock(s, t, i, w);
        CommitKeepsReports(s, t, i, w, initial);
        CommitKeepsPending(s, t, i, w);
        CommitKeepsRows(s, t, i, w, initial);
        MovedKeepsRecords(s, t, i, w);
      }
    }
  }

  lemma CrashKeeps(s: System, i: nat, initial: map<string, Row>)
    requires i < |s.workers| && Inv(s, initial)
    ensures Inv(Crashed(s, i), initial)
  {
    var t := Crashed(s, i);
    if s.workers[i].phase !in {Finished, Fenced, GaveUp, Dead} {
      LeavingKeeps(s, t, i, t.workers[i], initial);
    }
  }

  lemma TakenKeepsClaims(s: System, t: System, w: Worker)
    requires LockInv(s) && TokensInv(s) && PendingInv(s) && s.lock.None? && t.lock.None? && t.rows == s.rows
    requires t.workers == s.workers + [w] && t.owner == Some(w.claim) && w.phase == Idle && w.pending == map[]
    requires forall v :: v in s.workers ==> v.claim.token != w.claim.token
    ensures LockInv(t) && TokensInv(t) && PendingInv(t)
  {
    assert t.workers[|s.workers|] in t.workers;
    forall i | 0 <= i < |s.workers| ensures t.workers[i] == s.workers[i] && t.workers[i].claim.token != w.claim.token {
      assert s.workers[i] in s.workers;
    }
  }

  lemma TakenKeeps(s: System, token: nat, sameExecution: bool, attempt: nat, initial: map<string, Row>)
    requires Inv(s, initial)
    ensures Inv(Taken(s, token, sameExecution, attempt), initial)
  {
    var t := Taken(s, token, sameExecution, attempt);
    if t != s {
      TakenKeepsClaims(s, t, t.workers[|s.workers|]);
      TakenKeepsReports(s, t);
      TakenKeepsRows(s, t, initial);
      TakenKeepsRecords(s, t);
    }
  }

  lemma TakenKeepsReports(s: System, t: System)
    requires ReportsInv(s) && t.rows == s.rows && s.workers <= t.workers
    requires forall j :: |s.workers| <= j < |t.workers| ==> t.workers[j].phase == Idle
    ensures ReportsInv(t)
  {
    forall j | 0 <= j < |t.workers| && (InTransaction(t.workers[j].phase) || t.workers[j].phase == Finished)
      ensures ReportOk(t.workers[j], View(t, j)) {
      assert t.workers[j] == s.workers[j] && View(t, j) == View(s, j);
    }
  }

  lemma TakenKeepsRows(s: System, t: System, initial: map<string, Row>)
    requires RowsInv(s, initial) && t.rows == s.rows && t.origin == s.origin && s.workers <= t.workers
    ensures RowsInv(t, initial)
  {
    forall k | k in t.origin ensures WrittenBy(t, k, t.origin[k]) {
      assert WrittenBy(s, k, s.origin[k]);
    }
  }

  lemma TakenKeepsRecords(s: System, t: System)
    requires RecordsInv(s) && t.records == s.records && s.workers <= t.workers
    requires forall j :: |s.workers| <= j < |t.workers| ==> t.workers[j].phase == Idle
    ensures RecordsInv(t)
  {
    forall j | 0 <= j < |t.workers| ensures Recorded(t.workers[j], t.records) {
      assert j < |s.workers| ==> Recorded(s.workers[j], s.records) && t.workers[j] == s.workers[j];
    }
  }

  lemma CancelKeeps(s: System, t: System, initial: map<string, Row>)
    requires Inv(s, initial) && s.lock.None? && t == s.(owner := None, ended := true)
    ensures Inv(t, initial)
  {
    forall j | 0 <= j < |t.workers| && (InTransaction(t.workers[j].phase) || t.workers[j].phase == Finished)
      ensures ReportOk(t.workers[j], View(t, j)) {
      assert View(t, j) == View(s, j);
    }
    forall k | k in t.origin ensures WrittenBy(t, k, t.origin[k]) {
      assert WrittenBy(s, k, s.origin[k]);
    }
  }

  lemma StepKeeps(s: System, a: Action, initial: map<string, Row>)
    requires Inv(s, initial)
    ensures Inv(Step(s, a), initial)
  {
    match a
    case Take(token, sameExecution, attempt) => TakenKeeps(s, token, sameExecution, attempt, initial);
    case Cancel => if s.lock.None? && !s.ended { CancelKeeps(s, Step(s, a), initial); }
    case Begin(w, plan) => if w < |s.workers| { BeganKeeps(s, w, plan, initial); }
    case Work(w, weather) => if w < |s.workers| { WorkedKeeps(s, w, weather, initial); }
    case Fence(w) => if w < |s.workers| { FenceKeeps(s, w, initial); }
    case Commit(w, how) => if w < |s.workers| { CommitKeeps(s, w, how, initial); }
    case Crash(w) => if w < |s.workers| { CrashKeeps(s, w, initial); }
  }

  /** A job nobody has claimed yet. */
  function Start(rows: map<string, Row>, store: map<string, Obj>): System {
    System(rows, map[], store, {}, None, 0, false, None, [])
  }

  lemma {:induction false} RunKeeps(rows: map<string, Row>, store: map<string, Obj>, actions: seq<Action>)
    ensures Inv(Run(Start(rows, store), actions), rows)
  {
    if actions != [] {
      RunKeeps(rows, store, actions[..|actions| - 1]);
      StepKeeps(Run(Start(rows, store), actions[..|actions| - 1]), actions[|actions| - 1], rows);
    }
  }

  // ---- what it means for the job ------------------------------------------------------------------------------

  ghost predicate TriesOk(w: Worker) {
    w.tries <= ATTEMPTS && (w.phase == Idle || InTransaction(w.phase) ==> w.tries < ATTEMPTS)
  }

  /** What any step may make of a worker. */
  ghost predicate Onward(v: Worker, w: Worker) {
    && w.claim == v.claim && w.attempt == v.attempt
    && (w.phase == Finished ==> v.phase == Finished || v.phase == Locked) && (v.phase == Finished ==> w == v)
    && (TriesOk(v) ==> TriesOk(w))
  }

  ghost predicate OthersStay(s: System, t: System, i: nat) {
    |t.workers| == |s.workers| && forall j :: 0 <= j < |s.workers| && j != i ==> t.workers[j] == s.workers[j]
  }

  ghost predicate RowsBy(s: System, t: System, i: nat)
    requires i < |s.workers| == |t.workers|
  {
    || (t.rows == s.rows && t.origin == s.origin)
    || (s.workers[i].phase == Locked && t.rows == s.rows + s.workers[i].pending
        && (t.origin == Wrote(s, i, false) || t.origin == Wrote(s, i, true)))
  }

  /** A step of worker `i` alone. */
  ghost predicate Local(s: System, t: System, i: nat) {
    && i < |s.workers| && OthersStay(s, t, i) && Onward(s.workers[i], t.workers[i])
    && t.owner == s.owner && RowsBy(s, t, i)
  }

  lemma OpeningIsLocal(s: System, i: nat, plan: seq<Planned>)
    requires i < |s.workers| && PromisesSomething(plan)
    ensures Local(s, Began(s, i, plan), i) && Began(s, i, plan).rows == s.rows
  {
  }

  lemma EmptyPlanIsLocal(s: System, i: nat, plan: seq<Planned>)
    requires i < |s.workers| && !PromisesSomething(plan)
    ensures Local(s, Began(s, i, plan), i) && Began(s, i, plan).rows == s.rows
  {
  }

  lemma BeginIsLocal(s: System, i: nat, plan: seq<Planned>)
    requires i < |s.workers|
    ensures Local(s, Began(s, i, plan), i) && Began(s, i, plan).rows == s.rows
  {
    if PromisesSomething(plan) {
      OpeningIsLocal(s, i, plan);
    } else {
      EmptyPlanIsLocal(s, i, plan);
    }
  }

  lemma AdvanceIsLocal(s: System, i: nat, k: nat, after: State, orphans: seq<Orphan>)
    requires i < |s.workers| && s.workers[i].phase.Uploading?
    ensures Local(s, Advanced(s, i, k, after), i) && Local(s, TryFails(Advanced(s, i, k, after), i, orphans), i)
    ensures Advanced(s, i, k, after).rows == TryFails(Advanced(s, i, k, after), i, orphans).rows == s.rows
  {
  }

  lemma WorkIsLocal(s: System, i: nat, weather: Weather)
    requires i < |s.workers|
    ensures Local(s, Worked(s, i, weather), i) && Worked(s, i, weather).rows == s.rows
  {
    var w := s.workers[i];
    if w.phase.Uploading? && w.phase.done < |w.plan| && !Blocked(s, i, w.plan[w.phase.done].logicalKey) {
      var (after, raised) := Item(State(View(s, i), s.store, w.report), w.plan[w.phase.done], weather, CurrencyAt(w));
      AdvanceIsLocal(s, i, w.phase.done, after, if raised.Some? then raised.value else []);
    }
  }

  lemma FenceIsLocal(s: System, i: nat)
    requires i < |s.workers|
    ensures Local(s, FenceTried(s, i), i) && FenceTried(s, i).rows == s.rows
  {
  }

  lemma LandingIsLocal(s: System, i: nat)
    requires i < |s.workers|
    ensures Local(s, Committed(s, i, Lands), i)
    ensures s.workers[i].phase == Locked ==> Committed(s, i, Lands).workers[i].phase == Finished
  {
  }

  lemma FailingIsLocal(s: System, i: nat)
    requires i < |s.workers|
    ensures Local(s, Committed(s, i, Fails), i) && Committed(s, i, Fails).rows == s.rows
  {
  }

  lemma RaisingIsLocal(s: System, i: nat, recorded: bool)
    requires i < |s.workers|
    ensures Local(s, Committed(s, i, Raises(recorded)), i)
  {
  }

  lemma CommitIsLocal(s: System, i: nat, how: Ending)
    requires i < |s.workers|
    ensures Local(s, Committed(s, i, how), i) && (how == Fails ==> Committed(s, i, how).rows == s.rows)
  {
    match how
    case Lands => LandingIsLocal(s, i);
    case Fails => FailingIsLocal(s, i);
    case Raises(recorded) => RaisingIsLocal(s, i, recorded);
  }

  lemma CrashIsLocal(s: System, i: nat)
    requires i < |s.workers|
    ensures Local(s, Crashed(s, i), i) && Crashed(s, i).rows == s.rows
  {
  }

  predicate OfWorker(s: System, a: Action) {
    !a.Take? && !a.Cancel? && a.w < |s.workers|
  }

  lemma StepIsLocal(s: System, a: Action)
    requires OfWorker(s, a)
    ensures Local(s, Step(s, a), a.w) && (Step(s, a).rows == s.rows || (a.Commit? && a.how != Fails))
  {
    match a
    case Begin(w, plan) => BeginIsLocal(s, w, plan);
    case Work(w, weather) => WorkIsLocal(s, w, weather);
    case Fence(w) => FenceIsLocal(s, w);
    case Commit(w, how) => CommitIsLocal(s, w, how);
    case Crash(w) => CrashIsLocal(s, w);
  }

  lemma RowsAfter(s: System, a: Action)
    ensures Step(s, a).rows != s.rows ==>
      && a.Commit? && a.how != Fails && a.w < |s.workers| && s.workers[a.w].phase == Locked
      && Step(s, a).rows == s.rows + s.workers[a.w].pending
  {
    if OfWorker(s, a) { StepIsLocal(s, a); }
  }

  ghost predicate AllOnward(s: System, t: System) {
    && |s.workers| <= |t.workers|
    && (forall j :: 0 <= j < |s.workers| ==> Onward(s.workers[j], t.workers[j]))
    && (forall j :: |s.workers| <= j < |t.workers| ==> t.workers[j].phase == Idle && t.workers[j].tries == 0)
  }

  lemma WorkersAfter(s: System, a: Action)
    ensures AllOnward(s, Step(s, a))
  {
    if OfWorker(s, a) {
      var t := Step(s, a);
      StepIsLocal(s, a);
      forall j | 0 <= j < |s.workers| ensures Onward(s.workers[j], t.workers[j]) {
        if j != a.w { assert t.workers[j] == s.workers[j]; }
      }
    }
  }

  /** FENCED REGISTRATION. The visible rows change in one step only: a commit, by a worker the job row
      still names as its owner, of a job that has not ended; and then by exactly its own rows. */
  lemma RowsChangeUnderTheClaim(s: System, a: Action, initial: map<string, Row>)
    requires Inv(s, initial) && Step(s, a).rows != s.rows
    ensures a.Commit? && a.how != Fails && a.w < |s.workers|
    ensures s.workers[a.w].phase == Locked && s.owner == Some(s.workers[a.w].claim) && !s.ended
    ensures Step(s, a).rows == s.rows + s.workers[a.w].pending
  {
    RowsAfter(s, a);
    LockedOwns(s, a.w);
  }

  lemma LockedOwns(s: System, i: nat)
    requires LockInv(s) && i < |s.workers| && s.workers[i].phase == Locked
    ensures s.owner == Some(s.workers[i].claim) && !s.ended
  {
    assert s.lock == Some(i);
  }

  lemma StepAfterEnd(s: System, a: Action, initial: map<string, Row>)
    requires Inv(s, initial) && s.ended
    ensures Step(s, a).ended && Step(s, a).rows == s.rows
  {
    if Step(s, a).rows != s.rows { RowsChangeUnderTheClaim(s, a, initial); }
  }

  /** Once the cancel has committed no artifact of the job appears, changes or disappears, whatever the
      workers it caught in the middle go on to do. */
  lemma {:induction false} EndedStaysAsItIs(s: System, actions: seq<Action>, initial: map<string, Row>)
    requires Inv(s, initial) && s.ended
    ensures Run(s, actions).ended && Run(s, actions).rows == s.rows && Inv(Run(s, actions), initial)
  {
    if actions != [] {
      var front := actions[..|actions| - 1];
      EndedStaysAsItIs(s, front, initial);
      StepAfterEnd(Run(s, front), actions[|actions| - 1], initial);
      StepKeeps(Run(s, front), actions[|actions| - 1], initial);
    }
  }

  /** Worker `i` no longer holds the job. */
  ghost predicate Ousted(s: System, i: nat) {
    i < |s.workers| && s.owner != Some(s.workers[i].claim)
  }

  lemma OwnerAfter(s: System, a: Action)
    ensures var owner := Step(s, a).owner;
      owner == s.owner || owner.None? || forall w :: w in s.workers ==> w.claim.token != owner.value.token
  {
    if OfWorker(s, a) { StepIsLocal(s, a); }
  }

  lemma StepAfterOusting(s: System, a: Action, i: nat)
    requires LockInv(s) && Ousted(s, i) && s.workers[i].phase != Finished
    ensures Ousted(Step(s, a), i) && Step(s, a).workers[i].phase != Finished
  {
    assert s.workers[i] in s.workers;
    OwnerAfter(s, a);
    WorkersAfter(s, a);
    assert Onward(s.workers[i], Step(s, a).workers[i]);
    if s.workers[i].phase == Locked { LockedOwns(s, i); }
  }

  /** A worker that has lost its claim, to a cancel or a takeover, never finishes a delivery and never
      gets the claim back. */
  lemma {:induction false} OustedNeverFinishes(s: System, actions: seq<Action>, i: nat, initial: map<string, Row>)
    requires Inv(s, initial) && Ousted(s, i) && s.workers[i].phase != Finished
    ensures Inv(Run(s, actions), initial) && Ousted(Run(s, actions), i) && Run(s, actions).workers[i].phase != Finished
  {
    if actions != [] {
      var front := actions[..|actions| - 1];
      OustedNeverFinishes(s, front, i, initial);
      StepAfterOusting(Run(s, front), actions[|actions| - 1], i);
      StepKeeps(Run(s, front), actions[|actions| - 1], initial);
    }
  }

  predicate OfPass(from: Writer, i: nat, pass: nat) { from.worker == i && from.pass == pass }

  /** Over every run: a worker refused at the fence has a record of each object it registered, its
      transaction is gone, and no visible row was written by the pass that was refused; a worker that
      finished has a record of each of its orphans. */
  lemma {:induction false} RefusalRecordsWhatWasStored(rows: map<string, Row>, store: map<string, Obj>,
                                                       actions: seq<Action>, i: nat)
    requires i < |Run(Start(rows, store), actions).workers|
    ensures var s := Run(Start(rows, store), actions);
      var w := s.workers[i];
      && (w.phase == Fenced ==>
            && AsSet(w.report.stored) <= s.records && w.pending == map[]
            && forall k :: k in s.rows ==> if k in s.origin then !OfPass(s.origin[k], i, w.tries)
                                           else k in rows && s.rows[k] == rows[k])
      && (w.phase == Finished ==> AsSet(w.report.orphans) <= s.records)
  {
    RunKeeps(rows, store, actions);
    var s := Run(Start(rows, store), actions);
    assert Recorded(s.workers[i], s.records);
    forall k | k in s.origin && s.workers[i].phase == Fenced ensures !OfPass(s.origin[k], i, s.workers[i].tries) {
      assert WrittenBy(s, k, s.origin[k]);
    }
  }

  predicate Refuses(s: System, i: nat) {
    && i < |s.workers| && s.workers[i].phase == ReadyToFence && s.lock.None?
    && (s.owner != Some(s.workers[i].claim) || s.ended)
  }

  /** The objects an optional item could not delete are another matter: a refusal leaves all of them
      with a record if and only if each had one already or is also among the registered ones; so it does
      when no optional item failed. */
  lemma RefusalRecordsOrphansIff(s: System, i: nat, initial: map<string, Row>)
    requires Inv(s, initial) && Refuses(s, i)
    ensures var (w, t) := (s.workers[i], FenceTried(s, i));
      && (AsSet(w.report.orphans) <= t.records <==>
            forall o :: o in w.report.orphans ==> o in s.records || o in w.report.stored)
      && (w.report.optionalFailures == [] ==> AsSet(w.report.orphans) <= t.records)
  {
    var w, t := s.workers[i], FenceTried(s, i);
    assert Accounted(w.plan[..Done(w)], w.report);
    forall o ensures o in t.records <==> o in s.records || o in w.report.stored {}
    if AsSet(w.report.orphans) <= t.records {
      forall o | o in w.report.orphans ensures o in s.records || o in w.report.stored {
        assert o in AsSet(w.report.orphans);
      }
    }
  }

  // ---- two runs that break a promise ------------------------------------------------------------------------

  lemma {:induction false} RunMore(s: System, actions: seq<Action>, a: Action)
    ensures Run(s, actions + [a]) == Step(Run(s, actions), a)
  {
    assert (actions + [a])[..|actions|] == actions;
  }

  const MESH := Planned("mesh", "mesh", "m", true)
  const LOG := Planned("log", "log", "l", false)
  const BYTES := Obj(1, None)
  const FINE := Weather(true, Some(BYTES), true, true, true)
  const STUCK := Weather(true, Some(BYTES), false, true, false)
  const MESH_ROW := Row("mesh", "m", BYTES, 1, 0)
  const CLAIM := Claim(1, 1)

  /** One worker holds the job. */
  function Alone(rows: map<string, Row>, store: map<string, Obj>, w: Worker): System {
    System(rows, map k | k in rows :: Writer(0, 0, true), store, {}, Some(CLAIM), 1, false, None, [w])
  }

  function Holder(tries: nat, phase: Phase, plan: seq<Planned>, pending: map<string, Row>, report: Report): Worker {
    Worker(CLAIM, 0, tries, phase, plan, pending, report)
  }

  const LOG_ORPHAN := OrphanOf(LOG, BYTES, Currency(1, 0))
  const MESH_STORED := OrphanOf(MESH, BYTES, Currency(1, 0))
  const LOG_FAILED := Report([], ["log"], [LOG_ORPHAN], [])
  const MESH_DELIVERED := [Delivered("mesh", "m", BYTES, Created)]

  const LOG_AND_MESH := [LOG, MESH]
  const LOADING := Holder(0, Uploading(0), LOG_AND_MESH, map[], EMPTY)
  const LOG_LOST := Holder(0, Uploading(1), LOG_AND_MESH, map[], LOG_FAILED)
  const READY := Holder(0, ReadyToFence, LOG_AND_MESH, map["mesh" := MESH_ROW],
                        LOG_FAILED.(delivered := MESH_DELIVERED, stored := [MESH_STORED]))

  lemma FirstTaken()
    ensures Step(Start(map[], map[]), Take(1, false, 0)) == Alone(map[], map[], Holder(0, Idle, [], map[], EMPTY))
  {
  }

  lemma FirstBegun()
    ensures Step(Alone(map[], map[], Holder(0, Idle, [], map[], EMPTY)), Begin(0, LOG_AND_MESH))
         == Alone(map[], map[], LOADING)
  {
    assert MESH in LOG_AND_MESH;
  }

  /** The log's upload is damaged and cannot be deleted. */
  lemma LogFails()
    ensures Step(Alone(map[], map[], LOADING), Work(0, STUCK)) == Alone(map[], map["l" := BYTES], LOG_LOST)
  {
    var s := Alone(map[], map[], LOADING);
    assert !Blocked(s, 0, "log") && View(s, 0) == map[] && s.workers[0] == LOADING;
    var at := State(View(s, 0), s.store, EMPTY);
    assert [] + ["log"] == ["log"] && [] + [LOG_ORPHAN] == [LOG_ORPHAN];
    assert Item(at, LOG, STUCK, Currency(1, 0)) == (State(map[], map["l" := BYTES], LOG_FAILED), None);
    assert Changed(map[], map[]) == map[];
  }

  lemma MeshLands()
    ensures Step(Alone(map[], map["l" := BYTES], LOG_LOST), Work(0, FINE))
         == Alone(map[], map["l" := BYTES, "m" := BYTES], READY)
  {
    var s := Alone(map[], map["l" := BYTES], LOG_LOST);
    assert !Blocked(s, 0, "mesh") && View(s, 0) == map[] && s.workers[0] == LOG_LOST;
    var at := State(View(s, 0), s.store, LOG_FAILED);
    assert [] + MESH_DELIVERED == MESH_DELIVERED && [] + [MESH_STORED] == [MESH_STORED];
    assert Item(at, MESH, FINE, Currency(1, 0))
        == (State(map["mesh" := MESH_ROW], map["l" := BYTES, "m" := BYTES], READY.report), None);
    assert Changed(map[], map["mesh" := MESH_ROW]) == map["mesh" := MESH_ROW];
  }

  const FORGETFUL: seq<Action> :=
    [Take(1, false, 0)] + [Begin(0, LOG_AND_MESH)] + [Work(0, STUCK)] + [Work(0, FINE)] + [Cancel] + [Fence(0)]

  /** A run that ends so: the cancel comes in time, the fence refuses, and the log's object stays in the
      store without a record, though a delivery that lands would have recorded it. */
  lemma RefusalForgetsOrphans()
    ensures var t := Run(Start(map[], map[]), FORGETFUL);
      && |t.workers| == 1 && t.workers[0].phase == Fenced && LOG_ORPHAN in t.workers[0].report.orphans
      && LOG_ORPHAN.objectKey in t.store && LOG_ORPHAN !in t.records
    ensures var landed := Run(Start(map[], map[]), FORGETFUL[..4] + [Fence(0)] + [Commit(0, Lands)]);
      && |landed.workers| == 1 && landed.workers[0].phase == Finished && LOG_ORPHAN in landed.records
  {
    var s, first := Start(map[], map[]), [Take(1, false, 0)];
    RunMore(s, [], first[0]);
    assert [] + first == first;
    FirstTaken();
    var second := first + [Begin(0, LOG_AND_MESH)];
    RunMore(s, first, Begin(0, LOG_AND_MESH));
    FirstBegun();
    var third := second + [Work(0, STUCK)];
    RunMore(s, second, Work(0, STUCK));
    LogFails();
    var fourth := third + [Work(0, FINE)];
    RunMore(s, third, Work(0, FINE));
    MeshLands();
    RunMore(s, fourth, Cancel);
    RunMore(s, fourth + [Cancel], Fence(0));
    RefusedEnd(Run(s, fourth));
    assert FORGETFUL[..4] == fourth;
    RunMore(s, fourth, Fence(0));
    RunMore(s, fourth + [Fence(0)], Commit(0, Lands));
  }

  lemma RefusedEnd(s: System)
    requires s == Alone(map[], map["l" := BYTES, "m" := BYTES], READY)
    ensures var t := Step(Step(s, Cancel), Fence(0));
      && t.workers == [READY.(phase := Fenced, pending := map[])] && t.records == {MESH_STORED} && t.store == s.store
    ensures var t := Step(Step(s, Fence(0)), Commit(0, Lands));
      && t.workers == [READY.(phase := Finished, pending := map[])] && LOG_ORPHAN in t.records
  {
  }

  /** The worker may start another pass, and what is visible is nothing or the row it keeps writing. */
  predicate Retrying(s: System, w: Worker) {
    && s.workers == [w] && w.claim == CLAIM && w.attempt == 0 && w.pending == map[]
    && s.owner == Some(CLAIM) && !s.ended && s.lock.None?
    && (s.rows == map[] || s.rows == map["mesh" := MESH_ROW])
  }

  /** One pass of the loop up to its commit. */
  const PASS: seq<Action> := [Begin(0, [MESH]), Work(0, FINE), Fence(0)]

  lemma PassBegins(s: System, w: Worker)
    requires Retrying(s, w) && w.phase == Idle
    ensures Step(s, PASS[0]) == s.(workers := [w.(plan := [MESH], report := EMPTY, phase := Uploading(0))])
  {
    assert MESH in [MESH];
  }

  const MESH_REPORT := Report(MESH_DELIVERED, [], [], [MESH_STORED])

  lemma MeshLandsAgain(rows: map<string, Row>, store: map<string, Obj>)
    requires rows == map[] || rows == map["mesh" := MESH_ROW]
    ensures Item(State(rows, store, EMPTY), MESH, FINE, Currency(1, 0))
         == (State(map["mesh" := MESH_ROW], store["m" := BYTES], MESH_REPORT), None)
  {
    assert [] + MESH_DELIVERED == MESH_DELIVERED && [] + [MESH_STORED] == [MESH_STORED];
    assert rows["mesh" := MESH_ROW] == map["mesh" := MESH_ROW];
    assert DeliverArtifact(rows, MESH, BYTES, Currency(1, 0)) == (map["mesh" := MESH_ROW], Created);
  }

  function AfterMesh(s: System, w: Worker): Worker {
    w.(plan := [MESH], report := MESH_REPORT, pending := Changed(s.rows, map["mesh" := MESH_ROW]),
        phase := ReadyToFence)
  }

  lemma PassWorks(s: System, w: Worker, u: System)
    requires Retrying(s, w) && w.phase == Idle
    requires u == s.(workers := [w.(plan := [MESH], report := EMPTY, phase := Uploading(0))])
    ensures Step(u, PASS[1]) == s.(workers := [AfterMesh(s, w)], store := s.store["m" := BYTES])
  {
    assert !Blocked(u, 0, "mesh") && View(u, 0) == s.rows;
    MeshLandsAgain(s.rows, s.store);
  }

  lemma PassLocks(s: System, w: Worker, u: System)
    requires Retrying(s, w) && u == s.(workers := [AfterMesh(s, w)], store := s.store["m" := BYTES])
    ensures Step(u, PASS[2]) == u.(workers := [AfterMesh(s, w).(phase := Locked)], lock := Some(0))
  {
  }

  lemma PassEnds(s: System, w: Worker, u: System, how: Ending, t: System)
    requires Retrying(s, w) && how in {Fails, Raises(true)} && t == Step(u, Commit(0, how))
    requires u == s.(workers := [AfterMesh(s, w).(phase := Locked)], lock := Some(0), store := s.store["m" := BYTES])
    ensures |t.workers| == 1 && Retrying(t, t.workers[0]) && t.store == u.store && t.records == s.records
    ensures t.rows == if how == Fails then s.rows else map["mesh" := MESH_ROW]
    ensures t.workers[0].tries == w.tries + 1
    ensures t.workers[0].phase == if w.tries + 1 < ATTEMPTS then Idle else GaveUp
  {
    assert s.rows + Changed(s.rows, map["mesh" := MESH_ROW]) == map["mesh" := MESH_ROW];
  }

  /** One pass of the loop that ends in an exception, in the commit or behind it. */
  lemma PassGoesRound(s: System, how: Ending, t: System)
    requires |s.workers| == 1 && Retrying(s, s.workers[0]) && s.workers[0].phase == Idle
    requires how in {Fails, Raises(true)}
    requires t == Step(Step(Step(Step(s, PASS[0]), PASS[1]), PASS[2]), Commit(0, how))
    ensures |t.workers| == 1 && Retrying(t, t.workers[0]) && "m" in t.store && t.records == s.records
    ensures t.rows == if how == Fails then s.rows else map["mesh" := MESH_ROW]
    ensures t.workers[0].tries == s.workers[0].tries + 1
    ensures t.workers[0].phase == if s.workers[0].tries + 1 < ATTEMPTS then Idle else GaveUp
  {
    var w := s.workers[0];
    PassBegins(s, w);
    PassWorks(s, w, Step(s, PASS[0]));
    var u := Step(Step(s, PASS[0]), PASS[1]);
    PassLocks(s, w, u);
    PassEnds(s, w, Step(u, PASS[2]), how, t);
  }

  function Pass(how: Ending): seq<Action> { PASS + [Commit(0, how)] }

  lemma {:induction false} RunPass(s: System, actions: seq<Action>, how: Ending)
    ensures Run(s, actions + Pass(how))
         == Step(Step(Step(Step(Run(s, actions), PASS[0]), PASS[1]), PASS[2]), Commit(0, how))
  {
    RunMore(s, actions, PASS[0]);
    RunMore(s, actions + [PASS[0]], PASS[1]);
    RunMore(s, actions + [PASS[0]] + [PASS[1]], PASS[2]);
    RunMore(s, actions + [PASS[0]] + [PASS[1]] + [PASS[2]], Commit(0, how));
    assert actions + Pass(how) == actions + [PASS[0]] + [PASS[1]] + [PASS[2]] + [Commit(0, how)];
  }

  function ThreePasses(how: Ending): seq<Action> { [Take(1, false, 0)] + Pass(how) + Pass(how) + Pass(how) }

  lemma ThreePassesGiveUp(how: Ending)
    requires how in {Fails, Raises(true)}
    ensures var t := Run(Start(map[], map[]), ThreePasses(how));
      && |t.workers| == 1 && t.workers[0].phase == GaveUp && "m" in t.store && t.records == {}
      && t.rows == if how == Fails then map[] else map["mesh" := MESH_ROW]
  {
    var s, first := Start(map[], map[]), [Take(1, false, 0)];
    RunMore(s, [], first[0]);
    assert [] + first == first;
    FirstTaken();
    var s1 := Run(s, first);
    RunPass(s, first, how);
    PassGoesRound(s1, how, Run(s, first + Pass(how)));
    var s2 := Run(s, first + Pass(how));
    RunPass(s, first + Pass(how), how);
    PassGoesRound(s2, how, Run(s, first + Pass(how) + Pass(how)));
    var s3 := Run(s, first + Pass(how) + Pass(how));
    RunPass(s, first + Pass(how) + Pass(how), how);
    PassGoesRound(s3, how, Run(s, ThreePasses(how)));
  }

  /** An exception after each commit: the worker gives up, the job is reported as not delivered, and yet
      its row is visible. */
  lemma GivingUpCanLeaveRows()
    ensures var t := Run(Start(map[], map[]), ThreePasses(Raises(true)));
      |t.workers| == 1 && t.workers[0].phase == GaveUp && t.rows == map["mesh" := MESH_ROW]
  {
    ThreePassesGiveUp(Raises(true));
  }

  /** An exception in each commit: the worker gives up, and the object it had registered stays in the
      store with neither a row nor a record, unlike after a refusal. */
  lemma GivingUpForgetsWhatWasStored()
    ensures var t := Run(Start(map[], map[]), ThreePasses(Fails));
      |t.workers| == 1 && t.workers[0].phase == GaveUp && "m" in t.store && t.rows == map[] && t.records == {}
  {
    ThreePassesGiveUp(Fails);
  }

  /** The row under `k` was written by step `j` of the run: the commit of the pass `from` names. */
  ghost predicate CommittedAt(rows: map<string, Row>, store: map<string, Obj>, actions: seq<Action>, j: nat, k: string,
                              from: Writer)
    requires j < |actions|
  {
    var s, a := Run(Start(rows, store), actions[..j]), actions[j];
    && a.Commit? && a.how != Fails && a.w == from.worker < |s.workers| && s.workers[a.w].phase == Locked
    && s.workers[a.w].tries == from.pass && k in s.workers[a.w].pending && (from.raised <==> a.how.Raises?)
  }

  lemma OriginAfter(s: System, a: Action)
    ensures Step(s, a).origin != s.origin ==>
      && a.Commit? && a.how != Fails && a.w < |s.workers| && s.workers[a.w].phase == Locked
      && Step(s, a).origin == Wrote(s, a.w, a.how.Raises?)
  {
    if OfWorker(s, a) && !a.Commit? { NotACommit(s, a); }
  }

  lemma NotACommit(s: System, a: Action)
    requires OfWorker(s, a) && !a.Commit?
    ensures Step(s, a).origin == s.origin
  {
    match a
    case Begin(w, plan) => OriginOfBegin(s, w, plan);
    case Work(w, weather) =>
    case Fence(w) =>
    case Crash(w) =>
  }

  lemma OriginOfBegin(s: System, i: nat, plan: seq<Planned>)
    requires i < |s.workers|
    ensures Began(s, i, plan).origin == s.origin
  {
  }

  lemma {:induction false} OriginIsHistory(rows: map<string, Row>, store: map<string, Obj>, actions: seq<Action>,
                                           k: string)
    returns (j: nat)
    requires k in Run(Start(rows, store), actions).origin
    ensures j < |actions| && CommittedAt(rows, store, actions, j, k, Run(Start(rows, store), actions).origin[k])
  {
    var n := |actions| - 1;
    var s := Run(Start(rows, store), actions[..n]);
    OriginAfter(s, actions[n]);
    if k in s.origin && Step(s, actions[n]).origin[k] == s.origin[k] {
      j := OriginIsHistory(rows, store, actions[..n], k);
      assert actions[..n][..j] == actions[..j];
    } else {
      j := n;
    }
  }

  /** Who left the rows, exactly. Every row that appeared was written by one commit of the run, and its
      writer finished in that pass if and only if no exception followed that commit. */
  lemma WriterFinishedIff(rows: map<string, Row>, store: map<string, Obj>, actions: seq<Action>, k: string)
    returns (j: nat)
    requires k in Run(Start(rows, store), actions).origin
    ensures var s := Run(Start(rows, store), actions);
      var from := s.origin[k];
      && j < |actions| && CommittedAt(rows, store, actions, j, k, from) && from.worker < |s.workers|
      && (FinishedIn(s.workers[from.worker], from.pass) <==> !actions[j].how.Raises?)
  {
    var s := Run(Start(rows, store), actions);
    j := OriginIsHistory(rows, store, actions, k);
    RunKeeps(rows, store, actions);
    assert WrittenBy(s, k, s.origin[k]);
  }

  predicate NoneRaises(actions: seq<Action>) {
    forall a :: a in actions ==> !(a.Commit? && a.how.Raises?)
  }

  ghost predicate WritersFinished(s: System) {
    forall k :: k in s.origin ==>
      s.origin[k].worker < |s.workers| && FinishedIn(s.workers[s.origin[k].worker], s.origin[k].pass)
  }

  /** As long as nothing raises between a commit and the return, every row that appeared was written by
      the finishing pass of a worker that finished: one that was refused, crashed or gave up left none. */
  lemma {:induction false} OnlyFinishedWorkersLeaveRows(rows: map<string, Row>, store: map<string, Obj>,
                                                        actions: seq<Action>)
    requires NoneRaises(actions)
    ensures WritersFinished(Run(Start(rows, store), actions))
  {
    var s := Run(Start(rows, store), actions);
    forall k | k in s.origin
      ensures s.origin[k].worker < |s.workers| && FinishedIn(s.workers[s.origin[k].worker], s.origin[k].pass) {
      var j := WriterFinishedIff(rows, store, actions, k);
      assert actions[j] in actions;
    }
  }

  lemma RequiredRow(w: Worker, rows: map<string, Row>, p: Planned)
    requires ReportOk(w, rows) && !w.phase.Uploading? && p in w.plan && p.required
    ensures p.logicalKey in rows && AtMost(CurrencyAt(w), CurrencyOf(rows[p.logicalKey]))
    ensures RequiredAllDelivered(w.plan, w.report)
  {
    assert w.plan[..Done(w)] == w.plan;
    var landed :| Accounts(w.plan, landed, w.report);
    var j := RequiredLanded(w.plan, landed, w.report, p);
    assert w.report.stored[j] in w.report.stored;
    AllRequiredDelivered(w.plan, landed, w.report);
  }

  lemma FinishedReport(s: System, i: nat)
    requires PendingInv(s) && ReportsInv(s) && i < |s.workers| && s.workers[i].phase == Finished
    ensures ReportOk(s.workers[i], s.rows)
  {
    assert View(s, i) == s.rows;
  }

  /** A worker that finished delivered something required, and the row of every required item of its
      plan is visible from then on, at its currency or a newer one; so the check for a missing required
      artifact after the commit can never fire. */
  lemma FinishedIsReady(s: System, i: nat, p: Planned, initial: map<string, Row>)
    requires Inv(s, initial) && i < |s.workers| && s.workers[i].phase == Finished
    requires p in s.workers[i].plan && p.required
    ensures p.logicalKey in s.rows && AtMost(CurrencyAt(s.workers[i]), CurrencyOf(s.rows[p.logicalKey]))
    ensures PromisesSomething(s.workers[i].plan) && RequiredAllDelivered(s.workers[i].plan, s.workers[i].report)
  {
    FinishedReport(s, i);
    RequiredRow(s.workers[i], s.rows, p);
  }

  lemma StepGrows(s: System, a: Action, initial: map<string, Row>)
    requires Inv(s, initial)
    ensures RowsGrow(s.rows, Step(s, a).rows)
  {
    if Step(s, a).rows != s.rows {
      RowsAfter(s, a);
      CommitGrows(s, a.w, initial);
    }
  }

  lemma GrowsOn(a: map<string, Row>, b: map<string, Row>, c: map<string, Row>)
    requires RowsGrow(a, b) && RowsGrow(b, c)
    ensures RowsGrow(a, c)
  {
  }

  /** The rows of a job only move forward, over any run of any number of executions. */
  lemma {:induction false} RowsOnlyAdvance(s: System, actions: seq<Action>, initial: map<string, Row>)
    requires Inv(s, initial)
    ensures RowsGrow(s.rows, Run(s, actions).rows) && Inv(Run(s, actions), initial)
  {
    if actions != [] {
      var before, a := Run(s, actions[..|actions| - 1]), actions[|actions| - 1];
      RowsOnlyAdvance(s, actions[..|actions| - 1], initial);
      StepKeeps(before, a, initial);
      StepGrows(before, a, initial);
      GrowsOn(s.rows, before.rows, Step(before, a).rows);
    }
  }

  /** No worker goes round the loop more than three times. */
  lemma {:induction false} ThreeAttempts(rows: map<string, Row>, store: map<string, Obj>, actions: seq<Action>)
    ensures forall w :: w in Run(Start(rows, store), actions).workers ==> TriesOk(w)
  {
    if actions != [] {
      var before := Run(Start(rows, store), actions[..|actions| - 1]);
      ThreeAttempts(rows, store, actions[..|actions| - 1]);
      WorkersAfter(before, actions[|actions| - 1]);
      var t := Step(before, actions[|actions| - 1]);
      forall j | 0 <= j < |t.workers| ensures TriesOk(t.workers[j]) {
        if j < |before.workers| {
          assert Onward(before.workers[j], t.workers[j]) && before.workers[j] in before.workers;
        }
      }
    }
  }
}
