/** A pass that nothing disturbs: the protocol of the Delivery module does what the upload loop of the Artifacts
    module does, and then commits it (src/meshpipeline/application/artifact_uploader.py,
    execution_fence.py). */
module Passes {
  import opened Wrappers
  import opened Artifacts
  import opened Delivery

  /** Worker `i` is about to start a pass under the claim the job row names, and nobody has a transaction open. */
  ghost predicate Clear(s: System, i: nat) {
    && i < |s.workers| && s.workers[i].phase == Idle && s.owner == Some(s.workers[i].claim)
    && s.lock.None? && !s.ended && forall w :: w in s.workers ==> w.pending == map[]
  }

  function Works(i: nat, ws: seq<Weather>, k: nat): (r: seq<Action>)
    requires k <= |ws|
    ensures |r| == k
  {
    if k == 0 then [] else Works(i, ws, k - 1) + [Work(i, ws[k - 1])]
  }

  /** The upload loop after the first `k` items, over what the job has. */
  function Loop(s: System, i: nat, plan: seq<Planned>, ws: seq<Weather>, k: nat): (State, Option<seq<Orphan>>)
    requires i < |s.workers| && k <= |plan| == |ws|
  {
    Items(State(s.rows, s.store, EMPTY), plan, ws, CurrencyAt(s.workers[i]), k)
  }

  /** The worker after `k` items of the pass. */
  function Amid(s: System, i: nat, plan: seq<Planned>, loop: State, k: nat): Worker
    requires i < |s.workers|
  {
    s.workers[i].(plan := plan, report := loop.report, pending := Changed(s.rows, loop.rows),
                  phase := if k < |plan| then Uploading(k) else ReadyToFence)
  }

  function Midway(s: System, i: nat, plan: seq<Planned>, loop: State, k: nat): System
    requires i < |s.workers|
  {
    With(s, i, Amid(s, i, plan, loop, k)).(store := loop.store)
  }

  lemma NothingChanged(rows: map<string, Row>)
    ensures Changed(rows, rows) == map[]
  {
  }

  /** The transaction sees what the loop has. */
  lemma SeesTheLoop(s: System, i: nat, plan: seq<Planned>, ws: seq<Weather>, k: nat)
    requires i < |s.workers| && k <= |plan| == |ws|
    ensures View(Midway(s, i, plan, Loop(s, i, plan, ws, k).0, k), i) == Loop(s, i, plan, ws, k).0.rows
  {
    RowsAdvance(State(s.rows, s.store, EMPTY), plan, ws, CurrencyAt(s.workers[i]), k);
    ChangedRestores(s.rows, Loop(s, i, plan, ws, k).0.rows);
  }

  lemma NobodyBlocks(s: System, i: nat, plan: seq<Planned>, loop: State, k: nat, key: string)
    requires Clear(s, i)
    ensures !Blocked(Midway(s, i, plan, loop, k), i, key)
  {
    forall j | 0 <= j < |s.workers| && j != i ensures key !in Midway(s, i, plan, loop, k).workers[j].pending {
      assert s.workers[j] in s.workers;
    }
  }

  /** One item of the pass is one turn of the loop. */
  lemma OneItem(s: System, i: nat, plan: seq<Planned>, ws: seq<Weather>, k: nat)
    requires Clear(s, i) && k < |plan| == |ws| && Loop(s, i, plan, ws, k).1.None?
    ensures var (before, after, raised) :=
              (Loop(s, i, plan, ws, k).0, Loop(s, i, plan, ws, k + 1).0, Loop(s, i, plan, ws, k + 1).1);
      Step(Midway(s, i, plan, before, k), Work(i, ws[k]))
      == if raised.None? then Midway(s, i, plan, after, k + 1)
         else TryFails(Midway(s, i, plan, after, k + 1), i, raised.value)
  {
    var before := Loop(s, i, plan, ws, k).0;
    var t := Midway(s, i, plan, before, k);
    SeesTheLoop(s, i, plan, ws, k);
    NobodyBlocks(s, i, plan, before, k, plan[k].logicalKey);
    var (after, raised) := Item(State(View(t, i), t.store, t.workers[i].report), plan[k], ws[k],
        CurrencyAt(t.workers[i]));
    assert Advanced(t, i, k, after) == Midway(s, i, plan, after, k + 1);
  }

  lemma {:induction false} WorksAreTheLoop(s: System, i: nat, plan: seq<Planned>, ws: seq<Weather>, k: nat)
    requires Clear(s, i) && k <= |plan| == |ws| && PromisesSomething(plan) && Loop(s, i, plan, ws, k).1.None?
    ensures Run(Step(s, Begin(i, plan)), Works(i, ws, k)) == Midway(s, i, plan, Loop(s, i, plan, ws, k).0, k)
  {
    if k == 0 {
      NothingChanged(s.rows);
      assert s.workers[i] in s.workers;
    } else {
      assert Loop(s, i, plan, ws, k - 1).1.None?;
      WorksAreTheLoop(s, i, plan, ws, k - 1);
      RunMore(Step(s, Begin(i, plan)), Works(i, ws, k - 1), Work(i, ws[k - 1]));
      OneItem(s, i, plan, ws, k - 1);
    }
  }

  /** Where a pass that fails leaves the job: no row has changed, the orphans the exception named have their records,
      and the worker tries again unless it was its third time. */
  function FailedPass(s: System, i: nat, plan: seq<Planned>, after: State, orphans: seq<Orphan>): System
    requires i < |s.workers|
  {
    var w := s.workers[i];
    s.(workers := s.workers[i := w.(plan := plan, report := after.report, tries := w.tries + 1,
                                    phase := if w.tries < 2 then Idle else GaveUp)],
       store := after.store, records := s.records + AsSet(orphans))
  }

  function FinishedPass(s: System, i: nat, plan: seq<Planned>, after: State): System
    requires i < |s.workers|
  {
    var w := s.workers[i];
    s.(workers := s.workers[i := w.(plan := plan, report := after.report, phase := Finished)],
       rows := after.rows, store := after.store, records := s.records + AsSet(after.report.orphans),
       origin := s.origin + map k | k in Changed(s.rows, after.rows) :: Writer(i, w.tries, false))
  }

  lemma FailureLeft(s: System, i: nat, plan: seq<Planned>, after: State, k: nat, orphans: seq<Orphan>)
    requires Clear(s, i)
    ensures TryFails(Midway(s, i, plan, after, k), i, orphans) == FailedPass(s, i, plan, after, orphans)
  {
    assert s.workers[i] in s.workers;
    assert TryFails(Midway(s, i, plan, after, k), i, orphans).workers == FailedPass(s, i, plan, after, orphans).workers;
  }

  /** A REFUSED ITEM ENDS THE PASS. When the loop raises at item `k`, so does the pass. */
  lemma FailingPass(s: System, i: nat, plan: seq<Planned>, ws: seq<Weather>, k: nat)
    requires Clear(s, i) && k < |plan| == |ws| && PromisesSomething(plan)
    requires Loop(s, i, plan, ws, k).1.None? && Loop(s, i, plan, ws, k + 1).1.Some?
    ensures var (after, raised) := Loop(s, i, plan, ws, k + 1);
      Run(Step(s, Begin(i, plan)), Works(i, ws, k + 1)) == FailedPass(s, i, plan, after, raised.value)
  {
    var (after, raised) := Loop(s, i, plan, ws, k + 1);
    WorksAreTheLoop(s, i, plan, ws, k);
    RunMore(Step(s, Begin(i, plan)), Works(i, ws, k), Work(i, ws[k]));
    OneItem(s, i, plan, ws, k);
    FailureLeft(s, i, plan, after, k + 1, raised.value);
  }

  lemma FenceAndCommit(s: System, i: nat, plan: seq<Planned>, after: State)
    requires Clear(s, i) && s.rows.Keys <= after.rows.Keys
    ensures Step(Step(Midway(s, i, plan, after, |plan|), Fence(i)), Commit(i, Lands)) == FinishedPass(s, i, plan, after)
  {
    var t := Midway(s, i, plan, after, |plan|);
    var u := Step(t, Fence(i));
    assert u == With(t, i, t.workers[i].(phase := Locked)).(lock := Some(i));
    ChangedRestores(s.rows, after.rows);
    assert s.workers[i] in s.workers;
    assert Step(u, Commit(i, Lands)).workers == FinishedPass(s, i, plan, after).workers;
  }

  /** THE PASS IS THE LOOP. When the loop goes through, the pass ends finished: the visible rows are the ones the loop
      made, and its orphans have their records. */
  lemma {:induction false} FinishingPass(s: System, i: nat, plan: seq<Planned>, ws: seq<Weather>)
    requires Clear(s, i) && |plan| == |ws| && PromisesSomething(plan) && Loop(s, i, plan, ws, |plan|).1.None?
    ensures Run(Step(s, Begin(i, plan)), Works(i, ws, |plan|) + [Fence(i)] + [Commit(i, Lands)])
         == FinishedPass(s, i, plan, Loop(s, i, plan, ws, |plan|).0)
  {
    var after := Loop(s, i, plan, ws, |plan|).0;
    var begun, works := Step(s, Begin(i, plan)), Works(i, ws, |plan|);
    WorksAreTheLoop(s, i, plan, ws, |plan|);
    RunMore(begun, works, Fence(i));
    RunMore(begun, works + [Fence(i)], Commit(i, Lands));
    RowsAdvance(State(s.rows, s.store, EMPTY), plan, ws, CurrencyAt(s.workers[i]), |plan|);
    FenceAndCommit(s, i, plan, after);
  }

  // ---- which passes finish --------------------------------------------------------------------------------

  /** What the item meets: its own row of this very attempt, with other content. */
  ghost predicate Meets(s: System, i: nat, plan: seq<Planned>, ws: seq<Weather>, k: nat)
    requires i < |s.workers| && k < |plan| == |ws|
  {
    ClashesWith(Loop(s, i, plan, ws, k).0.rows, plan[k], ws[k], CurrencyAt(s.workers[i]))
  }

  /** Every required item's source is there, its upload arrives intact, its row can be written,
      and it meets no clash. */
  ghost predicate AllRequiredSucceed(s: System, i: nat, plan: seq<Planned>, ws: seq<Weather>, k: nat)
    requires i < |s.workers| && k <= |plan| == |ws|
  {
    forall j :: 0 <= j < k && plan[j].required ==> Lucky(ws[j]) && !Meets(s, i, plan, ws, j)
  }

  predicate Lucky(w: Weather) { w.source && w.upload.Some? && w.intact && w.write }

  lemma {:induction false} LoopGoesThroughIff(s: System, i: nat, plan: seq<Planned>, ws: seq<Weather>, k: nat)
    requires i < |s.workers| && k <= |plan| == |ws|
    ensures Loop(s, i, plan, ws, k).1.None? <==> AllRequiredSucceed(s, i, plan, ws, k)
  {
    if k > 0 {
      LoopGoesThroughIff(s, i, plan, ws, k - 1);
      ItemOutcome(Loop(s, i, plan, ws, k - 1).0, plan[k - 1], ws[k - 1], CurrencyAt(s.workers[i]));
    }
  }

  lemma {:induction false} FirstRaise(s: System, i: nat, plan: seq<Planned>, ws: seq<Weather>, n: nat) returns (k: nat)
    requires i < |s.workers| && n <= |plan| == |ws| && Loop(s, i, plan, ws, n).1.Some?
    ensures k < n && Loop(s, i, plan, ws, k).1.None? && Loop(s, i, plan, ws, k + 1).1.Some?
  {
    if Loop(s, i, plan, ws, n - 1).1.None? { k := n - 1; } else { k := FirstRaise(s, i, plan, ws, n - 1); }
  }

  /** WHICH PASSES FINISH. A pass that nothing disturbs finishes if and only if its plan promises something and all
      of its required items succeed; any other leaves every row as it was, and the worker tries again unless this was
      its third time. */
  lemma {:induction false} PassFinishesIff(s: System, i: nat, plan: seq<Planned>, ws: seq<Weather>)
    requires Clear(s, i) && |plan| == |ws|
    ensures PromisesSomething(plan) && AllRequiredSucceed(s, i, plan, ws, |plan|) ==>
      var t := Run(Step(s, Begin(i, plan)), Works(i, ws, |plan|) + [Fence(i)] + [Commit(i, Lands)]);
      t == FinishedPass(s, i, plan, Loop(s, i, plan, ws, |plan|).0)
    ensures !(PromisesSomething(plan) && AllRequiredSucceed(s, i, plan, ws, |plan|)) ==>
      exists k :: 0 <= k <= |plan| && Over(s, Run(Step(s, Begin(i, plan)), Works(i, ws, k)), i)
  {
    LoopGoesThroughIff(s, i, plan, ws, |plan|);
    if !PromisesSomething(plan) {
      assert Works(i, ws, 0) == [];
      assert s.workers[i] in s.workers;
      assert Over(s, Run(Step(s, Begin(i, plan)), Works(i, ws, 0)), i);
    } else if Loop(s, i, plan, ws, |plan|).1.None? {
      FinishingPass(s, i, plan, ws);
    } else {
      var k := FirstRaise(s, i, plan, ws, |plan|);
      FailingPass(s, i, plan, ws, k);
      assert Over(s, Run(Step(s, Begin(i, plan)), Works(i, ws, k + 1)), i);
    }
  }

  /** The pass is over and has delivered nothing. */
  ghost predicate Over(s: System, t: System, i: nat)
    requires i < |s.workers|
  {
    && t.rows == s.rows && t.origin == s.origin && |t.workers| == |s.workers|
    && t.workers[i].tries == s.workers[i].tries + 1
    && t.workers[i].phase == if s.workers[i].tries < 2 then Idle else GaveUp
  }

  // ---- what a finished pass shows --------------------------------------------------------------------------

  /** Each item has a key of its own. */
  ghost predicate OwnKeys(plan: seq<Planned>) {
    forall j, k :: 0 <= j < k < |plan| ==> plan[j].logicalKey != plan[k].logicalKey
  }

  /** `key` is none of the first `k` items'. */
  lemma {:induction false} UntouchedSoFar(s: System, i: nat, plan: seq<Planned>, ws: seq<Weather>, k: nat, key: string)
    requires i < |s.workers| && k <= |plan| == |ws| && forall j :: 0 <= j < k ==> plan[j].logicalKey != key
    ensures var rows := Loop(s, i, plan, ws, k).0.rows;
      (key in rows <==> key in s.rows) && (key in s.rows ==> rows[key] == s.rows[key])
  {
    if k > 0 {
      UntouchedSoFar(s, i, plan, ws, k - 1, key);
      ItemWritesOwnRow(Loop(s, i, plan, ws, k - 1).0, plan[k - 1], ws[k - 1], CurrencyAt(s.workers[i]));
      RowsAdvance(State(s.rows, s.store, EMPTY), plan, ws, CurrencyAt(s.workers[i]), k);
    }
  }

  /** The row an item that succeeds leaves: its own, unless a newer one is there. */
  function RowLeft(rows: map<string, Row>, p: Planned, obj: Obj, c: Currency): Row {
    if p.logicalKey in rows && Below(c, CurrencyOf(rows[p.logicalKey])) then rows[p.logicalKey]
    else Row(p.kind, p.objectKey, obj, c.generation, c.attempt)
  }

  predicate Shows(rows: map<string, Row>, before: map<string, Row>, p: Planned, w: Weather, c: Currency) {
    w.upload.Some? && p.logicalKey in rows && rows[p.logicalKey] == RowLeft(before, p, w.upload.value, c)
  }

  lemma {:induction false} ItemShown(s: System, i: nat, plan: seq<Planned>, ws: seq<Weather>, k: nat, n: nat)
    requires i < |s.workers| && k < n <= |plan| == |ws| && OwnKeys(plan)
    requires Loop(s, i, plan, ws, n).1.None? && Lucky(ws[k]) && !Meets(s, i, plan, ws, k)
    ensures Shows(Loop(s, i, plan, ws, n).0.rows, s.rows, plan[k], ws[k], CurrencyAt(s.workers[i]))
  {
    var c := CurrencyAt(s.workers[i]);
    if n == k + 1 {
      UntouchedSoFar(s, i, plan, ws, k, plan[k].logicalKey);
      Registered(Loop(s, i, plan, ws, k).0.rows, plan[k], ws[k].upload.value, c);
    } else {
      ItemShown(s, i, plan, ws, k, n - 1);
      ItemWritesOwnRow(Loop(s, i, plan, ws, n - 1).0, plan[n - 1], ws[n - 1], c);
    }
  }

  /** A DELIVERY THAT NOTHING DISTURBS DELIVERS. When every item's upload arrives intact and can be written, and no row
      of this very attempt is there, the pass finishes, and the visible row of every item is the one it uploaded,
      except where a newer one is. */
  lemma {:induction false} GoodWeatherDelivers(s: System, i: nat, plan: seq<Planned>, ws: seq<Weather>)
    requires Clear(s, i) && |plan| == |ws| && PromisesSomething(plan) && OwnKeys(plan)
    requires forall j :: 0 <= j < |ws| ==> Lucky(ws[j])
    requires forall k :: k in s.rows ==> CurrencyOf(s.rows[k]) != CurrencyAt(s.workers[i])
    ensures var t := Run(Step(s, Begin(i, plan)), Works(i, ws, |plan|) + [Fence(i)] + [Commit(i, Lands)]);
      && |t.workers| == |s.workers| && t.workers[i].phase == Finished
      && forall j :: 0 <= j < |plan| ==> Shows(t.rows, s.rows, plan[j], ws[j], CurrencyAt(s.workers[i]))
  {
    forall j | 0 <= j < |plan| ensures !Meets(s, i, plan, ws, j) {
      UntouchedSoFar(s, i, plan, ws, j, plan[j].logicalKey);
    }
    PassFinishesIff(s, i, plan, ws);
    LoopGoesThroughIff(s, i, plan, ws, |plan|);
    forall j | 0 <= j < |plan|
      ensures Shows(Loop(s, i, plan, ws, |plan|).0.rows, s.rows, plan[j], ws[j], CurrencyAt(s.workers[i]))
    {
      ItemShown(s, i, plan, ws, j, |plan|);
    }
  }

  // ---- how else a pass can end -----------------------------------------------------------------------------

  /** What the worker's other steps leave of it, for every system: its own entry becomes `w`, and the lock is free. */
  ghost predicate Left(s: System, t: System, i: nat, w: Worker) {
    && i < |s.workers| && t.workers == s.workers[i := w] && t.lock == None
    && t.store == s.store && t.owner == s.owner && t.ended == s.ended && t.generation == s.generation
  }

  /** A COMMIT IN EACH OF ITS ENDINGS. One that fails shows nothing; one that lands shows the rows and records the
      orphans; one that lands and then raises shows the rows too, and has recorded the orphans or not. */
  lemma CommitEnds(s: System, i: nat, how: Ending)
    requires i < |s.workers| && s.workers[i].phase == Locked && s.lock == Some(i)
    ensures var (w, t) := (s.workers[i], Step(s, Commit(i, how)));
      var again := w.(pending := map[], tries := w.tries + 1, phase := if w.tries < 2 then Idle else GaveUp);
      match how
      case Fails => Left(s, t, i, again) && t.rows == s.rows && t.records == s.records
      case Lands =>
        && Left(s, t, i, w.(pending := map[], phase := Finished))
        && t.rows == s.rows + w.pending && t.records == s.records + AsSet(w.report.orphans)
      case Raises(recorded) =>
        && Left(s, t, i, again) && t.rows == s.rows + w.pending
        && t.records == if recorded then s.records + AsSet(w.report.orphans) else s.records
  {
  }

  /** A worker that crashes shows nothing more and holds up nobody. */
  lemma CrashEnds(s: System, i: nat)
    requires i < |s.workers| && s.workers[i].phase !in {Finished, Fenced, GaveUp, Dead}
    requires s.lock == None || s.lock == Some(i)
    ensures var t := Step(s, Crash(i));
      && Left(s, t, i, s.workers[i].(phase := Dead, pending := map[]))
      && t.rows == s.rows && t.records == s.records && t.origin == s.origin
  {
  }

  /** A CANCEL STOPS EVERYBODY. On any reachable job whose row is not locked, whatever happens after a cancel, no row
      changes any more and no worker that had not finished does. */
  lemma {:induction false} CancelStopsEverybody(rows: map<string, Row>, store: map<string, Obj>, before: seq<Action>,
                                                actions: seq<Action>, i: nat)
    requires var s := Run(Start(rows, store), before); s.lock.None? && i < |s.workers| && s.workers[i].phase != Finished
    ensures var s := Run(Start(rows, store), before);
      var t := Run(Step(s, Cancel), actions);
      t.rows == s.rows && i < |t.workers| && t.workers[i].phase != Finished
  {
    var s := Run(Start(rows, store), before);
    RunKeeps(rows, store, before);
    StepKeeps(s, Cancel, rows);
    var ended := Step(s, Cancel);
    EndedStaysAsItIs(ended, actions, rows);
    EndedHasNoOwner(rows, store, before);
    OustedNeverFinishes(ended, actions, i, rows);
  }

  /** A job that has ended names no owner. */
  lemma {:induction false} EndedHasNoOwner(rows: map<string, Row>, store: map<string, Obj>, actions: seq<Action>)
    ensures var s := Run(Start(rows, store), actions); s.ended ==> s.owner.None?
  {
    if actions != [] {
      var n := |actions| - 1;
      EndedHasNoOwner(rows, store, actions[..n]);
      StepEnds(Run(Start(rows, store), actions[..n]), actions[n]);
    }
  }

  lemma StepEnds(s: System, a: Action)
    requires s.ended ==> s.owner.None?
    ensures Step(s, a).ended ==> Step(s, a).owner.None?
  {
    if OfWorker(s, a) { StepIsLocal(s, a); }
  }
}
