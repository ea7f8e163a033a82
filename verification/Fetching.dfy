/** Whether the artifacts a user sees can be downloaded: over any run, every row against the object it points
    to. Objects are uploaded under the same key at every attempt, so a later pass works on the object of a
    row that is already there (src/meshpipeline/application/artifact_uploader.py). */
module Fetching {
  import opened Wrappers
  import opened Artifacts
  import opened Delivery
  import opened Leftovers

  /** Every visible row, and every row an open transaction has pending, can be fetched. */
  ghost predicate AllFetch(s: System) {
    && (forall k :: k in s.rows ==> Fetches(s.rows[k], s.store))
    && (forall j, k :: 0 <= j < |s.workers| && k in s.workers[j].pending ==> Fetches(s.workers[j].pending[k], s.store))
  }

  /** The step puts an object under a key. */
  predicate Puts(s: System, a: Action) { a.Work? && Works(s, a.w) && Attempted(a.weather) }

  /** It puts another object where the row points, or discards the one it has put there. */
  predicate Spoils(s: System, a: Action, r: Row)
    requires Puts(s, a)
  {
    && r.storageKey == NextItem(s, a.w).objectKey
    && (!Stays(TriedNow(s, a.w, a.weather)) || a.weather.upload.value.checksum != r.obj.checksum)
  }

  /** The pending row is still pending after the step: it is another worker's, or the item neither aborts
      the pass nor replaces the row. */
  predicate Remains(s: System, a: Action, j: nat, k: string)
    requires Puts(s, a)
  {
    || j != a.w
    || (!Aborts(s, a.w, a.weather)
        && (k != NextItem(s, a.w).logicalKey || !Succeeded(TriedNow(s, a.w, a.weather))))
  }

  predicate SpoilsPending(s: System, a: Action, j: nat, k: string)
    requires Puts(s, a)
  {
    j < |s.workers| && k in s.workers[j].pending && Remains(s, a, j, k) && Spoils(s, a, s.workers[j].pending[k])
  }

  /** The step takes the object away from a visible row or from a pending one. */
  ghost predicate Harms(s: System, a: Action) {
    && Puts(s, a)
    && ((exists k :: k in s.rows && Spoils(s, a, s.rows[k])) || exists j: nat, k :: SpoilsPending(s, a, j, k))
  }

  // ---- steps that put nothing ----------------------------------------------------------------------------

  lemma PendingAfter(s: System, a: Action)
    requires OfWorker(s, a) && !a.Work?
    ensures a.w < |Step(s, a).workers|
    ensures var t := Step(s, a).workers[a.w]; t.pending == s.workers[a.w].pending || t.pending == map[]
  {
    StepIsLocal(s, a);
    match a
    case Begin(i, plan) => PendingOfBegin(s, i, plan);
    case Fence(i) =>
    case Commit(i, how) => PendingOfCommit(s, i, how);
    case Crash(i) =>
  }

  lemma PendingOfBegin(s: System, i: nat, plan: seq<Planned>)
    requires i < |s.workers|
    ensures var t := Began(s, i, plan).workers[i]; t.pending == s.workers[i].pending || t.pending == map[]
  {
  }

  lemma PendingOfCommit(s: System, i: nat, how: Ending)
    requires i < |s.workers|
    ensures var t := Committed(s, i, how).workers[i]; t.pending == s.workers[i].pending || t.pending == map[]
  {
  }

  /** No row of `t` is new. */
  ghost predicate NoNewRows(s: System, t: System) {
    && (forall k :: k in t.rows ==> (k in s.rows && t.rows[k] == s.rows[k]) || IsPending(s, t.rows[k]))
    && (forall j, k :: 0 <= j < |t.workers| && k in t.workers[j].pending ==> IsPending(s, t.workers[j].pending[k]))
  }

  ghost predicate IsPending(s: System, r: Row) {
    exists j, k :: 0 <= j < |s.workers| && k in s.workers[j].pending && s.workers[j].pending[k] == r
  }

  lemma NoNewRowsFetch(s: System, t: System)
    requires AllFetch(s) && NoNewRows(s, t) && t.store == s.store
    ensures AllFetch(t)
  {
    forall k | k in t.rows ensures Fetches(t.rows[k], t.store) {
      if !(k in s.rows && t.rows[k] == s.rows[k]) { assert IsPending(s, t.rows[k]); }
    }
    forall j, k | 0 <= j < |t.workers| && k in t.workers[j].pending ensures Fetches(t.workers[j].pending[k], t.store) {
      assert IsPending(s, t.workers[j].pending[k]);
    }
  }

  lemma WorkerStepNoNewRows(s: System, a: Action)
    requires OfWorker(s, a) && !a.Work?
    ensures NoNewRows(s, Step(s, a))
  {
    var t := Step(s, a);
    StepIsLocal(s, a);
    PendingAfter(s, a);
    forall k | k in t.rows ensures (k in s.rows && t.rows[k] == s.rows[k]) || IsPending(s, t.rows[k]) {
      if !(k in s.rows && t.rows[k] == s.rows[k]) {
        assert k in s.workers[a.w].pending && s.workers[a.w].pending[k] == t.rows[k];
      }
    }
    forall j, k | 0 <= j < |t.workers| && k in t.workers[j].pending ensures IsPending(s, t.workers[j].pending[k]) {
      if j != a.w { assert t.workers[j] == s.workers[j]; }
      assert k in s.workers[j].pending && s.workers[j].pending[k] == t.workers[j].pending[k];
    }
  }

  lemma OtherStepNoNewRows(s: System, a: Action)
    requires !OfWorker(s, a)
    ensures NoNewRows(s, Step(s, a))
  {
    var t := Step(s, a);
    forall j, k | 0 <= j < |t.workers| && k in t.workers[j].pending ensures IsPending(s, t.workers[j].pending[k]) {
      assert j < |s.workers| && s.workers[j].pending[k] == t.workers[j].pending[k];
    }
  }

  lemma IdleWorkFetches(s: System, a: Action)
    requires AllFetch(s) && a.Work? && !Works(s, a.w)
    ensures AllFetch(Step(s, a))
  {
  }

  lemma QuietStepFetches(s: System, a: Action)
    requires AllFetch(s) && !(a.Work? && Works(s, a.w))
    ensures AllFetch(Step(s, a))
  {
    if a.Work? {
      IdleWorkFetches(s, a);
    } else {
      OnlyWorkStores(s, a);
      if OfWorker(s, a) { WorkerStepNoNewRows(s, a); } else { OtherStepNoNewRows(s, a); }
      NoNewRowsFetch(s, Step(s, a));
    }
  }

  // ---- a worked item ----------------------------------------------------------------------------------------

  /** The store after an item: one key has its object, or has none, or nothing changed. */
  lemma StoreOf(s: System, i: nat, weather: Weather)
    requires Works(s, i)
    ensures Worked(s, i, weather).store ==
      if !Attempted(weather) then s.store
      else if Stays(TriedNow(s, i, weather)) then s.store[NextItem(s, i).objectKey := weather.upload.value]
      else s.store - {NextItem(s, i).objectKey}
  {
    var w := s.workers[i];
    WorkedStore(s, i, weather);
    ItemStore(State(View(s, i), s.store, w.report), NextItem(s, i), weather, CurrencyAt(w));
  }

  /** What a row that fetched before does after the step. */
  lemma RowAfter(s: System, a: Action, r: Row)
    requires a.Work? && Works(s, a.w) && Fetches(r, s.store)
    ensures Fetches(r, Step(s, a).store) <==> !(Puts(s, a) && Spoils(s, a, r))
  {
    StoreOf(s, a.w, a.weather);
  }

  function NewRow(s: System, a: Action): Row
    requires Puts(s, a)
  {
    var c := CurrencyAt(s.workers[a.w]);
    Row(NextItem(s, a.w).kind, NextItem(s, a.w).objectKey, a.weather.upload.value, c.generation, c.attempt)
  }

  /** The worker's pending rows afterwards: none if the item aborts the pass; else those that remain and,
      if the item lands on a row that is no newer, its own. */
  lemma PendingOfWork(s: System, a: Action, k: string)
    requires a.Work? && Works(s, a.w) && PendingInv(s)
    ensures var w, t := s.workers[a.w], Step(s, a).workers[a.w];
      k in t.pending ==>
        || (Puts(s, a) && k == NextItem(s, a.w).logicalKey && Succeeded(TriedNow(s, a.w, a.weather))
            && t.pending[k] == NewRow(s, a))
        || (k in w.pending && t.pending[k] == w.pending[k] && (Puts(s, a) ==> Remains(s, a, a.w, k)))
  {
    var w := s.workers[a.w];
    var at := State(View(s, a.w), s.store, w.report);
    ItemOutcome(at, NextItem(s, a.w), a.weather, CurrencyAt(w));
    ItemRows(at, NextItem(s, a.w), a.weather, CurrencyAt(w));
  }

  /** A pending row that remains is pending or visible afterwards. */
  lemma RemainingRow(s: System, a: Action, j: nat, k: string)
    requires Puts(s, a) && j < |s.workers| && k in s.workers[j].pending && Remains(s, a, j, k)
    ensures var t, r := Step(s, a), s.workers[j].pending[k];
      (k in t.rows && t.rows[k] == r) || (j < |t.workers| && k in t.workers[j].pending && t.workers[j].pending[k] == r)
  {
    var t := Step(s, a);
    StepIsLocal(s, a);
    if j != a.w {
      assert t.workers[j] == s.workers[j];
    } else {
      var w := s.workers[a.w];
      var at := State(View(s, a.w), s.store, w.report);
      ItemOutcome(at, NextItem(s, a.w), a.weather, CurrencyAt(w));
      ItemRows(at, NextItem(s, a.w), a.weather, CurrencyAt(w));
    }
  }

  lemma NewRowFetches(s: System, a: Action)
    requires Puts(s, a) && Succeeded(TriedNow(s, a.w, a.weather))
    ensures Fetches(NewRow(s, a), Step(s, a).store)
  {
    StoreOf(s, a.w, a.weather);
  }

  lemma HarmlessWorkFetches(s: System, a: Action)
    requires AllFetch(s) && PendingInv(s) && a.Work? && Works(s, a.w) && !Harms(s, a)
    ensures AllFetch(Step(s, a))
  {
    var t := Step(s, a);
    WorkIsLocal(s, a.w, a.weather);
    forall k | k in t.rows ensures Fetches(t.rows[k], t.store) { RowAfter(s, a, s.rows[k]); }
    forall j, k | 0 <= j < |t.workers| && k in t.workers[j].pending ensures Fetches(t.workers[j].pending[k], t.store) {
      PendingFetches(s, a, j, k);
    }
  }

  lemma PendingFetches(s: System, a: Action, j: nat, k: string)
    requires AllFetch(s) && PendingInv(s) && a.Work? && Works(s, a.w) && !Harms(s, a)
    requires j < |Step(s, a).workers| && k in Step(s, a).workers[j].pending
    ensures Fetches(Step(s, a).workers[j].pending[k], Step(s, a).store)
  {
    WorkIsLocal(s, a.w, a.weather);
    if j == a.w { PendingOfWork(s, a, k); } else { assert Step(s, a).workers[j] == s.workers[j]; }
    if k in s.workers[j].pending && Step(s, a).workers[j].pending[k] == s.workers[j].pending[k]
       && (Puts(s, a) ==> Remains(s, a, j, k)) {
      RowAfter(s, a, s.workers[j].pending[k]);
      assert Puts(s, a) ==> !SpoilsPending(s, a, j, k);
    } else {
      NewRowFetches(s, a);
    }
  }

  lemma VisibleHarmShows(s: System, a: Action, k: string)
    requires AllFetch(s) && Puts(s, a) && k in s.rows && Spoils(s, a, s.rows[k])
    ensures !AllFetch(Step(s, a))
  {
    WorkIsLocal(s, a.w, a.weather);
    RowAfter(s, a, s.rows[k]);
    assert k in Step(s, a).rows && Step(s, a).rows[k] == s.rows[k];
  }

  lemma PendingHarmShows(s: System, a: Action, j: nat, k: string)
    requires AllFetch(s) && Puts(s, a) && SpoilsPending(s, a, j, k)
    ensures !AllFetch(Step(s, a))
  {
    RowAfter(s, a, s.workers[j].pending[k]);
    RemainingRow(s, a, j, k);
  }

  lemma HarmShows(s: System, a: Action)
    requires AllFetch(s) && Harms(s, a)
    ensures !AllFetch(Step(s, a))
  {
    if k :| k in s.rows && Spoils(s, a, s.rows[k]) {
      VisibleHarmShows(s, a, k);
    } else {
      var j: nat, k :| SpoilsPending(s, a, j, k);
      PendingHarmShows(s, a, j, k);
    }
  }

  /** ONE STEP, EXACTLY. Where all rows can be fetched they still can after a step unless it puts other
      content under the key of a row that stays, or discards what it put there. */
  lemma StepFetchesIff(s: System, a: Action, initial: map<string, Row>)
    requires Inv(s, initial) && AllFetch(s)
    ensures AllFetch(Step(s, a)) <==> !Harms(s, a)
  {
    if a.Work? && Works(s, a.w) {
      if Harms(s, a) { HarmShows(s, a); } else { HarmlessWorkFetches(s, a); }
    } else {
      QuietStepFetches(s, a);
    }
  }

  // ---- over every run -----------------------------------------------------------------------------------------

  /** In every state of the run all rows can be fetched. */
  ghost predicate AlwaysFetch(start: System, actions: seq<Action>) {
    AllFetch(Run(start, actions)) && (actions == [] || AlwaysFetch(start, actions[..|actions| - 1]))
  }

  /** No step of the run does harm. */
  ghost predicate NeverHarms(start: System, actions: seq<Action>) {
    if actions == [] then true
    else
      var n := |actions| - 1;
      !Harms(Run(start, actions[..n]), actions[n]) && NeverHarms(start, actions[..n])
  }

  lemma {:induction false} FetchAt(start: System, actions: seq<Action>, n: nat)
    requires AlwaysFetch(start, actions) && n <= |actions|
    ensures AllFetch(Run(start, actions[..n]))
  {
    if n < |actions| {
      FetchAt(start, actions[..|actions| - 1], n);
      assert actions[..|actions| - 1][..n] == actions[..n];
    } else {
      assert actions[..n] == actions;
    }
  }

  /** EVERY RUN, EXACTLY. Starting from rows that can be fetched, every row of every state can be fetched if
      and only if no step of the run does harm. */
  lemma {:induction false} AlwaysFetchIff(rows: map<string, Row>, store: map<string, Obj>, actions: seq<Action>)
    requires forall k :: k in rows ==> Fetches(rows[k], store)
    ensures AlwaysFetch(Start(rows, store), actions) <==> NeverHarms(Start(rows, store), actions)
  {
    if actions != [] {
      var n := |actions| - 1;
      AlwaysFetchIff(rows, store, actions[..n]);
      if AlwaysFetch(Start(rows, store), actions[..n]) {
        RunKeeps(rows, store, actions[..n]);
        StepFetchesIff(Run(Start(rows, store), actions[..n]), actions[n], rows);
      }
    }
  }

  // ---- one content for each key ------------------------------------------------------------------------------

  /** All rows, visible and pending, are of the content that their key stands for. */
  ghost predicate RowsMatch(s: System, content: string -> Option<string>) {
    && (forall k :: k in s.rows ==> Matches(s.rows[k], content))
    && (forall j, k :: 0 <= j < |s.workers| && k in s.workers[j].pending ==> Matches(s.workers[j].pending[k], content))
  }

  predicate Matches(r: Row, content: string -> Option<string>) { r.obj.checksum == content(r.storageKey) }

  /** The object an item puts is of its key's content, and is not discarded under the key of a row. */
  ghost predicate Gentle(s: System, a: Action, content: string -> Option<string>) {
    Puts(s, a) ==>
      var key := NextItem(s, a.w).objectKey;
      && a.weather.upload.value.checksum == content(key)
      && (Stays(TriedNow(s, a.w, a.weather)) || !Pointed(s, key))
  }

  ghost predicate Pointed(s: System, key: string) {
    || (exists k :: k in s.rows && s.rows[k].storageKey == key)
    || (exists j, k :: 0 <= j < |s.workers| && k in s.workers[j].pending && s.workers[j].pending[k].storageKey == key)
  }

  ghost predicate AllGentle(start: System, actions: seq<Action>, content: string -> Option<string>) {
    if actions == [] then true
    else
      var n := |actions| - 1;
      Gentle(Run(start, actions[..n]), actions[n], content) && AllGentle(start, actions[..n], content)
  }

  lemma GentleDoesNoHarm(s: System, a: Action, content: string -> Option<string>)
    requires RowsMatch(s, content) && Gentle(s, a, content)
    ensures !Harms(s, a)
  {
    if Puts(s, a) {
      forall k | k in s.rows ensures !Spoils(s, a, s.rows[k]) { assert Matches(s.rows[k], content); }
      forall j: nat, k | j < |s.workers| && k in s.workers[j].pending ensures !SpoilsPending(s, a, j, k) {
        assert Matches(s.workers[j].pending[k], content);
      }
    }
  }

  lemma NoNewRowsMatch(s: System, t: System, content: string -> Option<string>)
    requires RowsMatch(s, content) && NoNewRows(s, t)
    ensures RowsMatch(t, content)
  {
    forall k | k in t.rows ensures Matches(t.rows[k], content) {
      if !(k in s.rows && t.rows[k] == s.rows[k]) { assert IsPending(s, t.rows[k]); }
    }
    forall j, k | 0 <= j < |t.workers| && k in t.workers[j].pending ensures Matches(t.workers[j].pending[k], content) {
      assert IsPending(s, t.workers[j].pending[k]);
    }
  }

  lemma WorkMatches(s: System, a: Action, content: string -> Option<string>)
    requires RowsMatch(s, content) && PendingInv(s) && a.Work? && Works(s, a.w) && Gentle(s, a, content)
    ensures RowsMatch(Step(s, a), content)
  {
    var t := Step(s, a);
    WorkIsLocal(s, a.w, a.weather);
    forall j, k | 0 <= j < |t.workers| && k in t.workers[j].pending ensures Matches(t.workers[j].pending[k], content) {
      if j == a.w { PendingOfWork(s, a, k); } else { assert t.workers[j] == s.workers[j]; }
    }
  }

  lemma StepMatches(s: System, a: Action, content: string -> Option<string>)
    requires RowsMatch(s, content) && PendingInv(s) && Gentle(s, a, content)
    ensures RowsMatch(Step(s, a), content)
  {
    if a.Work? {
      if Works(s, a.w) { WorkMatches(s, a, content); }
    } else {
      if OfWorker(s, a) { WorkerStepNoNewRows(s, a); } else { OtherStepNoNewRows(s, a); }
      NoNewRowsMatch(s, Step(s, a), content);
    }
  }

  lemma {:induction false} GentleRuns(rows: map<string, Row>, store: map<string, Obj>, actions: seq<Action>,
                                      content: string -> Option<string>)
    requires forall k :: k in rows ==> Matches(rows[k], content)
    requires AllGentle(Start(rows, store), actions, content)
    ensures RowsMatch(Run(Start(rows, store), actions), content) && NeverHarms(Start(rows, store), actions)
  {
    if actions != [] {
      var n := |actions| - 1;
      GentleRuns(rows, store, actions[..n], content);
      RunKeeps(rows, store, actions[..n]);
      GentleDoesNoHarm(Run(Start(rows, store), actions[..n]), actions[n], content);
      StepMatches(Run(Start(rows, store), actions[..n]), actions[n], content);
    }
  }

  /** So where a key always stands for one content, and nothing put over the key of a row is discarded, each
      row can be fetched in every reachable state. */
  lemma {:induction false} SameContentFetches(rows: map<string, Row>, store: map<string, Obj>, actions: seq<Action>,
                                              content: string -> Option<string>)
    requires forall k :: k in rows ==> Fetches(rows[k], store) && Matches(rows[k], content)
    requires AllGentle(Start(rows, store), actions, content)
    ensures AlwaysFetch(Start(rows, store), actions)
  {
    GentleRuns(rows, store, actions, content);
    AlwaysFetchIff(rows, store, actions);
  }

  // ---- a run that loses an object ------------------------------------------------------------------------------

  /** An upload that turns out damaged and is deleted. */
  const DAMAGED := Weather(true, Some(BYTES), false, true, true)

  lemma DamagedUpload(s: System, w: Worker)
    requires Retrying(s, w) && w.phase == Idle && s.rows == map["mesh" := MESH_ROW]
    ensures var u := Step(s, PASS[0]);
      var t := Step(u, Work(0, DAMAGED));
      Harms(u, Work(0, DAMAGED)) && t.rows == s.rows && "m" !in t.store
  {
    var u := Step(s, PASS[0]);
    PassBegins(s, w);
    assert !Blocked(u, 0, "mesh");
    StoreOf(u, 0, DAMAGED);
    WorkIsLocal(u, 0, DAMAGED);
    assert "mesh" in u.rows && Spoils(u, Work(0, DAMAGED), u.rows["mesh"]);
  }

  /** A pass lands and then raises; the next pass uploads the same key, finds the object damaged and deletes
      it. The row stays visible and its object is gone. */
  lemma RowLosesItsObject()
    ensures var start, before := Start(map[], map[]), [Take(1, false, 0)] + Pass(Raises(true)) + [PASS[0]];
      && Harms(Run(start, before), Work(0, DAMAGED))
      && var t := Run(start, before + [Work(0, DAMAGED)]);
         t.rows == map["mesh" := MESH_ROW] && MESH_ROW.storageKey !in t.store
  {
    var start, first := Start(map[], map[]), [Take(1, false, 0)];
    RunMore(start, [], first[0]);
    assert [] + first == first;
    FirstTaken();
    RunPass(start, first, Raises(true));
    var landed := first + Pass(Raises(true));
    var s := Run(start, landed);
    PassGoesRound(Run(start, first), Raises(true), s);
    RunMore(start, landed, PASS[0]);
    RunMore(start, landed + [PASS[0]], Work(0, DAMAGED));
    DamagedUpload(s, s.workers[0]);
  }
}
